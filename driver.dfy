/** The turn driver (handleTurn in coup-backend/src/namespaceEvents.ts): the turn
    player is offered the registered actions whose canExecute holds, and their answer
    is checked again before the chosen handler runs. The registry is the object
    literal `cases`, keyed by each handler's case name; the answer is a parameter,
    None while the player has not answered (the driver sets no timer). */
module Driver {
  import opened Errors
  import opened Players
  import opened Game
  import opened BaseCases
  import opened CaptainCases
  import opened AssassinCases

  /** The seven handlers. */
  datatype Action = Kill | Tax | Income | Embassador | Coup | ForeignAid | Steal

  /** Each handler's canExecute: the Assassin and the Captain refine the default
      rule, the others inherit it. */
  function ActionRule(a: Action, gs: GameState): (r: Result<bool>)
    reads gs`players, gs`currentTurnPlayerIndex, gs.players
    ensures a == Kill ==> r == CanAssassinate(gs)
    ensures a == Steal ==> r == CanSteal(gs)
    ensures a != Kill && a != Steal ==> r == DefaultRule(gs)
    ensures r == Ok(true) ==> gs.GetCurrentTurnPlayer() != null && gs.GetCurrentTurnPlayer().coins < MaxCoinsToAct
  {
    match a
    case Kill => CanAssassinate(gs)
    case Steal => CanSteal(gs)
    case _ => DefaultRule(gs)
  }

  /** A key of the registry and the handler stored under it. */
  datatype Entry = Entry(name: string, action: Action)

  /** The first position holding key `name`, or -1. */
  function IndexOfName(reg: seq<Entry>, name: string): (i: int)
    ensures -1 <= i < |reg|
    ensures 0 <= i ==> reg[i].name == name && forall k :: 0 <= k < i ==> reg[k].name != name
    ensures i == -1 <==> forall k :: 0 <= k < |reg| ==> reg[k].name != name
  {
    if reg == [] then -1
    else if reg[0].name == name then 0
    else
      var j := IndexOfName(reg[1..], name);
      if j == -1 then -1 else j + 1
  }

  /** `cases[name]`: the handler stored under the key, if any. */
  function Lookup(reg: seq<Entry>, name: string): (r: Option<Action>)
    ensures r.None? <==> forall k :: 0 <= k < |reg| ==> reg[k].name != name
    ensures r.Some? ==> exists k :: 0 <= k < |reg| && reg[k] == Entry(name, r.value)
  {
    var i := IndexOfName(reg, name);
    if i == -1 then None else Some(reg[i].action)
  }

  /** One computed key of an object literal: a new key is added last, a repeated one
      keeps its place and takes the new value. */
  function Put(reg: seq<Entry>, e: Entry): (r: seq<Entry>)
    ensures e in r && |reg| <= |r| <= |reg| + 1
    ensures forall x :: x in r ==> x in reg || x == e
    ensures forall k :: 0 <= k < |reg| && reg[k].name != e.name ==> r[k] == reg[k]
  {
    var i := IndexOfName(reg, e.name);
    if i == -1 then reg + [e] else assert reg[i := e][i] == e; reg[i := e]
  }

  /** The object literal over `entries`, in writing order. */
  function Register(entries: seq<Entry>): (r: seq<Entry>)
    ensures |r| <= |entries|
    ensures forall x :: x in r ==> x in entries
  {
    if entries == [] then [] else Put(Register(entries[..|entries| - 1]), entries[|entries| - 1])
  }

  /** No key appears twice. */
  predicate DistinctNames(reg: seq<Entry>) {
    forall i, j :: 0 <= i < j < |reg| ==> reg[i].name != reg[j].name
  }

  /** The handler the last entry with key `name` names. */
  function LastWith(entries: seq<Entry>, name: string): Option<Action> {
    if entries == [] then None
    else if entries[|entries| - 1].name == name then Some(entries[|entries| - 1].action)
    else LastWith(entries[..|entries| - 1], name)
  }

  /** A key is found where it first occurs. */
  lemma IndexOfNameIs(reg: seq<Entry>, name: string, i: int)
    requires 0 <= i < |reg| && reg[i].name == name
    requires forall k :: 0 <= k < i ==> reg[k].name != name
    ensures IndexOfName(reg, name) == i
  {
  }

  /** After a Put, the key put holds the new handler and every other key what it
      held before. */
  lemma LookupPut(reg: seq<Entry>, e: Entry, name: string)
    ensures Lookup(Put(reg, e), name) == if name == e.name then Some(e.action) else Lookup(reg, name)
  {
    var i, j, p := IndexOfName(reg, e.name), IndexOfName(reg, name), Put(reg, e);
    if name == e.name {
      var at := if i == -1 then |reg| else i;
      assert p[at] == e;
      assert forall k :: 0 <= k < at ==> p[k] == reg[k];
      IndexOfNameIs(p, name, at);
    } else if j == -1 {
      assert forall k :: 0 <= k < |p| ==> p[k].name != name by {
        assert forall k :: 0 <= k < |p| && k != i && k < |reg| ==> p[k] == reg[k];
      }
    } else {
      assert p[j] == reg[j];
      assert forall k :: 0 <= k < j ==> p[k].name == reg[k].name;
      IndexOfNameIs(p, name, j);
    }
  }

  /** A Put never repeats a key. */
  lemma PutKeepsDistinct(reg: seq<Entry>, e: Entry)
    requires DistinctNames(reg)
    ensures DistinctNames(Put(reg, e))
  {
    var i, p := IndexOfName(reg, e.name), Put(reg, e);
    forall a, b | 0 <= a < b < |p| ensures p[a].name != p[b].name {
      if i == -1 {
        assert p[a] == reg[a];
      } else if a == i {
        assert p[b] == reg[b];
      } else if b == i {
        assert p[a] == reg[a];
      } else {
        assert p[a] == reg[a] && p[b] == reg[b];
      }
    }
  }

  /** The object literal has each key once, and under each key the handler written
      last for it. */
  lemma {:induction false} RegisterIsObject(entries: seq<Entry>)
    ensures DistinctNames(Register(entries))
    ensures forall name :: Lookup(Register(entries), name) == LastWith(entries, name)
  {
    if entries != [] {
      var init, e := entries[..|entries| - 1], entries[|entries| - 1];
      RegisterIsObject(init);
      PutKeepsDistinct(Register(init), e);
      forall name ensures Lookup(Register(entries), name) == LastWith(entries, name) {
        LookupPut(Register(init), e, name);
      }
    }
  }

  /** The option a registry entry contributes: its key when its handler's
      canExecute holds. */
  function HeadOption(e: Entry, gs: GameState): seq<string>
    reads gs`players, gs`currentTurnPlayerIndex, gs.players
  {
    if ActionRule(e.action, gs) == Ok(true) then [e.name] else []
  }

  /** availableOptions: the keys, in registry order, whose handler's canExecute
      holds. A canExecute that throws makes the whole filter throw. */
  function Offered(reg: seq<Entry>, gs: GameState): (r: Result<seq<string>>)
    reads gs`players, gs`currentTurnPlayerIndex, gs.players
    ensures r.Ok? ==> |r.value| <= |reg|
  {
    if reg == [] then Ok([])
    else
      var rule := ActionRule(reg[0].action, gs);
      var rest := Offered(reg[1..], gs);
      if rule.Err? then Err(rule.error)
      else if rest.Err? then rest
      else Ok(HeadOption(reg[0], gs) + rest.value)
  }

  /** One step of the filter, read backwards: a registry whose options exist is a
      first entry whose canExecute did not throw, then a rest whose options exist. */
  lemma OfferedStep(reg: seq<Entry>, gs: GameState)
    requires reg != [] && Offered(reg, gs).Ok?
    ensures ActionRule(reg[0].action, gs).Ok? && Offered(reg[1..], gs).Ok?
    ensures Offered(reg, gs).value == HeadOption(reg[0], gs) + Offered(reg[1..], gs).value
  {
  }

  /** The filter throws exactly when some handler's canExecute throws, and otherwise
      offers exactly the keys whose handler's canExecute holds. */
  lemma {:induction false} OfferedExactly(reg: seq<Entry>, gs: GameState)
    ensures Offered(reg, gs).Err? <==> exists k :: 0 <= k < |reg| && ActionRule(reg[k].action, gs).Err?
    ensures Offered(reg, gs).Ok? ==> forall name :: name in Offered(reg, gs).value <==>
      exists k :: 0 <= k < |reg| && reg[k].name == name && ActionRule(reg[k].action, gs) == Ok(true)
  {
    if reg != [] {
      var rest := reg[1..];
      OfferedExactly(rest, gs);
      assert forall k :: 1 <= k < |reg| ==> reg[k] == rest[k - 1];
      assert forall k :: 0 <= k < |rest| ==> rest[k] == reg[k + 1];
    }
  }

  /** The filter keeps registry order: the options of two registry parts are the
      first part's options followed by the second's. */
  lemma {:induction false} OfferedInOrder(a: seq<Entry>, b: seq<Entry>, gs: GameState)
    requires Offered(a, gs).Ok? && Offered(b, gs).Ok?
    ensures Offered(a + b, gs) == Ok(Offered(a, gs).value + Offered(b, gs).value)
  {
    if a == [] {
      assert a + b == b;
      assert Offered(a, gs).value + Offered(b, gs).value == Offered(b, gs).value;
    } else {
      var e, t := a[0], a[1..];
      OfferedStep(a, gs);
      OfferedInOrder(t, b, gs);
      OfferedAppendStep(e, t, b, gs);
      assert a == [e] + t;
      assert a + b == [e] + (t + b);
    }
  }

  /** The filter over an entry put in front of a registry part. */
  lemma OfferedPrepend(e: Entry, rest: seq<Entry>, gs: GameState)
    requires ActionRule(e.action, gs).Ok? && Offered(rest, gs).Ok?
    ensures Offered([e] + rest, gs) == Ok(HeadOption(e, gs) + Offered(rest, gs).value)
  {
    var l := [e] + rest;
    assert l[0] == e && l[1..] == rest;
  }

  /** The step of OfferedInOrder: an entry put in front of two registry parts that
      the filter keeps in order. */
  lemma OfferedAppendStep(e: Entry, t: seq<Entry>, b: seq<Entry>, gs: GameState)
    requires ActionRule(e.action, gs).Ok? && Offered(t, gs).Ok? && Offered(b, gs).Ok?
    requires Offered(t + b, gs) == Ok(Offered(t, gs).value + Offered(b, gs).value)
    ensures Offered([e] + (t + b), gs) == Ok(Offered([e] + t, gs).value + Offered(b, gs).value)
  {
    OfferedPrepend(e, t, gs);
    OfferedPrepend(e, t + b, gs);
    var head, x, y := HeadOption(e, gs), Offered(t, gs).value, Offered(b, gs).value;
    assert head + (x + y) == (head + x) + y;
  }

  /** How a turn prompt ends. */
  datatype TurnOutcome =
    | Crashed(error: Error)     // a canExecute or the turn player's socket threw
    | Waiting                   // the turn player has not answered
    | Refused                   // the answer names no handler, or one that cannot run: a message, nothing else
    | Dispatched(action: Action) // the handler's runCase is started

  /** The answer names no handler, or one whose canExecute says no. */
  predicate Unrunnable(reg: seq<Entry>, gs: GameState, name: string)
    reads gs`players, gs`currentTurnPlayerIndex, gs.players
  {
    match Lookup(reg, name)
    case None => true
    case Some(a) => ActionRule(a, gs) == Ok(false)
  }

  /** The start of handleTurn: the options are built from every canExecute, then
      the turn player is read, whose socket is used at once. Either step can throw. */
  function OpenTurn(reg: seq<Entry>, gs: GameState): (r: Result<seq<string>>)
    reads gs`players, gs`currentTurnPlayerIndex, gs.players
    ensures r.Err? <==> Offered(reg, gs).Err? || gs.GetCurrentTurnPlayer() == null
    ensures r.Ok? ==> r == Offered(reg, gs)
    ensures r.Err? && Offered(reg, gs).Ok? ==> r.error == NoCurrentPlayer
  {
    var offered := Offered(reg, gs);
    if offered.Err? then offered
    else if gs.GetCurrentTurnPlayer() == null then Err(NoCurrentPlayer)
    else offered
  }

  /** handleTurn once the turn player answers or not: `start` is what OpenTurn gave
      when the turn started, and `gs` is the game when the answer arrives, which a
      seat leaving in the meantime may have changed. The answer is looked up and its
      canExecute checked again on `gs`. Nothing here changes the game: only a
      dispatched handler can finish the turn. A handler is dispatched only for an
      answer that names it and only when its canExecute holds at that moment; the
      turn player waits exactly when the turn opened and no answer has come; the
      driver crashes exactly when the opening threw or the second canExecute does. */
  function HandleTurn(reg: seq<Entry>, start: Result<seq<string>>, gs: GameState, response: Option<string>): (r: TurnOutcome)
    reads gs`players, gs`currentTurnPlayerIndex, gs.players
    ensures r.Dispatched? ==>
      response.Some? && Lookup(reg, response.value) == Some(r.action) && ActionRule(r.action, gs) == Ok(true)
    ensures r.Waiting? <==> start.Ok? && response.None?
    ensures r.Crashed? <==>
      (start.Err? ||
       (response.Some? && Lookup(reg, response.value).Some? && ActionRule(Lookup(reg, response.value).value, gs).Err?))
  {
    if start.Err? then Crashed(start.error)
    else if response.None? then Waiting
    else match Lookup(reg, response.value)
      case None => Refused
      case Some(a) =>
        var rule := ActionRule(a, gs);
        if rule.Err? then Crashed(rule.error) else if rule.value then Dispatched(a) else Refused
  }

  /** The turn player's answer is refused, with a message and no change, exactly
      when the turn opened and the answer names no handler or one whose canExecute
      says no when the answer arrives. */
  lemma RefusedExactly(reg: seq<Entry>, start: Result<seq<string>>, gs: GameState, response: Option<string>)
    ensures HandleTurn(reg, start, gs, response).Refused? <==>
      start.Ok? && response.Some? && Unrunnable(reg, gs, response.value)
  {
  }

  /** When no seat changed while the turn player was answering, the driver crashes
      only at the opening: the second canExecute cannot throw after the first ones
      did not. */
  lemma CrashesOnlyAtOpening(reg: seq<Entry>, start: Result<seq<string>>, gs: GameState, response: Option<string>)
    requires start == OpenTurn(reg, gs)
    ensures HandleTurn(reg, start, gs, response).Crashed? <==>
      Offered(reg, gs).Err? || gs.GetCurrentTurnPlayer() == null
  {
    if start.Ok? && response.Some? && Lookup(reg, response.value).Some? {
      var a := Lookup(reg, response.value).value;
      var k :| 0 <= k < |reg| && reg[k] == Entry(response.value, a);
      OfferedExactly(reg, gs);
    }
  }

  /** When no seat changed while the turn player was answering, what is dispatched
      was offered: the second check is then never weaker than the first. */
  lemma DispatchedWasOffered(reg: seq<Entry>, start: Result<seq<string>>, gs: GameState, response: Option<string>)
    requires start == OpenTurn(reg, gs)
    requires HandleTurn(reg, start, gs, response).Dispatched?
    ensures start.Ok? && response.value in start.value
  {
    var a := HandleTurn(reg, start, gs, response).action;
    var k :| 0 <= k < |reg| && reg[k] == Entry(response.value, a);
    OfferedExactly(reg, gs);
  }

  /** With keys that appear once, as in an object literal, and no seat changed while
      the turn player was answering, every offered option is dispatched when chosen:
      the second check then refuses only what was never offered. */
  lemma OfferedIsDispatched(reg: seq<Entry>, start: Result<seq<string>>, gs: GameState, name: string)
    requires DistinctNames(reg) && start == OpenTurn(reg, gs)
    requires start.Ok? && name in start.value
    ensures HandleTurn(reg, start, gs, Some(name)).Dispatched?
  {
    OfferedExactly(reg, gs);
    var k :| 0 <= k < |reg| && reg[k].name == name && ActionRule(reg[k].action, gs) == Ok(true);
    assert IndexOfName(reg, name) == k;
  }

  /** The registry as the object literal builds it: with no seat changed while the
      turn player was answering, every option offered from it is dispatched when
      chosen. */
  lemma RegistryDispatchesOffers(entries: seq<Entry>, start: Result<seq<string>>, gs: GameState, name: string)
    requires start == OpenTurn(Register(entries), gs)
    requires start.Ok? && name in start.value
    ensures HandleTurn(Register(entries), start, gs, Some(name)).Dispatched?
  {
    RegisterIsObject(entries);
    OfferedIsDispatched(Register(entries), start, gs, name);
  }
}
