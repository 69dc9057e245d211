/** How PromptService (coup-backend/src/cases/PromptService.ts) turns what players send,
    or a timer, into the value an action handler continues with. Emitting the prompt
    is not modelled; a prompt is known only by the signals that answer it. */
module Prompts {
  import opened Errors
  import opened Cards
  import opened Players

  /** The prompt answers the handlers compare against. PROMPT_OPTION_CHALLENGE_ACCEPT
      and PROMPT_OPTION_CHALLENGE_PASS live in constants/promptOptions.ts, which is not
      part of this model: they are given distinct placeholder values here. The other
      four are the literals the cases use. */
  const ChallengeAccept: string := "CHALLENGE_ACCEPT"
  const ChallengePass: string := "CHALLENGE_PASS"
  const DefenseAccept: string := "ACCEPT"
  const DefenseBlock: string := "BLOCK"
  const BlockAsCaptain: string := "BLOCK_AS_CAPTAIN"
  const BlockAsEmbassador: string := "BLOCK_AS_EMBASSADOR"

  /** What can settle a one-player prompt: the player's PROMPT_RESPONSE, or the timer. */
  datatype Signal<T> = Response(value: T) | Timer

  /** The settled value of such a prompt, before any default is applied. */
  datatype Reply<T> = Answered(value: T) | TimedOut

  /** A promise resolves once: the first signal settles it and every later `resolve`
      is ignored. No signal at all leaves it pending. */
  function Settle<T>(signals: seq<Signal<T>>): (r: Option<Reply<T>>)
    ensures r.None? <==> signals == []
    ensures r == Some(TimedOut) <==> signals != [] && signals[0].Timer?
    ensures (r.Some? && r.value.Answered?) <==> signals != [] && signals[0].Response?
    ensures r.Some? && r.value.Answered? ==> r.value.value == signals[0].value
  {
    if signals == [] then None
    else match signals[0]
      case Response(v) => Some(Answered(v))
      case Timer => Some(TimedOut)
  }

  /** Once settled, nothing that arrives later changes the value. */
  lemma SettleIgnoresLater<T>(signals: seq<Signal<T>>, later: seq<Signal<T>>)
    requires signals != []
    ensures Settle(signals + later) == Settle(signals)
  {
    assert (signals + later)[0] == signals[0];
  }

  /** waitForResponse: the response when one came first, otherwise the default. */
  function WaitForResponse<T>(defaultValue: T, reply: Reply<T>): (r: T)
    ensures reply.TimedOut? ==> r == defaultValue
    ensures reply.Answered? ==> r == reply.value
  {
    match reply
    case Answered(v) => v
    case TimedOut => defaultValue
  }

  /** waitForResponse over the signals themselves: it settles to exactly one of the
      response and the default, the one whose signal came first. */
  lemma WaitSettlesOnce<T>(defaultValue: T, signals: seq<Signal<T>>, later: seq<Signal<T>>)
    requires signals != []
    ensures Settle(signals + later).Some?
    ensures signals[0].Timer? ==> WaitForResponse(defaultValue, Settle(signals + later).value) == defaultValue
    ensures signals[0].Response? ==> WaitForResponse(defaultValue, Settle(signals + later).value) == signals[0].value
  {
    SettleIgnoresLater(signals, later);
  }

  /** askSingleCard: the options are the hand's cards, and the default is the first
      card's id. With an empty hand, reading `options[0].value` throws before
      anything is sent. The id answered is not checked against the hand. Player has
      no `getCards`; it is taken to return the hand. */
  function AskSingleCard(hand: seq<Card>, reply: Reply<CardId>): (r: Result<CardId>)
    ensures hand == [] <==> r == Err(NoOptions)
    ensures hand != [] && reply.TimedOut? ==> r == Ok(hand[0].uuid)
    ensures hand != [] && reply.Answered? ==> r == Ok(reply.value)
  {
    if hand == [] then Err(NoOptions) else Ok(WaitForResponse(hand[0].uuid, reply))
  }

  /** On a timeout the first card is kept: the default is a card of the hand, so a
      timed-out choice can always be discarded. */
  lemma SingleCardDefaultHeld(hand: seq<Card>)
    requires hand != []
    ensures AskSingleCard(hand, TimedOut).Ok?
    ensures IndexOfCard(hand, AskSingleCard(hand, TimedOut).value) == 0
  {
  }

  /** askTwoCards: a response listing at least two ids gives its first two (a reply
      that is not an array is modelled as an empty list); otherwise, and on the timer,
      the first two option ids, which throws when the hand has fewer than two cards.
      `getCards` is taken to return the hand, as for askSingleCard. */
  function AskTwoCards(hand: seq<Card>, reply: Reply<seq<CardId>>): (r: Result<(CardId, CardId)>)
    ensures reply.Answered? && |reply.value| >= 2 ==> r == Ok((reply.value[0], reply.value[1]))
    ensures !(reply.Answered? && |reply.value| >= 2) && |hand| >= 2 ==> r == Ok((hand[0].uuid, hand[1].uuid))
    ensures !(reply.Answered? && |reply.value| >= 2) && |hand| < 2 ==> r == Err(NoOptions)
  {
    if reply.Answered? && |reply.value| >= 2 then Ok((reply.value[0], reply.value[1]))
    else if |hand| >= 2 then Ok((hand[0].uuid, hand[1].uuid))
    else Err(NoOptions)
  }

  /** challengePlayer: the answer sent, or a pass when the timer fires first. */
  function ChallengePlayer(reply: Reply<string>): (r: string)
    ensures reply.TimedOut? ==> r == ChallengePass
    ensures reply.Answered? ==> r == reply.value
  {
    WaitForResponse(ChallengePass, reply)
  }

  /** A silent player never challenges. */
  lemma SilenceIsPass()
    ensures ChallengePlayer(TimedOut) != ChallengeAccept
  {
  }

  /** prompt: the fallback is the default given, else the first option's value, else
      the empty string (`??` only replaces a missing value, so an empty default is kept). */
  function PromptFallback(options: seq<string>, defaultValue: Option<string>): (r: string)
    ensures defaultValue.Some? ==> r == defaultValue.value
    ensures defaultValue.None? && options != [] ==> r == options[0]
    ensures defaultValue.None? && options == [] ==> r == ""
  {
    match defaultValue
    case Some(d) => d
    case None => if options != [] then options[0] else ""
  }

  /** prompt: the answer sent, or the fallback on the timer. */
  function Prompt(options: seq<string>, defaultValue: Option<string>, reply: Reply<string>): (r: string)
    ensures reply.Answered? ==> r == reply.value
    ensures reply.TimedOut? ==> r == PromptFallback(options, defaultValue)
  {
    WaitForResponse(PromptFallback(options, defaultValue), reply)
  }

  /** A timed-out prompt with options and no default lands on one of the options. */
  lemma PromptTimeoutIsAnOption(options: seq<string>)
    requires options != []
    ensures Prompt(options, None, TimedOut) in options
  {
  }

  /** What reaches challengeOthers: a PROMPT_RESPONSE with the id of the socket that
      sent it, or the window's timer. */
  datatype WindowEvent = Reply(responder: string, answer: string) | WindowTimer

  /** The value the window settles to. */
  datatype Resolution = Resolution(challengerId: string, response: string)

  /** Event i reaches the callback: a reply from a socket other than the sender's
      (which has no listener) that is that socket's first reply (the listener is
      registered with `once`). The helper that registers the listeners is not part
      of this model; this is the behaviour its name and use describe. */
  predicate Delivered(sender: string, events: seq<WindowEvent>, i: nat)
    requires i < |events|
  {
    events[i].Reply? && events[i].responder != sender &&
    forall j :: 0 <= j < i ==> !(events[j].Reply? && events[j].responder == events[i].responder)
  }

  /** The `ignored` counter once events[..i] have been seen: the delivered passes. */
  function PassesBefore(sender: string, events: seq<WindowEvent>, i: nat): nat
    requires i <= |events|
  {
    if i == 0 then 0
    else
      PassesBefore(sender, events, i - 1) +
      (if Delivered(sender, events, i - 1) && events[i - 1].answer == ChallengePass then 1 else 0)
  }

  /** Event i calls `resolve`: the timer, a delivered answer other than a pass, or the
      delivered pass that brings the counter to exactly playersCount - 1. */
  predicate Decisive(sender: string, playersCount: int, events: seq<WindowEvent>, i: nat)
    requires i < |events|
  {
    events[i].WindowTimer? ||
    (Delivered(sender, events, i) &&
     (events[i].answer != ChallengePass || PassesBefore(sender, events, i) + 1 == playersCount - 1))
  }

  /** Event i is the one that settles the window: the first decisive event. */
  predicate Settles(sender: string, playersCount: int, events: seq<WindowEvent>, i: nat) {
    i < |events| && Decisive(sender, playersCount, events, i) &&
    forall j :: 0 <= j < i ==> !Decisive(sender, playersCount, events, j)
  }

  /** What `resolve` receives at event i: an empty id with a pass for the timer and
      for the last pass, the responder's id and answer otherwise. */
  function ResolutionAt(events: seq<WindowEvent>, i: nat): (r: Resolution)
    requires i < |events|
    ensures events[i].WindowTimer? ==> r == Resolution("", ChallengePass)
    ensures events[i].Reply? && events[i].answer == ChallengePass ==> r == Resolution("", ChallengePass)
    ensures events[i].Reply? && events[i].answer != ChallengePass ==>
      r == Resolution(events[i].responder, events[i].answer)
  {
    match events[i]
    case WindowTimer => Resolution("", ChallengePass)
    case Reply(id, answer) => if answer == ChallengePass then Resolution("", answer) else Resolution(id, answer)
  }

  /** challengeOthers: the `ignored` counter and the listeners, run over the events in
      the order they arrive. It settles at the first decisive event, with the value
      that event resolves with, and stays pending (None) when no event is decisive. */
  method ChallengeOthers(sender: string, playersCount: int, events: seq<WindowEvent>) returns (r: Option<Resolution>)
    ensures r.None? <==> forall i :: 0 <= i < |events| ==> !Decisive(sender, playersCount, events, i)
    ensures r.Some? ==> exists i :: Settles(sender, playersCount, events, i) && r.value == ResolutionAt(events, i)
    ensures r.Some? && r.value.response != ChallengePass ==> r.value.challengerId != sender
  {
    var ignored := 0;
    var heard: set<string> := {};
    var i := 0;
    while i < |events|
      invariant 0 <= i <= |events|
      invariant ignored == PassesBefore(sender, events, i)
      invariant forall x :: x in heard <==> x != sender && exists j :: 0 <= j < i && events[j].Reply? && events[j].responder == x
      invariant forall j :: 0 <= j < i ==> !Decisive(sender, playersCount, events, j)
    {
      match events[i]
      case WindowTimer =>
        assert Settles(sender, playersCount, events, i);
        return Some(Resolution("", ChallengePass));
      case Reply(id, resp) =>
        var delivered := id != sender && id !in heard;
        assert delivered <==> Delivered(sender, events, i) by {
          if id != sender && id in heard {
            var j :| 0 <= j < i && events[j].Reply? && events[j].responder == id;
          }
        }
        if delivered {
          heard := heard + {id};
          if resp == ChallengePass {
            ignored := ignored + 1;
            if ignored == playersCount - 1 {
              assert Settles(sender, playersCount, events, i);
              return Some(Resolution("", resp));
            }
          } else {
            assert Settles(sender, playersCount, events, i);
            return Some(Resolution(id, resp));
          }
        }
      i := i + 1;
    }
    r := None;
  }

  /** Only one event settles the window. */
  lemma SettlesOnce(sender: string, playersCount: int, events: seq<WindowEvent>, i: nat, j: nat)
    requires Settles(sender, playersCount, events, i) && Settles(sender, playersCount, events, j)
    ensures i == j
  {
  }

  /** Delivery and the counter at i look only at events[..i + 1], so events arriving
      later change neither. */
  lemma {:induction false} PassesBeforeExtend(sender: string, events: seq<WindowEvent>, later: seq<WindowEvent>, i: nat)
    requires i <= |events|
    ensures PassesBefore(sender, events + later, i) == PassesBefore(sender, events, i)
    ensures i < |events| ==> (Delivered(sender, events + later, i) <==> Delivered(sender, events, i))
  {
    if i > 0 {
      PassesBeforeExtend(sender, events, later, i - 1);
    }
    if i < |events| {
      assert forall j :: 0 <= j <= i ==> (events + later)[j] == events[j];
    }
  }

  /** Responses arriving after the window has settled have no effect: the same event
      settles it, with the same value. */
  lemma LaterEventsIgnored(sender: string, playersCount: int, events: seq<WindowEvent>, later: seq<WindowEvent>, i: nat)
    requires Settles(sender, playersCount, events, i)
    ensures Settles(sender, playersCount, events + later, i)
    ensures ResolutionAt(events + later, i) == ResolutionAt(events, i)
  {
    forall j | 0 <= j <= i
      ensures Decisive(sender, playersCount, events + later, j) <==> Decisive(sender, playersCount, events, j)
    {
      PassesBeforeExtend(sender, events, later, j);
      assert (events + later)[j] == events[j];
    }
    assert (events + later)[i] == events[i];
  }

  /** A settled window with a challenger id other than "" was settled by a delivered
      answer that is not a pass; one settled by a pass or the timer reports a pass. */
  lemma SettledBy(sender: string, playersCount: int, events: seq<WindowEvent>, i: nat)
    requires Settles(sender, playersCount, events, i)
    ensures ResolutionAt(events, i).response == ChallengePass <==>
      events[i].WindowTimer? || (events[i].answer == ChallengePass && PassesBefore(sender, events, i) + 1 == playersCount - 1)
    ensures ResolutionAt(events, i).response != ChallengePass ==>
      Delivered(sender, events, i) && ResolutionAt(events, i).challengerId == events[i].responder
  {
  }

  /** With fewer than two players counted, passes never reach playersCount - 1: only
      the timer or an answer that is not a pass settles the window. */
  lemma LonePlayerWaitsForTimer(sender: string, playersCount: int, events: seq<WindowEvent>, i: nat)
    requires playersCount <= 1 && Settles(sender, playersCount, events, i)
    ensures events[i].WindowTimer? || events[i].answer != ChallengePass
  {
  }
}
