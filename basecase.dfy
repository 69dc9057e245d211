/** The state every action handler shares (coup-backend/src/cases/BaseCase.ts): the
    game it acts on, its name and the player whose turn it handles. The handlers of
    the other files hold a BaseCase instead of extending it. */
module BaseCases {
  import opened Errors
  import opened Cards
  import opened Players
  import opened Game
  import opened Prompts

  /** The coin threshold at and above which no action is legal under the default rule. */
  const MaxCoinsToAct: int := 10

  /** The default canExecute rule, read from the game: the player whose turn it is
      holds fewer than ten coins. With no such player the property access throws. */
  function DefaultRule(gs: GameState): (r: Result<bool>)
    reads gs`players, gs`currentTurnPlayerIndex, gs.players
    ensures r.Err? <==> !(0 <= gs.currentTurnPlayerIndex < |gs.players|)
    ensures r.Err? ==> r.error == NoCurrentPlayer
    ensures r.Ok? ==> (r.value <==> gs.players[gs.currentTurnPlayerIndex].coins < MaxCoinsToAct)
  {
    var p := gs.GetCurrentTurnPlayer();
    if p == null then Err(NoCurrentPlayer) else Ok(p.GetCoinsAmount() < MaxCoinsToAct)
  }

  class BaseCase {
    const gameState: GameState
    const caseName: string
    /** Set from the turn pointer when the handler is built; some handlers refresh it
        when they run. Null models `undefined`. */
    var currentPlayer: Player?

    /** The game is well formed and the handler's player, if any, belongs to it. */
    ghost predicate Valid()
      reads this`currentPlayer, gameState`players, gameState`eliminatedPlayers
    {
      gameState.Valid() && (currentPlayer != null ==> currentPlayer in gameState.AllPlayers())
    }

    constructor (caseName: string, gameState: GameState)
      requires gameState.Valid()
      ensures Valid()
      ensures this.caseName == caseName && this.gameState == gameState
      ensures currentPlayer == gameState.GetCurrentTurnPlayer()
    {
      this.caseName := caseName;
      this.gameState := gameState;
      currentPlayer := gameState.GetCurrentTurnPlayer();
    }

    function GetCaseName(): (n: string)
      ensures n == caseName
    {
      caseName
    }

    /** canExecute: the default rule on this handler's game. */
    function CanExecute(): (r: Result<bool>)
      reads gameState`players, gameState`currentTurnPlayerIndex, gameState.players
      ensures r.Err? <==> gameState.GetCurrentTurnPlayer() == null
      ensures r.Ok? ==> (r.value <==> gameState.GetCurrentTurnPlayer().coins < MaxCoinsToAct)
    {
      DefaultRule(gameState)
    }

    /** Handlers that do not override runCase fail with the case's name. */
    method RunCase() returns (o: Outcome)
      ensures o == Fail(NotImplemented(caseName))
    {
      o := Fail(NotImplemented(caseName));
    }

    /** Advances the turn and announces NEXT_TURN: exactly one more finished turn. */
    method FinishTurn()
      modifies gameState`currentTurnPlayerIndex, gameState`events
      ensures gameState.currentTurnPlayerIndex ==
        NextTurnIndex(old(gameState.currentTurnPlayerIndex), |gameState.players|)
      ensures gameState.events == old(gameState.events) + TurnEvents(|gameState.players|) + [NextTurn]
      ensures Finished(gameState.events) == Finished(old(gameState.events)) + 1
    {
      gameState.GoToNextTurn();
      gameState.events := gameState.events + [NextTurn];
      FinishedCount(old(gameState.events), |gameState.players|);
    }
  }

  /** goToNextTurn announces no NEXT_TURN; finishTurn adds exactly one. */
  lemma FinishedCount(es: seq<Event>, count: nat)
    ensures Finished(es + TurnEvents(count) + [NextTurn]) == Finished(es) + 1
  {
    if count == 0 {
      assert es + TurnEvents(count) == es;
    } else {
      FinishedPush(es, TurnEvents(count)[0]);
    }
    FinishedPush(es + TurnEvents(count), NextTurn);
  }

  /** The hand position of the card a player gives up when asked with askSingleCard:
      an empty hand cannot be asked, and an id that is not in the hand makes
      discardPlayerCard throw. */
  function ChosenCard(hand: seq<Card>, reply: Reply<CardId>): (r: Result<nat>)
    ensures hand == [] ==> r == Err(NoOptions)
    ensures hand != [] ==> (r.Err? <==> IndexOfCard(hand, AskSingleCard(hand, reply).value) == -1)
    ensures hand != [] && r.Err? ==> r.error == CardNotFound
    ensures r.Ok? ==> r.value < |hand| && AskSingleCard(hand, reply) == Ok(hand[r.value].uuid)
    ensures hand != [] && reply.TimedOut? ==> r == Ok(0)
  {
    var id := AskSingleCard(hand, reply);
    if id.Err? then Err(NoOptions)
    else
      var i := IndexOfCard(hand, id.value);
      if i == -1 then Err(CardNotFound) else Ok(i)
  }

  /* The GameState operations as the handlers use them. Each states what happens to
     the player it acts on, the discard log and the deck, and leaves the game valid;
     that the game keeps its cards is proved once, on GameState, and each handler
     proves it again for the cards it sees (see Stock). */

  /** discardPlayerCard: the card with that id leaves `p`'s hand for the end of the
      discard log, and `p` is eliminated if it was their last. */
  method Discard(gs: GameState, p: Player, id: CardId) returns (o: Outcome)
    requires gs.Valid() && p in gs.AllPlayers()
    modifies gs`knownCards, gs`players, gs`eliminatedPlayers, gs`currentTurnPlayerIndex, gs`events, p`cards
    ensures gs.Valid() && Finished(gs.events) == Finished(old(gs.events))
    ensures forall q :: q in old(gs.AllPlayers()) ==> q in gs.AllPlayers()
    ensures var i := IndexOfCard(old(p.cards), id);
      (i == -1 ==> o == Fail(CardNotFound) && unchanged(gs) && p.cards == old(p.cards)) &&
      (i != -1 ==> o == Pass && p.cards == RemoveAt(old(p.cards), i) &&
                   gs.knownCards == old(gs.knownCards) + [old(p.cards)[i]])
  {
    o := gs.DiscardPlayerCard(id, p);
  }

  /** placeCardIntoDeckAndReceiveAnother: the card with that id goes back into the
      deck and `p` draws a replacement. */
  method Redraw(gs: GameState, p: Player, id: CardId) returns (o: Outcome)
    requires gs.Valid() && p in gs.AllPlayers()
    modifies gs.deck, p`cards
    ensures gs.Valid()
    ensures var i := IndexOfCard(old(p.cards), id);
      (i == -1 ==> o == Fail(CardNotFound) && p.cards == old(p.cards) && gs.deck.cards == old(gs.deck.cards)) &&
      (i != -1 ==> o == Pass && Redrawn(old(p.cards), i, p.cards, old(gs.deck.cards), gs.deck.cards))
  {
    o := gs.PlaceCardIntoDeckAndReceiveAnother(id, p);
  }

  /** discardPlayerCardAndAddToDeck: the card with that id goes from `p`'s hand back
      into the deck. */
  method Recycle(gs: GameState, p: Player, id: CardId) returns (o: Outcome)
    requires gs.Valid() && p in gs.AllPlayers()
    modifies gs.deck, p`cards
    ensures gs.Valid()
    ensures var i := IndexOfCard(old(p.cards), id);
      (i == -1 ==> o == Fail(CardNotFound) && p.cards == old(p.cards) && gs.deck.cards == old(gs.deck.cards)) &&
      (i != -1 ==> o == Pass && p.cards == RemoveAt(old(p.cards), i) &&
                   multiset(gs.deck.cards) == multiset(old(gs.deck.cards)) + multiset{old(p.cards)[i]})
  {
    o := gs.DiscardPlayerCardAndAddToDeck(id, p);
  }

  /** askSingleCard followed by discardPlayerCard, as the handlers pair them: `p`
      gives up the card its reply names, which eliminates it when it was its last.
      A failure changes nothing. */
  method LoseCard(gs: GameState, p: Player, reply: Reply<CardId>) returns (o: Outcome)
    requires gs.Valid() && p in gs.AllPlayers()
    modifies gs`knownCards, gs`players, gs`eliminatedPlayers, gs`currentTurnPlayerIndex, gs`events, p`cards
    ensures gs.Valid() && Finished(gs.events) == Finished(old(gs.events))
    ensures forall q :: q in old(gs.AllPlayers()) ==> q in gs.AllPlayers()
    ensures var r := ChosenCard(old(p.cards), reply);
      (r.Err? ==> o == Fail(r.error) && unchanged(gs) && p.cards == old(p.cards)) &&
      (r.Ok? ==> o == Pass && p.cards == RemoveAt(old(p.cards), r.value) &&
                 gs.knownCards == old(gs.knownCards) + [old(p.cards)[r.value]])
  {
    var id := AskSingleCard(p.cards, reply);
    if id.Err? {
      return Fail(NoOptions);
    }
    o := Discard(gs, p, id.value);
  }

  /** The number of turns an outcome finishes: one when the handler ran to its end. */
  function TurnsFinished(o: Outcome): (n: nat)
    ensures n == 1 <==> o.Pass?
    ensures n == 0 <==> o.Fail?
  {
    if o.Pass? then 1 else 0
  }

  /** The uuids of the players other than the one with `curId`, in seat order: the
      target options of the Coup and Assassin actions. */
  function Opponents(ps: seq<Player>, curId: string): (r: seq<string>)
    ensures |r| <= |ps|
    ensures forall id :: id in r <==> id != curId && exists p :: p in ps && p.uuid == id
  {
    if ps == [] then []
    else (if ps[0].uuid != curId then [ps[0].uuid] else []) + Opponents(ps[1..], curId)
  }

  /** The player, if there is one, as a set: what a handler may change of a player it
      looks up. */
  function Only(p: Player?): (s: set<Player>)
    ensures p == null <==> s == {}
    ensures p != null ==> s == {p}
  {
    if p == null then {} else {p}
  }

  /** What an action can change: the hand and balance of the acting player and of the
      one other player the action involves (its target, challenger or blocker), the
      discard log and the deck. */
  datatype View = View(hand: seq<Card>, coins: int, otherHand: seq<Card>, otherCoins: int,
                       known: seq<Card>, deck: seq<Card>)

  /** The view of a game from its acting player `cur` and the other player `other`;
      with no other player its hand is empty and its balance 0. */
  ghost function ViewOf(gs: GameState, cur: Player, other: Player?): View
    reads gs`knownCards, gs.deck`cards, cur`cards, cur`coins, other
  {
    View(cur.cards, cur.coins, if other == null then [] else other.cards, if other == null then 0 else other.coins,
         gs.knownCards, gs.deck.cards)
  }

  /** The hand of a player who may be missing. */
  ghost function HandOf(p: Player?): Option<seq<Card>>
    reads p
  {
    if p == null then None else Some(p.cards)
  }

  /** Card `i` of the acting player's hand went to the end of the discard log. */
  ghost predicate OwnDiscard(a: View, b: View, i: nat) {
    i < |a.hand| && b.hand == RemoveAt(a.hand, i) && b.known == a.known + [a.hand[i]]
  }

  /** Card `i` of the other player's hand went to the end of the discard log. */
  ghost predicate OtherDiscard(a: View, b: View, i: nat) {
    i < |a.otherHand| && b.otherHand == RemoveAt(a.otherHand, i) && b.known == a.known + [a.otherHand[i]]
  }

  /** The other player's hand went, card by card in order, to the end of the log. */
  ghost predicate OtherDiscardsAll(a: View, b: View) {
    b.otherHand == [] && b.known == a.known + a.otherHand
  }

  /** The view of an action by `cur` against `target`. Nothing checks a target
      answer against the options offered, so a claimant who answers with their own
      uuid is their own target: the view then has no other player, and whatever the
      target gives up comes from the claimant's hand. */
  ghost function SidesOf(gs: GameState, cur: Player, target: Player): View
    reads gs`knownCards, gs.deck`cards, cur`cards, cur`coins, target
  {
    ViewOf(gs, cur, if target == cur then null else target)
  }

  /** The target gave up hand card `i` to the end of the log: the other player's
      card, or the claimant's own when the claimant is `alone`. */
  ghost predicate TargetDiscard(alone: bool, a: View, b: View, i: nat) {
    b.deck == a.deck &&
    if alone then OwnDiscard(a, b, i) && b.otherHand == a.otherHand
    else OtherDiscard(a, b, i) && b.hand == a.hand
  }

  /** The target's whole hand went, card by card in order, to the end of the log. */
  ghost predicate TargetDiscardsAll(alone: bool, a: View, b: View) {
    b.deck == a.deck &&
    if alone then b.hand == [] && b.known == a.known + a.hand && b.otherHand == a.otherHand
    else OtherDiscardsAll(a, b) && b.hand == a.hand
  }

  /** For a claimant who is their own target: the card `i` they showed left with the
      card `j` they gave up, so it can no longer be returned to the deck. */
  predicate Stranded(hand: seq<Card>, i: nat, j: nat) {
    i < |hand| && j < |hand| && IndexOfCard(RemoveAt(hand, j), hand[i].uuid) == -1
  }

  /** A claimant who is their own target gave up card `j`, then returned the card
      `i` they had shown to the deck and drew a replacement. When that card is
      stranded, returning it throws and nothing more moves. */
  ghost predicate LoseThenRedraw(a: View, b: View, i: nat, j: nat) {
    i < |a.hand| && j < |a.hand| && b.known == a.known + [a.hand[j]] && b.otherHand == a.otherHand &&
    var h := RemoveAt(a.hand, j);
    if Stranded(a.hand, i, j) then b.hand == h && b.deck == a.deck
    else Redrawn(h, IndexOfCard(h, a.hand[i].uuid), b.hand, a.deck, b.deck)
  }

  /** placeCardIntoDeckAndReceiveAnother on the target (the claimant when `alone`),
      from `a` to `b`: a card the target does not hold throws and moves nothing. */
  ghost predicate TargetRedrawn(alone: bool, shownId: CardId, a: View, b: View, o: Outcome) {
    var th, th' := if alone then a.hand else a.otherHand, if alone then b.hand else b.otherHand;
    var k := IndexOfCard(th, shownId);
    b.known == a.known && b.coins == a.coins && b.otherCoins == a.otherCoins &&
    (if alone then b.otherHand == a.otherHand else b.hand == a.hand) &&
    (k == -1 ==> o == Fail(CardNotFound) && b == a) &&
    (k != -1 ==> o == Pass && Redrawn(th, k, th', a.deck, b.deck))
  }

  /** A block upheld: the claimant gave up card `j`, then the target returned the card
      `i` it had shown to the deck and drew a replacement. No coin moves. */
  ghost predicate BlockUpheldEffect(alone: bool, a: View, b: View, i: nat, j: nat) {
    b.coins == a.coins && b.otherCoins == a.otherCoins &&
    if alone then LoseThenRedraw(a, b, i, j)
    else i < |a.otherHand| && OwnDiscard(a, b, j) && Redrawn(a.otherHand, i, b.otherHand, a.deck, b.deck)
  }

  /** A block upheld in two steps: the claimant's loss takes `a` to `mid`, then the
      target's redraw takes `mid` to `b`; it throws exactly when a claimant who is
      their own target lost the very card they had shown. */
  lemma LoseThenTargetRedraw(alone: bool, shownId: CardId, a: View, mid: View, b: View, j: nat, o: Outcome)
    requires IndexOfCard(if alone then a.hand else a.otherHand, shownId) != -1
    requires j < |a.hand| && mid == a.(hand := RemoveAt(a.hand, j), known := a.known + [a.hand[j]])
    requires TargetRedrawn(alone, shownId, mid, b, o)
    ensures var i := IndexOfCard(if alone then a.hand else a.otherHand, shownId);
      BlockUpheldEffect(alone, a, b, i, j) &&
      (o.Fail? <==> alone && Stranded(a.hand, i, j)) && (o.Fail? ==> o == Fail(CardNotFound))
  {
  }

  /** The cards a view shows: both hands, the discard log and the deck. */
  ghost function Stock(v: View): multiset<Card> {
    multiset(v.hand) + multiset(v.otherHand) + multiset(v.known) + multiset(v.deck)
  }

  /** The acting player returned hand card `i` to the deck and drew a replacement:
      the view keeps its cards. */
  lemma OwnRedrawKeepsCards(a: View, b: View, i: nat)
    requires i < |a.hand| && Redrawn(a.hand, i, b.hand, a.deck, b.deck)
    requires b.otherHand == a.otherHand && b.known == a.known
    ensures Stock(b) == Stock(a)
  {
    var rest := multiset(a.otherHand) + multiset(a.known);
    assert Stock(b) == rest + (multiset(b.deck) + multiset(b.hand));
    assert Stock(a) == rest + (multiset(a.deck) + multiset(a.hand));
  }

  /** A discard by the acting player moves a card and keeps the view's cards. */
  lemma OwnDiscardKeepsCards(a: View, b: View, i: nat)
    requires OwnDiscard(a, b, i) && b.otherHand == a.otherHand && b.deck == a.deck
    ensures Stock(b) == Stock(a)
  {
    assert multiset(b.known) == multiset(a.known) + multiset{a.hand[i]};
  }

  /** The other player returned hand card `i` to the deck and drew a replacement:
      the view keeps its cards. */
  lemma RedrawKeepsCards(a: View, b: View, i: nat)
    requires i < |a.otherHand| && Redrawn(a.otherHand, i, b.otherHand, a.deck, b.deck)
    requires b.hand == a.hand && b.known == a.known
    ensures Stock(b) == Stock(a)
  {
    var rest := multiset(a.hand) + multiset(a.known);
    assert Stock(b) == rest + (multiset(b.deck) + multiset(b.otherHand));
    assert Stock(a) == rest + (multiset(a.deck) + multiset(a.otherHand));
  }

  /** A discard by the other player moves a card and keeps the view's cards. */
  lemma OtherDiscardKeepsCards(a: View, b: View, i: nat)
    requires OtherDiscard(a, b, i) && b.hand == a.hand && b.deck == a.deck
    ensures Stock(b) == Stock(a)
  {
    assert multiset(b.known) == multiset(a.known) + multiset{a.otherHand[i]};
  }

  /** The other player's whole hand going to the log keeps the view's cards. */
  lemma OtherDiscardsAllKeepsCards(a: View, b: View)
    requires OtherDiscardsAll(a, b) && b.hand == a.hand && b.deck == a.deck
    ensures Stock(b) == Stock(a)
  {
    assert multiset(b.known) == multiset(a.known) + multiset(a.otherHand);
  }

  /** The target's discard keeps the view's cards, whoever the target is. */
  lemma TargetDiscardKeepsCards(alone: bool, a: View, b: View, i: nat)
    requires TargetDiscard(alone, a, b, i)
    ensures Stock(b) == Stock(a)
    ensures |b.known| == |a.known| + 1
    ensures alone ==> |b.hand| == |a.hand| - 1 && b.otherHand == a.otherHand
    ensures !alone ==> |b.otherHand| == |a.otherHand| - 1 && b.hand == a.hand
  {
    if alone {
      OwnDiscardKeepsCards(a, b, i);
    } else {
      OtherDiscardKeepsCards(a, b, i);
    }
  }

  /** The target's whole hand going to the log keeps the view's cards. */
  lemma TargetDiscardsAllKeepsCards(alone: bool, a: View, b: View)
    requires TargetDiscardsAll(alone, a, b)
    ensures Stock(b) == Stock(a)
  {
    if alone {
      assert multiset(b.known) == multiset(a.known) + multiset(a.hand);
    } else {
      OtherDiscardsAllKeepsCards(a, b);
    }
  }

  /** A loss followed by a redraw from the same hand keeps the view's cards, and the
      hand ends one card short whether or not the redraw throws. */
  lemma LoseThenRedrawKeepsCards(a: View, b: View, i: nat, j: nat)
    requires LoseThenRedraw(a, b, i, j)
    ensures Stock(b) == Stock(a)
    ensures |b.hand| == |a.hand| - 1 && b.otherHand == a.otherHand
  {
    var mid := a.(hand := RemoveAt(a.hand, j), known := b.known);
    OwnDiscardKeepsCards(a, mid, j);
    if !Stranded(a.hand, i, j) {
      var h := RemoveAt(a.hand, j);
      OwnRedrawKeepsCards(mid, b, IndexOfCard(h, a.hand[i].uuid));
    }
  }
}
