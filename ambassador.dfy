/** The Ambassador's exchange (coup-backend/src/cases/AmbassadorCase.ts): the acting
    player draws two cards, keeps the two they name and shuffles the rest back into
    the deck, unless a challenge shows they hold no Ambassador. The replies are
    parameters: `window` is what challengeOthers settled on, `showing` the card the
    claimant shows, `loss` the card the challenger gives up and `keep` the answer to
    askTwoCards. */
module AmbassadorCases {
  import opened Errors
  import opened Cards
  import opened Players
  import opened Game
  import opened Prompts
  import opened BaseCases

  /** Whether askTwoCards' answer keeps the card with id `id`. */
  predicate Kept(id: CardId, kept: (CardId, CardId)) {
    id == kept.0 || id == kept.1
  }

  /** The cards of `cs` the player keeps, in order. */
  function Keep(cs: seq<Card>, kept: (CardId, CardId)): (r: seq<Card>)
    ensures |r| <= |cs|
  {
    if cs == [] then []
    else
      var last := cs[|cs| - 1];
      Keep(cs[..|cs| - 1], kept) + (if Kept(last.uuid, kept) then [last] else [])
  }

  /** The cards of `cs` that go back into the deck, in order. */
  function Returned(cs: seq<Card>, kept: (CardId, CardId)): (r: seq<Card>)
    ensures |r| <= |cs|
  {
    if cs == [] then []
    else
      var last := cs[|cs| - 1];
      Returned(cs[..|cs| - 1], kept) + (if Kept(last.uuid, kept) then [] else [last])
  }

  /** The hand after the exchange holds exactly the cards whose ids were kept, and
      the deck receives exactly the others. */
  lemma {:induction false} KeepMembers(cs: seq<Card>, kept: (CardId, CardId))
    ensures forall c :: c in Keep(cs, kept) <==> c in cs && Kept(c.uuid, kept)
    ensures forall c :: c in Returned(cs, kept) <==> c in cs && !Kept(c.uuid, kept)
  {
    if cs != [] {
      var init, last := cs[..|cs| - 1], cs[|cs| - 1];
      KeepMembers(init, kept);
      assert cs == init + [last];
    }
  }

  /** What is kept and what is returned make up the cards, no more and no fewer. */
  lemma {:induction false} KeepAndReturnedSplit(cs: seq<Card>, kept: (CardId, CardId))
    ensures multiset(Keep(cs, kept)) + multiset(Returned(cs, kept)) == multiset(cs)
    ensures |Keep(cs, kept)| + |Returned(cs, kept)| == |cs|
  {
    if cs != [] {
      var init, last := cs[..|cs| - 1], cs[|cs| - 1];
      KeepAndReturnedSplit(init, kept);
      assert cs == init + [last];
    }
  }

  /** performExchange from hand `hand` and deck `deck` ends in hand `hand'` and deck
      `deck'`. With two cards to draw, the hand after holds exactly the cards, among
      the old hand and the two drawn, whose ids the answer names, and the deck holds
      the rest of itself and the others. With fewer, the draws empty the deck and the
      hand is untouched: a single card drawn before the second draw fails is lost. */
  ghost predicate Swapped(hand: seq<Card>, deck: seq<Card>, keep: Reply<seq<CardId>>, hand': seq<Card>, deck': seq<Card>) {
    if |deck| < 2 then hand' == hand && deck' == []
    else
      var total := hand + deck[..2];
      var kept := AskTwoCards(total, keep);
      kept.Ok? && hand' == Keep(total, kept.value) &&
      multiset(deck') == multiset(deck[2..]) + multiset(Returned(total, kept.value))
  }

  /** A full exchange keeps the number of cards in hand and deck together. */
  lemma SwapKeepsCount(hand: seq<Card>, deck: seq<Card>, keep: Reply<seq<CardId>>, hand': seq<Card>, deck': seq<Card>)
    requires Swapped(hand, deck, keep, hand', deck') && |deck| >= 2
    ensures |hand'| + |deck'| == |hand| + |deck|
    ensures multiset(hand') + multiset(deck') == multiset(hand) + multiset(deck)
  {
    var total := hand + deck[..2];
    var kept := AskTwoCards(total, keep).value;
    KeepAndReturnedSplit(total, kept);
    assert deck == deck[..2] + deck[2..];
    calc {
      multiset(hand') + multiset(deck');
      multiset(Keep(total, kept)) + (multiset(deck[2..]) + multiset(Returned(total, kept)));
      multiset(total) + multiset(deck[2..]);
      multiset(hand) + multiset(deck[..2]) + multiset(deck[2..]);
      multiset(hand) + multiset(deck);
    }
    assert |multiset(hand') + multiset(deck')| == |multiset(hand) + multiset(deck)|;
  }

  /** The branch runCase ends in. */
  datatype ExchangeVerdict =
    | Unchallenged                    // nobody challenged: the exchange
    | Refuted(shown: nat)             // the claimant showed hand card `shown`, not an Ambassador, and discards it
    | Upheld(shown: nat, lost: nat)   // an Ambassador was shown: the challenger loses card `lost`,
                                      // the claimant redraws and exchanges
    | Broken(error: Error)            // the handler throws before changing anything

  /** The decision tree of runCase and handleChallenge, given the challenger's hand
      (None when the challenger id names nobody active) and the claimant's hand. A
      missing challenger only matters once an Ambassador was shown. */
  function ExchangeVerdictOf(window: Resolution, challenger: Option<seq<Card>>, hand: seq<Card>,
                             showing: Reply<CardId>, loss: Reply<CardId>): (v: ExchangeVerdict)
    ensures v.Unchallenged? <==> window.response != ChallengeAccept
    ensures v.Refuted? <==>
      window.response == ChallengeAccept && ChosenCard(hand, showing).Ok? &&
      hand[ChosenCard(hand, showing).value].variant != Ambassador
    ensures v.Refuted? ==> v.shown == ChosenCard(hand, showing).value
    ensures v.Upheld? ==>
      window.response == ChallengeAccept && challenger.Some? &&
      ChosenCard(hand, showing) == Ok(v.shown) && hand[v.shown].variant == Ambassador &&
      ChosenCard(challenger.value, loss) == Ok(v.lost)
    ensures v == Broken(PlayerNotFound) <==>
      window.response == ChallengeAccept && challenger.None? && ChosenCard(hand, showing).Ok? &&
      hand[ChosenCard(hand, showing).value].variant == Ambassador
  {
    if window.response != ChallengeAccept then Unchallenged
    else
      var shown := ChosenCard(hand, showing);
      if shown.Err? then Broken(shown.error)
      else if hand[shown.value].variant != Ambassador then Refuted(shown.value)
      else if challenger.None? then Broken(PlayerNotFound)
      else
        var lost := ChosenCard(challenger.value, loss);
        if lost.Err? then Broken(lost.error) else Upheld(shown.value, lost.value)
  }

  /** The outcome for a verdict: a throw, including a deck too short to draw two,
      or the turn finished. */
  function ExchangeOutcome(v: ExchangeVerdict, deckSize: nat): (o: Outcome)
    ensures v.Broken? ==> o == Fail(v.error)
    ensures v.Refuted? ==> o == Pass
    ensures (v.Unchallenged? || v.Upheld?) ==> (o.Pass? <==> deckSize >= 2)
    ensures o.Fail? && !v.Broken? ==> o.error == EmptyDeck
  {
    if v.Broken? then Fail(v.error)
    else if v.Refuted? || deckSize >= 2 then Pass
    else Fail(EmptyDeck)
  }

  /** What each verdict does to the claimant (hand, coins), the challenger (other
      hand, other coins), the discard log and the deck. */
  ghost predicate ExchangeEffect(v: ExchangeVerdict, keep: Reply<seq<CardId>>, a: View, b: View) {
    match v
    case Broken(_) => b == a
    case Refuted(i) =>
      OwnDiscard(a, b, i) && b.otherHand == a.otherHand && b.deck == a.deck &&
      b.coins == a.coins && b.otherCoins == a.otherCoins
    case Unchallenged =>
      Swapped(a.hand, a.deck, keep, b.hand, b.deck) && b.otherHand == a.otherHand && b.known == a.known &&
      b.coins == a.coins && b.otherCoins == a.otherCoins
    case Upheld(i, j) =>
      i < |a.hand| && OtherDiscard(a, b, j) && b.coins == a.coins && b.otherCoins == a.otherCoins &&
      exists hand: seq<Card>, deck: seq<Card> ::
        Redrawn(a.hand, i, hand, a.deck, deck) && Swapped(hand, deck, keep, b.hand, b.deck)
  }

  /** The exchange keeps the cards the view shows, except that a deck holding a
      single card loses it to the failed second draw. Coins never move. */
  lemma ExchangeKeepsCards(v: ExchangeVerdict, keep: Reply<seq<CardId>>, a: View, b: View)
    requires ExchangeEffect(v, keep, a, b)
    ensures b.coins == a.coins && b.otherCoins == a.otherCoins
    ensures |a.deck| != 1 || v.Refuted? || v.Broken? ==> Stock(b) == Stock(a)
    ensures |a.deck| == 1 && (v.Unchallenged? || v.Upheld?) ==> Stock(b) <= Stock(a) && |Stock(b)| + 1 == |Stock(a)|
  {
    match v
    case Broken(_) =>
    case Refuted(i) =>
      OwnDiscardKeepsCards(a, b, i);
    case Unchallenged =>
      SwapKeepsStock(a, b, a.hand, a.deck, keep);
    case Upheld(i, j) =>
      var hand: seq<Card>, deck: seq<Card> :|
        Redrawn(a.hand, i, hand, a.deck, deck) && Swapped(hand, deck, keep, b.hand, b.deck);
      var mid := a.(hand := hand, deck := deck);
      var mid' := mid.(otherHand := b.otherHand, known := b.known);
      OwnRedrawKeepsCards(a, mid, i);
      OtherDiscardKeepsCards(mid, mid', j);
      SwapKeepsStock(mid', b, hand, deck, keep);
  }

  /** One exchange from the view `a` with hand `hand` and deck `deck`, the rest
      unchanged, into `b`. */
  lemma SwapKeepsStock(a: View, b: View, hand: seq<Card>, deck: seq<Card>, keep: Reply<seq<CardId>>)
    requires a.hand == hand && a.deck == deck && Swapped(hand, deck, keep, b.hand, b.deck)
    requires b.otherHand == a.otherHand && b.known == a.known
    ensures |deck| != 1 ==> Stock(b) == Stock(a)
    ensures |deck| == 1 ==> Stock(b) <= Stock(a) && |Stock(b)| + 1 == |Stock(a)|
  {
    var rest := multiset(a.otherHand) + multiset(a.known);
    assert Stock(a) == rest + (multiset(a.hand) + multiset(a.deck));
    assert Stock(b) == rest + (multiset(b.hand) + multiset(b.deck));
    if |deck| >= 2 {
      SwapKeepsCount(hand, deck, keep, b.hand, b.deck);
    } else if |deck| == 1 {
      assert multiset(a.deck) == multiset{deck[0]};
      assert Stock(a) == Stock(b) + multiset{deck[0]};
    }
  }

  class AmbassadorCase {
    const base: BaseCase

    ghost predicate Valid()
      reads base`currentPlayer, base.gameState`players, base.gameState`eliminatedPlayers
    {
      base.Valid()
    }

    constructor (gameState: GameState)
      requires gameState.Valid()
      ensures fresh(base) && Valid()
      ensures base.caseName == "Embassador" && base.gameState == gameState
      ensures base.currentPlayer == gameState.GetCurrentTurnPlayer()
    {
      base := new BaseCase("Embassador", gameState);
    }

    /** runCase: looks up the turn player afresh, opens the challenge window and
        exchanges, or settles the challenge, as ExchangeVerdictOf says; the turn is
        finished exactly when nothing threw. Only the claimant, the challenger, the
        discard log and the deck change. */
    method RunCase(window: Resolution, showing: Reply<CardId>, loss: Reply<CardId>, keep: Reply<seq<CardId>>)
      returns (o: Outcome)
      requires Valid()
      requires var cur := base.gameState.GetCurrentTurnPlayer();
        cur != null && window.response == ChallengeAccept ==> window.challengerId != cur.uuid
      modifies base`currentPlayer, base.gameState, base.gameState.deck
      modifies Only(base.gameState.GetCurrentTurnPlayer())`cards, Only(base.gameState.GetPlayerByUUID(window.challengerId))`cards
      ensures Valid()
      ensures base.currentPlayer == old(base.gameState.GetCurrentTurnPlayer())
      ensures base.currentPlayer == null ==> o == Fail(NoCurrentPlayer) && unchanged(base.gameState)
      ensures var gs, cur := base.gameState, base.currentPlayer;
        var challenger := if window.response == ChallengeAccept then old(gs.GetPlayerByUUID(window.challengerId)) else null;
        cur != null ==>
        var v := ExchangeVerdictOf(window, old(HandOf(challenger)), old(cur.cards), showing, loss);
        ExchangeEffect(v, keep, old(ViewOf(gs, cur, challenger)), ViewOf(gs, cur, challenger)) &&
        o == ExchangeOutcome(v, old(|gs.deck.cards|)) &&
        Finished(gs.events) == Finished(old(gs.events)) + TurnsFinished(o)
    {
      var gs := base.gameState;
      base.currentPlayer := gs.GetCurrentTurnPlayer();
      var cur := base.currentPlayer;
      if cur == null {
        return Fail(NoCurrentPlayer);
      }
      if window.response == ChallengeAccept {
        o := ContestExchange(window.challengerId, showing, loss, keep);
      } else {
        o := ExchangeAndFinish(keep);
      }
    }

    /** The unchallenged branch: performExchange, then the turn ends unless it threw. */
    method ExchangeAndFinish(keep: Reply<seq<CardId>>) returns (o: Outcome)
      requires Valid() && base.currentPlayer != null
      modifies base.gameState`currentTurnPlayerIndex, base.gameState`events, base.gameState.deck, base.currentPlayer`cards
      ensures Valid()
      ensures var gs, cur := base.gameState, base.currentPlayer;
        Swapped(old(cur.cards), old(gs.deck.cards), keep, cur.cards, gs.deck.cards) &&
        o == ExchangeOutcome(Unchallenged, old(|gs.deck.cards|)) &&
        Finished(gs.events) == Finished(old(gs.events)) + TurnsFinished(o)
    {
      o := PerformExchange(keep);
      if o.Pass? {
        base.FinishTurn();
      }
    }

    /** The challenged branch: handleChallenge looks the challenger up, and the turn
        ends unless it threw. */
    method ContestExchange(challengerId: string, showing: Reply<CardId>, loss: Reply<CardId>, keep: Reply<seq<CardId>>)
      returns (o: Outcome)
      requires Valid() && base.currentPlayer != null && challengerId != base.currentPlayer.uuid
      modifies base.gameState, base.gameState.deck, base.currentPlayer`cards
      modifies Only(base.gameState.GetPlayerByUUID(challengerId))`cards
      ensures Valid()
      ensures var gs, cur, challenger := base.gameState, base.currentPlayer, old(base.gameState.GetPlayerByUUID(challengerId));
        var v := ExchangeVerdictOf(Resolution(challengerId, ChallengeAccept), old(HandOf(challenger)), old(cur.cards), showing, loss);
        ExchangeEffect(v, keep, old(ViewOf(gs, cur, challenger)), ViewOf(gs, cur, challenger)) &&
        o == ExchangeOutcome(v, old(|gs.deck.cards|)) &&
        Finished(gs.events) == Finished(old(gs.events)) + TurnsFinished(o)
    {
      var challenger := base.gameState.GetPlayerByUUID(challengerId);
      o := SettleChallenge(challenger, showing, loss, keep);
    }

    /** handleChallenge with the challenger found (or not), then the end of the turn
        unless it threw. */
    method SettleChallenge(challenger: Player?, showing: Reply<CardId>, loss: Reply<CardId>, keep: Reply<seq<CardId>>)
      returns (o: Outcome)
      requires Valid() && base.currentPlayer != null && challenger != base.currentPlayer
      requires challenger != null ==> challenger in base.gameState.AllPlayers()
      modifies base.gameState, base.gameState.deck, base.currentPlayer`cards, Only(challenger)`cards
      ensures Valid()
      ensures var gs, cur := base.gameState, base.currentPlayer;
        var v := ExchangeVerdictOf(Resolution("", ChallengeAccept), old(HandOf(challenger)), old(cur.cards), showing, loss);
        ExchangeEffect(v, keep, old(ViewOf(gs, cur, challenger)), ViewOf(gs, cur, challenger)) &&
        o == ExchangeOutcome(v, old(|gs.deck.cards|)) &&
        Finished(gs.events) == Finished(old(gs.events)) + TurnsFinished(o)
    {
      o := HandleChallenge(challenger, showing, loss, keep);
      if o.Pass? {
        ghost var settled := ViewOf(base.gameState, base.currentPlayer, challenger);
        ghost var everyone := base.gameState.AllPlayers();
        base.FinishTurn();
        assert base.gameState.AllPlayers() == everyone;
        assert ViewOf(base.gameState, base.currentPlayer, challenger) == settled;
      }
    }

    /** handleChallenge: the claimant shows a card; not an Ambassador, it is
        discarded and there is no exchange; an Ambassador costs the challenger a card
        (a missing challenger throws here), then the claimant swaps it through the
        deck and exchanges. */
    method HandleChallenge(challenger: Player?, showing: Reply<CardId>, loss: Reply<CardId>, keep: Reply<seq<CardId>>)
      returns (o: Outcome)
      requires Valid() && base.currentPlayer != null && challenger != base.currentPlayer
      requires challenger != null ==> challenger in base.gameState.AllPlayers()
      modifies base.gameState, base.gameState.deck, base.currentPlayer`cards, Only(challenger)`cards
      ensures Valid() && Finished(base.gameState.events) == Finished(old(base.gameState.events))
      ensures var gs, cur := base.gameState, base.currentPlayer;
        var v := ExchangeVerdictOf(Resolution("", ChallengeAccept), old(HandOf(challenger)), old(cur.cards), showing, loss);
        ExchangeEffect(v, keep, old(ViewOf(gs, cur, challenger)), ViewOf(gs, cur, challenger)) &&
        o == ExchangeOutcome(v, old(|gs.deck.cards|))
    {
      var cur := base.currentPlayer;
      ghost var v := ExchangeVerdictOf(Resolution("", ChallengeAccept), HandOf(challenger), cur.cards, showing, loss);
      var shownId := AskSingleCard(cur.cards, showing);
      if shownId.Err? {
        assert v == Broken(NoOptions);
        return Fail(NoOptions);
      }
      var shown := cur.GetCardByUUID(shownId.value);
      FindAgreesWithIndex(cur.cards, shownId.value);
      if shown.None? {
        assert v == Broken(CardNotFound);
        return Fail(CardNotFound);
      }
      if shown.value.variant != Ambassador {
        o := RefuteClaim(challenger, shownId.value);
        return;
      }
      if challenger == null {
        assert v == Broken(PlayerNotFound);
        return Fail(PlayerNotFound);
      }
      o := UpholdClaim(challenger, shownId.value, loss, keep);
    }

    /** The claim was a bluff: the claimant discards the card they showed. */
    method RefuteClaim(challenger: Player?, shownId: CardId) returns (o: Outcome)
      requires Valid() && base.currentPlayer != null && challenger != base.currentPlayer
      requires Holds(base.currentPlayer.cards, shownId)
      modifies base.gameState, base.currentPlayer`cards
      ensures Valid() && Finished(base.gameState.events) == Finished(old(base.gameState.events))
      ensures var gs, cur := base.gameState, base.currentPlayer;
        o == Pass &&
        ExchangeEffect(Refuted(IndexOfCard(old(cur.cards), shownId)), Answered([]),
                       old(ViewOf(gs, cur, challenger)), ViewOf(gs, cur, challenger))
    {
      var gs, cur := base.gameState, base.currentPlayer;
      ghost var a := ViewOf(gs, cur, challenger);
      o := Discard(gs, cur, shownId);
      assert OwnDiscard(a, ViewOf(gs, cur, challenger), IndexOfCard(a.hand, shownId));
    }

    /** The claim was real: the challenger gives up the card they choose, the
        claimant swaps the Ambassador through the deck and then exchanges. */
    method UpholdClaim(challenger: Player, shownId: CardId, loss: Reply<CardId>, keep: Reply<seq<CardId>>)
      returns (o: Outcome)
      requires Valid() && base.currentPlayer != null && challenger != base.currentPlayer
      requires challenger in base.gameState.AllPlayers() && Holds(base.currentPlayer.cards, shownId)
      modifies base.gameState, base.gameState.deck, base.currentPlayer`cards, challenger`cards
      ensures Valid() && Finished(base.gameState.events) == Finished(old(base.gameState.events))
      ensures var gs, cur := base.gameState, base.currentPlayer;
        var lost := ChosenCard(old(challenger.cards), loss);
        var v := if lost.Err? then Broken(lost.error) else Upheld(IndexOfCard(old(cur.cards), shownId), lost.value);
        ExchangeEffect(v, keep, old(ViewOf(gs, cur, challenger)), ViewOf(gs, cur, challenger)) &&
        o == ExchangeOutcome(v, old(|gs.deck.cards|))
    {
      var gs, cur := base.gameState, base.currentPlayer;
      ghost var a := ViewOf(gs, cur, challenger);
      ghost var i := IndexOfCard(cur.cards, shownId);
      o := LoseCard(gs, challenger, loss);
      if o.Fail? {
        assert ViewOf(gs, cur, challenger) == a;
        return;
      }
      ghost var j := ChosenCard(a.otherHand, loss).value;
      assert OtherDiscard(a, ViewOf(gs, cur, challenger), j);
      ghost var hand, deck;
      o, hand, deck := RedrawAndExchange(shownId, keep);
      assert ExchangeEffect(Upheld(i, j), keep, a, ViewOf(gs, cur, challenger));
    }

    /** After the challenger's loss: the claimant sends the Ambassador back into the
        deck, draws a replacement (ending with `hand` and the deck `deck`), then
        exchanges. */
    method RedrawAndExchange(shownId: CardId, keep: Reply<seq<CardId>>)
      returns (o: Outcome, ghost hand: seq<Card>, ghost deck: seq<Card>)
      requires Valid() && base.currentPlayer != null && Holds(base.currentPlayer.cards, shownId)
      modifies base.gameState.deck, base.currentPlayer`cards
      ensures Valid()
      ensures var gs, cur := base.gameState, base.currentPlayer;
        var i := IndexOfCard(old(cur.cards), shownId);
        i != -1 && Redrawn(old(cur.cards), i, hand, old(gs.deck.cards), deck) &&
        Swapped(hand, deck, keep, cur.cards, gs.deck.cards) &&
        o == (if old(|gs.deck.cards|) < 2 then Fail(EmptyDeck) else Pass)
    {
      var gs, cur := base.gameState, base.currentPlayer;
      o := Redraw(gs, cur, shownId);
      hand, deck := cur.cards, gs.deck.cards;
      o := PerformExchange(keep);
    }

    /** performExchange: two draws from the front of the deck into the hand, which
        throw on an empty deck, then every card of the hand whose id the answer to
        askTwoCards does not name goes back into the deck. GameState has no `getDeck`;
        it is taken to return the game's deck. */
    method PerformExchange(keep: Reply<seq<CardId>>) returns (o: Outcome)
      requires base.currentPlayer != null
      modifies base.gameState.deck, base.currentPlayer`cards
      ensures var deck, cur := base.gameState.deck, base.currentPlayer;
        Swapped(old(cur.cards), old(deck.cards), keep, cur.cards, deck.cards) &&
        o == (if old(|deck.cards|) < 2 then Fail(EmptyDeck) else Pass)
    {
      var deck, cur := base.gameState.deck, base.currentPlayer;
      var drawn1 := deck.Draw();
      if drawn1.Err? {
        return Fail(EmptyDeck);
      }
      var drawn2 := deck.Draw();
      if drawn2.Err? {
        return Fail(EmptyDeck);
      }
      cur.AddCard(drawn1.value);
      cur.AddCard(drawn2.value);
      TwoDraws(old(cur.cards), old(deck.cards));
      var total := cur.cards;
      var kept := AskTwoCards(total, keep);
      assert kept.Ok?;
      ReturnUnkept(total, kept.value);
      o := Pass;
    }

    /** The forEach of performExchange over a copy of the hand: each card whose id
        was not kept leaves the hand (its first card with that id, which is that very
        card) and is shuffled into the deck. */
    method ReturnUnkept(total: seq<Card>, kept: (CardId, CardId))
      requires base.currentPlayer != null && base.currentPlayer.cards == total
      modifies base.gameState.deck, base.currentPlayer`cards
      ensures base.currentPlayer.cards == Keep(total, kept)
      ensures multiset(base.gameState.deck.cards) == multiset(old(base.gameState.deck.cards)) + multiset(Returned(total, kept))
    {
      var deck, cur := base.gameState.deck, base.currentPlayer;
      var k := 0;
      while k < |total|
        invariant 0 <= k <= |total|
        invariant cur.cards == Keep(total[..k], kept) + total[k..]
        invariant multiset(deck.cards) == multiset(old(deck.cards)) + multiset(Returned(total[..k], kept))
      {
        ReturnOne(total, k, kept);
        k := k + 1;
      }
      assert total[..k] == total;
    }

    /** The forEach's step on card `k` of the copy. */
    method ReturnOne(total: seq<Card>, k: nat, kept: (CardId, CardId))
      requires base.currentPlayer != null && k < |total|
      requires base.currentPlayer.cards == Keep(total[..k], kept) + total[k..]
      modifies base.gameState.deck, base.currentPlayer`cards
      ensures base.currentPlayer.cards == Keep(total[..k + 1], kept) + total[k + 1..]
      ensures multiset(base.gameState.deck.cards) ==
        multiset(old(base.gameState.deck.cards)) + multiset(if Kept(total[k].uuid, kept) then [] else [total[k]])
      ensures Returned(total[..k + 1], kept) == Returned(total[..k], kept) + (if Kept(total[k].uuid, kept) then [] else [total[k]])
    {
      var card := total[k];
      ReturnStep(total, k, kept, base.currentPlayer.cards);
      if !Kept(card.uuid, kept) {
        var removed := base.currentPlayer.RemoveCardByUUID(card.uuid);
        base.gameState.deck.PushAndShuffle(card);
      }
    }
  }

  /** A card that is not kept is found, by its id, right after the kept cards before
      it; removing it leaves those and the cards after it. */
  lemma FirstUnkept(prefix: seq<Card>, rest: seq<Card>, kept: (CardId, CardId))
    requires rest != [] && !Kept(rest[0].uuid, kept)
    requires forall c :: c in prefix ==> Kept(c.uuid, kept)
    ensures IndexOfCard(prefix + rest, rest[0].uuid) == |prefix|
    ensures RemoveAt(prefix + rest, |prefix|) == prefix + rest[1..]
  {
    var s := prefix + rest;
    assert s[|prefix|] == rest[0];
  }

  /** One step of the forEach: a kept card stays where it is; one that is not kept
      is the first card with its id, and removing it leaves the hand the next step
      expects. */
  lemma ReturnStep(total: seq<Card>, k: nat, kept: (CardId, CardId), hand: seq<Card>)
    requires k < |total| && hand == Keep(total[..k], kept) + total[k..]
    ensures Kept(total[k].uuid, kept) ==> hand == Keep(total[..k + 1], kept) + total[k + 1..]
    ensures !Kept(total[k].uuid, kept) ==>
      IndexOfCard(hand, total[k].uuid) == |Keep(total[..k], kept)| &&
      RemoveAt(hand, |Keep(total[..k], kept)|) == Keep(total[..k + 1], kept) + total[k + 1..]
    ensures Returned(total[..k + 1], kept) == Returned(total[..k], kept) + (if Kept(total[k].uuid, kept) then [] else [total[k]])
  {
    KeepStep(total, k, kept);
    var prefix, rest := Keep(total[..k], kept), total[k..];
    if !Kept(total[k].uuid, kept) {
      KeepMembers(total[..k], kept);
      FirstUnkept(prefix, rest, kept);
      assert Keep(total[..k + 1], kept) == prefix;
    }
  }

  /** Keep and Returned grow by one card at a time along `total`. */
  lemma KeepStep(total: seq<Card>, k: nat, kept: (CardId, CardId))
    requires k < |total|
    ensures Keep(total[..k + 1], kept) == Keep(total[..k], kept) + (if Kept(total[k].uuid, kept) then [total[k]] else [])
    ensures Returned(total[..k + 1], kept) == Returned(total[..k], kept) + (if Kept(total[k].uuid, kept) then [] else [total[k]])
    ensures total[k..][0] == total[k] && total[k..][1..] == total[k + 1..]
    ensures total[k..] == [total[k]] + total[k + 1..]
  {
    assert total[..k + 1][..k] == total[..k];
  }
}
