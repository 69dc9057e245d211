/** The Duke's tax (coup-backend/src/cases/DukeCase.ts): three coins, unless another
    player challenges the Duke claim. The replies are parameters: `window` is what the
    challenge window settled on, `showing` the card the claimant shows and `loss` the
    card the challenger gives up when the Duke was real. The card the claimant gets
    for the shown Duke is built on the spot, with an id from `ids`. */
module DukeCases {
  import opened Errors
  import opened Cards
  import opened Players
  import opened Game
  import opened Prompts
  import opened BaseCases

  /** What the tax pays. */
  const TaxAmount: int := 3

  /** The branch tax ends in. */
  datatype TaxVerdict =
    | Untaxed                          // nobody challenged: three coins
    | Bluffed(shown: nat)              // the claimant showed hand card `shown`, not a Duke
    | Proven(shown: nat, lost: nat)    // a Duke was shown; the challenger loses card `lost`
    | Broken(error: Error)             // the handler throws

  /** The decision tree of tax and handleChallenge, given the challenger's hand (None
      when the challenger id names nobody active) and the claimant's hand. The shown
      and the lost card are picked the way askSingleCard picks; a picked id the hand
      lacks makes the handler throw. */
  function TaxVerdictOf(window: Resolution, challenger: Option<seq<Card>>, hand: seq<Card>,
                        showing: Reply<CardId>, loss: Reply<CardId>): (v: TaxVerdict)
    ensures v.Untaxed? <==> window.response != ChallengeAccept
    ensures window.response == ChallengeAccept && challenger.None? ==> v == Broken(PlayerNotFound)
    ensures v.Bluffed? <==>
      window.response == ChallengeAccept && challenger.Some? && ChosenCard(hand, showing).Ok? &&
      hand[ChosenCard(hand, showing).value].variant != Duke
    ensures v.Bluffed? ==> v.shown == ChosenCard(hand, showing).value
    ensures v.Proven? <==>
      window.response == ChallengeAccept && challenger.Some? && ChosenCard(hand, showing).Ok? &&
      hand[ChosenCard(hand, showing).value].variant == Duke && ChosenCard(challenger.value, loss).Ok?
    ensures v.Proven? ==>
      v.shown == ChosenCard(hand, showing).value && v.lost == ChosenCard(challenger.value, loss).value
  {
    if window.response != ChallengeAccept then Untaxed
    else if challenger.None? then Broken(PlayerNotFound)
    else
      var shown := ChosenCard(hand, showing);
      if shown.Err? then Broken(shown.error)
      else if hand[shown.value].variant != Duke then Bluffed(shown.value)
      else
        var lost := ChosenCard(challenger.value, loss);
        if lost.Err? then Broken(lost.error) else Proven(shown.value, lost.value)
  }

  /** The outcome of tax for a verdict. */
  function TaxOutcome(v: TaxVerdict): (o: Outcome)
    ensures o.Fail? <==> v.Broken?
    ensures v.Broken? ==> o.error == v.error
  {
    if v.Broken? then Fail(v.error) else Pass
  }

  /** What each verdict does to the claimant (hand, coins), the challenger (other
      hand, other coins), the discard log and the deck. `made` is the card built for
      the claimant when the Duke was real. Cards given up go back into the deck, not
      into the discard log. */
  ghost predicate TaxEffect(v: TaxVerdict, made: Card, a: View, b: View) {
    match v
    case Broken(_) => b == a
    case Untaxed => b == a.(coins := a.coins + TaxAmount)
    case Bluffed(i) =>
      i < |a.hand| && b.hand == RemoveAt(a.hand, i) &&
      multiset(b.deck) == multiset(a.deck) + multiset{a.hand[i]} &&
      b.otherHand == a.otherHand && b.known == a.known && b.coins == a.coins && b.otherCoins == a.otherCoins
    case Proven(i, j) =>
      i < |a.hand| && j < |a.otherHand| &&
      b.otherHand == RemoveAt(a.otherHand, j) && b.hand == RemoveAt(a.hand + [made], i) &&
      multiset(b.deck) == multiset(a.deck) + multiset{a.otherHand[j]} + multiset{a.hand[i]} &&
      b.known == a.known && b.coins == a.coins + TaxAmount && b.otherCoins == a.otherCoins
  }

  /** The claimant is paid exactly when nobody challenged or the Duke was real. */
  lemma TaxPaidUnlessBluff(window: Resolution, challenger: Option<seq<Card>>, hand: seq<Card>,
                           showing: Reply<CardId>, loss: Reply<CardId>, made: Card, a: View, b: View)
    requires TaxEffect(TaxVerdictOf(window, challenger, hand, showing, loss), made, a, b)
    requires !TaxVerdictOf(window, challenger, hand, showing, loss).Broken?
    ensures b.coins == a.coins + TaxAmount <==>
      window.response != ChallengeAccept || hand[ChosenCard(hand, showing).value].variant == Duke
    ensures b.coins == a.coins || b.coins == a.coins + TaxAmount
    ensures b.otherCoins == a.otherCoins
  {
  }

  /** A shown Duke leaves the claimant with as many cards as before: the built card
      takes the place of the Duke, which leaves the hand. */
  lemma ProvenKeepsHandSize(i: nat, j: nat, made: Card, a: View, b: View)
    requires TaxEffect(Proven(i, j), made, a, b)
    ensures |b.hand| == |a.hand| && |b.otherHand| == |a.otherHand| - 1
    ensures b.hand[|b.hand| - 1] == made
    ensures multiset(b.hand) + multiset{a.hand[i]} == multiset(a.hand) + multiset{made}
  {
    var h := a.hand + [made];
    assert h[i] == a.hand[i];
    assert b.hand[|b.hand| - 1] == h[|h| - 1];
  }

  /** Multiset bookkeeping for TaxStock: the claimant gives `c` and gets `m`, the
      challenger gives `d`, and the deck takes `c` and `d`. */
  lemma Rebalance(ha: multiset<Card>, hb: multiset<Card>, oa: multiset<Card>, ob: multiset<Card>,
                  k: multiset<Card>, da: multiset<Card>, db: multiset<Card>, c: Card, d: Card, m: Card)
    requires hb + multiset{c} == ha + multiset{m} && ob + multiset{d} == oa
    requires db == da + multiset{d} + multiset{c}
    ensures hb + ob + k + db == ha + oa + k + da + multiset{m}
  {
    var l, r := hb + ob + k + db, ha + oa + k + da + multiset{m};
    forall x ensures l[x] == r[x] {
      assert (hb + multiset{c})[x] == (ha + multiset{m})[x];
      assert (ob + multiset{d})[x] == oa[x];
    }
    assert l == r;
  }

  /** The tax never adds or removes cards, except when the Duke was real: the built
      card is then one more card in the game than before. The deck takes what the
      hands give up, and the discard log is untouched. */
  lemma TaxStock(v: TaxVerdict, made: Card, a: View, b: View)
    requires TaxEffect(v, made, a, b)
    ensures v.Proven? ==> Stock(b) == Stock(a) + multiset{made}
    ensures !v.Proven? ==> Stock(b) == Stock(a)
  {
    match v
    case Bluffed(i) =>
      var c := a.hand[i];
      assert multiset(b.hand) + multiset{c} == multiset(a.hand);
      assert Stock(b) == multiset(b.hand) + multiset(a.otherHand) + multiset(a.known) + (multiset(a.deck) + multiset{c});
    case Proven(i, j) =>
      ProvenKeepsHandSize(i, j, made, a, b);
      Rebalance(multiset(a.hand), multiset(b.hand), multiset(a.otherHand), multiset(b.otherHand), multiset(a.known),
                multiset(a.deck), multiset(b.deck), a.hand[i], a.otherHand[j], made);
    case _ =>
  }

  class DukeCase {
    const base: BaseCase
    /** The player who challenged the Duke, once handleChallenge has looked them up. */
    var challengerPlayer: Player?

    ghost predicate Valid()
      reads this`challengerPlayer, base`currentPlayer, base.gameState`players, base.gameState`eliminatedPlayers
    {
      base.Valid() && (challengerPlayer != null ==> challengerPlayer in base.gameState.AllPlayers())
    }

    /** DukeCase declares no constructor of its own: it takes BaseCase's. */
    constructor (caseName: string, gameState: GameState)
      requires gameState.Valid()
      ensures fresh(base) && Valid() && challengerPlayer == null
      ensures base.caseName == caseName && base.gameState == gameState
      ensures base.currentPlayer == gameState.GetCurrentTurnPlayer()
    {
      base := new BaseCase(caseName, gameState);
      challengerPlayer := null;
    }

    /** tax: with the player the handler was built for, opens the challenge window and
        pays, or settles the challenge, as TaxVerdictOf says. The turn is not finished
        here. Only the claimant, the challenger and the deck change. */
    method Tax(window: Resolution, showing: Reply<CardId>, loss: Reply<CardId>, ids: IdSupply) returns (o: Outcome)
      requires Valid() && ids.Valid()
      requires base.currentPlayer != null && window.response == ChallengeAccept ==>
        window.challengerId != base.currentPlayer.uuid
      modifies this`challengerPlayer, base.gameState.deck, ids
      modifies Only(base.currentPlayer)`coins, Only(base.currentPlayer)`cards
      modifies Only(base.gameState.GetPlayerByUUID(window.challengerId))`cards
      ensures Valid() && ids.Valid()
      ensures base.currentPlayer == null ==> o == Fail(NoCurrentPlayer) && unchanged(base.gameState.deck)
      ensures var gs, cur := base.gameState, base.currentPlayer;
        var challenger := if window.response == ChallengeAccept then old(gs.GetPlayerByUUID(window.challengerId)) else null;
        cur != null ==>
        var v := TaxVerdictOf(window, old(HandOf(challenger)), old(cur.cards), showing, loss);
        TaxEffect(v, Card(old(ids.next), Assassin), old(ViewOf(gs, cur, challenger)), ViewOf(gs, cur, challenger)) &&
        o == TaxOutcome(v) && (v.Proven? ==> old(ids.next) !in old(ids.issued))
    {
      var cur := base.currentPlayer;
      if cur == null {
        return Fail(NoCurrentPlayer);
      }
      if window.response == ChallengeAccept {
        o := HandleChallenge(window.challengerId, showing, loss, ids);
      } else {
        cur.AddCoins(TaxAmount);
        o := Pass;
      }
    }

    /** handleChallenge: looks the challenger up (a missing one fails before any
        change); the claimant shows a card; not a Duke, it goes back into the deck
        and nobody is paid. */
    method HandleChallenge(challengerId: string, showing: Reply<CardId>, loss: Reply<CardId>, ids: IdSupply)
      returns (o: Outcome)
      requires Valid() && ids.Valid() && base.currentPlayer != null
      requires challengerId != base.currentPlayer.uuid
      modifies this`challengerPlayer, base.gameState.deck, ids
      modifies base.currentPlayer`coins, base.currentPlayer`cards, Only(base.gameState.GetPlayerByUUID(challengerId))`cards
      ensures Valid() && ids.Valid()
      ensures challengerPlayer == old(base.gameState.GetPlayerByUUID(challengerId))
      ensures var gs, cur, challenger := base.gameState, base.currentPlayer, challengerPlayer;
        var v := TaxVerdictOf(Resolution(challengerId, ChallengeAccept), old(HandOf(challenger)), old(cur.cards), showing, loss);
        TaxEffect(v, Card(old(ids.next), Assassin), old(ViewOf(gs, cur, challenger)), ViewOf(gs, cur, challenger)) &&
        o == TaxOutcome(v) && (v.Proven? ==> old(ids.next) !in old(ids.issued))
    {
      var gs, cur := base.gameState, base.currentPlayer;
      challengerPlayer := gs.GetPlayerByUUID(challengerId);
      if challengerPlayer == null {
        return Fail(PlayerNotFound);
      }
      var shownId := AskSingleCard(cur.cards, showing);
      if shownId.Err? {
        return Fail(NoOptions);
      }
      var shown := cur.GetCardByUUID(shownId.value);
      FindAgreesWithIndex(cur.cards, shownId.value);
      if shown.None? {
        return Fail(CardNotFound);
      }
      if shown.value.variant != Duke {
        o := Recycle(gs, cur, shownId.value);
        return;
      }
      o := ProveDuke(shownId.value, loss, ids);
    }

    /** The real-Duke branch: the challenger's chosen card goes back into the deck;
        the claimant receives a newly built Assassin, returns the Duke to the deck and
        takes the three coins. */
    method ProveDuke(dukeId: CardId, loss: Reply<CardId>, ids: IdSupply) returns (o: Outcome)
      requires Valid() && ids.Valid() && base.currentPlayer != null && challengerPlayer != null
      requires challengerPlayer != base.currentPlayer && Holds(base.currentPlayer.cards, dukeId)
      modifies base.gameState.deck, ids, base.currentPlayer`coins, base.currentPlayer`cards, challengerPlayer`cards
      ensures Valid() && ids.Valid()
      ensures var gs, cur, challenger := base.gameState, base.currentPlayer, challengerPlayer;
        var lost := ChosenCard(old(challenger.cards), loss);
        var v := if lost.Err? then Broken(lost.error) else Proven(IndexOfCard(old(cur.cards), dukeId), lost.value);
        TaxEffect(v, Card(old(ids.next), Assassin), old(ViewOf(gs, cur, challenger)), ViewOf(gs, cur, challenger)) &&
        o == TaxOutcome(v) && (v.Proven? ==> old(ids.next) !in old(ids.issued))
    {
      var gs, cur, challenger := base.gameState, base.currentPlayer, challengerPlayer;
      ghost var a := ViewOf(gs, cur, challenger);
      ghost var i := IndexOfCard(cur.cards, dukeId);
      var lostId := AskSingleCard(challenger.cards, loss);
      if lostId.Err? {
        return Fail(NoOptions);
      }
      o := Recycle(gs, challenger, lostId.value);
      if o.Fail? {
        return;
      }
      ghost var j := ChosenCard(a.otherHand, loss).value;
      var made := NewCard(ids, Assassin);
      cur.AddCard(made);
      assert cur.cards == a.hand + [made];
      IndexOfAppend(a.hand, made, dukeId);
      o := Recycle(gs, cur, dukeId);
      cur.AddCoins(TaxAmount);
      assert TaxEffect(Proven(i, j), made, a, ViewOf(gs, cur, challenger));
    }
  }
}
