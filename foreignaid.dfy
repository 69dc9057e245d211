/** The Foreign Aid action (coup-backend/src/cases/ForeignAidCase.ts): two coins,
    unless another player blocks as Duke; the current player may then challenge that
    Duke. The replies of the players are parameters: `window` is what
    challengeOthers settled on, `counter` the current player's answer to the block,
    `showing` the card the blocker shows and `loss` the card the current player
    gives up when the Duke was real. */
module ForeignAidCases {
  import opened Errors
  import opened Cards
  import opened Players
  import opened Game
  import opened Prompts
  import opened BaseCases

  /** What Foreign Aid pays. */
  const Aid: int := 2

  /** The branch runCase ends in. */
  datatype AidVerdict =
    | Unblocked                        // nobody claimed a Duke: two coins
    | BlockStands                      // the block was not challenged: nothing happens
    | BluffCaught(shown: nat)          // the blocker showed hand card `shown`, not a Duke
    | DukeShown(shown: nat, lost: nat) // a Duke was shown; the current player loses card `lost`
    | Broken(error: Error)             // the handler throws before finishing the turn

  /** The decision tree of runCase and resolveDukeBlock, given the blocker's hand (None
      when the challenger id names nobody active) and the current player's hand. */
  function AidVerdictOf(window: Resolution, blocker: Option<seq<Card>>, hand: seq<Card>,
                        counter: Reply<string>, showing: Reply<CardId>, loss: Reply<CardId>): (v: AidVerdict)
    ensures v.Unblocked? <==> window.response != ChallengeAccept
    ensures v.BlockStands? <==>
      window.response == ChallengeAccept && blocker.Some? && ChallengePlayer(counter) != ChallengeAccept
    ensures v == Broken(PlayerNotFound) <==> window.response == ChallengeAccept && blocker.None?
    ensures (v.BluffCaught? || v.DukeShown?) ==>
      window.response == ChallengeAccept && blocker.Some? && ChallengePlayer(counter) == ChallengeAccept &&
      v == DukeChallengeVerdict(blocker.value, hand, showing, loss)
  {
    if window.response != ChallengeAccept then Unblocked
    else if blocker.None? then Broken(PlayerNotFound)
    else CounterVerdict(blocker.value, hand, counter, showing, loss)
  }

  /** resolveDukeBlock's decision tree once the blocker is known: the block stands
      unless the current player challenges it. */
  function CounterVerdict(shown: seq<Card>, hand: seq<Card>, counter: Reply<string>, showing: Reply<CardId>,
                          loss: Reply<CardId>): (v: AidVerdict)
    ensures v.BlockStands? <==> ChallengePlayer(counter) != ChallengeAccept
    ensures !v.BlockStands? ==> v == DukeChallengeVerdict(shown, hand, showing, loss)
  {
    if ChallengePlayer(counter) != ChallengeAccept then BlockStands
    else DukeChallengeVerdict(shown, hand, showing, loss)
  }

  /** resolveChallengeToDuke's decision tree: the blocker reveals the card `showing`
      names; a non-Duke is a caught bluff, a Duke costs the current player the card
      `loss` names. */
  function DukeChallengeVerdict(shown: seq<Card>, hand: seq<Card>, showing: Reply<CardId>, loss: Reply<CardId>)
    : (v: AidVerdict)
    ensures !(v.Unblocked? || v.BlockStands? || v == Broken(PlayerNotFound))
    ensures v.BluffCaught? <==>
      AskSingleCard(shown, showing).Ok? && Holds(shown, AskSingleCard(shown, showing).value) &&
      FindCard(shown, AskSingleCard(shown, showing).value).value.variant != Duke
    ensures v.BluffCaught? ==>
      v.shown < |shown| && shown[v.shown].variant != Duke && AskSingleCard(shown, showing) == Ok(shown[v.shown].uuid)
    ensures v.DukeShown? ==>
      v.shown < |shown| && shown[v.shown].variant == Duke && AskSingleCard(shown, showing) == Ok(shown[v.shown].uuid) &&
      v == DukeShownVerdict(v.shown, hand, loss)
  {
    var revealed := AskSingleCard(shown, showing);
    if revealed.Err? then Broken(NoOptions)
    else
      var i := IndexOfCard(shown, revealed.value);
      FindAgreesWithIndex(shown, revealed.value);
      if i == -1 then Broken(CardNotFound)
      else if shown[i].variant != Duke then BluffCaught(i)
      else DukeShownVerdict(i, hand, loss)
  }

  /** After a real Duke (hand card `i` of the blocker): the current player gives up the
      card `loss` names. */
  function DukeShownVerdict(i: nat, hand: seq<Card>, loss: Reply<CardId>): (v: AidVerdict)
    ensures v.DukeShown? || v.Broken?
    ensures v.DukeShown? <==> ChosenCard(hand, loss).Ok?
    ensures v.DukeShown? ==> v.shown == i && v.lost == ChosenCard(hand, loss).value
    ensures v.Broken? ==> v.error == ChosenCard(hand, loss).error
  {
    var lost := ChosenCard(hand, loss);
    if lost.Err? then Broken(lost.error) else DukeShown(i, lost.value)
  }

  /** The outcome of runCase for a verdict. */
  function AidOutcome(v: AidVerdict): (o: Outcome)
    ensures o.Fail? <==> v.Broken?
    ensures v.Broken? ==> o.error == v.error
  {
    if v.Broken? then Fail(v.error) else Pass
  }

  /** What each verdict does to the current player (hand, coins), the blocker (other
      hand, other coins), the discard log and the deck. */
  ghost predicate AidEffect(v: AidVerdict, a: View, b: View) {
    match v
    case Broken(_) => b == a
    case BlockStands => b == a
    case Unblocked => b == a.(coins := a.coins + Aid)
    case BluffCaught(i) =>
      OtherDiscard(a, b, i) && b.hand == a.hand && b.deck == a.deck &&
      b.coins == a.coins + Aid && b.otherCoins == a.otherCoins
    case DukeShown(i, j) =>
      i < |a.otherHand| && OwnDiscard(a, b, j) && Redrawn(a.otherHand, i, b.otherHand, a.deck, b.deck) &&
      b.coins == a.coins && b.otherCoins == a.otherCoins
  }

  /** The current player is paid exactly when nobody blocked or the block was a bluff. */
  lemma AidPaidUnlessBlockHolds(window: Resolution, blocker: Option<seq<Card>>, hand: seq<Card>,
                                counter: Reply<string>, showing: Reply<CardId>, loss: Reply<CardId>,
                                a: View, b: View)
    requires AidEffect(AidVerdictOf(window, blocker, hand, counter, showing, loss), a, b)
    requires !AidVerdictOf(window, blocker, hand, counter, showing, loss).Broken?
    ensures b.coins == a.coins + Aid <==>
      window.response != ChallengeAccept ||
      (ChallengePlayer(counter) == ChallengeAccept && blocker.Some? &&
       FindCard(blocker.value, AskSingleCard(blocker.value, showing).value).value.variant != Duke)
    ensures b.coins == a.coins || b.coins == a.coins + Aid
  {
  }

  /** Foreign Aid moves no card in or out of the game's stock: whatever the verdict,
      the view holds the same cards before and after. */
  lemma AidKeepsCards(v: AidVerdict, a: View, b: View)
    requires AidEffect(v, a, b)
    ensures Stock(b) == Stock(a)
  {
    match v
    case BluffCaught(i) =>
      OtherDiscardKeepsCards(a, b, i);
    case DukeShown(i, j) =>
      var mid := a.(hand := b.hand, known := b.known);
      OwnDiscardKeepsCards(a, mid, j);
      RedrawKeepsCards(mid, b, i);
    case _ =>
  }

  class ForeignAidCase {
    const base: BaseCase
    /** The player who blocked as Duke, once resolveDukeBlock has looked them up. */
    var challengerPlayer: Player?

    ghost predicate Valid()
      reads this`challengerPlayer, base`currentPlayer, base.gameState`players, base.gameState`eliminatedPlayers
    {
      base.Valid() && (challengerPlayer != null ==> challengerPlayer in base.gameState.AllPlayers())
    }

    constructor (gameState: GameState)
      requires gameState.Valid()
      ensures fresh(base) && Valid() && challengerPlayer == null
      ensures base.caseName == "Foreign Aid" && base.gameState == gameState
      ensures base.currentPlayer == gameState.GetCurrentTurnPlayer()
    {
      base := new BaseCase("Foreign Aid", gameState);
      challengerPlayer := null;
    }

    /** runCase: looks up the turn player afresh, opens the Duke-block window and pays,
        stands or settles the Duke challenge as AidVerdictOf says; the turn is finished
        exactly when no failure stopped the handler. Only the current player and the
        blocker change, and the game keeps its cards. */
    method RunCase(window: Resolution, counter: Reply<string>, showing: Reply<CardId>, loss: Reply<CardId>)
      returns (o: Outcome)
      requires Valid()
      requires var cur := base.gameState.GetCurrentTurnPlayer();
        cur != null && window.response == ChallengeAccept ==> window.challengerId != cur.uuid
      modifies this`challengerPlayer, base`currentPlayer, base.gameState, base.gameState.deck
      modifies Only(base.gameState.GetCurrentTurnPlayer())`coins, Only(base.gameState.GetCurrentTurnPlayer())`cards
      modifies Only(base.gameState.GetPlayerByUUID(window.challengerId))`cards
      ensures Valid()
      ensures base.currentPlayer == old(base.gameState.GetCurrentTurnPlayer())
      ensures base.currentPlayer == null ==> o == Fail(NoCurrentPlayer) && unchanged(base.gameState)
      ensures var gs, cur := base.gameState, base.currentPlayer;
        var blocker := if window.response == ChallengeAccept then old(gs.GetPlayerByUUID(window.challengerId)) else null;
        cur != null ==>
        var v := AidVerdictOf(window, old(HandOf(blocker)), old(cur.cards), counter, showing, loss);
        AidEffect(v, old(ViewOf(gs, cur, blocker)), ViewOf(gs, cur, blocker)) && o == AidOutcome(v) &&
        Finished(gs.events) == Finished(old(gs.events)) + TurnsFinished(o)
    {
      var gs := base.gameState;
      base.currentPlayer := gs.GetCurrentTurnPlayer();
      var cur := base.currentPlayer;
      if cur == null {
        return Fail(NoCurrentPlayer);
      }
      if window.response == ChallengeAccept {
        o := ContestAid(window.challengerId, counter, showing, loss);
      } else {
        o := TakeAid();
      }
    }

    /** The blocked branch: resolveDukeBlock looks the blocker up, and a missing one
        fails before any change; otherwise the block is settled and the turn ends
        unless something failed. */
    method ContestAid(challengerId: string, counter: Reply<string>, showing: Reply<CardId>, loss: Reply<CardId>)
      returns (o: Outcome)
      requires Valid() && base.currentPlayer != null
      requires challengerId != base.currentPlayer.uuid
      modifies this`challengerPlayer, base.gameState, base.gameState.deck
      modifies base.currentPlayer`coins, base.currentPlayer`cards, Only(base.gameState.GetPlayerByUUID(challengerId))`cards
      ensures Valid()
      ensures challengerPlayer == old(base.gameState.GetPlayerByUUID(challengerId))
      ensures var gs, cur, blocker := base.gameState, base.currentPlayer, challengerPlayer;
        var v := AidVerdictOf(Resolution(challengerId, ChallengeAccept), old(HandOf(blocker)), old(cur.cards),
                              counter, showing, loss);
        AidEffect(v, old(ViewOf(gs, cur, blocker)), ViewOf(gs, cur, blocker)) && o == AidOutcome(v) &&
        Finished(gs.events) == Finished(old(gs.events)) + TurnsFinished(o)
    {
      challengerPlayer := base.gameState.GetPlayerByUUID(challengerId);
      if challengerPlayer == null {
        return Fail(PlayerNotFound);
      }
      o := SettleBlock(counter, showing, loss);
    }

    /** A known blocker: resolveDukeBlock's question and its consequences, then the
        end of the turn unless something failed. */
    method SettleBlock(counter: Reply<string>, showing: Reply<CardId>, loss: Reply<CardId>) returns (o: Outcome)
      requires Valid() && base.currentPlayer != null && challengerPlayer != null
      requires challengerPlayer != base.currentPlayer
      modifies base.gameState, base.gameState.deck, base.currentPlayer`coins, base.currentPlayer`cards, challengerPlayer`cards
      ensures Valid()
      ensures var gs, cur, blocker := base.gameState, base.currentPlayer, challengerPlayer;
        var v := CounterVerdict(old(blocker.cards), old(cur.cards), counter, showing, loss);
        AidEffect(v, old(ViewOf(gs, cur, blocker)), ViewOf(gs, cur, blocker)) && o == AidOutcome(v) &&
        Finished(gs.events) == Finished(old(gs.events)) + TurnsFinished(o)
    {
      o := ResolveDukeBlock(counter, showing, loss);
      if o.Pass? {
        ghost var settled := ViewOf(base.gameState, base.currentPlayer, challengerPlayer);
        ghost var everyone := base.gameState.AllPlayers();
        base.FinishTurn();
        assert base.gameState.AllPlayers() == everyone;
        assert ViewOf(base.gameState, base.currentPlayer, challengerPlayer) == settled;
      }
    }

    /** The unblocked branch: two coins for the current player, then the turn ends. */
    method TakeAid() returns (o: Outcome)
      requires Valid() && base.currentPlayer != null
      modifies base.currentPlayer`coins, base.gameState`currentTurnPlayerIndex, base.gameState`events
      ensures o == Pass && base.currentPlayer.coins == old(base.currentPlayer.coins) + Aid
      ensures Finished(base.gameState.events) == Finished(old(base.gameState.events)) + 1
    {
      base.currentPlayer.AddCoins(Aid);
      base.FinishTurn();
      o := Pass;
    }

    /** resolveDukeBlock, once its caller has found the blocker: asks the current
        player whether to challenge the Duke claim. */
    method ResolveDukeBlock(counter: Reply<string>, showing: Reply<CardId>, loss: Reply<CardId>) returns (o: Outcome)
      requires Valid() && base.currentPlayer != null && challengerPlayer != null
      requires challengerPlayer != base.currentPlayer
      modifies base.gameState, base.gameState.deck, base.currentPlayer`coins, base.currentPlayer`cards, challengerPlayer`cards
      ensures Valid()
      ensures Finished(base.gameState.events) == Finished(old(base.gameState.events))
      ensures var gs, cur, blocker := base.gameState, base.currentPlayer, challengerPlayer;
        var v := CounterVerdict(old(blocker.cards), old(cur.cards), counter, showing, loss);
        AidEffect(v, old(ViewOf(gs, cur, blocker)), ViewOf(gs, cur, blocker)) && o == AidOutcome(v)
    {
      var response := ChallengePlayer(counter);
      if response == ChallengeAccept {
        o := ResolveChallengeToDuke(showing, loss);
      } else {
        o := Pass;
      }
    }

    /** resolveChallengeToDuke: the blocker reveals a card. Not a Duke: the blocker
        discards it and Foreign Aid pays after all. A Duke: the current player discards
        a card of their choice and the blocker swaps the Duke through the deck. */
    method ResolveChallengeToDuke(showing: Reply<CardId>, loss: Reply<CardId>) returns (o: Outcome)
      requires Valid() && base.currentPlayer != null && challengerPlayer != null
      requires challengerPlayer != base.currentPlayer
      modifies base.gameState, base.gameState.deck, base.currentPlayer`coins, base.currentPlayer`cards, challengerPlayer`cards
      ensures Valid()
      ensures Finished(base.gameState.events) == Finished(old(base.gameState.events))
      ensures var gs, cur, blocker := base.gameState, base.currentPlayer, challengerPlayer;
        var v := DukeChallengeVerdict(old(blocker.cards), old(cur.cards), showing, loss);
        AidEffect(v, old(ViewOf(gs, cur, blocker)), ViewOf(gs, cur, blocker)) && o == AidOutcome(v)
    {
      var gs, cur, blocker := base.gameState, base.currentPlayer, challengerPlayer;
      var shown := AskSingleCard(blocker.cards, showing);
      if shown.Err? {
        return Fail(NoOptions);
      }
      var revealed := blocker.GetCardByUUID(shown.value);
      FindAgreesWithIndex(blocker.cards, shown.value);
      if revealed.None? {
        return Fail(CardNotFound);
      }
      if revealed.value.variant != Duke {
        o := PayAfterBluff(shown.value);
      } else {
        o := SwapRealDuke(revealed.value.uuid, loss);
      }
    }

    /** The bluff branch: the blocker discards the revealed card, which may eliminate
        them, and the current player takes the two coins. */
    method PayAfterBluff(cardUuid: CardId) returns (o: Outcome)
      requires Valid() && base.currentPlayer != null && challengerPlayer != null
      requires challengerPlayer != base.currentPlayer
      requires Holds(challengerPlayer.cards, cardUuid)
      modifies base.gameState, challengerPlayer`cards, base.currentPlayer`coins
      ensures Valid()
      ensures Finished(base.gameState.events) == Finished(old(base.gameState.events))
      ensures var gs, cur, blocker := base.gameState, base.currentPlayer, challengerPlayer;
        o == Pass &&
        AidEffect(BluffCaught(IndexOfCard(old(blocker.cards), cardUuid)), old(ViewOf(gs, cur, blocker)), ViewOf(gs, cur, blocker))
    {
      var gs, cur, blocker := base.gameState, base.currentPlayer, challengerPlayer;
      ghost var a := ViewOf(gs, cur, blocker);
      o := Discard(gs, blocker, cardUuid);
      assert OtherDiscard(a, ViewOf(gs, cur, blocker), IndexOfCard(a.otherHand, cardUuid));
      cur.AddCoins(Aid);
    }

    /** The real-Duke branch: the current player discards the card they choose, which
        may eliminate them, and the blocker sends the Duke back into the deck and draws
        a replacement. */
    method SwapRealDuke(dukeUuid: CardId, loss: Reply<CardId>) returns (o: Outcome)
      requires Valid() && base.currentPlayer != null && challengerPlayer != null
      requires challengerPlayer != base.currentPlayer
      requires Holds(challengerPlayer.cards, dukeUuid)
      modifies base.gameState, base.gameState.deck, base.currentPlayer`cards, challengerPlayer`cards
      ensures Valid()
      ensures Finished(base.gameState.events) == Finished(old(base.gameState.events))
      ensures var gs, cur, blocker := base.gameState, base.currentPlayer, challengerPlayer;
        var v := DukeShownVerdict(IndexOfCard(old(blocker.cards), dukeUuid), old(cur.cards), loss);
        AidEffect(v, old(ViewOf(gs, cur, blocker)), ViewOf(gs, cur, blocker)) && o == AidOutcome(v)
    {
      var gs, cur, blocker := base.gameState, base.currentPlayer, challengerPlayer;
      ghost var a := ViewOf(gs, cur, blocker);
      ghost var i := IndexOfCard(blocker.cards, dukeUuid);
      o := LoseCard(gs, cur, loss);
      if o.Fail? {
        assert ViewOf(gs, cur, blocker) == a;
        return;
      }
      ghost var j := ChosenCard(a.hand, loss).value;
      assert OwnDiscard(a, ViewOf(gs, cur, blocker), j);
      o := Redraw(gs, blocker, dukeUuid);
      assert AidEffect(DukeShown(i, j), a, ViewOf(gs, cur, blocker));
    }
  }
}
