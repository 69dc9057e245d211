/** The Assassin's kill (coup-backend/src/cases/AssassinCase.ts): the claimant pays
    three coins up front, chooses a target, and the target accepts (losing a card),
    challenges the Assassin claim, or blocks claiming a Condessa, a block the claimant
    may challenge. The replies are parameters: `choice` picks the target, `defense` is
    the target's answer, `counter` the claimant's answer to a block, `showing` the card
    whoever is challenged shows and `loss` the card the losing side gives up. */
module AssassinCases {
  import opened Errors
  import opened Cards
  import opened Players
  import opened Game
  import opened Prompts
  import opened BaseCases

  /** What a kill costs, and the balance needed to attempt one. */
  const Fee: int := 3

  /** The target's answers, the first being the default. */
  const KillDefenses: seq<string> := [DefenseAccept, ChallengeAccept, DefenseBlock]

  /** The claimant's answers to a Condessa block, the first being the default. */
  const BlockAnswers: seq<string> := [ChallengeAccept, ChallengePass]

  /** canExecute: the turn player holds at least three coins, and then the default
      rule. With no turn player the coin read throws. */
  function CanAssassinate(gs: GameState): (r: Result<bool>)
    reads gs`players, gs`currentTurnPlayerIndex, gs.players
    ensures r.Err? <==> gs.GetCurrentTurnPlayer() == null
    ensures r.Err? ==> r.error == NoCurrentPlayer
    ensures r == Ok(true) <==>
      gs.GetCurrentTurnPlayer() != null && Fee <= gs.GetCurrentTurnPlayer().coins < MaxCoinsToAct
  {
    var cur := gs.GetCurrentTurnPlayer();
    if cur == null then Err(NoCurrentPlayer)
    else if cur.GetCoinsAmount() < Fee then Ok(false)
    else DefaultRule(gs)
  }

  /** promptChooseTarget's result: every other active player is offered and the
      first of them is the default. With nobody to offer, reading the default
      throws; a chosen id that names no active player throws too. */
  function KillTarget(gs: GameState, curId: string, choice: Reply<string>): (r: Result<Player>)
    reads gs`players
    ensures Opponents(gs.players, curId) == [] <==> r == Err(NoTarget)
    ensures r.Err? ==> r.error in {NoTarget, PlayerNotFound}
    ensures r.Ok? ==> r.value in gs.players
    ensures r.Ok? && choice.Answered? ==> r.value.uuid == choice.value
    ensures r.Ok? && choice.TimedOut? ==> r.value.uuid != curId
    ensures choice.TimedOut? && Opponents(gs.players, curId) != [] ==> r.Ok?
    ensures r == Err(PlayerNotFound) ==> choice.Answered? && forall q :: q in gs.players ==> q.uuid != choice.value
  {
    var options := Opponents(gs.players, curId);
    if options == [] then Err(NoTarget)
    else
      assert options[0] in options;
      var p := gs.GetPlayerByUUID(Prompt(options, Some(options[0]), choice));
      if p == null then Err(PlayerNotFound) else Ok(p)
  }

  /** The player an Assassination by `cur` aims at, as a set: empty when there is no
      claimant or no target is found. Whoever is not in it keeps their hand. */
  function KillVictim(gs: GameState, cur: Player?, choice: Reply<string>): (s: set<Player>)
    reads gs`players
    ensures cur == null || KillTarget(gs, cur.uuid, choice).Err? <==> s == {}
  {
    if cur == null then {} else
    var r := KillTarget(gs, cur.uuid, choice);
    if r.Ok? then {r.value} else {}
  }

  /** The branch runCase ends in once the fee is paid and the target is known. */
  datatype KillVerdict =
    | Killed(lost: nat)                   // the target accepted and gives up card `lost`
    | BlockConceded                       // the claimant let the Condessa block stand
    | BlockUpheld(shown: nat, lost: nat)  // the target showed a Condessa `shown`; the claimant loses card `lost`
    | BlockRefuted(shown: nat)            // the target showed `shown`, not a Condessa, and loses every card
    | ClaimUpheld(shown: nat)             // the claimant showed an Assassin `shown`: the target loses every card
    | ClaimRefuted(shown: nat)            // the claimant showed `shown`, not an Assassin, and discards it
    | Broken(error: Error)                // the handler throws before changing anything more

  /** The decision tree of runCase after the payment, given the claimant's and the
      target's hands and the replies. Any answer other than ACCEPT and BLOCK is taken
      as a challenge of the Assassin claim. */
  function KillVerdictOf(defense: Reply<string>, hand: seq<Card>, targetHand: seq<Card>,
                         counter: Reply<string>, showing: Reply<CardId>, loss: Reply<CardId>): (v: KillVerdict)
    ensures var d := Prompt(KillDefenses, Some(DefenseAccept), defense);
      (v.Killed? ==> d == DefenseAccept && ChosenCard(targetHand, loss) == Ok(v.lost)) &&
      (d == DefenseAccept ==> v.Killed? || (v.Broken? && ChosenCard(targetHand, loss).Err?)) &&
      ((v.BlockConceded? || v.BlockUpheld? || v.BlockRefuted?) ==> d == DefenseBlock) &&
      ((v.ClaimUpheld? || v.ClaimRefuted?) <==>
        d != DefenseAccept && d != DefenseBlock && ChosenCard(hand, showing).Ok?)
    ensures defense.TimedOut? ==> v.Killed? || v.Broken?
    ensures v.ClaimUpheld? ==> ChosenCard(hand, showing) == Ok(v.shown) && hand[v.shown].variant == Assassin
    ensures v.ClaimRefuted? ==> ChosenCard(hand, showing) == Ok(v.shown) && hand[v.shown].variant != Assassin
    ensures v.BlockConceded? <==>
      Prompt(KillDefenses, Some(DefenseAccept), defense) == DefenseBlock &&
      Prompt(BlockAnswers, Some(ChallengeAccept), counter) != ChallengeAccept
    ensures v.BlockUpheld? ==>
      ChosenCard(targetHand, showing) == Ok(v.shown) && targetHand[v.shown].variant == Condessa &&
      ChosenCard(hand, loss) == Ok(v.lost)
    ensures v.BlockRefuted? ==>
      ChosenCard(targetHand, showing) == Ok(v.shown) && targetHand[v.shown].variant != Condessa
  {
    var d := Prompt(KillDefenses, Some(DefenseAccept), defense);
    if d == DefenseAccept then
      var lost := ChosenCard(targetHand, loss);
      if lost.Err? then Broken(lost.error) else Killed(lost.value)
    else if d == DefenseBlock then BlockVerdict(hand, targetHand, counter, showing, loss)
    else ClaimVerdict(hand, showing)
  }

  /** handleCondessaBlock and handleBlockChallenge: unless the claimant passes, the
      target shows a card; a Condessa costs the claimant a card, anything else costs
      the target every card. A claimant who does not answer challenges. */
  function BlockVerdict(hand: seq<Card>, targetHand: seq<Card>,
                        counter: Reply<string>, showing: Reply<CardId>, loss: Reply<CardId>): (v: KillVerdict)
    ensures v.BlockConceded? || v.BlockUpheld? || v.BlockRefuted? || v.Broken?
    ensures v.BlockConceded? <==> counter.Answered? && counter.value != ChallengeAccept
    ensures v.Broken? <==>
      !v.BlockConceded? &&
      (ChosenCard(targetHand, showing).Err? ||
       (targetHand[ChosenCard(targetHand, showing).value].variant == Condessa && ChosenCard(hand, loss).Err?))
  {
    if Prompt(BlockAnswers, Some(ChallengeAccept), counter) != ChallengeAccept then BlockConceded
    else
      var shown := ChosenCard(targetHand, showing);
      if shown.Err? then Broken(shown.error)
      else if targetHand[shown.value].variant != Condessa then BlockRefuted(shown.value)
      else
        var lost := ChosenCard(hand, loss);
        if lost.Err? then Broken(lost.error) else BlockUpheld(shown.value, lost.value)
  }

  /** handleClaimChallenge: the claimant shows a card; an Assassin costs the target
      every card, anything else is discarded. */
  function ClaimVerdict(hand: seq<Card>, showing: Reply<CardId>): (v: KillVerdict)
    ensures v.ClaimUpheld? || v.ClaimRefuted? || v.Broken?
    ensures v.Broken? <==> ChosenCard(hand, showing).Err?
  {
    var shown := ChosenCard(hand, showing);
    if shown.Err? then Broken(shown.error)
    else if hand[shown.value].variant == Assassin then ClaimUpheld(shown.value)
    else ClaimRefuted(shown.value)
  }

  /** The outcome of runCase for a verdict: a throw, or the turn finished. A
      claimant who is their own target (`alone`, with hand `hand`) also throws when
      the card they showed is gone by the time it should go back into the deck:
      always after an upheld claim, which emptied their hand, and after an upheld
      block when the shown card was the one they gave up. */
  function KillOutcome(alone: bool, v: KillVerdict, hand: seq<Card>): (o: Outcome)
    ensures v.Broken? ==> o == Fail(v.error)
    ensures !alone ==> (o.Fail? <==> v.Broken?)
    ensures alone ==> (o.Fail? <==> v.Broken? || v.ClaimUpheld? || (v.BlockUpheld? && Stranded(hand, v.shown, v.lost)))
    ensures o.Fail? && !v.Broken? ==> o.error == CardNotFound
  {
    if v.Broken? then Fail(v.error)
    else if alone && (v.ClaimUpheld? || (v.BlockUpheld? && Stranded(hand, v.shown, v.lost))) then Fail(CardNotFound)
    else Pass
  }

  /** What each verdict does to the claimant's hand, the target's hand, the discard
      log and the deck, the target being the claimant when `alone`. No coin moves
      after the fee. */
  ghost predicate KillEffect(alone: bool, v: KillVerdict, a: View, b: View) {
    b.coins == a.coins && b.otherCoins == a.otherCoins &&
    match v
    case Broken(_) => b == a
    case BlockConceded => b == a
    case Killed(j) => TargetDiscard(alone, a, b, j)
    case BlockUpheld(i, j) => BlockUpheldEffect(alone, a, b, i, j)
    case BlockRefuted(i) => (if alone then i < |a.hand| else i < |a.otherHand|) && TargetDiscardsAll(alone, a, b)
    case ClaimUpheld(i) =>
      i < |a.hand| &&
      if alone then TargetDiscardsAll(true, a, b)
      else OtherDiscardsAll(a, b) && Redrawn(a.hand, i, b.hand, a.deck, b.deck)
    case ClaimRefuted(i) => OwnDiscard(a, b, i) && b.otherHand == a.otherHand && b.deck == a.deck
  }

  /** handleCondessaBlock's upheld branch in two steps: the claimant's loss takes
      `a` to `mid`, then the target's redraw takes `mid` to `b`. */
  lemma UpheldBlockSteps(alone: bool, shownId: CardId, a: View, mid: View, b: View, j: nat, o: Outcome)
    requires IndexOfCard(if alone then a.hand else a.otherHand, shownId) != -1
    requires j < |a.hand| && mid == a.(hand := RemoveAt(a.hand, j), known := a.known + [a.hand[j]])
    requires TargetRedrawn(alone, shownId, mid, b, o)
    ensures var v := BlockUpheld(IndexOfCard(if alone then a.hand else a.otherHand, shownId), j);
      KillEffect(alone, v, a, b) && o == KillOutcome(alone, v, a.hand)
  {
    LoseThenTargetRedraw(alone, shownId, a, mid, b, j, o);
  }

  /** After the fee, the kill adds and removes no card and moves no coin. */
  lemma KillKeepsCards(alone: bool, v: KillVerdict, a: View, b: View)
    requires KillEffect(alone, v, a, b)
    ensures Stock(b) == Stock(a)
    ensures b.coins == a.coins && b.otherCoins == a.otherCoins
  {
    match v
    case Killed(j) =>
      TargetDiscardKeepsCards(alone, a, b, j);
    case BlockUpheld(i, j) =>
      if alone {
        LoseThenRedrawKeepsCards(a, b, i, j);
      } else {
        var mid := a.(hand := b.hand, known := b.known);
        OwnDiscardKeepsCards(a, mid, j);
        RedrawKeepsCards(mid, b, i);
      }
    case BlockRefuted(i) =>
      TargetDiscardsAllKeepsCards(alone, a, b);
    case ClaimUpheld(i) =>
      if alone {
        TargetDiscardsAllKeepsCards(true, a, b);
      } else {
        var mid := a.(otherHand := b.otherHand, known := b.known);
        OtherDiscardsAllKeepsCards(a, mid);
        OwnRedrawKeepsCards(mid, b, i);
      }
    case ClaimRefuted(i) =>
      OwnDiscardKeepsCards(a, b, i);
    case _ =>
  }

  /** Against another player, exactly one side pays for a contested kill and no
      hand grows: the target loses at least one card when the kill goes through, the
      claimant one card when it is stopped by a proven Condessa or a bluff, and a
      conceded block costs nobody. */
  lemma KillCostsOneSide(v: KillVerdict, a: View, b: View)
    requires KillEffect(false, v, a, b)
    ensures |b.hand| <= |a.hand| && |b.otherHand| <= |a.otherHand|
    ensures |b.hand| == |a.hand| || |b.otherHand| == |a.otherHand|
    ensures v.Killed? || v.BlockRefuted? ==> |b.otherHand| < |a.otherHand|
    ensures |b.otherHand| < |a.otherHand| ==> v.Killed? || v.BlockRefuted? || v.ClaimUpheld?
    ensures v.BlockUpheld? || v.ClaimRefuted? <==> |b.hand| < |a.hand|
    ensures v.BlockRefuted? || v.ClaimUpheld? ==> b.otherHand == []
  {
  }

  /** A claimant who targets themself loses a card on every verdict that changes
      anything, and their whole hand when the Condessa block is refuted or the claim
      upheld. */
  lemma SelfKillCostsClaimant(v: KillVerdict, a: View, b: View)
    requires KillEffect(true, v, a, b)
    ensures b.otherHand == a.otherHand && |b.hand| <= |a.hand|
    ensures |b.hand| < |a.hand| <==> !v.Broken? && !v.BlockConceded?
    ensures v.BlockRefuted? || v.ClaimUpheld? ==> b.hand == []
  {
    if v.BlockUpheld? {
      LoseThenRedrawKeepsCards(a, b, v.shown, v.lost);
    }
  }

  class AssassinCase {
    const base: BaseCase
    /** The player being targeted, once promptChooseTarget has found them. */
    var targetPlayer: Player?

    ghost predicate Valid()
      reads this`targetPlayer, base`currentPlayer, base.gameState`players, base.gameState`eliminatedPlayers
    {
      base.Valid() && (targetPlayer != null ==> targetPlayer in base.gameState.AllPlayers())
    }

    constructor (gameState: GameState)
      requires gameState.Valid()
      ensures fresh(base) && Valid() && targetPlayer == null
      ensures base.caseName == "Kill" && base.gameState == gameState
      ensures base.currentPlayer == gameState.GetCurrentTurnPlayer()
    {
      base := new BaseCase("Kill", gameState);
      targetPlayer := null;
    }

    /** canExecute, on this handler's game. */
    function CanExecute(): (r: Result<bool>)
      reads base.gameState`players, base.gameState`currentTurnPlayerIndex, base.gameState.players
      ensures r == CanAssassinate(base.gameState)
    {
      CanAssassinate(base.gameState)
    }

    /** runCase: the turn player is read afresh, must hold three coins and pays them
        before anything else; the fee is never refunded, whatever follows. Then the
        target is chosen and the kill settled as KillVerdictOf says, and the turn is
        finished unless something threw. A claimant who answers with their own uuid
        is their own target. Only the claimant and the target can change. */
    method RunCase(choice: Reply<string>, defense: Reply<string>, counter: Reply<string>,
                   showing: Reply<CardId>, loss: Reply<CardId>) returns (o: Outcome)
      requires Valid()
      modifies this`targetPlayer, base`currentPlayer, base.gameState, base.gameState.deck
      modifies Only(base.gameState.GetCurrentTurnPlayer())`coins, Only(base.gameState.GetCurrentTurnPlayer())`cards
      modifies KillVictim(base.gameState, base.gameState.GetCurrentTurnPlayer(), choice)`cards
      ensures Valid()
      ensures base.currentPlayer == old(base.gameState.GetCurrentTurnPlayer())
      ensures base.currentPlayer == null ==> o == Fail(NoCurrentPlayer) && unchanged(base.gameState)
      ensures var gs, cur := base.gameState, base.currentPlayer;
        cur != null && old(cur.coins) < Fee ==>
        o == Fail(InsufficientFunds) && unchanged(gs) && ViewOf(gs, cur, null) == old(ViewOf(gs, cur, null))
      ensures var gs, cur := base.gameState, base.currentPlayer;
        cur != null && old(cur.coins) >= Fee ==>
        cur.coins == old(cur.coins) - Fee &&
        var r := old(KillTarget(gs, cur.uuid, choice));
        (r.Err? ==> o == Fail(r.error) && unchanged(gs) && cur.cards == old(cur.cards)) &&
        (r.Ok? ==>
          var target := r.value;
          targetPlayer == target &&
          var v := KillVerdictOf(defense, old(cur.cards), old(target.cards), counter, showing, loss);
          KillEffect(target == cur, v, old(SidesOf(gs, cur, target)).(coins := old(cur.coins) - Fee), SidesOf(gs, cur, target)) &&
          o == KillOutcome(target == cur, v, old(cur.cards)) &&
          Finished(gs.events) == Finished(old(gs.events)) + TurnsFinished(o))
    {
      base.currentPlayer := base.gameState.GetCurrentTurnPlayer();
      if base.currentPlayer == null {
        return Fail(NoCurrentPlayer);
      }
      o := PayAndAttempt(choice, defense, counter, showing, loss);
    }

    /** verifyCoins and payCoins, then the rest of runCase. */
    method PayAndAttempt(choice: Reply<string>, defense: Reply<string>, counter: Reply<string>,
                         showing: Reply<CardId>, loss: Reply<CardId>) returns (o: Outcome)
      requires Valid() && base.currentPlayer != null
      modifies this`targetPlayer, base.gameState, base.gameState.deck, base.currentPlayer`coins, base.currentPlayer`cards
      modifies KillVictim(base.gameState, base.currentPlayer, choice)`cards
      ensures Valid()
      ensures var gs, cur := base.gameState, base.currentPlayer;
        old(cur.coins) < Fee ==>
        o == Fail(InsufficientFunds) && unchanged(gs) && ViewOf(gs, cur, null) == old(ViewOf(gs, cur, null))
      ensures var gs, cur := base.gameState, base.currentPlayer;
        old(cur.coins) >= Fee ==>
        cur.coins == old(cur.coins) - Fee &&
        var r := old(KillTarget(gs, cur.uuid, choice));
        (r.Err? ==> o == Fail(r.error) && unchanged(gs) && cur.cards == old(cur.cards)) &&
        (r.Ok? ==>
          var target := r.value;
          targetPlayer == target &&
          var v := KillVerdictOf(defense, old(cur.cards), old(target.cards), counter, showing, loss);
          KillEffect(target == cur, v, old(SidesOf(gs, cur, target)).(coins := old(cur.coins) - Fee), SidesOf(gs, cur, target)) &&
          o == KillOutcome(target == cur, v, old(cur.cards)) &&
          Finished(gs.events) == Finished(old(gs.events)) + TurnsFinished(o))
    {
      var cur := base.currentPlayer;
      if cur.GetCoinsAmount() < Fee {
        return Fail(InsufficientFunds);
      }
      o := cur.RemoveCoins(Fee);
      o := Attempt(choice, defense, counter, showing, loss);
    }

    /** What runCase does once the fee is paid: the target, the defense, its
        consequences, and the end of the turn unless something threw. */
    method Attempt(choice: Reply<string>, defense: Reply<string>, counter: Reply<string>,
                   showing: Reply<CardId>, loss: Reply<CardId>) returns (o: Outcome)
      requires Valid() && base.currentPlayer != null
      modifies this`targetPlayer, base.gameState, base.gameState.deck, base.currentPlayer`cards
      modifies KillVictim(base.gameState, base.currentPlayer, choice)`cards
      ensures Valid() && base.currentPlayer.coins == old(base.currentPlayer.coins)
      ensures var gs, cur := base.gameState, base.currentPlayer;
        var r := old(KillTarget(gs, cur.uuid, choice));
        (r.Err? ==> o == Fail(r.error) && unchanged(gs) && cur.cards == old(cur.cards)) &&
        (r.Ok? ==>
          var target := r.value;
          targetPlayer == target &&
          var v := KillVerdictOf(defense, old(cur.cards), old(target.cards), counter, showing, loss);
          KillEffect(target == cur, v, old(SidesOf(gs, cur, target)), SidesOf(gs, cur, target)) &&
          o == KillOutcome(target == cur, v, old(cur.cards)) &&
          Finished(gs.events) == Finished(old(gs.events)) + TurnsFinished(o))
    {
      o := PromptChooseTarget(choice);
      if o.Fail? {
        return;
      }
      o := Settle(defense, counter, showing, loss);
    }

    /** promptChooseTarget: records the target KillTarget names; a throw changes
        nothing. */
    method PromptChooseTarget(choice: Reply<string>) returns (o: Outcome)
      requires Valid() && base.currentPlayer != null
      modifies this`targetPlayer
      ensures Valid()
      ensures var r := KillTarget(base.gameState, base.currentPlayer.uuid, choice);
        (r.Err? ==> o == Fail(r.error) && targetPlayer == old(targetPlayer)) &&
        (r.Ok? ==> o == Pass && targetPlayer == r.value)
    {
      var gs := base.gameState;
      var options := Opponents(gs.players, base.currentPlayer.uuid);
      if options == [] {
        return Fail(NoTarget);
      }
      var target := gs.GetPlayerByUUID(Prompt(options, Some(options[0]), choice));
      if target == null {
        return Fail(PlayerNotFound);
      }
      targetPlayer := target;
      o := Pass;
    }

    /** The defense, its consequences, and the end of the turn unless something threw. */
    method Settle(defense: Reply<string>, counter: Reply<string>, showing: Reply<CardId>, loss: Reply<CardId>)
      returns (o: Outcome)
      requires Valid() && base.currentPlayer != null && targetPlayer != null
      modifies base.gameState, base.gameState.deck, base.currentPlayer`cards, targetPlayer`cards
      ensures Valid()
      ensures var gs, cur, target := base.gameState, base.currentPlayer, targetPlayer;
        var v := KillVerdictOf(defense, old(cur.cards), old(target.cards), counter, showing, loss);
        KillEffect(target == cur, v, old(SidesOf(gs, cur, target)), SidesOf(gs, cur, target)) &&
        o == KillOutcome(target == cur, v, old(cur.cards)) &&
        Finished(gs.events) == Finished(old(gs.events)) + TurnsFinished(o)
    {
      o := Respond(defense, counter, showing, loss);
      if o.Pass? {
        ghost var settled := SidesOf(base.gameState, base.currentPlayer, targetPlayer);
        ghost var everyone := base.gameState.AllPlayers();
        base.FinishTurn();
        assert base.gameState.AllPlayers() == everyone;
        assert SidesOf(base.gameState, base.currentPlayer, targetPlayer) == settled;
      }
    }

    /** The dispatch on the target's answer: ACCEPT, BLOCK, or a challenge for
        anything else. */
    method Respond(defense: Reply<string>, counter: Reply<string>, showing: Reply<CardId>, loss: Reply<CardId>)
      returns (o: Outcome)
      requires Valid() && base.currentPlayer != null && targetPlayer != null
      modifies base.gameState, base.gameState.deck, base.currentPlayer`cards, targetPlayer`cards
      ensures Valid() && Finished(base.gameState.events) == Finished(old(base.gameState.events))
      ensures var gs, cur, target := base.gameState, base.currentPlayer, targetPlayer;
        var v := KillVerdictOf(defense, old(cur.cards), old(target.cards), counter, showing, loss);
        KillEffect(target == cur, v, old(SidesOf(gs, cur, target)), SidesOf(gs, cur, target)) &&
        o == KillOutcome(target == cur, v, old(cur.cards))
    {
      var d := Prompt(KillDefenses, Some(DefenseAccept), defense);
      if d == DefenseAccept {
        o := ApplyAssassination(loss);
      } else if d == DefenseBlock {
        o := HandleCondessaBlock(counter, showing, loss);
      } else {
        o := HandleClaimChallenge(showing);
      }
    }

    /** applyAssassination: the target gives up the card they choose. */
    method ApplyAssassination(loss: Reply<CardId>) returns (o: Outcome)
      requires Valid() && base.currentPlayer != null && targetPlayer != null
      modifies base.gameState, targetPlayer`cards
      ensures Valid() && Finished(base.gameState.events) == Finished(old(base.gameState.events))
      ensures var gs, cur, target := base.gameState, base.currentPlayer, targetPlayer;
        var lost := ChosenCard(old(target.cards), loss);
        var v := if lost.Err? then Broken(lost.error) else Killed(lost.value);
        KillEffect(target == cur, v, old(SidesOf(gs, cur, target)), SidesOf(gs, cur, target)) &&
        o == KillOutcome(target == cur, v, old(cur.cards))
    {
      var gs, cur, target := base.gameState, base.currentPlayer, targetPlayer;
      ghost var a := SidesOf(gs, cur, target);
      o := LoseCard(gs, target, loss);
      if o.Fail? {
        assert SidesOf(gs, cur, target) == a;
      } else {
        assert TargetDiscard(target == cur, a, SidesOf(gs, cur, target), ChosenCard(old(target.cards), loss).value);
      }
    }

    /** handleCondessaBlock: the block stands unless the claimant challenges it, and
        a challenge is settled as BlockVerdict says. */
    method HandleCondessaBlock(counter: Reply<string>, showing: Reply<CardId>, loss: Reply<CardId>)
      returns (o: Outcome)
      requires Valid() && base.currentPlayer != null && targetPlayer != null
      modifies base.gameState, base.gameState.deck, base.currentPlayer`cards, targetPlayer`cards
      ensures Valid() && Finished(base.gameState.events) == Finished(old(base.gameState.events))
      ensures var gs, cur, target := base.gameState, base.currentPlayer, targetPlayer;
        var v := BlockVerdict(old(cur.cards), old(target.cards), counter, showing, loss);
        KillEffect(target == cur, v, old(SidesOf(gs, cur, target)), SidesOf(gs, cur, target)) &&
        o == KillOutcome(target == cur, v, old(cur.cards))
    {
      if Prompt(BlockAnswers, Some(ChallengeAccept), counter) == ChallengeAccept {
        o := HandleBlockChallenge(showing, loss);
      } else {
        o := Pass;
      }
    }

    /** handleBlockChallenge: the target shows a card; a Condessa costs the claimant a
        card, anything else costs the target every card. */
    method HandleBlockChallenge(showing: Reply<CardId>, loss: Reply<CardId>) returns (o: Outcome)
      requires Valid() && base.currentPlayer != null && targetPlayer != null
      modifies base.gameState, base.gameState.deck, base.currentPlayer`cards, targetPlayer`cards
      ensures Valid() && Finished(base.gameState.events) == Finished(old(base.gameState.events))
      ensures var gs, cur, target := base.gameState, base.currentPlayer, targetPlayer;
        var v := BlockVerdict(old(cur.cards), old(target.cards), Answered(ChallengeAccept), showing, loss);
        KillEffect(target == cur, v, old(SidesOf(gs, cur, target)), SidesOf(gs, cur, target)) &&
        o == KillOutcome(target == cur, v, old(cur.cards))
    {
      var target := targetPlayer;
      ghost var v := BlockVerdict(base.currentPlayer.cards, target.cards, Answered(ChallengeAccept), showing, loss);
      var shownId := AskSingleCard(target.cards, showing);
      if shownId.Err? {
        assert v == Broken(NoOptions);
        return Fail(NoOptions);
      }
      var shown := target.GetCardByUUID(shownId.value);
      FindAgreesWithIndex(target.cards, shownId.value);
      if shown.None? {
        assert v == Broken(CardNotFound);
        return Fail(CardNotFound);
      }
      if shown.value.variant == Condessa {
        o := UpholdBlock(shownId.value, loss);
      } else {
        ghost var a := SidesOf(base.gameState, base.currentPlayer, target);
        ghost var i := IndexOfCard(target.cards, shownId.value);
        DiscardAllTargetPlayerCards();
        assert KillEffect(target == base.currentPlayer, BlockRefuted(i), a, SidesOf(base.gameState, base.currentPlayer, target));
        o := Pass;
      }
    }

    /** The Condessa was real: the claimant gives up the card they choose and the
        target swaps the Condessa through the deck. */
    method UpholdBlock(shownId: CardId, loss: Reply<CardId>) returns (o: Outcome)
      requires Valid() && base.currentPlayer != null && targetPlayer != null
      requires Holds(targetPlayer.cards, shownId)
      modifies base.gameState, base.gameState.deck, base.currentPlayer`cards, targetPlayer`cards
      ensures Valid() && Finished(base.gameState.events) == Finished(old(base.gameState.events))
      ensures var gs, cur, target := base.gameState, base.currentPlayer, targetPlayer;
        var lost := ChosenCard(old(cur.cards), loss);
        var v := if lost.Err? then Broken(lost.error) else BlockUpheld(IndexOfCard(old(target.cards), shownId), lost.value);
        KillEffect(target == cur, v, old(SidesOf(gs, cur, target)), SidesOf(gs, cur, target)) &&
        o == KillOutcome(target == cur, v, old(cur.cards))
    {
      var gs, cur, target := base.gameState, base.currentPlayer, targetPlayer;
      ghost var a := SidesOf(gs, cur, target);
      ghost var i := IndexOfCard(target.cards, shownId);
      o := LoseCard(gs, cur, loss);
      if o.Fail? {
        assert SidesOf(gs, cur, target) == a;
        return;
      }
      ghost var j := ChosenCard(a.hand, loss).value;
      ghost var mid := SidesOf(gs, cur, target);
      assert mid == a.(hand := RemoveAt(a.hand, j), known := a.known + [a.hand[j]]);
      o := RedrawTarget(shownId);
      UpheldBlockSteps(target == cur, shownId, a, mid, SidesOf(gs, cur, target), j, o);
    }

    /** placeCardIntoDeckAndReceiveAnother on the target, as a change of view. */
    method RedrawTarget(shownId: CardId) returns (o: Outcome)
      requires Valid() && base.currentPlayer != null && targetPlayer != null
      modifies base.gameState.deck, targetPlayer`cards
      ensures Valid()
      ensures var gs, cur, target := base.gameState, base.currentPlayer, targetPlayer;
        TargetRedrawn(target == cur, shownId, old(SidesOf(gs, cur, target)), SidesOf(gs, cur, target), o)
    {
      o := Redraw(base.gameState, targetPlayer, shownId);
    }

    /** discardAllTargetPlayerCards: every card the target held when it started goes,
        in hand order, to the discard log; the last one eliminates the target. */
    method DiscardAllTargetPlayerCards()
      requires Valid() && base.currentPlayer != null && targetPlayer != null
      modifies base.gameState`knownCards, base.gameState`players, base.gameState`eliminatedPlayers
      modifies base.gameState`currentTurnPlayerIndex, base.gameState`events, targetPlayer`cards
      ensures Valid() && Finished(base.gameState.events) == Finished(old(base.gameState.events))
      ensures targetPlayer.cards == [] && base.gameState.knownCards == old(base.gameState.knownCards) + old(targetPlayer.cards)
    {
      var gs, target := base.gameState, targetPlayer;
      var cards := target.cards;
      var k := 0;
      while k < |cards|
        invariant 0 <= k <= |cards|
        invariant target.cards == cards[k..]
        invariant gs.knownCards == old(gs.knownCards) + cards[..k]
        invariant Valid() && Finished(gs.events) == Finished(old(gs.events))
      {
        DiscardFirst(cards, k);
        k := k + 1;
      }
    }

    /** One step of discardAllTargetPlayerCards: card k of the cloned hand is the
        first one the target still holds, and it goes to the log. */
    method DiscardFirst(cards: seq<Card>, k: nat)
      requires Valid() && base.currentPlayer != null && targetPlayer != null
      requires k < |cards| && targetPlayer.cards == cards[k..]
      modifies base.gameState`knownCards, base.gameState`players, base.gameState`eliminatedPlayers
      modifies base.gameState`currentTurnPlayerIndex, base.gameState`events, targetPlayer`cards
      ensures Valid() && Finished(base.gameState.events) == Finished(old(base.gameState.events))
      ensures targetPlayer.cards == cards[k + 1..]
      ensures base.gameState.knownCards == old(base.gameState.knownCards) + [cards[k]]
    {
      var gs, target := base.gameState, targetPlayer;
      assert IndexOfCard(cards[k..], cards[k].uuid) == 0;
      var o := Discard(gs, target, cards[k].uuid);
      assert RemoveAt(cards[k..], 0) == cards[k + 1..];
    }

    /** handleClaimChallenge: the claim settled as ClaimVerdict says. */
    method HandleClaimChallenge(showing: Reply<CardId>) returns (o: Outcome)
      requires Valid() && base.currentPlayer != null && targetPlayer != null
      modifies base.gameState, base.gameState.deck, base.currentPlayer`cards, targetPlayer`cards
      ensures Valid() && Finished(base.gameState.events) == Finished(old(base.gameState.events))
      ensures var gs, cur, target := base.gameState, base.currentPlayer, targetPlayer;
        var v := ClaimVerdict(old(cur.cards), showing);
        KillEffect(target == cur, v, old(SidesOf(gs, cur, target)), SidesOf(gs, cur, target)) &&
        o == KillOutcome(target == cur, v, old(cur.cards))
    {
      var cur := base.currentPlayer;
      ghost var v := ClaimVerdict(cur.cards, showing);
      var shownId := AskSingleCard(cur.cards, showing);
      if shownId.Err? {
        assert v == Broken(NoOptions);
        return Fail(NoOptions);
      }
      var shown := cur.GetCardByUUID(shownId.value);
      FindAgreesWithIndex(cur.cards, shownId.value);
      if shown.None? {
        assert v == Broken(CardNotFound);
        return Fail(CardNotFound);
      }
      if shown.value.variant == Assassin {
        o := UpholdClaim(shownId.value);
      } else {
        RefuteClaim(shownId.value);
        o := Pass;
      }
    }

    /** The claim was a bluff: the claimant discards the card they showed. */
    method RefuteClaim(shownId: CardId)
      requires Valid() && base.currentPlayer != null && targetPlayer != null
      requires Holds(base.currentPlayer.cards, shownId)
      modifies base.gameState, base.currentPlayer`cards
      ensures Valid() && Finished(base.gameState.events) == Finished(old(base.gameState.events))
      ensures var gs, cur, target := base.gameState, base.currentPlayer, targetPlayer;
        KillEffect(target == cur, ClaimRefuted(IndexOfCard(old(cur.cards), shownId)),
                   old(SidesOf(gs, cur, target)), SidesOf(gs, cur, target))
    {
      var gs, cur, target := base.gameState, base.currentPlayer, targetPlayer;
      ghost var a := SidesOf(gs, cur, target);
      var o := Discard(gs, cur, shownId);
      assert OwnDiscard(a, SidesOf(gs, cur, target), IndexOfCard(a.hand, shownId));
    }

    /** The claim was real: the target loses every card and the claimant swaps the
        Assassin through the deck. A claimant who is their own target has just lost
        that Assassin with the rest, so the swap throws. */
    method UpholdClaim(shownId: CardId) returns (o: Outcome)
      requires Valid() && base.currentPlayer != null && targetPlayer != null
      requires Holds(base.currentPlayer.cards, shownId)
      modifies base.gameState, base.gameState.deck, base.currentPlayer`cards, targetPlayer`cards
      ensures Valid() && Finished(base.gameState.events) == Finished(old(base.gameState.events))
      ensures var gs, cur, target := base.gameState, base.currentPlayer, targetPlayer;
        var v := ClaimUpheld(IndexOfCard(old(cur.cards), shownId));
        KillEffect(target == cur, v, old(SidesOf(gs, cur, target)), SidesOf(gs, cur, target)) &&
        o == KillOutcome(target == cur, v, old(cur.cards))
    {
      var gs, cur, target := base.gameState, base.currentPlayer, targetPlayer;
      ghost var a := SidesOf(gs, cur, target);
      ghost var hand, i := cur.cards, IndexOfCard(cur.cards, shownId);
      DiscardAllTargetPlayerCards();
      ghost var mid := SidesOf(gs, cur, target);
      assert TargetDiscardsAll(target == cur, a, mid);
      assert target == cur ==> IndexOfCard(cur.cards, shownId) == -1;
      assert target != cur ==> cur.cards == a.hand;
      o := SwapShown(shownId);
    }

    /** placeCardIntoDeckAndReceiveAnother on the claimant, as a change of view: the
        claimant's card with that id is swapped through the deck, or nothing happens
        and the call throws when they no longer hold it. */
    method SwapShown(shownId: CardId) returns (o: Outcome)
      requires Valid() && base.currentPlayer != null && targetPlayer != null
      modifies base.gameState.deck, base.currentPlayer`cards
      ensures Valid()
      ensures var gs, cur, target := base.gameState, base.currentPlayer, targetPlayer;
        var a, b, i := old(SidesOf(gs, cur, target)), SidesOf(gs, cur, target), IndexOfCard(old(cur.cards), shownId);
        (i == -1 ==> o == Fail(CardNotFound) && b == a) &&
        (i != -1 ==> o == Pass && b == a.(hand := b.hand, deck := b.deck) && Redrawn(a.hand, i, b.hand, a.deck, b.deck))
    {
      o := Redraw(base.gameState, base.currentPlayer, shownId);
    }
  }
}
