/** The Captain's steal (coup-backend/src/cases/CaptainCase.ts): two coins taken from
    a chosen target, who may accept, challenge the Captain claim, or block claiming a
    Captain or an Ambassador of their own. The replies are parameters: `choice` picks
    the target, `defense` is the target's answer, `counter` the claimant's answer to a
    block, `showing` the card whoever is challenged shows and `loss` the card the
    losing side of that challenge gives up. */
module CaptainCases {
  import opened Errors
  import opened Cards
  import opened Players
  import opened Game
  import opened Prompts
  import opened BaseCases

  /** What a robbery moves, and the balance a target needs to be offered. */
  const Loot: int := 2

  /** The answers the target is offered, the first being the default. */
  const DefenseOptions: seq<string> := [DefenseAccept, ChallengeAccept, BlockAsCaptain, BlockAsEmbassador]

  /** canExecute: some active player (the claimant included) holds at least two
      coins, and then the default rule. The default rule is not consulted when nobody
      has two coins, so no missing turn player can make it throw then. */
  function CanSteal(gs: GameState): (r: Result<bool>)
    reads gs`players, gs`currentTurnPlayerIndex, gs.players
    ensures !(exists p :: p in gs.players && p.coins >= Loot) ==> r == Ok(false)
    ensures (exists p :: p in gs.players && p.coins >= Loot) ==> r == DefaultRule(gs)
    ensures r == Ok(true) <==>
      (exists p :: p in gs.players && p.coins >= Loot) && gs.GetCurrentTurnPlayer() != null &&
      gs.GetCurrentTurnPlayer().coins < MaxCoinsToAct
  {
    if exists p :: p in gs.players && p.coins >= Loot then DefaultRule(gs) else Ok(false)
  }

  /** promptChooseTarget's options: the uuids, in seat order, of the players other
      than the claimant that hold at least two coins. */
  function StealOptions(ps: seq<Player>, curId: string): (r: seq<string>)
    reads ps
    ensures |r| <= |ps|
    ensures forall id :: id in r <==> id != curId && exists p :: p in ps && p.uuid == id && p.coins >= Loot
  {
    if ps == [] then []
    else (if ps[0].uuid != curId && ps[0].coins >= Loot then [ps[0].uuid] else []) + StealOptions(ps[1..], curId)
  }

  /** The branch stealTwoCoins ends in once the target is known. */
  datatype StealVerdict =
    | Robbed                              // the target accepted: two coins change hands
    | ClaimUpheld(shown: nat, lost: nat, paid: bool)
        // a Captain was shown: the target loses card `lost`, the claimant redraws
        // card `shown`, then the robbery, which fails (paid false) on a short balance
    | ClaimRefuted(shown: nat)            // the claimant showed card `shown`, not a Captain, and discards it
    | BlockConceded                       // the claimant let the block stand
    | BlockUpheld(shown: nat, lost: nat)  // the target showed the claimed card `shown`; the claimant loses card `lost`
    | BlockRefuted(shown: nat)            // the target showed card `shown`, not the claimed one, and discards it
    | Ignored                             // an answer that is none of the four: nothing happens
    | Broken(error: Error)                // the handler throws before changing anything

  /** The card a block claims: BLOCK_AS_CAPTAIN claims a Captain, anything else that
      reaches handleTargetDefense an Ambassador. */
  function Claimed(defense: string): (v: Variant)
    ensures v == Captain <==> defense == BlockAsCaptain
    ensures v == Ambassador <==> defense != BlockAsCaptain
  {
    if defense == BlockAsCaptain then Captain else Ambassador
  }

  /** The decision tree of stealTwoCoins after the target was found, given the
      claimant's hand, the target's hand and balance and the replies. */
  function StealVerdictOf(defense: Reply<string>, hand: seq<Card>, targetHand: seq<Card>, targetCoins: int,
                          counter: Reply<string>, showing: Reply<CardId>, loss: Reply<CardId>): (v: StealVerdict)
    ensures var d := Prompt(DefenseOptions, Some(DefenseAccept), defense);
      (v.Robbed? <==> d == DefenseAccept && targetCoins >= Loot) &&
      (d == DefenseAccept && targetCoins < Loot ==> v == Broken(InsufficientFunds)) &&
      ((v.ClaimUpheld? || v.ClaimRefuted?) ==> d == ChallengeAccept) &&
      ((v.BlockConceded? || v.BlockUpheld? || v.BlockRefuted?) ==> d == BlockAsCaptain || d == BlockAsEmbassador) &&
      (v.Ignored? <==> d !in DefenseOptions)
    ensures v.ClaimUpheld? ==>
      v.paid == (targetCoins >= Loot) && ChosenCard(hand, showing) == Ok(v.shown) &&
      hand[v.shown].variant == Captain && ChosenCard(targetHand, loss) == Ok(v.lost)
    ensures v.ClaimRefuted? ==> ChosenCard(hand, showing) == Ok(v.shown) && hand[v.shown].variant != Captain
    ensures v.BlockConceded? <==>
      Prompt(DefenseOptions, Some(DefenseAccept), defense) in {BlockAsCaptain, BlockAsEmbassador} &&
      ChallengePlayer(counter) == ChallengePass
    ensures v.BlockUpheld? ==>
      var d := Prompt(DefenseOptions, Some(DefenseAccept), defense);
      ChosenCard(targetHand, showing) == Ok(v.shown) && targetHand[v.shown].variant == Claimed(d) &&
      ChosenCard(hand, loss) == Ok(v.lost)
    ensures v.BlockRefuted? ==>
      var d := Prompt(DefenseOptions, Some(DefenseAccept), defense);
      ChosenCard(targetHand, showing) == Ok(v.shown) && targetHand[v.shown].variant != Claimed(d)
  {
    var d := Prompt(DefenseOptions, Some(DefenseAccept), defense);
    if d == ChallengeAccept then ClaimVerdict(hand, targetHand, targetCoins, showing, loss)
    else if d == DefenseAccept then (if targetCoins >= Loot then Robbed else Broken(InsufficientFunds))
    else if d == BlockAsEmbassador || d == BlockAsCaptain then BlockVerdict(Claimed(d), hand, targetHand, counter, showing, loss)
    else Ignored
  }

  /** handleClaimChallenge: the claimant shows a card; a Captain costs the target a
      card and is followed by the robbery, anything else is discarded. */
  function ClaimVerdict(hand: seq<Card>, targetHand: seq<Card>, targetCoins: int,
                        showing: Reply<CardId>, loss: Reply<CardId>): (v: StealVerdict)
    ensures v.ClaimUpheld? || v.ClaimRefuted? || v.Broken?
    ensures v.Broken? <==>
      ChosenCard(hand, showing).Err? ||
      (hand[ChosenCard(hand, showing).value].variant == Captain && ChosenCard(targetHand, loss).Err?)
  {
    var shown := ChosenCard(hand, showing);
    if shown.Err? then Broken(shown.error)
    else if hand[shown.value].variant != Captain then ClaimRefuted(shown.value)
    else
      var lost := ChosenCard(targetHand, loss);
      if lost.Err? then Broken(lost.error) else ClaimUpheld(shown.value, lost.value, targetCoins >= Loot)
  }

  /** handleTargetDefense: the claimant may let the block stand; otherwise the target
      shows a card, and the claimed variant costs the claimant a card while any other
      is discarded. `emitChallengeToPlayer` is defined nowhere; it is taken to resolve
      like challengePlayer, with PASS on the timer. */
  function BlockVerdict(claim: Variant, hand: seq<Card>, targetHand: seq<Card>,
                        counter: Reply<string>, showing: Reply<CardId>, loss: Reply<CardId>): (v: StealVerdict)
    ensures v.BlockConceded? || v.BlockUpheld? || v.BlockRefuted? || v.Broken?
    ensures v.BlockConceded? <==> ChallengePlayer(counter) == ChallengePass
  {
    if ChallengePlayer(counter) == ChallengePass then BlockConceded
    else
      var shown := ChosenCard(targetHand, showing);
      if shown.Err? then Broken(shown.error)
      else if targetHand[shown.value].variant != claim then BlockRefuted(shown.value)
      else
        var lost := ChosenCard(hand, loss);
        if lost.Err? then Broken(lost.error) else BlockUpheld(shown.value, lost.value)
  }

  /** The outcome of stealTwoCoins for a verdict: a throw, or the turn finished.
      When the claimant is their own target (`alone`, `hand` their hand), the card
      to be swapped through the deck may have gone with the card they lost, and
      placeCardIntoDeckAndReceiveAnother then throws. */
  function StealOutcome(alone: bool, v: StealVerdict, hand: seq<Card>): (o: Outcome)
    ensures v.Broken? ==> o == Fail(v.error)
    ensures !alone ==> (o.Fail? <==> v.Broken? || (v.ClaimUpheld? && !v.paid))
    ensures alone ==>
      (o.Fail? <==>
         v.Broken? || (v.ClaimUpheld? && (!v.paid || Stranded(hand, v.shown, v.lost))) ||
         (v.BlockUpheld? && Stranded(hand, v.shown, v.lost)))
    ensures o == Fail(CardNotFound) && !v.Broken? ==> alone
    ensures o.Fail? && !v.Broken? && o.error != CardNotFound ==> o.error == InsufficientFunds && v.ClaimUpheld? && !v.paid
  {
    if v.Broken? then Fail(v.error)
    else if alone && (v.ClaimUpheld? || v.BlockUpheld?) && Stranded(hand, v.shown, v.lost) then Fail(CardNotFound)
    else if v.ClaimUpheld? && !v.paid then Fail(InsufficientFunds)
    else Pass
  }

  /** The two coins change hands. */
  ghost predicate Robbery(a: View, b: View) {
    b.coins == a.coins + Loot && b.otherCoins == a.otherCoins - Loot
  }

  /** What each verdict does to the claimant (hand, coins), the target (other hand,
      other coins), the discard log and the deck, the target being the claimant when
      `alone`: then the two coins leave and come back to the same purse. */
  ghost predicate StealEffect(alone: bool, v: StealVerdict, a: View, b: View) {
    match v
    case Broken(_) => b == a
    case BlockConceded => b == a
    case Ignored => b == a
    case Robbed => if alone then b == a else Robbery(a, b) && b == a.(coins := b.coins, otherCoins := b.otherCoins)
    case ClaimUpheld(i, j, paid) =>
      if alone then LoseThenRedraw(a, b, i, j) && b.coins == a.coins && b.otherCoins == a.otherCoins
      else
      i < |a.hand| && j < |a.otherHand| &&
      b.otherHand == RemoveAt(a.otherHand, j) && b.known == a.known + [a.otherHand[j]] &&
      Redrawn(a.hand, i, b.hand, a.deck, b.deck) &&
      (if paid then Robbery(a, b) else b.coins == a.coins && b.otherCoins == a.otherCoins)
    case ClaimRefuted(i) =>
      OwnDiscard(a, b, i) && b.otherHand == a.otherHand && b.deck == a.deck &&
      b.coins == a.coins && b.otherCoins == a.otherCoins
    case BlockUpheld(i, j) => BlockUpheldEffect(alone, a, b, i, j)
    case BlockRefuted(i) =>
      TargetDiscard(alone, a, b, i) && b.coins == a.coins && b.otherCoins == a.otherCoins
  }

  /** Coins only ever move between the claimant and the target, two at a time, from
      the target to the claimant, and only after an accepted or a proven claim: a
      block, whatever comes of it, robs nobody. */
  lemma StealMovesCoins(alone: bool, v: StealVerdict, a: View, b: View)
    requires StealEffect(alone, v, a, b)
    ensures b.coins + b.otherCoins == a.coins + a.otherCoins
    ensures b.coins == a.coins || Robbery(a, b)
    ensures alone ==> b.coins == a.coins && b.otherCoins == a.otherCoins
    ensures !alone ==> (Robbery(a, b) <==> v.Robbed? || (v.ClaimUpheld? && v.paid))
  {
  }

  /** The steal adds and removes no card: what a hand gives up goes to the discard
      log or the deck, and a redraw only trades with the deck. */
  lemma StealKeepsCards(alone: bool, v: StealVerdict, a: View, b: View)
    requires StealEffect(alone, v, a, b)
    ensures Stock(b) == Stock(a)
  {
    match v
    case ClaimUpheld(i, j, paid) =>
      if alone {
        LoseThenRedrawKeepsCards(a, b, i, j);
      } else {
        var mid := a.(otherHand := b.otherHand, known := b.known);
        OtherDiscardKeepsCards(a, mid, j);
        OwnRedrawKeepsCards(mid, b, i);
      }
    case ClaimRefuted(i) =>
      OwnDiscardKeepsCards(a, b, i);
    case BlockUpheld(i, j) =>
      if alone {
        LoseThenRedrawKeepsCards(a, b, i, j);
      } else {
        var mid := a.(hand := b.hand, known := b.known);
        OwnDiscardKeepsCards(a, mid, j);
        RedrawKeepsCards(mid, b, i);
      }
    case BlockRefuted(i) =>
      TargetDiscardKeepsCards(alone, a, b, i);
    case _ =>
  }

  /** handleClaimChallenge's upheld branch in two steps: the target's loss takes `a`
      to `mid`, then the swap and the robbery take `mid` to `b` as SwapAndRob says. */
  lemma UpheldClaimSteps(alone: bool, shownId: CardId, a: View, mid: View, b: View, j: nat, paid: bool, o: Outcome)
    requires IndexOfCard(a.hand, shownId) != -1
    requires alone ==> j < |a.hand| && mid == a.(hand := RemoveAt(a.hand, j), known := a.known + [a.hand[j]])
    requires !alone ==> j < |a.otherHand| && mid == a.(otherHand := RemoveAt(a.otherHand, j), known := a.known + [a.otherHand[j]])
    requires var k := IndexOfCard(mid.hand, shownId);
      (k == -1 ==> o == Fail(CardNotFound) && b == mid) &&
      (k != -1 ==>
        Redrawn(mid.hand, k, b.hand, mid.deck, b.deck) && b.otherHand == mid.otherHand && b.known == mid.known &&
        (if paid && !alone then Robbery(mid, b) else b.coins == mid.coins && b.otherCoins == mid.otherCoins) &&
        o == (if paid then Pass else Fail(InsufficientFunds)))
    ensures var v := ClaimUpheld(IndexOfCard(a.hand, shownId), j, paid);
      StealEffect(alone, v, a, b) && o == StealOutcome(alone, v, a.hand)
  {
  }

  /** handleTargetDefense's upheld branch in two steps: the claimant's loss takes
      `a` to `mid`, then the target's redraw takes `mid` to `b`. */
  lemma UpheldBlockSteps(alone: bool, shownId: CardId, a: View, mid: View, b: View, j: nat, o: Outcome)
    requires IndexOfCard(if alone then a.hand else a.otherHand, shownId) != -1
    requires j < |a.hand| && mid == a.(hand := RemoveAt(a.hand, j), known := a.known + [a.hand[j]])
    requires TargetRedrawn(alone, shownId, mid, b, o)
    ensures var v := BlockUpheld(IndexOfCard(if alone then a.hand else a.otherHand, shownId), j);
      StealEffect(alone, v, a, b) && o == StealOutcome(alone, v, a.hand)
  {
    LoseThenTargetRedraw(alone, shownId, a, mid, b, j, o);
  }

  /** A claimant who robs themself gains nothing: their purse ends as it began, and
      every challenge, whoever wins it, costs their own hand exactly one card. */
  lemma SelfStealCostsClaimant(v: StealVerdict, a: View, b: View)
    requires StealEffect(true, v, a, b)
    ensures b.coins == a.coins && b.otherHand == a.otherHand && |b.hand| <= |a.hand|
    ensures |b.hand| < |a.hand| <==> v.ClaimUpheld? || v.ClaimRefuted? || v.BlockUpheld? || v.BlockRefuted?
    ensures |b.hand| < |a.hand| ==> |b.hand| == |a.hand| - 1
  {
    match v
    case ClaimUpheld(i, j, _) =>
      LoseThenRedrawKeepsCards(a, b, i, j);
    case BlockUpheld(i, j) =>
      LoseThenRedrawKeepsCards(a, b, i, j);
    case BlockRefuted(i) =>
      TargetDiscardKeepsCards(true, a, b, i);
    case _ =>
  }

  /** promptChooseTarget's result: no eligible target throws, and so does a chosen id
      that names no active player; on the timer the first eligible target is taken.
      A claimant who names a player directly is not held to the eligible ones. */
  function StealTarget(gs: GameState, curId: string, choice: Reply<string>): (r: Result<Player>)
    reads gs`players, gs.players
    ensures StealOptions(gs.players, curId) == [] <==> r == Err(NoTarget)
    ensures r.Err? ==> r.error in {NoTarget, PlayerNotFound}
    ensures r.Ok? ==> r.value in gs.players
    ensures r.Ok? && choice.Answered? ==> r.value.uuid == choice.value
    ensures r.Ok? && choice.TimedOut? ==> r.value.uuid != curId
    ensures r == Err(PlayerNotFound) ==> choice.Answered? && forall q :: q in gs.players ==> q.uuid != choice.value
  {
    var options := StealOptions(gs.players, curId);
    if options == [] then Err(NoTarget)
    else
      assert options[0] in options;
      var p := gs.GetPlayerByUUID(Prompt(options, Some(options[0]), choice));
      if p == null then Err(PlayerNotFound) else Ok(p)
  }

  /** The player a Steal by `cur` robs, as a set: empty when there is no claimant or
      no target is found. Whoever is not in it keeps their hand and balance. */
  function StealVictim(gs: GameState, cur: Player?, choice: Reply<string>): (s: set<Player>)
    reads gs`players, gs.players
    ensures cur == null || StealTarget(gs, cur.uuid, choice).Err? <==> s == {}
  {
    if cur == null then {} else
    var r := StealTarget(gs, cur.uuid, choice);
    if r.Ok? then {r.value} else {}
  }

  class CaptainCase {
    const base: BaseCase
    /** The player being robbed, once promptChooseTarget has found them. */
    var targetPlayer: Player?

    ghost predicate Valid()
      reads this`targetPlayer, base`currentPlayer, base.gameState`players, base.gameState`eliminatedPlayers
    {
      base.Valid() && (targetPlayer != null ==> targetPlayer in base.gameState.AllPlayers())
    }

    /** CaptainCase declares no constructor of its own: it takes BaseCase's. */
    constructor (caseName: string, gameState: GameState)
      requires gameState.Valid()
      ensures fresh(base) && Valid() && targetPlayer == null
      ensures base.caseName == caseName && base.gameState == gameState
      ensures base.currentPlayer == gameState.GetCurrentTurnPlayer()
    {
      base := new BaseCase(caseName, gameState);
      targetPlayer := null;
    }

    /** canExecute, on this handler's game. */
    function CanExecute(): (r: Result<bool>)
      reads base.gameState`players, base.gameState`currentTurnPlayerIndex, base.gameState.players
      ensures r == CanSteal(base.gameState)
    {
      CanSteal(base.gameState)
    }

    /** promptChooseTarget: records the target StealTarget names; a throw changes
        nothing. */
    method PromptChooseTarget(choice: Reply<string>) returns (o: Outcome)
      requires Valid() && base.currentPlayer != null
      modifies this`targetPlayer
      ensures Valid()
      ensures var r := StealTarget(base.gameState, base.currentPlayer.uuid, choice);
        (r.Err? ==> o == Fail(r.error) && targetPlayer == old(targetPlayer)) &&
        (r.Ok? ==> o == Pass && targetPlayer == r.value)
    {
      var gs := base.gameState;
      var options := StealOptions(gs.players, base.currentPlayer.uuid);
      if options == [] {
        return Fail(NoTarget);
      }
      var target := gs.GetPlayerByUUID(Prompt(options, Some(options[0]), choice));
      if target == null {
        return Fail(PlayerNotFound);
      }
      targetPlayer := target;
      o := Pass;
    }

    /** stealTwoCoins, with the player the handler was built for: choose a target,
        ask for the defense, settle it as StealVerdictOf says, and finish the turn
        unless something threw. A claimant who answers with their own uuid is their
        own target. Only the claimant and the target can change. */
    method StealTwoCoins(choice: Reply<string>, defense: Reply<string>, counter: Reply<string>,
                         showing: Reply<CardId>, loss: Reply<CardId>) returns (o: Outcome)
      requires Valid()
      modifies this`targetPlayer, base.gameState, base.gameState.deck
      modifies Only(base.currentPlayer)`coins, Only(base.currentPlayer)`cards
      modifies StealVictim(base.gameState, base.currentPlayer, choice)`coins, StealVictim(base.gameState, base.currentPlayer, choice)`cards
      ensures Valid()
      ensures base.currentPlayer == null ==> o == Fail(NoCurrentPlayer) && unchanged(base.gameState)
      ensures var gs, cur := base.gameState, base.currentPlayer;
        cur != null ==>
        var r := old(StealTarget(gs, cur.uuid, choice));
        (r.Err? ==> o == Fail(r.error) && unchanged(gs) && cur.coins == old(cur.coins) && cur.cards == old(cur.cards)) &&
        (r.Ok? ==>
          var target := r.value;
          targetPlayer == target &&
          var v := StealVerdictOf(defense, old(cur.cards), old(target.cards), old(target.coins), counter, showing, loss);
          StealEffect(target == cur, v, old(SidesOf(gs, cur, target)), SidesOf(gs, cur, target)) &&
          o == StealOutcome(target == cur, v, old(cur.cards)) &&
          Finished(gs.events) == Finished(old(gs.events)) + TurnsFinished(o))
    {
      var cur := base.currentPlayer;
      if cur == null {
        return Fail(NoCurrentPlayer);
      }
      o := PromptChooseTarget(choice);
      if o.Fail? {
        return;
      }
      o := Settle(defense, counter, showing, loss);
    }

    /** The rest of stealTwoCoins once the target is known: the defense, its
        consequences, and the end of the turn unless something threw. */
    method Settle(defense: Reply<string>, counter: Reply<string>, showing: Reply<CardId>, loss: Reply<CardId>)
      returns (o: Outcome)
      requires Valid() && base.currentPlayer != null && targetPlayer != null
      modifies base.gameState, base.gameState.deck, base.currentPlayer`coins, base.currentPlayer`cards
      modifies targetPlayer`coins, targetPlayer`cards
      ensures Valid()
      ensures var gs, cur, target := base.gameState, base.currentPlayer, targetPlayer;
        var v := StealVerdictOf(defense, old(cur.cards), old(target.cards), old(target.coins), counter, showing, loss);
        StealEffect(target == cur, v, old(SidesOf(gs, cur, target)), SidesOf(gs, cur, target)) &&
        o == StealOutcome(target == cur, v, old(cur.cards)) &&
        Finished(gs.events) == Finished(old(gs.events)) + TurnsFinished(o)
    {
      o := Respond(defense, counter, showing, loss);
      if o.Pass? {
        ghost var settled := SidesOf(base.gameState, base.currentPlayer, targetPlayer);
        ghost var everyone := base.gameState.AllPlayers();
        base.FinishTurn();
        assert base.gameState.AllPlayers() == everyone;
        assert SidesOf(base.gameState, base.currentPlayer, targetPlayer) == settled;
      }
    }

    /** The dispatch on the target's answer: a challenge, the robbery, a block, or
        nothing for an answer that is none of these. */
    method Respond(defense: Reply<string>, counter: Reply<string>, showing: Reply<CardId>, loss: Reply<CardId>)
      returns (o: Outcome)
      requires Valid() && base.currentPlayer != null && targetPlayer != null
      modifies base.gameState, base.gameState.deck, base.currentPlayer`coins, base.currentPlayer`cards
      modifies targetPlayer`coins, targetPlayer`cards
      ensures Valid() && Finished(base.gameState.events) == Finished(old(base.gameState.events))
      ensures var gs, cur, target := base.gameState, base.currentPlayer, targetPlayer;
        var v := StealVerdictOf(defense, old(cur.cards), old(target.cards), old(target.coins), counter, showing, loss);
        StealEffect(target == cur, v, old(SidesOf(gs, cur, target)), SidesOf(gs, cur, target)) &&
        o == StealOutcome(target == cur, v, old(cur.cards))
    {
      var d := Prompt(DefenseOptions, Some(DefenseAccept), defense);
      if d == ChallengeAccept {
        o := HandleClaimChallenge(showing, loss);
      } else if d == DefenseAccept {
        o := DoRobbery();
      } else if d == BlockAsEmbassador || d == BlockAsCaptain {
        o := HandleTargetDefense(Claimed(d), counter, showing, loss);
      } else {
        o := Pass;
      }
    }

    /** doRobbery: the target pays two coins, which throws on a short balance, and
        the claimant receives them; a claimant robbing themself gets back what they
        paid. */
    method DoRobbery() returns (o: Outcome)
      requires base.currentPlayer != null && targetPlayer != null
      modifies base.currentPlayer`coins, targetPlayer`coins
      ensures old(targetPlayer.coins) < Loot ==>
        o == Fail(InsufficientFunds) && targetPlayer.coins == old(targetPlayer.coins) &&
        base.currentPlayer.coins == old(base.currentPlayer.coins)
      ensures old(targetPlayer.coins) >= Loot && targetPlayer != base.currentPlayer ==>
        o == Pass && targetPlayer.coins == old(targetPlayer.coins) - Loot &&
        base.currentPlayer.coins == old(base.currentPlayer.coins) + Loot
      ensures old(targetPlayer.coins) >= Loot && targetPlayer == base.currentPlayer ==>
        o == Pass && base.currentPlayer.coins == old(base.currentPlayer.coins)
    {
      o := targetPlayer.RemoveCoins(Loot);
      if o.Pass? {
        base.currentPlayer.AddCoins(Loot);
      }
    }

    /** handleTargetDefense: the block claiming `claim`, settled as BlockVerdict says
        (`emitChallengeToPlayer` taken to resolve like challengePlayer). */
    method HandleTargetDefense(claim: Variant, counter: Reply<string>, showing: Reply<CardId>, loss: Reply<CardId>)
      returns (o: Outcome)
      requires Valid() && base.currentPlayer != null && targetPlayer != null
      modifies base.gameState, base.gameState.deck, base.currentPlayer`cards, targetPlayer`cards
      ensures Valid() && Finished(base.gameState.events) == Finished(old(base.gameState.events))
      ensures var gs, cur, target := base.gameState, base.currentPlayer, targetPlayer;
        var v := BlockVerdict(claim, old(cur.cards), old(target.cards), counter, showing, loss);
        StealEffect(target == cur, v, old(SidesOf(gs, cur, target)), SidesOf(gs, cur, target)) &&
        o == StealOutcome(target == cur, v, old(cur.cards))
    {
      ghost var v := BlockVerdict(claim, base.currentPlayer.cards, targetPlayer.cards, counter, showing, loss);
      if ChallengePlayer(counter) == ChallengePass {
        assert v == BlockConceded;
        return Pass;
      }
      var target := targetPlayer;
      var shownId := AskSingleCard(target.cards, showing);
      if shownId.Err? {
        assert v == Broken(NoOptions);
        return Fail(NoOptions);
      }
      var shown := target.GetCardByUUID(shownId.value);
      FindAgreesWithIndex(target.cards, shownId.value);
      if shown.None? {
        assert v == Broken(CardNotFound);
        return Fail(CardNotFound);
      }
      if shown.value.variant == claim {
        o := UpholdBlock(shownId.value, loss);
      } else {
        o := RefuteBlock(shownId.value);
      }
    }

    /** The block was a bluff: the target discards the card they showed. */
    method RefuteBlock(shownId: CardId) returns (o: Outcome)
      requires Valid() && base.currentPlayer != null && targetPlayer != null
      requires Holds(targetPlayer.cards, shownId)
      modifies base.gameState, targetPlayer`cards
      ensures Valid() && Finished(base.gameState.events) == Finished(old(base.gameState.events))
      ensures var gs, cur, target := base.gameState, base.currentPlayer, targetPlayer;
        o == Pass &&
        StealEffect(target == cur, BlockRefuted(IndexOfCard(old(target.cards), shownId)), old(SidesOf(gs, cur, target)), SidesOf(gs, cur, target))
    {
      var gs, cur, target := base.gameState, base.currentPlayer, targetPlayer;
      ghost var a := SidesOf(gs, cur, target);
      ghost var i := IndexOfCard(target.cards, shownId);
      o := Discard(gs, target, shownId);
      assert TargetDiscard(target == cur, a, SidesOf(gs, cur, target), i);
    }

    /** The block was real: the claimant gives up the card they choose and the
        target swaps the shown card through the deck. */
    method UpholdBlock(shownId: CardId, loss: Reply<CardId>) returns (o: Outcome)
      requires Valid() && base.currentPlayer != null && targetPlayer != null
      requires Holds(targetPlayer.cards, shownId)
      modifies base.gameState, base.gameState.deck, base.currentPlayer`cards, targetPlayer`cards
      ensures Valid() && Finished(base.gameState.events) == Finished(old(base.gameState.events))
      ensures var gs, cur, target := base.gameState, base.currentPlayer, targetPlayer;
        var lost := ChosenCard(old(cur.cards), loss);
        var v := if lost.Err? then Broken(lost.error) else BlockUpheld(IndexOfCard(old(target.cards), shownId), lost.value);
        StealEffect(target == cur, v, old(SidesOf(gs, cur, target)), SidesOf(gs, cur, target)) &&
        o == StealOutcome(target == cur, v, old(cur.cards))
    {
      var gs, cur, target := base.gameState, base.currentPlayer, targetPlayer;
      ghost var a := SidesOf(gs, cur, target);
      ghost var i := IndexOfCard(target.cards, shownId);
      o := LoseCard(gs, cur, loss);
      if o.Fail? {
        assert SidesOf(gs, cur, target) == a;
        return;
      }
      ghost var j := ChosenCard(a.hand, loss).value;
      ghost var mid := SidesOf(gs, cur, target);
      assert mid == a.(hand := RemoveAt(a.hand, j), known := a.known + [a.hand[j]]);
      o := RedrawTarget(shownId);
      UpheldBlockSteps(target == cur, shownId, a, mid, SidesOf(gs, cur, target), j, o);
    }

    /** placeCardIntoDeckAndReceiveAnother on the target, as a change of view. */
    method RedrawTarget(shownId: CardId) returns (o: Outcome)
      requires Valid() && base.currentPlayer != null && targetPlayer != null
      modifies base.gameState.deck, targetPlayer`cards
      ensures Valid()
      ensures var gs, cur, target := base.gameState, base.currentPlayer, targetPlayer;
        TargetRedrawn(target == cur, shownId, old(SidesOf(gs, cur, target)), SidesOf(gs, cur, target), o)
    {
      o := Redraw(base.gameState, targetPlayer, shownId);
    }

    /** handleClaimChallenge: the claim settled as ClaimVerdict says. */
    method HandleClaimChallenge(showing: Reply<CardId>, loss: Reply<CardId>) returns (o: Outcome)
      requires Valid() && base.currentPlayer != null && targetPlayer != null
      modifies base.gameState, base.gameState.deck, base.currentPlayer`coins, base.currentPlayer`cards
      modifies targetPlayer`coins, targetPlayer`cards
      ensures Valid() && Finished(base.gameState.events) == Finished(old(base.gameState.events))
      ensures var gs, cur, target := base.gameState, base.currentPlayer, targetPlayer;
        var v := ClaimVerdict(old(cur.cards), old(target.cards), old(target.coins), showing, loss);
        StealEffect(target == cur, v, old(SidesOf(gs, cur, target)), SidesOf(gs, cur, target)) &&
        o == StealOutcome(target == cur, v, old(cur.cards))
    {
      var cur := base.currentPlayer;
      ghost var v := ClaimVerdict(cur.cards, targetPlayer.cards, targetPlayer.coins, showing, loss);
      var shownId := AskSingleCard(cur.cards, showing);
      if shownId.Err? {
        assert v == Broken(NoOptions);
        return Fail(NoOptions);
      }
      var shown := cur.GetCardByUUID(shownId.value);
      FindAgreesWithIndex(cur.cards, shownId.value);
      if shown.None? {
        assert v == Broken(CardNotFound);
        return Fail(CardNotFound);
      }
      if shown.value.variant == Captain {
        o := UpholdClaim(shownId.value, loss);
      } else {
        o := RefuteClaim(shownId.value);
      }
    }

    /** The claim was a bluff: the claimant discards the card they showed. */
    method RefuteClaim(shownId: CardId) returns (o: Outcome)
      requires Valid() && base.currentPlayer != null && targetPlayer != null
      requires Holds(base.currentPlayer.cards, shownId)
      modifies base.gameState, base.currentPlayer`cards
      ensures Valid() && Finished(base.gameState.events) == Finished(old(base.gameState.events))
      ensures var gs, cur, target := base.gameState, base.currentPlayer, targetPlayer;
        o == Pass &&
        StealEffect(target == cur, ClaimRefuted(IndexOfCard(old(cur.cards), shownId)), old(SidesOf(gs, cur, target)), SidesOf(gs, cur, target))
    {
      var gs, cur, target := base.gameState, base.currentPlayer, targetPlayer;
      ghost var a := SidesOf(gs, cur, target);
      o := Discard(gs, cur, shownId);
      assert OwnDiscard(a, SidesOf(gs, cur, target), IndexOfCard(a.hand, shownId));
    }

    /** The claim was real: the target gives up the card they choose
        (handleTargetPlayerChallengeLoss), the claimant swaps the Captain through the
        deck, and the robbery follows. */
    method UpholdClaim(shownId: CardId, loss: Reply<CardId>) returns (o: Outcome)
      requires Valid() && base.currentPlayer != null && targetPlayer != null
      requires Holds(base.currentPlayer.cards, shownId)
      modifies base.gameState, base.gameState.deck, base.currentPlayer`coins, base.currentPlayer`cards
      modifies targetPlayer`coins, targetPlayer`cards
      ensures Valid() && Finished(base.gameState.events) == Finished(old(base.gameState.events))
      ensures var gs, cur, target := base.gameState, base.currentPlayer, targetPlayer;
        var lost := ChosenCard(old(target.cards), loss);
        var v := if lost.Err? then Broken(lost.error)
                 else ClaimUpheld(IndexOfCard(old(cur.cards), shownId), lost.value, old(target.coins) >= Loot);
        StealEffect(target == cur, v, old(SidesOf(gs, cur, target)), SidesOf(gs, cur, target)) &&
        o == StealOutcome(target == cur, v, old(cur.cards))
    {
      var gs, cur, target := base.gameState, base.currentPlayer, targetPlayer;
      ghost var a := SidesOf(gs, cur, target);
      ghost var i := IndexOfCard(cur.cards, shownId);
      o := LoseCard(gs, target, loss);
      if o.Fail? {
        assert SidesOf(gs, cur, target) == a;
        return;
      }
      ghost var j := ChosenCard(old(target.cards), loss).value;
      ghost var mid := SidesOf(gs, cur, target);
      assert target == cur ==> mid == a.(hand := RemoveAt(a.hand, j), known := a.known + [a.hand[j]]);
      assert target != cur ==> mid == a.(otherHand := RemoveAt(a.otherHand, j), known := a.known + [a.otherHand[j]]);
      o := SwapAndRob(shownId);
      UpheldClaimSteps(target == cur, shownId, a, mid, SidesOf(gs, cur, target), j, old(target.coins) >= Loot, o);
    }

    /** After the target's loss: the claimant sends the Captain back into the deck,
        draws a replacement, and the robbery follows. A claimant who lost that very
        Captain as their own target no longer holds it, and the swap throws. */
    method SwapAndRob(shownId: CardId) returns (o: Outcome)
      requires Valid() && base.currentPlayer != null && targetPlayer != null
      modifies base.gameState.deck, base.currentPlayer`coins, base.currentPlayer`cards, targetPlayer`coins
      ensures Valid()
      ensures var gs, cur, target := base.gameState, base.currentPlayer, targetPlayer;
        var a, b, i := old(SidesOf(gs, cur, target)), SidesOf(gs, cur, target), IndexOfCard(old(cur.cards), shownId);
        var paid := old(target.coins) >= Loot;
        (i == -1 ==> o == Fail(CardNotFound) && b == a) &&
        (i != -1 ==>
          Redrawn(a.hand, i, b.hand, a.deck, b.deck) && b.otherHand == a.otherHand && b.known == a.known &&
          (if paid && target != cur then Robbery(a, b) else b.coins == a.coins && b.otherCoins == a.otherCoins) &&
          o == (if paid then Pass else Fail(InsufficientFunds)))
    {
      var gs, cur := base.gameState, base.currentPlayer;
      o := Redraw(gs, cur, shownId);
      if o.Fail? {
        return;
      }
      o := DoRobbery();
    }
  }
}
