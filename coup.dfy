/** The Coup (coup-backend/src/cases/CoupCase.ts): for seven coins the turn player
    makes another player give up a card; nobody can challenge or block it. The replies
    are parameters: `choice` picks the target and `loss` is the card the target gives up. */
module CoupCases {
  import opened Errors
  import opened Cards
  import opened Players
  import opened Game
  import opened Prompts
  import opened BaseCases

  /** What a Coup costs, and the balance needed to launch one. */
  const Price: int := 7

  /** promptChooseTarget's result: every other active player is offered, the first as
      the default option. emitPromptToPlayer is not part of this model; it is taken to
      resolve with the answer, or with the default option's value on the timer, which
      is undefined when nobody is offered. A chosen id that names no active player
      throws. */
  function CoupTarget(gs: GameState, curId: string, choice: Reply<string>): (r: Result<Player>)
    reads gs`players
    ensures r.Err? ==> r.error == PlayerNotFound
    ensures r.Ok? ==> r.value in gs.players
    ensures r.Ok? && choice.Answered? ==> r.value.uuid == choice.value
    ensures r.Ok? && choice.TimedOut? ==> r.value.uuid != curId
    ensures choice.TimedOut? ==> (r.Ok? <==> Opponents(gs.players, curId) != [])
    ensures choice.Answered? ==> (r.Err? <==> forall q :: q in gs.players ==> q.uuid != choice.value)
  {
    var options := Opponents(gs.players, curId);
    if choice.TimedOut? && options == [] then Err(PlayerNotFound)
    else
      assert choice.TimedOut? ==> options[0] in options;
      var p := gs.GetPlayerByUUID(if choice.Answered? then choice.value else options[0]);
      if p == null then Err(PlayerNotFound) else Ok(p)
  }

  /** The player a Coup by `cur` strikes, as a set: empty when there is no claimant
      or no target is found. Whoever is not in it keeps their hand. */
  function CoupVictim(gs: GameState, cur: Player?, choice: Reply<string>): (s: set<Player>)
    reads gs`players
    ensures cur == null || CoupTarget(gs, cur.uuid, choice).Err? <==> s == {}
  {
    if cur == null then {} else
    var r := CoupTarget(gs, cur.uuid, choice);
    if r.Ok? then {r.value} else {}
  }

  /** What a Coup that found its target does: the claimant pays seven coins, and the
      target gives up card `lost`, or nothing more happens when that choice fails.
      The target is the other player, or the claimant when `alone`; the deck never
      changes. */
  ghost predicate CoupEffect(alone: bool, lost: Result<nat>, a: View, b: View) {
    b.coins == a.coins - Price && b.otherCoins == a.otherCoins &&
    (lost.Err? ==> b == a.(coins := b.coins)) &&
    (lost.Ok? ==> TargetDiscard(alone, a, b, lost.value))
  }

  /** A Coup moves one card at most, from the target's hand to the log, and its seven
      coins leave the table. */
  lemma CoupKeepsCards(alone: bool, lost: Result<nat>, a: View, b: View)
    requires CoupEffect(alone, lost, a, b)
    ensures Stock(b) == Stock(a)
    ensures b.coins + b.otherCoins == a.coins + a.otherCoins - Price
    ensures lost.Ok? && !alone ==> |b.otherHand| == |a.otherHand| - 1 && b.hand == a.hand
    ensures lost.Ok? && alone ==> |b.hand| == |a.hand| - 1
    ensures lost.Ok? ==> |b.known| == |a.known| + 1
  {
    if lost.Ok? {
      TargetDiscardKeepsCards(alone, a, b, lost.value);
    }
  }

  class CoupCase {
    const base: BaseCase
    /** The player being couped, once promptChooseTarget has found them. */
    var targetPlayer: Player?

    ghost predicate Valid()
      reads this`targetPlayer, base`currentPlayer, base.gameState`players, base.gameState`eliminatedPlayers
    {
      base.Valid() && (targetPlayer != null ==> targetPlayer in base.gameState.AllPlayers())
    }

    /** CoupCase declares no constructor of its own: it takes BaseCase's. */
    constructor (caseName: string, gameState: GameState)
      requires gameState.Valid()
      ensures fresh(base) && Valid() && targetPlayer == null
      ensures base.caseName == caseName && base.gameState == gameState
      ensures base.currentPlayer == gameState.GetCurrentTurnPlayer()
    {
      base := new BaseCase(caseName, gameState);
      targetPlayer := null;
    }

    /** execute, with the player the handler was built for: the balance is checked,
        the target chosen (an unknown one fails before any payment), the seven coins
        paid, the target gives up the card they choose, and the turn is finished
        unless something threw. A claimant who answers with their own uuid coups
        themself. Only the claimant's balance and the target's hand can change. */
    method Execute(choice: Reply<string>, loss: Reply<CardId>) returns (o: Outcome)
      requires Valid()
      modifies this`targetPlayer, base.gameState, Only(base.currentPlayer)`coins
      modifies CoupVictim(base.gameState, base.currentPlayer, choice)`cards
      ensures Valid()
      ensures base.currentPlayer == null ==> o == Fail(NoCurrentPlayer) && unchanged(base.gameState)
      ensures var gs, cur := base.gameState, base.currentPlayer;
        cur != null && old(cur.coins) < Price ==>
        o == Fail(InsufficientFunds) && unchanged(gs) && cur.coins == old(cur.coins) && cur.cards == old(cur.cards)
      ensures var gs, cur := base.gameState, base.currentPlayer;
        cur != null && old(cur.coins) >= Price ==>
        var r := old(CoupTarget(gs, cur.uuid, choice));
        (r.Err? ==> o == Fail(r.error) && unchanged(gs) && cur.coins == old(cur.coins) && cur.cards == old(cur.cards)) &&
        (r.Ok? ==>
          var target := r.value;
          targetPlayer == target &&
          var lost := ChosenCard(old(target.cards), loss);
          CoupEffect(target == cur, lost, old(SidesOf(gs, cur, target)), SidesOf(gs, cur, target)) &&
          o == (if lost.Err? then Fail(lost.error) else Pass) &&
          Finished(gs.events) == Finished(old(gs.events)) + TurnsFinished(o))
    {
      var cur := base.currentPlayer;
      if cur == null {
        return Fail(NoCurrentPlayer);
      }
      if cur.GetCoinsAmount() < Price {
        return Fail(InsufficientFunds);
      }
      o := PromptChooseTarget(choice);
      if o.Fail? {
        return;
      }
      o := Strike(loss);
    }

    /** promptChooseTarget: records the target CoupTarget names; a throw changes
        nothing. */
    method PromptChooseTarget(choice: Reply<string>) returns (o: Outcome)
      requires Valid() && base.currentPlayer != null
      modifies this`targetPlayer
      ensures Valid()
      ensures var r := CoupTarget(base.gameState, base.currentPlayer.uuid, choice);
        (r.Err? ==> o == Fail(r.error) && targetPlayer == old(targetPlayer)) &&
        (r.Ok? ==> o == Pass && targetPlayer == r.value)
    {
      var gs := base.gameState;
      var options := Opponents(gs.players, base.currentPlayer.uuid);
      var chosenUuid: string;
      if choice.Answered? {
        chosenUuid := choice.value;
      } else if options == [] {
        return Fail(PlayerNotFound);
      } else {
        chosenUuid := options[0];
      }
      var target := gs.GetPlayerByUUID(chosenUuid);
      if target == null {
        return Fail(PlayerNotFound);
      }
      targetPlayer := target;
      o := Pass;
    }

    /** The rest of execute once the target is known: the payment, the target's
        loss, and the end of the turn unless the loss failed. */
    method Strike(loss: Reply<CardId>) returns (o: Outcome)
      requires Valid() && base.currentPlayer != null && targetPlayer != null
      requires base.currentPlayer.coins >= Price
      modifies base.gameState, base.currentPlayer`coins, targetPlayer`cards
      ensures Valid()
      ensures var gs, cur, target := base.gameState, base.currentPlayer, targetPlayer;
        var lost := ChosenCard(old(target.cards), loss);
        CoupEffect(target == cur, lost, old(SidesOf(gs, cur, target)), SidesOf(gs, cur, target)) &&
        o == (if lost.Err? then Fail(lost.error) else Pass) &&
        Finished(gs.events) == Finished(old(gs.events)) + TurnsFinished(o)
    {
      var cur := base.currentPlayer;
      o := cur.RemoveCoins(Price);
      o := TakeCard(loss);
    }

    /** After the payment: the target gives up the card they choose and the turn is
        finished unless that failed. */
    method TakeCard(loss: Reply<CardId>) returns (o: Outcome)
      requires Valid() && base.currentPlayer != null && targetPlayer != null
      modifies base.gameState, targetPlayer`cards
      ensures Valid()
      ensures var gs, cur, target := base.gameState, base.currentPlayer, targetPlayer;
        var lost := ChosenCard(old(target.cards), loss);
        var a, b := old(SidesOf(gs, cur, target)), SidesOf(gs, cur, target);
        b.coins == a.coins && b.otherCoins == a.otherCoins &&
        (lost.Err? ==> b == a) && (lost.Ok? ==> TargetDiscard(target == cur, a, b, lost.value)) &&
        o == (if lost.Err? then Fail(lost.error) else Pass) &&
        Finished(gs.events) == Finished(old(gs.events)) + TurnsFinished(o)
    {
      var gs, cur, target := base.gameState, base.currentPlayer, targetPlayer;
      o := LoseCard(gs, target, loss);
      if o.Pass? {
        ghost var settled := SidesOf(gs, cur, target);
        ghost var everyone := gs.AllPlayers();
        base.FinishTurn();
        assert gs.AllPlayers() == everyone;
        assert SidesOf(gs, cur, target) == settled;
      }
    }
  }
}
