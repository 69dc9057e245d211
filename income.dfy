/** The Income action (coup-backend/src/cases/IncomeCase.ts): one coin, no challenge,
    no block. */
module IncomeCases {
  import opened Errors
  import opened Players
  import opened Game
  import opened BaseCases

  class IncomeCase {
    const base: BaseCase

    /** IncomeCase declares no constructor of its own: it takes BaseCase's. */
    constructor (caseName: string, gameState: GameState)
      requires gameState.Valid()
      ensures fresh(base) && base.Valid()
      ensures base.caseName == caseName && base.gameState == gameState
      ensures base.currentPlayer == gameState.GetCurrentTurnPlayer()
    {
      base := new BaseCase(caseName, gameState);
    }

    /** getIncome: the handler's player gains one coin, no card moves, nobody else's
        balance changes, and the turn is finished once. Without a player the first
        property access fails before anything changes. */
    method GetIncome() returns (o: Outcome)
      requires base.Valid()
      modifies base.gameState`currentTurnPlayerIndex, base.gameState`events, base.gameState.AllPlayers()
      ensures base.Valid() && base.gameState.AllCards() == old(base.gameState.AllCards())
      ensures base.gameState.AllPlayers() == old(base.gameState.AllPlayers())
      ensures forall p :: p in base.gameState.AllPlayers() ==> p.cards == old(p.cards)
      ensures base.currentPlayer == null ==>
        o == Fail(NoCurrentPlayer) && base.gameState.events == old(base.gameState.events) &&
        base.gameState.currentTurnPlayerIndex == old(base.gameState.currentTurnPlayerIndex) &&
        forall p :: p in base.gameState.AllPlayers() ==> p.coins == old(p.coins)
      ensures base.currentPlayer != null ==>
        o == Pass &&
        (forall p :: p in base.gameState.AllPlayers() ==>
          p.coins == old(p.coins) + (if p == base.currentPlayer then 1 else 0)) &&
        Finished(base.gameState.events) == Finished(old(base.gameState.events)) + 1 &&
        base.gameState.currentTurnPlayerIndex ==
          NextTurnIndex(old(base.gameState.currentTurnPlayerIndex), |base.gameState.players|)
    {
      var player := base.currentPlayer;
      if player == null {
        return Fail(NoCurrentPlayer);
      }
      ghost var gs := base.gameState;
      ghost var all, hands := gs.AllPlayers(), Hands(gs.AllPlayers());
      assert gs.AllCards() == CardsIn(gs.deck.cards, hands, gs.knownCards);
      GiveIncome(player);
      base.FinishTurn();
      SameHands(all, hands);
      o := Pass;
    }

    /** giveIncome: one coin to `player`. */
    method GiveIncome(player: Player)
      modifies player`coins
      ensures player.coins == old(player.coins) + 1
    {
      player.AddCoins(1);
    }
  }
}
