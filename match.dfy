/** The match lifecycle (coup-backend/src/core/Match.ts): the seats, the host and the
    in-progress flag around one game. The match and its game share one players list:
    here the match has no list of its own and reads the game's, so a seat the game
    removes (a departure or an elimination) is gone from the match too. */
module Matches {
  import opened Errors
  import opened Cards
  import opened Decks
  import opened Players
  import opened Game

  /** The fewest seats a match starts with. */
  const MinimumPlayers: int := 4

  /** `players[0]?.uuid || ''`: the first seat's uuid, or the empty string when there
      is no seat (an empty uuid gives the empty string either way). */
  function HostOf(ps: seq<Player>): (h: string)
    reads {}
    ensures ps == [] ==> h == ""
    ensures ps != [] ==> h == ps[0].uuid
  {
    if ps == [] then "" else ps[0].uuid
  }

  class Match {
    const uuid: string
    var hasEnded: bool
    var inProgress: bool
    var hostUUID: string
    const gameState: GameState

    ghost predicate Valid()
      reads gameState`players, gameState`eliminatedPlayers
    {
      gameState.Valid()
    }

    /** The host is the first seat's uuid. addPlayer and removePlayer restore this;
        an elimination, which removes a seat through the game alone, does not. */
    ghost predicate HostCurrent()
      reads this`hostUUID, gameState`players
    {
      hostUUID == HostOf(gameState.players)
    }

    /** A match over `players`, whose game (and deck) is sized for that many seats. */
    constructor (players: seq<Player>, ids: IdSupply)
      requires ids.Valid()
      requires Distinct(players) && UniqueUuids(players)
      requires forall p :: p in players ==> p.coins >= 0
      modifies ids
      ensures Valid() && HostCurrent() && fresh(gameState) && fresh(gameState.deck)
      ensures gameState.players == players && uuid == "123" && !inProgress && !hasEnded
      ensures |gameState.deck.cards| == 5 * CopiesPerVariant(|players|)
    {
      uuid := "123";
      hasEnded := false;
      inProgress := false;
      hostUUID := HostOf(players);
      gameState := new GameState(players, ids);
    }

    function IsInProgress(): (b: bool)
      reads this`inProgress
      ensures b == inProgress
    {
      inProgress
    }

    /** startMatch: nothing happens while a match is in progress or below four seats;
        otherwise the game deals the initial hands and the match is in progress
        exactly when the deal did not throw. The deck was sized when the match was
        built, however many seats joined since. */
    method StartMatch() returns (o: Outcome)
      requires Valid()
      modifies this`inProgress, gameState.deck, gameState.players`cards
      ensures forall k :: 0 <= k < |gameState.players| ==> gameState.players[k].coins == old(gameState.players[k].coins)
      ensures Valid() && gameState.AllCards() == old(gameState.AllCards())
      ensures old(inProgress) || |gameState.players| < MinimumPlayers ==>
        o == Pass && inProgress == old(inProgress) &&
        unchanged(gameState.deck) && forall p :: p in gameState.players ==> unchanged(p)
      ensures !old(inProgress) && |gameState.players| >= MinimumPlayers ==>
        DealtInitialHands(old(gameState.deck.cards), old(Hands(gameState.players)), gameState.deck.cards, Hands(gameState.players), o) &&
        inProgress == o.Pass?
    {
      if inProgress {
        return Pass;
      }
      if |gameState.players| < MinimumPlayers {
        return Pass;
      }
      o := Deal();
    }

    /** The deal itself: the match is in progress exactly when it did not throw. */
    method Deal() returns (o: Outcome)
      requires Valid()
      modifies this`inProgress, gameState.deck, gameState.players`cards
      ensures forall k :: 0 <= k < |gameState.players| ==> gameState.players[k].coins == old(gameState.players[k].coins)
      ensures Valid() && gameState.AllCards() == old(gameState.AllCards())
      ensures DealtInitialHands(old(gameState.deck.cards), old(Hands(gameState.players)), gameState.deck.cards, Hands(gameState.players), o)
      ensures inProgress == (o.Pass? || old(inProgress))
    {
      o := gameState.StartGame();
      label dealt:
      ghost var hands := Hands(gameState.players);
      MarkInProgress(o);
      CardsStay@dealt(gameState);
      SameHands(gameState.players, hands);
    }

    /** The match is in progress once the deal returned without throwing. */
    method MarkInProgress(o: Outcome)
      modifies this`inProgress
      ensures inProgress == (o.Pass? || old(inProgress))
    {
      if o.Pass? {
        inProgress := true;
      }
    }

    /** addPlayer: the player takes the last seat whatever the match's state (a
        match in progress or ended only logs a warning), and the first seat hosts.
        The newcomer's cards join the game's. Socket ids are unique, so the newcomer
        is no player already known to the game and shares no uuid with one. */
    method AddPlayer(player: Player)
      requires Valid() && player !in gameState.AllPlayers()
      requires forall q :: q in gameState.AllPlayers() ==> q.uuid != player.uuid
      modifies this`hostUUID, gameState`players
      ensures Valid() && HostCurrent()
      ensures gameState.players == old(gameState.players) + [player]
      ensures hostUUID == gameState.players[0].uuid
      ensures gameState.AllCards() == old(gameState.AllCards()) + multiset(player.cards)
    {
      ghost var before, out := gameState.players, gameState.eliminatedPlayers;
      gameState.players := gameState.players + [player];
      hostUUID := gameState.players[0].uuid;
      JoinValid(before, out, player);
      JoinCards(before, out, player);
    }

    /** removePlayer: the game drops the seat (see GameState.RemovePlayer) and the
        host becomes the first remaining seat, or the empty string with none left.
        When the game throws, on an empty table, the host is not touched. */
    method RemovePlayer(uuid: string) returns (o: Outcome)
      requires Valid()
      modifies this`hostUUID, gameState`players, gameState`currentTurnPlayerIndex, gameState`events
      ensures Valid()
      ensures old(gameState.players) == [] ==>
        o == Fail(PlayerNotFound) && gameState.players == [] && hostUUID == old(hostUUID)
      ensures old(gameState.players) != [] ==>
        var found := IndexOfPlayer(old(gameState.players), uuid);
        var k := if found == -1 then |old(gameState.players)| - 1 else found;
        o == Pass && gameState.players == RemoveAt(old(gameState.players), k) && HostCurrent()
    {
      o := gameState.RemovePlayer(uuid);
      if o.Fail? {
        return;
      }
      hostUUID := HostOf(gameState.players);
    }

    /** Appending an unknown player with an unused uuid keeps the game valid. */
    lemma JoinValid(before: seq<Player>, out: seq<Player>, player: Player)
      requires Distinct(before + out) && UniqueUuids(before + out)
      requires player !in before + out && forall q :: q in before + out ==> q.uuid != player.uuid
      requires gameState.players == before + [player] && gameState.eliminatedPlayers == out
      ensures Valid()
    {
      var all := gameState.AllPlayers();
      assert all == (before + out)[..|before|] + [player] + (before + out)[|before|..];
      forall i, j | 0 <= i < j < |all| ensures all[i] != all[j] && all[i].uuid != all[j].uuid {
        if i != |before| && j != |before| {
          var i', j' := if i < |before| then i else i - 1, if j < |before| then j else j - 1;
          assert all[i] == (before + out)[i'] && all[j] == (before + out)[j'];
        } else if i == |before| {
          assert all[j] in before + out;
        } else {
          assert all[i] in before + out;
        }
      }
    }

    /** Appending a seat adds exactly that seat's cards to the game's. */
    lemma JoinCards(before: seq<Player>, out: seq<Player>, player: Player)
      requires gameState.players == before + [player] && gameState.eliminatedPlayers == out
      ensures gameState.AllCards() ==
        CardsIn(gameState.deck.cards, Hands(before + out), gameState.knownCards) + multiset(player.cards)
    {
      HandsAppend(before + [player], out);
      HandsAppend(before, [player]);
      HandsAppend(before, out);
      SumHandsAppend(Hands(before) + Hands([player]), Hands(out));
      SumHandsAppend(Hands(before), Hands([player]));
      SumHandsAppend(Hands(before), Hands(out));
      assert Hands([player]) == [player.cards];
      SumHandsSingle(player.cards);
    }
  }
}
