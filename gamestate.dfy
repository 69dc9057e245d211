/** The state of one game (coup-backend/src/core/GameState.ts): the deck, the hands of
    the players still in the game, the eliminated players, the public log of discarded
    cards and the turn pointer. The namespace and internal-bus emissions that change
    what clients or the turn driver see are recorded in `events`. */
module Game {
  import opened Errors
  import opened Cards
  import opened Decks
  import opened Players

  /** The emissions that drive the game: TURN_START and GAME_END (internal bus and
      namespace), NEXT_TURN (sent by finishTurn) and PLAYER_ELIMINATED. */
  datatype Event = TurnStart | GameEnd | NextTurn | PlayerEliminated(playerUuid: string)

  predicate Distinct<T(==)>(s: seq<T>) {
    forall i, j :: 0 <= i < j < |s| ==> s[i] != s[j]
  }

  /** Socket ids are unique, so no two players share a uuid. */
  predicate UniqueUuids(ps: seq<Player>) {
    forall i, j :: 0 <= i < j < |ps| ==> ps[i].uuid != ps[j].uuid
  }

  /** findIndex on the player uuids: the first position, or -1. */
  function IndexOfPlayer(ps: seq<Player>, uuid: string): (i: int)
    ensures -1 <= i < |ps|
    ensures 0 <= i ==> ps[i].uuid == uuid && forall k :: 0 <= k < i ==> ps[k].uuid != uuid
    ensures i == -1 <==> forall k :: 0 <= k < |ps| ==> ps[k].uuid != uuid
  {
    if ps == [] then -1
    else if ps[0].uuid == uuid then 0
    else
      var j := IndexOfPlayer(ps[1..], uuid);
      if j == -1 then -1 else j + 1
  }

  /** With unique uuids, a member's uuid finds that member. */
  lemma IndexOfMember(ps: seq<Player>, k: nat)
    requires UniqueUuids(ps) && k < |ps|
    ensures IndexOfPlayer(ps, ps[k].uuid) == k
  {
  }

  /** JavaScript's integer division of `a` by `n`, truncated toward zero. */
  function JsQuot(a: int, n: int): int
    requires n > 0
  {
    if a >= 0 then a / n else -((-a) / n)
  }

  /** JavaScript's `%`: the remainder of the truncated division, so it takes the sign
      of the dividend. */
  function JsRem(a: int, n: int): (r: int)
    requires n > 0
    ensures -n < r < n
    ensures a >= 0 ==> 0 <= r
    ensures a <= 0 ==> r <= 0
  {
    if a >= 0 then a % n else -((-a) % n)
  }

  /** JsRem is the remainder of JsQuot: a == n * JsQuot(a, n) + JsRem(a, n). */
  lemma JsDivision(a: int, n: int)
    requires n > 0
    ensures a == n * JsQuot(a, n) + JsRem(a, n)
  {
    if a < 0 {
      var q := (-a) / n;
      assert -a == n * q + (-a) % n;
      assert n * (-q) == -(n * q);
    }
  }

  /** The index goToNextTurn leaves with `count` players: one seat on, wrapping from
      the last seat to the first (an index of -1, left by an elimination, moves to 0). */
  function NextTurnIndex(index: int, count: nat): (r: int)
    ensures count >= 2 && -1 <= index < count ==> r == (if index + 1 == count then 0 else index + 1)
    ensures count <= 1 ==> r == index
  {
    if count <= 1 then index else JsRem(index + 1, count)
  }

  /** The emissions of goToNextTurn with `count` players. */
  function TurnEvents(count: nat): (es: seq<Event>)
    ensures count == 0 ==> es == []
    ensures count == 1 ==> es == [GameEnd]
    ensures count >= 2 ==> es == [TurnStart]
  {
    if count == 0 then [] else if count == 1 then [GameEnd] else [TurnStart]
  }

  /** How many turns have been finished: the NEXT_TURN announcements made. */
  function Finished(es: seq<Event>): nat {
    if es == [] then 0 else Finished(es[..|es| - 1]) + (if es[|es| - 1] == NextTurn then 1 else 0)
  }

  /** Announcing one more event that is not NEXT_TURN finishes no turn; announcing
      NEXT_TURN finishes one. */
  lemma FinishedPush(es: seq<Event>, e: Event)
    ensures Finished(es + [e]) == Finished(es) + (if e == NextTurn then 1 else 0)
  {
    assert (es + [e])[..|es + [e]| - 1] == es;
  }

  /** The index after `k` turns with a fixed number of players. */
  function Advance(index: int, count: nat, k: nat): int {
    if k == 0 then index else NextTurnIndex(Advance(index, count, k - 1), count)
  }

  /** With two or more players and no eliminations, k <= count turns move the pointer
      k seats, wrapping once past the last seat. */
  lemma {:induction false} AdvanceIsRotation(index: nat, count: nat, k: nat)
    requires 2 <= count && index < count && k <= count
    ensures Advance(index, count, k) == if index + k < count then index + k else index + k - count
  {
    if k > 0 {
      AdvanceIsRotation(index, count, k - 1);
    }
  }

  /** After as many turns as there are players, the turn is back where it started. */
  lemma TurnsCycle(index: nat, count: nat)
    requires 2 <= count && index < count
    ensures Advance(index, count, count) == index
  {
    AdvanceIsRotation(index, count, count);
  }

  /** The multiset union of a sequence of hands. */
  function SumHands(hs: seq<seq<Card>>): multiset<Card> {
    if hs == [] then multiset{} else SumHands(hs[..|hs| - 1]) + multiset(hs[|hs| - 1])
  }

  lemma {:induction false} SumHandsAppend(a: seq<seq<Card>>, b: seq<seq<Card>>)
    ensures SumHands(a + b) == SumHands(a) + SumHands(b)
  {
    if b == [] {
      assert a + b == a;
    } else {
      assert (a + b)[..|a + b| - 1] == a + b[..|b| - 1];
      assert (a + b)[|a + b| - 1] == b[|b| - 1];
      SumHandsAppend(a, b[..|b| - 1]);
    }
  }

  lemma SumHandsSingle(h: seq<Card>)
    ensures SumHands([h]) == multiset(h)
  {
    assert [h][..0] == [];
  }

  /** The union split around hand i. */
  lemma SumHandsSplit(hs: seq<seq<Card>>, i: nat)
    requires i < |hs|
    ensures SumHands(hs) == SumHands(hs[..i]) + multiset(hs[i]) + SumHands(hs[i + 1..])
  {
    assert hs == hs[..i] + [hs[i]] + hs[i + 1..];
    SumHandsAppend(hs[..i] + [hs[i]], hs[i + 1..]);
    SumHandsAppend(hs[..i], [hs[i]]);
    SumHandsSingle(hs[i]);
  }

  /** Replacing hand i: the union is the other hands and the new one. */
  lemma SumHandsUpdate(hs: seq<seq<Card>>, i: nat, x: seq<Card>)
    requires i < |hs|
    ensures SumHands(hs[i := x]) == SumHands(hs[..i]) + multiset(x) + SumHands(hs[i + 1..])
  {
    SumHandsSplit(hs[i := x], i);
    assert hs[i := x][..i] == hs[..i];
    assert hs[i := x][i + 1..] == hs[i + 1..];
  }

  /** Removing one hand removes exactly its cards from the union. */
  lemma SumHandsRemoveAt(hs: seq<seq<Card>>, i: nat)
    requires i < |hs|
    ensures SumHands(hs) == SumHands(RemoveAt(hs, i)) + multiset(hs[i])
  {
    assert RemoveAt(hs, i) == hs[..i] + hs[i + 1..];
    SumHandsAppend(hs[..i], hs[i + 1..]);
    SumHandsSplit(hs, i);
  }

  /** Moving hand i of `hs` to the end of `hs + rest` keeps the union. */
  lemma SumHandsMove(hs: seq<seq<Card>>, rest: seq<seq<Card>>, i: nat)
    requires i < |hs|
    ensures SumHands(RemoveAt(hs, i) + rest + [hs[i]]) == SumHands(hs + rest)
  {
    SumHandsAppend(RemoveAt(hs, i) + rest, [hs[i]]);
    SumHandsAppend(RemoveAt(hs, i), rest);
    SumHandsAppend(hs, rest);
    SumHandsRemoveAt(hs, i);
    SumHandsSingle(hs[i]);
  }

  /** A card added to one hand is added to the union. */
  lemma SumHandsAppendCard(hs: seq<seq<Card>>, i: nat, c: Card)
    requires i < |hs|
    ensures SumHands(hs[i := hs[i] + [c]]) == SumHands(hs) + multiset{c}
  {
    SumHandsUpdate(hs, i, hs[i] + [c]);
    SumHandsSplit(hs, i);
    assert multiset(hs[i] + [c]) == multiset(hs[i]) + multiset{c};
  }

  /** A card removed from one hand is removed from the union. */
  lemma SumHandsRemoveCard(hs: seq<seq<Card>>, i: nat, j: nat)
    requires i < |hs| && j < |hs[i]|
    ensures SumHands(hs[i := RemoveAt(hs[i], j)]) + multiset{hs[i][j]} == SumHands(hs)
  {
    SumHandsUpdate(hs, i, RemoveAt(hs[i], j));
    SumHandsSplit(hs, i);
    assert multiset(RemoveAt(hs[i], j)) + multiset{hs[i][j]} == multiset(hs[i]);
  }

  /** Every card held in a deck `d`, the hands `hs` and the discard log `known`. */
  function CardsIn(d: seq<Card>, hs: seq<seq<Card>>, known: seq<Card>): multiset<Card> {
    multiset(d) + SumHands(hs) + multiset(known)
  }

  /** Drawing the deck's front card into hand i moves it and loses nothing. */
  lemma DrawKeepsCards(d: seq<Card>, hs: seq<seq<Card>>, known: seq<Card>, i: nat)
    requires d != [] && i < |hs|
    ensures CardsIn(d[1..], hs[i := hs[i] + [d[0]]], known) == CardsIn(d, hs, known)
  {
    SumHandsAppendCard(hs, i, d[0]);
    assert d == [d[0]] + d[1..];
    assert multiset(d) == multiset{d[0]} + multiset(d[1..]);
  }

  /** Discarding card j of hand i into the log moves it and loses nothing. */
  lemma DiscardKeepsCards(d: seq<Card>, hs: seq<seq<Card>>, known: seq<Card>, i: nat, j: nat)
    requires i < |hs| && j < |hs[i]|
    ensures CardsIn(d, hs[i := RemoveAt(hs[i], j)], known + [hs[i][j]]) == CardsIn(d, hs, known)
  {
    SumHandsRemoveCard(hs, i, j);
    assert multiset(known + [hs[i][j]]) == multiset(known) + multiset{hs[i][j]};
  }

  /** Returning card j of hand i into a deck, in any order, loses nothing. */
  lemma ReturnKeepsCards(d: seq<Card>, d': seq<Card>, hs: seq<seq<Card>>, known: seq<Card>, i: nat, j: nat)
    requires i < |hs| && j < |hs[i]|
    requires multiset(d') == multiset(d) + multiset{hs[i][j]}
    ensures CardsIn(d', hs[i := RemoveAt(hs[i], j)], known) == CardsIn(d, hs, known)
  {
    SumHandsRemoveCard(hs, i, j);
  }

  /** Dropping hand i loses exactly its cards. */
  lemma DropHandCards(d: seq<Card>, hs: seq<seq<Card>>, known: seq<Card>, i: nat)
    requires i < |hs|
    ensures CardsIn(d, RemoveAt(hs, i), known) + multiset(hs[i]) == CardsIn(d, hs, known)
  {
    SumHandsRemoveAt(hs, i);
  }

  /** Card j of `hand` goes into the deck, which becomes `mid` in some order, and the
      hand draws mid's front card: sizes are kept, the new card came from the deck or
      is the returned card, and between them hand and deck hold the same cards. */
  lemma ExchangeShape(hand: seq<Card>, d: seq<Card>, mid: seq<Card>, j: nat)
    requires j < |hand| && |mid| == |d| + 1
    requires multiset(mid) == multiset(d) + multiset{hand[j]}
    ensures var h' := RemoveAt(hand, j) + [mid[0]];
      |h'| == |hand| && |mid[1..]| == |d| &&
      h'[..|h'| - 1] == RemoveAt(hand, j) &&
      h'[|h'| - 1] in multiset(d) + multiset{hand[j]} &&
      multiset(mid[1..]) + multiset(h') == multiset(d) + multiset(hand)
  {
    var h' := RemoveAt(hand, j) + [mid[0]];
    assert h'[..|h'| - 1] == RemoveAt(hand, j);
    assert mid == [mid[0]] + mid[1..];
    assert mid[0] in multiset(mid);
    assert multiset(RemoveAt(hand, j)) + multiset{hand[j]} == multiset(hand);
    assert multiset(h') == multiset(RemoveAt(hand, j)) + multiset{mid[0]};
    assert multiset(mid) == multiset{mid[0]} + multiset(mid[1..]);
    calc {
      multiset(mid[1..]) + multiset(h');
      (multiset{mid[0]} + multiset(mid[1..])) + multiset(RemoveAt(hand, j));
      (multiset(d) + multiset{hand[j]}) + multiset(RemoveAt(hand, j));
      multiset(d) + multiset(hand);
    }
  }

  /** Hand k of `hs` after receiving cards 2k and 2k + 1 of `d`. */
  function Dealt(d: seq<Card>, hs: seq<seq<Card>>): (r: seq<seq<Card>>)
    requires 2 * |hs| <= |d|
    ensures |r| == |hs| && forall k :: 0 <= k < |hs| ==> r[k] == hs[k] + d[2 * k..2 * k + 2]
  {
    if hs == [] then [] else Dealt(d, hs[..|hs| - 1]) + [hs[|hs| - 1] + d[2 * (|hs| - 1)..2 * |hs|]]
  }

  /** `hand` is `oldHand` after its card i went into the deck (`oldDeck`, giving
      `deck` after the reshuffle and a draw) and a replacement was drawn: the other
      cards keep their order, the new card comes last and is one of the deck's cards
      or the returned one, and the deck and hand together hold what they held. */
  predicate Redrawn(oldHand: seq<Card>, i: nat, hand: seq<Card>, oldDeck: seq<Card>, deck: seq<Card>)
    requires i < |oldHand|
  {
    |hand| == |oldHand| && |deck| == |oldDeck| &&
    hand[..|hand| - 1] == RemoveAt(oldHand, i) &&
    hand[|hand| - 1] in multiset(oldDeck) + multiset{oldHand[i]} &&
    multiset(deck) + multiset(hand) == multiset(oldDeck) + multiset(oldHand)
  }

  /** Two draws from the front of `d` into `hand`. */
  lemma TwoDraws(hand: seq<Card>, d: seq<Card>)
    requires |d| >= 2
    ensures hand + [d[0]] + [d[1..][0]] == hand + d[..2] && d[1..][1..] == d[2..]
  {
    assert d[..2] == [d[0], d[1]];
  }

  /** The two cards dealt at step i are the front of what is left of the deck then. */
  lemma SliceStep(d: seq<Card>, i: nat)
    requires 2 * i + 2 <= |d|
    ensures d[2 * i..][..2] == d[2 * i..2 * i + 2] && d[2 * i..][2..] == d[2 * (i + 1)..]
  {
  }

  /** Dealing two cards per hand from the front of `d` moves them and loses nothing. */
  lemma {:induction false} DealKeepsCards(d: seq<Card>, hs: seq<seq<Card>>)
    requires 2 * |hs| <= |d|
    ensures multiset(d[2 * |hs|..]) + SumHands(Dealt(d, hs)) == multiset(d) + SumHands(hs)
  {
    if hs == [] {
      assert d[0..] == d;
    } else {
      var n := |hs| - 1;
      var init := hs[..n];
      var front := d[2 * n..2 * n + 2];
      DealKeepsCards(d, init);
      DealtLast(d, hs, n);
      SumHandsLast(hs, n);
      SliceConcat(d, 2 * n, 2 * |hs|);
      Regroup(multiset(d[2 * |hs|..]), SumHands(Dealt(d, hs)), SumHands(Dealt(d, init)), multiset(hs[n]),
              multiset(front), multiset(d[2 * n..]), multiset(d), SumHands(init), SumHands(hs));
    }
  }

  /** The last dealing step in multiset terms: the last hand takes the two cards that
      follow those dealt to the earlier hands. */
  lemma DealtLast(d: seq<Card>, hs: seq<seq<Card>>, n: nat)
    requires n + 1 == |hs| && 2 * |hs| <= |d|
    ensures SumHands(Dealt(d, hs)) == SumHands(Dealt(d, hs[..n])) + (multiset(hs[n]) + multiset(d[2 * n..2 * n + 2]))
  {
    var dh, di := Dealt(d, hs), Dealt(d, hs[..n]);
    assert dh == di + [hs[n] + d[2 * n..2 * n + 2]];
    assert dh[..n] == di;
  }

  lemma SumHandsLast(hs: seq<seq<Card>>, n: nat)
    requires n + 1 == |hs|
    ensures SumHands(hs) == SumHands(hs[..n]) + multiset(hs[n])
  {
  }

  lemma SliceConcat(d: seq<Card>, a: nat, b: nat)
    requires a <= b <= |d|
    ensures multiset(d[a..]) == multiset(d[a..b]) + multiset(d[b..])
  {
    assert d[a..] == d[a..b] + d[b..];
  }

  /** The multiset bookkeeping of one dealing step. */
  lemma Regroup(rest: multiset<Card>, dealt: multiset<Card>, dealtInit: multiset<Card>, hand: multiset<Card>,
                front: multiset<Card>, tail: multiset<Card>, deck: multiset<Card>, init: multiset<Card>,
                all: multiset<Card>)
    requires dealt == dealtInit + (hand + front) && tail == front + rest
    requires tail + dealtInit == deck + init && all == init + hand
    ensures rest + dealt == deck + all
  {
    forall x ensures (rest + dealt)[x] == (deck + all)[x] {
      assert dealt[x] == (dealtInit + (hand + front))[x];
      assert tail[x] == (front + rest)[x];
      assert (tail + dealtInit)[x] == (deck + init)[x];
      assert all[x] == (init + hand)[x];
    }
  }

  /** What dealing two cards to each player does to the deck and the seats' hands:
      with too few cards it fails and nothing moves; otherwise seat k receives the
      deck's cards 2k and 2k + 1 and the deck loses its first 2 * |seats| cards. */
  ghost predicate DealtInitialHands(oldDeck: seq<Card>, oldHands: seq<seq<Card>>,
                                    newDeck: seq<Card>, newHands: seq<seq<Card>>, o: Outcome)
  {
    |newHands| == |oldHands| &&
    if |oldDeck| < 2 * |oldHands| then
      o == Fail(NotEnoughCards) && newDeck == oldDeck && newHands == oldHands
    else
      o == Pass && newDeck == oldDeck[2 * |oldHands|..] &&
      forall k :: 0 <= k < |oldHands| ==> newHands[k] == oldHands[k] + oldDeck[2 * k..2 * k + 2]
  }

  /** The hands of `ps`, as values. */
  ghost function Hands(ps: seq<Player>): (hs: seq<seq<Card>>)
    reads ps
    ensures |hs| == |ps| && forall k :: 0 <= k < |ps| ==> hs[k] == ps[k].cards
  {
    seq(|ps|, k requires 0 <= k < |ps| reads ps => ps[k].cards)
  }

  /** Hands that nobody touched: a state change that leaves every card field alone
      leaves the hands as they were. */
  lemma SameHands(ps: seq<Player>, hs: seq<seq<Card>>)
    requires |hs| == |ps| && forall k :: 0 <= k < |ps| ==> ps[k].cards == hs[k]
    ensures Hands(ps) == hs
  {
  }

  /** A step that changed no hand, no list, no log and no deck (a balance, a turn
      pointer or an event, say) kept every card where it was. */
  twostate lemma CardsStay(gs: GameState)
    requires gs.players == old(gs.players) && gs.eliminatedPlayers == old(gs.eliminatedPlayers)
    requires gs.knownCards == old(gs.knownCards) && gs.deck.cards == old(gs.deck.cards)
    requires forall p :: p in old(gs.AllPlayers()) ==> p.cards == old(p.cards)
    ensures gs.AllCards() == old(gs.AllCards())
  {
    SameHands(gs.AllPlayers(), old(Hands(gs.AllPlayers())));
  }

  lemma HandsAppend(a: seq<Player>, b: seq<Player>)
    ensures Hands(a + b) == Hands(a) + Hands(b)
  {
    assert |Hands(a + b)| == |Hands(a) + Hands(b)|;
    forall k | 0 <= k < |a + b| ensures Hands(a + b)[k] == (Hands(a) + Hands(b))[k] {
      if k < |a| {
        assert (a + b)[k] == a[k];
      } else {
        assert (a + b)[k] == b[k - |a|];
      }
    }
  }

  lemma HandsRemoveAt(ps: seq<Player>, i: nat)
    requires i < |ps|
    ensures Hands(RemoveAt(ps, i)) == RemoveAt(Hands(ps), i)
  {
    assert |Hands(RemoveAt(ps, i))| == |RemoveAt(Hands(ps), i)|;
    forall k | 0 <= k < |ps| - 1 ensures Hands(RemoveAt(ps, i))[k] == RemoveAt(Hands(ps), i)[k] {
      if k < i {
        assert RemoveAt(ps, i)[k] == ps[k];
      } else {
        assert RemoveAt(ps, i)[k] == ps[k + 1];
      }
    }
  }

  class GameState {
    var currentTurnPlayerIndex: int
    const deck: Deck
    /** Every discarded card, in discard order. */
    var knownCards: seq<Card>
    /** The players still in the game, in seat order; the match shares this list. */
    var players: seq<Player>
    var eliminatedPlayers: seq<Player>
    var events: seq<Event>
    const uuid: string

    ghost function AllPlayers(): seq<Player>
      reads this`players, this`eliminatedPlayers
    {
      players + eliminatedPlayers
    }

    /** No player object is listed twice, in or out of the game, and uuids are unique. */
    ghost predicate Valid()
      reads this`players, this`eliminatedPlayers
    {
      Distinct(AllPlayers()) && UniqueUuids(AllPlayers())
    }

    /** No balance is negative. */
    ghost predicate CoinsNonNegative()
      reads this`players, this`eliminatedPlayers, players`coins, eliminatedPlayers`coins
    {
      forall p :: p in AllPlayers() ==> p.coins >= 0
    }

    /** Every card in the game: deck, hands of players in and out, and the discard log. */
    ghost function AllCards(): multiset<Card>
      reads this`players, this`eliminatedPlayers, this`knownCards, deck`cards, players, eliminatedPlayers
    {
      CardsIn(deck.cards, Hands(AllPlayers()), knownCards)
    }

    /** The game over `players`, with a deck sized for that many players. */
    constructor (players: seq<Player>, ids: IdSupply)
      requires ids.Valid()
      requires Distinct(players) && UniqueUuids(players)
      requires forall p :: p in players ==> p.coins >= 0
      modifies ids
      ensures Valid() && CoinsNonNegative() && fresh(deck) && ids.Valid()
      ensures this.players == players && eliminatedPlayers == [] && knownCards == []
      ensures currentTurnPlayerIndex == 0 && events == [] && uuid == "123"
      ensures |deck.cards| == 5 * CopiesPerVariant(|players|)
      ensures forall v :: multiset(Variants(deck.cards))[v] == CopiesPerVariant(|players|)
    {
      this.players := players;
      deck := new Deck(|players|, ids);
      uuid := "123";
      currentTurnPlayerIndex := 0;
      knownCards := [];
      eliminatedPlayers := [];
      events := [];
      new;
      assert AllPlayers() == players;
    }

    /** players[currentTurnPlayerIndex], or undefined (null) when the index is out of range. */
    function GetCurrentTurnPlayer(): (p: Player?)
      reads this`players, this`currentTurnPlayerIndex
      ensures p != null <==> 0 <= currentTurnPlayerIndex < |players|
      ensures p != null ==> p == players[currentTurnPlayerIndex] && p in players
    {
      if 0 <= currentTurnPlayerIndex < |players| then players[currentTurnPlayerIndex] else null
    }

    /** The first player with that uuid, or undefined (null). */
    function GetPlayerByUUID(uuid: string): (p: Player?)
      reads this`players
      ensures p != null ==> p in players && p.uuid == uuid
      ensures p == null <==> forall q :: q in players ==> q.uuid != uuid
      ensures p != null ==> p == players[IndexOfPlayer(players, uuid)]
    {
      var i := IndexOfPlayer(players, uuid);
      if i == -1 then null else players[i]
    }

    function GetPlayersCount(): (n: nat)
      reads this`players
      ensures n == |players|
    {
      |players|
    }

    /** The effect eliminatePlayer(uuid) has on the lists, index and events, relative
        to their values before the call. */
    ghost predicate EliminationOf(oldPlayers: seq<Player>, oldEliminated: seq<Player>, oldIndex: int,
                                  oldEvents: seq<Event>, uuid: string)
      reads this
    {
      var i := IndexOfPlayer(oldPlayers, uuid);
      if i == -1 then
        players == oldPlayers && eliminatedPlayers == oldEliminated &&
        currentTurnPlayerIndex == oldIndex && events == oldEvents
      else
        players == RemoveAt(oldPlayers, i) && eliminatedPlayers == oldEliminated + [oldPlayers[i]] &&
        currentTurnPlayerIndex == oldIndex - 1 && events == oldEvents + [PlayerEliminated(uuid)]
    }

    /** Moving one player between the lists keeps who is listed and all the hands. */
    lemma EliminationKeeps(oldPlayers: seq<Player>, oldEliminated: seq<Player>, oldIndex: int,
                           oldEvents: seq<Event>, uuid: string)
      requires EliminationOf(oldPlayers, oldEliminated, oldIndex, oldEvents, uuid)
      ensures multiset(AllPlayers()) == multiset(oldPlayers + oldEliminated)
      ensures SumHands(Hands(AllPlayers())) == SumHands(Hands(oldPlayers + oldEliminated))
    {
      var i := IndexOfPlayer(oldPlayers, uuid);
      if i != -1 {
        var hp, he := Hands(oldPlayers), Hands(oldEliminated);
        var rest := RemoveAt(oldPlayers, i);
        assert AllPlayers() == rest + oldEliminated + [oldPlayers[i]];
        HandsAppend(rest + oldEliminated, [oldPlayers[i]]);
        HandsAppend(rest, oldEliminated);
        HandsRemoveAt(oldPlayers, i);
        HandsAppend(oldPlayers, oldEliminated);
        assert Hands([oldPlayers[i]]) == [hp[i]];
        SumHandsMove(hp, he, i);
        assert multiset(rest) + multiset{oldPlayers[i]} == multiset(oldPlayers);
      }
    }

    /** After an elimination the game is still valid, holds the same cards, lists the
        same players and has finished no turn. */
    lemma EliminationValid(oldPlayers: seq<Player>, oldEliminated: seq<Player>, oldIndex: int,
                           oldEvents: seq<Event>, uuid: string)
      requires EliminationOf(oldPlayers, oldEliminated, oldIndex, oldEvents, uuid)
      requires Distinct(oldPlayers + oldEliminated) && UniqueUuids(oldPlayers + oldEliminated)
      ensures Valid() && multiset(AllPlayers()) == multiset(oldPlayers + oldEliminated)
      ensures AllCards() == CardsIn(deck.cards, Hands(oldPlayers + oldEliminated), knownCards)
      ensures Finished(events) == Finished(oldEvents)
      ensures forall p :: p in AllPlayers() ==> p in oldPlayers + oldEliminated
    {
      EliminationKeeps(oldPlayers, oldEliminated, oldIndex, oldEvents, uuid);
      ValidAfterShuffle(oldPlayers + oldEliminated);
      forall p | p in AllPlayers() ensures p in oldPlayers + oldEliminated {
        assert p in multiset(AllPlayers());
      }
      if IndexOfPlayer(oldPlayers, uuid) != -1 {
        assert events == oldEvents + [PlayerEliminated(uuid)];
      }
    }

    /** Moves the player with that uuid from the players to the eliminated players and
        steps the turn index back by one, whatever the player's seat. */
    method EliminatePlayer(uuid: string)
      requires Valid()
      modifies this`players, this`eliminatedPlayers, this`currentTurnPlayerIndex, this`events
      ensures Valid() && AllCards() == old(AllCards())
      ensures old(CoinsNonNegative()) ==> CoinsNonNegative()
      ensures EliminationOf(old(players), old(eliminatedPlayers), old(currentTurnPlayerIndex), old(events), uuid)
      ensures multiset(AllPlayers()) == multiset(old(AllPlayers())) && Finished(events) == Finished(old(events))
    {
      var index := IndexOfPlayer(players, uuid);
      if index == -1 {
        return;
      }
      ghost var oldPlayers, oldEliminated := players, eliminatedPlayers;
      assert AllPlayers() == oldPlayers + oldEliminated;
      ghost var hands := Hands(oldPlayers + oldEliminated);
      assert AllCards() == CardsIn(deck.cards, hands, knownCards);
      currentTurnPlayerIndex := currentTurnPlayerIndex - 1;
      var player := players[index];
      players := RemoveAt(players, index);
      eliminatedPlayers := eliminatedPlayers + [player];
      events := events + [PlayerEliminated(uuid)];
      EliminationValid(oldPlayers, oldEliminated, old(currentTurnPlayerIndex), old(events), uuid);
      assert Hands(oldPlayers + oldEliminated) == hands;
    }

    /** Valid depends only on which players are listed, not on their order. */
    lemma ValidAfterShuffle(before: seq<Player>)
      requires Distinct(before) && UniqueUuids(before)
      requires multiset(AllPlayers()) == multiset(before)
      ensures Valid()
    {
      var all := AllPlayers();
      forall i, j | 0 <= i < j < |all| ensures all[i] != all[j] && all[i].uuid != all[j].uuid {
        DistinctPermutation(before, all, i, j);
      }
    }

    /** Discards a card from `player`'s hand into the public log; a player left with
        no cards is eliminated. Player has no `getCards`; it is taken to return the
        hand. */
    method DiscardPlayerCard(cardUuid: CardId, player: Player) returns (o: Outcome)
      requires Valid() && player in AllPlayers()
      modifies this`knownCards, this`players, this`eliminatedPlayers, this`currentTurnPlayerIndex, this`events
      modifies player`cards
      ensures Valid() && AllCards() == old(AllCards())
      ensures IndexOfCard(old(player.cards), cardUuid) == -1 ==>
        o == Fail(CardNotFound) && player.cards == old(player.cards) && knownCards == old(knownCards) &&
        players == old(players) && eliminatedPlayers == old(eliminatedPlayers) &&
        currentTurnPlayerIndex == old(currentTurnPlayerIndex) && events == old(events)
      ensures IndexOfCard(old(player.cards), cardUuid) != -1 ==>
        var i := IndexOfCard(old(player.cards), cardUuid);
        o == Pass && player.cards == RemoveAt(old(player.cards), i) &&
        knownCards == old(knownCards) + [old(player.cards)[i]] &&
        if player.cards == [] then
          EliminationOf(old(players), old(eliminatedPlayers), old(currentTurnPlayerIndex), old(events), player.uuid)
        else
          players == old(players) && eliminatedPlayers == old(eliminatedPlayers) &&
          currentTurnPlayerIndex == old(currentTurnPlayerIndex) && events == old(events)
      ensures multiset(AllPlayers()) == multiset(old(AllPlayers())) && Finished(events) == Finished(old(events))
      ensures forall p :: p in old(AllPlayers()) ==> p in AllPlayers()
    {
      o := LogDiscard(cardUuid, player);
      if o.Pass? && player.cards == [] {
        ghost var ps, es, ci, ev := players, eliminatedPlayers, currentTurnPlayerIndex, events;
        EliminatePlayer(player.uuid);
        assert EliminationOf(ps, es, ci, ev, player.uuid);
      }
    }

    /** The first half of discardPlayerCard: the card leaves the hand and joins the log. */
    method LogDiscard(cardUuid: CardId, player: Player) returns (o: Outcome)
      requires Valid() && player in AllPlayers()
      modifies this`knownCards, player`cards
      ensures Valid() && AllCards() == old(AllCards())
      ensures IndexOfCard(old(player.cards), cardUuid) == -1 ==>
        o == Fail(CardNotFound) && player.cards == old(player.cards) && knownCards == old(knownCards)
      ensures IndexOfCard(old(player.cards), cardUuid) != -1 ==>
        var i := IndexOfCard(old(player.cards), cardUuid);
        o == Pass && player.cards == RemoveAt(old(player.cards), i) &&
        knownCards == old(knownCards) + [old(player.cards)[i]]
    {
      ghost var all := AllPlayers();
      ghost var hands := Hands(all);
      ghost var at :| 0 <= at < |all| && all[at] == player;
      var r := player.RemoveCardByUUID(cardUuid);
      if r.Err? {
        assert Hands(all) == hands;
        return Fail(CardNotFound);
      }
      ghost var j := IndexOfCard(hands[at], cardUuid);
      knownCards := knownCards + [r.value];
      assert AllPlayers() == all;
      assert forall k :: 0 <= k < |all| && k != at ==> all[k] != player;
      assert Hands(all) == hands[at := RemoveAt(hands[at], j)];
      DiscardKeepsCards(deck.cards, hands, old(knownCards), at, j);
      assert AllCards() == CardsIn(deck.cards, hands, old(knownCards));
      o := Pass;
    }

    /** discardPlayerCardAndAddToDeck, which DukeCase calls but GameState does not define:
        taken to remove the card from the hand and put it back into the deck with
        pushAndShuffle, without logging it and without eliminating anyone. */
    method DiscardPlayerCardAndAddToDeck(cardUuid: CardId, player: Player) returns (o: Outcome)
      requires Valid() && player in AllPlayers()
      modifies deck, player`cards
      ensures Valid() && AllCards() == old(AllCards())
      ensures IndexOfCard(old(player.cards), cardUuid) == -1 ==>
        o == Fail(CardNotFound) && player.cards == old(player.cards) && deck.cards == old(deck.cards)
      ensures IndexOfCard(old(player.cards), cardUuid) != -1 ==>
        var i := IndexOfCard(old(player.cards), cardUuid);
        o == Pass && player.cards == RemoveAt(old(player.cards), i) &&
        multiset(deck.cards) == multiset(old(deck.cards)) + multiset{old(player.cards)[i]}
    {
      ghost var all := AllPlayers();
      ghost var hands := Hands(all);
      ghost var at :| 0 <= at < |all| && all[at] == player;
      var r := player.RemoveCardByUUID(cardUuid);
      if r.Err? {
        assert Hands(all) == hands;
        return Fail(CardNotFound);
      }
      ghost var j := IndexOfCard(hands[at], cardUuid);
      deck.PushAndShuffle(r.value);
      assert forall k :: 0 <= k < |all| && k != at ==> all[k] != player;
      assert Hands(all) == hands[at := RemoveAt(hands[at], j)];
      ReturnKeepsCards(old(deck.cards), deck.cards, hands, knownCards, at, j);
      o := Pass;
    }

    /** Moves the front card of the deck to the end of `player`'s hand. */
    method DrawCardForPlayer(player: Player) returns (r: Result<Card>)
      requires Valid() && player in AllPlayers()
      modifies deck, player`cards
      ensures Valid() && AllCards() == old(AllCards())
      ensures old(deck.cards) == [] ==>
        r == Err(EmptyDeck) && deck.cards == old(deck.cards) && player.cards == old(player.cards)
      ensures old(deck.cards) != [] ==>
        r == Ok(old(deck.cards)[0]) && deck.cards == old(deck.cards)[1..] &&
        player.cards == old(player.cards) + [old(deck.cards)[0]]
    {
      ghost var all := AllPlayers();
      ghost var hands := Hands(all);
      ghost var at :| 0 <= at < |all| && all[at] == player;
      r := deck.Draw();
      if r.Err? {
        assert Hands(all) == hands;
        return;
      }
      player.AddCard(r.value);
      assert old(deck.cards) == [r.value] + deck.cards;
      assert forall k :: 0 <= k < |all| && k != at ==> all[k] != player;
      assert Hands(all) == hands[at := hands[at] + [r.value]];
      DrawKeepsCards(old(deck.cards), hands, knownCards, at);
    }

    /** Puts a card into the deck and reshuffles. */
    method PlaceCardIntoDeck(card: Card)
      modifies deck
      ensures |deck.cards| == |old(deck.cards)| + 1
      ensures multiset(deck.cards) == multiset(old(deck.cards)) + multiset{card}
    {
      deck.PushAndShuffle(card);
    }

    /** A revealed card goes back into the deck, which is reshuffled, and the player
        draws a replacement, which may be the same card. */
    method PlaceCardIntoDeckAndReceiveAnother(cardUuid: CardId, player: Player) returns (o: Outcome)
      requires Valid() && player in AllPlayers()
      modifies deck, player`cards
      ensures Valid() && AllCards() == old(AllCards())
      ensures IndexOfCard(old(player.cards), cardUuid) == -1 ==>
        o == Fail(CardNotFound) && player.cards == old(player.cards) && deck.cards == old(deck.cards)
      ensures IndexOfCard(old(player.cards), cardUuid) != -1 ==>
        var i := IndexOfCard(old(player.cards), cardUuid);
        o == Pass && Redrawn(old(player.cards), i, player.cards, old(deck.cards), deck.cards)
    {
      o := ReturnCard(cardUuid, player);
      if o.Fail? {
        return;
      }
      ghost var mid := deck.cards;
      var drawn := DrawCardForPlayer(player);
      ExchangeShape(old(player.cards), old(deck.cards), mid, IndexOfCard(old(player.cards), cardUuid));
    }

    /** The first half of placeCardIntoDeckAndReceiveAnother: the card leaves the hand
        and goes into the deck, which is reshuffled. */
    method ReturnCard(cardUuid: CardId, player: Player) returns (o: Outcome)
      requires Valid() && player in AllPlayers()
      modifies deck, player`cards
      ensures Valid() && AllCards() == old(AllCards())
      ensures IndexOfCard(old(player.cards), cardUuid) == -1 ==>
        o == Fail(CardNotFound) && player.cards == old(player.cards) && deck.cards == old(deck.cards)
      ensures IndexOfCard(old(player.cards), cardUuid) != -1 ==>
        var i := IndexOfCard(old(player.cards), cardUuid);
        o == Pass && player.cards == RemoveAt(old(player.cards), i) &&
        multiset(deck.cards) == multiset(old(deck.cards)) + multiset{old(player.cards)[i]}
    {
      ghost var all := AllPlayers();
      ghost var hands := Hands(all);
      ghost var at :| 0 <= at < |all| && all[at] == player;
      var r := player.RemoveCardByUUID(cardUuid);
      if r.Err? {
        assert Hands(all) == hands;
        return Fail(CardNotFound);
      }
      ghost var j := IndexOfCard(hands[at], cardUuid);
      PlaceCardIntoDeck(r.value);
      assert AllPlayers() == all;
      assert forall k :: 0 <= k < |all| && k != at ==> all[k] != player;
      assert Hands(all) == hands[at := RemoveAt(hands[at], j)];
      ReturnKeepsCards(old(deck.cards), deck.cards, hands, knownCards, at, j);
      assert AllCards() == CardsIn(old(deck.cards), hands, knownCards);
      o := Pass;
    }

    /** goToNextTurn: nothing with no players; with one, GAME_END and the index stays;
        otherwise the index moves one seat on, using JavaScript's remainder. */
    method GoToNextTurn()
      modifies this`currentTurnPlayerIndex, this`events
      ensures currentTurnPlayerIndex == NextTurnIndex(old(currentTurnPlayerIndex), |players|)
      ensures events == old(events) + TurnEvents(|players|)
    {
      if |players| == 0 {
        return;
      }
      if |players| == 1 {
        events := events + [GameEnd];
        return;
      }
      currentTurnPlayerIndex := JsRem(currentTurnPlayerIndex + 1, |players|);
      events := events + [TurnStart];
    }

    /** Drops the player with that uuid from the game, with their cards. An unknown uuid
        makes findIndex return -1 and splice(-1, 1) drops the last player; with no
        players the call fails. When the index found equals the turn index, the turn
        index steps back and goToNextTurn runs. */
    method RemovePlayer(uuid: string) returns (o: Outcome)
      requires Valid()
      modifies this`players, this`currentTurnPlayerIndex, this`events
      ensures Valid()
      ensures old(CoinsNonNegative()) ==> CoinsNonNegative()
      ensures old(players) == [] ==>
        o == Fail(PlayerNotFound) && players == [] &&
        currentTurnPlayerIndex == old(currentTurnPlayerIndex) && events == old(events)
      ensures old(players) != [] ==>
        var found := IndexOfPlayer(old(players), uuid);
        var k := if found == -1 then |old(players)| - 1 else found;
        o == Pass && players == RemoveAt(old(players), k) &&
        AllCards() + multiset(old(players)[k].cards) == old(AllCards()) &&
        if found == old(currentTurnPlayerIndex) then
          currentTurnPlayerIndex == NextTurnIndex(old(currentTurnPlayerIndex) - 1, |players|) &&
          events == old(events) + TurnEvents(|players|)
        else
          currentTurnPlayerIndex == old(currentTurnPlayerIndex) && events == old(events)
    {
      if players == [] {
        return Fail(PlayerNotFound);
      }
      var index := IndexOfPlayer(players, uuid);
      var k := if index == -1 then |players| - 1 else index;
      Splice(k);
      if index == currentTurnPlayerIndex {
        TurnAfterLeaving();
      }
      o := Pass;
    }

    /** The current player has left: the index steps back and goToNextTurn runs. */
    method TurnAfterLeaving()
      modifies this`currentTurnPlayerIndex, this`events
      ensures currentTurnPlayerIndex == NextTurnIndex(old(currentTurnPlayerIndex) - 1, |players|)
      ensures events == old(events) + TurnEvents(|players|)
      ensures Valid() == old(Valid()) && AllCards() == old(AllCards())
      ensures CoinsNonNegative() == old(CoinsNonNegative())
    {
      ghost var back, es := currentTurnPlayerIndex - 1, events;
      ghost var all, hands := AllPlayers(), Hands(AllPlayers());
      assert AllCards() == CardsIn(deck.cards, hands, knownCards);
      StepBack();
      GoToNextTurn();
      assert currentTurnPlayerIndex == NextTurnIndex(back, |players|) && events == es + TurnEvents(|players|);
      SameHands(all, hands);
    }

    /** The unconditional `currentTurnPlayerIndex--` of removePlayer and eliminatePlayer. */
    method StepBack()
      modifies this`currentTurnPlayerIndex
      ensures currentTurnPlayerIndex == old(currentTurnPlayerIndex) - 1
    {
      currentTurnPlayerIndex := currentTurnPlayerIndex - 1;
    }

    /** players.splice(k, 1): the player at seat k leaves, with their cards. */
    method Splice(k: nat)
      requires Valid() && k < |players|
      modifies this`players
      ensures Valid() && players == RemoveAt(old(players), k)
      ensures old(CoinsNonNegative()) ==> CoinsNonNegative()
      ensures AllCards() + multiset(old(players)[k].cards) == old(AllCards())
    {
      ghost var before := players;
      players := RemoveAt(players, k);
      RemovedValid(before, k);
      RemovedCards(before, k);
    }

    /** Dropping a player from the players list keeps Valid. */
    lemma RemovedValid(before: seq<Player>, k: nat)
      requires k < |before| && players == RemoveAt(before, k)
      requires Distinct(before + eliminatedPlayers) && UniqueUuids(before + eliminatedPlayers)
      ensures Valid() && AllPlayers() == RemoveAt(before + eliminatedPlayers, k)
      ensures forall p :: p in AllPlayers() ==> p in before + eliminatedPlayers
    {
      assert AllPlayers() == RemoveAt(before + eliminatedPlayers, k);
    }

    /** Dropping a player from the players list loses exactly their hand. */
    lemma RemovedCards(before: seq<Player>, k: nat)
      requires k < |before| && AllPlayers() == RemoveAt(before + eliminatedPlayers, k)
      ensures AllCards() + multiset(before[k].cards) == CardsIn(deck.cards, Hands(before + eliminatedPlayers), knownCards)
    {
      var hands := Hands(before + eliminatedPlayers);
      assert Hands(AllPlayers()) == RemoveAt(hands, k);
      DropHandCards(deck.cards, hands, knownCards, k);
    }

    /** startGame: deals the initial hands (the broadcasts are not modelled); no
        balance changes. */
    method StartGame() returns (o: Outcome)
      requires Valid()
      modifies deck, players`cards
      ensures Valid() && AllCards() == old(AllCards())
      ensures DealtInitialHands(old(deck.cards), old(Hands(players)), deck.cards, Hands(players), o)
      ensures forall k :: 0 <= k < |players| ==> players[k].coins == old(players[k].coins)
    {
      o := DealInitialHands();
    }

    /** dealInitialHands with the hand size of 2: fails when the deck holds fewer than
        two cards per player, otherwise each player draws twice in seat order. */
    method DealInitialHands() returns (o: Outcome)
      requires Valid()
      modifies deck, players`cards
      ensures Valid() && AllCards() == old(AllCards())
      ensures DealtInitialHands(old(deck.cards), old(Hands(players)), deck.cards, Hands(players), o)
      ensures forall k :: 0 <= k < |players| ==> players[k].coins == old(players[k].coins)
    {
      var totalCardsNeeded := |players| * 2;
      if deck.Size() < totalCardsNeeded {
        return Fail(NotEnoughCards);
      }
      ghost var d, hands, out := deck.cards, Hands(players), Hands(eliminatedPlayers);
      HandsAppend(players, eliminatedPlayers);
      DealRounds();
      assert Hands(eliminatedPlayers) == out;
      DealtKeepsCards(d, hands, out);
      o := Pass;
    }

    /** The loop of dealInitialHands: each player in seat order draws two cards. */
    method DealRounds()
      requires Valid() && 2 * |players| <= |deck.cards|
      modifies deck, players`cards
      ensures deck.cards == old(deck.cards)[2 * |players|..]
      ensures forall k :: 0 <= k < |players| ==> players[k].coins == old(players[k].coins)
      ensures forall k :: 0 <= k < |players| ==> players[k].cards == old(players[k].cards) + old(deck.cards)[2 * k..2 * k + 2]
      ensures forall k :: 0 <= k < |eliminatedPlayers| ==> eliminatedPlayers[k].cards == old(eliminatedPlayers[k].cards)
    {
      ghost var d, hands, out := deck.cards, Hands(players), Hands(eliminatedPlayers);
      var i := 0;
      while i < |players|
        invariant 0 <= i <= |players|
        invariant deck.cards == d[2 * i..]
        invariant forall k :: 0 <= k < i ==> players[k].cards == hands[k] + d[2 * k..2 * k + 2]
        invariant forall k :: i <= k < |players| ==> players[k].cards == hands[k]
        invariant forall k :: 0 <= k < |eliminatedPlayers| ==> eliminatedPlayers[k].cards == out[k]
      {
        DealSeat(i, d, hands, out);
        i := i + 1;
      }
    }

    /** One round of the deal: seat i takes the next two cards. */
    method DealSeat(i: nat, ghost d: seq<Card>, ghost hands: seq<seq<Card>>, ghost out: seq<seq<Card>>)
      requires Valid() && i < |players| && |hands| == |players| && |out| == |eliminatedPlayers| && 2 * |players| <= |d|
      requires deck.cards == d[2 * i..]
      requires forall k :: 0 <= k < i ==> players[k].cards == hands[k] + d[2 * k..2 * k + 2]
      requires forall k :: i <= k < |players| ==> players[k].cards == hands[k]
      requires forall k :: 0 <= k < |eliminatedPlayers| ==> eliminatedPlayers[k].cards == out[k]
      modifies deck, {players[i]}`cards
      ensures deck.cards == d[2 * (i + 1)..]
      ensures forall k :: 0 <= k < i + 1 ==> players[k].cards == hands[k] + d[2 * k..2 * k + 2]
      ensures forall k :: i + 1 <= k < |players| ==> players[k].cards == hands[k]
      ensures forall k :: 0 <= k < |eliminatedPlayers| ==> eliminatedPlayers[k].cards == out[k]
    {
      SliceStep(d, i);
      DealTwo(i, players[i]);
      assert players[i].cards == hands[i] + d[2 * i..2 * i + 2];
    }

    /** After the deal, the cards are those of the deck and hands before it. */
    lemma DealtKeepsCards(d: seq<Card>, hands: seq<seq<Card>>, out: seq<seq<Card>>)
      requires |hands| == |players| && 2 * |players| <= |d| && deck.cards == d[2 * |players|..]
      requires forall k :: 0 <= k < |players| ==> players[k].cards == hands[k] + d[2 * k..2 * k + 2]
      requires Hands(eliminatedPlayers) == out
      ensures AllCards() == CardsIn(d, hands + out, knownCards)
    {
      var dealt := Dealt(d, hands);
      var all := AllPlayers();
      forall k | 0 <= k < |all| ensures Hands(all)[k] == (dealt + out)[k] {
        if k < |players| {
          assert all[k] == players[k];
        } else {
          assert all[k] == eliminatedPlayers[k - |players|];
        }
      }
      assert Hands(all) == dealt + out;
      SumHandsAppend(dealt, out);
      SumHandsAppend(hands, out);
      DealKeepsCards(d, hands);
      calc {
        AllCards();
        multiset(deck.cards) + (SumHands(dealt) + SumHands(out)) + multiset(knownCards);
        (multiset(deck.cards) + SumHands(dealt)) + SumHands(out) + multiset(knownCards);
        (multiset(d) + SumHands(hands)) + SumHands(out) + multiset(knownCards);
        CardsIn(d, hands + out, knownCards);
      }
    }

    /** The players' seats hold distinct objects, none of them eliminated. */
    lemma SeatsDistinct()
      requires Valid()
      ensures forall k, m :: 0 <= k < m < |players| ==> players[k] != players[m]
      ensures forall k, m :: 0 <= k < |players| && 0 <= m < |eliminatedPlayers| ==> players[k] != eliminatedPlayers[m]
    {
      var all := AllPlayers();
      forall k, m | 0 <= k < m < |players| ensures players[k] != players[m] {
        assert all[k] == players[k] && all[m] == players[m];
      }
      forall k, m | 0 <= k < |players| && 0 <= m < |eliminatedPlayers| ensures players[k] != eliminatedPlayers[m] {
        assert all[k] == players[k] && all[|players| + m] == eliminatedPlayers[m];
      }
    }

    /** `player`, in seat i, draws two cards. */
    method DealTwo(i: nat, player: Player)
      requires Valid() && i < |players| && players[i] == player && |deck.cards| >= 2
      modifies deck, player`cards
      ensures Valid() && AllCards() == old(AllCards())
      ensures deck.cards == old(deck.cards)[2..]
      ensures player.cards == old(player.cards) + old(deck.cards)[..2]
      ensures forall k :: 0 <= k < |players| && k != i ==> players[k].cards == old(players[k].cards)
      ensures forall k :: 0 <= k < |eliminatedPlayers| ==> eliminatedPlayers[k].cards == old(eliminatedPlayers[k].cards)
    {
      SeatsDistinct();
      assert AllPlayers()[i] == player;
      var first := DrawCardForPlayer(player);
      var second := DrawCardForPlayer(player);
      TwoDraws(old(player.cards), old(deck.cards));
    }
  }

  /** A permutation of a sequence without repeats has none either. */
  lemma DistinctPermutation(before: seq<Player>, after: seq<Player>, i: nat, j: nat)
    requires Distinct(before) && UniqueUuids(before)
    requires multiset(after) == multiset(before)
    requires i < j < |after|
    ensures after[i] != after[j] && after[i].uuid != after[j].uuid
  {
    assert after[i] in multiset(before) && after[j] in multiset(before);
    var a :| 0 <= a < |before| && before[a] == after[i];
    var b :| 0 <= b < |before| && before[b] == after[j];
    if a == b {
      var rest := after[..i] + after[i + 1..];
      assert after == after[..i] + [after[i]] + after[i + 1..];
      assert after[j] == rest[j - 1];
      assert multiset(after) == multiset(rest) + multiset{after[i]};
      assert after[i] in multiset(rest);
      assert multiset(before)[after[i]] >= 2;
      CountOfDistinct(before, a);
      assert false;
    }
  }

  /** In a sequence without repeats each element occurs once. */
  lemma {:induction false} CountOfDistinct(s: seq<Player>, a: nat)
    requires Distinct(s) && a < |s|
    ensures multiset(s)[s[a]] == 1
  {
    if |s| > 1 {
      var init := s[..|s| - 1];
      assert s == init + [s[|s| - 1]];
      assert Distinct(init);
      if a < |s| - 1 {
        CountOfDistinct(init, a);
        assert s[a] == init[a];
        assert s[|s| - 1] != s[a];
      } else {
        assert s[a] !in init;
      }
    } else {
      assert s == [s[a]];
    }
  }
}
