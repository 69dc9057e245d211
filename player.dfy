/** A player (coup-backend/src/core/entities/Player.ts): a hand of cards and a coin
    balance, both updated in place; name and uuid are fixed. */
module Players {
  import opened Errors
  import opened Cards

  /** Array.prototype.findIndex on the card ids: the first position holding `id`,
      or -1 when no card has it. */
  function IndexOfCard(cs: seq<Card>, id: CardId): (i: int)
    ensures -1 <= i < |cs|
    ensures 0 <= i ==> cs[i].uuid == id && forall k :: 0 <= k < i ==> cs[k].uuid != id
    ensures i == -1 <==> forall k :: 0 <= k < |cs| ==> cs[k].uuid != id
  {
    if cs == [] then -1
    else if cs[0].uuid == id then 0
    else
      var j := IndexOfCard(cs[1..], id);
      if j == -1 then -1 else j + 1
  }

  /** Array.prototype.find on the card ids. */
  function FindCard(cs: seq<Card>, id: CardId): (r: Option<Card>)
    ensures r.Some? ==> r.value in cs && r.value.uuid == id
    ensures r.None? <==> forall c :: c in cs ==> c.uuid != id
  {
    var i := IndexOfCard(cs, id);
    if i == -1 then None else Some(cs[i])
  }

  /** A card pushed at the end does not move the first position of an id the hand
      already holds. */
  lemma IndexOfAppend(cs: seq<Card>, c: Card, id: CardId)
    requires IndexOfCard(cs, id) != -1
    ensures IndexOfCard(cs + [c], id) == IndexOfCard(cs, id)
  {
    var i := IndexOfCard(cs, id);
    assert (cs + [c])[i] == cs[i];
    assert forall k :: 0 <= k < i ==> (cs + [c])[k] == cs[k];
  }

  /** Whether some card in `cs` has id `id`. */
  predicate Holds(cs: seq<Card>, id: CardId) {
    exists c :: c in cs && c.uuid == id
  }

  /** splice(i, 1): the sequence without position i. */
  function RemoveAt<T>(s: seq<T>, i: nat): (r: seq<T>)
    requires i < |s|
    ensures |r| == |s| - 1
    ensures forall k :: 0 <= k < i ==> r[k] == s[k]
    ensures forall k :: i <= k < |r| ==> r[k] == s[k + 1]
    ensures multiset(r) + multiset{s[i]} == multiset(s)
  {
    assert s == s[..i] + [s[i]] + s[i + 1..];
    s[..i] + s[i + 1..]
  }

  /** What broadcasts show of a player: no card variants, only how many cards. */
  datatype PublicProfile = PublicProfile(uuid: string, name: string, coins: int, cardsCount: nat)

  class Player {
    var cards: seq<Card>
    var coins: int
    const name: string
    /** The socket id of the player's connection. */
    const uuid: string

    /** A new player holds one fresh Duke and 4 coins. */
    constructor (name: string, uuid: string, ids: IdSupply)
      requires ids.Valid()
      modifies ids
      ensures ids.Valid()
      ensures this.name == name && this.uuid == uuid
      ensures |cards| == 1 && cards[0].variant == Duke && cards[0].uuid !in old(ids.issued)
      ensures ids.issued == old(ids.issued) + {cards[0].uuid}
      ensures coins == 4
    {
      this.name := name;
      this.uuid := uuid;
      var duke := NewCard(ids, Duke);
      cards := [duke];
      coins := 4;
    }

    /** Removes the first card with id `id` and returns it; fails, changing nothing,
        when no card has that id. */
    method RemoveCardByUUID(id: CardId) returns (r: Result<Card>)
      modifies this`cards
      ensures IndexOfCard(old(cards), id) == -1 ==> r == Err(CardNotFound) && cards == old(cards)
      ensures IndexOfCard(old(cards), id) != -1 ==>
        var i := IndexOfCard(old(cards), id);
        r == Ok(old(cards)[i]) && cards == RemoveAt(old(cards), i)
      ensures r.Ok? ==> r.value.uuid == id && multiset(cards) + multiset{r.value} == multiset(old(cards))
    {
      var index := IndexOfCard(cards, id);
      if index < 0 {
        return Err(CardNotFound);
      }
      r := Ok(cards[index]);
      cards := RemoveAt(cards, index);
    }

    /** Appends a card at the end of the hand. */
    method AddCard(card: Card)
      modifies this`cards
      ensures cards == old(cards) + [card]
    {
      cards := cards + [card];
    }

    /** The card with id `id`, if held. */
    function GetCardByUUID(id: CardId): (r: Option<Card>)
      reads this`cards
      ensures r.Some? <==> Holds(cards, id)
      ensures r.Some? ==> r.value in cards && r.value.uuid == id
      ensures r.Some? ==> r.value == cards[IndexOfCard(cards, id)]
    {
      FindCard(cards, id)
    }

    /** Raises the balance by `amount`. */
    method AddCoins(amount: int)
      modifies this`coins
      ensures coins == old(coins) + amount
    {
      coins := coins + amount;
    }

    /** Lowers the balance by `amount`, failing without change when the player has
        fewer coins than that. */
    method RemoveCoins(amount: int) returns (o: Outcome)
      modifies this`coins
      ensures amount > old(coins) ==> o == Fail(InsufficientFunds) && coins == old(coins)
      ensures amount <= old(coins) ==> o == Pass && coins == old(coins) - amount
      ensures old(coins) >= 0 ==> coins >= 0
    {
      if amount > coins {
        return Fail(InsufficientFunds);
      }
      coins := coins - amount;
      o := Pass;
    }

    function GetCoinsAmount(): (n: int)
      reads this`coins
      ensures n == coins
    {
      coins
    }

    /** The summary sent to every client. */
    function GetPublicProfile(): (p: PublicProfile)
      reads this`cards, this`coins
      ensures p.uuid == uuid && p.name == name && p.coins == coins
      ensures p.cardsCount == |cards|
    {
      PublicProfile(uuid, name, coins, |cards|)
    }
  }

  /** The profile reveals the number of cards but not which: two hands of the same
      size give the same profile. */
  lemma ProfileHidesVariants(a: Player, b: Player)
    requires a.uuid == b.uuid && a.name == b.name && a.coins == b.coins && |a.cards| == |b.cards|
    ensures a.GetPublicProfile() == b.GetPublicProfile()
  {
  }

  /** findIndex and find agree: the card found is the one at the found index. */
  lemma {:induction false} FindAgreesWithIndex(cs: seq<Card>, id: CardId)
    ensures FindCard(cs, id).Some? <==> IndexOfCard(cs, id) != -1
    ensures Holds(cs, id) <==> IndexOfCard(cs, id) != -1
  {
    if IndexOfCard(cs, id) == -1 {
      assert !Holds(cs, id);
    } else {
      assert cs[IndexOfCard(cs, id)] in cs;
    }
  }
}
