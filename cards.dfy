/** Cards (coup-backend/src/core/entities/Card.ts) and the supply of fresh card ids
    that stands for crypto.randomUUID. */
module Cards {
  import opened Errors

  /** A card id. The source draws a random UUID string; here ids are numbers issued
      by an IdSupply, which is what makes them fresh. */
  type CardId = nat

  /** The five variants a deck is built from, in the order Deck.ts lists them. */
  datatype Variant = Ambassador | Assassin | Captain | Duke | Condessa

  /** A card: its two fields are readonly in the source, so a card is a value. */
  datatype Card = Card(uuid: CardId, variant: Variant)

  /** The object toJSON returns. */
  datatype CardJson = CardJson(uuid: CardId, variant: Variant)

  /** `equals`: two cards are equal when their ids are, whatever their variants; the
      same card is always equal to itself. */
  function Equals(a: Card, b: Card): (r: bool)
    ensures a == b ==> r
    ensures r <==> a.uuid == b.uuid
  {
    a.uuid == b.uuid
  }

  lemma EqualsIffSameUuid(a: Card, b: Card)
    ensures Equals(a, b) <==> a.uuid == b.uuid
    ensures Equals(a, b) <==> Equals(b, a)
    ensures Equals(a, a)
  {
  }

  /** `equals` compares ids only, so it is coarser than value equality: any two
      cards that share an id but not a variant are equal and yet different. */
  lemma EqualsIgnoresVariant(a: Card, b: Card)
    requires a.uuid == b.uuid && a.variant != b.variant
    ensures Equals(a, b) && a != b
  {
  }

  /** `toJSON`: exactly the id and the variant. */
  function ToJSON(c: Card): (j: CardJson)
    ensures FromJSON(j) == c
  {
    CardJson(c.uuid, c.variant)
  }

  /** What JSON.parse yields for a serialized card, read back as a card; this is how
      Player.getCardsClone copies a hand. */
  function FromJSON(j: CardJson): Card {
    Card(j.uuid, j.variant)
  }

  /** Serializing two cards gives the same object exactly when they are the same card. */
  lemma ToJSONInjective(a: Card, b: Card)
    ensures ToJSON(a) == ToJSON(b) <==> a == b
  {
    assert FromJSON(ToJSON(a)) == a;
    assert FromJSON(ToJSON(b)) == b;
  }

  /** The fresh-id supply: every id it hands out is one it never handed out before. */
  class IdSupply {
    var next: nat
    ghost var issued: set<CardId>

    ghost predicate Valid()
      reads this
    {
      forall id :: id in issued ==> id < next
    }

    constructor ()
      ensures Valid() && issued == {}
    {
      next := 0;
      issued := {};
    }

    method Fresh() returns (id: CardId)
      requires Valid()
      modifies this
      ensures Valid()
      ensures id !in old(issued) && issued == old(issued) + {id}
      ensures id == old(next) && next == old(next) + 1
    {
      id := next;
      next := next + 1;
      issued := issued + {id};
    }
  }

  /** `new Card(variant)`: a card of that variant with a fresh id. */
  method NewCard(ids: IdSupply, variant: Variant) returns (c: Card)
    requires ids.Valid()
    modifies ids
    ensures ids.Valid()
    ensures c.variant == variant
    ensures c.uuid !in old(ids.issued) && ids.issued == old(ids.issued) + {c.uuid}
    ensures c.uuid == old(ids.next) && ids.next == old(ids.next) + 1
  {
    var id := ids.Fresh();
    c := Card(id, variant);
  }
}
