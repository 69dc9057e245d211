/** The deck (coup-backend/src/core/entities/Deck.ts): built with a fixed number of
    copies of each variant, shuffled in place, drawn from the front and refilled. */
module Decks {
  import opened Errors
  import opened Cards

  /** CARD_VARIANTS, in the order the constructor walks it. */
  const CardVariants: seq<Variant> := [Ambassador, Assassin, Captain, Duke, Condessa]

  /** Three copies of each variant for up to five players, four beyond: never
      fewer copies for more players, and enough cards to deal two to each of up to
      ten players. */
  function CopiesPerVariant(playersAmount: int): (c: nat)
    ensures 3 <= c <= 4
    ensures c == 3 <==> playersAmount <= 5
    ensures playersAmount <= 10 ==> 2 * playersAmount <= |CardVariants| * c
  {
    if playersAmount <= 5 then 3 else 4
  }

  /** `count` copies of one variant. */
  function Repeat(v: Variant, count: nat): (vs: seq<Variant>)
    ensures |vs| == count && forall k :: 0 <= k < count ==> vs[k] == v
  {
    if count == 0 then [] else Repeat(v, count - 1) + [v]
  }

  /** The variants of the freshly built deck, before the shuffle: `copies` of the
      first variant, then `copies` of the second, and so on. */
  function Layout(vs: seq<Variant>, copies: nat): seq<Variant> {
    if vs == [] then [] else Layout(vs[..|vs| - 1], copies) + Repeat(vs[|vs| - 1], copies)
  }

  /** The variants of a sequence of cards, in order. */
  function Variants(cs: seq<Card>): (vs: seq<Variant>)
    ensures |vs| == |cs| && forall k :: 0 <= k < |cs| ==> vs[k] == cs[k].variant
  {
    if cs == [] then [] else Variants(cs[..|cs| - 1]) + [cs[|cs| - 1].variant]
  }

  /** The cards the constructor pushes, before the shuffle: ids `first`, `first + 1`,
      ... in push order, variants as laid out. */
  function InitialCards(first: CardId, copies: nat): (cs: seq<Card>)
    ensures Variants(cs) == Layout(CardVariants, copies)
    ensures forall k :: 0 <= k < |cs| ==> cs[k].uuid == first + k
  {
    var layout := Layout(CardVariants, copies);
    var cs := seq(|layout|, k requires 0 <= k < |layout| => Card(first + k, layout[k]));
    assert Variants(cs) == layout;
    cs
  }

  /** The ids of the freshly built deck are pairwise distinct. */
  lemma InitialCardsDistinct(first: CardId, copies: nat, i: nat, j: nat)
    requires i < j < |InitialCards(first, copies)|
    ensures InitialCards(first, copies)[i].uuid != InitialCards(first, copies)[j].uuid
  {
  }

  lemma {:induction false} LayoutLength(vs: seq<Variant>, copies: nat)
    ensures |Layout(vs, copies)| == |vs| * copies
  {
    if vs != [] {
      var init := vs[..|vs| - 1];
      LayoutLength(init, copies);
      assert |Layout(vs, copies)| == |Layout(init, copies)| + copies;
      assert |init| * copies + copies == (|init| + 1) * copies;
    }
  }

  /** With no variant listed twice, each listed variant occurs `copies` times in the
      layout and any other not at all. */
  lemma {:induction false} LayoutCount(vs: seq<Variant>, copies: nat, v: Variant)
    requires forall i, j :: 0 <= i < j < |vs| ==> vs[i] != vs[j]
    ensures multiset(Layout(vs, copies))[v] == if v in vs then copies else 0
  {
    if vs != [] {
      var init, last := vs[..|vs| - 1], vs[|vs| - 1];
      assert vs == init + [last];
      LayoutCount(init, copies, v);
      RepeatCount(last, copies, v);
      assert multiset(Layout(vs, copies)) == multiset(Layout(init, copies)) + multiset(Repeat(last, copies));
      assert v in vs <==> v in init || v == last;
      assert last !in init;
    }
  }

  lemma {:induction false} RepeatCount(w: Variant, count: nat, v: Variant)
    ensures multiset(Repeat(w, count))[v] == if v == w then count else 0
  {
    if count > 0 {
      RepeatCount(w, count - 1, v);
    }
  }

  /** A deck for `playersAmount` players holds 5 * copies cards: 15 up to five
      players, 20 beyond. */
  lemma InitialDeckSize(first: CardId, playersAmount: int)
    ensures |InitialCards(first, CopiesPerVariant(playersAmount))| == (if playersAmount <= 5 then 15 else 20)
    ensures playersAmount == 4 ==> |InitialCards(first, CopiesPerVariant(playersAmount))| == 15
  {
    LayoutLength(CardVariants, CopiesPerVariant(playersAmount));
  }

  /** Each of the five variants occurs exactly `copies` times in the new deck. */
  lemma InitialVariantCount(first: CardId, copies: nat, v: Variant)
    ensures multiset(Variants(InitialCards(first, copies)))[v] == copies
  {
    CardVariantsDistinct();
    CardVariantsComplete(v);
    LayoutCount(CardVariants, copies, v);
  }

  lemma CardVariantsDistinct()
    ensures forall i, j :: 0 <= i < j < |CardVariants| ==> CardVariants[i] != CardVariants[j]
  {
  }

  /** CARD_VARIANTS lists every variant. */
  lemma CardVariantsComplete(v: Variant)
    ensures v in CardVariants
  {
    assert v == CardVariants[0] || v == CardVariants[1] || v == CardVariants[2] || v == CardVariants[3] || v == CardVariants[4];
  }

  lemma {:induction false} VariantsAppend(a: seq<Card>, b: seq<Card>)
    ensures Variants(a + b) == Variants(a) + Variants(b)
  {
  }

  /** Permuting cards permutes their variants, so a shuffle keeps the count of
      every variant. */
  lemma {:induction false} VariantsOfPermutation(s: seq<Card>, t: seq<Card>)
    requires multiset(s) == multiset(t)
    ensures multiset(Variants(s)) == multiset(Variants(t))
  {
    if s == [] {
      assert |t| == |multiset(t)| == 0;
    } else {
      var x := s[|s| - 1];
      assert x in multiset(t);
      var j :| 0 <= j < |t| && t[j] == x;
      var t' := t[..j] + t[j + 1..];
      assert t == t[..j] + [x] + t[j + 1..];
      assert s == s[..|s| - 1] + [x];
      assert multiset(t) == multiset(t[..j]) + multiset{x} + multiset(t[j + 1..]);
      assert multiset(t') == multiset(t[..j]) + multiset(t[j + 1..]);
      assert multiset(s) == multiset(s[..|s| - 1]) + multiset{x};
      assert multiset(s[..|s| - 1]) == multiset(s) - multiset{x};
      assert multiset(t') == multiset(t) - multiset{x};
      VariantsOfPermutation(s[..|s| - 1], t');
      VariantsAppend(t[..j] + [x], t[j + 1..]);
      VariantsAppend(t[..j], [x]);
      VariantsAppend(t[..j], t[j + 1..]);
      VariantsAppend(s[..|s| - 1], [x]);
    }
  }

  /** Exchanging positions `i` and `j`, as the destructuring assignment in shuffle does. */
  function Swap(s: seq<Card>, i: nat, j: nat): (r: seq<Card>)
    requires i < |s| && j < |s|
    ensures |r| == |s| && multiset(r) == multiset(s)
    ensures r[i] == s[j] && r[j] == s[i]
    ensures forall k :: 0 <= k < |s| && k != i && k != j ==> r[k] == s[k]
  {
    s[i := s[j]][j := s[i]]
  }

  /** The constructor's nested loops: for each variant in order, `copies` new cards. */
  method BuildInitialCards(ids: IdSupply, copies: nat) returns (cs: seq<Card>)
    requires ids.Valid()
    modifies ids
    ensures ids.Valid() && old(ids.issued) <= ids.issued
    ensures cs == InitialCards(old(ids.next), copies)
    ensures forall c :: c in cs ==> c.uuid in ids.issued && c.uuid !in old(ids.issued)
  {
    ghost var first := ids.next;
    cs := [];
    var vi := 0;
    while vi < |CardVariants|
      invariant 0 <= vi <= |CardVariants|
      invariant ids.Valid() && ids.next == first + |cs| && old(ids.issued) <= ids.issued
      invariant Variants(cs) == Layout(CardVariants[..vi], copies)
      invariant forall k :: 0 <= k < |cs| ==> cs[k].uuid == first + k
      invariant forall c :: c in cs ==> c.uuid in ids.issued && c.uuid !in old(ids.issued)
    {
      cs := PushCopies(ids, CardVariants[vi], copies, cs);
      LayoutStep(CardVariants, vi, copies);
      vi := vi + 1;
    }
    assert CardVariants[..5] == CardVariants;
    SameCards(cs, InitialCards(first, copies), first);
  }

  /** The layout of one more variant is the layout so far and that variant's copies. */
  lemma LayoutStep(vs: seq<Variant>, i: nat, copies: nat)
    requires i < |vs|
    ensures Layout(vs[..i + 1], copies) == Layout(vs[..i], copies) + Repeat(vs[i], copies)
  {
    assert vs[..i + 1][..i] == vs[..i];
  }

  /** Cards are determined by their variants and ids. */
  lemma SameCards(cs: seq<Card>, ds: seq<Card>, first: CardId)
    requires Variants(cs) == Variants(ds)
    requires forall k :: 0 <= k < |cs| ==> cs[k].uuid == first + k
    requires forall k :: 0 <= k < |ds| ==> ds[k].uuid == first + k
    ensures cs == ds
  {
    assert |cs| == |Variants(cs)| == |Variants(ds)| == |ds|;
    forall k | 0 <= k < |cs| ensures cs[k] == ds[k] {
      assert Variants(cs)[k] == Variants(ds)[k];
    }
  }

  /** The inner loop: appends `copies` new cards of variant `v`. */
  method PushCopies(ids: IdSupply, v: Variant, copies: nat, cs0: seq<Card>) returns (cs: seq<Card>)
    requires ids.Valid()
    requires forall k :: 0 <= k < |cs0| ==> cs0[k].uuid < ids.next
    modifies ids
    ensures ids.Valid() && old(ids.issued) <= ids.issued && ids.next == old(ids.next) + copies
    ensures Variants(cs) == Variants(cs0) + Repeat(v, copies)
    ensures cs[..|cs0|] == cs0 && |cs| == |cs0| + copies
    ensures forall k :: |cs0| <= k < |cs| ==> cs[k].uuid == old(ids.next) + (k - |cs0|)
    ensures forall k :: |cs0| <= k < |cs| ==> cs[k].uuid in ids.issued && cs[k].uuid !in old(ids.issued)
  {
    cs := cs0;
    var i := 0;
    while i < copies
      invariant 0 <= i <= copies && |cs| == |cs0| + i && cs[..|cs0|] == cs0
      invariant ids.Valid() && ids.next == old(ids.next) + i && old(ids.issued) <= ids.issued
      invariant Variants(cs) == Variants(cs0) + Repeat(v, i)
      invariant forall k :: |cs0| <= k < |cs| ==> cs[k].uuid == old(ids.next) + (k - |cs0|)
      invariant forall k :: |cs0| <= k < |cs| ==> cs[k].uuid in ids.issued && cs[k].uuid !in old(ids.issued)
    {
      var card := NewCard(ids, v);
      VariantsAppend(cs, [card]);
      cs := cs + [card];
      i := i + 1;
    }
  }

  class Deck {
    /** The cards, front first: draw takes cards[0], push appends. */
    var cards: seq<Card>

    /** Builds copiesPerVariant cards of each variant, with fresh ids, then shuffles. */
    constructor (playersAmount: int, ids: IdSupply)
      requires ids.Valid()
      modifies ids
      ensures ids.Valid()
      ensures |cards| == 5 * CopiesPerVariant(playersAmount)
      ensures multiset(cards) == multiset(InitialCards(old(ids.next), CopiesPerVariant(playersAmount)))
      ensures forall v :: multiset(Variants(cards))[v] == CopiesPerVariant(playersAmount)
      ensures forall c :: c in cards ==> c.uuid in ids.issued && c.uuid !in old(ids.issued)
    {
      var copies := CopiesPerVariant(playersAmount);
      ghost var first := ids.next;
      var built := BuildInitialCards(ids, copies);
      cards := built;
      new;
      LayoutLength(CardVariants, copies);
      Shuffle();
      forall v ensures multiset(Variants(cards))[v] == copies {
        VariantsOfPermutation(cards, built);
        InitialVariantCount(first, copies, v);
      }
      forall c | c in cards ensures c.uuid in ids.issued && c.uuid !in old(ids.issued) {
        assert c in multiset(built);
      }
    }

    /** Fisher-Yates in place: the random index is any index below currentIndex,
        which is all that Math.random contributes to the result's correctness. */
    method Shuffle()
      modifies this
      ensures |cards| == |old(cards)|
      ensures multiset(cards) == multiset(old(cards))
    {
      var currentIndex := |cards|;
      while currentIndex != 0
        invariant 0 <= currentIndex <= |cards|
        invariant multiset(cards) == multiset(old(cards))
        invariant |cards| == |old(cards)|
      {
        var randomIndex :| 0 <= randomIndex < currentIndex;
        currentIndex := currentIndex - 1;
        cards := Swap(cards, currentIndex, randomIndex);
      }
    }

    /** Removes and returns the front card; on an empty deck it fails and changes nothing. */
    method Draw() returns (r: Result<Card>)
      modifies this
      ensures old(cards) == [] ==> r == Err(EmptyDeck) && cards == old(cards)
      ensures old(cards) != [] ==> r == Ok(old(cards)[0]) && cards == old(cards)[1..]
    {
      if cards == [] {
        return Err(EmptyDeck);
      }
      var card := cards[0];
      cards := cards[1..];
      r := Ok(card);
    }

    /** Inserts one card and reshuffles. */
    method PushAndShuffle(card: Card)
      modifies this
      ensures |cards| == |old(cards)| + 1
      ensures multiset(cards) == multiset(old(cards)) + multiset{card}
    {
      cards := cards + [card];
      Shuffle();
    }

    /** Appends one card at the bottom, keeping the order of the others. */
    method Push(card: Card)
      modifies this
      ensures cards == old(cards) + [card]
    {
      cards := cards + [card];
    }

    /** Appends several cards and reshuffles. */
    method PlaceCardIntoDeckAndShuffle(newCards: seq<Card>)
      modifies this
      ensures |cards| == |old(cards)| + |newCards|
      ensures multiset(cards) == multiset(old(cards)) + multiset(newCards)
    {
      cards := cards + newCards;
      Shuffle();
    }

    /** The number of cards left. */
    function Size(): (n: nat)
      reads this
      ensures n == |cards|
    {
      |cards|
    }
  }
}
