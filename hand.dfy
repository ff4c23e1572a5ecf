/**
 * `hand` of source/blackjack/hand.cc: the cards a player holds, their value
 * and their layout around the hand's position. `card::get_value` is not
 * defined in the repository, so each hand carries the per-card value as an
 * abstract function.
 */
module Hand {
  import opened Vector
  import opened Cards

  /** Value of a hand: the sum of its cards' values, accumulated from the first card on. */
  function Value(cards: seq<Card>, valueOf: Card -> int): int
  {
    if cards == [] then 0 else Value(cards[..|cards| - 1], valueOf) + valueOf(cards[|cards| - 1])
  }

  /** Horizontal spacing of consecutive cards, and the range of the layout jitter. */
  const Spacing: int := 50
  const JitterX: int := 10
  const JitterY: int := 5

  /** Card `i` lies in its slot: x within [pivot.x + 50i, pivot.x + 50i + 10], y within [pivot.y, pivot.y + 5]. */
  predicate InSlot(c: Card, pivot: Vec3, i: nat)
  {
    && X(pivot) + (Spacing * i) as real <= X(c.pos) <= X(pivot) + (Spacing * i + JitterX) as real
    && Y(pivot) <= Y(c.pos) <= Y(pivot) + JitterY as real
  }

  /** Number and suit of every card of `a` and `b` agree position by position. */
  predicate SameFaces(a: seq<Card>, b: seq<Card>)
  {
    |a| == |b| && forall i :: 0 <= i < |a| ==> a[i].number == b[i].number && a[i].suit == b[i].suit
  }

  class Hand {
    var cards: seq<Card>
    /** The position of the hand's transform, the pivot of the layout. */
    var pos: Vec3
    /** `card::get_value`. */
    const cardValue: Card -> int

    constructor(pos: Vec3, cardValue: Card -> int)
      ensures cards == [] && this.pos == pos && this.cardValue == cardValue
    {
      cards := [];
      this.pos := pos;
      this.cardValue := cardValue;
    }

    /** `get_size()`. */
    function GetSize(): nat
      reads this
    {
      |cards|
    }

    /** `get_value()`: a loop accumulating the card values. */
    method GetValue() returns (v: int)
      ensures v == Value(cards, cardValue)
    {
      v := 0;
      var i := 0;
      while i < |cards|
        invariant 0 <= i <= |cards|
        invariant v == Value(cards[..i], cardValue)
      {
        assert cards[..i + 1][..i] == cards[..i];
        v := v + cardValue(cards[i]);
        i := i + 1;
      }
      assert cards[..i] == cards;
    }

    /** `is_blackjack()`: exactly two cards worth 21. */
    predicate IsBlackjack()
      reads this
    {
      |cards| == 2 && Value(cards, cardValue) == 21
    }

    /** `is_bust()`: worth more than 21. */
    predicate IsBust()
      reads this
    {
      Value(cards, cardValue) > 21
    }

    /**
     * `arrange()`: card i moves to its slot, x by a random whole offset in
     * [0, 10] and y by one in [0, 5]; nothing else about the cards changes.
     */
    method Arrange()
      modifies this
      ensures pos == old(pos) && SameFaces(cards, old(cards))
      ensures forall i :: 0 <= i < |cards| ==> InSlot(cards[i], pos, i) && Z(cards[i].pos) == Z(old(cards)[i].pos)
    {
      var i := 0;
      while i < |cards|
        invariant 0 <= i <= |cards| && pos == old(pos) && SameFaces(cards, old(cards))
        invariant forall k :: 0 <= k < i ==> InSlot(cards[k], pos, k)
        invariant forall k :: 0 <= k < |cards| ==> Z(cards[k].pos) == Z(old(cards)[k].pos)
      {
        var dx: int :| 0 <= dx <= JitterX;
        var dy: int :| 0 <= dy <= JitterY;
        var c := cards[i];
        var p: Vec3 := [X(pos) + (Spacing * i) as real + dx as real, Y(pos) + dy as real, Z(c.pos)];
        cards := cards[i := c.(pos := p)];
        i := i + 1;
      }
    }

    /** `add_card(num, suit)`: appends a card at the origin, then rearranges. */
    method AddCard(num: Byte, suit: Suit)
      modifies this
      ensures GetSize() == old(GetSize()) + 1 && pos == old(pos)
      ensures SameFaces(cards[..|cards| - 1], old(cards))
      ensures cards[|cards| - 1].number == num && cards[|cards| - 1].suit == suit
      ensures forall i :: 0 <= i < |cards| ==> InSlot(cards[i], pos, i)
      ensures forall i :: 0 <= i < |old(cards)| ==> Z(cards[i].pos) == Z(old(cards)[i].pos)
      ensures Z(cards[|cards| - 1].pos) == 0.0
    {
      cards := cards + [Card(suit, num, [0.0, 0.0, 0.0])];
      ghost var appended := cards;
      Arrange();
      assert SameFaces(cards, appended);
    }

    /** `remove_card(num, suit)`: its body is commented out, so nothing changes. */
    method RemoveCard(num: Byte, suit: Suit)
      ensures cards == old(cards)
    {
    }
  }

  // ---------------------------------------------------------------------
  // Properties of the hand value.
  // ---------------------------------------------------------------------

  /** The value of a concatenation is the sum of the values. */
  lemma {:induction false} ValueConcat(a: seq<Card>, b: seq<Card>, valueOf: Card -> int)
    ensures Value(a + b, valueOf) == Value(a, valueOf) + Value(b, valueOf)
    decreases |b|
  {
    if b == [] {
      assert a + b == a;
    } else {
      var b' := b[..|b| - 1];
      assert (a + b)[..|a + b| - 1] == a + b';
      ValueConcat(a, b', valueOf);
    }
  }

  /** Card values that are never negative make a longer hand worth at least as much. */
  lemma ValueGrows(a: seq<Card>, b: seq<Card>, valueOf: Card -> int)
    requires forall i :: 0 <= i < |b| ==> valueOf(b[i]) >= 0
    ensures Value(a + b, valueOf) >= Value(a, valueOf)
  {
    ValueConcat(a, b, valueOf);
    ValueNonNegative(b, valueOf);
  }

  lemma {:induction false} ValueNonNegative(cards: seq<Card>, valueOf: Card -> int)
    requires forall i :: 0 <= i < |cards| ==> valueOf(cards[i]) >= 0
    ensures Value(cards, valueOf) >= 0
    decreases |cards|
  {
    if cards != [] {
      ValueNonNegative(cards[..|cards| - 1], valueOf);
    }
  }

  /** The value does not depend on the order of the cards. */
  lemma {:induction false} ValueOrderFree(a: seq<Card>, b: seq<Card>, valueOf: Card -> int)
    requires multiset(a) == multiset(b)
    ensures Value(a, valueOf) == Value(b, valueOf)
    decreases |a|
  {
    if a != [] {
      var last := a[|a| - 1];
      var a' := a[..|a| - 1];
      assert a == a' + [last];
      assert multiset(a') == multiset(a) - multiset{last};
      assert last in multiset(b);
      var j :| 0 <= j < |b| && b[j] == last;
      assert b == b[..j] + [last] + b[j + 1..];
      TakeOut(b[..j], last, b[j + 1..], valueOf);
      ValueOrderFree(a', b[..j] + b[j + 1..], valueOf);
    } else {
      assert |b| == |multiset(b)| == 0;
    }
  }

  /** Taking a card out of a hand takes its value and one copy of it out. */
  lemma TakeOut(l: seq<Card>, c: Card, r: seq<Card>, valueOf: Card -> int)
    ensures multiset(l + r) == multiset(l + [c] + r) - multiset{c}
    ensures Value(l + [c] + r, valueOf) == Value(l + r, valueOf) + valueOf(c)
  {
    ValueConcat(l + [c], r, valueOf);
    ValueConcat(l, r, valueOf);
    assert (l + [c])[..|l + [c]| - 1] == l;
  }

  /** A blackjack is worth exactly 21 and a bust more, so no hand is both. */
  lemma BlackjackIsNotBust(h: Hand)
    ensures !(h.IsBlackjack() && h.IsBust())
  {
  }

  /** With non-negative card values, a bust hand stays bust whatever cards are added. */
  lemma BustStaysBust(a: seq<Card>, b: seq<Card>, valueOf: Card -> int)
    requires Value(a, valueOf) > 21
    requires forall i :: 0 <= i < |b| ==> valueOf(b[i]) >= 0
    ensures Value(a + b, valueOf) > 21
  {
    ValueGrows(a, b, valueOf);
  }
}
