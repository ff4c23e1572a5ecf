/**
 * The suit lookup tables of source/blackjack/card.cc, and the data a card
 * entity carries. `card_suit` is an enum class over the underlying values
 * 1..4; a cast can produce any other value, which both lookups map to "".
 */
module Cards {
  import opened Vector

  /** The underlying value of a `card_suit`. */
  type Suit = int

  const Clubs: Suit := 1
  const Diamonds: Suit := 2
  const Hearts: Suit := 3
  const Spades: Suit := 4

  predicate IsSuit(s: Suit)
  {
    Clubs <= s <= Spades
  }

  /** An unsigned 8-bit value, the type of a card's number. */
  type Byte = x: int | 0 <= x < 256

  /** The data of a `card`: its suit, its number and the position of its transform. */
  datatype Card = Card(suit: Suit, number: Byte, pos: Vec3)

  /** `suit_name(suit)`. */
  function SuitName(s: Suit): (name: string)
    ensures name == "" <==> !IsSuit(s)
  {
    if s == Clubs then "clubs"
    else if s == Diamonds then "diamonds"
    else if s == Hearts then "hearts"
    else if s == Spades then "spades"
    else ""
  }

  /** `suit_pip(suit)`: one symbol per suit. */
  function SuitPip(s: Suit): (pip: string)
    ensures IsSuit(s) ==> |pip| == 1
    ensures !IsSuit(s) ==> pip == ""
  {
    if s == Clubs then "\U{2663}"
    else if s == Diamonds then "\U{2666}"
    else if s == Hearts then "\U{2665}"
    else if s == Spades then "\U{2660}"
    else ""
  }

  /** Distinct suits have distinct names. */
  lemma SuitNameInjective(s: Suit, t: Suit)
    requires IsSuit(s) && IsSuit(t) && SuitName(s) == SuitName(t)
    ensures s == t
  {
  }

  /** Distinct suits have distinct pips. */
  lemma SuitPipInjective(s: Suit, t: Suit)
    requires IsSuit(s) && IsSuit(t) && SuitPip(s) == SuitPip(t)
    ensures s == t
  {
  }

  /** Both tables cover exactly the same values. */
  lemma NameAndPipAgree(s: Suit)
    ensures SuitName(s) == "" <==> SuitPip(s) == ""
  {
  }
}
