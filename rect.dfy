/**
 * `rect<T>` of source/tornasol/rect.cc: two corners a and b. Width and
 * height are measured from a to b, and both `contains` tests are inclusive.
 */
module Rect {
  import opened Vector
  import opened Size

  datatype Rect = Rect(a: Vec2, b: Vec2)

  /** `rect(size2<T> size)`: a at the origin, b at (w, h). */
  function FromSize(s: Size2): Rect
  {
    Rect([0.0, 0.0], [s.w, s.h])
  }

  function Width(r: Rect): real { X(r.b) - X(r.a) }

  function Height(r: Rect): real { Y(r.b) - Y(r.a) }

  function Area(r: Rect): real { Width(r) * Height(r) }

  /** `center()`: half the width and half the height. */
  function Center(r: Rect): Vec2 { [Width(r) / 2.0, Height(r) / 2.0] }

  /** `explicit operator size2<T>()`. */
  function ToSize(r: Rect): Size2 { Size2(Width(r), Height(r)) }

  /** `contains(vec2<T> point)`. */
  predicate ContainsPoint(r: Rect, p: Vec2)
  {
    X(p) >= X(r.a) && X(p) <= X(r.b) && Y(p) >= Y(r.a) && Y(p) <= Y(r.b)
  }

  /** `contains(rect<T> rect)`. */
  predicate ContainsRect(r: Rect, s: Rect)
  {
    X(r.a) <= X(s.a) && Y(r.a) <= Y(s.a) && X(r.b) >= X(s.b) && Y(r.b) >= Y(s.b)
  }

  /** Corner a lies at or before corner b on both axes. */
  predicate Ordered(r: Rect)
  {
    X(r.a) <= X(r.b) && Y(r.a) <= Y(r.b)
  }

  function Translate(r: Rect, d: Vec2): Rect
  {
    Rect(Sum(r.a, d), Sum(r.b, d))
  }

  // ---------------------------------------------------------------------
  // Properties.
  // ---------------------------------------------------------------------

  /** A rect built from a size has its corner at the origin and converts back to the same size. */
  lemma SizeRoundTrip(s: Size2)
    ensures FromSize(s).a == [0.0, 0.0]
    ensures ToSize(FromSize(s)) == s
    ensures Area(FromSize(s)) == s.w * s.h
  {
  }

  /** `center()` is an offset from a: translating the rect does not move it. */
  lemma CenterIsOffset(r: Rect, d: Vec2)
    ensures Center(Translate(r, d)) == Center(r)
    ensures Width(Translate(r, d)) == Width(r) && Height(Translate(r, d)) == Height(r)
  {
  }

  /** a + center() is inside every ordered rect. */
  lemma CenterInside(r: Rect)
    requires Ordered(r)
    ensures ContainsPoint(r, Sum(r.a, Center(r)))
  {
  }

  /** Point containment is inclusive: an ordered rect contains its four corners. */
  lemma ContainsCorners(r: Rect)
    ensures Ordered(r) <==> ContainsPoint(r, r.a)
    ensures Ordered(r) <==> ContainsPoint(r, r.b)
    ensures Ordered(r) ==> ContainsPoint(r, [X(r.a), Y(r.b)]) && ContainsPoint(r, [X(r.b), Y(r.a)])
  {
  }

  /** Every rect contains itself. */
  lemma ContainsSelf(r: Rect)
    ensures ContainsRect(r, r)
  {
  }

  /** Rect containment is transitive. */
  lemma ContainsTransitive(r: Rect, s: Rect, t: Rect)
    requires ContainsRect(r, s) && ContainsRect(s, t)
    ensures ContainsRect(r, t)
  {
  }

  /**
   * r contains the ordered rect s exactly when every point contained in s is
   * contained in r.
   */
  lemma ContainsRectIffPoints(r: Rect, s: Rect)
    requires Ordered(s)
    ensures ContainsRect(r, s) <==> forall p: Vec2 :: ContainsPoint(s, p) ==> ContainsPoint(r, p)
  {
    if forall p: Vec2 :: ContainsPoint(s, p) ==> ContainsPoint(r, p) {
      assert ContainsPoint(s, s.a) && ContainsPoint(s, s.b);
    }
  }
}
