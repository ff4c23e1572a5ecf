/**
 * `size2<T>` of source/tornasol/size.cc: a width and a height with
 * componentwise and scalar operators. T is modelled as an exact real.
 */
module Size {

  datatype Size2 = Size2(w: real, h: real)

  predicate NonZero(s: Size2)
  {
    s.w != 0.0 && s.h != 0.0
  }

  function Add(l: Size2, r: Size2): Size2 { Size2(l.w + r.w, l.h + r.h) }

  function Sub(l: Size2, r: Size2): Size2 { Size2(l.w - r.w, l.h - r.h) }

  function Mul(l: Size2, r: Size2): Size2 { Size2(l.w * r.w, l.h * r.h) }

  function Div(l: Size2, r: Size2): Size2
    requires NonZero(r)
  {
    Size2(l.w / r.w, l.h / r.h)
  }

  /** `size * scalar`. */
  function MulScalar(s: Size2, k: real): Size2 { Size2(s.w * k, s.h * k) }

  /** `scalar * size`, written with the scalar on the left. */
  function ScalarMul(k: real, s: Size2): Size2 { Size2(k * s.w, k * s.h) }

  /** `size / scalar`. */
  function DivScalar(s: Size2, k: real): Size2
    requires k != 0.0
  {
    Size2(s.w / k, s.h / k)
  }

  /** `scalar / size`: the scalar divided by each component. */
  function ScalarDiv(k: real, s: Size2): Size2
    requires NonZero(s)
  {
    Size2(k / s.w, k / s.h)
  }

  // ---------------------------------------------------------------------
  // Properties.
  // ---------------------------------------------------------------------

  /** The defaulted `operator ==` compares both fields. */
  lemma EqualIffComponents(l: Size2, r: Size2)
    ensures l == r <==> l.w == r.w && l.h == r.h
  {
  }

  /** Subtraction undoes addition. */
  lemma AddSubRoundTrip(a: Size2, b: Size2)
    ensures Sub(Add(a, b), b) == a
  {
  }

  /** Componentwise division undoes componentwise multiplication. */
  lemma MulDivRoundTrip(a: Size2, b: Size2)
    requires NonZero(b)
    ensures Div(Mul(a, b), b) == a
  {
    assert (a.w * b.w) / b.w == a.w;
    assert (a.h * b.h) / b.h == a.h;
  }

  /** `size * k` and `k * size` agree. */
  lemma ScalarMulCommutes(s: Size2, k: real)
    ensures MulScalar(s, k) == ScalarMul(k, s)
  {
  }

  /** Dividing by k undoes scaling by k. */
  lemma ScaleDivRoundTrip(s: Size2, k: real)
    requires k != 0.0
    ensures DivScalar(MulScalar(s, k), k) == s
  {
    assert (s.w * k) / k == s.w;
    assert (s.h * k) / k == s.h;
  }

  /** `k / size` applied twice with the same non-zero k gives the size back. */
  lemma ScalarDivInvolution(k: real, s: Size2)
    requires k != 0.0 && NonZero(s)
    ensures NonZero(ScalarDiv(k, s))
    ensures ScalarDiv(k, ScalarDiv(k, s)) == s
  {
    assert k / (k / s.w) == s.w;
    assert k / (k / s.h) == s.h;
  }

  /** `k / size` is not `size / k`: 2 / (1, 1) is (2, 2) while (1, 1) / 2 is (0.5, 0.5). */
  lemma ScalarDivDiffersFromDivScalar()
    ensures ScalarDiv(2.0, Size2(1.0, 1.0)) != DivScalar(Size2(1.0, 1.0), 2.0)
  {
    assert ScalarDiv(2.0, Size2(1.0, 1.0)).w == 2.0;
  }
}
