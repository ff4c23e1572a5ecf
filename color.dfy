/**
 * `color` of source/tornasol/color.cc: four float channels r, g, b, a,
 * modelled as exact reals. Division by a zero channel or scalar is left out
 * (it gives an IEEE infinity in the source), so the dividing operators
 * require non-zero divisors.
 */
module Color {
  import opened Vector

  datatype Color = Color(r: real, g: real, b: real, a: real)

  /** `color(r, g, b)`: alpha defaults to 1. */
  function Rgb(r: real, g: real, b: real): Color
  {
    Color(r, g, b, 1.0)
  }

  /** `(hex >> shift) & 0xFF`, with the shift written as division by 2^shift. */
  function ByteAt(hex: nat, unit: nat): nat
    requires unit > 0
  {
    (hex / unit) % 256
  }

  predicate IsU32(hex: nat)
  {
    hex < 0x1_0000_0000
  }

  predicate InUnitRange(x: real)
  {
    0.0 <= x <= 1.0
  }

  predicate IsUnit(c: Color)
  {
    InUnitRange(c.r) && InUnitRange(c.g) && InUnitRange(c.b) && InUnitRange(c.a)
  }

  /** `color(u32 hex)`: the value is read as 0xRRGGBBAA, each byte scaled by 1/255. */
  function FromHex(hex: nat): (c: Color)
    requires IsU32(hex)
    ensures IsUnit(c)
  {
    Color(ByteAt(hex, 0x100_0000) as real / 255.0, ByteAt(hex, 0x1_0000) as real / 255.0,
          ByteAt(hex, 0x100) as real / 255.0, ByteAt(hex, 1) as real / 255.0)
  }

  /** `explicit operator vec3<>()`. */
  function ToVec3(c: Color): Vec3 { [c.r, c.g, c.b] }

  /** `operator vec4<>()`. */
  function ToVec4(c: Color): Vec4 { [c.r, c.g, c.b, c.a] }

  /** `darken(c, percent)`: r, g, b scaled by 1 - percent; alpha kept. */
  function Darken(c: Color, percent: real): (d: Color)
    ensures d.a == c.a
  {
    Color(c.r * (1.0 - percent), c.g * (1.0 - percent), c.b * (1.0 - percent), c.a)
  }

  /** `lighten(c, percent)`: r, g, b moved towards 1 by percent; alpha kept. */
  function Lighten(c: Color, percent: real): (d: Color)
    ensures d.a == c.a
  {
    Color(c.r + (1.0 - c.r) * percent, c.g + (1.0 - c.g) * percent, c.b + (1.0 - c.b) * percent, c.a)
  }

  /** The alpha `blend` computes before its branch. */
  function BlendAlpha(under: Color, over: Color): real
  {
    under.a * (1.0 - over.a) + over.a
  }

  /** `blend(under, over)`: "over" compositing, transparent black when the result has no alpha. */
  function Blend(under: Color, over: Color): (c: Color)
    ensures BlendAlpha(under, over) == 0.0 <==> c == Color(0.0, 0.0, 0.0, 0.0)
    ensures BlendAlpha(under, over) != 0.0 ==> c.a == BlendAlpha(under, over)
  {
    var alpha := BlendAlpha(under, over);
    if alpha == 0.0 then Color(0.0, 0.0, 0.0, 0.0)
    else Color((under.r * under.a * (1.0 - over.a) + over.r * over.a) / alpha,
               (under.g * under.a * (1.0 - over.a) + over.g * over.a) / alpha,
               (under.b * under.a * (1.0 - over.a) + over.b * over.a) / alpha,
               alpha)
  }

  /** `lerp(from, to, percent)` on all four channels. */
  function Lerp(from: Color, to: Color, percent: real): Color
  {
    Color((1.0 - percent) * from.r + percent * to.r, (1.0 - percent) * from.g + percent * to.g,
          (1.0 - percent) * from.b + percent * to.b, (1.0 - percent) * from.a + percent * to.a)
  }

  function Add(l: Color, r: Color): Color { Color(l.r + r.r, l.g + r.g, l.b + r.b, l.a + r.a) }

  function Sub(l: Color, r: Color): Color { Color(l.r - r.r, l.g - r.g, l.b - r.b, l.a - r.a) }

  function Mul(l: Color, r: Color): Color { Color(l.r * r.r, l.g * r.g, l.b * r.b, l.a * r.a) }

  predicate NonZero(c: Color)
  {
    c.r != 0.0 && c.g != 0.0 && c.b != 0.0 && c.a != 0.0
  }

  function Div(l: Color, r: Color): Color
    requires NonZero(r)
  {
    Color(l.r / r.r, l.g / r.g, l.b / r.b, l.a / r.a)
  }

  function MulScalar(c: Color, s: real): Color { Color(c.r * s, c.g * s, c.b * s, c.a * s) }

  /** `scalar * color` is defined as `color * scalar`. */
  function ScalarMul(s: real, c: Color): Color { MulScalar(c, s) }

  function DivScalar(c: Color, s: real): Color
    requires s != 0.0
  {
    Color(c.r / s, c.g / s, c.b / s, c.a / s)
  }

  /** `scalar / color` is defined as `color / scalar`. */
  function ScalarDiv(s: real, c: Color): Color
    requires s != 0.0
  {
    DivScalar(c, s)
  }

  /** Unary `operator -`: the reciprocal of every channel. */
  function Neg(c: Color): Color
    requires NonZero(c)
  {
    Color(1.0 / c.r, 1.0 / c.g, 1.0 / c.b, 1.0 / c.a)
  }

  // ---------------------------------------------------------------------
  // Properties.
  // ---------------------------------------------------------------------

  /** Shifting right past the low bits leaves the high part. */
  lemma DropLowBits(x: nat, hi: nat, lo: nat, unit: nat)
    requires unit == 0x100 || unit == 0x1_0000 || unit == 0x100_0000
    requires x == hi * unit + lo && lo < unit
    ensures x / unit == hi && x % unit == lo
  {
    if unit == 0x100 {
      assert x == hi * 0x100 + lo;
    } else if unit == 0x1_0000 {
      assert x == hi * 0x1_0000 + lo;
    } else {
      assert x == hi * 0x100_0000 + lo;
    }
  }

  /** The four bytes of 0xRRGGBBAA come back out of `color(u32 hex)` as RR, GG, BB, AA over 255. */
  lemma FromHexBytes(rr: nat, gg: nat, bb: nat, aa: nat)
    requires rr < 256 && gg < 256 && bb < 256 && aa < 256
    ensures IsU32(rr * 0x100_0000 + gg * 0x1_0000 + bb * 0x100 + aa)
    ensures FromHex(rr * 0x100_0000 + gg * 0x1_0000 + bb * 0x100 + aa) ==
      Color(rr as real / 255.0, gg as real / 255.0, bb as real / 255.0, aa as real / 255.0)
  {
    var hex := rr * 0x100_0000 + gg * 0x1_0000 + bb * 0x100 + aa;
    DropLowBits(hex, rr, gg * 0x1_0000 + bb * 0x100 + aa, 0x100_0000);
    DropLowBits(hex, rr * 0x100 + gg, bb * 0x100 + aa, 0x1_0000);
    DropLowBits(hex, rr * 0x1_0000 + gg * 0x100 + bb, aa, 0x100);
    DropLowBits(rr * 0x100 + gg, rr, gg, 0x100);
    DropLowBits(rr * 0x1_0000 + gg * 0x100 + bb, rr * 0x100 + gg, bb, 0x100);
  }

  /** The 3-argument constructor makes an opaque colour. */
  lemma RgbIsOpaque(r: real, g: real, b: real)
    ensures Rgb(r, g, b).a == 1.0 && ToVec3(Rgb(r, g, b)) == [r, g, b]
  {
  }

  /** With percent 0 `darken` and `lighten` return their input; with percent 1 they reach black and white. */
  lemma DarkenLightenEndpoints(c: Color)
    ensures Darken(c, 0.0) == c && Lighten(c, 0.0) == c
    ensures Darken(c, 1.0) == Color(0.0, 0.0, 0.0, c.a)
    ensures Lighten(c, 1.0) == Color(1.0, 1.0, 1.0, c.a)
  {
  }

  lemma MulNonNegative(x: real, y: real)
    requires x >= 0.0 && y >= 0.0
    ensures x * y >= 0.0
  {
  }

  lemma MixInUnit(x: real, p: real)
    requires InUnitRange(x) && InUnitRange(p)
    ensures InUnitRange(x * (1.0 - p)) && InUnitRange(x + (1.0 - x) * p)
  {
    MulNonNegative(x, 1.0 - p);
    MulNonNegative(1.0 - x, 1.0 - p);
    MulNonNegative(1.0 - x, p);
    assert 1.0 - x * (1.0 - p) == (1.0 - x) * (1.0 - p) + p;
    assert 1.0 - (x + (1.0 - x) * p) == (1.0 - x) * (1.0 - p);
  }

  /** For a percent in [0, 1], `darken` and `lighten` keep every channel in [0, 1]. */
  lemma DarkenLightenStayInUnit(c: Color, p: real)
    requires IsUnit(c) && InUnitRange(p)
    ensures IsUnit(Darken(c, p)) && IsUnit(Lighten(c, p))
  {
    MixInUnit(c.r, p);
    MixInUnit(c.g, p);
    MixInUnit(c.b, p);
  }

  /** Blending under an opaque colour gives that colour. */
  lemma BlendOpaqueOver(under: Color, over: Color)
    requires over.a == 1.0
    ensures Blend(under, over) == over
  {
  }

  /** Blending under a fully transparent colour keeps the colour below, when that has alpha. */
  lemma BlendTransparentOver(under: Color, over: Color)
    requires over.a == 0.0 && under.a != 0.0
    ensures Blend(under, over) == under
  {
    assert BlendAlpha(under, over) == under.a;
    assert under.r * under.a * (1.0 - over.a) + over.r * over.a == under.r * under.a;
    assert under.g * under.a * (1.0 - over.a) + over.g * over.a == under.g * under.a;
    assert under.b * under.a * (1.0 - over.a) + over.b * over.a == under.b * under.a;
    assert (under.r * under.a) / under.a == under.r;
    assert (under.g * under.a) / under.a == under.g;
    assert (under.b * under.a) / under.a == under.b;
  }

  /** For alphas in [0, 1] the blended alpha stays in [0, 1]. */
  lemma BlendAlphaInUnit(under: Color, over: Color)
    requires InUnitRange(under.a) && InUnitRange(over.a)
    ensures InUnitRange(Blend(under, over).a)
  {
    MulNonNegative(under.a, 1.0 - over.a);
    MulNonNegative(1.0 - under.a, 1.0 - over.a);
    assert 1.0 - BlendAlpha(under, over) == (1.0 - under.a) * (1.0 - over.a);
  }

  /** `lerp` starts at `from` and ends at `to`. */
  lemma LerpEndpoints(from: Color, to: Color)
    ensures Lerp(from, to, 0.0) == from && Lerp(from, to, 1.0) == to
  {
  }

  /** Unary minus takes reciprocals, so applying it twice gives the colour back; it is not negation. */
  lemma NegIsReciprocal(c: Color)
    requires NonZero(c)
    ensures NonZero(Neg(c)) && Neg(Neg(c)) == c
    ensures Mul(c, Neg(c)) == Color(1.0, 1.0, 1.0, 1.0)
  {
  }

  /** `scalar / color` is `color / scalar`: 2 / white is (0.5, 0.5, 0.5, 0.5), not (2, 2, 2, 2). */
  lemma ScalarDivIsColorDivScalar()
    ensures ScalarDiv(2.0, Color(1.0, 1.0, 1.0, 1.0)) == Color(0.5, 0.5, 0.5, 0.5)
    ensures ScalarDiv(2.0, Color(1.0, 1.0, 1.0, 1.0)) != Color(2.0, 2.0, 2.0, 2.0)
  {
  }

  /** Both scalar products agree, and subtraction undoes addition. */
  lemma ArithmeticLaws(c: Color, d: Color, s: real)
    ensures ScalarMul(s, c) == MulScalar(c, s)
    ensures Sub(Add(c, d), d) == c
  {
  }

  /** Division by a non-zero colour undoes the multiplication by it. */
  lemma DivUndoesMul(c: Color, d: Color)
    requires NonZero(d)
    ensures Div(Mul(c, d), d) == c
  {
    var q := Div(Mul(c, d), d);
    MulDivCancel(c.r, d.r);
    MulDivCancel(c.g, d.g);
    MulDivCancel(c.b, d.b);
    MulDivCancel(c.a, d.a);
    assert q.r == c.r && q.g == c.g && q.b == c.b && q.a == c.a;
  }

  /** Division by a non-zero scalar undoes the multiplication by it. */
  lemma DivScalarUndoesMulScalar(c: Color, s: real)
    requires s != 0.0
    ensures DivScalar(MulScalar(c, s), s) == c
  {
    var q := DivScalar(MulScalar(c, s), s);
    MulDivCancel(c.r, s);
    MulDivCancel(c.g, s);
    MulDivCancel(c.b, s);
    MulDivCancel(c.a, s);
    assert q.r == c.r && q.g == c.g && q.b == c.b && q.a == c.a;
  }

  lemma MulDivCancel(x: real, y: real)
    requires y != 0.0
    ensures (x * y) / y == x
  {
  }
}
