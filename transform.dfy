/**
 * The affine helpers of source/tornasol/transform.cc: `move` and `scale`
 * update a 4 x 4 matrix in place (the caller's `mat4` passed by reference,
 * modelled as an `array2` whose entry [i, j] is column i, row j) and return
 * it; `ortho` builds a fresh projection matrix.
 */
module Transform {
  import opened Vector
  import opened Matrix

  /** The value of a matrix held in place. */
  function Entries(m: array2<real>): (r: Mat)
    reads m
    ensures IsMat(r, m.Length0, m.Length1)
  {
    seq(m.Length0, i requires 0 <= i < m.Length0 reads m =>
      seq(m.Length1, j requires 0 <= j < m.Length1 reads m => m[i, j]))
  }

  /** Replace entry (i, j). */
  function Set(a: Mat, i: nat, j: nat, x: real): (r: Mat)
    requires i < |a| && j < |a[i]|
    ensures |r| == |a| && forall k :: 0 <= k < |a| ==> |r[k]| == |a[k]|
  {
    a[i := a[i][j := x]]
  }

  /** What `move` leaves in the matrix: v added to the translation column. */
  function Moved(a: Mat, v: Vec3): Mat
    requires IsMat(a, 4, 4)
  {
    Set(Set(Set(a, 3, 0, a[3][0] + X(v)), 3, 1, a[3][1] + Y(v)), 3, 2, a[3][2] + Z(v))
  }

  /** What `scale` leaves in the matrix: the first three diagonal entries multiplied by v. */
  function ScaledBy(a: Mat, v: Vec3): Mat
    requires IsMat(a, 4, 4)
  {
    Set(Set(Set(a, 0, 0, a[0][0] * X(v)), 1, 1, a[1][1] * Y(v)), 2, 2, a[2][2] * Z(v))
  }

  /** `move(m, v)`: updates m in place and returns the same matrix. */
  method Move(m: array2<real>, v: Vec3) returns (r: array2<real>)
    requires m.Length0 == 4 && m.Length1 == 4
    modifies m
    ensures r == m
    ensures Entries(m) == Moved(old(Entries(m)), v)
  {
    ghost var before := Entries(m);
    m[3, 0] := m[3, 0] + X(v);
    m[3, 1] := m[3, 1] + Y(v);
    m[3, 2] := m[3, 2] + Z(v);
    r := m;
    MovedEntries(before, v);
    SameEntries(Entries(m), Moved(before, v), 4, 4);
  }

  /** `scale(m, v)`: updates m in place and returns the same matrix. */
  method Scale(m: array2<real>, v: Vec3) returns (r: array2<real>)
    requires m.Length0 == 4 && m.Length1 == 4
    modifies m
    ensures r == m
    ensures Entries(m) == ScaledBy(old(Entries(m)), v)
  {
    ghost var before := Entries(m);
    m[0, 0] := m[0, 0] * X(v);
    m[1, 1] := m[1, 1] * Y(v);
    m[2, 2] := m[2, 2] * Z(v);
    r := m;
    ghost var after := Entries(m);
    assert after[0][0] == before[0][0] * X(v) && after[1][1] == before[1][1] * Y(v) && after[2][2] == before[2][2] * Z(v);
    assert forall i, j :: 0 <= i < 4 && 0 <= j < 4 && !(i == j && i < 3) ==> after[i][j] == before[i][j];
    ScaledFrom(before, after, v);
  }

  /** A matrix that differs from `a` only by the three scaled diagonal entries is `ScaledBy(a, v)`. */
  lemma ScaledFrom(a: Mat, b: Mat, v: Vec3)
    requires IsMat(a, 4, 4) && IsMat(b, 4, 4)
    requires b[0][0] == a[0][0] * X(v) && b[1][1] == a[1][1] * Y(v) && b[2][2] == a[2][2] * Z(v)
    requires forall i, j :: 0 <= i < 4 && 0 <= j < 4 && !(i == j && i < 3) ==> b[i][j] == a[i][j]
    ensures b == ScaledBy(a, v)
  {
    ScaledEntries(a, v);
    SameEntries(b, ScaledBy(a, v), 4, 4);
  }

  /**
   * `ortho(left, right, bottom, top, near, far)`: the identity with six
   * entries replaced; each divisor must be non-zero.
   */
  function Ortho(l: real, r: real, b: real, t: real, n: real, f: real): (m: Mat)
    requires r != l && t != b && f != n
    ensures IsMat(m, 4, 4)
    ensures m[0][0] == 2.0 / (r - l) && m[1][1] == 2.0 / (t - b) && m[2][2] == -2.0 / (f - n)
    ensures m[3][0] == -(r + l) / (r - l) && m[3][1] == -(t + b) / (t - b) && m[3][2] == -(f + n) / (f - n)
    ensures forall i, j :: 0 <= i < 4 && 0 <= j < 4 && !(i == j && i < 3) && !(i == 3 && j < 3) ==>
      m[i][j] == if i == j then 1.0 else 0.0
  {
    var id := Identity(4);
    var m := Set(Set(Set(id, 0, 0, 2.0 / (r - l)), 1, 1, 2.0 / (t - b)), 2, 2, -2.0 / (f - n));
    Set(Set(Set(m, 3, 0, -(r + l) / (r - l)), 3, 1, -(t + b) / (t - b)), 3, 2, -(f + n) / (f - n))
  }

  /** `ortho(left, right, bottom, top)`: near = -1 and far = 1. */
  function Ortho2D(l: real, r: real, b: real, t: real): (m: Mat)
    requires r != l && t != b
    ensures IsMat(m, 4, 4)
    ensures m[2][2] == -1.0 && m[3][2] == 0.0 && m[3][3] == 1.0
    ensures m[0][0] == 2.0 / (r - l) && m[1][1] == 2.0 / (t - b)
  {
    Ortho(l, r, b, t, -1.0, 1.0)
  }

  // ---------------------------------------------------------------------
  // Properties.
  // ---------------------------------------------------------------------

  /** `move` adds v to entries [3][0], [3][1], [3][2] and leaves every other entry alone. */
  lemma MovedEntries(a: Mat, v: Vec3)
    requires IsMat(a, 4, 4)
    ensures IsMat(Moved(a, v), 4, 4)
    ensures forall i, j :: 0 <= i < 4 && 0 <= j < 4 ==>
      Moved(a, v)[i][j] == if i == 3 && j < 3 then a[i][j] + v[j] else a[i][j]
  {
  }

  /** Two moves are one move by the summed vector. */
  lemma MoveTwice(a: Mat, u: Vec3, v: Vec3)
    requires IsMat(a, 4, 4)
    ensures Moved(Moved(a, u), v) == Moved(a, Sum(u, v))
  {
    MovedEntries(a, u);
    MovedEntries(Moved(a, u), v);
    MovedEntries(a, Sum(u, v));
    SameEntries(Moved(Moved(a, u), v), Moved(a, Sum(u, v)), 4, 4);
  }

  /** `scale` multiplies the three diagonal entries and leaves everything else, the translation column included. */
  lemma ScaledEntries(a: Mat, v: Vec3)
    requires IsMat(a, 4, 4)
    ensures IsMat(ScaledBy(a, v), 4, 4)
    ensures forall i, j :: 0 <= i < 4 && 0 <= j < 4 ==>
      ScaledBy(a, v)[i][j] == if i == j && i < 3 then a[i][j] * v[i] else a[i][j]
    ensures ScaledBy(a, v)[3] == a[3]
  {
  }

  /** Entry i of `m * p` for a 4 x 4 matrix, unfolded by one term. */
  lemma AppliedStep(a: Mat, p: Vec4, i: nat, k: nat)
    requires IsMat(a, 4, 4) && i < 4 && k < 4
    ensures AppliedEntry(a, p, i, k + 1) == AppliedEntry(a, p, i, k) + a[k][i] * p[k]
  {
  }

  /** Entry i of `m * p` for a 4 x 4 matrix, term by term. */
  lemma AppliedSteps(a: Mat, p: Vec4, i: nat)
    requires IsMat(a, 4, 4) && i < 4
    ensures AppliedEntry(a, p, i, 0) == 0.0
    ensures forall k :: 0 <= k < 4 ==> AppliedEntry(a, p, i, k + 1) == AppliedEntry(a, p, i, k) + a[k][i] * p[k]
  {
    forall k | 0 <= k < 4
      ensures AppliedEntry(a, p, i, k + 1) == AppliedEntry(a, p, i, k) + a[k][i] * p[k]
    {
      AppliedStep(a, p, i, k);
    }
  }

  /** Moving the identity by v gives the matrix that translates every point by v. */
  lemma MovedIdentityTranslates(v: Vec3, p: Vec3)
    ensures IsMat(Moved(Identity(4), v), 4, 4)
    ensures Applied(Moved(Identity(4), v), Extend(p, 1.0), 4, 4) == Extend(Sum(p, v), 1.0)
  {
    var a := Moved(Identity(4), v);
    MovedEntries(Identity(4), v);
    forall i | 0 <= i < 4
      ensures Applied(a, Extend(p, 1.0), 4, 4)[i] == Extend(Sum(p, v), 1.0)[i]
    {
      AppliedSteps(a, Extend(p, 1.0), i);
    }
  }

  /** Scaling the identity by v gives the matrix that scales every point componentwise. */
  lemma ScaledIdentityScales(v: Vec3, p: Vec3)
    ensures IsMat(ScaledBy(Identity(4), v), 4, 4)
    ensures Applied(ScaledBy(Identity(4), v), Extend(p, 1.0), 4, 4) ==
      [p[0] * v[0], p[1] * v[1], p[2] * v[2], 1.0]
  {
    var a := ScaledBy(Identity(4), v);
    ScaledEntries(Identity(4), v);
    forall i | 0 <= i < 4
      ensures Applied(a, Extend(p, 1.0), 4, 4)[i] == [p[0] * v[0], p[1] * v[1], p[2] * v[2], 1.0][i]
    {
      AppliedSteps(a, Extend(p, 1.0), i);
    }
  }

  lemma OrthoAxis(lo: real, hi: real)
    requires hi != lo
    ensures 2.0 / (hi - lo) * lo - (hi + lo) / (hi - lo) == -1.0
    ensures 2.0 / (hi - lo) * hi - (hi + lo) / (hi - lo) == 1.0
  {
    assert 2.0 / (hi - lo) * lo - (hi + lo) / (hi - lo) == (lo - hi) / (hi - lo);
    assert 2.0 / (hi - lo) * hi - (hi + lo) / (hi - lo) == (hi - lo) / (hi - lo);
  }

  /** `ortho` maps a point (x, y, z) to (sx * x + tx, sy * y + ty, sz * z + tz), one axis at a time. */
  lemma OrthoApplied(l: real, r: real, b: real, t: real, n: real, f: real, q: Vec4)
    requires r != l && t != b && f != n && q[3] == 1.0
    ensures Applied(Ortho(l, r, b, t, n, f), q, 4, 4) ==
      [ 2.0 / (r - l) * q[0] - (r + l) / (r - l),
        2.0 / (t - b) * q[1] - (t + b) / (t - b),
        -2.0 / (f - n) * q[2] - (f + n) / (f - n),
        1.0 ]
  {
    var m := Ortho(l, r, b, t, n, f);
    AppliedSteps(m, q, 0);
    AppliedSteps(m, q, 1);
    AppliedSteps(m, q, 2);
    AppliedSteps(m, q, 3);
    assert m[1][0] == 0.0 && m[2][0] == 0.0 && m[0][1] == 0.0 && m[2][1] == 0.0 && m[0][2] == 0.0 && m[1][2] == 0.0;
    assert m[0][3] == 0.0 && m[1][3] == 0.0 && m[2][3] == 0.0 && m[3][3] == 1.0;
    NegDiv(r + l, r - l);
    NegDiv(t + b, t - b);
    NegDiv(f + n, f - n);
    var res := Applied(m, q, 4, 4);
    assert res[0] == AppliedEntry(m, q, 0, 4) == m[0][0] * q[0] + m[3][0];
    assert res[1] == AppliedEntry(m, q, 1, 4) == m[1][1] * q[1] + m[3][1];
    assert res[2] == AppliedEntry(m, q, 2, 4) == m[2][2] * q[2] + m[3][2];
    assert res[3] == AppliedEntry(m, q, 3, 4) == 1.0;
    assert res[0] == 2.0 / (r - l) * q[0] - (r + l) / (r - l);
    assert res[1] == 2.0 / (t - b) * q[1] - (t + b) / (t - b);
    assert res[2] == -2.0 / (f - n) * q[2] - (f + n) / (f - n);
  }

  lemma NegDiv(x: real, y: real)
    requires y != 0.0
    ensures -x / y == -(x / y)
  {
  }

  /**
   * `ortho` maps the corner (left, bottom, -near) of the view box to (-1, -1, -1)
   * and the corner (right, top, -far) to (1, 1, 1).
   */
  lemma OrthoMapsViewBox(l: real, r: real, b: real, t: real, n: real, f: real)
    requires r != l && t != b && f != n
    ensures Applied(Ortho(l, r, b, t, n, f), [l, b, -n, 1.0], 4, 4) == [-1.0, -1.0, -1.0, 1.0]
    ensures Applied(Ortho(l, r, b, t, n, f), [r, t, -f, 1.0], 4, 4) == [1.0, 1.0, 1.0, 1.0]
  {
    OrthoApplied(l, r, b, t, n, f, [l, b, -n, 1.0]);
    OrthoApplied(l, r, b, t, n, f, [r, t, -f, 1.0]);
    OrthoAxis(l, r);
    OrthoAxis(b, t);
    OrthoAxis(n, f);
    assert -2.0 / (f - n) * -n == 2.0 / (f - n) * n;
    assert -2.0 / (f - n) * -f == 2.0 / (f - n) * f;
    var p0 := Applied(Ortho(l, r, b, t, n, f), [l, b, -n, 1.0], 4, 4);
    var p1 := Applied(Ortho(l, r, b, t, n, f), [r, t, -f, 1.0], 4, 4);
    assert p0[0] == -1.0 && p0[1] == -1.0 && p0[2] == -1.0 && p0[3] == 1.0;
    assert p1[0] == 1.0 && p1[1] == 1.0 && p1[2] == 1.0 && p1[3] == 1.0;
  }
}
