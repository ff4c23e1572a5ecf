/**
 * The vector template of source/tornasol/vector.cc.
 *
 * A `vec<T, N>` is modelled as a sequence of exact reals whose length is N;
 * the named fields x, y, z, w of the 2-, 3- and 4-component specialisations
 * are the elements at index 0, 1, 2 and 3 (the source reaches them through
 * `operator[]` the same way). Indexing a vector requires i < N, which is the
 * precondition of Dafny's own sequence indexing.
 */
module Vector {

  type Vec = seq<real>
  type Vec2 = v: Vec | |v| == 2 witness [0.0, 0.0]
  type Vec3 = v: Vec | |v| == 3 witness [0.0, 0.0, 0.0]
  type Vec4 = v: Vec | |v| == 4 witness [0.0, 0.0, 0.0, 0.0]

  function X(v: Vec): real requires |v| >= 1 { v[0] }
  function Y(v: Vec): real requires |v| >= 2 { v[1] }
  function Z(v: Vec): real requires |v| >= 3 { v[2] }
  function W(v: Vec): real requires |v| >= 4 { v[3] }

  // ---------------------------------------------------------------------
  // Specification functions: what each loop-based operator computes.
  // ---------------------------------------------------------------------

  function Negation(v: Vec): Vec
  {
    seq(|v|, i requires 0 <= i < |v| => -v[i])
  }

  function Sum(u: Vec, v: Vec): Vec
    requires |u| == |v|
  {
    seq(|u|, i requires 0 <= i < |u| => u[i] + v[i])
  }

  function Difference(u: Vec, v: Vec): Vec
    requires |u| == |v|
  {
    seq(|u|, i requires 0 <= i < |u| => u[i] - v[i])
  }

  function Scaled(v: Vec, s: real): Vec
  {
    seq(|v|, i requires 0 <= i < |v| => v[i] * s)
  }

  function Quotient(v: Vec, s: real): Vec
    requires s != 0.0
  {
    seq(|v|, i requires 0 <= i < |v| => v[i] / s)
  }

  function Interpolated(u: Vec, v: Vec, t: real): Vec
    requires |u| == |v|
  {
    seq(|u|, i requires 0 <= i < |u| => (1.0 - t) * u[i] + t * v[i])
  }

  /** The sum of the first n componentwise products of u and v. */
  function DotTo(u: Vec, v: Vec, n: nat): real
    requires n <= |u| && n <= |v|
  {
    if n == 0 then 0.0 else DotTo(u, v, n - 1) + u[n - 1] * v[n - 1]
  }

  function DotProduct(u: Vec, v: Vec): real
    requires |u| == |v|
  {
    DotTo(u, v, |u|)
  }

  // ---------------------------------------------------------------------
  // Operators written as expressions in the source.
  // ---------------------------------------------------------------------

  /** `operator !=` is the negation of `operator ==`. */
  function NotEqual(u: Vec, v: Vec): (r: bool)
    requires |u| == |v|
    ensures r <==> exists i :: 0 <= i < |u| && u[i] != v[i]
  {
    if u == v then false
    else
      var i :| 0 <= i < |u| && u[i] != v[i];
      true
  }

  /** `cross` for 3-component vectors. */
  function Cross(u: Vec3, v: Vec3): Vec3
  {
    [ Y(u) * Z(v) - Z(u) * Y(v),
      Z(u) * X(v) - X(u) * Z(v),
      X(u) * Y(v) - Y(u) * X(v) ]
  }

  /** `vec4(const vec3& v, T w = 0)`. */
  function Extend(v: Vec3, w: real): Vec4
  {
    [X(v), Y(v), Z(v), w]
  }

  /** Position of a swizzle letter: x, y, z, w name components 0, 1, 2, 3. */
  function LetterIndex(c: char): nat
  {
    match c
    case 'x' => 0
    case 'y' => 1
    case 'z' => 2
    case _ => 3
  }

  predicate IsLetter(c: char)
  {
    c == 'x' || c == 'y' || c == 'z' || c == 'w'
  }

  /**
   * The swizzles the source defines: two distinct letters out of x, y, z on a
   * vec3 (`xy()` ... `zy()`), three distinct letters out of x, y, z, w on a
   * vec4 (`xyz()` ... `wzy()`).
   */
  predicate ValidSwizzle(n: nat, name: string)
  {
    && ((n == 3 && |name| == 2) || (n == 4 && |name| == 3))
    && (forall k :: 0 <= k < |name| ==> IsLetter(name[k]) && LetterIndex(name[k]) < n)
    && (forall k, l :: 0 <= k < l < |name| ==> name[k] != name[l])
  }

  function Swizzle(v: Vec, name: string): (r: Vec)
    requires ValidSwizzle(|v|, name)
    ensures |r| == |v| - 1
    ensures forall k :: 0 <= k < |r| ==> r[k] in v
  {
    seq(|name|, k requires 0 <= k < |name| => v[LetterIndex(name[k])])
  }

  /**
   * A swizzle reads distinct components, so its result holds the components
   * of `v` with exactly one of them dropped (possibly reordered).
   */
  lemma SwizzleDropsOne(v: Vec, name: string)
    requires ValidSwizzle(|v|, name)
    ensures exists d :: 0 <= d < |v| && multiset(Swizzle(v, name)) == multiset(v[..d] + v[d + 1..])
  {
    var r := Swizzle(v, name);
    var i, j := LetterIndex(name[0]), LetterIndex(name[1]);
    DistinctLetters(name[0], name[1]);
    if |v| == 3 {
      var d := 3 - i - j;
      assert r == [v[i], v[j]];
      DropOneOfThree(v, i, j, d);
    } else {
      var k := LetterIndex(name[2]);
      DistinctLetters(name[0], name[2]);
      DistinctLetters(name[1], name[2]);
      var d := 6 - i - j - k;
      assert r == [v[i], v[j], v[k]];
      DropOneOfFour(v, i, j, k, d);
    }
  }

  /** Distinct swizzle letters name distinct components. */
  lemma DistinctLetters(c: char, e: char)
    requires IsLetter(c) && IsLetter(e) && c != e
    ensures LetterIndex(c) != LetterIndex(e)
  {
  }

  lemma DropOneOfThree(v: Vec, i: nat, j: nat, d: nat)
    requires |v| == 3 && i < 3 && j < 3 && i != j && d == 3 - i - j
    ensures d < 3 && multiset([v[i], v[j]]) == multiset(v[..d] + v[d + 1..])
  {
    if d == 0 {
      assert v[..d] + v[d + 1..] == [v[1], v[2]];
      if i == 1 {
        assert i == 1 && j == 2;
        assert multiset([v[1], v[2]]) == multiset([v[1], v[2]]);
      } else {
        assert i == 2 && j == 1;
        assert multiset([v[2], v[1]]) == multiset([v[1], v[2]]);
      }
    } else if d == 1 {
      assert v[..d] + v[d + 1..] == [v[0], v[2]];
      if i == 0 {
        assert i == 0 && j == 2;
        assert multiset([v[0], v[2]]) == multiset([v[0], v[2]]);
      } else {
        assert i == 2 && j == 0;
        assert multiset([v[2], v[0]]) == multiset([v[0], v[2]]);
      }
    } else {
      assert v[..d] + v[d + 1..] == [v[0], v[1]];
      if i == 0 {
        assert i == 0 && j == 1;
        assert multiset([v[0], v[1]]) == multiset([v[0], v[1]]);
      } else {
        assert i == 1 && j == 0;
        assert multiset([v[1], v[0]]) == multiset([v[0], v[1]]);
      }
    }
  }

  lemma DropOneOfFour(v: Vec, i: nat, j: nat, k: nat, d: nat)
    requires |v| == 4 && i < 4 && j < 4 && k < 4 && i != j && i != k && j != k && d == 6 - i - j - k
    ensures d < 4 && multiset([v[i], v[j], v[k]]) == multiset(v[..d] + v[d + 1..])
  {
    if d == 0 {
      assert v[..d] + v[d + 1..] == [v[1], v[2], v[3]];
      ReorderThree(v, i, j, k, 1, 2, 3);
    } else if d == 1 {
      assert v[..d] + v[d + 1..] == [v[0], v[2], v[3]];
      ReorderThree(v, i, j, k, 0, 2, 3);
    } else if d == 2 {
      assert v[..d] + v[d + 1..] == [v[0], v[1], v[3]];
      ReorderThree(v, i, j, k, 0, 1, 3);
    } else {
      assert v[..d] + v[d + 1..] == [v[0], v[1], v[2]];
      ReorderThree(v, i, j, k, 0, 1, 2);
    }
  }

  /** Three distinct positions listed in any order pick the same components as in increasing order. */
  lemma ReorderThree(v: Vec, i: nat, j: nat, k: nat, a: nat, b: nat, c: nat)
    requires i < |v| && j < |v| && k < |v| && i != j && i != k && j != k
    requires a < b < c && (i == a || i == b || i == c) && (j == a || j == b || j == c) && (k == a || k == b || k == c)
    ensures multiset([v[i], v[j], v[k]]) == multiset([v[a], v[b], v[c]])
  {
    var x, y, z := v[a], v[b], v[c];
    if i == a && j == c {
      SwapBack(x, y, z);
    } else if i == b && j == a {
      SwapFront(x, y, z);
    } else if i == b && j == c {
      SwapBack(y, x, z);
      SwapFront(x, y, z);
    } else if i == c && j == a {
      SwapFront(x, z, y);
      SwapBack(x, y, z);
    } else if i == c && j == b {
      SwapFront(y, z, x);
      SwapBack(y, x, z);
      SwapFront(x, y, z);
    }
  }

  lemma SwapFront(x: real, y: real, z: real)
    ensures multiset([y, x, z]) == multiset([x, y, z])
  {
  }

  lemma SwapBack(x: real, y: real, z: real)
    ensures multiset([x, z, y]) == multiset([x, y, z])
  {
  }

  // ---------------------------------------------------------------------
  // Loop-based operators, each proved against its specification function.
  // ---------------------------------------------------------------------

  /** `operator ==`: the first differing component answers false. */
  method Equal(u: Vec, v: Vec) returns (b: bool)
    requires |u| == |v|
    ensures b <==> forall i :: 0 <= i < |u| ==> u[i] == v[i]
    ensures b <==> u == v
  {
    var i := 0;
    while i < |u|
      invariant 0 <= i <= |u|
      invariant forall k :: 0 <= k < i ==> u[k] == v[k]
    {
      if u[i] != v[i] {
        return false;
      }
      i := i + 1;
    }
    return true;
  }

  /** Unary `operator -`. */
  method Neg(v: Vec) returns (r: Vec)
    ensures r == Negation(v)
  {
    r := [];
    var i := 0;
    while i < |v|
      invariant 0 <= i <= |v|
      invariant |r| == i && forall k :: 0 <= k < i ==> r[k] == -v[k]
    {
      r := r + [-v[i]];
      i := i + 1;
    }
  }

  /** Binary `operator +`. */
  method Add(u: Vec, v: Vec) returns (r: Vec)
    requires |u| == |v|
    ensures r == Sum(u, v)
  {
    r := [];
    var i := 0;
    while i < |u|
      invariant 0 <= i <= |u|
      invariant |r| == i && forall k :: 0 <= k < i ==> r[k] == u[k] + v[k]
    {
      r := r + [u[i] + v[i]];
      i := i + 1;
    }
  }

  /** Binary `operator -`. */
  method Sub(u: Vec, v: Vec) returns (r: Vec)
    requires |u| == |v|
    ensures r == Difference(u, v)
  {
    r := [];
    var i := 0;
    while i < |u|
      invariant 0 <= i <= |u|
      invariant |r| == i && forall k :: 0 <= k < i ==> r[k] == u[k] - v[k]
    {
      r := r + [u[i] - v[i]];
      i := i + 1;
    }
  }

  /** `operator * (vec, T)`. */
  method MulScalar(v: Vec, s: real) returns (r: Vec)
    ensures r == Scaled(v, s)
  {
    r := [];
    var i := 0;
    while i < |v|
      invariant 0 <= i <= |v|
      invariant |r| == i && forall k :: 0 <= k < i ==> r[k] == v[k] * s
    {
      r := r + [v[i] * s];
      i := i + 1;
    }
    assert forall k :: 0 <= k < |v| ==> Scaled(v, s)[k] == r[k];
  }

  /** `operator * (T, vec)` is defined as `v * s`. */
  method ScalarMul(s: real, v: Vec) returns (r: Vec)
    ensures r == Scaled(v, s)
  {
    r := MulScalar(v, s);
  }

  /** `operator / (vec, T)`; exact division needs s != 0. */
  method DivScalar(v: Vec, s: real) returns (r: Vec)
    requires s != 0.0
    ensures r == Quotient(v, s)
  {
    r := [];
    var i := 0;
    while i < |v|
      invariant 0 <= i <= |v|
      invariant |r| == i && forall k :: 0 <= k < i ==> r[k] == v[k] / s
    {
      r := r + [v[i] / s];
      i := i + 1;
    }
  }

  /** `dot`: accumulates the componentwise products. */
  method Dot(u: Vec, v: Vec) returns (r: real)
    requires |u| == |v|
    ensures r == DotProduct(u, v)
  {
    r := 0.0;
    var i := 0;
    while i < |u|
      invariant 0 <= i <= |u|
      invariant r == DotTo(u, v, i)
    {
      r := r + u[i] * v[i];
      i := i + 1;
    }
  }

  /** `lerp(u, v, percent)`. */
  method Lerp(u: Vec, v: Vec, t: real) returns (r: Vec)
    requires |u| == |v|
    ensures r == Interpolated(u, v, t)
  {
    r := [];
    var i := 0;
    while i < |u|
      invariant 0 <= i <= |u|
      invariant |r| == i && forall k :: 0 <= k < i ==> r[k] == (1.0 - t) * u[k] + t * v[k]
    {
      r := r + [(1.0 - t) * u[i] + t * v[i]];
      i := i + 1;
    }
    assert forall k :: 0 <= k < |u| ==> Interpolated(u, v, t)[k] == r[k];
  }

  // ---------------------------------------------------------------------
  // Properties.
  // ---------------------------------------------------------------------

  /** Subtracting what was added gives the vector back. */
  lemma AddSubRoundTrip(u: Vec, v: Vec)
    requires |u| == |v|
    ensures Difference(Sum(u, v), v) == u
  {
    assert forall i :: 0 <= i < |u| ==> Difference(Sum(u, v), v)[i] == u[i];
  }

  /** Unary minus is an involution, and u - v == u + (-v). */
  lemma NegationProperties(u: Vec, v: Vec)
    requires |u| == |v|
    ensures Negation(Negation(u)) == u
    ensures Difference(u, v) == Sum(u, Negation(v))
  {
    assert forall i :: 0 <= i < |u| ==> Negation(Negation(u))[i] == u[i];
    assert forall i :: 0 <= i < |u| ==> Difference(u, v)[i] == Sum(u, Negation(v))[i];
  }

  /** Dividing by s undoes scaling by s. */
  lemma ScaleDivRoundTrip(v: Vec, s: real)
    requires s != 0.0
    ensures Quotient(Scaled(v, s), s) == v
  {
    forall i | 0 <= i < |v|
      ensures Quotient(Scaled(v, s), s)[i] == v[i]
    {
      assert Scaled(v, s)[i] == v[i] * s;
      assert (v[i] * s) / s == v[i];
    }
  }

  lemma {:induction false} DotToSymmetric(u: Vec, v: Vec, n: nat)
    requires n <= |u| && n <= |v|
    ensures DotTo(u, v, n) == DotTo(v, u, n)
  {
    if n > 0 {
      DotToSymmetric(u, v, n - 1);
    }
  }

  /** `dot` is symmetric. */
  lemma DotSymmetric(u: Vec, v: Vec)
    requires |u| == |v|
    ensures DotProduct(u, v) == DotProduct(v, u)
  {
    DotToSymmetric(u, v, |u|);
  }

  lemma {:induction false} DotToPrefix(u: Vec, v: Vec, n: nat)
    requires |u| == |v| && n <= |u|
    ensures DotTo(u, v, n) == DotProduct(u[..n], v[..n])
  {
    if n > 0 {
      DotToPrefix(u[..n - 1], v[..n - 1], n - 1);
      assert u[..n][..n - 1] == u[..n - 1] && v[..n][..n - 1] == v[..n - 1];
      DotToAgree(u, u[..n], v, v[..n], n - 1);
    }
  }

  lemma {:induction false} DotToAgree(u: Vec, u': Vec, v: Vec, v': Vec, n: nat)
    requires n <= |u| && n <= |v| && n <= |u'| && n <= |v'|
    requires forall k :: 0 <= k < n ==> u[k] == u'[k] && v[k] == v'[k]
    ensures DotTo(u, v, n) == DotTo(u', v', n)
  {
    if n > 0 {
      DotToAgree(u, u', v, v', n - 1);
    }
  }

  /** The dot product of a vector with itself is a sum of squares. */
  lemma {:induction false} DotSelfNonNegative(v: Vec, n: nat)
    requires n <= |v|
    ensures DotTo(v, v, n) >= 0.0
  {
    if n > 0 {
      DotSelfNonNegative(v, n - 1);
      assert v[n - 1] * v[n - 1] >= 0.0;
    }
  }

  /** The cross product of a vector with itself is zero. */
  lemma CrossSelfZero(u: Vec3)
    ensures Cross(u, u) == [0.0, 0.0, 0.0]
  {
  }

  lemma DotOfThree(u: Vec3, v: Vec3)
    ensures DotProduct(u, v) == u[0] * v[0] + u[1] * v[1] + u[2] * v[2]
  {
    assert DotTo(u, v, 1) == u[0] * v[0];
    assert DotTo(u, v, 2) == u[0] * v[0] + u[1] * v[1];
  }

  /** The cross product is orthogonal to both of its arguments. */
  lemma CrossOrthogonal(u: Vec3, v: Vec3)
    ensures DotProduct(u, Cross(u, v)) == 0.0
    ensures DotProduct(v, Cross(u, v)) == 0.0
  {
    DotOfThree(u, Cross(u, v));
    DotOfThree(v, Cross(u, v));
  }

  /** `lerp` starts at u and ends at v. */
  lemma LerpEndpoints(u: Vec, v: Vec)
    requires |u| == |v|
    ensures Interpolated(u, v, 0.0) == u
    ensures Interpolated(u, v, 1.0) == v
  {
    assert forall i :: 0 <= i < |u| ==> Interpolated(u, v, 0.0)[i] == u[i];
    assert forall i :: 0 <= i < |u| ==> Interpolated(u, v, 1.0)[i] == v[i];
  }

  /** `vec4(v, w).xyz()` is v again; `w` defaults to 0. */
  lemma ExtendXyz(v: Vec3, w: real)
    ensures Swizzle(Extend(v, w), "xyz") == v
    ensures W(Extend(v, w)) == w && W(Extend(v, 0.0)) == 0.0
  {
    assert ValidSwizzle(4, "xyz");
  }
}
