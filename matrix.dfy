/**
 * The matrix template of source/tornasol/matrix.cc.
 *
 * A `mat<T, M, N>` stores M column vectors of N components each, so
 * `m[i][j]` is column i, row j. It is modelled as a sequence of M sequences
 * of N exact reals. Every loop-based operator is a method proved equal to a
 * specification function; the properties are lemmas about those functions.
 */
module Matrix {
  import opened Vector

  type Mat = seq<seq<real>>

  /** m has `cols` columns of `rows` entries each. */
  predicate IsMat(m: Mat, cols: nat, rows: nat)
  {
    |m| == cols && forall i :: 0 <= i < cols ==> |m[i]| == rows
  }

  // ---------------------------------------------------------------------
  // Specification functions.
  // ---------------------------------------------------------------------

  lemma RowMajorIndexInRange(cols: nat, rows: nat, i: nat, j: nat)
    requires i < cols && j < rows
    ensures j * cols + i < cols * rows
    ensures j * cols + cols <= cols * rows
  {
    assert (rows - 1 - j) * cols >= 0;
  }

  /** Entry (i, j) of `mat(initializer_list)`: the list is read row by row. */
  function RowMajorAt(arr: seq<real>, cols: nat, rows: nat, i: nat, j: nat): real
    requires |arr| == cols * rows && i < cols && j < rows
  {
    RowMajorIndexInRange(cols, rows, i, j);
    arr[j * cols + i]
  }

  function FromRowMajor(arr: seq<real>, cols: nat, rows: nat): Mat
    requires |arr| == cols * rows
  {
    seq(cols, i requires 0 <= i < cols =>
      seq(rows, j requires 0 <= j < rows => RowMajorAt(arr, cols, rows, i, j)))
  }

  /** `mat(T value)`: value on the diagonal, zero elsewhere. */
  function DiagonalOf(cols: nat, rows: nat, s: real): Mat
  {
    seq(cols, i requires 0 <= i < cols =>
      seq(rows, j requires 0 <= j < rows => if i == j then s else 0.0))
  }

  function Identity(n: nat): Mat
  {
    DiagonalOf(n, n, 1.0)
  }

  /** Sum over k < n of a[k][j] * b[i][k]. */
  function ProductEntry(a: Mat, b: Mat, i: nat, j: nat, n: nat): real
    requires n <= |a| && i < |b| && n <= |b[i]|
    requires forall k :: 0 <= k < n ==> j < |a[k]|
  {
    if n == 0 then 0.0 else ProductEntry(a, b, i, j, n - 1) + a[n - 1][j] * b[i][n - 1]
  }

  /** `a * b` for an M x N matrix a and a P x M matrix b: a P x N matrix. */
  function ProductOf(a: Mat, b: Mat, m: nat, n: nat, p: nat): Mat
    requires IsMat(a, m, n) && IsMat(b, p, m)
  {
    seq(p, i requires 0 <= i < p =>
      seq(n, j requires 0 <= j < n => ProductEntry(a, b, i, j, m)))
  }

  /** Sum over j < k of m[j][i] * v[j]. */
  function AppliedEntry(a: Mat, v: Vec, i: nat, k: nat): real
    requires k <= |a| && k <= |v|
    requires forall j :: 0 <= j < k ==> i < |a[j]|
  {
    if k == 0 then 0.0 else AppliedEntry(a, v, i, k - 1) + a[k - 1][i] * v[k - 1]
  }

  /** `m * v` for an M x N matrix and an M-vector: an N-vector. */
  function Applied(a: Mat, v: Vec, m: nat, n: nat): Vec
    requires IsMat(a, m, n) && |v| == m
  {
    seq(n, i requires 0 <= i < n => AppliedEntry(a, v, i, m))
  }

  /** `v * m` for an N-vector and an M x N matrix: an M-vector of dot products. */
  function RowApplied(v: Vec, a: Mat, m: nat, n: nat): Vec
    requires IsMat(a, m, n) && |v| == n
  {
    seq(m, i requires 0 <= i < m => DotProduct(v, a[i]))
  }

  /** The transpose of an M x N matrix: t[j][i] == a[i][j]. */
  function TransposeOf(a: Mat, m: nat, n: nat): (t: Mat)
    requires IsMat(a, m, n)
    ensures IsMat(t, n, m)
  {
    seq(n, j requires 0 <= j < n => seq(m, i requires 0 <= i < m => a[i][j]))
  }

  /** `submat(m, col, row)`: drop that column and that row. */
  function SubmatOf(a: Mat, n: nat, col: nat, row: nat): (c: Mat)
    requires n >= 1 && IsMat(a, n, n) && col < n && row < n
    ensures IsMat(c, n - 1, n - 1)
  {
    seq(n - 1, i requires 0 <= i < n - 1 =>
      seq(n - 1, j requires 0 <= j < n - 1 =>
        a[if i < col then i else i + 1][if j < row then j else j + 1]))
  }

  /** `det`: the single entry for n == 1, otherwise expansion along column 0. */
  function DetOf(a: Mat, n: nat): real
    requires n >= 1 && IsMat(a, n, n)
    decreases n, 2, 0
  {
    if n == 1 then a[0][0] else ExpansionSum(a, n, n)
  }

  /** Sum over i < k of a[0][i] * cofactor(a, 0, i). */
  function ExpansionSum(a: Mat, n: nat, k: nat): real
    requires n >= 2 && IsMat(a, n, n) && k <= n
    decreases n, 1, k
  {
    if k == 0 then 0.0
    else ExpansionSum(a, n, k - 1) + a[0][k - 1] * CofactorOf(a, n, 0, k - 1)
  }

  /** `cofactor`: the signed determinant of the submatrix. */
  function CofactorOf(a: Mat, n: nat, col: nat, row: nat): real
    requires n >= 2 && IsMat(a, n, n) && col < n && row < n
    decreases n, 0, 0
  {
    var d := DetOf(SubmatOf(a, n, col, row), n - 1);
    if (col + row) % 2 == 0 then d else -d
  }

  function CofactorMatrix(a: Mat, n: nat): (c: Mat)
    requires n >= 2 && IsMat(a, n, n)
    ensures IsMat(c, n, n)
  {
    seq(n, i requires 0 <= i < n => seq(n, j requires 0 <= j < n => CofactorOf(a, n, i, j)))
  }

  /** `adj`: the transpose of the cofactor matrix. */
  function AdjOf(a: Mat, n: nat): (r: Mat)
    requires n >= 2 && IsMat(a, n, n)
    ensures IsMat(r, n, n)
  {
    TransposeOf(CofactorMatrix(a, n), n, n)
  }

  /** `m / s`: every column divided by s. */
  function MatQuotient(a: Mat, s: real): (r: Mat)
    requires s != 0.0
    ensures |r| == |a| && forall i :: 0 <= i < |a| ==> |r[i]| == |a[i]|
  {
    seq(|a|, i requires 0 <= i < |a| => Quotient(a[i], s))
  }

  function InverseOf(a: Mat, n: nat): (r: Mat)
    requires n >= 2 && IsMat(a, n, n) && DetOf(a, n) != 0.0
    ensures IsMat(r, n, n)
  {
    MatQuotient(AdjOf(a, n), DetOf(a, n))
  }

  /** Two matrices of the same shape with the same entries are equal. */
  lemma SameEntries(a: Mat, b: Mat, cols: nat, rows: nat)
    requires IsMat(a, cols, rows) && IsMat(b, cols, rows)
    requires forall i, j :: 0 <= i < cols && 0 <= j < rows ==> a[i][j] == b[i][j]
    ensures a == b
  {
    forall i | 0 <= i < cols
      ensures a[i] == b[i]
    {
      assert forall j :: 0 <= j < rows ==> a[i][j] == b[i][j];
    }
  }

  // ---------------------------------------------------------------------
  // Loop-based operators.
  // ---------------------------------------------------------------------

  /** `mat(initializer_list<T> arr)`: column i, row j receives arr[j * M + i]. */
  method FromList(arr: seq<real>, cols: nat, rows: nat) returns (r: Mat)
    requires |arr| == cols * rows
    ensures r == FromRowMajor(arr, cols, rows)
  {
    r := [];
    for i := 0 to cols
      invariant IsMat(r, i, rows)
      invariant forall i', j :: 0 <= i' < i && 0 <= j < rows ==> r[i'][j] == RowMajorAt(arr, cols, rows, i', j)
    {
      var column := [];
      for j := 0 to rows
        invariant |column| == j
        invariant forall j' :: 0 <= j' < j ==> column[j'] == RowMajorAt(arr, cols, rows, i, j')
      {
        RowMajorIndexInRange(cols, rows, i, j);
        column := column + [arr[j * cols + i]];
      }
      r := r + [column];
    }
    SameEntries(r, FromRowMajor(arr, cols, rows), cols, rows);
  }

  /** `mat(T value)`. */
  method Diagonal(cols: nat, rows: nat, s: real) returns (r: Mat)
    ensures IsMat(r, cols, rows)
    ensures forall i, j :: 0 <= i < cols && 0 <= j < rows ==> r[i][j] == if i == j then s else 0.0
    ensures r == DiagonalOf(cols, rows, s)
  {
    r := [];
    for i := 0 to cols
      invariant IsMat(r, i, rows)
      invariant forall i', j :: 0 <= i' < i && 0 <= j < rows ==> r[i'][j] == if i' == j then s else 0.0
    {
      var column := [];
      for j := 0 to rows
        invariant |column| == j
        invariant forall j' :: 0 <= j' < j ==> column[j'] == if i == j' then s else 0.0
      {
        if i == j {
          column := column + [s];
        } else {
          column := column + [0.0];
        }
      }
      r := r + [column];
    }
    SameEntries(r, DiagonalOf(cols, rows, s), cols, rows);
  }

  /** Matrix-matrix `operator *`: c[i][j] accumulates a[k][j] * b[i][k] over k. */
  method Mul(a: Mat, b: Mat, m: nat, n: nat, p: nat) returns (c: Mat)
    requires IsMat(a, m, n) && IsMat(b, p, m)
    ensures IsMat(c, p, n)
    ensures c == ProductOf(a, b, m, n, p)
  {
    c := [];
    for i := 0 to p
      invariant IsMat(c, i, n)
      invariant forall i', j :: 0 <= i' < i && 0 <= j < n ==> c[i'][j] == ProductEntry(a, b, i', j, m)
    {
      var column := [];
      for j := 0 to n
        invariant |column| == j
        invariant forall j' :: 0 <= j' < j ==> column[j'] == ProductEntry(a, b, i, j', m)
      {
        var s := 0.0;
        for k := 0 to m
          invariant s == ProductEntry(a, b, i, j, k)
        {
          s := s + a[k][j] * b[i][k];
        }
        column := column + [s];
      }
      c := c + [column];
    }
    SameEntries(c, ProductOf(a, b, m, n, p), p, n);
  }

  /** Matrix-vector `operator *`: r[i] accumulates m[j][i] * v[j] over j. */
  method Apply(a: Mat, v: Vec, m: nat, n: nat) returns (r: Vec)
    requires IsMat(a, m, n) && |v| == m
    ensures r == Applied(a, v, m, n)
  {
    r := [];
    for i := 0 to n
      invariant |r| == i
      invariant forall i' :: 0 <= i' < i ==> r[i'] == AppliedEntry(a, v, i', m)
    {
      var s := 0.0;
      for j := 0 to m
        invariant s == AppliedEntry(a, v, i, j)
      {
        s := s + a[j][i] * v[j];
      }
      r := r + [s];
    }
  }

  /** Vector-matrix `operator *`: r[i] accumulates v[j] * m[i][j] over j. */
  method ApplyRow(v: Vec, a: Mat, m: nat, n: nat) returns (r: Vec)
    requires IsMat(a, m, n) && |v| == n
    ensures r == RowApplied(v, a, m, n)
  {
    r := [];
    for i := 0 to m
      invariant |r| == i
      invariant forall i' :: 0 <= i' < i ==> r[i'] == DotProduct(v, a[i'])
    {
      var s := 0.0;
      for j := 0 to n
        invariant s == DotTo(v, a[i], j)
      {
        s := s + v[j] * a[i][j];
      }
      r := r + [s];
    }
  }

  /**
   * `transpose`, with the loops running over the source matrix's own
   * bounds (column i < M, row j < N); see `TransposeBoundsAsWritten`.
   */
  method Transpose(a: Mat, m: nat, n: nat) returns (t: Mat)
    requires IsMat(a, m, n)
    ensures IsMat(t, n, m)
    ensures forall i, j :: 0 <= i < m && 0 <= j < n ==> t[j][i] == a[i][j]
    ensures t == TransposeOf(a, m, n)
  {
    t := [];
    for j := 0 to n
      invariant IsMat(t, j, m)
      invariant forall i, j' :: 0 <= i < m && 0 <= j' < j ==> t[j'][i] == a[i][j']
    {
      var column := [];
      for i := 0 to m
        invariant |column| == i
        invariant forall i' :: 0 <= i' < i ==> column[i'] == a[i'][j]
      {
        column := column + [a[i][j]];
      }
      t := t + [column];
    }
    SameEntries(t, TransposeOf(a, m, n), n, m);
  }

  /** `submat(m, col, row)`: every entry off that column and row moves down by one past it. */
  method Submat(a: Mat, n: nat, col: nat, row: nat) returns (c: Mat)
    requires n >= 1 && IsMat(a, n, n) && col < n && row < n
    ensures c == SubmatOf(a, n, col, row)
  {
    ghost var sub := SubmatOf(a, n, col, row);
    c := [];
    for i := 0 to n
      invariant |c| == if i <= col then i else i - 1
      invariant c == sub[..|c|]
    {
      if i != col {
        var column := SubmatColumn(a, n, col, row, i, |c|);
        c := c + [column];
      }
    }
  }

  /** One column of `submat`: column i of a, which becomes column k, without its entry in the given row. */
  method SubmatColumn(a: Mat, n: nat, col: nat, row: nat, i: nat, k: nat) returns (column: seq<real>)
    requires n >= 1 && IsMat(a, n, n) && col < n && row < n && i < n && k < n - 1
    requires i == if k < col then k else k + 1
    ensures column == SubmatOf(a, n, col, row)[k]
  {
    SubmatColumnOf(a, n, col, row, i, k);
    ghost var target := SubmatOf(a, n, col, row)[k];
    column := [];
    for j := 0 to n
      invariant |column| == if j <= row then j else j - 1
      invariant column == target[..|column|]
    {
      if j != row {
        column := column + [a[i][j]];
      }
    }
  }

  lemma SubmatColumnOf(a: Mat, n: nat, col: nat, row: nat, i: nat, k: nat)
    requires n >= 1 && IsMat(a, n, n) && col < n && row < n && i < n && k < n - 1
    requires i == if k < col then k else k + 1
    ensures |SubmatOf(a, n, col, row)[k]| == n - 1
    ensures forall j :: 0 <= j < n - 1 ==> SubmatOf(a, n, col, row)[k][j] == a[i][if j < row then j else j + 1]
  {
  }

  /** `det`. */
  method Det(a: Mat, n: nat) returns (d: real)
    requires n >= 1 && IsMat(a, n, n)
    ensures d == DetOf(a, n)
    decreases n, 2, 0
  {
    if n == 1 {
      return a[0][0];
    }
    d := 0.0;
    for i := 0 to n
      invariant d == ExpansionSum(a, n, i)
    {
      var c := Cofactor(a, n, 0, i);
      ExpansionStep(a, n, i);
      d := d + a[0][i] * c;
    }
  }

  lemma ExpansionStep(a: Mat, n: nat, i: nat)
    requires n >= 2 && IsMat(a, n, n) && i < n
    ensures ExpansionSum(a, n, i + 1) == ExpansionSum(a, n, i) + a[0][i] * CofactorOf(a, n, 0, i)
  {
  }

  /** `cofactor`: + det(submat) when col + row is even, - det(submat) otherwise. */
  method Cofactor(a: Mat, n: nat, col: nat, row: nat) returns (r: real)
    requires n >= 2 && IsMat(a, n, n) && col < n && row < n
    ensures r == CofactorOf(a, n, col, row)
    decreases n, 0, 0
  {
    var c := Submat(a, n, col, row);
    var d := Det(c, n - 1);
    r := if (col + row) % 2 == 0 then d else -d;
  }

  /** `adj`. */
  method Adj(a: Mat, n: nat) returns (r: Mat)
    requires n >= 2 && IsMat(a, n, n)
    ensures r == AdjOf(a, n)
  {
    var c := [];
    for i := 0 to n
      invariant |c| == i
      invariant c == CofactorMatrix(a, n)[..i]
    {
      var column := CofactorColumn(a, n, i);
      c := c + [column];
    }
    assert CofactorMatrix(a, n)[..n] == CofactorMatrix(a, n);
    r := Transpose(c, n, n);
  }

  /** One column of the cofactor matrix. */
  method CofactorColumn(a: Mat, n: nat, i: nat) returns (column: seq<real>)
    requires n >= 2 && IsMat(a, n, n) && i < n
    ensures column == CofactorMatrix(a, n)[i]
  {
    CofactorMatrixColumn(a, n, i);
    ghost var target := CofactorMatrix(a, n)[i];
    column := [];
    for j := 0 to n
      invariant |column| == j
      invariant column == target[..j]
    {
      var x := Cofactor(a, n, i, j);
      column := column + [x];
    }
  }

  lemma CofactorMatrixColumn(a: Mat, n: nat, i: nat)
    requires n >= 2 && IsMat(a, n, n) && i < n
    ensures |CofactorMatrix(a, n)[i]| == n
    ensures forall j :: 0 <= j < n ==> CofactorMatrix(a, n)[i][j] == CofactorOf(a, n, i, j)
  {
  }

  /** Matrix `operator / (mat, T)`, column by column. */
  method DivScalar(a: Mat, s: real) returns (r: Mat)
    requires s != 0.0
    ensures r == MatQuotient(a, s)
  {
    ghost var target := MatQuotient(a, s);
    r := [];
    for i := 0 to |a|
      invariant |r| == i
      invariant r == target[..i]
    {
      var column := Vector.DivScalar(a[i], s);
      r := r + [column];
    }
  }

  /** `inv`: requires a non-zero determinant and returns adj(m) / det(m). */
  method Inv(a: Mat, n: nat) returns (r: Mat)
    requires n >= 2 && IsMat(a, n, n) && DetOf(a, n) != 0.0
    ensures r == InverseOf(a, n)
  {
    var d := Det(a, n);
    var adj := Adj(a, n);
    r := DivScalar(adj, d);
  }

  // ---------------------------------------------------------------------
  // Properties.
  // ---------------------------------------------------------------------

  /**
   * `transpose` as written: the outer loop runs i < N and the inner j < M,
   * reading m[i][j] (m has M columns of N entries) and writing t[j][i] (t has
   * N columns of M entries). This predicate says every one of those four
   * index operations is in range.
   */
  predicate TransposeBoundsAsWritten(m: nat, n: nat)
  {
    forall i, j :: 0 <= i < n && 0 <= j < m ==> TransposeAccessInRange(m, n, i, j)
  }

  /** Column i and row j exist in an M x N matrix and column j, row i in its N x M transpose. */
  predicate TransposeAccessInRange(m: nat, n: nat, i: nat, j: nat)
  {
    i < m && j < n
  }

  /** The written loop bounds stay in range only for square (or empty) matrices. */
  lemma TransposeBoundsSquareOnly(m: nat, n: nat)
    ensures TransposeBoundsAsWritten(m, n) <==> (m == n || m == 0 || n == 0)
  {
    if m != n && m != 0 && n != 0 {
      assert !TransposeAccessInRange(m, n, n - 1, m - 1);
    }
  }

  /** A 2 x 3 matrix (two columns of three entries) already indexes out of range. */
  lemma TransposeOutOfRangeExample()
    ensures !TransposeBoundsAsWritten(2, 3)
  {
    assert !TransposeAccessInRange(2, 3, 2, 1);
  }

  /** Row j of `mat(initializer_list)` is the j-th run of M consecutive list entries. */
  lemma RowsOfFromRowMajor(arr: seq<real>, cols: nat, rows: nat, j: nat)
    requires |arr| == cols * rows && j < rows
    ensures j * cols + cols <= |arr|
    ensures TransposeOf(FromRowMajor(arr, cols, rows), cols, rows)[j] == arr[j * cols .. j * cols + cols]
  {
    if cols > 0 {
      RowMajorIndexInRange(cols, rows, 0, j);
    } else {
      assert j * cols == 0;
    }
    var t := TransposeOf(FromRowMajor(arr, cols, rows), cols, rows);
    forall i | 0 <= i < cols
      ensures t[j][i] == arr[j * cols .. j * cols + cols][i]
    {
      RowMajorIndexInRange(cols, rows, i, j);
    }
  }

  lemma {:induction false} IdentityLeftEntry(b: Mat, n: nat, i: nat, j: nat, k: nat)
    requires i < |b| && |b[i]| == n && j < n && k <= n
    ensures ProductEntry(Identity(n), b, i, j, k) == if j < k then b[i][j] else 0.0
  {
    if k > 0 {
      IdentityLeftEntry(b, n, i, j, k - 1);
    }
  }

  lemma {:induction false} IdentityRightEntry(a: Mat, m: nat, n: nat, i: nat, j: nat, k: nat)
    requires IsMat(a, m, n) && i < m && j < n && k <= m
    ensures ProductEntry(a, Identity(m), i, j, k) == if i < k then a[i][j] else 0.0
  {
    if k > 0 {
      IdentityRightEntry(a, m, n, i, j, k - 1);
    }
  }

  /** `mat(1)` is a left identity of the product. */
  lemma ProductIdentityLeft(b: Mat, n: nat, p: nat)
    requires IsMat(b, p, n)
    ensures ProductOf(Identity(n), b, n, n, p) == b
  {
    forall i, j | 0 <= i < p && 0 <= j < n
      ensures ProductOf(Identity(n), b, n, n, p)[i][j] == b[i][j]
    {
      IdentityLeftEntry(b, n, i, j, n);
    }
    SameEntries(ProductOf(Identity(n), b, n, n, p), b, p, n);
  }

  /** `mat(1)` is a right identity of the product. */
  lemma ProductIdentityRight(a: Mat, m: nat, n: nat)
    requires IsMat(a, m, n)
    ensures ProductOf(a, Identity(m), m, n, m) == a
  {
    forall i, j | 0 <= i < m && 0 <= j < n
      ensures ProductOf(a, Identity(m), m, n, m)[i][j] == a[i][j]
    {
      IdentityRightEntry(a, m, n, i, j, m);
    }
    SameEntries(ProductOf(a, Identity(m), m, n, m), a, m, n);
  }

  lemma {:induction false} IdentityAppliedEntry(v: Vec, i: nat, k: nat)
    requires i < |v| && k <= |v|
    ensures AppliedEntry(Identity(|v|), v, i, k) == if i < k then v[i] else 0.0
  {
    if k > 0 {
      IdentityAppliedEntry(v, i, k - 1);
    }
  }

  /** `mat(1) * v == v`. */
  lemma ApplyIdentity(v: Vec)
    ensures Applied(Identity(|v|), v, |v|, |v|) == v
  {
    forall i | 0 <= i < |v|
      ensures Applied(Identity(|v|), v, |v|, |v|)[i] == v[i]
    {
      IdentityAppliedEntry(v, i, |v|);
    }
  }

  /** Transposing twice gives the matrix back. */
  lemma TransposeInvolution(a: Mat, m: nat, n: nat)
    requires IsMat(a, m, n)
    ensures TransposeOf(TransposeOf(a, m, n), n, m) == a
  {
    SameEntries(TransposeOf(TransposeOf(a, m, n), n, m), a, m, n);
  }

  /** Dropping column 0 and row 0 of the identity leaves the smaller identity. */
  lemma SubmatIdentity(n: nat)
    requires n >= 2
    ensures SubmatOf(Identity(n), n, 0, 0) == Identity(n - 1)
  {
    SameEntries(SubmatOf(Identity(n), n, 0, 0), Identity(n - 1), n - 1, n - 1);
  }

  lemma {:induction false} IdentityExpansion(n: nat, k: nat)
    requires n >= 2 && 1 <= k <= n
    ensures ExpansionSum(Identity(n), n, k) == CofactorOf(Identity(n), n, 0, 0)
  {
    if k > 1 {
      IdentityExpansion(n, k - 1);
    }
  }

  /** `det(mat(1)) == 1` for every size. */
  lemma {:induction false} DetIdentity(n: nat)
    requires n >= 1
    ensures DetOf(Identity(n), n) == 1.0
  {
    if n >= 2 {
      IdentityExpansion(n, n);
      SubmatIdentity(n);
      DetIdentity(n - 1);
    }
  }

  lemma CofactorTwoByTwo(a: Mat, col: nat, row: nat)
    requires IsMat(a, 2, 2) && col < 2 && row < 2
    ensures CofactorOf(a, 2, col, row) ==
      if (col + row) % 2 == 0 then a[1 - col][1 - row] else -a[1 - col][1 - row]
  {
    var c := SubmatOf(a, 2, col, row);
    assert c[0][0] == a[1 - col][1 - row];
  }

  lemma DetTwoByTwo(a: Mat)
    requires IsMat(a, 2, 2)
    ensures DetOf(a, 2) == a[0][0] * a[1][1] - a[0][1] * a[1][0]
  {
    CofactorTwoByTwo(a, 0, 0);
    CofactorTwoByTwo(a, 0, 1);
  }

  lemma AdjTwoByTwo(a: Mat)
    requires IsMat(a, 2, 2)
    ensures AdjOf(a, 2) == [[a[1][1], -a[0][1]], [-a[1][0], a[0][0]]]
  {
    CofactorTwoByTwo(a, 0, 0);
    CofactorTwoByTwo(a, 0, 1);
    CofactorTwoByTwo(a, 1, 0);
    CofactorTwoByTwo(a, 1, 1);
    SameEntries(AdjOf(a, 2), [[a[1][1], -a[0][1]], [-a[1][0], a[0][0]]], 2, 2);
  }

  /** The determinant of a 2 x 2 matrix in closed form. */
  function DetTwo(a: Mat): real
    requires IsMat(a, 2, 2)
  {
    a[0][0] * a[1][1] - a[0][1] * a[1][0]
  }

  /** The inverse of an invertible 2 x 2 matrix in closed form. */
  function InverseTwo(a: Mat): Mat
    requires IsMat(a, 2, 2) && DetTwo(a) != 0.0
  {
    var d := DetTwo(a);
    [[a[1][1] / d, -a[0][1] / d], [-a[1][0] / d, a[0][0] / d]]
  }

  /** Dividing a 2 x 2 matrix by a scalar divides its four entries. */
  lemma QuotientTwo(p: real, q: real, r: real, s: real, d: real)
    requires d != 0.0
    ensures MatQuotient([[p, q], [r, s]], d) == [[p / d, q / d], [r / d, s / d]]
  {
    assert Quotient([p, q], d) == [p / d, q / d];
    assert Quotient([r, s], d) == [r / d, s / d];
  }

  /** `inv` of a 2 x 2 matrix is the closed form. */
  lemma InverseTwoByTwoEntries(a: Mat)
    requires IsMat(a, 2, 2) && DetOf(a, 2) != 0.0
    ensures DetTwo(a) == DetOf(a, 2) && InverseOf(a, 2) == InverseTwo(a)
  {
    var d := DetTwo(a);
    var adj: Mat := [[a[1][1], -a[0][1]], [-a[1][0], a[0][0]]];
    DetTwoByTwo(a);
    AdjTwoByTwo(a);
    assert InverseOf(a, 2) == MatQuotient(adj, d);
    QuotientTwo(a[1][1], -a[0][1], -a[1][0], a[0][0], d);
  }

  lemma ProductEntryTwo(x: Mat, y: Mat, i: nat, j: nat)
    requires IsMat(x, 2, 2) && IsMat(y, 2, 2) && i < 2 && j < 2
    ensures ProductEntry(x, y, i, j, 2) == x[0][j] * y[i][0] + x[1][j] * y[i][1]
  {
    assert ProductEntry(x, y, i, j, 1) == x[0][j] * y[i][0];
  }

  /** A 2 x 2 product whose four entries are those of the identity is the identity. */
  lemma ProductIsIdentityTwo(x: Mat, y: Mat)
    requires IsMat(x, 2, 2) && IsMat(y, 2, 2)
    requires x[0][0] * y[0][0] + x[1][0] * y[0][1] == 1.0
    requires x[0][1] * y[0][0] + x[1][1] * y[0][1] == 0.0
    requires x[0][0] * y[1][0] + x[1][0] * y[1][1] == 0.0
    requires x[0][1] * y[1][0] + x[1][1] * y[1][1] == 1.0
    ensures ProductOf(x, y, 2, 2, 2) == Identity(2)
  {
    ProductEntryTwo(x, y, 0, 0);
    ProductEntryTwo(x, y, 0, 1);
    ProductEntryTwo(x, y, 1, 0);
    ProductEntryTwo(x, y, 1, 1);
    SameEntries(ProductOf(x, y, 2, 2, 2), Identity(2), 2, 2);
  }

  lemma InverseArithmetic(p: real, q: real, r: real, s: real, d: real)
    requires d == p * s - q * r && d != 0.0
    ensures (s / d) * p + (-r / d) * q == 1.0
    ensures (-q / d) * p + (p / d) * q == 0.0
    ensures (s / d) * r + (-r / d) * s == 0.0
    ensures (-q / d) * r + (p / d) * s == 1.0
    ensures p * (s / d) + r * (-q / d) == 1.0
    ensures q * (s / d) + s * (-q / d) == 0.0
    ensures p * (-r / d) + r * (p / d) == 0.0
    ensures q * (-r / d) + s * (p / d) == 1.0
  {
    assert (s / d) * p + (-r / d) * q == (p * s - q * r) / d;
    assert (-q / d) * r + (p / d) * s == (p * s - q * r) / d;
    assert p * (s / d) + r * (-q / d) == (p * s - q * r) / d;
    assert q * (-r / d) + s * (p / d) == (p * s - q * r) / d;
  }

  /** The closed form is a left inverse. */
  lemma InverseTwoLeft(a: Mat)
    requires IsMat(a, 2, 2) && DetTwo(a) != 0.0
    ensures ProductOf(InverseTwo(a), a, 2, 2, 2) == Identity(2)
  {
    InverseArithmetic(a[0][0], a[0][1], a[1][0], a[1][1], DetTwo(a));
    ProductIsIdentityTwo(InverseTwo(a), a);
  }

  /** The closed form is a right inverse. */
  lemma InverseTwoRight(a: Mat)
    requires IsMat(a, 2, 2) && DetTwo(a) != 0.0
    ensures ProductOf(a, InverseTwo(a), 2, 2, 2) == Identity(2)
  {
    InverseArithmetic(a[0][0], a[0][1], a[1][0], a[1][1], DetTwo(a));
    ProductIsIdentityTwo(a, InverseTwo(a));
  }

  /** For a 2 x 2 matrix, `inv(m) * m` is the identity. */
  lemma InverseTwoByTwoLeft(a: Mat)
    requires IsMat(a, 2, 2) && DetOf(a, 2) != 0.0
    ensures ProductOf(InverseOf(a, 2), a, 2, 2, 2) == Identity(2)
  {
    InverseTwoByTwoEntries(a);
    InverseTwoLeft(a);
  }

  /** For a 2 x 2 matrix, `m * inv(m)` is the identity. */
  lemma InverseTwoByTwoRight(a: Mat)
    requires IsMat(a, 2, 2) && DetOf(a, 2) != 0.0
    ensures ProductOf(a, InverseOf(a, 2), 2, 2, 2) == Identity(2)
  {
    InverseTwoByTwoEntries(a);
    InverseTwoRight(a);
  }
}
