/**
 * Dense real matrices with an explicit shape, the part of nalgebra's
 * `DMatrix`/`DVector` and ndarray's `Array2`/`Array1` that the Kalman filter
 * and kernel ridge regression use: products, transposes, sums, identities.
 * A matrix carries its row and column counts, so that a 0×n matrix still
 * has n columns; `IsWf` is the shape invariant that both libraries keep.
 */
module DenseMatrix {
  import opened RealSeqs

  datatype Matrix = Matrix(rows: nat, cols: nat, e: seq<seq<real>>)

  /** `rows` rows of `cols` entries each. */
  predicate IsWf(m: Matrix)
  {
    |m.e| == m.rows && forall i :: 0 <= i < m.rows ==> |m.e[i]| == m.cols
  }

  predicate HasShape(m: Matrix, rows: nat, cols: nat)
  {
    IsWf(m) && m.rows == rows && m.cols == cols
  }

  /** u·v. */
  function Dot(u: seq<real>, v: seq<real>): (r: real)
  {
    ZipSum(Product, u, v)
  }

  /** Column k of a list of rows. */
  function ColOf(rs: seq<seq<real>>, k: nat): (c: seq<real>)
    requires forall l :: 0 <= l < |rs| ==> k < |rs[l]|
    ensures |c| == |rs| && forall l :: 0 <= l < |rs| ==> c[l] == rs[l][k]
  {
    seq(|rs|, l requires 0 <= l < |rs| => rs[l][k])
  }

  /** The row vector uᵀ·R of a matrix with rows rs and `cols` columns: entry k is u·(column k). */
  function VecMat(u: seq<real>, rs: seq<seq<real>>, cols: nat): (r: seq<real>)
    requires forall l :: 0 <= l < |rs| ==> |rs[l]| == cols
    ensures |r| == cols && forall k :: 0 <= k < cols ==> r[k] == Dot(u, ColOf(rs, k))
  {
    seq(cols, k requires 0 <= k < cols => Dot(u, ColOf(rs, k)))
  }

  /** The column vector R·w: entry l is (row l)·w. */
  function RowsTimes(rs: seq<seq<real>>, w: seq<real>): (r: seq<real>)
    ensures |r| == |rs| && forall l :: 0 <= l < |rs| ==> r[l] == Dot(rs[l], w)
  {
    seq(|rs|, l requires 0 <= l < |rs| => Dot(rs[l], w))
  }

  /** x·y. */
  function Mul(x: Matrix, y: Matrix): (r: Matrix)
    requires IsWf(x) && IsWf(y) && x.cols == y.rows
    ensures HasShape(r, x.rows, y.cols)
    ensures forall i, j :: 0 <= i < x.rows && 0 <= j < y.cols ==> r.e[i][j] == Dot(x.e[i], ColOf(y.e, j))
  {
    Matrix(x.rows, y.cols, seq(x.rows, i requires 0 <= i < x.rows => VecMat(x.e[i], y.e, y.cols)))
  }

  /** xᵀ. */
  function Transpose(x: Matrix): (r: Matrix)
    requires IsWf(x)
    ensures HasShape(r, x.cols, x.rows)
    ensures forall i, j :: 0 <= i < x.cols && 0 <= j < x.rows ==> r.e[i][j] == x.e[j][i]
  {
    Matrix(x.cols, x.rows, seq(x.cols, j requires 0 <= j < x.cols => ColOf(x.e, j)))
  }

  /** The entrywise combination f(x, y) of two matrices of the same shape. */
  function Zip(x: Matrix, y: Matrix, f: (real, real) -> real): (r: Matrix)
    requires IsWf(x) && HasShape(y, x.rows, x.cols)
    ensures HasShape(r, x.rows, x.cols)
    ensures forall i, j :: 0 <= i < x.rows && 0 <= j < x.cols ==> r.e[i][j] == f(x.e[i][j], y.e[i][j])
  {
    Matrix(x.rows, x.cols, seq(x.rows, i requires 0 <= i < x.rows =>
      seq(x.cols, j requires 0 <= j < x.cols => f(x.e[i][j], y.e[i][j]))))
  }

  function Plus(u: real, v: real): (r: real) { u + v }

  function Minus(u: real, v: real): (r: real) { u - v }

  /** x + y. */
  function Add(x: Matrix, y: Matrix): (r: Matrix)
    requires IsWf(x) && HasShape(y, x.rows, x.cols)
    ensures HasShape(r, x.rows, x.cols)
    ensures forall i, j :: 0 <= i < x.rows && 0 <= j < x.cols ==> r.e[i][j] == x.e[i][j] + y.e[i][j]
  {
    Zip(x, y, Plus)
  }

  /** x − y. */
  function Sub(x: Matrix, y: Matrix): (r: Matrix)
    requires IsWf(x) && HasShape(y, x.rows, x.cols)
    ensures HasShape(r, x.rows, x.cols)
    ensures forall i, j :: 0 <= i < x.rows && 0 <= j < x.cols ==> r.e[i][j] == x.e[i][j] - y.e[i][j]
  {
    Zip(x, y, Minus)
  }

  /** `identity(rows, cols)`: ones on the main diagonal, zeros elsewhere. */
  function Identity(rows: nat, cols: nat): (r: Matrix)
    ensures HasShape(r, rows, cols)
    ensures forall i, j :: 0 <= i < rows && 0 <= j < cols ==> r.e[i][j] == if i == j then 1.0 else 0.0
  {
    Matrix(rows, cols, seq(rows, i => seq(cols, j => if i == j then 1.0 else 0.0)))
  }

  /** c·x. */
  function Scale(c: real, x: Matrix): (r: Matrix)
    requires IsWf(x)
    ensures HasShape(r, x.rows, x.cols)
    ensures forall i, j :: 0 <= i < x.rows && 0 <= j < x.cols ==> r.e[i][j] == c * x.e[i][j]
  {
    Matrix(x.rows, x.cols, seq(x.rows, i requires 0 <= i < x.rows =>
      seq(x.cols, j requires 0 <= j < x.cols => c * x.e[i][j])))
  }

  /** x·v. */
  function MatVec(x: Matrix, v: seq<real>): (r: seq<real>)
    requires IsWf(x) && |v| == x.cols
    ensures |r| == x.rows && forall i :: 0 <= i < x.rows ==> r[i] == Dot(x.e[i], v)
  {
    RowsTimes(x.e, v)
  }

  /** u + v. */
  function VecAdd(u: seq<real>, v: seq<real>): (r: seq<real>)
    requires |u| == |v|
    ensures |r| == |u| && forall i :: 0 <= i < |u| ==> r[i] == u[i] + v[i]
  {
    seq(|u|, i requires 0 <= i < |u| => u[i] + v[i])
  }

  /** u − v. */
  function VecSub(u: seq<real>, v: seq<real>): (r: seq<real>)
    requires |u| == |v|
    ensures |r| == |u| && forall i :: 0 <= i < |u| ==> r[i] == u[i] - v[i]
  {
    seq(|u|, i requires 0 <= i < |u| => u[i] - v[i])
  }

  /** A square matrix equal to its transpose. */
  predicate IsSymmetric(m: Matrix)
  {
    IsWf(m) && m.rows == m.cols && forall i, j :: 0 <= i < m.rows && 0 <= j < m.rows ==> m.e[i][j] == m.e[j][i]
  }

  /** Two matrices of the same shape with the same entries are equal. */
  lemma Extensional(x: Matrix, y: Matrix)
    requires IsWf(x) && HasShape(y, x.rows, x.cols)
    requires forall i, j :: 0 <= i < x.rows && 0 <= j < x.cols ==> x.e[i][j] == y.e[i][j]
    ensures x == y
  {
    forall i | 0 <= i < x.rows
      ensures x.e[i] == y.e[i]
    {
    }
  }

  /** u·v == v·u. */
  lemma {:induction false} DotSymmetric(u: seq<real>, v: seq<real>)
    ensures Dot(u, v) == Dot(v, u)
    decreases |u|
  {
    if |u| > 0 && |v| > 0 {
      DotSymmetric(u[1..], v[1..]);
    }
  }

  /** (a·v + t)·w == a·(v·w) + t·w. */
  lemma {:induction false} DotAxpy(a: real, v: seq<real>, t: seq<real>, s: seq<real>, w: seq<real>)
    requires |v| == |t| == |s|
    requires forall k :: 0 <= k < |s| ==> s[k] == a * v[k] + t[k]
    ensures Dot(s, w) == a * Dot(v, w) + Dot(t, w)
    decreases |s|
  {
    if |s| > 0 && |w| > 0 {
      DotAxpy(a, v[1..], t[1..], s[1..], w[1..]);
      assert s[0] * w[0] == a * (v[0] * w[0]) + t[0] * w[0];
    }
  }

  /** (uᵀ·R)·w == uᵀ·(R·w): the step behind associativity. */
  lemma {:induction false} VecMatThenDot(u: seq<real>, rs: seq<seq<real>>, cols: nat, w: seq<real>)
    requires |u| == |rs| && |w| == cols
    requires forall l :: 0 <= l < |rs| ==> |rs[l]| == cols
    ensures Dot(VecMat(u, rs, cols), w) == Dot(u, RowsTimes(rs, w))
    decreases |rs|
  {
    if |rs| == 0 {
      DotZeroLeft(VecMat(u, rs, cols), w);
    } else {
      var s, t := VecMat(u, rs, cols), VecMat(u[1..], rs[1..], cols);
      forall k | 0 <= k < cols
        ensures s[k] == u[0] * rs[0][k] + t[k]
      {
        assert ColOf(rs, k)[1..] == ColOf(rs[1..], k);
      }
      DotAxpy(u[0], rs[0], t, s, w);
      VecMatThenDot(u[1..], rs[1..], cols, w);
      assert RowsTimes(rs, w)[1..] == RowsTimes(rs[1..], w);
    }
  }

  /** A vector of zeros dots to zero. */
  lemma {:induction false} DotZeroLeft(s: seq<real>, w: seq<real>)
    requires forall k :: 0 <= k < |s| ==> s[k] == 0.0
    ensures Dot(s, w) == 0.0
    decreases |s|
  {
    if |s| > 0 && |w| > 0 {
      DotZeroLeft(s[1..], w[1..]);
    }
  }

  /** (x·y)·z == x·(y·z). */
  lemma MulAssociative(x: Matrix, y: Matrix, z: Matrix)
    requires IsWf(x) && IsWf(y) && IsWf(z) && x.cols == y.rows && y.cols == z.rows
    ensures Mul(Mul(x, y), z) == Mul(x, Mul(y, z))
  {
    var l, r := Mul(Mul(x, y), z), Mul(x, Mul(y, z));
    forall i, j | 0 <= i < x.rows && 0 <= j < z.cols
      ensures l.e[i][j] == r.e[i][j]
    {
      var c := ColOf(z.e, j);
      assert Mul(x, y).e[i] == VecMat(x.e[i], y.e, y.cols);
      assert ColOf(Mul(y, z).e, j) == RowsTimes(y.e, c);
      VecMatThenDot(x.e[i], y.e, y.cols, c);
    }
    Extensional(l, r);
  }

  /** (x·y)ᵀ == yᵀ·xᵀ. */
  lemma TransposeOfProduct(x: Matrix, y: Matrix)
    requires IsWf(x) && IsWf(y) && x.cols == y.rows
    ensures Transpose(Mul(x, y)) == Mul(Transpose(y), Transpose(x))
  {
    var l, r := Transpose(Mul(x, y)), Mul(Transpose(y), Transpose(x));
    forall i, j | 0 <= i < y.cols && 0 <= j < x.rows
      ensures l.e[i][j] == r.e[i][j]
    {
      assert Transpose(y).e[i] == ColOf(y.e, i);
      assert ColOf(Transpose(x).e, j) == x.e[j];
      DotSymmetric(x.e[j], ColOf(y.e, i));
    }
    Extensional(l, r);
  }

  /** (xᵀ)ᵀ == x. */
  lemma TransposeInvolutive(x: Matrix)
    requires IsWf(x)
    ensures Transpose(Transpose(x)) == x
  {
    Extensional(Transpose(Transpose(x)), x);
  }

  /** A symmetric matrix is its own transpose. */
  lemma SymmetricIsOwnTranspose(m: Matrix)
    requires IsSymmetric(m)
    ensures Transpose(m) == m
  {
    Extensional(Transpose(m), m);
  }

  /** b·m·bᵀ is symmetric whenever m is: the shape of both covariance updates of the filter. */
  lemma CongruenceSymmetric(b: Matrix, m: Matrix)
    requires IsWf(b) && IsSymmetric(m) && b.cols == m.rows
    ensures IsSymmetric(Mul(Mul(b, m), Transpose(b)))
  {
    var c := Mul(Mul(b, m), Transpose(b));
    TransposeOfProduct(Mul(b, m), Transpose(b));
    TransposeInvolutive(b);
    TransposeOfProduct(b, m);
    SymmetricIsOwnTranspose(m);
    MulAssociative(b, m, Transpose(b));
    assert Transpose(c) == c;
    forall i, j | 0 <= i < c.rows && 0 <= j < c.rows
      ensures c.e[i][j] == c.e[j][i]
    {
      assert Transpose(c).e[i][j] == c.e[j][i];
    }
  }

  /** The sum of two symmetric matrices of the same size is symmetric. */
  lemma AddSymmetric(x: Matrix, y: Matrix)
    requires IsSymmetric(x) && IsSymmetric(y) && x.rows == y.rows
    ensures IsSymmetric(Add(x, y))
  {
  }
}
