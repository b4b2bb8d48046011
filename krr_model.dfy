/**
 * krr_ndarray/src/model.rs: the kernel ridge regression model. Fitting builds
 * the Gram matrix K of the training rows in a nested loop, solves
 * (K + λI)·α = y and stores the rows and α; prediction sums α_j·k(x_j, t) for
 * every test row t. The linear solve (`solve_into`) and the exponential are
 * foreign calls and parameters, with the laws `SolveLaw` and `ExpLaw`.
 */
module KrrModel {
  import opened Outcomes
  import opened RealSeqs
  import opened DenseMatrix
  import opened KrrKernel
  import opened KrrErrors

  /** k(x_r, x_c) for two rows of x. */
  function GramEntry(kernel: RBFKernel, exp: real -> real, x: Matrix, r: nat, c: nat): (res: real)
    requires ValidKernel(kernel) && IsWf(x) && r < x.rows && c < x.rows
  {
    Compute(kernel, exp, x.e[r], x.e[c])
  }

  /** The Gram matrix of the rows of x: symmetric, entry (r, c) is k(x_r, x_c). */
  function Gram(kernel: RBFKernel, exp: real -> real, x: Matrix): (g: Matrix)
    requires ValidKernel(kernel) && IsWf(x)
    ensures HasShape(g, x.rows, x.rows) && IsSymmetric(g)
    ensures forall r, c :: 0 <= r < x.rows && 0 <= c < x.rows ==> g.e[r][c] == GramEntry(kernel, exp, x, r, c)
  {
    var n := x.rows;
    var g := Matrix(n, n, seq(n, r requires 0 <= r < n => seq(n, c requires 0 <= c < n => GramEntry(kernel, exp, x, r, c))));
    assert IsSymmetric(g) by {
      forall r, c | 0 <= r < n && 0 <= c < n
        ensures g.e[r][c] == g.e[c][r]
      {
        KernelSymmetric(kernel, exp, x.e[r], x.e[c]);
      }
    }
    g
  }

  /** The Gram matrix of an RBF kernel has ones on its diagonal. */
  lemma GramDiagonalIsOne(kernel: RBFKernel, exp: real -> real, x: Matrix, r: nat)
    requires ValidKernel(kernel) && ExpLaw(exp) && IsWf(x) && r < x.rows
    ensures Gram(kernel, exp, x).e[r][r] == 1.0
  {
    assert Gram(kernel, exp, x).e[r][r] == Compute(kernel, exp, x.e[r], x.e[r]);
  }

  /** A = K + λI, the matrix of the linear system. */
  function Regularised(kernel: RBFKernel, lambda: real, exp: real -> real, x: Matrix): (a: Matrix)
    requires ValidKernel(kernel) && IsWf(x)
    ensures HasShape(a, x.rows, x.rows) && IsSymmetric(a)
    ensures forall r, c :: 0 <= r < x.rows && 0 <= c < x.rows ==>
      a.e[r][c] == GramEntry(kernel, exp, x, r, c) + (if r == c then lambda else 0.0)
  {
    var n := x.rows;
    Add(Gram(kernel, exp, x), Scale(lambda, Identity(n, n)))
  }

  /**
   * `solve_into` as a parameter: when it succeeds on an n×n system with an
   * n-vector right-hand side, its answer has length n and solves the system.
   */
  ghost predicate SolveLaw(solve: (Matrix, seq<real>) -> Result<seq<real>, string>)
  {
    forall a: Matrix, b: seq<real> {:trigger solve(a, b)} ::
      HasShape(a, |b|, |b|) && solve(a, b).Ok? ==> |solve(a, b).value| == |b| && MatVec(a, solve(a, b).value) == b
  }

  /** What `_fit` computes: α with (K + λI)·α = y, or the solver's failure as `LinAlgError`. */
  function Coefficients(kernel: RBFKernel, lambda: real, exp: real -> real,
                        solve: (Matrix, seq<real>) -> Result<seq<real>, string>, x: Matrix, y: seq<real>): (r: Result<seq<real>, KRRFitError>)
    requires ValidKernel(kernel) && IsWf(x) && |y| == x.rows && SolveLaw(solve)
    ensures r.Ok? ==> |r.value| == |y| && MatVec(Regularised(kernel, lambda, exp, x), r.value) == y
    ensures r.Err? <==> solve(Regularised(kernel, lambda, exp, x), y).Err?
    ensures r.Err? ==> r.error == LinAlgError(solve(Regularised(kernel, lambda, exp, x), y).error)
  {
    match solve(Regularised(kernel, lambda, exp, x), y)
    case Ok(a) => Ok(a)
    case Err(message) => Err(LinAlgError(message))
  }

  /** What `fit` computes: first the shape check, then `_fit`. */
  function FitOutcome(kernel: RBFKernel, lambda: real, exp: real -> real,
                      solve: (Matrix, seq<real>) -> Result<seq<real>, string>, x: Matrix, y: seq<real>): (r: Result<seq<real>, KRRFitError>)
    requires ValidKernel(kernel) && IsWf(x) && SolveLaw(solve)
    ensures x.rows != |y| <==> r == Err(ShapeMismatch(x.rows, |y|))
    ensures x.rows == |y| ==> r == Coefficients(kernel, lambda, exp, solve, x, y)
  {
    if x.rows != |y| then Err(ShapeMismatch(x.rows, |y|)) else Coefficients(kernel, lambda, exp, solve, x, y)
  }

  /** k(x_j, t) for every training row x_j. */
  function KernelColumn(kernel: RBFKernel, exp: real -> real, xt: Matrix, t: seq<real>): (col: seq<real>)
    requires ValidKernel(kernel) && IsWf(xt) && |t| == xt.cols
    ensures |col| == xt.rows && forall j :: 0 <= j < xt.rows ==> col[j] == Compute(kernel, exp, xt.e[j], t)
  {
    seq(xt.rows, j requires 0 <= j < xt.rows => Compute(kernel, exp, xt.e[j], t))
  }

  /** The prediction at every test row t: Σ_j α_j·k(x_j, t). */
  function Predictions(kernel: RBFKernel, exp: real -> real, xt: Matrix, alpha: seq<real>, xTest: Matrix): (p: seq<real>)
    requires ValidKernel(kernel) && IsWf(xt) && IsWf(xTest) && xTest.cols == xt.cols
    ensures |p| == xTest.rows
  {
    seq(xTest.rows, i requires 0 <= i < xTest.rows => Dot(alpha, KernelColumn(kernel, exp, xt, xTest.e[i])))
  }

  /** u·w = w_i when u is the i-th unit vector. */
  lemma {:induction false} DotUnit(u: seq<real>, w: seq<real>, i: nat)
    requires |u| == |w| && i < |u|
    requires forall k :: 0 <= k < |u| ==> u[k] == if k == i then 1.0 else 0.0
    ensures Dot(u, w) == w[i]
    decreases i
  {
    if i == 0 {
      DotZeroLeft(u[1..], w[1..]);
    } else {
      DotUnit(u[1..], w[1..], i - 1);
    }
  }

  /** The kernel column of training row i is row i of the Gram matrix. */
  lemma KernelColumnIsGramRow(kernel: RBFKernel, exp: real -> real, x: Matrix, i: nat)
    requires ValidKernel(kernel) && IsWf(x) && i < x.rows
    ensures KernelColumn(kernel, exp, x, x.e[i]) == Gram(kernel, exp, x).e[i]
  {
    var g, col := Gram(kernel, exp, x), KernelColumn(kernel, exp, x, x.e[i]);
    forall j | 0 <= j < x.rows
      ensures col[j] == g.e[i][j]
    {
      KernelSymmetric(kernel, exp, x.e[j], x.e[i]);
    }
  }

  /** Row i of K + λI dotted with w is row i of K dotted with w, plus λ·w_i. */
  lemma RegularisedRowDot(kernel: RBFKernel, lambda: real, exp: real -> real, x: Matrix, w: seq<real>, i: nat)
    requires ValidKernel(kernel) && IsWf(x) && |w| == x.rows && i < x.rows
    ensures Dot(Regularised(kernel, lambda, exp, x).e[i], w) == Dot(Gram(kernel, exp, x).e[i], w) + lambda * w[i]
  {
    var n := x.rows;
    var g, a, id := Gram(kernel, exp, x), Regularised(kernel, lambda, exp, x), Identity(n, n);
    forall k | 0 <= k < n
      ensures a.e[i][k] == lambda * id.e[i][k] + g.e[i][k]
    {
    }
    DotAxpy(lambda, id.e[i], g.e[i], a.e[i], w);
    DotUnit(id.e[i], w, i);
  }

  /** The prediction at training row i is y_i − λ·α_i when (K + λI)·α = y. */
  lemma PredictionAtTrainingRow(kernel: RBFKernel, lambda: real, exp: real -> real, x: Matrix, y: seq<real>, alpha: seq<real>, i: nat)
    requires ValidKernel(kernel) && IsWf(x) && |y| == x.rows && |alpha| == x.rows && i < x.rows
    requires MatVec(Regularised(kernel, lambda, exp, x), alpha) == y
    ensures Dot(alpha, KernelColumn(kernel, exp, x, x.e[i])) == y[i] - lambda * alpha[i]
  {
    KernelColumnIsGramRow(kernel, exp, x, i);
    DotSymmetric(alpha, Gram(kernel, exp, x).e[i]);
    RegularisedRowDot(kernel, lambda, exp, x, alpha, i);
  }

  /**
   * At the training rows the model reproduces y up to the ridge term:
   * when (K + λI)·α = y, the prediction at x_i is y_i − λ·α_i.
   */
  lemma PredictionsAtTrainingRows(kernel: RBFKernel, lambda: real, exp: real -> real, x: Matrix, y: seq<real>, alpha: seq<real>)
    requires ValidKernel(kernel) && IsWf(x) && |y| == x.rows && |alpha| == x.rows
    requires MatVec(Regularised(kernel, lambda, exp, x), alpha) == y
    ensures forall i :: 0 <= i < x.rows ==> Predictions(kernel, exp, x, alpha, x)[i] == y[i] - lambda * alpha[i]
  {
    forall i | 0 <= i < x.rows
      ensures Predictions(kernel, exp, x, alpha, x)[i] == y[i] - lambda * alpha[i]
    {
      PredictionAtTrainingRow(kernel, lambda, exp, x, y, alpha, i);
    }
  }

  /** Building the Gram matrix as `_fit` and `loo_cv_error` do: fill K[i][j] and K[j][i] for j ≤ i. */
  method GramMatrix(kernel: RBFKernel, exp: real -> real, x: Matrix) returns (g: Matrix)
    requires ValidKernel(kernel) && IsWf(x)
    ensures g == Gram(kernel, exp, x)
  {
    var n := x.rows;
    var k := new real[n, n]((_, _) => 0.0);
    for i := 0 to n
      invariant forall r, c :: 0 <= r < n && 0 <= c < n ==>
        k[r, c] == if r < i && c < i then GramEntry(kernel, exp, x, r, c) else 0.0
    {
      for j := 0 to i + 1
        invariant forall r, c :: 0 <= r < n && 0 <= c < n ==>
          k[r, c] == if (r < i && c < i) || (r == i && c < j) || (c == i && r < j) then GramEntry(kernel, exp, x, r, c) else 0.0
      {
        var kxy := Compute(kernel, exp, x.e[i], x.e[j]);
        KernelSymmetric(kernel, exp, x.e[i], x.e[j]);
        k[i, j] := kxy;
        k[j, i] := kxy;
      }
    }
    g := Matrix(n, n, seq(n, r requires 0 <= r < n reads k => seq(n, c requires 0 <= c < n reads k => k[r, c])));
    Extensional(g, Gram(kernel, exp, x));
  }

  /** `KRRModel`: the kernel, the ridge weight λ, and after fitting the training rows and α. */
  class KRRModel {
    var kernel: RBFKernel
    var lambda: real
    var xTrain: Option<Matrix>
    var alpha: Option<seq<real>>

    /** The training rows and α are both absent or both present, with one coefficient per row. */
    predicate Valid()
      reads this
    {
      ValidKernel(kernel) && (xTrain.Some? <==> alpha.Some?) &&
      (xTrain.Some? ==> IsWf(xTrain.value) && |alpha.value| == xTrain.value.rows)
    }

    /** `new`: stores the kernel and λ; nothing is fitted yet. */
    constructor(kernel: RBFKernel, lambda: real)
      requires ValidKernel(kernel)
      ensures this.kernel == kernel && this.lambda == lambda
      ensures xTrain == None && alpha == None && Valid()
    {
      this.kernel := kernel;
      this.lambda := lambda;
      xTrain := None;
      alpha := None;
    }

    /** `_fit`: solve (K + λI)·α = y; on success store x and α, on failure change nothing. */
    method FitUnchecked(x: Matrix, y: seq<real>, exp: real -> real, solve: (Matrix, seq<real>) -> Result<seq<real>, string>)
      returns (res: Result<(), KRRFitError>)
      requires Valid() && IsWf(x) && |y| == x.rows && SolveLaw(solve)
      modifies this
      ensures kernel == old(kernel) && lambda == old(lambda) && Valid()
      ensures match Coefficients(kernel, lambda, exp, solve, x, y)
        case Ok(a) => res == Ok(()) && xTrain == Some(x) && alpha == Some(a)
        case Err(e) => res == Err(e) && xTrain == old(xTrain) && alpha == old(alpha)
    {
      var k := GramMatrix(kernel, exp, x);
      var a := Add(k, Scale(lambda, Identity(|y|, |y|)));
      match solve(a, y)
      case Err(message) =>
        res := Err(LinAlgError(message));
      case Ok(sol) =>
        xTrain := Some(x);
        alpha := Some(sol);
        res := Ok(());
    }

    /** `fit`: a row count that differs from |y| is `ShapeMismatch` and changes nothing. */
    method Fit(x: Matrix, y: seq<real>, exp: real -> real, solve: (Matrix, seq<real>) -> Result<seq<real>, string>)
      returns (res: Result<(), KRRFitError>)
      requires Valid() && IsWf(x) && SolveLaw(solve)
      modifies this
      ensures kernel == old(kernel) && lambda == old(lambda) && Valid()
      ensures match FitOutcome(kernel, lambda, exp, solve, x, y)
        case Ok(a) => res == Ok(()) && xTrain == Some(x) && alpha == Some(a)
        case Err(e) => res == Err(e) && xTrain == old(xTrain) && alpha == old(alpha)
    {
      var n, m := x.rows, |y|;
      if n != m {
        return Err(ShapeMismatch(n, m));
      }
      res := FitUnchecked(x, y, exp, solve);
    }

    /**
     * `predict`: `NotFitted` before a successful fit; otherwise one value per
     * test row, accumulated over the training rows in order.
     */
    method Predict(xTest: Matrix, exp: real -> real) returns (res: Result<seq<real>, KRRPredictError>)
      requires Valid() && IsWf(xTest) && (xTrain.Some? ==> xTest.cols == xTrain.value.cols)
      ensures alpha.None? ==> res == Err(NotFitted)
      ensures alpha.Some? ==> res == Ok(Predictions(kernel, exp, xTrain.value, alpha.value, xTest))
    {
      if alpha.None? || xTrain.None? {
        return Err(NotFitted);
      }
      var coef, xt := alpha.value, xTrain.value;
      var nTrain, nTest := xt.rows, xTest.rows;
      var yPred := new real[nTest](_ => 0.0);
      ghost var target := Predictions(kernel, exp, xt, coef, xTest);
      for i := 0 to nTest
        invariant forall r :: 0 <= r < nTest ==> yPred[r] == if r < i then target[r] else 0.0
      {
        AccumulateRow(yPred, i, kernel, exp, xt, coef, xTest.e[i]);
      }
      res := Ok(yPred[..]);
      assert yPred[..] == target;
    }
  }

  /** The inner loop of `predict`: y_pred[i] += α_j·k(x_j, t) for every training row j in order. */
  method AccumulateRow(yPred: array<real>, i: nat, kernel: RBFKernel, exp: real -> real, xt: Matrix, coef: seq<real>, t: seq<real>)
    requires ValidKernel(kernel) && IsWf(xt) && |t| == xt.cols && |coef| == xt.rows && i < yPred.Length
    modifies yPred
    ensures yPred[i] == old(yPred[i]) + Dot(coef, KernelColumn(kernel, exp, xt, t))
    ensures forall r :: 0 <= r < yPred.Length && r != i ==> yPred[r] == old(yPred[r])
  {
    ghost var col := KernelColumn(kernel, exp, xt, t);
    for j := 0 to xt.rows
      invariant yPred[i] == old(yPred[i]) + ZipSum(Product, coef[..j], col[..j])
      invariant forall r :: 0 <= r < yPred.Length && r != i ==> yPred[r] == old(yPred[r])
    {
      var kVal := Compute(kernel, exp, xt.e[j], t);
      ZipSumSnoc(Product, coef, col, j);
      yPred[i] := yPred[i] + Product(coef[j], kVal);
    }
    assert coef[..xt.rows] == coef && col[..xt.rows] == col;
  }

  /** `new(RBFKernel::new(1.0), 1.0)` keeps λ = 1 and ℓ = 1. */
  method ConstructorKeepsParameters() returns (m: KRRModel)
    ensures m.lambda == 1.0 && m.kernel.lengthscale == 1.0
  {
    m := new KRRModel(NewKernel(1.0), 1.0);
  }
}
