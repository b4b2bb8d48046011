/**
 * ridge_regression_1d/src/structured_std/regressor.rs: a regressor with a
 * private `beta`. Its loss is Σ(yi - beta*xi)²/(2n) + lambda2·beta² with
 * n = |y| over the zipped prefix, its gradient -(Σ (yi - beta*xi)*xi)/n +
 * 2·lambda2·beta after the equal-length assertion; `fit` resets beta, runs
 * the rounds and returns the final loss.
 */
module StructuredStd {
  import opened RealSeqs
  import opened RidgeMath
  import opened RidgeUtils

  /** `loss_function` evaluated at the coefficient `beta`. */
  function Loss(x: seq<real>, y: seq<real>, beta: real, lambda2: real): (r: real)
    requires |y| > 0
    ensures r >= lambda2 * beta * beta
  {
    var factor := 2.0 * (|y| as real);
    SquaredResidualSumNonNegative(x, y, beta);
    SquaredResidualSum(x, y, beta) / factor + lambda2 * beta * beta
  }

  /**
   * `grad_function` evaluated at the coefficient `beta`; in the moments of
   * the data it is (beta·Σ xi² - Σ xi·yi)/n + 2·lambda2·beta.
   */
  function Gradient(x: seq<real>, y: seq<real>, beta: real, lambda2: real): (r: real)
    requires |x| == |y| && |x| > 0
    ensures r == -(CrossSum(x, y) - beta * InputSquareSum(x, y)) / (|x| as real) + 2.0 * lambda2 * beta
  {
    var n := |x| as real;
    var gradMse := ResidualCrossSum(x, y, beta) / n;
    ResidualCrossSplit(x, y, beta);
    -gradMse + 2.0 * lambda2 * beta
  }

  /** The gradient is the slope of the loss: its two halves of the factor 2 match. */
  lemma GradientIsLossSlope(x: seq<real>, y: seq<real>, beta: real, lambda2: real, h: real)
    requires |x| == |y| && |x| > 0
    ensures Loss(x, y, beta + h, lambda2) - Loss(x, y, beta, lambda2)
         == h * Gradient(x, y, beta, lambda2) + h * h * (InputSquareSum(x, y) / (2.0 * (|x| as real)) + lambda2)
  {
    var n := |x| as real;
    SquaredResidualExpansion(x, y, beta, h);
    assert n * (2.0 / 1.0) == 2.0 * n;
    assert (1.0 * ResidualCrossSum(x, y, beta)) / n == ResidualCrossSum(x, y, beta) / n;
    SlopeAlgebra(SquaredResidualSum(x, y, beta), ResidualCrossSum(x, y, beta), InputSquareSum(x, y),
                 n, beta, lambda2, h, 1.0);
  }

  /** On data on the line y = beta*x the loss is the penalty and the gradient is its derivative 2·lambda2·beta. */
  lemma ExactFit(x: seq<real>, y: seq<real>, beta: real, lambda2: real)
    requires |x| == |y| && |x| > 0
    requires forall i :: 0 <= i < |x| ==> y[i] == beta * x[i]
    ensures Loss(x, y, beta, lambda2) == lambda2 * beta * beta
    ensures Gradient(x, y, beta, lambda2) == 2.0 * lambda2 * beta
  {
    ExactFitResiduals(x, y, beta);
  }

  /** The number of rounds of `for _ in 0..n_iters`: none for a negative count. */
  function Rounds(nIters: int): (r: nat)
  {
    if nIters > 0 then nIters else 0
  }

  class RidgeRegressor {
    var beta: real

    /**
     * Sets beta to `init_beta`, runs max(n_iters, 0) rounds of
     * beta -= lr * grad_function(x, y, lambda2) and returns the loss at the
     * final beta; the previous beta plays no part.
     */
    method Fit(x: seq<real>, y: seq<real>, lambda2: real, initBeta: real, nIters: int, lr: real) returns (loss: real)
      requires |y| > 0
      requires nIters > 0 ==> |x| == |y| && |x| > 0
      modifies this`beta
      ensures beta == GdBeta(Gradient, x, y, lambda2, lr, Rounds(nIters), initBeta)
      ensures loss == Loss(x, y, beta, lambda2)
    {
      beta := initBeta;
      var i := 0;
      while i < nIters
        invariant 0 <= i <= Rounds(nIters)
        invariant beta == GdBeta(Gradient, x, y, lambda2, lr, i, initBeta)
      {
        var grad := Gradient(x, y, beta, lambda2);
        assert GdBeta(Gradient, x, y, lambda2, lr, i + 1, initBeta) == beta - lr * grad;
        beta := beta - lr * grad;
        i := i + 1;
      }
      loss := Loss(x, y, beta, lambda2);
    }

    /** `x.iter().map(|xi| self.beta * xi).collect()`. */
    function Predict(x: seq<real>): (r: seq<real>)
      reads this`beta
      ensures |r| == |x|
      ensures forall i :: 0 <= i < |x| ==> r[i] == beta * x[i]
    {
      MulScalarVec(beta, x)
    }
  }
}
