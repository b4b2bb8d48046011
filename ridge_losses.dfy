/**
 * `loss_function_naive` and `loss_function_inline`, whose code is the same in
 * ridge_1d_fn/src/loss_functions.rs and in the functional_std module of
 * ridge_regression_1d: the mean squared residual (divided by n) plus
 * lambda2 * beta^2. The naive version checks the lengths and builds the
 * residual vector; the inline version divides by |y| and sums over the
 * zipped prefix without a check. A zero count divides by zero, which is
 * excluded by a precondition.
 */
module RidgeLosses {
  import opened RealSeqs
  import opened RidgeMath
  import opened RidgeUtils

  function LossNaive(x: seq<real>, y: seq<real>, beta: real, lambda2: real): (r: real)
    requires |x| == |y| && |x| > 0
    ensures r >= lambda2 * beta * beta
  {
    var n := |x| as real;
    var yHat := MulScalarVec(beta, x);
    var residuals := SubtractVectors(y, yHat);
    SumOfSquaresNonNegative(residuals);
    var mse := SumOfSquares(residuals) / n;
    mse + lambda2 * beta * beta
  }

  function LossInline(x: seq<real>, y: seq<real>, beta: real, lambda2: real): (r: real)
    requires |y| > 0
    ensures r >= lambda2 * beta * beta
  {
    var factor := |y| as real;
    SquaredResidualSumNonNegative(x, y, beta);
    var meanSquaredError := SquaredResidualSum(x, y, beta) / factor;
    meanSquaredError + lambda2 * beta * beta
  }

  /** Squaring the collected residuals and summing is the fused residual sum. */
  lemma {:induction false} SumOfSquaredResiduals(x: seq<real>, y: seq<real>, beta: real)
    requires |x| == |y|
    ensures SumOfSquares(Residuals(x, y, beta)) == SquaredResidualSum(x, y, beta)
  {
    if |x| > 0 {
      assert Residuals(x, y, beta)[1..] == Residuals(x[1..], y[1..], beta);
      SumOfSquaredResiduals(x[1..], y[1..], beta);
    }
  }

  /** For equal-length inputs the two versions agree exactly. */
  lemma NaiveEqualsInline(x: seq<real>, y: seq<real>, beta: real, lambda2: real)
    requires |x| == |y| && |x| > 0
    ensures LossNaive(x, y, beta, lambda2) == LossInline(x, y, beta, lambda2)
  {
    ResidualsBySubtraction(x, y, beta);
    SumOfSquaredResiduals(x, y, beta);
  }

  /** On data on the line y = beta*x only the penalty is left. */
  lemma LossAtExactFit(x: seq<real>, y: seq<real>, beta: real, lambda2: real)
    requires |x| == |y| && |x| > 0
    requires forall i :: 0 <= i < |x| ==> y[i] == beta * x[i]
    ensures LossNaive(x, y, beta, lambda2) == lambda2 * beta * beta
    ensures LossInline(x, y, beta, lambda2) == lambda2 * beta * beta
  {
    ExactFitResiduals(x, y, beta);
    NaiveEqualsInline(x, y, beta, lambda2);
  }

  /** The tests' data x = [1, 2], y = [0.1, 0.2] at beta = 0.1, lambda2 = 1: a positive loss, equal for both versions. */
  lemma LossTestValues()
    ensures LossNaive([1.0, 2.0], [0.1, 0.2], 0.1, 1.0) == 0.01
    ensures LossInline([1.0, 2.0], [0.1, 0.2], 0.1, 1.0) == 0.01
  {
    var x, y := [1.0, 2.0], [0.1, 0.2];
    forall i | 0 <= i < |x| ensures y[i] == 0.1 * x[i] {
    }
    LossAtExactFit(x, y, 0.1, 1.0);
  }
}
