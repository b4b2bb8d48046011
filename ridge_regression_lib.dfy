/**
 * ridge_regression_1d/src/lib.rs: `fit` runs `gradient_descent` with the
 * fused gradient of grad_functions.rs, and `predict` scales every input by
 * the coefficient. The gradient is only evaluated, and its assertion only
 * reached, when at least one round runs.
 */
module RidgeRegressionLib {
  import opened RealSeqs
  import opened RidgeMath
  import opened RidgeUtils
  import RidgeRegressionGradients
  import RidgeRegressionOptimizer

  method Fit(x: seq<real>, y: seq<real>, lambda2: real, lr: real, nIters: nat, initBeta: real) returns (beta: real)
    requires nIters > 0 ==> |x| == |y| && |x| > 0
    ensures beta == GdBeta(RidgeRegressionGradients.GradInline, x, y, lambda2, lr, nIters, initBeta)
    ensures nIters == 0 ==> beta == initBeta
  {
    beta := RidgeRegressionOptimizer.GradientDescent(RidgeRegressionGradients.GradInline, x, y, lambda2, lr, nIters, initBeta);
  }

  /**
   * The fitted coefficient approaches Σ xi*yi / (Σ xi² + 2·lambda2·n)
   * geometrically, by the slope factor of the gradient per round.
   */
  method FitContraction(x: seq<real>, y: seq<real>, lambda2: real, lr: real, nIters: nat, initBeta: real) returns (beta: real)
    requires |x| == |y| && |x| > 0
    requires InputSquareSum(x, y) + 2.0 * lambda2 * (|x| as real) != 0.0
    ensures beta - UncentredEstimate(x, y, 2.0 * lambda2 * (|x| as real))
         == Pow(1.0 - lr * RidgeRegressionGradients.InlineSlope(x, y, lambda2), nIters)
            * (initBeta - UncentredEstimate(x, y, 2.0 * lambda2 * (|x| as real)))
  {
    beta := Fit(x, y, lambda2, lr, nIters, initBeta);
    RidgeRegressionGradients.InlineDescentContraction(x, y, lambda2, lr, nIters, initBeta);
  }

  /**
   * `x.iter().map(|xi| xi * beta).collect()`: one prediction per input.
   */
  function Predict(x: seq<real>, beta: real): (r: seq<real>)
    ensures |r| == |x|
    ensures forall i :: 0 <= i < |x| ==> r[i] == x[i] * beta
  {
    MulScalarVec(beta, x)
  }

  /** A zero coefficient predicts zero everywhere. */
  lemma PredictZero(x: seq<real>)
    ensures Predict(x, 0.0) == seq(|x|, _ => 0.0)
  {
  }

  /** Prediction is linear in the coefficient. */
  lemma PredictLinear(x: seq<real>, a: real, b: real, c: real)
    ensures |Predict(x, a * b + c)| == |x|
    ensures forall i :: 0 <= i < |x| ==> Predict(x, a * b + c)[i] == a * Predict(x, b)[i] + Predict(x, c)[i]
  {
    forall i | 0 <= i < |x|
      ensures Predict(x, a * b + c)[i] == a * Predict(x, b)[i] + Predict(x, c)[i]
    {
      assert x[i] * (a * b + c) == a * (x[i] * b) + x[i] * c;
    }
  }

  /** On data that lies on the line y = beta*x the prediction reproduces the targets. */
  lemma PredictReproducesExactData(x: seq<real>, y: seq<real>, beta: real)
    requires |x| == |y|
    requires forall i :: 0 <= i < |x| ==> y[i] == beta * x[i]
    ensures Predict(x, beta) == y
  {
    assert forall i :: 0 <= i < |x| ==> Predict(x, beta)[i] == y[i];
  }

}
