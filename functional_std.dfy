/**
 * ridge_regression_1d/src/functional_std/mod.rs: `fit` runs the crate's
 * `gradient_descent` with the fused gradient, and `predict` scales every
 * input by the coefficient. The module's own grad_functions.rs is not part
 * of this model; its fused gradient is modelled by the crate-level one.
 */
module FunctionalStd {
  import opened RidgeMath
  import opened RidgeUtils
  import RidgeRegressionGradients
  import RidgeRegressionOptimizer

  method Fit(x: seq<real>, y: seq<real>, lambda2: real, lr: real, nIters: nat, initBeta: real) returns (beta: real)
    requires nIters > 0 ==> |x| == |y| && |x| > 0
    ensures beta == GdBeta(RidgeRegressionGradients.GradInline, x, y, lambda2, lr, nIters, initBeta)
    ensures nIters == 0 ==> beta == initBeta
  {
    beta := RidgeRegressionOptimizer.GradientDescent(RidgeRegressionGradients.GradInline, x, y, lambda2, lr, nIters, initBeta);
  }

  /** `x.iter().map(|xi| xi * beta).collect()`. */
  function Predict(x: seq<real>, beta: real): (r: seq<real>)
    ensures |r| == |x|
    ensures forall i :: 0 <= i < |x| ==> r[i] == x[i] * beta
  {
    MulScalarVec(beta, x)
  }

  /** Prediction is linear in the coefficient: predicting with a + b adds the two predictions. */
  lemma PredictAdditive(x: seq<real>, a: real, b: real)
    ensures |Predict(x, a + b)| == |x|
    ensures forall i :: 0 <= i < |x| ==> Predict(x, a + b)[i] == Predict(x, a)[i] + Predict(x, b)[i]
  {
  }
}
