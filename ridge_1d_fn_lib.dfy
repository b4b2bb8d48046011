/**
 * ridge_1d_fn/src/lib.rs: `fit` is the closed-form estimator of
 * estimator.rs and `predict` scales every input by the coefficient.
 */
module Ridge1dFnLib {
  import opened RidgeMath
  import opened RidgeUtils
  import Ridge1dFnEstimator
  import Ridge1dFnGradientDescent

  /** The fitted coefficient solves the normal equation of the centred data. */
  function Fit(x: seq<real>, y: seq<real>, lambda2: real): (beta: real)
    requires |x| == |y| && |x| > 0
    requires Ridge1dFnEstimator.Denominator(x, lambda2) != 0.0
    ensures beta * Ridge1dFnEstimator.Denominator(x, lambda2) == SumCrossDev(x, y, Mean(x), Mean(y))
  {
    Ridge1dFnEstimator.RidgeEstimator(x, y, lambda2)
  }

  /** The fitted coefficient is where the gradient of gradient_descent.rs vanishes on the centred data. */
  lemma FitIsStationary(x: seq<real>, y: seq<real>, lambda2: real)
    requires |x| == |y| && |x| > 0
    requires Ridge1dFnEstimator.Denominator(x, lambda2) != 0.0
    ensures Ridge1dFnGradientDescent.GradNaive(Centred(x), Centred(y), Fit(x, y, lambda2), lambda2) == 0.0
  {
    Ridge1dFnGradientDescent.NormalEquationZeroesCentredGradient(x, y, lambda2, Fit(x, y, lambda2));
  }

  /** `x.iter().map(|xi| xi * beta).collect()`; an empty input gives an empty prediction. */
  function Predict(x: seq<real>, beta: real): (r: seq<real>)
    ensures |r| == |x|
    ensures forall i :: 0 <= i < |x| ==> r[i] == x[i] * beta
  {
    MulScalarVec(beta, x)
  }
}
