/**
 * ridge_regression_1d/src/structured_ndarray/regressor.rs: a closed-form
 * estimator whose `beta` is `None` until `fit` stores the centred estimate
 * Σ(xi - x̄)(yi - ȳ) / (Σ(xi - x̄)² + lambda2·n); `predict` fails on an
 * unfitted model. The assertions of `fit` (n > 0, equal lengths) and a
 * non-zero denominator are preconditions.
 */
module StructuredNdarray {
  import opened Outcomes
  import opened RidgeMath
  import opened RidgeUtils
  import Ridge1dFnEstimator

  class RidgeEstimator {
    var beta: Option<real>

    constructor ()
      ensures beta == None
    {
      beta := None;
    }

    method Fit(x: seq<real>, y: seq<real>, lambda2: real)
      requires |x| > 0 && |x| == |y|
      requires Ridge1dFnEstimator.Denominator(x, lambda2) != 0.0
      modifies this`beta
      ensures beta == Some(Ridge1dFnEstimator.RidgeEstimator(x, y, lambda2))
    {
      var num := SumCrossDev(x, y, Mean(x), Mean(y));
      var denom := Ridge1dFnEstimator.Denominator(x, lambda2);
      Ridge1dFnEstimator.EstimatorFromSums(x, y, lambda2, num, denom);
      beta := Some(num / denom);
    }

    /** `Ok(beta * x)` once fitted, `Err("Model not fitted")` before. */
    function Predict(x: seq<real>): (r: Result<seq<real>, string>)
      reads this`beta
      ensures r.Err? <==> beta.None?
      ensures r.Err? ==> r.error == "Model not fitted"
      ensures r.Ok? ==> |r.value| == |x| && forall i :: 0 <= i < |x| ==> r.value[i] == beta.value * x[i]
    {
      match beta
      case Some(b) => Ok(MulScalarVec(b, x))
      case None => Err("Model not fitted")
    }
  }

  /** A new model has no coefficient and its prediction fails with "Model not fitted". */
  method UnfittedScenario() returns (r: Result<seq<real>, string>)
    ensures r == Err("Model not fitted")
  {
    var model := new RidgeEstimator();
    r := model.Predict([1.0, 2.0]);
  }

  /** Fitting the tests' data with lambda2 = 0 stores Some(0.1), and the model then predicts. */
  method SolutionScenario() returns (beta: Option<real>, r: Result<seq<real>, string>)
    ensures beta == Some(0.1)
    ensures r.Ok? && r.value == [0.1, 0.2]
  {
    Ridge1dFnEstimator.RidgeEstimatorTestValue();
    var model := new RidgeEstimator();
    model.Fit([1.0, 2.0], [0.1, 0.2], 0.0);
    beta := model.beta;
    r := model.Predict([1.0, 2.0]);
  }
}
