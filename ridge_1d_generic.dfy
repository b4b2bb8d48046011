/**
 * ridge_1d_generic/src/regressor.rs: `GenRidgeEstimator`, generic over the
 * float type in the source and over `real` here. `fit` overwrites `beta`
 * with the centred estimate Σ(xi - x̄)(yi - ȳ) / (Σ(xi - x̄)² + lambda2·n),
 * `predict` scales every input by it. The equal-length assertion, a
 * non-empty input and a non-zero denominator are preconditions.
 */
module Ridge1dGeneric {
  import opened RidgeMath
  import opened RidgeUtils
  import Ridge1dFnEstimator

  class GenRidgeEstimator {
    var beta: real

    constructor (initBeta: real)
      ensures beta == initBeta
    {
      beta := initBeta;
    }

    method Fit(x: seq<real>, y: seq<real>, lambda2: real)
      requires |x| == |y| && |x| > 0
      requires Ridge1dFnEstimator.Denominator(x, lambda2) != 0.0
      modifies this`beta
      ensures beta == Ridge1dFnEstimator.RidgeEstimator(x, y, lambda2)
    {
      var num := SumCrossDev(x, y, Mean(x), Mean(y));
      var denom := Ridge1dFnEstimator.Denominator(x, lambda2);
      Ridge1dFnEstimator.EstimatorFromSums(x, y, lambda2, num, denom);
      beta := num / denom;
    }

    /** `x.iter().map(|xi| *xi * self.beta).collect()`. */
    function Predict(x: seq<real>): (r: seq<real>)
      reads this`beta
      ensures |r| == |x|
      ensures forall i :: 0 <= i < |x| ==> r[i] == x[i] * beta
    {
      MulScalarVec(beta, x)
    }
  }

  /** The test: fitting x = [1, 2], y = [0.1, 0.2] with lambda2 = 0 from 0 gives 0.1. */
  method SolutionScenario() returns (beta: real)
    ensures beta == 0.1
  {
    Ridge1dFnEstimator.RidgeEstimatorTestValue();
    var model := new GenRidgeEstimator(0.0);
    model.Fit([1.0, 2.0], [0.1, 0.2], 0.0);
    beta := model.beta;
  }
}
