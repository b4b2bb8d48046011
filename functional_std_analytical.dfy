/**
 * The closed-form estimator of ridge_regression_1d/src/functional_std/analytical.rs:
 * Σ(xi - x̄)(yi - ȳ) / (Σ(xi - x̄)² + lambda2), with the penalty added once
 * rather than scaled by n. The equal-length assertion, a non-empty input and
 * a non-zero denominator are preconditions.
 */
module FunctionalStdAnalytical {
  import opened RealSeqs
  import opened RidgeMath
  import Ridge1dFnEstimator

  /** The denominator Σ(xi - x̄)² + lambda2 of the closed form. */
  function Denominator(x: seq<real>, lambda2: real): (r: real)
    requires |x| > 0
  {
    SumSqDev(x, Mean(x)) + lambda2
  }

  /** The estimate solves r * (Σ(xi - x̄)² + lambda2) = Σ(xi - x̄)(yi - ȳ). */
  function RidgeEstimator(x: seq<real>, y: seq<real>, lambda2: real): (r: real)
    requires |x| == |y| && |x| > 0
    requires Denominator(x, lambda2) != 0.0
    ensures r * Denominator(x, lambda2) == SumCrossDev(x, y, Mean(x), Mean(y))
  {
    var xMean := Mean(x);
    var yMean := Mean(y);
    var num := SumCrossDev(x, y, xMean, yMean);
    var denom := SumSqDev(x, xMean) + lambda2;
    QuotientTimesDivisor(num / denom, num, denom);
    num / denom
  }

  /** With a positive penalty the denominator is positive. */
  lemma DenominatorPositive(x: seq<real>, lambda2: real)
    requires |x| > 0 && lambda2 > 0.0
    ensures Denominator(x, lambda2) > 0.0
  {
    SumSqDevNonNegative(x, Mean(x));
  }

  /** The estimate depends on the data only through the centred cross sum and the denominator. */
  lemma EstimatorFromSums(x: seq<real>, y: seq<real>, lambda2: real, num: real, den: real)
    requires |x| == |y| && |x| > 0
    requires SumCrossDev(x, y, Mean(x), Mean(y)) == num && Denominator(x, lambda2) == den && den != 0.0
    ensures RidgeEstimator(x, y, lambda2) == num / den
  {
  }

  /** Adding `c` to every x and `d` to every y does not change the estimate. */
  lemma ShiftInvariant(x: seq<real>, y: seq<real>, lambda2: real, c: real, d: real)
    requires |x| == |y| && |x| > 0
    requires Denominator(x, lambda2) != 0.0
    ensures Denominator(Shift(x, c), lambda2) != 0.0
    ensures RidgeEstimator(Shift(x, c), Shift(y, d), lambda2) == RidgeEstimator(x, y, lambda2)
  {
    MeanShift(x, c);
    SumSqDevShift(x, Mean(x), c);
    var num, den := SumCrossDev(x, y, Mean(x), Mean(y)), Denominator(x, lambda2);
    CentredRatioShift(x, y, lambda2, c, d);
    EstimatorFromSums(x, y, lambda2, num, den);
    EstimatorFromSums(Shift(x, c), Shift(y, d), lambda2, num, den);
  }

  /**
   * This estimator with the penalty lambda2·n is the estimator of
   * ridge_1d_fn with the penalty lambda2: the two differ only in how the
   * penalty is scaled.
   */
  lemma AgreesWithScaledPenalty(x: seq<real>, y: seq<real>, lambda2: real)
    requires |x| == |y| && |x| > 0
    requires Ridge1dFnEstimator.Denominator(x, lambda2) != 0.0
    ensures Denominator(x, lambda2 * (|x| as real)) != 0.0
    ensures RidgeEstimator(x, y, lambda2 * (|x| as real)) == Ridge1dFnEstimator.RidgeEstimator(x, y, lambda2)
  {
    var num, den := SumCrossDev(x, y, Mean(x), Mean(y)), Ridge1dFnEstimator.Denominator(x, lambda2);
    EstimatorFromSums(x, y, lambda2 * (|x| as real), num, den);
    Ridge1dFnEstimator.EstimatorFromSums(x, y, lambda2, num, den);
  }

  /** Without a penalty the two closed forms coincide. */
  lemma AgreesAtZeroPenalty(x: seq<real>, y: seq<real>)
    requires |x| == |y| && |x| > 0
    requires Denominator(x, 0.0) != 0.0
    ensures Ridge1dFnEstimator.Denominator(x, 0.0) != 0.0
    ensures RidgeEstimator(x, y, 0.0) == Ridge1dFnEstimator.RidgeEstimator(x, y, 0.0)
  {
    AgreesWithScaledPenalty(x, y, 0.0);
  }
}
