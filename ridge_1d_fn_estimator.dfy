/**
 * The closed-form estimator of ridge_1d_fn/src/estimator.rs: the slope of
 * the centred data, Σ(xi - x̄)(yi - ȳ) / (Σ(xi - x̄)² + lambda2·n). The
 * equal-length assertion is a precondition, and so are a non-empty input and
 * a non-zero denominator, without which the division yields NaN.
 */
module Ridge1dFnEstimator {
  import opened RealSeqs
  import opened RidgeMath

  /** The denominator Σ(xi - x̄)² + lambda2·n of the closed form. */
  function Denominator(x: seq<real>, lambda2: real): (r: real)
    requires |x| > 0
  {
    SumSqDev(x, Mean(x)) + lambda2 * (|x| as real)
  }

  /** The estimate solves the normal equation r * (Σ(xi - x̄)² + lambda2·n) = Σ(xi - x̄)(yi - ȳ). */
  function RidgeEstimator(x: seq<real>, y: seq<real>, lambda2: real): (r: real)
    requires |x| == |y| && |x| > 0
    requires Denominator(x, lambda2) != 0.0
    ensures r * Denominator(x, lambda2) == SumCrossDev(x, y, Mean(x), Mean(y))
  {
    var n := |x| as real;
    var xMean := Mean(x);
    var yMean := Mean(y);
    var num := SumCrossDev(x, y, xMean, yMean);
    var denom := Denominator(x, lambda2);
    QuotientTimesDivisor(num / denom, num, denom);
    num / denom
  }

  /** With a positive penalty the denominator is positive, so the estimator is defined for all equal-length non-empty data. */
  lemma DenominatorPositive(x: seq<real>, lambda2: real)
    requires |x| > 0 && lambda2 > 0.0
    ensures Denominator(x, lambda2) > 0.0
  {
    SumSqDevNonNegative(x, Mean(x));
  }

  /** Adding `c` to every x leaves the denominator alone. */
  lemma DenominatorShift(x: seq<real>, lambda2: real, c: real)
    requires |x| > 0
    ensures Denominator(Shift(x, c), lambda2) == Denominator(x, lambda2)
  {
    MeanShift(x, c);
    SumSqDevShift(x, Mean(x), c);
  }

  /** Adding `c` to every x and `d` to every y does not change the estimate. */
  lemma ShiftInvariant(x: seq<real>, y: seq<real>, lambda2: real, c: real, d: real)
    requires |x| == |y| && |x| > 0
    requires Denominator(x, lambda2) != 0.0
    ensures Denominator(Shift(x, c), lambda2) != 0.0
    ensures RidgeEstimator(Shift(x, c), Shift(y, d), lambda2) == RidgeEstimator(x, y, lambda2)
  {
    DenominatorShift(x, lambda2, c);
    var num, den := SumCrossDev(x, y, Mean(x), Mean(y)), Denominator(x, lambda2);
    CentredRatioShift(x, y, lambda2 * (|x| as real), c, d);
    EstimatorFromSums(x, y, lambda2, num, den);
    EstimatorFromSums(Shift(x, c), Shift(y, d), lambda2, num, den);
  }

  /** The estimate depends on the data only through the centred cross sum and the denominator. */
  lemma EstimatorFromSums(x: seq<real>, y: seq<real>, lambda2: real, num: real, den: real)
    requires |x| == |y| && |x| > 0
    requires SumCrossDev(x, y, Mean(x), Mean(y)) == num && Denominator(x, lambda2) == den && den != 0.0
    ensures RidgeEstimator(x, y, lambda2) == num / den
  {
  }

  /** The test's data x = [1, 2], y = [0.1, 0.2] with lambda2 = 0 gives exactly 0.1. */
  lemma RidgeEstimatorTestValue()
    ensures SumSqDev([1.0, 2.0], Mean([1.0, 2.0])) == 0.5
    ensures RidgeEstimator([1.0, 2.0], [0.1, 0.2], 0.0) == 0.1
  {
    var x, y := [1.0, 2.0], [0.1, 0.2];
    assert Sum(x) == 3.0 by { assert x[1..] == [2.0]; }
    assert Sum(y) == 0.3 by { assert y[1..] == [0.2]; }
    assert SumSqDev(x, 1.5) == 0.5 by { assert x[1..] == [2.0]; }
    assert SumCrossDev(x, y, 1.5, 0.15) == 0.05 by { assert x[1..] == [2.0]; assert y[1..] == [0.2]; }
  }
}
