/**
 * The losses of ridge_regression_1d/src/functional_std/loss_functions.rs
 * are modelled by RidgeLosses: their code divides the squared residual sum
 * by n. Their documentation, and the gradient that the crate's `fit`
 * descends along (grad_functions.rs, without a factor 2 on the data term),
 * describe Σ(yi - beta*xi)²/(2n) + lambda2*beta² instead. This module shows
 * the mismatch and states the documented loss, whose slope is that gradient.
 */
module FunctionalStdLosses {
  import opened RealSeqs
  import opened RidgeMath
  import RidgeLosses
  import RidgeRegressionGradients

  /**
   * As written, at x = [1], y = [1], beta = 0, lambda2 = 0 the loss changes by
   * -2h + h² when beta moves by h, so its slope is -2, while the gradient
   * descended by `fit` is -1.
   */
  lemma WrittenLossSlopeIsTwiceGradient(h: real)
    ensures RidgeRegressionGradients.GradInline([1.0], [1.0], 0.0, 0.0) == -1.0
    ensures RidgeLosses.LossInline([1.0], [1.0], h, 0.0) - RidgeLosses.LossInline([1.0], [1.0], 0.0, 0.0)
         == -2.0 * h + h * h
    ensures RidgeLosses.LossNaive([1.0], [1.0], h, 0.0) - RidgeLosses.LossNaive([1.0], [1.0], 0.0, 0.0)
         == -2.0 * h + h * h
  {
    RidgeLosses.NaiveEqualsInline([1.0], [1.0], h, 0.0);
    RidgeLosses.NaiveEqualsInline([1.0], [1.0], 0.0, 0.0);
    assert SquaredResidualSum([1.0], [1.0], h) == (1.0 - h) * (1.0 - h);
  }

  /** The documented loss Σ(yi - beta*xi)²/(2n) + lambda2*beta², with n = |y|. */
  function HalvedLoss(x: seq<real>, y: seq<real>, beta: real, lambda2: real): (r: real)
    requires |y| > 0
    ensures r >= lambda2 * beta * beta
  {
    var factor := 2.0 * (|y| as real);
    SquaredResidualSumNonNegative(x, y, beta);
    SquaredResidualSum(x, y, beta) / factor + lambda2 * beta * beta
  }

  /**
   * The gradient of grad_functions.rs is the slope of the documented loss:
   * moving beta by h changes it by h times the gradient plus a term of order h².
   */
  lemma GradIsHalvedLossSlope(x: seq<real>, y: seq<real>, beta: real, lambda2: real, h: real)
    requires |x| == |y| && |x| > 0
    ensures HalvedLoss(x, y, beta + h, lambda2) - HalvedLoss(x, y, beta, lambda2)
         == h * RidgeRegressionGradients.GradInline(x, y, beta, lambda2)
            + h * h * (InputSquareSum(x, y) / (2.0 * (|x| as real)) + lambda2)
  {
    var n := |x| as real;
    SquaredResidualExpansion(x, y, beta, h);
    assert n * (2.0 / 1.0) == 2.0 * n;
    assert (1.0 * ResidualCrossSum(x, y, beta)) / n == ResidualCrossSum(x, y, beta) / n;
    SlopeAlgebra(SquaredResidualSum(x, y, beta), ResidualCrossSum(x, y, beta), InputSquareSum(x, y),
                 n, beta, lambda2, h, 1.0);
  }
}
