/**
 * ridge_regression_1d/src/generics_std/generic_regressor.rs: a regressor
 * value holding `beta` and `lambda2` whose only operation is its loss
 * Σ(yi - beta*xi)²/(2n) + lambda2·beta², with n = |x| and the sum over the
 * zipped prefix. n = 0 divides by zero, so a non-empty `x` is a precondition.
 */
module GenericsStdGenericRegressor {
  import opened RealSeqs
  import opened RidgeMath

  datatype GenRidgeRegressor = GenRidgeRegressor(beta: real, lambda2: real)
  {
    function LossFunction(x: seq<real>, y: seq<real>): (r: real)
      requires |x| > 0
      ensures r >= lambda2 * beta * beta
    {
      var nF := |x| as real;
      SquaredResidualSumNonNegative(x, y, beta);
      var mse := SquaredResidualSum(x, y, beta) / (2.0 * nF);
      mse + lambda2 * beta * beta
    }
  }

  /** With a non-negative penalty the loss is non-negative. */
  lemma LossNonNegative(m: GenRidgeRegressor, x: seq<real>, y: seq<real>)
    requires |x| > 0 && m.lambda2 >= 0.0
    ensures m.LossFunction(x, y) >= 0.0
  {
    SquareNonNegative(m.beta);
    assert m.lambda2 * (m.beta * m.beta) >= 0.0;
  }

  /** On data on the line y = beta*x only the penalty is left. */
  lemma LossAtExactFit(m: GenRidgeRegressor, x: seq<real>, y: seq<real>)
    requires |x| == |y| && |x| > 0
    requires forall i :: 0 <= i < |x| ==> y[i] == m.beta * x[i]
    ensures m.LossFunction(x, y) == m.lambda2 * m.beta * m.beta
  {
    ExactFitResiduals(x, y, m.beta);
  }
}
