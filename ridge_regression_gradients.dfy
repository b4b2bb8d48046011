/**
 * ridge_regression_1d/src/grad_functions.rs: the gradient of
 * Σ(yi - beta*xi)²/(2n) + lambda2*beta², written without the factor 2 on the
 * data term, in a version that collects the residuals and calls `dot`, and a
 * fused version. The equal-length assertion and a non-empty input (n = 0
 * divides by zero) are preconditions.
 */
module RidgeRegressionGradients {
  import opened RealSeqs
  import opened RidgeMath
  import opened RidgeUtils

  /**
   * -dot(residuals, x)/n + 2·lambda2·beta: the collected residuals dotted
   * with x are the residual cross sum Σ (yi - beta*xi)·xi.
   */
  function GradNaive(x: seq<real>, y: seq<real>, beta: real, lambda2: real): (r: real)
    requires |x| == |y| && |x| > 0
    ensures r == -ResidualCrossSum(x, y, beta) / (|x| as real) + 2.0 * lambda2 * beta
  {
    var n := |x| as real;
    var residuals := Residuals(x, y, beta);
    DotResiduals(x, y, beta);
    -Dot(residuals, x) / n + 2.0 * lambda2 * beta
  }

  /**
   * -(Σ (yi - beta*xi)*xi)/n + 2·lambda2·beta in a single pass: in the
   * moments of the data, (beta·Σ xi² - Σ xi·yi)/n + 2·lambda2·beta.
   */
  function GradInline(x: seq<real>, y: seq<real>, beta: real, lambda2: real): (r: real)
    requires |x| == |y| && |x| > 0
    ensures r == -(CrossSum(x, y) - beta * InputSquareSum(x, y)) / (|x| as real) + 2.0 * lambda2 * beta
  {
    var n := |x| as real;
    var gradMse := ResidualCrossSum(x, y, beta) / n;
    ResidualCrossSplit(x, y, beta);
    -gradMse + 2.0 * lambda2 * beta
  }

  lemma GradNaiveEqualsInline(x: seq<real>, y: seq<real>, beta: real, lambda2: real)
    requires |x| == |y| && |x| > 0
    ensures GradNaive(x, y, beta, lambda2) == GradInline(x, y, beta, lambda2)
  {
  }

  /** On data on the line y = beta*x only the penalty term is left. */
  lemma ExactFitGradient(x: seq<real>, y: seq<real>, beta: real, lambda2: real)
    requires |x| == |y| && |x| > 0
    requires forall i :: 0 <= i < |x| ==> y[i] == beta * x[i]
    ensures GradNaive(x, y, beta, lambda2) == 2.0 * lambda2 * beta
    ensures GradInline(x, y, beta, lambda2) == 2.0 * lambda2 * beta
  {
    ExactFitResiduals(x, y, beta);
    GradNaiveEqualsInline(x, y, beta, lambda2);
  }

  /** The slope (Σ xi² + 2·lambda2·n)/n of the gradient as a function of beta. */
  function InlineSlope(x: seq<real>, y: seq<real>, lambda2: real): (r: real)
    requires |x| > 0
  {
    (InputSquareSum(x, y) + 2.0 * lambda2 * (|x| as real)) / (|x| as real)
  }

  /** The factor 1 - lr·a by which one round along the inline gradient shrinks the distance to its zero. */
  function InlineFactor(x: seq<real>, y: seq<real>, lambda2: real, lr: real): (r: real)
    requires |x| > 0
  {
    1.0 - lr * InlineSlope(x, y, lambda2)
  }

  /**
   * The gradient is affine in beta: its slope times the distance from beta
   * to Σ xi*yi / (Σ xi² + 2·lambda2·n), the point where it vanishes.
   */
  lemma GradInlineAffine(x: seq<real>, y: seq<real>, beta: real, lambda2: real)
    requires |x| == |y| && |x| > 0
    requires InputSquareSum(x, y) + 2.0 * lambda2 * (|x| as real) != 0.0
    ensures GradInline(x, y, beta, lambda2)
         == InlineSlope(x, y, lambda2) * (beta - UncentredEstimate(x, y, 2.0 * lambda2 * (|x| as real)))
  {
    ResidualCrossSplit(x, y, beta);
    AffineGradientAlgebra(GradInline(x, y, beta, lambda2), ResidualCrossSum(x, y, beta), ResidualCrossSum(x, y, beta),
                          CrossSum(x, y), InputSquareSum(x, y), |x| as real, lambda2, 1.0, 2.0 * lambda2 * (|x| as real), beta,
                          InlineSlope(x, y, lambda2), UncentredEstimate(x, y, 2.0 * lambda2 * (|x| as real)));
  }

  /**
   * Descending along this gradient shrinks the distance to the point where it
   * vanishes by the factor 1 - lr·a in every round, with `a` its slope.
   */
  lemma InlineDescentContraction(x: seq<real>, y: seq<real>, lambda2: real, lr: real, k: nat, initBeta: real)
    requires |x| == |y| && |x| > 0
    requires InputSquareSum(x, y) + 2.0 * lambda2 * (|x| as real) != 0.0
    ensures GdBeta(GradInline, x, y, lambda2, lr, k, initBeta) - UncentredEstimate(x, y, 2.0 * lambda2 * (|x| as real))
         == Pow(InlineFactor(x, y, lambda2, lr), k) * (initBeta - UncentredEstimate(x, y, 2.0 * lambda2 * (|x| as real)))
  {
    GradInlineAffineEverywhere(x, y, lambda2);
    InlineContraction(x, y, lambda2, lr, k, initBeta, InlineSlope(x, y, lambda2), UncentredEstimate(x, y, 2.0 * lambda2 * (|x| as real)),
                      InlineFactor(x, y, lambda2, lr));
  }

  /** An inline gradient a·(b - s) in every b contracts the distance to s by r = 1 - lr·a per round. */
  lemma InlineContraction(x: seq<real>, y: seq<real>, lambda2: real, lr: real, k: nat, initBeta: real, a: real, s: real, r: real)
    requires |x| == |y| && |x| > 0
    requires var gradFn := GradInline;
             forall b :: gradFn(x, y, b, lambda2) == a * (b - s)
    requires r == 1.0 - lr * a
    ensures GdBeta(GradInline, x, y, lambda2, lr, k, initBeta) - s == Pow(r, k) * (initBeta - s)
  {
    GdBetaContraction(GradInline, x, y, lambda2, lr, a, s, r, k, initBeta);
  }

  /** The inline gradient is affine in every beta, with the same slope and zero. */
  lemma GradInlineAffineEverywhere(x: seq<real>, y: seq<real>, lambda2: real)
    requires |x| == |y| && |x| > 0
    requires InputSquareSum(x, y) + 2.0 * lambda2 * (|x| as real) != 0.0
    ensures var gradFn := GradInline;
            forall b :: gradFn(x, y, b, lambda2) == InlineSlope(x, y, lambda2) * (b - UncentredEstimate(x, y, 2.0 * lambda2 * (|x| as real)))
  {
    var gradFn := GradInline;
    forall b
      ensures gradFn(x, y, b, lambda2) == InlineSlope(x, y, lambda2) * (b - UncentredEstimate(x, y, 2.0 * lambda2 * (|x| as real)))
    {
      GradInlineAffine(x, y, b, lambda2);
    }
  }
}
