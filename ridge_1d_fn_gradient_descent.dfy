/**
 * ridge_1d_fn/src/gradient_descent.rs: two versions of the gradient of the
 * loss Σ(yi - beta*xi)²/n + lambda2*beta² (both carry the factor 2 on the
 * data term), and the loop that descends along a gradient function.
 * The equal-length assertions and a non-empty input are preconditions.
 */
module Ridge1dFnGradientDescent {
  import opened RealSeqs
  import opened RidgeMath
  import opened RidgeUtils
  import RidgeLosses
  import Ridge1dFnEstimator

  /**
   * -2·dot(residuals, x)/n + 2·lambda2·beta, with the residual vector
   * collected first: the data term is -2/n times the residual cross sum
   * Σ (yi - beta*xi)·xi.
   */
  function GradNaive(x: seq<real>, y: seq<real>, beta: real, lambda2: real): (r: real)
    requires |x| == |y| && |x| > 0
    ensures r == -2.0 * ResidualCrossSum(x, y, beta) / (|x| as real) + 2.0 * lambda2 * beta
  {
    var n := |x| as real;
    var residuals := Residuals(x, y, beta);
    var residualsDotX := Dot(residuals, x);
    DotResiduals(x, y, beta);
    -2.0 * residualsDotX / n + 2.0 * lambda2 * beta
  }

  /**
   * -(Σ 2(yi - beta*xi)xi)/n + 2·lambda2·beta in a single pass: the fused
   * sum is twice the residual cross sum Σ (yi - beta*xi)·xi.
   */
  function GradInline(x: seq<real>, y: seq<real>, beta: real, lambda2: real): (r: real)
    requires |x| == |y| && |x| > 0
    ensures r == -(2.0 * ResidualCrossSum(x, y, beta)) / (|x| as real) + 2.0 * lambda2 * beta
  {
    var n := |x| as real;
    var gradMse := ZipSum((xi, yi) => 2.0 * (yi - beta * xi) * xi, x, y) / n;
    InlineSum(x, y, beta);
    -gradMse + 2.0 * lambda2 * beta
  }

  /** The fused sum of the inline version is twice the residual cross sum. */
  lemma InlineSum(x: seq<real>, y: seq<real>, beta: real)
    ensures ZipSum((xi, yi) => 2.0 * (yi - beta * xi) * xi, x, y) == 2.0 * ResidualCrossSum(x, y, beta)
  {
    ZipSumScale((xi, yi) => (yi - beta * xi) * xi, (xi, yi) => 2.0 * (yi - beta * xi) * xi, 2.0, x, y);
  }

  lemma GradNaiveEqualsInline(x: seq<real>, y: seq<real>, beta: real, lambda2: real)
    requires |x| == |y| && |x| > 0
    ensures GradNaive(x, y, beta, lambda2) == GradInline(x, y, beta, lambda2)
  {
  }

  /** The tests' data x = [1, 2], y = [0.1, 0.2] at beta = 0.1, lambda2 = 1: both versions give 0.2. */
  lemma GradTestValues()
    ensures GradNaive([1.0, 2.0], [0.1, 0.2], 0.1, 1.0) == 0.2
    ensures GradInline([1.0, 2.0], [0.1, 0.2], 0.1, 1.0) == 0.2
  {
    var x, y := [1.0, 2.0], [0.1, 0.2];
    ExactFitResiduals(x, y, 0.1);
    GradNaiveEqualsInline(x, y, 0.1, 1.0);
    InlineSum(x, y, 0.1);
  }

  /**
   * The gradient is the slope of the loss of loss_functions.rs: moving beta by
   * h changes the loss by h times the gradient plus a term of order h².
   */
  lemma GradIsLossSlope(x: seq<real>, y: seq<real>, beta: real, lambda2: real, h: real)
    requires |x| == |y| && |x| > 0
    ensures RidgeLosses.LossInline(x, y, beta + h, lambda2) - RidgeLosses.LossInline(x, y, beta, lambda2)
         == h * GradInline(x, y, beta, lambda2) + h * h * (InputSquareSum(x, y) / (|x| as real) + lambda2)
  {
    SquaredResidualExpansion(x, y, beta, h);
    InlineSum(x, y, beta);
    SlopeAlgebra(SquaredResidualSum(x, y, beta), ResidualCrossSum(x, y, beta), InputSquareSum(x, y),
                 |x| as real, beta, lambda2, h, 2.0);
  }

  /**
   * The closed form of estimator.rs is the stationary point of this gradient
   * on the centred data: the normal equation the estimator solves.
   */
  lemma ClosedFormZeroesCentredGradient(x: seq<real>, y: seq<real>, lambda2: real)
    requires |x| == |y| && |x| > 0
    requires Ridge1dFnEstimator.Denominator(x, lambda2) != 0.0
    ensures GradNaive(Centred(x), Centred(y), Ridge1dFnEstimator.RidgeEstimator(x, y, lambda2), lambda2) == 0.0
  {
    var beta := Ridge1dFnEstimator.RidgeEstimator(x, y, lambda2);
    NormalEquationZeroesCentredGradient(x, y, lambda2, beta);
  }

  /** Any coefficient that solves the normal equation of the centred data is a stationary point of the centred gradient. */
  lemma NormalEquationZeroesCentredGradient(x: seq<real>, y: seq<real>, lambda2: real, beta: real)
    requires |x| == |y| && |x| > 0
    requires beta * Ridge1dFnEstimator.Denominator(x, lambda2) == SumCrossDev(x, y, Mean(x), Mean(y))
    ensures GradNaive(Centred(x), Centred(y), beta, lambda2) == 0.0
  {
    var g, num, sxx := GradNaive(Centred(x), Centred(y), beta, lambda2), SumCrossDev(x, y, Mean(x), Mean(y)), SumSqDev(x, Mean(x));
    var den, n := Ridge1dFnEstimator.Denominator(x, lambda2), |x| as real;
    CentredGradient(x, y, beta, lambda2);
    assert den == sxx + lambda2 * n && beta * den == num;
    assert g == -2.0 * (num - beta * sxx) / n + 2.0 * lambda2 * beta;
    StationaryAlgebra(g, num, sxx, den, n, lambda2, beta);
  }

  /** On centred data the gradient is written with the centred sums of the estimator. */
  lemma CentredGradient(x: seq<real>, y: seq<real>, beta: real, lambda2: real)
    requires |x| == |y| && |x| > 0
    ensures GradNaive(Centred(x), Centred(y), beta, lambda2)
         == -2.0 * (SumCrossDev(x, y, Mean(x), Mean(y)) - beta * SumSqDev(x, Mean(x))) / (|x| as real) + 2.0 * lambda2 * beta
  {
    CentredDotResiduals(x, y, beta);
  }

  /** The slope 2(Σ xi² + lambda2·n)/n of the gradient as a function of beta. */
  function InlineSlope(x: seq<real>, y: seq<real>, lambda2: real): (r: real)
    requires |x| > 0
  {
    2.0 * (InputSquareSum(x, y) + lambda2 * (|x| as real)) / (|x| as real)
  }

  /** The factor 1 - lr·a by which one round along the inline gradient shrinks the distance to its zero. */
  function InlineFactor(x: seq<real>, y: seq<real>, lambda2: real, lr: real): (r: real)
    requires |x| > 0
  {
    1.0 - lr * InlineSlope(x, y, lambda2)
  }

  /**
   * The inline gradient is affine in beta: its slope times the distance from
   * beta to Σ xi*yi / (Σ xi² + lambda2·n), the ridge coefficient of the data
   * taken without centring.
   */
  lemma GradInlineAffine(x: seq<real>, y: seq<real>, beta: real, lambda2: real)
    requires |x| == |y| && |x| > 0
    requires InputSquareSum(x, y) + lambda2 * (|x| as real) != 0.0
    ensures GradInline(x, y, beta, lambda2)
         == InlineSlope(x, y, lambda2) * (beta - UncentredEstimate(x, y, lambda2 * (|x| as real)))
  {
    InlineSum(x, y, beta);
    ResidualCrossSplit(x, y, beta);
    AffineGradientAlgebra(GradInline(x, y, beta, lambda2), ZipSum((xi, yi) => 2.0 * (yi - beta * xi) * xi, x, y),
                          ResidualCrossSum(x, y, beta), CrossSum(x, y), InputSquareSum(x, y), |x| as real, lambda2, 2.0,
                          lambda2 * (|x| as real), beta, InlineSlope(x, y, lambda2), UncentredEstimate(x, y, lambda2 * (|x| as real)));
  }

  /**
   * Descending along the inline gradient shrinks the distance to the
   * uncentred ridge coefficient by the factor 1 - lr·a in every round, with
   * `a` the slope of the gradient.
   */
  lemma InlineDescentContraction(x: seq<real>, y: seq<real>, lambda2: real, lr: real, k: nat, initBeta: real)
    requires |x| == |y| && |x| > 0
    requires InputSquareSum(x, y) + lambda2 * (|x| as real) != 0.0
    ensures GdBeta(GradInline, x, y, lambda2, lr, k, initBeta) - UncentredEstimate(x, y, lambda2 * (|x| as real))
         == Pow(InlineFactor(x, y, lambda2, lr), k) * (initBeta - UncentredEstimate(x, y, lambda2 * (|x| as real)))
  {
    GradInlineAffineEverywhere(x, y, lambda2);
    InlineContraction(x, y, lambda2, lr, k, initBeta, InlineSlope(x, y, lambda2), UncentredEstimate(x, y, lambda2 * (|x| as real)),
                      InlineFactor(x, y, lambda2, lr));
  }

  /** An inline gradient a·(b - s) in every b contracts the distance to s by r = 1 - lr·a per round. */
  lemma InlineContraction(x: seq<real>, y: seq<real>, lambda2: real, lr: real, k: nat, initBeta: real, a: real, s: real, r: real)
    requires |x| == |y| && |x| > 0
    requires var gradFn := GradInline;
             forall b :: gradFn(x, y, b, lambda2) == a * (b - s)
    requires r == 1.0 - lr * a
    ensures GdBeta(GradInline, x, y, lambda2, lr, k, initBeta) - s == Pow(r, k) * (initBeta - s)
  {
    GdBetaContraction(GradInline, x, y, lambda2, lr, a, s, r, k, initBeta);
  }

  /** The inline gradient is affine in every beta, with the same slope and zero. */
  lemma GradInlineAffineEverywhere(x: seq<real>, y: seq<real>, lambda2: real)
    requires |x| == |y| && |x| > 0
    requires InputSquareSum(x, y) + lambda2 * (|x| as real) != 0.0
    ensures var gradFn := GradInline;
            forall b :: gradFn(x, y, b, lambda2) == InlineSlope(x, y, lambda2) * (b - UncentredEstimate(x, y, lambda2 * (|x| as real)))
  {
    var gradFn := GradInline;
    forall b
      ensures gradFn(x, y, b, lambda2) == InlineSlope(x, y, lambda2) * (b - UncentredEstimate(x, y, lambda2 * (|x| as real)))
    {
      GradInlineAffine(x, y, b, lambda2);
    }
  }

  /** `ridge_estimator(grad_fn, ...)`: `n_iters` rounds of beta -= lr * grad_fn(x, y, beta, lambda2). */
  method RidgeEstimator(gradFn: (seq<real>, seq<real>, real, real) --> real, x: seq<real>, y: seq<real>,
                        lambda2: real, lr: real, nIters: nat, initBeta: real) returns (beta: real)
    requires nIters > 0 ==> forall b :: gradFn.requires(x, y, b, lambda2)
    ensures beta == GdBeta(gradFn, x, y, lambda2, lr, nIters, initBeta)
  {
    beta := initBeta;
    var k := 0;
    while k < nIters
      invariant 0 <= k <= nIters
      invariant beta == GdBeta(gradFn, x, y, lambda2, lr, k, initBeta)
    {
      var grad := gradFn(x, y, beta, lambda2);
      beta := beta - lr * grad;
      k := k + 1;
    }
  }
}
