/**
 * ridge_1d_struct/src/regressor.rs: two models with a `beta` field. The
 * gradient-descent model also keeps its iteration count and learning rate;
 * its `fit` runs that many rounds from the current `beta` along
 * `grad_function`, whose code is the fused gradient of ridge_1d_fn
 * (Ridge1dFnGradientDescent.GradInline, factor 2 on the data term). The
 * closed-form model overwrites `beta` with the centred estimate.
 */
module Ridge1dStruct {
  import opened RealSeqs
  import opened RidgeMath
  import opened RidgeUtils
  import Ridge1dFnEstimator
  import Ridge1dFnGradientDescent

  /** `x.iter().map(|xi| beta * xi).collect()`. */
  function PredictFromBeta(beta: real, x: seq<real>): (r: seq<real>)
    ensures |r| == |x|
    ensures forall i :: 0 <= i < |x| ==> r[i] == beta * x[i]
  {
    MulScalarVec(beta, x)
  }

  class RidgeGradientDescent {
    var beta: real
    var nIters: nat
    var lr: real

    constructor (nIters: nat, lr: real, initBeta: real)
      ensures beta == initBeta && this.nIters == nIters && this.lr == lr
    {
      beta := initBeta;
      this.nIters := nIters;
      this.lr := lr;
    }

    /** `n_iters` rounds of beta -= lr * grad_function(x, y, lambda2), starting from the current beta. */
    method Fit(x: seq<real>, y: seq<real>, lambda2: real)
      requires nIters > 0 ==> |x| == |y| && |x| > 0
      modifies this`beta
      ensures beta == GdBeta(Ridge1dFnGradientDescent.GradInline, x, y, lambda2, lr, nIters, old(beta))
    {
      for i := 0 to nIters
        invariant beta == GdBeta(Ridge1dFnGradientDescent.GradInline, x, y, lambda2, lr, i, old(beta))
      {
        var grad := Ridge1dFnGradientDescent.GradInline(x, y, beta, lambda2);
        beta := beta - lr * grad;
      }
    }

    function Predict(x: seq<real>): (r: seq<real>)
      reads this`beta
      ensures |r| == |x|
      ensures forall i :: 0 <= i < |x| ==> r[i] == beta * x[i]
    {
      PredictFromBeta(beta, x)
    }
  }

  class RidgeEstimator {
    var beta: real

    constructor (initBeta: real)
      ensures beta == initBeta
    {
      beta := initBeta;
    }

    /** Overwrites beta with Σ(xi - x̄)(yi - ȳ) / (Σ(xi - x̄)² + lambda2·n), whatever it held. */
    method Fit(x: seq<real>, y: seq<real>, lambda2: real)
      requires |x| == |y| && |x| > 0
      requires Ridge1dFnEstimator.Denominator(x, lambda2) != 0.0
      modifies this`beta
      ensures beta == Ridge1dFnEstimator.RidgeEstimator(x, y, lambda2)
    {
      var num := SumCrossDev(x, y, Mean(x), Mean(y));
      var denom := Ridge1dFnEstimator.Denominator(x, lambda2);
      Ridge1dFnEstimator.EstimatorFromSums(x, y, lambda2, num, denom);
      beta := num / denom;
    }

    function Predict(x: seq<real>): (r: seq<real>)
      reads this`beta
      ensures |r| == |x|
      ensures forall i :: 0 <= i < |x| ==> r[i] == beta * x[i]
    {
      PredictFromBeta(beta, x)
    }
  }

  /**
   * On the tests' data x = [1, 2], y = [0.1, 0.2] with lambda2 = 0 and lr 0.1
   * the gradient is 5·(beta - 0.1), so every round halves beta - 0.1 and 100
   * rounds from 0 end within 1e-6 of 0.1.
   */
  lemma GdTestConverges()
    ensures -0.000001 < GdBeta(Ridge1dFnGradientDescent.GradInline, [1.0, 2.0], [0.1, 0.2], 0.0, 0.1, 100, 0.0) - 0.1 < 0.000001
  {
    HalvingSmall();
    TestDataContraction(100);
  }

  /** On the tests' data, k rounds from 0 leave beta - 0.1 = -0.1·(1 - 0.1·5)^k. */
  lemma TestDataContraction(k: nat)
    ensures GdBeta(Ridge1dFnGradientDescent.GradInline, [1.0, 2.0], [0.1, 0.2], 0.0, 0.1, k, 0.0) - 0.1
         == Pow(1.0 - 0.1 * 5.0, k) * (0.0 - 0.1)
  {
    TestDataSlope();
    Ridge1dFnGradientDescent.InlineDescentContraction([1.0, 2.0], [0.1, 0.2], 0.0, 0.1, k, 0.0);
  }

  /** On the tests' data the gradient has slope 5 and vanishes at 0.1. */
  lemma TestDataSlope()
    ensures InputSquareSum([1.0, 2.0], [0.1, 0.2]) + 0.0 * 2.0 != 0.0
    ensures UncentredEstimate([1.0, 2.0], [0.1, 0.2], 0.0 * 2.0) == 0.1
    ensures Ridge1dFnGradientDescent.InlineSlope([1.0, 2.0], [0.1, 0.2], 0.0) == 5.0
  {
    TestDataSums();
  }

  lemma TestDataSums()
    ensures InputSquareSum([1.0, 2.0], [0.1, 0.2]) == 5.0
    ensures CrossSum([1.0, 2.0], [0.1, 0.2]) == 0.5
  {
    var x, y := [1.0, 2.0], [0.1, 0.2];
    assert x[1..] == [2.0];
    assert y[1..] == [0.2];
  }

  lemma HalvingSmall()
    ensures 0.0 <= Pow(1.0 - 0.1 * 5.0, 100) <= 0.0000000001
  {
    assert 1.0 - 0.1 * 5.0 == 0.5;
    var p10 := Pow(0.5, 10);
    assert p10 == 0.5 * (0.5 * (0.5 * (0.5 * (0.5 * (0.5 * (0.5 * (0.5 * (0.5 * (0.5 * 1.0)))))))));
    PowMultiply(0.5, 10, 10);
    PowMonotone(p10, 0.1, 10);
    PowNonNegative(p10, 10);
    assert Pow(0.1, 10) == 0.1 * (0.1 * (0.1 * (0.1 * (0.1 * (0.1 * (0.1 * (0.1 * (0.1 * (0.1 * 1.0)))))))));
  }

  /** The closed-form test: fitting the tests' data from 0 gives exactly 0.1. */
  method EstimatorTestScenario() returns (beta: real)
    ensures beta == 0.1
  {
    Ridge1dFnEstimator.RidgeEstimatorTestValue();
    var model := new RidgeEstimator(0.0);
    model.Fit([1.0, 2.0], [0.1, 0.2], 0.0);
    beta := model.beta;
  }

  /** The gradient-descent test: 100 rounds with lr 0.1 from 0 end within 1e-6 of 0.1. */
  method GdTestScenario() returns (beta: real)
    ensures -0.000001 < beta - 0.1 < 0.000001
  {
    var model := new RidgeGradientDescent(100, 0.1, 0.0);
    model.Fit([1.0, 2.0], [0.1, 0.2], 0.0);
    beta := model.beta;
    GdTestConverges();
  }

  /** The two models agree within 1e-6 on the tests' data. */
  method EstimatorVersusGdScenario() returns (beta1: real, beta2: real)
    ensures -0.000001 < beta1 - beta2 < 0.000001
  {
    beta1 := EstimatorTestScenario();
    beta2 := GdTestScenario();
  }
}
