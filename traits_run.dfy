/**
 * `run_optimization` of the simple_optimizers_traits crate: `num_steps` rounds
 * of "gradient of the current weights, then one `step`". The generic driver is
 * written once per `Optimizer` implementor.
 */
module TraitsRun {
  import opened RealSeqs
  import opened UpdateRules
  import opened TraitsOptimizers

  method RunOptimizationGd(optimizer: GradientDescent, weights: array<real>, gradFn: seq<real> -> seq<real>, numSteps: nat)
    modifies weights
    ensures weights[..] == GdIterate(old(weights[..]), gradFn, optimizer.learningRate, numSteps)
  {
    var k := 0;
    while k < numSteps
      invariant 0 <= k <= numSteps
      invariant weights[..] == GdIterate(old(weights[..]), gradFn, optimizer.learningRate, k)
    {
      var grads := gradFn(weights[..]);
      optimizer.Step(weights, grads);
      k := k + 1;
    }
  }

  method RunOptimizationMomentum(optimizer: Momentum, weights: array<real>, gradFn: seq<real> -> seq<real>, numSteps: nat)
    modifies optimizer, weights
    ensures optimizer.learningRate == old(optimizer.learningRate) && optimizer.momentum == old(optimizer.momentum)
    ensures (weights[..], optimizer.velocity)
      == MomentumIterate(old(weights[..]), old(optimizer.velocity), gradFn, optimizer.learningRate, optimizer.momentum, numSteps)
  {
    var k := 0;
    while k < numSteps
      invariant 0 <= k <= numSteps
      invariant optimizer.learningRate == old(optimizer.learningRate) && optimizer.momentum == old(optimizer.momentum)
      invariant (weights[..], optimizer.velocity)
        == MomentumIterate(old(weights[..]), old(optimizer.velocity), gradFn, optimizer.learningRate, optimizer.momentum, k)
    {
      var grads := gradFn(weights[..]);
      optimizer.Step(weights, grads);
      k := k + 1;
    }
  }

  /** The gradient of (w - 3)^2 used by the crate's convergence test. */
  function QuadraticGrad(w: seq<real>): (r: seq<real>)
  {
    if |w| == 0 then [] else [2.0 * (w[0] - 3.0)]
  }

  /** With lr = 0.1 each step maps w - 3 to 0.8 (w - 3). */
  lemma {:induction false} GdOnQuadratic(k: nat)
    ensures GdIterate([0.0], QuadraticGrad, 0.1, k) == [3.0 - 3.0 * Pow(0.8, k)]
  {
    if k > 0 {
      GdOnQuadratic(k - 1);
      var q := Pow(0.8, k - 1);
      var p := [3.0 - 3.0 * q];
      assert QuadraticGrad(p) == [-6.0 * q];
      assert GdStep(p, [-6.0 * q], 0.1) == [3.0 - 3.0 * (0.8 * q)];
    }
  }

  /** 100 gradient-descent steps from 0 land within 1e-2 of the minimiser 3. */
  lemma GdConvergenceTest()
    ensures |GdIterate([0.0], QuadraticGrad, 0.1, 100)| == 1
    ensures -0.01 < GdIterate([0.0], QuadraticGrad, 0.1, 100)[0] - 3.0 < 0.01
  {
    GdOnQuadratic(100);
    PowSmall();
  }

  lemma PowSmall()
    ensures 0.0 <= Pow(0.8, 100) <= 0.000001
  {
    var p4 := Pow(0.8, 4);
    assert p4 == 0.8 * (0.8 * (0.8 * (0.8 * 1.0)));
    PowMultiply(0.8, 4, 25);
    PowMonotone(p4, 0.5, 25);
    PowNonNegative(p4, 25);
    var q5 := Pow(0.5, 5);
    assert q5 == 0.5 * (0.5 * (0.5 * (0.5 * (0.5 * 1.0))));
    PowMultiply(0.5, 5, 5);
    PowMonotone(q5, 0.05, 5);
    assert Pow(0.05, 5) == 0.05 * (0.05 * (0.05 * (0.05 * (0.05 * 1.0))));
  }

  /** The test itself: run the GD optimizer with lr 0.1 for 100 steps from [0]. */
  method GdConvergenceScenario() returns (w: real)
    ensures -0.01 < w - 3.0 < 0.01
  {
    var optimizer := new GradientDescent(0.1);
    var weights := new real[1];
    weights[0] := 0.0;
    assert weights[..] == [0.0];
    RunOptimizationGd(optimizer, weights, QuadraticGrad, 100);
    GdConvergenceTest();
    w := weights[0];
  }
}
