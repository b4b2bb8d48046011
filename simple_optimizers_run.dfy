/**
 * `run_optimization` of the simple_optimizers crate over its trait-based optimizers: `num_steps` rounds
 * of "gradient of the current weights, then one `step`". The generic driver is
 * written once per `Optimizer` implementor.
 */
module SimpleOptimizersRun {
  import opened UpdateRules
  import opened TraitsBasedOptimizers

  method RunOptimizationGd(optimizer: GradientDescent, weights: array<real>, gradFn: seq<real> -> seq<real>, numSteps: nat)
    modifies weights
    ensures weights[..] == GdIterate(old(weights[..]), gradFn, optimizer.learningRate, numSteps)
  {
    var k := 0;
    while k < numSteps
      invariant 0 <= k <= numSteps
      invariant weights[..] == GdIterate(old(weights[..]), gradFn, optimizer.learningRate, k)
    {
      var grads := gradFn(weights[..]);
      optimizer.Step(weights, grads);
      k := k + 1;
    }
  }

  method RunOptimizationMomentum(optimizer: Momentum, weights: array<real>, gradFn: seq<real> -> seq<real>, numSteps: nat)
    modifies optimizer, weights
    ensures optimizer.learningRate == old(optimizer.learningRate) && optimizer.momentum == old(optimizer.momentum)
    ensures (weights[..], optimizer.velocity)
      == MomentumIterate(old(weights[..]), old(optimizer.velocity), gradFn, optimizer.learningRate, optimizer.momentum, numSteps)
  {
    var k := 0;
    while k < numSteps
      invariant 0 <= k <= numSteps
      invariant optimizer.learningRate == old(optimizer.learningRate) && optimizer.momentum == old(optimizer.momentum)
      invariant (weights[..], optimizer.velocity)
        == MomentumIterate(old(weights[..]), old(optimizer.velocity), gradFn, optimizer.learningRate, optimizer.momentum, k)
    {
      var grads := gradFn(weights[..]);
      optimizer.Step(weights, grads);
      k := k + 1;
    }
  }
}
