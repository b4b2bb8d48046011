/**
 * `run_optimization` of the simple_optimizers_enums crate: `num_steps` rounds of
 * "gradient of the current weights, then one `step`" on the enum optimizer,
 * whose final value is returned.
 */
module EnumsRun {
  import opened UpdateRules
  import opened EnumOptimizers

  method RunOptimization(optimizer: Optimizer, weights: array<real>, gradFn: seq<real> -> seq<real>, numSteps: nat)
    returns (final: Optimizer)
    modifies weights
    ensures final.GradientDescent? == optimizer.GradientDescent?
    ensures optimizer.GradientDescent? ==>
      final == optimizer && weights[..] == GdIterate(old(weights[..]), gradFn, optimizer.learningRate, numSteps)
    ensures optimizer.Momentum? ==>
      var r := MomentumIterate(old(weights[..]), optimizer.velocity, gradFn, optimizer.learningRate, optimizer.momentum, numSteps);
      final == optimizer.(velocity := r.1) && weights[..] == r.0
  {
    final := optimizer;
    var k := 0;
    while k < numSteps
      invariant 0 <= k <= numSteps
      invariant final.GradientDescent? == optimizer.GradientDescent?
      invariant optimizer.GradientDescent? ==>
        final == optimizer && weights[..] == GdIterate(old(weights[..]), gradFn, optimizer.learningRate, k)
      invariant optimizer.Momentum? ==>
        var r := MomentumIterate(old(weights[..]), optimizer.velocity, gradFn, optimizer.learningRate, optimizer.momentum, k);
        final == optimizer.(velocity := r.1) && weights[..] == r.0
    {
      var grads := gradFn(weights[..]);
      final := final.Step(weights, grads);
      k := k + 1;
    }
  }
}
