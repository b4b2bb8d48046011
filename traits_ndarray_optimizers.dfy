/**
 * The optimizers of the traits_and_ndarray module of the simple_optimizers
 * crate. `run` takes `&mut self` but never assigns a field, so each `Run`
 * modifies only the weight array; velocity, `y_k` and `t_k` are locals that
 * start afresh on every call.
 */
module TraitsNdarrayOptimizers {
  import opened UpdateRules
  import opened NdarrayZip

  class GD {
    var stepSize: real

    constructor (stepSize: real)
      ensures this.stepSize == stepSize
    {
      this.stepSize := stepSize;
    }

    /** `n_steps` rounds of w := w - step_size * grad(w). */
    method Run(weights: array<real>, gradFn: seq<real> -> seq<real>, nSteps: nat)
      requires nSteps > 0 ==> GradPreservesLength(gradFn, weights.Length)
      modifies weights
      ensures weights[..] == GdIterate(old(weights[..]), gradFn, stepSize, nSteps)
    {
      var k := 0;
      while k < nSteps
        invariant 0 <= k <= nSteps
        invariant weights[..] == GdIterate(old(weights[..]), gradFn, stepSize, k)
      {
        var grads := gradFn(weights[..]);
        DescendInPlace(weights, grads, stepSize);
        k := k + 1;
      }
    }
  }

  class AGD {
    var stepSize: real
    var momentum: real

    constructor (stepSize: real, momentum: real)
      ensures this.stepSize == stepSize && this.momentum == momentum
    {
      this.stepSize := stepSize;
      this.momentum := momentum;
    }

    /** From a zero velocity, `n_steps` heavy-ball rounds v := mu*v - step_size*g; w := w + v. */
    method Run(weights: array<real>, gradFn: seq<real> -> seq<real>, nSteps: nat)
      modifies weights
      ensures weights[..] == HeavyBallIterate(old(weights[..]), Zeros(weights.Length), gradFn, stepSize, momentum, nSteps).0
    {
      var velocity := Zeros(weights.Length);
      var k := 0;
      while k < nSteps
        invariant 0 <= k <= nSteps
        invariant (weights[..], velocity) == HeavyBallIterate(old(weights[..]), Zeros(weights.Length), gradFn, stepSize, momentum, k)
      {
        var grads := gradFn(weights[..]);
        velocity := HeavyBallInPlace(weights, grads, velocity, stepSize, momentum);
        k := k + 1;
      }
    }
  }

  class AdaptiveAGD {
    var stepSize: real

    constructor (stepSize: real)
      ensures this.stepSize == stepSize
    {
      this.stepSize := stepSize;
    }

    /**
     * From t_0 = 1 and y_0 = x_0, `n_steps` rounds of
     * y' := x - step_size*grad(x); t' := (1 + sqrt(1 + 4t^2))/2; x := y' + ((t-1)/t')(y' - y).
     */
    method Run(weights: array<real>, gradFn: seq<real> -> seq<real>, nSteps: nat, sqrt: real -> real)
      requires SqrtLaw(sqrt)
      requires nSteps > 0 ==> GradPreservesLength(gradFn, weights.Length)
      modifies weights
      ensures weights[..] == NagRun(old(weights[..]), gradFn, stepSize, sqrt, nSteps).0
    {
      ghost var x0 := weights[..];
      var t := 1.0;
      var y := weights[..];
      var k := 0;
      while k < nSteps
        invariant 0 <= k <= nSteps
        invariant (weights[..], y, t) == NagRun(x0, gradFn, stepSize, sqrt, k)
      {
        var yNext, tNext := NagRoundInPlace(weights, y, t, gradFn, stepSize, sqrt);
        y := yNext;
        t := tNext;
        k := k + 1;
      }
    }
  }
}
