/**
 * The optimizers of the simple_optimizers_ndarray crate. `run` takes `&self`,
 * so each optimizer is an immutable value whose `Run` method changes only the
 * weight array. Momentum and NAG keep their velocity, `y_k` and `t_k` in locals
 * that start afresh on every call.
 */
module NdarrayOptimizers {
  import opened UpdateRules
  import opened NdarrayZip

  datatype GD = GD(stepSize: real)
  {
    /** `n_steps` rounds of w := w - step_size * grad(w). */
    method Run(weights: array<real>, gradFn: seq<real> -> seq<real>, nSteps: nat)
      requires nSteps > 0 ==> GradPreservesLength(gradFn, weights.Length)
      modifies weights
      ensures weights[..] == GdIterate(old(weights[..]), gradFn, stepSize, nSteps)
    {
      var k := 0;
      while k < nSteps
        invariant 0 <= k <= nSteps
        invariant weights[..] == GdIterate(old(weights[..]), gradFn, stepSize, k)
      {
        var grads := gradFn(weights[..]);
        DescendInPlace(weights, grads, stepSize);
        k := k + 1;
      }
    }
  }

  datatype Momentum = Momentum(stepSize: real, momentum: real)
  {
    /** From a zero velocity, `n_steps` heavy-ball rounds v := mu*v - step_size*g; w := w + v. */
    method Run(weights: array<real>, gradFn: seq<real> -> seq<real>, nSteps: nat)
      modifies weights
      ensures weights[..] == HeavyBallIterate(old(weights[..]), Zeros(weights.Length), gradFn, stepSize, momentum, nSteps).0
    {
      var velocity := Zeros(weights.Length);
      var k := 0;
      while k < nSteps
        invariant 0 <= k <= nSteps
        invariant (weights[..], velocity) == HeavyBallIterate(old(weights[..]), Zeros(weights.Length), gradFn, stepSize, momentum, k)
      {
        var grads := gradFn(weights[..]);
        velocity := HeavyBallInPlace(weights, grads, velocity, stepSize, momentum);
        k := k + 1;
      }
    }
  }

  datatype NAG = NAG(stepSize: real)
  {
    /**
     * From t_0 = 1 and y_0 = x_0, `n_steps` rounds of
     * y' := x - step_size*grad(x); t' := (1 + sqrt(1 + 4t^2))/2; x := y' + ((t-1)/t')(y' - y).
     */
    method Run(weights: array<real>, gradFn: seq<real> -> seq<real>, nSteps: nat, sqrt: real -> real)
      requires SqrtLaw(sqrt)
      requires nSteps > 0 ==> GradPreservesLength(gradFn, weights.Length)
      modifies weights
      ensures weights[..] == NagRun(old(weights[..]), gradFn, stepSize, sqrt, nSteps).0
    {
      ghost var x0 := weights[..];
      var t := 1.0;
      var y := weights[..];
      var k := 0;
      while k < nSteps
        invariant 0 <= k <= nSteps
        invariant (weights[..], y, t) == NagRun(x0, gradFn, stepSize, sqrt, k)
      {
        var yNext, tNext := NagRoundInPlace(weights, y, t, gradFn, stepSize, sqrt);
        y := yNext;
        t := tNext;
        k := k + 1;
      }
    }
  }

  /** The crate's tests: one GD step, and two momentum steps, from [1, 2, 3] with constant gradient 0.5. */
  method RunTests() returns (gd: seq<real>, momentum: seq<real>)
    ensures gd == [0.95, 1.95, 2.95]
    ensures momentum == [0.855, 1.855, 2.855]
  {
    var grad: seq<real> -> seq<real> := _ => [0.5, 0.5, 0.5];
    var weights := new real[3];
    weights[0], weights[1], weights[2] := 1.0, 2.0, 3.0;
    assert weights[..] == [1.0, 2.0, 3.0];
    GD(0.1).Run(weights, grad, 1);
    gd := weights[..];
    assert GdIterate([1.0, 2.0, 3.0], grad, 0.1, 0) == [1.0, 2.0, 3.0];
    GdStepTestValue();

    weights[0], weights[1], weights[2] := 1.0, 2.0, 3.0;
    assert weights[..] == [1.0, 2.0, 3.0];
    Momentum(0.1, 0.9).Run(weights, grad, 2);
    momentum := weights[..];
    HeavyBallTwoStepsTestValue();
  }
}
