/**
 * The enum-based optimizer of the simple_optimizers crate. `step` takes
 * `&mut self`: the optimizer value after the call is returned as `next`.
 */
module EnumOptimizers {
  import opened UpdateRules
  import opened SliceLoops

  datatype Optimizer =
    | GradientDescent(learningRate: real)
    | Momentum(learningRate: real, momentum: real, velocity: seq<real>)
  {
    /**
     * Matches the variant; gradient descent leaves the optimizer as it is,
     * momentum replaces only its velocity.
     */
    method Step(weights: array<real>, grads: seq<real>) returns (next: Optimizer)
      modifies weights
      ensures next.GradientDescent? == GradientDescent?
      ensures GradientDescent? ==> next == this && weights[..] == GdStep(old(weights[..]), grads, learningRate)
      ensures Momentum? ==>
        var r := MomentumStep(old(weights[..]), grads, velocity, learningRate, momentum);
        next == this.(velocity := r.1) && weights[..] == r.0
    {
      match this
      case GradientDescent(lr) =>
        DescendInPlace(weights, grads, lr);
        next := this;
      case Momentum(lr, mu, v0) =>
        var v := MomentumInPlace(weights, grads, v0, lr, mu);
        next := this.(velocity := v);
    }
  }

  /** `Optimizer::gradient_descent(lr)`. */
  function NewGradientDescent(learningRate: real): (r: Optimizer)
    ensures r.GradientDescent? && r.learningRate == learningRate
  {
    GradientDescent(learningRate)
  }

  /** `Optimizer::momentum(lr, mu, dim)`: a zero velocity of length `dim`. */
  function NewMomentum(learningRate: real, momentum: real, dim: nat): (r: Optimizer)
    ensures r.Momentum? && r.learningRate == learningRate && r.momentum == momentum
    ensures |r.velocity| == dim && forall i :: 0 <= i < dim ==> r.velocity[i] == 0.0
  {
    Momentum(learningRate, momentum, Zeros(dim))
  }

  /** The module's step tests: one GD step, then two momentum steps, from [1, 2, 3] with gradient 0.5. */
  method StepTests() returns (gd: seq<real>, first: seq<real>, second: seq<real>)
    ensures gd == [0.95, 1.95, 2.95]
    ensures first == [0.95, 1.95, 2.95]
    ensures second == [0.855, 1.855, 2.855]
  {
    var grads := [0.5, 0.5, 0.5];
    var weights := new real[3];
    weights[0], weights[1], weights[2] := 1.0, 2.0, 3.0;
    assert weights[..] == [1.0, 2.0, 3.0];
    var opt := NewGradientDescent(0.1);
    opt := opt.Step(weights, grads);
    gd := weights[..];
    GdStepTestValue();

    weights[0], weights[1], weights[2] := 1.0, 2.0, 3.0;
    assert weights[..] == [1.0, 2.0, 3.0];
    opt := NewMomentum(0.1, 0.9, 3);
    assert opt == Momentum(0.1, 0.9, Zeros(3));
    opt := opt.Step(weights, grads);
    first := weights[..];
    opt := opt.Step(weights, grads);
    second := weights[..];
    MomentumTwoStepsTestValue();
  }
}
