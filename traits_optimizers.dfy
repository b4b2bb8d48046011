/**
 * The `Optimizer` implementors of the simple_optimizers_traits crate.
 * `step` rewrites the weight slice in place; Momentum also rewrites its own
 * velocity vector. The `Optimizer` trait itself is represented by the two
 * classes sharing the method name `Step`, whose loops are those of
 * SliceLoops.
 */
module TraitsOptimizers {
  import opened UpdateRules
  import opened SliceLoops

  class GradientDescent {
    var learningRate: real

    constructor (learningRate: real)
      ensures this.learningRate == learningRate
    {
      this.learningRate := learningRate;
    }

    /** w[i] := w[i] - lr * g[i] over the zipped prefix; later weights are untouched. */
    method Step(weights: array<real>, grads: seq<real>)
      modifies weights
      ensures weights[..] == GdStep(old(weights[..]), grads, learningRate)
    {
      DescendInPlace(weights, grads, learningRate);
    }
  }

  class Momentum {
    var learningRate: real
    var momentum: real
    var velocity: seq<real>

    /** The velocity starts as `dim` zeros. */
    constructor (learningRate: real, momentum: real, dim: nat)
      ensures this.learningRate == learningRate && this.momentum == momentum
      ensures velocity == Zeros(dim)
    {
      this.learningRate := learningRate;
      this.momentum := momentum;
      velocity := Zeros(dim);
    }

    /** v[i] := mu*v[i] + lr*g[i]; w[i] := w[i] - v[i], over the zip of the three sequences. */
    method Step(weights: array<real>, grads: seq<real>)
      modifies this`velocity, weights
      ensures weights[..] == MomentumStep(old(weights[..]), grads, old(velocity), learningRate, momentum).0
      ensures velocity == MomentumStep(old(weights[..]), grads, old(velocity), learningRate, momentum).1
    {
      velocity := MomentumInPlace(weights, grads, velocity, learningRate, momentum);
    }
  }

  /** The crate's momentum test: two steps from [1, 2, 3] with constant gradient 0.5. */
  method MomentumTwoSteps() returns (first: seq<real>, second: seq<real>)
    ensures first == [0.95, 1.95, 2.95]
    ensures second == [0.855, 1.855, 2.855]
  {
    var opt := new Momentum(0.1, 0.9, 3);
    var weights := new real[3];
    weights[0], weights[1], weights[2] := 1.0, 2.0, 3.0;
    assert weights[..] == [1.0, 2.0, 3.0];
    opt.Step(weights, [0.5, 0.5, 0.5]);
    first := weights[..];
    opt.Step(weights, [0.5, 0.5, 0.5]);
    second := weights[..];
    MomentumTwoStepsTestValue();
  }
}
