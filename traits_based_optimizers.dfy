/**
 * The `Optimizer` implementors of the trait-based module of the simple_optimizers
 * crate (the same update rules as the simple_optimizers_traits crate).
 * `step` rewrites the weight slice in place; Momentum also rewrites its own
 * velocity vector. The `Optimizer` trait itself is represented by the two
 * classes sharing the method name `Step`, whose loops are those of
 * SliceLoops.
 */
module TraitsBasedOptimizers {
  import opened UpdateRules
  import opened SliceLoops

  class GradientDescent {
    var learningRate: real

    constructor (learningRate: real)
      ensures this.learningRate == learningRate
    {
      this.learningRate := learningRate;
    }

    /** w[i] := w[i] - lr * g[i] over the zipped prefix; later weights are untouched. */
    method Step(weights: array<real>, grads: seq<real>)
      modifies weights
      ensures weights[..] == GdStep(old(weights[..]), grads, learningRate)
    {
      DescendInPlace(weights, grads, learningRate);
    }
  }

  class Momentum {
    var learningRate: real
    var momentum: real
    var velocity: seq<real>

    /** The velocity starts as `dim` zeros. */
    constructor (learningRate: real, momentum: real, dim: nat)
      ensures this.learningRate == learningRate && this.momentum == momentum
      ensures velocity == Zeros(dim)
    {
      this.learningRate := learningRate;
      this.momentum := momentum;
      velocity := Zeros(dim);
    }

    /** v[i] := mu*v[i] + lr*g[i]; w[i] := w[i] - v[i], over the zip of the three sequences. */
    method Step(weights: array<real>, grads: seq<real>)
      modifies this`velocity, weights
      ensures weights[..] == MomentumStep(old(weights[..]), grads, old(velocity), learningRate, momentum).0
      ensures velocity == MomentumStep(old(weights[..]), grads, old(velocity), learningRate, momentum).1
    {
      velocity := MomentumInPlace(weights, grads, velocity, learningRate, momentum);
    }
  }
}
