/**
 * The loops over a weight slice that the trait-based and the enum-based
 * optimizers of the simple_optimizers crates run in `step`: the same code
 * appears in each crate, so it is written once here.
 */
module SliceLoops {
  import opened UpdateRules

  /** w[i] := w[i] - lr * g[i] over the zipped prefix; later weights are untouched. */
  method DescendInPlace(weights: array<real>, grads: seq<real>, lr: real)
    modifies weights
    ensures weights[..] == GdStep(old(weights[..]), grads, lr)
  {
    ghost var w0 := weights[..];
    var i := 0;
    while i < weights.Length && i < |grads|
      invariant 0 <= i <= weights.Length && i <= |grads|
      invariant forall j :: 0 <= j < i ==> weights[j] == w0[j] - lr * grads[j]
      invariant forall j :: i <= j < weights.Length ==> weights[j] == w0[j]
    {
      weights[i] := weights[i] - lr * grads[i];
      i := i + 1;
    }
    GdStepFrom(w0, grads, lr, weights[..]);
  }

  /** v[i] := mu*v[i] + lr*g[i]; w[i] := w[i] - v[i] over the zip of the three; returns the new velocity. */
  method MomentumInPlace(weights: array<real>, grads: seq<real>, v0: seq<real>, lr: real, mu: real) returns (v: seq<real>)
    modifies weights
    ensures weights[..] == MomentumStep(old(weights[..]), grads, v0, lr, mu).0
    ensures v == MomentumStep(old(weights[..]), grads, v0, lr, mu).1
  {
    ghost var w0 := weights[..];
    v := v0;
    var i := 0;
    while i < weights.Length && i < |grads| && i < |v|
      invariant 0 <= i <= weights.Length && i <= |grads| && |v| == |v0| && i <= |v|
      invariant forall j :: 0 <= j < i ==>
        v[j] == mu * v0[j] + lr * grads[j] && weights[j] == w0[j] - v[j]
      invariant forall j :: i <= j < |v| ==> v[j] == v0[j]
      invariant forall j :: i <= j < weights.Length ==> weights[j] == w0[j]
    {
      var nv := mu * v[i] + lr * grads[i];
      v := v[i := nv];
      weights[i] := weights[i] - nv;
      i := i + 1;
    }
    MomentumStepFrom(w0, grads, v0, lr, mu, weights[..], v);
  }
}
