/**
 * The elementwise loops that the ndarray optimizers hand to `zip_mut_with`,
 * `Zip::for_each` and zipped iterators, as in-place array methods.
 * `zip_mut_with` and `Zip` require equal shapes (the panic is a precondition);
 * a zipped iterator stops at the shortest operand.
 */
module NdarrayZip {
  import opened UpdateRules

  /** `weights.zip_mut_with(&grads, |w, g| *w -= step_size * g)`. */
  method DescendInPlace(weights: array<real>, grads: seq<real>, stepSize: real)
    requires |grads| == weights.Length
    modifies weights
    ensures weights[..] == GdStep(old(weights[..]), grads, stepSize)
  {
    ghost var w0 := weights[..];
    var i := 0;
    while i < weights.Length
      invariant 0 <= i <= weights.Length
      invariant forall j :: 0 <= j < i ==> weights[j] == w0[j] - stepSize * grads[j]
      invariant forall j :: i <= j < weights.Length ==> weights[j] == w0[j]
    {
      weights[i] := weights[i] - stepSize * grads[i];
      i := i + 1;
    }
    GdStepFrom(w0, grads, stepSize, weights[..]);
  }

  /** The heavy-ball loop `v = mu*v - step_size*g; w += v` over `weights.iter_mut().zip(grads).zip(velocity)`. */
  method HeavyBallInPlace(weights: array<real>, grads: seq<real>, v0: seq<real>, stepSize: real, momentum: real)
    returns (v: seq<real>)
    modifies weights
    ensures weights[..] == HeavyBallStep(old(weights[..]), grads, v0, stepSize, momentum).0
    ensures v == HeavyBallStep(old(weights[..]), grads, v0, stepSize, momentum).1
  {
    ghost var w0 := weights[..];
    v := v0;
    var i := 0;
    while i < weights.Length && i < |grads| && i < |v|
      invariant 0 <= i <= weights.Length && i <= |grads| && |v| == |v0| && i <= |v|
      invariant forall j :: 0 <= j < i ==>
        v[j] == momentum * v0[j] - stepSize * grads[j] && weights[j] == w0[j] + v[j]
      invariant forall j :: i <= j < |v| ==> v[j] == v0[j]
      invariant forall j :: i <= j < weights.Length ==> weights[j] == w0[j]
    {
      var nv := momentum * v[i] - stepSize * grads[i];
      v := v[i := nv];
      weights[i] := weights[i] + nv;
      i := i + 1;
    }
    HeavyBallStepFrom(w0, grads, v0, stepSize, momentum, weights[..], v);
  }

  /** `let mut y = x.clone(); Zip::from(&mut y).and(&grad).for_each(|y, &g| *y -= step_size * g)`. */
  method DescendedCopy(x: array<real>, grads: seq<real>, stepSize: real) returns (y: seq<real>)
    requires |grads| == x.Length
    ensures y == GdStep(x[..], grads, stepSize)
  {
    y := x[..];
    var i := 0;
    while i < |y|
      invariant |y| == x.Length && 0 <= i <= |y|
      invariant forall j :: 0 <= j < i ==> y[j] == x[j] - stepSize * grads[j]
      invariant forall j :: i <= j < |y| ==> y[j] == x[j]
    {
      y := y[i := y[i] - stepSize * grads[i]];
      i := i + 1;
    }
    GdStepFrom(x[..], grads, stepSize, y);
  }

  /** `Zip::from(weights).and(&y1).and(&y0).for_each(|x, &a, &b| *x = a + c * (a - b))`. */
  method ExtrapolateInPlace(weights: array<real>, y1: seq<real>, y0: seq<real>, c: real)
    requires |y1| == weights.Length && |y0| == weights.Length
    modifies weights
    ensures weights[..] == Extrapolate(y1, y0, c)
  {
    var i := 0;
    while i < weights.Length
      invariant 0 <= i <= weights.Length
      invariant forall j :: 0 <= j < i ==> weights[j] == y1[j] + c * (y1[j] - y0[j])
    {
      weights[i] := y1[i] + c * (y1[i] - y0[i]);
      i := i + 1;
    }
    forall j | 0 <= j < weights.Length ensures weights[j] == Extrapolate(y1, y0, c)[j] {
      ExtrapolateAt(y1, y0, c, j);
    }
  }

  /** One NAG round: the gradient, the descended copy `y_next`, `t_next`, and the in-place extrapolation of the weights. */
  method NagRoundInPlace(weights: array<real>, y: seq<real>, t: real, gradFn: seq<real> -> seq<real>, stepSize: real, sqrt: real -> real)
    returns (yNext: seq<real>, tNext: real)
    requires SqrtLaw(sqrt) && t >= 1.0
    requires |y| == weights.Length && GradPreservesLength(gradFn, weights.Length)
    modifies weights
    ensures (weights[..], yNext, tNext) == NagStep(old(weights[..]), y, t, gradFn, stepSize, sqrt)
  {
    var grad := gradFn(weights[..]);
    yNext := DescendedCopy(weights, grad, stepSize);
    tNext := NextT(t, sqrt);
    ExtrapolateInPlace(weights, yNext, y, (t - 1.0) / tNext);
  }
}
