/**
 * The update rules shared by the optimizer crates, as functions on sequences.
 *
 * Two sign conventions for momentum appear in the repository:
 *   additive:    v := mu*v + lr*g;  w := w - v   (trait and enum crates)
 *   heavy ball:  v := mu*v - lr*g;  w := w + v   (ndarray crates)
 * Both are defined here, together with the k-fold iterations that the
 * driver loops compute and Nesterov's extrapolation step.
 */
module UpdateRules {

  /** One gradient-descent step over the zipped prefix of `w` and `g`. */
  function GdStep(w: seq<real>, g: seq<real>, lr: real): (r: seq<real>)
    ensures |r| == |w|
    ensures forall i :: 0 <= i < |w| ==> r[i] == (if i < |g| then w[i] - lr * g[i] else w[i])
    decreases |w|
  {
    if |w| == 0 || |g| == 0 then w
    else [w[0] - lr * g[0]] + GdStep(w[1..], g[1..], lr)
  }

  /**
   * One additive momentum step over the zip of weights, gradients and velocity;
   * returns the new weights and the new velocity.
   */
  function MomentumStep(w: seq<real>, g: seq<real>, v: seq<real>, lr: real, mu: real): (r: (seq<real>, seq<real>))
    ensures |r.0| == |w| && |r.1| == |v|
    ensures forall i :: 0 <= i < |v| ==>
      r.1[i] == (if i < |w| && i < |g| then mu * v[i] + lr * g[i] else v[i])
    ensures forall i :: 0 <= i < |w| ==>
      r.0[i] == (if i < |g| && i < |v| then w[i] - (mu * v[i] + lr * g[i]) else w[i])
    decreases |w|
  {
    if |w| == 0 || |g| == 0 || |v| == 0 then (w, v)
    else
      var nv := mu * v[0] + lr * g[0];
      var rest := MomentumStep(w[1..], g[1..], v[1..], lr, mu);
      ([w[0] - nv] + rest.0, [nv] + rest.1)
  }

  /** One heavy-ball momentum step over the zip of weights, gradients and velocity. */
  function HeavyBallStep(w: seq<real>, g: seq<real>, v: seq<real>, lr: real, mu: real): (r: (seq<real>, seq<real>))
    ensures |r.0| == |w| && |r.1| == |v|
    ensures forall i :: 0 <= i < |v| ==>
      r.1[i] == (if i < |w| && i < |g| then mu * v[i] - lr * g[i] else v[i])
    ensures forall i :: 0 <= i < |w| ==>
      r.0[i] == (if i < |g| && i < |v| then w[i] + (mu * v[i] - lr * g[i]) else w[i])
    decreases |w|
  {
    if |w| == 0 || |g| == 0 || |v| == 0 then (w, v)
    else
      var nv := mu * v[0] - lr * g[0];
      var rest := HeavyBallStep(w[1..], g[1..], v[1..], lr, mu);
      ([w[0] + nv] + rest.0, [nv] + rest.1)
  }

  /** A sequence that agrees pointwise with one gradient step is that step. */
  lemma GdStepFrom(w: seq<real>, g: seq<real>, lr: real, r: seq<real>)
    requires |r| == |w|
    requires forall j :: 0 <= j < |w| ==> r[j] == (if j < |g| then w[j] - lr * g[j] else w[j])
    ensures r == GdStep(w, g, lr)
  {
  }

  /** Weights and velocity that agree pointwise with one additive momentum step are that step. */
  lemma MomentumStepFrom(w: seq<real>, g: seq<real>, v: seq<real>, lr: real, mu: real, rw: seq<real>, rv: seq<real>)
    requires |rw| == |w| && |rv| == |v|
    requires forall j :: 0 <= j < |v| ==> rv[j] == (if j < |w| && j < |g| then mu * v[j] + lr * g[j] else v[j])
    requires forall j :: 0 <= j < |w| ==> rw[j] == (if j < |g| && j < |v| then w[j] - (mu * v[j] + lr * g[j]) else w[j])
    ensures rw == MomentumStep(w, g, v, lr, mu).0 && rv == MomentumStep(w, g, v, lr, mu).1
  {
  }

  /** Weights and velocity that agree pointwise with one heavy-ball step are that step. */
  lemma HeavyBallStepFrom(w: seq<real>, g: seq<real>, v: seq<real>, lr: real, mu: real, rw: seq<real>, rv: seq<real>)
    requires |rw| == |w| && |rv| == |v|
    requires forall j :: 0 <= j < |v| ==> rv[j] == (if j < |w| && j < |g| then mu * v[j] - lr * g[j] else v[j])
    requires forall j :: 0 <= j < |w| ==> rw[j] == (if j < |g| && j < |v| then w[j] + (mu * v[j] - lr * g[j]) else w[j])
    ensures rw == HeavyBallStep(w, g, v, lr, mu).0 && rv == HeavyBallStep(w, g, v, lr, mu).1
  {
  }

  function Zeros(n: nat): (r: seq<real>)
    ensures |r| == n && forall i :: 0 <= i < n ==> r[i] == 0.0
  {
    if n == 0 then [] else Zeros(n - 1) + [0.0]
  }

  function Negate(v: seq<real>): (r: seq<real>)
    ensures |r| == |v| && forall i :: 0 <= i < |v| ==> r[i] == -v[i]
  {
    if |v| == 0 then [] else [-v[0]] + Negate(v[1..])
  }

  /** Weights after k steps of `w := GdStep(w, gradFn(w), lr)`. */
  function GdIterate(w: seq<real>, gradFn: seq<real> -> seq<real>, lr: real, k: nat): (r: seq<real>)
  {
    if k == 0 then w
    else
      var p := GdIterate(w, gradFn, lr, k - 1);
      GdStep(p, gradFn(p), lr)
  }

  /** Weights and velocity after k additive momentum steps. */
  function MomentumIterate(w: seq<real>, v: seq<real>, gradFn: seq<real> -> seq<real>, lr: real, mu: real, k: nat): (seq<real>, seq<real>)
  {
    if k == 0 then (w, v)
    else
      var p := MomentumIterate(w, v, gradFn, lr, mu, k - 1);
      MomentumStep(p.0, gradFn(p.0), p.1, lr, mu)
  }

  /** Weights and velocity after k heavy-ball steps. */
  function HeavyBallIterate(w: seq<real>, v: seq<real>, gradFn: seq<real> -> seq<real>, lr: real, mu: real, k: nat): (seq<real>, seq<real>)
  {
    if k == 0 then (w, v)
    else
      var p := HeavyBallIterate(w, v, gradFn, lr, mu, k - 1);
      HeavyBallStep(p.0, gradFn(p.0), p.1, lr, mu)
  }

  lemma {:induction false} GdIterateLength(w: seq<real>, gradFn: seq<real> -> seq<real>, lr: real, k: nat)
    ensures |GdIterate(w, gradFn, lr, k)| == |w|
  {
    if k > 0 {
      GdIterateLength(w, gradFn, lr, k - 1);
    }
  }

  lemma {:induction false} MomentumIterateLength(w: seq<real>, v: seq<real>, gradFn: seq<real> -> seq<real>, lr: real, mu: real, k: nat)
    ensures |MomentumIterate(w, v, gradFn, lr, mu, k).0| == |w|
    ensures |MomentumIterate(w, v, gradFn, lr, mu, k).1| == |v|
  {
    if k > 0 {
      MomentumIterateLength(w, v, gradFn, lr, mu, k - 1);
    }
  }

  lemma {:induction false} HeavyBallIterateLength(w: seq<real>, v: seq<real>, gradFn: seq<real> -> seq<real>, lr: real, mu: real, k: nat)
    ensures |HeavyBallIterate(w, v, gradFn, lr, mu, k).0| == |w|
    ensures |HeavyBallIterate(w, v, gradFn, lr, mu, k).1| == |v|
  {
    if k > 0 {
      HeavyBallIterateLength(w, v, gradFn, lr, mu, k - 1);
    }
  }

  /** A gradient step is undone by the step with the opposite learning rate. */
  lemma GdStepInverse(w: seq<real>, g: seq<real>, lr: real)
    ensures GdStep(GdStep(w, g, lr), g, -lr) == w
  {
    var r := GdStep(GdStep(w, g, lr), g, -lr);
    assert forall i :: 0 <= i < |w| ==> r[i] == w[i];
  }

  /** From a zero velocity, an additive momentum step is exactly a gradient step, and the velocity becomes lr*g. */
  lemma MomentumFromRestIsGd(w: seq<real>, g: seq<real>, lr: real, mu: real)
    ensures MomentumStep(w, g, Zeros(|w|), lr, mu).0 == GdStep(w, g, lr)
    ensures forall i :: 0 <= i < |w| && i < |g| ==> MomentumStep(w, g, Zeros(|w|), lr, mu).1[i] == lr * g[i]
  {
    var r := MomentumStep(w, g, Zeros(|w|), lr, mu);
    var s := GdStep(w, g, lr);
    assert forall i :: 0 <= i < |w| ==> r.0[i] == s[i];
  }

  /** From a zero velocity, a heavy-ball step is exactly a gradient step, and the velocity becomes -lr*g. */
  lemma HeavyBallFromRestIsGd(w: seq<real>, g: seq<real>, lr: real, mu: real)
    ensures HeavyBallStep(w, g, Zeros(|w|), lr, mu).0 == GdStep(w, g, lr)
    ensures forall i :: 0 <= i < |w| && i < |g| ==> HeavyBallStep(w, g, Zeros(|w|), lr, mu).1[i] == -lr * g[i]
  {
    var r := HeavyBallStep(w, g, Zeros(|w|), lr, mu);
    var s := GdStep(w, g, lr);
    assert forall i :: 0 <= i < |w| ==> r.0[i] == s[i];
  }

  /**
   * The two momentum conventions describe the same trajectory: the heavy-ball
   * velocity is the negated additive velocity.
   */
  lemma HeavyBallMirrorsMomentum(w: seq<real>, g: seq<real>, v: seq<real>, lr: real, mu: real)
    ensures HeavyBallStep(w, g, Negate(v), lr, mu).0 == MomentumStep(w, g, v, lr, mu).0
    ensures HeavyBallStep(w, g, Negate(v), lr, mu).1 == Negate(MomentumStep(w, g, v, lr, mu).1)
  {
    var h := HeavyBallStep(w, g, Negate(v), lr, mu);
    var m := MomentumStep(w, g, v, lr, mu);
    assert forall i :: 0 <= i < |w| ==> h.0[i] == m.0[i];
    assert forall i :: 0 <= i < |v| ==> h.1[i] == Negate(m.1)[i];
  }

  /** Over whole runs from a zero velocity, both conventions produce the same weights. */
  lemma {:induction false} HeavyBallRunMirrorsMomentumRun(w: seq<real>, gradFn: seq<real> -> seq<real>, lr: real, mu: real, k: nat)
    ensures HeavyBallIterate(w, Zeros(|w|), gradFn, lr, mu, k).0 == MomentumIterate(w, Zeros(|w|), gradFn, lr, mu, k).0
    ensures HeavyBallIterate(w, Zeros(|w|), gradFn, lr, mu, k).1 == Negate(MomentumIterate(w, Zeros(|w|), gradFn, lr, mu, k).1)
  {
    if k == 0 {
      assert Negate(Zeros(|w|)) == Zeros(|w|);
    } else {
      HeavyBallRunMirrorsMomentumRun(w, gradFn, lr, mu, k - 1);
      var m := MomentumIterate(w, Zeros(|w|), gradFn, lr, mu, k - 1);
      HeavyBallMirrorsMomentum(m.0, gradFn(m.0), m.1, lr, mu);
    }
  }

  // Nesterov's accelerated gradient (FISTA without the proximal operator).

  /** `sqrt` is a foreign call; the only fact the iteration needs is sqrt(a) >= 1 for a >= 1. */
  ghost predicate SqrtLaw(sqrt: real -> real)
  {
    forall a :: a >= 1.0 ==> sqrt(a) >= 1.0
  }

  /** t_{k+1} = (1 + sqrt(1 + 4 t_k^2)) / 2. */
  function NextT(t: real, sqrt: real -> real): (r: real)
    requires SqrtLaw(sqrt)
    ensures r >= 1.0
  {
    assert 1.0 + 4.0 * t * t >= 1.0;
    0.5 * (1.0 + sqrt(1.0 + 4.0 * t * t))
  }

  /** x := y1 + c * (y1 - y0), elementwise; the ndarray `Zip` requires equal shapes. */
  function Extrapolate(y1: seq<real>, y0: seq<real>, c: real): (r: seq<real>)
    requires |y1| == |y0|
    ensures |r| == |y1|
  {
    if |y1| == 0 then [] else [y1[0] + c * (y1[0] - y0[0])] + Extrapolate(y1[1..], y0[1..], c)
  }

  lemma {:induction false} ExtrapolateAt(y1: seq<real>, y0: seq<real>, c: real, i: nat)
    requires |y1| == |y0| && i < |y1|
    ensures Extrapolate(y1, y0, c)[i] == y1[i] + c * (y1[i] - y0[i])
  {
    if i > 0 {
      ExtrapolateAt(y1[1..], y0[1..], c, i - 1);
    }
  }

  /** The lengths the `Zip` calls of a NAG step need: every reached gradient has the weights' length. */
  ghost predicate GradPreservesLength(gradFn: seq<real> -> seq<real>, n: nat)
  {
    forall u :: |u| == n ==> |gradFn(u)| == n
  }

  /** One NAG step on (x, y_k, t_k); returns (x_{k+1}, y_{k+1}, t_{k+1}). */
  function NagStep(x: seq<real>, y: seq<real>, t: real, gradFn: seq<real> -> seq<real>, lr: real, sqrt: real -> real): (r: (seq<real>, seq<real>, real))
    requires SqrtLaw(sqrt) && t >= 1.0
    requires |y| == |x| && GradPreservesLength(gradFn, |x|)
    ensures |r.0| == |x| && |r.1| == |x| && r.2 >= 1.0
  {
    var yNext := GdStep(x, gradFn(x), lr);
    var tNext := NextT(t, sqrt);
    (Extrapolate(yNext, y, (t - 1.0) / tNext), yNext, tNext)
  }

  /** State (x_k, y_k, t_k) after k NAG steps from x_0, with y_0 = x_0 and t_0 = 1. */
  function NagRun(x0: seq<real>, gradFn: seq<real> -> seq<real>, lr: real, sqrt: real -> real, k: nat): (r: (seq<real>, seq<real>, real))
    requires SqrtLaw(sqrt) && (k > 0 ==> GradPreservesLength(gradFn, |x0|))
    ensures |r.0| == |x0| && |r.1| == |x0| && r.2 >= 1.0
  {
    if k == 0 then (x0, x0, 1.0)
    else
      var p := NagRun(x0, gradFn, lr, sqrt, k - 1);
      NagStep(p.0, p.1, p.2, gradFn, lr, sqrt)
  }

  /** With t_0 = 1 the first extrapolation coefficient is 0, so the first NAG step is a gradient step. */
  lemma NagFirstStepIsGd(x: seq<real>, gradFn: seq<real> -> seq<real>, lr: real, sqrt: real -> real)
    requires SqrtLaw(sqrt) && GradPreservesLength(gradFn, |x|)
    ensures NagRun(x, gradFn, lr, sqrt, 1).0 == GdStep(x, gradFn(x), lr)
    ensures NagRun(x, gradFn, lr, sqrt, 1).1 == GdStep(x, gradFn(x), lr)
  {
    var yNext := GdStep(x, gradFn(x), lr);
    var tNext := NextT(1.0, sqrt);
    assert (1.0 - 1.0) / tNext == 0.0;
    var e := Extrapolate(yNext, x, 0.0);
    forall i | 0 <= i < |x| ensures e[i] == yNext[i] {
      ExtrapolateAt(yNext, x, 0.0, i);
    }
  }

  // Values the crates' unit tests check, exact over the reals.

  lemma GdStepTestValue()
    ensures GdStep([1.0, 2.0, 3.0], [0.5, 0.5, 0.5], 0.1) == [0.95, 1.95, 2.95]
  {
    var r := GdStep([1.0, 2.0, 3.0], [0.5, 0.5, 0.5], 0.1);
    assert r[0] == 0.95 && r[1] == 1.95 && r[2] == 2.95;
  }

  lemma MomentumTwoStepsTestValue()
    ensures MomentumStep([1.0, 2.0, 3.0], [0.5, 0.5, 0.5], Zeros(3), 0.1, 0.9).0 == [0.95, 1.95, 2.95]
    ensures MomentumStep([0.95, 1.95, 2.95], [0.5, 0.5, 0.5], MomentumStep([1.0, 2.0, 3.0], [0.5, 0.5, 0.5], Zeros(3), 0.1, 0.9).1, 0.1, 0.9).0
      == [0.855, 1.855, 2.855]
  {
    var r1 := MomentumStep([1.0, 2.0, 3.0], [0.5, 0.5, 0.5], Zeros(3), 0.1, 0.9);
    assert r1.0[0] == 0.95 && r1.0[1] == 1.95 && r1.0[2] == 2.95;
    assert r1.1[0] == 0.05 && r1.1[1] == 0.05 && r1.1[2] == 0.05;
    var r2 := MomentumStep([0.95, 1.95, 2.95], [0.5, 0.5, 0.5], r1.1, 0.1, 0.9);
    assert r2.0[0] == 0.855 && r2.0[1] == 1.855 && r2.0[2] == 2.855;
  }

  lemma HeavyBallTwoStepsTestValue()
    ensures HeavyBallIterate([1.0, 2.0, 3.0], Zeros(3), _ => [0.5, 0.5, 0.5], 0.1, 0.9, 2).0 == [0.855, 1.855, 2.855]
  {
    var g: seq<real> -> seq<real> := _ => [0.5, 0.5, 0.5];
    var r1 := HeavyBallIterate([1.0, 2.0, 3.0], Zeros(3), g, 0.1, 0.9, 1);
    assert HeavyBallIterate([1.0, 2.0, 3.0], Zeros(3), g, 0.1, 0.9, 0) == ([1.0, 2.0, 3.0], Zeros(3));
    assert r1 == HeavyBallStep([1.0, 2.0, 3.0], [0.5, 0.5, 0.5], Zeros(3), 0.1, 0.9);
    assert r1.0 == [0.95, 1.95, 2.95];
    assert r1.1 == [-0.05, -0.05, -0.05];
    var r2 := HeavyBallIterate([1.0, 2.0, 3.0], Zeros(3), g, 0.1, 0.9, 2);
    assert r2 == HeavyBallStep(r1.0, [0.5, 0.5, 0.5], r1.1, 0.1, 0.9);
    assert r2.0[0] == 0.855 && r2.0[1] == 1.855 && r2.0[2] == 2.855;
  }
}
