/**
 * krr_ndarray/src/kernel.rs: the radial basis function kernel
 * k(x, y) = exp(−‖x − y‖² / (2ℓ²)). The exponential is a foreign call and
 * a parameter; `ExpLaw` states what the kernel's properties need of it.
 */
module KrrKernel {
  import opened RealSeqs
  import opened DenseMatrix

  datatype RBFKernel = RBFKernel(lengthscale: real)

  /** `RBFKernel::new`: panics unless the lengthscale is positive. */
  function NewKernel(lengthscale: real): (k: RBFKernel)
    requires lengthscale > 0.0
    ensures k.lengthscale == lengthscale && ValidKernel(k)
  {
    RBFKernel(lengthscale)
  }

  predicate ValidKernel(k: RBFKernel)
  {
    k.lengthscale > 0.0
  }

  /** exp(0) = 1 and exp(t) < 1 for t < 0. */
  ghost predicate ExpLaw(exp: real -> real)
  {
    exp(0.0) == 1.0 && forall t {:trigger exp(t)} :: t < 0.0 ==> exp(t) < 1.0
  }

  /** ‖x − y‖², written `diff.dot(&diff)` in the source. */
  function SquaredDistance(x: seq<real>, y: seq<real>): (d: real)
    requires |x| == |y|
    ensures d >= 0.0
    ensures d == 0.0 <==> x == y
  {
    var diff := VecSub(x, y);
    assert Dot(diff, diff) >= 0.0 && (Dot(diff, diff) == 0.0 <==> x == y) by {
      DotSelfNonNegative(diff);
      if x == y {
        DotSelfZero(diff);
      } else {
        var i :| 0 <= i < |x| && x[i] != y[i];
        DotSelfPositive(diff, i);
      }
    }
    Dot(diff, diff)
  }

  /**
   * `compute`: exp(−‖x − y‖² / (2ℓ²)); ndarray requires x and y of one
   * length. With an exponential that obeys `ExpLaw`, k(x, x) = 1 and
   * k(x, y) < 1 for x ≠ y.
   */
  function Compute(k: RBFKernel, exp: real -> real, x: seq<real>, y: seq<real>): (r: real)
    requires ValidKernel(k) && |x| == |y|
    ensures ExpLaw(exp) && x == y ==> r == 1.0
    ensures ExpLaw(exp) && x != y ==> r < 1.0
  {
    PowPositive(k.lengthscale, 2);
    var d, c := SquaredDistance(x, y), 2.0 * Pow(k.lengthscale, 2);
    assert x == y ==> -d / c == 0.0;
    assert x != y ==> -d / c < 0.0 by {
      if x != y {
        assert d / c > 0.0;
      }
    }
    exp(-d / c)
  }

  lemma PowPositive(r: real, k: nat)
    requires r > 0.0
    ensures Pow(r, k) > 0.0
  {
    if k > 0 {
      PowPositive(r, k - 1);
    }
  }

  /** A vector of zeros has squared norm 0. */
  lemma {:induction false} DotSelfZero(u: seq<real>)
    requires forall i :: 0 <= i < |u| ==> u[i] == 0.0
    ensures Dot(u, u) == 0.0
    decreases |u|
  {
    if |u| > 0 {
      DotSelfZero(u[1..]);
    }
  }

  /** u·u ≥ 0. */
  lemma {:induction false} DotSelfNonNegative(u: seq<real>)
    ensures Dot(u, u) >= 0.0
    decreases |u|
  {
    if |u| > 0 {
      assert Dot(u, u) == Product(u[0], u[0]) + Dot(u[1..], u[1..]);
      ProductSelfNonNegative(u[0]);
      DotSelfNonNegative(u[1..]);
    }
  }

  /** u·u > 0 when some entry of u is non-zero. */
  lemma {:induction false} DotSelfPositive(u: seq<real>, i: nat)
    requires i < |u| && u[i] != 0.0
    ensures Dot(u, u) > 0.0
    decreases |u|
  {
    assert Dot(u, u) == Product(u[0], u[0]) + Dot(u[1..], u[1..]);
    if i == 0 {
      ProductSelfPositive(u[0]);
      DotSelfNonNegative(u[1..]);
    } else {
      ProductSelfNonNegative(u[0]);
      DotSelfPositive(u[1..], i - 1);
    }
  }

  lemma PositiveProduct(a: real, b: real)
    requires a > 0.0 && b > 0.0
    ensures Product(a, b) > 0.0
  {
  }

  lemma ProductSelfPositive(t: real)
    requires t != 0.0
    ensures Product(t, t) > 0.0
  {
    if t > 0.0 {
      PositiveProduct(t, t);
    } else {
      PositiveProduct(-t, -t);
      assert Product(-t, -t) == Product(t, t);
    }
  }

  lemma ProductSelfNonNegative(t: real)
    ensures Product(t, t) >= 0.0
  {
    if t != 0.0 {
      ProductSelfPositive(t);
    }
  }

  /** Negating every entry keeps the squared norm. */
  lemma {:induction false} DotSelfNegated(u: seq<real>, v: seq<real>)
    requires |u| == |v| && forall i :: 0 <= i < |u| ==> v[i] == -u[i]
    ensures Dot(u, u) == Dot(v, v)
    decreases |u|
  {
    if |u| > 0 {
      assert v[0] * v[0] == u[0] * u[0];
      DotSelfNegated(u[1..], v[1..]);
    }
  }

  /** k(x, y) = k(y, x). */
  lemma KernelSymmetric(k: RBFKernel, exp: real -> real, x: seq<real>, y: seq<real>)
    requires ValidKernel(k) && |x| == |y|
    ensures Compute(k, exp, x, y) == Compute(k, exp, y, x)
  {
    DotSelfNegated(VecSub(x, y), VecSub(y, x));
  }

  /** With ℓ = 1, k([1, 2, 3], [1, 2, 3]) = 1. */
  lemma UnitKernelOnSamePoint(exp: real -> real)
    requires ExpLaw(exp)
    ensures Compute(NewKernel(1.0), exp, [1.0, 2.0, 3.0], [1.0, 2.0, 3.0]) == 1.0
  {
  }

  /** With ℓ = 1, k([1, 2, 3], [4, 5, 6]) < 1. */
  lemma UnitKernelOnDistinctPoints(exp: real -> real)
    requires ExpLaw(exp)
    ensures Compute(NewKernel(1.0), exp, [1.0, 2.0, 3.0], [4.0, 5.0, 6.0]) < 1.0
  {
    var x, y := [1.0, 2.0, 3.0], [4.0, 5.0, 6.0];
    assert x[0] != y[0];
  }
}
