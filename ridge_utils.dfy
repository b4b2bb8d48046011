/**
 * The vector helpers of the 1-D ridge crates (`mul_scalar_vec`,
 * `subtract_vectors`, `dot`, and the residual vector the naive gradients
 * collect). A length-mismatch panic is a precondition.
 */
module RidgeUtils {
  import opened RealSeqs
  import opened RidgeMath

  /** `vector.iter().map(|x| x * scalar).collect()`. */
  function MulScalarVec(scalar: real, vector: seq<real>): (r: seq<real>)
    ensures |r| == |vector|
    ensures forall i :: 0 <= i < |vector| ==> r[i] == vector[i] * scalar
  {
    if |vector| == 0 then [] else [vector[0] * scalar] + MulScalarVec(scalar, vector[1..])
  }

  /** `a.iter().zip(b.iter()).map(|(x, y)| x - y).collect()` after the equal-length assertion. */
  function SubtractVectors(a: seq<real>, b: seq<real>): (r: seq<real>)
    requires |a| == |b|
    ensures |r| == |a|
    ensures forall i :: 0 <= i < |a| ==> r[i] == a[i] - b[i]
  {
    if |a| == 0 then [] else [a[0] - b[0]] + SubtractVectors(a[1..], b[1..])
  }

  /** `a.iter().zip(b.iter()).map(|(xi, yi)| xi * yi).sum()` after the equal-length assertion. */
  function Dot(a: seq<real>, b: seq<real>): (r: real)
    requires |a| == |b|
  {
    ZipSum((ai, bi) => ai * bi, a, b)
  }

  /** A vector dotted with itself is non-negative. */
  lemma DotSelfNonNegative(a: seq<real>)
    ensures Dot(a, a) >= 0.0
  {
    SelfProductsNonNegative((ai, bi) => ai * bi, a);
  }

  /** A zipped sum of products of a vector with itself is a sum of squares. */
  lemma {:induction false} SelfProductsNonNegative(f: (real, real) -> real, a: seq<real>)
    requires forall u, v :: f(u, v) == u * v
    ensures ZipSum(f, a, a) >= 0.0
    decreases |a|
  {
    if |a| > 0 {
      SquareNonNegative(a[0]);
      SelfProductsNonNegative(f, a[1..]);
    }
  }

  lemma {:induction false} DotSymmetric(a: seq<real>, b: seq<real>)
    requires |a| == |b|
    ensures Dot(a, b) == Dot(b, a)
    decreases |a|
  {
    if |a| > 0 {
      DotSymmetric(a[1..], b[1..]);
    }
  }

  /** `x.iter().zip(y.iter()).map(|(xi, yi)| yi - beta * xi).collect()`. */
  function Residuals(x: seq<real>, y: seq<real>, beta: real): (r: seq<real>)
    requires |x| == |y|
    ensures |r| == |x|
    ensures forall i :: 0 <= i < |x| ==> r[i] == y[i] - beta * x[i]
  {
    if |x| == 0 then [] else [y[0] - beta * x[0]] + Residuals(x[1..], y[1..], beta)
  }

  /** dot(residuals, x) is the fused sum Σ (yi - beta*xi)*xi. */
  lemma DotResiduals(x: seq<real>, y: seq<real>, beta: real)
    requires |x| == |y|
    ensures Dot(Residuals(x, y, beta), x) == ResidualCrossSum(x, y, beta)
  {
    var r := Residuals(x, y, beta);
    ZipSumTermwise((ai, bi) => ai * bi, r, x, (xi, yi) => (yi - beta * xi) * xi, x, y);
  }

  /** On centred data, dot(residuals, x) is the centred cross sum minus beta times the centred sum of squares. */
  lemma CentredDotResiduals(x: seq<real>, y: seq<real>, beta: real)
    requires |x| == |y| && |x| > 0
    ensures Dot(Residuals(Centred(x), Centred(y), beta), Centred(x))
         == SumCrossDev(x, y, Mean(x), Mean(y)) - beta * SumSqDev(x, Mean(x))
  {
    DotResiduals(Centred(x), Centred(y), beta);
    CentredResidualCross(x, y, Mean(x), Mean(y), beta);
  }

  /** The residual vector built in two steps by `mul_scalar_vec` and `subtract_vectors`. */
  lemma ResidualsBySubtraction(x: seq<real>, y: seq<real>, beta: real)
    requires |x| == |y|
    ensures SubtractVectors(y, MulScalarVec(beta, x)) == Residuals(x, y, beta)
  {
  }
}
