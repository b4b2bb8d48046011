/**
 * The sums the 1-D ridge regression crates compute with iterator chains:
 * means, centred sums of squares and cross products, residual sums, and the
 * sequence of coefficients a scalar gradient-descent loop produces.
 */
module RidgeMath {
  import opened RealSeqs

  /** `s.iter().sum::<f64>() / n as f64`: the value whose n copies add up to the sum. */
  function Mean(s: seq<real>): (r: real)
    requires |s| > 0
    ensures r * (|s| as real) == Sum(s)
  {
    QuotientTimesDivisor(Sum(s) / (|s| as real), Sum(s), |s| as real);
    Sum(s) / (|s| as real)
  }

  /** Every entry plus `c`. */
  function Shift(s: seq<real>, c: real): (r: seq<real>)
    ensures |r| == |s|
    ensures forall i :: 0 <= i < |s| ==> r[i] == s[i] + c
  {
    if |s| == 0 then [] else [s[0] + c] + Shift(s[1..], c)
  }

  lemma {:induction false} ShiftZero(s: seq<real>)
    ensures Shift(s, 0.0) == s
  {
  }

  lemma {:induction false} SumShift(s: seq<real>, c: real)
    ensures Sum(Shift(s, c)) == Sum(s) + (|s| as real) * c
  {
    if |s| > 0 {
      assert Shift(s, c)[1..] == Shift(s[1..], c);
      SumShift(s[1..], c);
    }
  }

  /** Adding `c` to every entry adds `c` to the mean. */
  lemma MeanShift(s: seq<real>, c: real)
    requires |s| > 0
    ensures Mean(Shift(s, c)) == Mean(s) + c
  {
    SumShift(s, c);
    MeanShiftAlgebra(Sum(s), Sum(Shift(s, c)), |s| as real, c);
  }

  lemma MeanShiftAlgebra(a: real, b: real, n: real, c: real)
    requires n > 0.0 && b == a + n * c
    ensures b / n == a / n + c
  {
    assert b == (a / n + c) * n;
    DivideProduct(a / n + c, n);
  }

  lemma QuotientTimesDivisor(q: real, a: real, d: real)
    requires d != 0.0 && q == a / d
    ensures q * d == a
  {
  }

  lemma DivideProduct(a: real, n: real)
    requires n != 0.0
    ensures (a * n) / n == a
  {
  }

  /**
   * The algebra behind every "gradient is the slope of the loss" lemma: for a
   * loss s/(c·n) + lambda2·beta² whose residual sum moves to s - 2hr + h²q, the
   * change is h·(-(c'·r)/n + 2·lambda2·beta) + h²·(q/(c·n) + lambda2) with c·c' = 2.
   */
  lemma SlopeAlgebra(s: real, r: real, q: real, n: real, beta: real, lambda2: real, h: real, c: real)
    requires n > 0.0 && c > 0.0
    ensures ((s - 2.0 * h * r + h * h * q) / (n * (2.0 / c)) + lambda2 * (beta + h) * (beta + h))
          - (s / (n * (2.0 / c)) + lambda2 * beta * beta)
         == h * (-((c * r) / n) + 2.0 * lambda2 * beta) + h * h * (q / (n * (2.0 / c)) + lambda2)
  {
    var m := n * (2.0 / c);
    assert m > 0.0;
    var sm, rm, qm := s / m, (c * r) / n, q / m;
    assert s == sm * m;
    assert q == qm * m;
    assert c * r == rm * n;
    assert 2.0 * h * r == h * rm * m by {
      assert rm * m == rm * n * (2.0 / c);
      assert rm * n * (2.0 / c) == c * r * (2.0 / c);
    }
    assert s - 2.0 * h * r + h * h * q == (sm - h * rm + h * h * qm) * m;
    DivideProduct(sm - h * rm + h * h * qm, m);
  }

  /**
   * The algebra behind "the closed form zeroes the gradient": with
   * beta = num / (sxx + lambda2·n), -2·(num - beta·sxx)/n + 2·lambda2·beta = 0.
   */
  lemma StationaryAlgebra(g: real, num: real, sxx: real, den: real, n: real, lambda2: real, beta: real)
    requires n > 0.0
    requires den == sxx + lambda2 * n && beta * den == num
    requires g == -2.0 * (num - beta * sxx) / n + 2.0 * lambda2 * beta
    ensures g == 0.0
  {
    assert num - beta * sxx == beta * lambda2 * n;
    assert -2.0 * (num - beta * sxx) == (-2.0 * lambda2 * beta) * n;
    DivideProduct(-2.0 * lambda2 * beta, n);
  }

  /** The data centred on its mean. */
  function Centred(s: seq<real>): (r: seq<real>)
    requires |s| > 0
    ensures |r| == |s|
    ensures forall i :: 0 <= i < |s| ==> r[i] == s[i] - Mean(s)
  {
    Shift(s, -Mean(s))
  }

  /** `x.iter().map(|xi| (xi - m).powi(2)).sum()`. */
  function SumSqDev(x: seq<real>, m: real): (r: real)
  {
    MapSum(xi => (xi - m) * (xi - m), x)
  }

  /** `x.iter().zip(y).map(|(xi, yi)| (xi - mx) * (yi - my)).sum()`. */
  function SumCrossDev(x: seq<real>, y: seq<real>, mx: real, my: real): (r: real)
  {
    ZipSum((xi, yi) => (xi - mx) * (yi - my), x, y)
  }

  lemma SumSqDevNonNegative(x: seq<real>, m: real)
    ensures SumSqDev(x, m) >= 0.0
  {
    var f := xi => (xi - m) * (xi - m);
    forall u ensures f(u) >= 0.0 {
      SquareNonNegative(u - m);
    }
    MapSumNonNegative(f, x);
  }

  /** Shifting the data and its centre together leaves the squared deviations alone. */
  lemma {:induction false} SumSqDevShift(x: seq<real>, m: real, c: real)
    ensures SumSqDev(Shift(x, c), m + c) == SumSqDev(x, m)
  {
    if |x| > 0 {
      assert Shift(x, c)[1..] == Shift(x[1..], c);
      SumSqDevShift(x[1..], m, c);
    }
  }

  lemma {:induction false} SumCrossDevShift(x: seq<real>, y: seq<real>, mx: real, my: real, c: real, d: real)
    ensures SumCrossDev(Shift(x, c), Shift(y, d), mx + c, my + d) == SumCrossDev(x, y, mx, my)
    decreases |x|
  {
    if |x| > 0 && |y| > 0 {
      var sx, sy := Shift(x, c), Shift(y, d);
      assert sx[1..] == Shift(x[1..], c);
      assert sy[1..] == Shift(y[1..], d);
      assert (sx[0] - (mx + c)) * (sy[0] - (my + d)) == (x[0] - mx) * (y[0] - my);
      SumCrossDevShift(x[1..], y[1..], mx, my, c, d);
    }
  }

  /** The centred closed form `num / (denom + penalty)` does not see a shift of `x` by `c` or of `y` by `d`. */
  lemma CentredRatioShift(x: seq<real>, y: seq<real>, penalty: real, c: real, d: real)
    requires |x| == |y| && |x| > 0
    ensures SumCrossDev(Shift(x, c), Shift(y, d), Mean(Shift(x, c)), Mean(Shift(y, d)))
         == SumCrossDev(x, y, Mean(x), Mean(y))
    ensures SumSqDev(Shift(x, c), Mean(Shift(x, c))) == SumSqDev(x, Mean(x))
  {
    MeanShift(x, c);
    MeanShift(y, d);
    SumCrossDevShift(x, y, Mean(x), Mean(y), c, d);
    SumSqDevShift(x, Mean(x), c);
  }

  /** `s.iter().map(|x| x * x).sum()`. */
  function SumOfSquares(s: seq<real>): (r: real)
  {
    MapSum(u => u * u, s)
  }

  lemma SumOfSquaresNonNegative(s: seq<real>)
    ensures SumOfSquares(s) >= 0.0
  {
    var f := u => u * u;
    forall u ensures f(u) >= 0.0 {
      SquareNonNegative(u);
    }
    MapSumNonNegative(f, s);
  }

  /** Σ (yi - beta*xi)^2 over the zipped prefix. */
  function SquaredResidualSum(x: seq<real>, y: seq<real>, beta: real): (r: real)
  {
    ZipSum((xi, yi) => (yi - beta * xi) * (yi - beta * xi), x, y)
  }

  /** Σ (yi - beta*xi)*xi over the zipped prefix. */
  function ResidualCrossSum(x: seq<real>, y: seq<real>, beta: real): (r: real)
  {
    ZipSum((xi, yi) => (yi - beta * xi) * xi, x, y)
  }

  /** Σ xi^2 over the zipped prefix. */
  function InputSquareSum(x: seq<real>, y: seq<real>): (r: real)
  {
    ZipSum((xi, yi) => xi * xi, x, y)
  }

  /** Σ xi*yi over the zipped prefix. */
  function CrossSum(x: seq<real>, y: seq<real>): (r: real)
  {
    ZipSum((xi, yi) => xi * yi, x, y)
  }

  /**
   * The ridge coefficient of data that is not centred, Σ xi*yi / (Σ xi² + penalty):
   * the point where a gradient of the form -c·Σ(yi - beta*xi)xi/n + 2·lambda2·beta
   * vanishes, with penalty = 2·lambda2·n/c.
   */
  function UncentredEstimate(x: seq<real>, y: seq<real>, penalty: real): (r: real)
    requires InputSquareSum(x, y) + penalty != 0.0
  {
    CrossSum(x, y) / (InputSquareSum(x, y) + penalty)
  }

  /**
   * A gradient g = -(f/n) + 2·lambda2·beta whose data term is f = c·(cs - beta*iss)
   * is affine in beta: it is its slope times the distance from beta to
   * cs / (iss + p), where c·p = 2·lambda2·n.
   */
  lemma AffineGradientAlgebra(g: real, f: real, rcs: real, cs: real, iss: real, n: real, lambda2: real, c: real, p: real,
                              beta: real, a: real, s: real)
    requires n > 0.0 && iss + p != 0.0 && c * p == 2.0 * lambda2 * n
    requires f == c * rcs && rcs == cs - beta * iss
    requires g == -(f / n) + 2.0 * lambda2 * beta
    requires a == c * (iss + p) / n && s == cs / (iss + p)
    ensures g == a * (beta - s)
  {
    assert cs == s * (iss + p);
    calc {
      a * (beta - s);
      (c * (iss + p) * beta - c * (iss + p) * s) / n;
      (c * iss * beta + c * p * beta - c * cs) / n;
      (c * iss * beta + 2.0 * lambda2 * n * beta - c * cs) / n;
      -(f / n) + (2.0 * lambda2 * beta * n) / n;
      { DivideProduct(2.0 * lambda2 * beta, n); }
      g;
    }
  }

  lemma SquaredResidualSumNonNegative(x: seq<real>, y: seq<real>, beta: real)
    ensures SquaredResidualSum(x, y, beta) >= 0.0
  {
    var f := (xi, yi) => (yi - beta * xi) * (yi - beta * xi);
    forall u, v ensures f(u, v) >= 0.0 {
      SquareNonNegative(v - beta * u);
    }
    ZipSumNonNegative(f, x, y);
  }

  /**
   * Moving the coefficient by `h` changes the squared residual sum by
   * -2h·Σ r_i x_i + h²·Σ x_i²: the exact first-order expansion that makes
   * -2·Σ r_i x_i its derivative.
   */
  lemma {:induction false} SquaredResidualExpansion(x: seq<real>, y: seq<real>, beta: real, h: real)
    ensures SquaredResidualSum(x, y, beta + h)
         == SquaredResidualSum(x, y, beta) - 2.0 * h * ResidualCrossSum(x, y, beta) + h * h * InputSquareSum(x, y)
    decreases |x|
  {
    if |x| > 0 && |y| > 0 {
      SquaredResidualExpansion(x[1..], y[1..], beta, h);
      var a, b := x[0], y[0];
      assert (b - (beta + h) * a) * (b - (beta + h) * a)
          == (b - beta * a) * (b - beta * a) - 2.0 * h * ((b - beta * a) * a) + h * h * (a * a);
    }
  }

  /** The fused sum Σ (yi - beta*xi)*xi is Σ yi*xi - beta * Σ xi². */
  lemma ResidualCrossSplit(x: seq<real>, y: seq<real>, beta: real)
    ensures ResidualCrossSum(x, y, beta) == CrossSum(x, y) - beta * InputSquareSum(x, y)
  {
    var r, c, s := (xi, yi) => (yi - beta * xi) * xi, (xi, yi) => xi * yi, (xi, yi) => xi * xi;
    forall u, v ensures r(u, v) == c(u, v) + -beta * s(u, v) {
      CrossStepAlgebra(u, v, beta);
    }
    ZipSumAffine(c, s, r, -beta, x, y);
  }

  lemma CrossStepAlgebra(a: real, b: real, beta: real)
    ensures (b - beta * a) * a == a * b + -beta * (a * a)
  {
  }

  /**
   * On centred data the fused sum Σ (yi - beta*xi)*xi splits into the centred
   * cross sum minus beta times the centred sum of squares.
   */
  lemma CentredResidualCross(x: seq<real>, y: seq<real>, mx: real, my: real, beta: real)
    requires |x| == |y|
    ensures ResidualCrossSum(Shift(x, -mx), Shift(y, -my), beta) == SumCrossDev(x, y, mx, my) - beta * SumSqDev(x, mx)
  {
    ResidualCrossSplit(Shift(x, -mx), Shift(y, -my), beta);
    CentredProductSum(x, y, mx, my);
    CentredSquareSum(x, y, mx, my);
  }

  /** Σ yi*xi over the shifted data is the cross sum of deviations. */
  lemma CentredProductSum(x: seq<real>, y: seq<real>, mx: real, my: real)
    requires |x| == |y|
    ensures CrossSum(Shift(x, -mx), Shift(y, -my)) == SumCrossDev(x, y, mx, my)
  {
    ShiftedProducts(Shift(x, -mx), Shift(y, -my), x, y, mx, my);
    ZipSumTermwise((xi, yi) => xi * yi, Shift(x, -mx), Shift(y, -my), (xi, yi) => (xi - mx) * (yi - my), x, y);
  }

  lemma ShiftedProducts(u: seq<real>, v: seq<real>, x: seq<real>, y: seq<real>, mx: real, my: real)
    requires |u| == |x| && |v| == |x| && |y| == |x|
    requires forall i :: 0 <= i < |x| ==> u[i] == x[i] - mx
    requires forall i :: 0 <= i < |x| ==> v[i] == y[i] - my
    ensures forall i :: 0 <= i < |x| ==> u[i] * v[i] == (x[i] - mx) * (y[i] - my)
  {
  }

  /** Σ xi² over the shifted data is the sum of squared deviations. */
  lemma CentredSquareSum(x: seq<real>, y: seq<real>, mx: real, my: real)
    requires |x| == |y|
    ensures InputSquareSum(Shift(x, -mx), Shift(y, -my)) == SumSqDev(x, mx)
  {
    var sx, sy := Shift(x, -mx), Shift(y, -my);
    forall i | 0 <= i < |x|
      ensures sx[i] * sx[i] == (x[i] - mx) * (x[i] - mx)
    {
      assert sx[i] == x[i] - mx;
    }
    MapSumAsZipSum(xi => (xi - mx) * (xi - mx), (xi, yi) => (xi - mx) * (xi - mx), x);
    ZipSumTermwise((xi, yi) => xi * xi, sx, sy, (xi, yi) => (xi - mx) * (xi - mx), x, x);
  }

  /** Data on the line y = beta*x leaves no residual. */
  lemma ExactFitResiduals(x: seq<real>, y: seq<real>, beta: real)
    requires |x| == |y|
    requires forall i :: 0 <= i < |x| ==> y[i] == beta * x[i]
    ensures SquaredResidualSum(x, y, beta) == 0.0
    ensures ResidualCrossSum(x, y, beta) == 0.0
  {
    ZipSumZero((xi, yi) => (yi - beta * xi) * (yi - beta * xi), x, y);
    ZipSumZero((xi, yi) => (yi - beta * xi) * xi, x, y);
  }

  /**
   * The coefficient after `k` rounds of `beta := beta - lr * gradFn(x, y, beta, lambda2)`
   * from `initBeta`, with `x`, `y` and `lambda2` fixed. The gradient is only
   * evaluated when at least one round runs.
   */
  function GdBeta(gradFn: (seq<real>, seq<real>, real, real) --> real, x: seq<real>, y: seq<real>,
                  lambda2: real, lr: real, k: nat, initBeta: real): (r: real)
    requires k > 0 ==> forall b :: gradFn.requires(x, y, b, lambda2)
  {
    if k == 0 then initBeta
    else
      var beta := GdBeta(gradFn, x, y, lambda2, lr, k - 1, initBeta);
      beta - lr * gradFn(x, y, beta, lambda2)
  }

  /** With a constant gradient `g`, `k` rounds move the coefficient by -k·lr·g. */
  lemma {:induction false} GdBetaConstantGradient(g: real, x: seq<real>, y: seq<real>, lambda2: real, lr: real, k: nat, initBeta: real)
    ensures GdBeta((_, _, _, _) => g, x, y, lambda2, lr, k, initBeta) == initBeta - (k as real) * lr * g
  {
    if k > 0 {
      GdBetaConstantGradient(g, x, y, lambda2, lr, k - 1, initBeta);
    }
  }

  /** One round moves the distance to `s` by the factor 1 - lr*a when the gradient is a * (beta - s). */
  lemma ContractionRound(gradFn: (seq<real>, seq<real>, real, real) --> real, x: seq<real>, y: seq<real>,
                         lambda2: real, lr: real, a: real, s: real, k: nat, initBeta: real)
    requires k > 0
    requires forall b :: gradFn.requires(x, y, b, lambda2)
    requires forall b :: gradFn(x, y, b, lambda2) == a * (b - s)
    ensures GdBeta(gradFn, x, y, lambda2, lr, k, initBeta) - s
         == (1.0 - lr * a) * (GdBeta(gradFn, x, y, lambda2, lr, k - 1, initBeta) - s)
  {
    var beta := GdBeta(gradFn, x, y, lambda2, lr, k - 1, initBeta);
    assert gradFn(x, y, beta, lambda2) == a * (beta - s);
  }

  /**
   * When the gradient is a * (beta - s), the distance to the stationary point
   * `s` shrinks by the factor 1 - lr*a in every round.
   */
  lemma {:induction false} GdBetaContraction(gradFn: (seq<real>, seq<real>, real, real) --> real, x: seq<real>, y: seq<real>,
                                             lambda2: real, lr: real, a: real, s: real, r: real, k: nat, initBeta: real)
    requires forall b :: gradFn.requires(x, y, b, lambda2)
    requires forall b :: gradFn(x, y, b, lambda2) == a * (b - s)
    requires r == 1.0 - lr * a
    ensures GdBeta(gradFn, x, y, lambda2, lr, k, initBeta) - s == Pow(r, k) * (initBeta - s)
  {
    if k > 0 {
      GdBetaContraction(gradFn, x, y, lambda2, lr, a, s, r, k - 1, initBeta);
      ContractionRound(gradFn, x, y, lambda2, lr, a, s, k, initBeta);
      ProductAssociates(r, Pow(r, k - 1), initBeta - s);
    }
  }

  lemma ProductAssociates(r: real, p: real, d: real)
    ensures r * (p * d) == (r * p) * d
  {
  }
}
