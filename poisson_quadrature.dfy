/**
 * poisson_2d/src/quadrature.rs: the quadrature rules on the reference
 * triangle (orders 1 and 2) and on the reference square [-1,1]² (one point,
 * or the 2×2 Gauss rule). The square root of 3 needed by the Gauss points is
 * a parameter `root3`, required to be the positive root of 3.
 */
module PoissonQuadrature {
  import opened RealSeqs
  import opened Matrix2Algebra

  /** `QuadRule`: points in local coordinates and their weights. */
  datatype QuadRule = QuadRule(points: seq<Vec2>, weights: seq<real>)

  predicate InReferenceTriangle(p: Vec2)
  {
    0.0 <= p.x && 0.0 <= p.y && p.x + p.y <= 1.0
  }

  predicate InReferenceSquare(p: Vec2)
  {
    -1.0 <= p.x <= 1.0 && -1.0 <= p.y <= 1.0
  }

  /** Σ wₖ·ξₖ^i·ηₖ^j over the zipped points and weights: the rule applied to the monomial ξ^i·η^j. */
  function Moment(points: seq<Vec2>, weights: seq<real>, i: nat, j: nat): (r: real)
    decreases |points|
  {
    if |points| == 0 || |weights| == 0 then 0.0
    else weights[0] * (Pow(points[0].x, i) * Pow(points[0].y, j)) + Moment(points[1..], weights[1..], i, j)
  }

  function Factorial(k: nat): (r: nat)
    ensures r >= 1
  {
    if k == 0 then 1 else k * Factorial(k - 1)
  }

  /** The exact integral of ξ^i·η^j over the reference triangle: i!·j!/(i+j+2)!. */
  function TriangleIntegral(i: nat, j: nat): (r: real)
  {
    (Factorial(i) * Factorial(j)) as real / Factorial(i + j + 2) as real
  }

  /** The exact integral of t^i over [-1, 1]. */
  function LineIntegral(i: nat): (r: real)
  {
    if i % 2 == 0 then 2.0 / (i + 1) as real else 0.0
  }

  /** `triangle(order)`; every other order panics. */
  function Triangle(order: nat): (r: QuadRule)
    requires order == 1 || order == 2
    ensures |r.points| == |r.weights| == if order == 1 then 1 else 3
    ensures Sum(r.weights) == 0.5
    ensures forall k :: 0 <= k < |r.points| ==> InReferenceTriangle(r.points[k])
  {
    if order == 1 then
      QuadRule([Vec2(1.0 / 3.0, 1.0 / 3.0)], [0.5])
    else
      var weights := [1.0 / 6.0, 1.0 / 6.0, 1.0 / 6.0];
      SumOfThree(weights);
      QuadRule([Vec2(1.0 / 6.0, 1.0 / 6.0), Vec2(2.0 / 3.0, 1.0 / 6.0), Vec2(1.0 / 6.0, 2.0 / 3.0)], weights)
  }

  /** A rule of order k integrates every monomial of degree at most k exactly over the reference triangle. */
  lemma TriangleExact(order: nat, i: nat, j: nat)
    requires order == 1 || order == 2
    requires i + j <= order
    ensures Moment(Triangle(order).points, Triangle(order).weights, i, j) == TriangleIntegral(i, j)
  {
    var r := Triangle(order);
    if order == 2 {
      ThreePointMoment(r.points, r.weights, i, j);
    }
  }

  lemma ThreePointMoment(points: seq<Vec2>, weights: seq<real>, i: nat, j: nat)
    requires |points| == 3 && |weights| == 3
    ensures Moment(points, weights, i, j)
         == weights[0] * (Pow(points[0].x, i) * Pow(points[0].y, j))
          + weights[1] * (Pow(points[1].x, i) * Pow(points[1].y, j))
          + weights[2] * (Pow(points[2].x, i) * Pow(points[2].y, j))
  {
    assert Moment(points[2..], weights[2..], i, j) == weights[2] * (Pow(points[2].x, i) * Pow(points[2].y, j)) by {
      assert |points[2..][1..]| == 0;
      assert points[2..][0] == points[2] && weights[2..][0] == weights[2];
    }
    assert points[1..][1..] == points[2..] && weights[1..][1..] == weights[2..];
  }

  /** The tensor-product points: ξ from `xis` in the outer loop, η from `etas` in the inner one. */
  function TensorPoints(xis: seq<real>, etas: seq<real>): (r: seq<Vec2>)
    ensures |r| == |xis| * |etas|
  {
    if |xis| == 0 then [] else TensorPoints(xis[..|xis| - 1], etas) + Row(xis[|xis| - 1], etas)
  }

  /** The points (ξ, η) for one ξ and every η in order. */
  function Row(xi: real, etas: seq<real>): (r: seq<Vec2>)
    ensures |r| == |etas| && forall k :: 0 <= k < |etas| ==> r[k] == Vec2(xi, etas[k])
  {
    seq(|etas|, k requires 0 <= k < |etas| => Vec2(xi, etas[k]))
  }

  function Ones(n: nat): (r: seq<real>)
    ensures |r| == n && forall k :: 0 <= k < n ==> r[k] == 1.0
  {
    seq(n, k => 1.0)
  }

  /** `quadrilateral(n)`; every other n panics. */
  function QuadrilateralRule(n: nat, root3: real): (r: QuadRule)
    requires n == 1 || n == 2
    requires root3 > 0.0 && root3 * root3 == 3.0
    ensures |r.points| == |r.weights| == n * n
  {
    if n == 1 then
      QuadRule([Vec2(0.0, 0.0)], [4.0])
    else
      var a := 1.0 / root3;
      QuadRule(TensorPoints([-a, a], [-a, a]), Ones(4))
  }

  /** The 2×2 rule lists (-a,-a), (-a,a), (a,-a), (a,a) with a = 1/√3, all with weight 1; both rules' weights sum to 4, the area of the square, and the points lie in it. */
  lemma QuadrilateralRuleShape(n: nat, root3: real)
    requires n == 1 || n == 2
    requires root3 > 0.0 && root3 * root3 == 3.0
    ensures n == 2 ==> (QuadrilateralRule(n, root3).points
                         == [Vec2(-1.0 / root3, -1.0 / root3), Vec2(-1.0 / root3, 1.0 / root3),
                             Vec2(1.0 / root3, -1.0 / root3), Vec2(1.0 / root3, 1.0 / root3)])
    ensures Sum(QuadrilateralRule(n, root3).weights) == 4.0
    ensures forall k :: 0 <= k < |QuadrilateralRule(n, root3).points| ==> InReferenceSquare(QuadrilateralRule(n, root3).points[k])
  {
    if n == 2 {
      var a := 1.0 / root3;
      GaussAbscissaBounds(root3);
      assert [-a, a][..1] == [-a];
      assert [-a][..0] == [];
      assert TensorPoints([-a, a], [-a, a]) == [Vec2(-a, -a), Vec2(-a, a), Vec2(a, -a), Vec2(a, a)];
      SumOfFour(Ones(4));
      var r := QuadrilateralRule(n, root3);
      assert r.points == [Vec2(-a, -a), Vec2(-a, a), Vec2(a, -a), Vec2(a, a)];
      assert -1.0 / root3 == -a;
      assert Sum(r.weights) == 4.0;
    } else {
      var r := QuadrilateralRule(n, root3);
      assert r.weights == [4.0] && r.weights[1..] == [];
      assert Sum(r.weights) == 4.0 + Sum(r.weights[1..]);
      assert InReferenceSquare(r.points[0]);
    }
  }

  /** 0 < 1/√3 < 1. */
  lemma GaussAbscissaBounds(root3: real)
    requires root3 > 0.0 && root3 * root3 == 3.0
    ensures 0.0 < 1.0 / root3 < 1.0
  {
    assert root3 > 1.0;
  }

  /** The 1-D two-point Gauss rule ±a with 3a² = 1 integrates t^i exactly over [-1, 1] for i ≤ 3. */
  lemma GaussLineExact(a: real, i: nat)
    requires 3.0 * (a * a) == 1.0
    requires i <= 3
    ensures Pow(-a, i) + Pow(a, i) == LineIntegral(i)
  {
    match i
    case 0 =>
      assert LineIntegral(0) == 2.0;
    case 1 =>
      assert Pow(a, 1) == a && Pow(-a, 1) == -a;
      assert LineIntegral(1) == 0.0;
    case 2 =>
      PowSquares(a);
      assert LineIntegral(2) == 2.0 / 3.0;
    case 3 =>
      PowSquares(a);
      assert Pow(a, 3) == a * Pow(a, 2) && Pow(-a, 3) == -a * Pow(-a, 2);
      assert LineIntegral(3) == 0.0;
  }

  lemma PowSquares(a: real)
    ensures Pow(a, 2) == a * a && Pow(-a, 2) == a * a
  {
    assert Pow(a, 1) == a && Pow(-a, 1) == -a;
    assert Pow(a, 2) == a * Pow(a, 1) && Pow(-a, 2) == -a * Pow(-a, 1);
  }

  /** a = 1/√3 satisfies 3a² = 1. */
  lemma GaussAbscissaSquare(root3: real)
    requires root3 > 0.0 && root3 * root3 == 3.0
    ensures 3.0 * ((1.0 / root3) * (1.0 / root3)) == 1.0
  {
    var a := 1.0 / root3;
    assert a * root3 == 1.0;
    assert a * a * (root3 * root3) == (a * root3) * (a * root3);
  }

  /** The rule's moment over the tensor points is the product u·v of the two 1-D sums. */
  lemma TensorMoment(a: real, i: nat, j: nat, u: real, v: real)
    requires u == Pow(-a, i) + Pow(a, i) && v == Pow(-a, j) + Pow(a, j)
    ensures Moment(TensorPoints([-a, a], [-a, a]), Ones(4), i, j) == u * v
  {
    assert [-a, a][..1] == [-a];
    assert [-a][..0] == [];
    var pts := [Vec2(-a, -a), Vec2(-a, a), Vec2(a, -a), Vec2(a, a)];
    assert TensorPoints([-a, a], [-a, a]) == pts;
    FourPointMoment(pts, Ones(4), i, j);
    TensorProductAlgebra(Pow(-a, i), Pow(a, i), Pow(-a, j), Pow(a, j), u, v);
  }

  lemma FourPointMoment(points: seq<Vec2>, weights: seq<real>, i: nat, j: nat)
    requires |points| == 4 && |weights| == 4 && forall k :: 0 <= k < 4 ==> weights[k] == 1.0
    ensures Moment(points, weights, i, j)
         == Pow(points[0].x, i) * Pow(points[0].y, j) + Pow(points[1].x, i) * Pow(points[1].y, j)
          + Pow(points[2].x, i) * Pow(points[2].y, j) + Pow(points[3].x, i) * Pow(points[3].y, j)
  {
    ThreePointMoment(points[1..], weights[1..], i, j);
  }

  lemma TensorProductAlgebra(p: real, q: real, s: real, t: real, u: real, v: real)
    requires u == p + q && v == s + t
    ensures p * s + p * t + q * s + q * t == u * v
  {
  }

  /**
   * The 2×2 Gauss rule integrates ξ^i·η^j exactly over the square for
   * i, j ≤ 3; the one-point rule for i, j ≤ 1.
   */
  lemma QuadrilateralExact(n: nat, root3: real, i: nat, j: nat)
    requires n == 1 || n == 2
    requires root3 > 0.0 && root3 * root3 == 3.0
    requires i <= 2 * n - 1 && j <= 2 * n - 1
    ensures Moment(QuadrilateralRule(n, root3).points, QuadrilateralRule(n, root3).weights, i, j)
         == LineIntegral(i) * LineIntegral(j)
  {
    if n == 2 {
      var a := 1.0 / root3;
      var r := QuadrilateralRule(n, root3);
      assert r.points == TensorPoints([-a, a], [-a, a]) && r.weights == Ones(4);
      GaussAbscissaSquare(root3);
      GaussRuleExact(a, i, j);
    } else {
      OnePointExact(i, j);
    }
  }

  lemma GaussRuleExact(a: real, i: nat, j: nat)
    requires 3.0 * (a * a) == 1.0
    requires i <= 3 && j <= 3
    ensures Moment(TensorPoints([-a, a], [-a, a]), Ones(4), i, j) == LineIntegral(i) * LineIntegral(j)
  {
    GaussLineExact(a, i);
    GaussLineExact(a, j);
    TensorMoment(a, i, j, LineIntegral(i), LineIntegral(j));
  }

  lemma OnePointExact(i: nat, j: nat)
    requires i <= 1 && j <= 1
    ensures Moment([Vec2(0.0, 0.0)], [4.0], i, j) == LineIntegral(i) * LineIntegral(j)
  {
    assert Pow(0.0, 1) == 0.0;
    assert Moment([Vec2(0.0, 0.0)], [4.0], i, j) == 4.0 * (Pow(0.0, i) * Pow(0.0, j)) by {
      assert [Vec2(0.0, 0.0)][1..] == [];
    }
  }

  /** `quadrilateral(n)`: the 2×2 rule is filled by the nested loops over ξ and η. */
  method Quadrilateral(n: nat, root3: real) returns (rule: QuadRule)
    requires n == 1 || n == 2
    requires root3 > 0.0 && root3 * root3 == 3.0
    ensures rule == QuadrilateralRule(n, root3)
  {
    if n == 1 {
      return QuadRule([Vec2(0.0, 0.0)], [4.0]);
    }
    var a := 1.0 / root3;
    var pts := [-a, a];
    var points, weights := TensorPoints(pts[..0], pts), [];
    for s := 0 to 2
      invariant points == TensorPoints(pts[..s], pts)
      invariant weights == Ones(|points|)
    {
      var xi := pts[s];
      ghost var before := points;
      for t := 0 to 2
        invariant points == before + Row(xi, pts[..t])
        invariant weights == Ones(|points|)
      {
        points := points + [Vec2(xi, pts[t])];
        weights := weights + [1.0];
      }
      assert pts[..s + 1][..s] == pts[..s];
    }
    assert pts[..2] == pts;
    rule := QuadRule(points, weights);
  }
}
