/**
 * poisson_2d/src/element.rs: the two reference elements (the 3-node triangle
 * on (0,0), (1,0), (0,1) and the 4-node square on [-1,1]²), their shape
 * functions, the gradients of the shape functions in local coordinates and
 * the Jacobian of the map from local to physical coordinates.
 */
module PoissonElement {
  import opened RealSeqs
  import opened Matrix2Algebra

  datatype ReferenceElement = Tri3 | Quad4

  function NumNodes(e: ReferenceElement): (r: nat)
  {
    match e
    case Tri3 => 3
    case Quad4 => 4
  }

  /** The local coordinates of node j: the vertices of the reference element, in node order. */
  function ReferenceNode(e: ReferenceElement, j: nat): (r: Vec2)
    requires j < NumNodes(e)
  {
    match e
    case Tri3 => [Vec2(0.0, 0.0), Vec2(1.0, 0.0), Vec2(0.0, 1.0)][j]
    case Quad4 => [Vec2(-1.0, -1.0), Vec2(1.0, -1.0), Vec2(1.0, 1.0), Vec2(-1.0, 1.0)][j]
  }

  /** The x and y components of a sequence of points or vectors. */
  function Xs(vs: seq<Vec2>): (r: seq<real>)
    ensures |r| == |vs| && forall i :: 0 <= i < |vs| ==> r[i] == vs[i].x
  {
    seq(|vs|, i requires 0 <= i < |vs| => vs[i].x)
  }

  function Ys(vs: seq<Vec2>): (r: seq<real>)
    ensures |r| == |vs| && forall i :: 0 <= i < |vs| ==> r[i] == vs[i].y
  {
    seq(|vs|, i requires 0 <= i < |vs| => vs[i].y)
  }

  /** `shape_functions`: one value per node. */
  function ShapeFunctions(e: ReferenceElement, p: Vec2): (r: seq<real>)
    ensures |r| == NumNodes(e)
  {
    match e
    case Tri3 =>
      [1.0 - p.x - p.y, p.x, p.y]
    case Quad4 =>
      [0.25 * (1.0 - p.x) * (1.0 - p.y), 0.25 * (1.0 + p.x) * (1.0 - p.y),
       0.25 * (1.0 + p.x) * (1.0 + p.y), 0.25 * (1.0 - p.x) * (1.0 + p.y)]
  }

  /** The shape functions form a partition of unity: they sum to 1 at every local point. */
  lemma PartitionOfUnity(e: ReferenceElement, p: Vec2)
    ensures Sum(ShapeFunctions(e, p)) == 1.0
  {
    match e
    case Tri3 =>
      SumOfThree(ShapeFunctions(e, p));
    case Quad4 =>
      SumOfFour(ShapeFunctions(e, p));
      Quad4PartitionOfUnity(p.x, p.y);
  }

  lemma Quad4PartitionOfUnity(xi: real, eta: real)
    ensures 0.25 * (1.0 - xi) * (1.0 - eta) + 0.25 * (1.0 + xi) * (1.0 - eta)
          + 0.25 * (1.0 + xi) * (1.0 + eta) + 0.25 * (1.0 - xi) * (1.0 + eta) == 1.0
  {
  }

  /** Node i's shape function is 1 at node i and 0 at every other node. */
  lemma ShapeFunctionsKronecker(e: ReferenceElement, i: nat, j: nat)
    requires i < NumNodes(e) && j < NumNodes(e)
    ensures ShapeFunctions(e, ReferenceNode(e, j))[i] == if i == j then 1.0 else 0.0
  {
  }

  /**
   * `shape_gradients` as written: one local gradient (∂/∂ξ, ∂/∂η) per node.
   * The Tri3 table is constant and lists node 0's entry as (-1, 1).
   */
  function WrittenShapeGradients(e: ReferenceElement, p: Vec2): (r: seq<Vec2>)
    ensures |r| == NumNodes(e)
  {
    match e
    case Tri3 => [Vec2(-1.0, 1.0), Vec2(1.0, 0.0), Vec2(0.0, 1.0)]
    case Quad4 => ShapeGradients(Quad4, p)
  }

  /**
   * The local gradients the rest of the model uses: the table of
   * `shape_gradients` with node 0's Tri3 entry corrected to (-1, -1), the
   * gradient of 1 - ξ - η.
   */
  function ShapeGradients(e: ReferenceElement, p: Vec2): (r: seq<Vec2>)
    ensures |r| == NumNodes(e)
  {
    match e
    case Tri3 =>
      [Vec2(-1.0, -1.0), Vec2(1.0, 0.0), Vec2(0.0, 1.0)]
    case Quad4 =>
      [Vec2(-0.25 * (1.0 - p.y), -0.25 * (1.0 - p.x)), Vec2(0.25 * (1.0 - p.y), -0.25 * (1.0 + p.x)),
       Vec2(0.25 * (1.0 + p.y), 0.25 * (1.0 + p.x)), Vec2(-0.25 * (1.0 + p.y), 0.25 * (1.0 - p.x))]
  }

  /** The correction touches one entry: every gradient except Tri3's node 0 is the one written. */
  lemma CorrectionOnlyAtTri3Node0(e: ReferenceElement, p: Vec2, i: nat)
    requires i < NumNodes(e)
    ensures ShapeGradients(e, p)[i] == WrittenShapeGradients(e, p)[i] <==> !(e == Tri3 && i == 0)
  {
  }

  /** The four Quad4 gradients cancel at every point. */
  lemma Quad4GradientsCancel(p: Vec2)
    ensures Sum(Xs(ShapeGradients(Quad4, p))) == 0.0 && Sum(Ys(ShapeGradients(Quad4, p))) == 0.0
  {
    SumOfFour(Xs(ShapeGradients(Quad4, p)));
    SumOfFour(Ys(ShapeGradients(Quad4, p)));
  }

  /** The Tri3 gradients do not depend on the local point. */
  lemma Tri3GradientsConstant(p: Vec2, q: Vec2)
    ensures ShapeGradients(Tri3, p) == ShapeGradients(Tri3, q)
  {
  }

  /**
   * Each Quad4 gradient is the exact rate of change of its shape function:
   * the shape functions are bilinear, so a step h along ξ (or η) changes
   * them by h times the ξ (or η) component.
   */
  lemma Quad4GradientsAreDerivatives(p: Vec2, h: real, i: nat)
    requires i < 4
    ensures ShapeFunctions(Quad4, Vec2(p.x + h, p.y))[i] - ShapeFunctions(Quad4, p)[i] == h * ShapeGradients(Quad4, p)[i].x
    ensures ShapeFunctions(Quad4, Vec2(p.x, p.y + h))[i] - ShapeFunctions(Quad4, p)[i] == h * ShapeGradients(Quad4, p)[i].y
  {
    match i
    case 0 => Quad4Node0Derivative(p, h);
    case 1 => Quad4Node1Derivative(p, h);
    case 2 => Quad4Node2Derivative(p, h);
    case 3 => Quad4Node3Derivative(p, h);
  }

  lemma Quad4Node0Derivative(p: Vec2, h: real)
    ensures ShapeFunctions(Quad4, Vec2(p.x + h, p.y))[0] - ShapeFunctions(Quad4, p)[0] == h * ShapeGradients(Quad4, p)[0].x
    ensures ShapeFunctions(Quad4, Vec2(p.x, p.y + h))[0] - ShapeFunctions(Quad4, p)[0] == h * ShapeGradients(Quad4, p)[0].y
  {
    Quad4Node0Rates(p.x, p.y, h);
  }

  lemma Quad4Node1Derivative(p: Vec2, h: real)
    ensures ShapeFunctions(Quad4, Vec2(p.x + h, p.y))[1] - ShapeFunctions(Quad4, p)[1] == h * ShapeGradients(Quad4, p)[1].x
    ensures ShapeFunctions(Quad4, Vec2(p.x, p.y + h))[1] - ShapeFunctions(Quad4, p)[1] == h * ShapeGradients(Quad4, p)[1].y
  {
    Quad4Node1Rates(p.x, p.y, h);
  }

  lemma Quad4Node2Derivative(p: Vec2, h: real)
    ensures ShapeFunctions(Quad4, Vec2(p.x + h, p.y))[2] - ShapeFunctions(Quad4, p)[2] == h * ShapeGradients(Quad4, p)[2].x
    ensures ShapeFunctions(Quad4, Vec2(p.x, p.y + h))[2] - ShapeFunctions(Quad4, p)[2] == h * ShapeGradients(Quad4, p)[2].y
  {
    Quad4Node2Rates(p.x, p.y, h);
  }

  lemma Quad4Node3Derivative(p: Vec2, h: real)
    ensures ShapeFunctions(Quad4, Vec2(p.x + h, p.y))[3] - ShapeFunctions(Quad4, p)[3] == h * ShapeGradients(Quad4, p)[3].x
    ensures ShapeFunctions(Quad4, Vec2(p.x, p.y + h))[3] - ShapeFunctions(Quad4, p)[3] == h * ShapeGradients(Quad4, p)[3].y
  {
    Quad4Node3Rates(p.x, p.y, h);
  }

  lemma Quad4Node0Rates(x: real, y: real, h: real)
    ensures 0.25 * (1.0 - (x + h)) * (1.0 - y) - 0.25 * (1.0 - x) * (1.0 - y) == h * (-0.25 * (1.0 - y))
    ensures 0.25 * (1.0 - x) * (1.0 - (y + h)) - 0.25 * (1.0 - x) * (1.0 - y) == h * (-0.25 * (1.0 - x))
  {
  }

  lemma Quad4Node1Rates(x: real, y: real, h: real)
    ensures 0.25 * (1.0 + (x + h)) * (1.0 - y) - 0.25 * (1.0 + x) * (1.0 - y) == h * (0.25 * (1.0 - y))
    ensures 0.25 * (1.0 + x) * (1.0 - (y + h)) - 0.25 * (1.0 + x) * (1.0 - y) == h * (-0.25 * (1.0 + x))
  {
  }

  lemma Quad4Node2Rates(x: real, y: real, h: real)
    ensures 0.25 * (1.0 + (x + h)) * (1.0 + y) - 0.25 * (1.0 + x) * (1.0 + y) == h * (0.25 * (1.0 + y))
    ensures 0.25 * (1.0 + x) * (1.0 + (y + h)) - 0.25 * (1.0 + x) * (1.0 + y) == h * (0.25 * (1.0 + x))
  {
  }

  lemma Quad4Node3Rates(x: real, y: real, h: real)
    ensures 0.25 * (1.0 - (x + h)) * (1.0 + y) - 0.25 * (1.0 - x) * (1.0 + y) == h * (-0.25 * (1.0 + y))
    ensures 0.25 * (1.0 - x) * (1.0 + (y + h)) - 0.25 * (1.0 - x) * (1.0 + y) == h * (0.25 * (1.0 - x))
  {
  }

  /**
   * The Tri3 table as written: node 0's η-entry is 1, while its shape
   * function 1 - ξ - η falls by h under a step h along η; the table's
   * η-components sum to 2 instead of 0.
   */
  lemma Tri3Node0GradientMismatch(p: Vec2, h: real)
    ensures ShapeFunctions(Tri3, Vec2(p.x, p.y + h))[0] - ShapeFunctions(Tri3, p)[0] == -h
    ensures h * WrittenShapeGradients(Tri3, p)[0].y == h
    ensures Sum(Ys(WrittenShapeGradients(Tri3, p))) == 2.0
  {
    SumOfThree(Ys(WrittenShapeGradients(Tri3, p)));
  }

  /** The three Tri3 gradients cancel, as the gradients of a partition of unity must. */
  lemma Tri3GradientsCancel(p: Vec2)
    ensures Sum(Xs(ShapeGradients(Tri3, p))) == 0.0 && Sum(Ys(ShapeGradients(Tri3, p))) == 0.0
  {
    SumOfThree(Xs(ShapeGradients(Tri3, p)));
    SumOfThree(Ys(ShapeGradients(Tri3, p)));
  }

  /** Each Tri3 gradient is the exact rate of change of its (linear) shape function in both directions. */
  lemma Tri3GradientsAreDerivatives(p: Vec2, h: real, i: nat)
    requires i < 3
    ensures ShapeFunctions(Tri3, Vec2(p.x + h, p.y))[i] - ShapeFunctions(Tri3, p)[i] == h * ShapeGradients(Tri3, p)[i].x
    ensures ShapeFunctions(Tri3, Vec2(p.x, p.y + h))[i] - ShapeFunctions(Tri3, p)[i] == h * ShapeGradients(Tri3, p)[i].y
  {
  }

  /**
   * The physical point Σ Nᵢ·vᵢ of a point whose shape function values are
   * `vals`, zipped with the element's vertex coordinates.
   */
  function IsoMap(vals: seq<real>, vertices: seq<Vec2>): (r: Vec2)
  {
    Vec2(ZipSum(Product, vals, Xs(vertices)), ZipSum(Product, vals, Ys(vertices)))
  }

  /** The Tri3 Jacobian reads the first three vertices, so it needs three of them; the Quad4 one zips. */
  predicate JacobianDefined(e: ReferenceElement, vertices: seq<Vec2>)
  {
    e == Tri3 ==> |vertices| >= 3
  }

  /**
   * The Jacobian [[∂x/∂ξ, ∂x/∂η], [∂y/∂ξ, ∂y/∂η]]: for Tri3 the vertex
   * differences, for Quad4 the sums of gradient components times vertex
   * coordinates over the zipped gradients and vertices.
   */
  function JacobianOf(e: ReferenceElement, vertices: seq<Vec2>, p: Vec2): (r: Matrix2)
    requires JacobianDefined(e, vertices)
  {
    match e
    case Tri3 =>
      Matrix2(vertices[1].x - vertices[0].x, vertices[2].x - vertices[0].x,
              vertices[1].y - vertices[0].y, vertices[2].y - vertices[0].y)
    case Quad4 =>
      var g := ShapeGradients(Quad4, p);
      Matrix2(ZipSum(Product, Xs(g), Xs(vertices)), ZipSum(Product, Ys(g), Xs(vertices)),
              ZipSum(Product, Xs(g), Ys(vertices)), ZipSum(Product, Ys(g), Ys(vertices)))
  }

  /** The Jacobian after the first i (gradient, vertex) pairs of the Quad4 loop. */
  function PartialJacobian(g: seq<Vec2>, vertices: seq<Vec2>, i: nat): (r: Matrix2)
    requires i <= |g| && i <= |vertices|
  {
    Matrix2(ZipSum(Product, Xs(g)[..i], Xs(vertices)[..i]), ZipSum(Product, Ys(g)[..i], Xs(vertices)[..i]),
            ZipSum(Product, Xs(g)[..i], Ys(vertices)[..i]), ZipSum(Product, Ys(g)[..i], Ys(vertices)[..i]))
  }

  /** `jacobian`: the Quad4 branch accumulates the four entries over the zipped gradients and vertices. */
  method Jacobian(e: ReferenceElement, vertices: seq<Vec2>, p: Vec2) returns (jac: Matrix2)
    requires JacobianDefined(e, vertices)
    ensures jac == JacobianOf(e, vertices, p)
  {
    match e
    case Tri3 =>
      var v0, v1, v2 := vertices[0], vertices[1], vertices[2];
      jac := Matrix2(v1.x - v0.x, v2.x - v0.x, v1.y - v0.y, v2.y - v0.y);
    case Quad4 =>
      var grads := ShapeGradients(Quad4, p);
      jac := AccumulateJacobian(grads, vertices);
      PartialJacobianComplete(vertices, p, Min(|grads|, |vertices|));
  }

  /** The Quad4 loop: the four entries summed over the zipped gradients and vertices. */
  method AccumulateJacobian(grads: seq<Vec2>, vertices: seq<Vec2>) returns (jac: Matrix2)
    ensures jac == PartialJacobian(grads, vertices, Min(|grads|, |vertices|))
  {
    jac := Matrix2(0.0, 0.0, 0.0, 0.0);
    var i := 0;
    while i < |grads| && i < |vertices|
      invariant i <= |grads| && i <= |vertices|
      invariant jac == PartialJacobian(grads, vertices, i)
    {
      var grad, vertex := grads[i], vertices[i];
      PartialJacobianStep(grads, vertices, i);
      jac := Matrix2(jac.m00 + grad.x * vertex.x, jac.m01 + grad.y * vertex.x,
                     jac.m10 + grad.x * vertex.y, jac.m11 + grad.y * vertex.y);
      i := i + 1;
    }
  }

  lemma PartialJacobianStep(g: seq<Vec2>, vertices: seq<Vec2>, i: nat)
    requires i < |g| && i < |vertices|
    ensures PartialJacobian(g, vertices, i + 1)
         == Matrix2(PartialJacobian(g, vertices, i).m00 + g[i].x * vertices[i].x,
                    PartialJacobian(g, vertices, i).m01 + g[i].y * vertices[i].x,
                    PartialJacobian(g, vertices, i).m10 + g[i].x * vertices[i].y,
                    PartialJacobian(g, vertices, i).m11 + g[i].y * vertices[i].y)
  {
    ZipSumSnoc(Product, Xs(g), Xs(vertices), i);
    ZipSumSnoc(Product, Ys(g), Xs(vertices), i);
    ZipSumSnoc(Product, Xs(g), Ys(vertices), i);
    ZipSumSnoc(Product, Ys(g), Ys(vertices), i);
  }

  lemma PartialJacobianComplete(vertices: seq<Vec2>, p: Vec2, i: nat)
    requires i == Min(4, |vertices|)
    ensures PartialJacobian(ShapeGradients(Quad4, p), vertices, i) == JacobianOf(Quad4, vertices, p)
  {
    var g := ShapeGradients(Quad4, p);
    ZipSumCommonPrefix(Product, Xs(g), Xs(vertices), i);
    ZipSumCommonPrefix(Product, Ys(g), Xs(vertices), i);
    ZipSumCommonPrefix(Product, Xs(g), Ys(vertices), i);
    ZipSumCommonPrefix(Product, Ys(g), Ys(vertices), i);
  }

  /** The reference vertices of an element, in node order. */
  function ReferenceVertices(e: ReferenceElement): (r: seq<Vec2>)
    ensures |r| == NumNodes(e) && JacobianDefined(e, r)
    ensures forall j :: 0 <= j < NumNodes(e) ==> r[j] == ReferenceNode(e, j)
  {
    match e
    case Tri3 => [Vec2(0.0, 0.0), Vec2(1.0, 0.0), Vec2(0.0, 1.0)]
    case Quad4 => [Vec2(-1.0, -1.0), Vec2(1.0, -1.0), Vec2(1.0, 1.0), Vec2(-1.0, 1.0)]
  }

  /** On its own reference vertices an element's Jacobian is the identity at every local point. */
  lemma ReferenceJacobianIsIdentity(e: ReferenceElement, p: Vec2)
    ensures JacobianOf(e, ReferenceVertices(e), p) == Identity()
  {
    match e
    case Tri3 =>
    case Quad4 =>
      var g, vs := ShapeGradients(Quad4, p), ReferenceVertices(Quad4);
      assert Xs(vs) == [-1.0, 1.0, 1.0, -1.0] && Ys(vs) == [-1.0, -1.0, 1.0, 1.0];
      assert Xs(g) == [-0.25 * (1.0 - p.y), 0.25 * (1.0 - p.y), 0.25 * (1.0 + p.y), -0.25 * (1.0 + p.y)];
      assert Ys(g) == [-0.25 * (1.0 - p.x), -0.25 * (1.0 + p.x), 0.25 * (1.0 + p.x), 0.25 * (1.0 - p.x)];
      FourTermDot(Xs(g), Xs(vs));
      FourTermDot(Ys(g), Xs(vs));
      FourTermDot(Xs(g), Ys(vs));
      FourTermDot(Ys(g), Ys(vs));
      ReferenceQuad4Entries(p.x, p.y);
  }

  lemma ReferenceQuad4Entries(x: real, y: real)
    ensures -0.25 * (1.0 - y) * -1.0 + 0.25 * (1.0 - y) * 1.0 + 0.25 * (1.0 + y) * 1.0 + -0.25 * (1.0 + y) * -1.0 == 1.0
    ensures -0.25 * (1.0 - x) * -1.0 + -0.25 * (1.0 + x) * 1.0 + 0.25 * (1.0 + x) * 1.0 + 0.25 * (1.0 - x) * -1.0 == 0.0
    ensures -0.25 * (1.0 - y) * -1.0 + 0.25 * (1.0 - y) * -1.0 + 0.25 * (1.0 + y) * 1.0 + -0.25 * (1.0 + y) * 1.0 == 0.0
    ensures -0.25 * (1.0 - x) * -1.0 + -0.25 * (1.0 + x) * -1.0 + 0.25 * (1.0 + x) * 1.0 + 0.25 * (1.0 - x) * 1.0 == 1.0
  {
  }

  /** Translating every vertex by t leaves the Jacobian unchanged (for Quad4, whose gradients cancel, when all four vertices are given). */
  lemma JacobianTranslationInvariant(e: ReferenceElement, vertices: seq<Vec2>, t: Vec2, p: Vec2)
    requires JacobianDefined(e, vertices)
    requires e == Quad4 ==> |vertices| == 4
    ensures JacobianOf(e, Translated(vertices, t), p) == JacobianOf(e, vertices, p)
  {
    if e == Quad4 {
      var g, moved := ShapeGradients(Quad4, p), Translated(vertices, t);
      Quad4GradientsCancel(p);
      ZipProductShift(Xs(g), Xs(vertices), Xs(moved), t.x);
      ZipProductShift(Ys(g), Xs(vertices), Xs(moved), t.x);
      ZipProductShift(Xs(g), Ys(vertices), Ys(moved), t.y);
      ZipProductShift(Ys(g), Ys(vertices), Ys(moved), t.y);
    }
  }

  /** Every vertex moved by t. */
  function Translated(vertices: seq<Vec2>, t: Vec2): (r: seq<Vec2>)
    ensures |r| == |vertices|
    ensures forall i :: 0 <= i < |vertices| ==> r[i] == Vec2(vertices[i].x + t.x, vertices[i].y + t.y)
  {
    seq(|vertices|, i requires 0 <= i < |vertices| => Vec2(vertices[i].x + t.x, vertices[i].y + t.y))
  }

  lemma FourTermDot(g: seq<real>, c: seq<real>)
    requires |g| == 4 && |c| == 4
    ensures ZipSum(Product, g, c) == g[0] * c[0] + g[1] * c[1] + g[2] * c[2] + g[3] * c[3]
  {
    var t3 := ZipSum(Product, g[3..], c[3..]);
    assert t3 == g[3] * c[3] by {
      assert |g[3..][1..]| == 0;
      assert ZipSum(Product, g[3..][1..], c[3..][1..]) == 0.0;
      assert g[3..][0] == g[3] && c[3..][0] == c[3];
      assert Product(g[3], c[3]) == g[3] * c[3];
    }
    var t2 := ZipSum(Product, g[2..], c[2..]);
    assert t2 == g[2] * c[2] + t3 by {
      assert g[2..][1..] == g[3..] && c[2..][1..] == c[3..];
    }
    var t1 := ZipSum(Product, g[1..], c[1..]);
    assert t1 == g[1] * c[1] + t2 by {
      assert g[1..][1..] == g[2..] && c[1..][1..] == c[2..];
    }
  }
}
