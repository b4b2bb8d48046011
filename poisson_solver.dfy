/**
 * poisson_2d/src/solver.rs: `assemble_system_dense` builds the global
 * stiffness matrix A and load vector b of -Δu = f element by element:
 * gather the element's vertices, sum the local ke and fe over the quadrature
 * points, then scatter them into A and b. The source term f is a parameter,
 * and so is `root3`, the square root of 3 that the 2×2 Gauss rule needs.
 * `_assemble_system_sparse` is the placeholder that returns the identity in
 * coordinate form and a zero vector. The table of local shape gradients is
 * a parameter of the local computation and of every assembly property, so
 * those properties hold for any table; `AssembleSystemDense` uses the table
 * as element.rs writes it, `WrittenShapeGradients`.
 */
module PoissonSolver {
  import opened RealSeqs
  import opened Matrix2Algebra
  import opened PoissonElement
  import opened PoissonQuadrature
  import opened PoissonMesh
  import opened PoissonAssembly

  /** A table of local gradients: one per node of the element, at every local point. */
  ghost predicate GradientTable(table: (ReferenceElement, Vec2) -> seq<Vec2>)
  {
    forall e, p {:trigger table(e, p)} :: |table(e, p)| == NumNodes(e)
  }

  predicate IsRoot3(root3: real)
  {
    root3 > 0.0 && root3 * root3 == 3.0
  }

  /** P1 meshes use the 3-node triangle, Q1 meshes the 4-node square. */
  function ReferenceElementFor(t: ElementType): (r: ReferenceElement)
  {
    match t
    case P1 => Tri3
    case Q1 => Quad4
  }

  /** The second-order rule of each element type. */
  function QuadRuleFor(t: ElementType, root3: real): (r: QuadRule)
    requires IsRoot3(root3)
  {
    match t
    case P1 => Triangle(2)
    case Q1 => QuadrilateralRule(2, root3)
  }

  /**
   * The rule chosen for an element type integrates every monomial of degree
   * at most 2 exactly over its reference element, with one weight per point.
   */
  lemma QuadRuleForIsExact(t: ElementType, root3: real, i: nat, j: nat)
    requires IsRoot3(root3) && i + j <= 2
    ensures |QuadRuleFor(t, root3).points| == |QuadRuleFor(t, root3).weights|
    ensures t == P1 ==> Moment(QuadRuleFor(t, root3).points, QuadRuleFor(t, root3).weights, i, j) == TriangleIntegral(i, j)
    ensures t == Q1 ==> Moment(QuadRuleFor(t, root3).points, QuadRuleFor(t, root3).weights, i, j) == LineIntegral(i) * LineIntegral(j)
  {
    match t
    case P1 => TriangleExact(2, i, j);
    case Q1 => QuadrilateralExact(2, root3, i, j);
  }

  /** The element's vertex coordinates in local node order. */
  function Gather(vertices: seq<Vec2>, idx: seq<nat>): (nodes: seq<Vec2>)
    requires forall k :: 0 <= k < |idx| ==> idx[k] < |vertices|
    ensures |nodes| == |idx| && forall k :: 0 <= k < |idx| ==> nodes[k] == vertices[idx[k]]
  {
    seq(|idx|, k requires 0 <= k < |idx| => vertices[idx[k]])
  }

  /** Every local gradient multiplied by the same matrix. */
  function ApplyAll(m: Matrix2, grads: seq<Vec2>): (r: seq<Vec2>)
    ensures |r| == |grads| && forall k :: 0 <= k < |grads| ==> r[k] == Apply(m, grads[k])
  {
    seq(|grads|, k requires 0 <= k < |grads| => Apply(m, grads[k]))
  }

  /** The physical gradients J⁻ᵀ·g: the vectors that Jᵀ maps back to the reference gradients. */
  function PhysicalGradients(jac: Matrix2, grads: seq<Vec2>): (r: seq<Vec2>)
    requires Determinant(jac) != 0.0
    ensures |r| == |grads| && forall k :: 0 <= k < |grads| ==> Apply(Transpose(jac), r[k]) == grads[k]
  {
    var r := ApplyAll(Transpose(Inverse(jac)), grads);
    forall k | 0 <= k < |grads|
      ensures Apply(Transpose(jac), r[k]) == grads[k]
    {
      InverseTransposeUndone(jac, grads[k]);
    }
    r
  }

  /** The per-point quantities of the local loop: physical gradients, shape values, weight·|det J| and f at the mapped point. */
  datatype PointData = PointData(grads: seq<Vec2>, vals: seq<real>, weight: real, fval: real)

  /** The quantities of the local loop at local point p with weight w. */
  function PointDataAt(e: ReferenceElement, table: (ReferenceElement, Vec2) -> seq<Vec2>, nodes: seq<Vec2>, p: Vec2, w: real,
                       f: (real, real) -> real): (d: PointData)
    requires GradientTable(table)
    requires JacobianDefined(e, nodes) && Determinant(JacobianOf(e, nodes, p)) != 0.0
    ensures |d.grads| == NumNodes(e) && |d.vals| == NumNodes(e)
    ensures forall k :: 0 <= k < |d.grads| ==> Apply(Transpose(JacobianOf(e, nodes, p)), d.grads[k]) == table(e, p)[k]
    ensures d.weight == w * Abs(Determinant(JacobianOf(e, nodes, p))) && (w >= 0.0 ==> d.weight >= 0.0)
  {
    var jac := JacobianOf(e, nodes, p);
    var vals := ShapeFunctions(e, p);
    var x := IsoMap(vals, nodes);
    AbsScaled(w, Determinant(jac));
    PointData(PhysicalGradients(jac, table(e, p)), vals, w * Abs(Determinant(jac)), f(x.x, x.y))
  }

  lemma AbsScaled(w: real, t: real)
    ensures w >= 0.0 ==> w * Abs(t) >= 0.0
  {
  }

  /** The Jacobian can be inverted at every point of the rule (`try_inverse().unwrap()`). */
  predicate InvertibleAt(e: ReferenceElement, nodes: seq<Vec2>, rule: QuadRule)
    requires JacobianDefined(e, nodes)
  {
    forall q :: 0 <= q < |rule.points| ==> Determinant(JacobianOf(e, nodes, rule.points[q])) != 0.0
  }

  /** The per-point quantities at every zipped (point, weight) pair of the rule. */
  function PointDataList(e: ReferenceElement, table: (ReferenceElement, Vec2) -> seq<Vec2>, nodes: seq<Vec2>, rule: QuadRule,
                         f: (real, real) -> real): (ds: seq<PointData>)
    requires GradientTable(table) && JacobianDefined(e, nodes) && InvertibleAt(e, nodes, rule)
    ensures |ds| == Min(|rule.points|, |rule.weights|) && Fits(ds, NumNodes(e))
  {
    seq(Min(|rule.points|, |rule.weights|),
        q requires 0 <= q < Min(|rule.points|, |rule.weights|) => PointDataAt(e, table, nodes, rule.points[q], rule.weights[q], f))
  }

  /** Every point carries one gradient and one shape value per node. */
  predicate Fits(ds: seq<PointData>, n: nat)
  {
    forall q :: 0 <= q < |ds| ==> |ds[q].grads| == n && |ds[q].vals| == n
  }

  /** Row i after one point: ke[i][j] += (gᵢ·gⱼ)·weight for every j. */
  function AddedRow(row: seq<real>, gi: Vec2, grads: seq<Vec2>, weight: real): (r: seq<real>)
    requires |grads| >= |row|
    ensures |r| == |row| && forall j :: 0 <= j < |row| ==> r[j] == row[j] + Dot2(gi, grads[j]) * weight
  {
    seq(|row|, j requires 0 <= j < |row| => row[j] + Dot2(gi, grads[j]) * weight)
  }

  /** ke[i][j] += (gᵢ·gⱼ)·weight for all i, j. */
  function AddPointStiffness(ke: seq<seq<real>>, d: PointData, n: nat): (r: seq<seq<real>>)
    requires IsMatrix(ke, n, n) && |d.grads| == n
    ensures IsMatrix(r, n, n)
    ensures forall i :: 0 <= i < n ==> r[i] == AddedRow(ke[i], d.grads[i], d.grads, d.weight)
  {
    seq(n, i requires 0 <= i < n => AddedRow(ke[i], d.grads[i], d.grads, d.weight))
  }

  /** fe[i] += Nᵢ·f·weight for all i. */
  function AddPointLoad(fe: seq<real>, d: PointData, n: nat): (r: seq<real>)
    requires |fe| == n && |d.vals| == n
    ensures |r| == n && forall i :: 0 <= i < n ==> r[i] == fe[i] + d.vals[i] * d.fval * d.weight
  {
    seq(n, i requires 0 <= i < n => fe[i] + d.vals[i] * d.fval * d.weight)
  }

  /** ke after the given points, in order, from the zero matrix: symmetric, whatever the gradients and weights. */
  function LocalStiffness(ds: seq<PointData>, n: nat): (ke: seq<seq<real>>)
    requires Fits(ds, n)
    ensures IsMatrix(ke, n, n) && IsSymmetric(ke, n)
  {
    if |ds| == 0 then ZeroMatrix(n, n)
    else
      var prev := LocalStiffness(ds[..|ds| - 1], n);
      AddPointKeepsSymmetric(prev, ds[|ds| - 1], n);
      AddPointStiffness(prev, ds[|ds| - 1], n)
  }

  /** fe after the given points, in order, from the zero vector: zero when f vanishes at every point. */
  function LocalLoad(ds: seq<PointData>, n: nat): (fe: seq<real>)
    requires Fits(ds, n)
    ensures |fe| == n
    ensures (forall q :: 0 <= q < |ds| ==> ds[q].fval == 0.0) ==> fe == Zeros(n)
  {
    if |ds| == 0 then Zeros(n)
    else
      var m := |ds| - 1;
      assert forall q :: 0 <= q < m ==> ds[..m][q] == ds[q];
      AddPointLoad(LocalLoad(ds[..m], n), ds[m], n)
  }

  /** One point's terms (gᵢ·gⱼ)·weight are symmetric in i and j. */
  lemma AddPointKeepsSymmetric(ke: seq<seq<real>>, d: PointData, n: nat)
    requires IsMatrix(ke, n, n) && |d.grads| == n && IsSymmetric(ke, n)
    ensures IsSymmetric(AddPointStiffness(ke, d, n), n)
  {
    var r := AddPointStiffness(ke, d, n);
    forall i, j | 0 <= i < n && 0 <= j < n
      ensures r[i][j] == r[j][i]
    {
      assert r[i] == AddedRow(ke[i], d.grads[i], d.grads, d.weight);
      assert r[j] == AddedRow(ke[j], d.grads[j], d.grads, d.weight);
      assert Dot2(d.grads[i], d.grads[j]) == Dot2(d.grads[j], d.grads[i]);
    }
  }

  /**
   * What `assemble_system_dense` demands of an element: its indices name
   * vertices of the mesh, it has at most as many indices as the reference
   * element has nodes (ke and fe are indexed by local index), a Tri3 element
   * has its three vertices, and the Jacobian can be inverted at every
   * quadrature point.
   */
  predicate ElementAssemblable(e: ReferenceElement, vertices: seq<Vec2>, idx: seq<nat>, rule: QuadRule)
  {
    && (forall k :: 0 <= k < |idx| ==> idx[k] < |vertices|)
    && |idx| <= NumNodes(e)
    && JacobianDefined(e, Gather(vertices, idx))
    && InvertibleAt(e, Gather(vertices, idx), rule)
  }

  /** The element's indices with its local ke and fe. */
  function ElementSystem(e: ReferenceElement, table: (ReferenceElement, Vec2) -> seq<Vec2>, rule: QuadRule, vertices: seq<Vec2>,
                         idx: seq<nat>, f: (real, real) -> real): (s: LocalSystem)
    requires GradientTable(table) && ElementAssemblable(e, vertices, idx, rule)
    ensures s.indices == idx && IsSymmetric(s.ke, NumNodes(e)) && |s.fe| == NumNodes(e)
  {
    var ds := PointDataList(e, table, Gather(vertices, idx), rule, f);
    LocalSystem(idx, LocalStiffness(ds, NumNodes(e)), LocalLoad(ds, NumNodes(e)))
  }

  predicate AllAssemblable(e: ReferenceElement, rule: QuadRule, vertices: seq<Vec2>, elements: seq<Element>)
  {
    forall k :: 0 <= k < |elements| ==> ElementAssemblable(e, vertices, elements[k].indices, rule)
  }

  /** The local systems of the given elements, in order. */
  function SystemsOf(e: ReferenceElement, table: (ReferenceElement, Vec2) -> seq<Vec2>, rule: QuadRule, vertices: seq<Vec2>,
                     elements: seq<Element>, f: (real, real) -> real): (ss: seq<LocalSystem>)
    requires GradientTable(table) && AllAssemblable(e, rule, vertices, elements)
    ensures |ss| == |elements|
    ensures forall k :: 0 <= k < |ss| ==> ss[k].indices == elements[k].indices
  {
    seq(|elements|, k requires 0 <= k < |elements| => ElementSystem(e, table, rule, vertices, elements[k].indices, f))
  }

  predicate MeshAssemblable(mesh: Mesh2d, root3: real)
  {
    IsRoot3(root3)
    && AllAssemblable(ReferenceElementFor(mesh.elementType), QuadRuleFor(mesh.elementType, root3), mesh.vertices, mesh.elements)
  }

  /** The local systems of all elements, in mesh order. */
  function ElementSystems(mesh: Mesh2d, table: (ReferenceElement, Vec2) -> seq<Vec2>, f: (real, real) -> real, root3: real)
    : (ss: seq<LocalSystem>)
    requires GradientTable(table) && MeshAssemblable(mesh, root3)
    ensures |ss| == |mesh.elements|
    ensures forall k :: 0 <= k < |ss| ==> ss[k].indices == mesh.elements[k].indices
  {
    SystemsOf(ReferenceElementFor(mesh.elementType), table, QuadRuleFor(mesh.elementType, root3), mesh.vertices, mesh.elements, f)
  }

  /** The assembled A is symmetric, whatever the gradient table. */
  lemma DenseMatrixSymmetric(mesh: Mesh2d, table: (ReferenceElement, Vec2) -> seq<Vec2>, f: (real, real) -> real, root3: real)
    requires GradientTable(table) && MeshAssemblable(mesh, root3)
    ensures IsSymmetric(AssembledMatrix(ElementSystems(mesh, table, f, root3), |mesh.vertices|), |mesh.vertices|)
  {
    var ss := ElementSystems(mesh, table, f, root3);
    var n := NumNodes(ReferenceElementFor(mesh.elementType));
    forall k | 0 <= k < |ss|
      ensures LocallySymmetric(ss[k].ke, |ss[k].indices|)
    {
      SymmetricIsLocallySymmetric(ss[k].ke, n, |ss[k].indices|);
    }
    AssembledMatrixSymmetric(ss, |mesh.vertices|);
  }

  lemma SymmetricIsLocallySymmetric(ke: seq<seq<real>>, n: nat, m: nat)
    requires IsSymmetric(ke, n) && m <= n
    ensures LocallySymmetric(ke, m)
  {
  }

  /** A vertex that no element uses has a zero row and column in A and a zero entry in b. */
  lemma DenseUnusedVertex(mesh: Mesh2d, table: (ReferenceElement, Vec2) -> seq<Vec2>, f: (real, real) -> real, root3: real, v: nat)
    requires GradientTable(table) && MeshAssemblable(mesh, root3) && v < |mesh.vertices|
    requires forall k, a :: 0 <= k < |mesh.elements| && 0 <= a < |mesh.elements[k].indices| ==> mesh.elements[k].indices[a] != v
    ensures forall c :: 0 <= c < |mesh.vertices| ==>
              AssembledMatrix(ElementSystems(mesh, table, f, root3), |mesh.vertices|)[v][c] == 0.0
              && AssembledMatrix(ElementSystems(mesh, table, f, root3), |mesh.vertices|)[c][v] == 0.0
    ensures AssembledLoad(ElementSystems(mesh, table, f, root3), |mesh.vertices|)[v] == 0.0
  {
    var ss := ElementSystems(mesh, table, f, root3);
    assert Unused(ss, v);
    forall c | 0 <= c < |mesh.vertices|
      ensures MatrixEntry(ss, v, c) == 0.0 && MatrixEntry(ss, c, v) == 0.0
    {
      UnusedVertexStaysZero(ss, v, c);
    }
    UnusedVertexStaysZero(ss, v, 0);
  }

  /** With a zero source every load entry is zero. */
  lemma DenseZeroSource(mesh: Mesh2d, table: (ReferenceElement, Vec2) -> seq<Vec2>, f: (real, real) -> real, root3: real)
    requires GradientTable(table) && MeshAssemblable(mesh, root3)
    requires forall x, y :: f(x, y) == 0.0
    ensures AssembledLoad(ElementSystems(mesh, table, f, root3), |mesh.vertices|) == Zeros(|mesh.vertices|)
  {
    var ss := ElementSystems(mesh, table, f, root3);
    var t := mesh.elementType;
    var e, rule := ReferenceElementFor(t), QuadRuleFor(t, root3);
    forall k | 0 <= k < |ss|
      ensures forall a :: 0 <= a < |ss[k].fe| ==> ss[k].fe[a] == 0.0
    {
      var ds := PointDataList(e, table, Gather(mesh.vertices, mesh.elements[k].indices), rule, f);
    }
    forall r | 0 <= r < |mesh.vertices|
      ensures LoadEntry(ss, r) == 0.0
    {
      ZeroLoadsStayZero(ss, r);
    }
  }

  /** The systems of E1 followed by E2 are those of E1 followed by those of E2. */
  lemma SystemsOfAppend(e: ReferenceElement, table: (ReferenceElement, Vec2) -> seq<Vec2>, rule: QuadRule, vertices: seq<Vec2>,
                        e1: seq<Element>, e2: seq<Element>, f: (real, real) -> real)
    requires GradientTable(table)
    requires AllAssemblable(e, rule, vertices, e1) && AllAssemblable(e, rule, vertices, e2)
    ensures AllAssemblable(e, rule, vertices, e1 + e2)
    ensures SystemsOf(e, table, rule, vertices, e1 + e2, f) == SystemsOf(e, table, rule, vertices, e1, f) + SystemsOf(e, table, rule, vertices, e2, f)
  {
    forall k | 0 <= k < |e1 + e2|
      ensures ElementAssemblable(e, vertices, (e1 + e2)[k].indices, rule)
    {
      if k < |e1| {
        assert (e1 + e2)[k] == e1[k];
      } else {
        assert (e1 + e2)[k] == e2[k - |e1|];
      }
    }
    var s12, s1, s2 := SystemsOf(e, table, rule, vertices, e1 + e2, f), SystemsOf(e, table, rule, vertices, e1, f), SystemsOf(e, table, rule, vertices, e2, f);
    forall k | 0 <= k < |s12|
      ensures s12[k] == (s1 + s2)[k]
    {
      if k < |e1| {
        assert (e1 + e2)[k] == e1[k];
      } else {
        assert (e1 + e2)[k] == e2[k - |e1|];
      }
    }
  }

  lemma SystemsOfSplit(e: ReferenceElement, rule: QuadRule, vertices: seq<Vec2>, e1: seq<Element>, e2: seq<Element>)
    requires AllAssemblable(e, rule, vertices, e1 + e2)
    ensures AllAssemblable(e, rule, vertices, e1) && AllAssemblable(e, rule, vertices, e2)
  {
    forall k | 0 <= k < |e1|
      ensures ElementAssemblable(e, vertices, e1[k].indices, rule)
    {
      assert (e1 + e2)[k] == e1[k];
    }
    forall k | 0 <= k < |e2|
      ensures ElementAssemblable(e, vertices, e2[k].indices, rule)
    {
      assert (e1 + e2)[|e1| + k] == e2[k];
    }
  }

  /** Assembling the elements in the order E1, E2 or E2, E1 gives the same A and b. */
  lemma DenseAssemblyOrderIndependent(vertices: seq<Vec2>, e1: seq<Element>, e2: seq<Element>, t: ElementType,
                                      table: (ReferenceElement, Vec2) -> seq<Vec2>, f: (real, real) -> real, root3: real)
    requires GradientTable(table)
    requires MeshAssemblable(Mesh2d(vertices, e1 + e2, t), root3)
    ensures MeshAssemblable(Mesh2d(vertices, e2 + e1, t), root3)
    ensures AssembledMatrix(ElementSystems(Mesh2d(vertices, e1 + e2, t), table, f, root3), |vertices|)
         == AssembledMatrix(ElementSystems(Mesh2d(vertices, e2 + e1, t), table, f, root3), |vertices|)
    ensures AssembledLoad(ElementSystems(Mesh2d(vertices, e1 + e2, t), table, f, root3), |vertices|)
         == AssembledLoad(ElementSystems(Mesh2d(vertices, e2 + e1, t), table, f, root3), |vertices|)
  {
    var e, rule := ReferenceElementFor(t), QuadRuleFor(t, root3);
    SystemsOfSplit(e, rule, vertices, e1, e2);
    SystemsOfAppend(e, table, rule, vertices, e1, e2, f);
    SystemsOfAppend(e, table, rule, vertices, e2, e1, f);
    AssemblyOrderIndependent(ElementSystems(Mesh2d(vertices, e1, t), table, f, root3),
                             ElementSystems(Mesh2d(vertices, e2, t), table, f, root3), |vertices|);
  }

  // The loops of `assemble_system_dense`.

  /** The loop that pushes `mesh.vertices()[vid]` for every index of the element. */
  method GatherNodes(vertices: seq<Vec2>, idx: seq<nat>) returns (nodes: seq<Vec2>)
    requires forall k :: 0 <= k < |idx| ==> idx[k] < |vertices|
    ensures nodes == Gather(vertices, idx)
  {
    nodes := [];
    for k := 0 to |idx|
      invariant nodes == Gather(vertices, idx[..k])
    {
      nodes := nodes + [vertices[idx[k]]];
    }
    assert idx[..|idx|] == idx;
  }

  /** The loop that pushes `jac_inv_t * grad_ref` for every reference gradient. */
  method TransformGradients(jacInvT: Matrix2, gradsRef: seq<Vec2>) returns (grads: seq<Vec2>)
    ensures grads == ApplyAll(jacInvT, gradsRef)
  {
    grads := [];
    for k := 0 to |gradsRef|
      invariant grads == ApplyAll(jacInvT, gradsRef[..k])
    {
      grads := grads + [Apply(jacInvT, gradsRef[k])];
    }
    assert gradsRef[..|gradsRef|] == gradsRef;
  }

  /** The loop x += Nᵢ·xᵢ, y += Nᵢ·yᵢ over the zipped shape values and nodes. */
  method PhysicalCoordinates(vals: seq<real>, nodes: seq<Vec2>) returns (x: real, y: real)
    ensures Vec2(x, y) == IsoMap(vals, nodes)
  {
    x, y := 0.0, 0.0;
    var i := 0;
    while i < |vals| && i < |nodes|
      invariant i <= |vals| && i <= |nodes|
      invariant x == ZipSum(Product, vals[..i], Xs(nodes)[..i]) && y == ZipSum(Product, vals[..i], Ys(nodes)[..i])
    {
      ZipSumSnoc(Product, vals, Xs(nodes), i);
      ZipSumSnoc(Product, vals, Ys(nodes), i);
      x := x + vals[i] * nodes[i].x;
      y := y + vals[i] * nodes[i].y;
      i := i + 1;
    }
    ZipSumCommonPrefix(Product, vals, Xs(nodes), i);
    ZipSumCommonPrefix(Product, vals, Ys(nodes), i);
  }

  /** The loop over i that adds one quadrature point's terms to ke and fe. */
  method AccumulatePoint(ke: seq<seq<real>>, fe: seq<real>, d: PointData, n: nat) returns (ke': seq<seq<real>>, fe': seq<real>)
    requires IsMatrix(ke, n, n) && |fe| == n && |d.grads| == n && |d.vals| == n
    ensures ke' == AddPointStiffness(ke, d, n) && fe' == AddPointLoad(fe, d, n)
  {
    ke', fe' := ke, fe;
    for i := 0 to n
      invariant |ke'| == n && |fe'| == n
      invariant forall r :: 0 <= r < i ==> ke'[r] == AddedRow(ke[r], d.grads[r], d.grads, d.weight)
      invariant forall r :: i <= r < n ==> ke'[r] == ke[r]
      invariant forall r :: 0 <= r < i ==> fe'[r] == fe[r] + d.vals[r] * d.fval * d.weight
      invariant forall r :: i <= r < n ==> fe'[r] == fe[r]
    {
      var row := AddToRow(ke'[i], d.grads[i], d.grads, d.weight);
      ke' := ke'[i := row];
      fe' := fe'[i := fe'[i] + d.vals[i] * d.fval * d.weight];
    }
    assert forall r :: 0 <= r < n ==> ke'[r] == AddPointStiffness(ke, d, n)[r];
    assert forall r :: 0 <= r < n ==> fe'[r] == AddPointLoad(fe, d, n)[r];
  }

  /** The loop over j that adds (gᵢ·gⱼ)·weight to row i of ke. */
  method AddToRow(row: seq<real>, gi: Vec2, grads: seq<Vec2>, weight: real) returns (row': seq<real>)
    requires |grads| >= |row|
    ensures row' == AddedRow(row, gi, grads, weight)
  {
    row' := row;
    for j := 0 to |row|
      invariant |row'| == |row|
      invariant forall c :: 0 <= c < j ==> row'[c] == row[c] + Dot2(gi, grads[c]) * weight
      invariant forall c :: j <= c < |row| ==> row'[c] == row[c]
    {
      row' := row'[j := row'[j] + Dot2(gi, grads[j]) * weight];
    }
    assert forall c :: 0 <= c < |row| ==> row'[c] == AddedRow(row, gi, grads, weight)[c];
  }

  /** Two n×n matrices with the same entries are equal. */
  lemma MatrixExtensional(a: seq<seq<real>>, b: seq<seq<real>>, n: nat)
    requires IsMatrix(a, n, n) && IsMatrix(b, n, n)
    requires forall r, c :: 0 <= r < n && 0 <= c < n ==> a[r][c] == b[r][c]
    ensures a == b
  {
    assert forall r :: 0 <= r < n ==> a[r] == b[r];
  }

  /** The body of the quadrature loop up to the updates of ke and fe. */
  method PointQuantities(e: ReferenceElement, table: (ReferenceElement, Vec2) -> seq<Vec2>, nodes: seq<Vec2>, p: Vec2, w: real,
                         f: (real, real) -> real) returns (d: PointData)
    requires GradientTable(table) && JacobianDefined(e, nodes) && Determinant(JacobianOf(e, nodes, p)) != 0.0
    ensures d == PointDataAt(e, table, nodes, p, w, f)
  {
    var gradsRef := table(e, p);
    var jac := Jacobian(e, nodes, p);
    var det := Determinant(jac);
    var jacInvT := Transpose(Inverse(jac));
    var grads := TransformGradients(jacInvT, gradsRef);
    var vals := ShapeFunctions(e, p);
    var x, y := PhysicalCoordinates(vals, nodes);
    var fval := f(x, y);
    var weight := w * Abs(det);
    d := PointData(grads, vals, weight, fval);
  }

  /** One more point extends ke and fe by that point's terms. */
  lemma LocalStep(ds: seq<PointData>, q: nat, n: nat)
    requires Fits(ds, n) && q < |ds|
    ensures Fits(ds[..q], n) && Fits(ds[..q + 1], n)
    ensures LocalStiffness(ds[..q + 1], n) == AddPointStiffness(LocalStiffness(ds[..q], n), ds[q], n)
    ensures LocalLoad(ds[..q + 1], n) == AddPointLoad(LocalLoad(ds[..q], n), ds[q], n)
  {
    assert ds[..q + 1][..q] == ds[..q];
  }

  /** The loop over the zipped quadrature points and weights that builds ke and fe. */
  method LocalSystemAt(e: ReferenceElement, table: (ReferenceElement, Vec2) -> seq<Vec2>, rule: QuadRule, nodes: seq<Vec2>,
                       f: (real, real) -> real) returns (ke: seq<seq<real>>, fe: seq<real>)
    requires GradientTable(table) && JacobianDefined(e, nodes) && InvertibleAt(e, nodes, rule)
    ensures ke == LocalStiffness(PointDataList(e, table, nodes, rule, f), NumNodes(e))
    ensures fe == LocalLoad(PointDataList(e, table, nodes, rule, f), NumNodes(e))
  {
    var n := NumNodes(e);
    ghost var ds := PointDataList(e, table, nodes, rule, f);
    var m := if |rule.points| < |rule.weights| then |rule.points| else |rule.weights|;
    assert m == |ds|;
    ke, fe := ZeroMatrix(n, n), Zeros(n);
    for q := 0 to m
      invariant ke == LocalStiffness(ds[..q], n) && fe == LocalLoad(ds[..q], n)
    {
      var d := PointQuantities(e, table, nodes, rule.points[q], rule.weights[q], f);
      assert d == ds[q];
      LocalStep(ds, q, n);
      ke, fe := AccumulatePoint(ke, fe, d, n);
    }
    assert ds[..m] == ds;
  }

  /** The loops that add ke and fe at the element's global indices. */
  method ScatterElement(a: seq<seq<real>>, b: seq<real>, idx: seq<nat>, ke: seq<seq<real>>, fe: seq<real>, size: nat)
    returns (a': seq<seq<real>>, b': seq<real>)
    requires IsMatrix(a, size, size) && |b| == size
    requires forall k :: 0 <= k < |idx| ==> idx[k] < size
    requires IsMatrix(ke, |ke|, |ke|) && |fe| == |ke| && |idx| <= |ke|
    ensures IsMatrix(a', size, size) && |b'| == size
    ensures forall r, c :: 0 <= r < size && 0 <= c < size ==> a'[r][c] == a[r][c] + Contribution(idx, ke, r, c)
    ensures forall r :: 0 <= r < size ==> b'[r] == b[r] + LoadContribution(idx, fe, r, |idx|)
  {
    a', b' := a, b;
    for li := 0 to |idx|
      invariant IsMatrix(a', size, size) && |b'| == size
      invariant forall r, c :: 0 <= r < size && 0 <= c < size ==> a'[r][c] == a[r][c] + RowsTotal(idx, ke, r, c, li, |idx|)
      invariant forall r :: 0 <= r < size ==> b'[r] == b[r] + LoadContribution(idx, fe, r, li)
    {
      var gi := idx[li];
      b' := b'[gi := b'[gi] + fe[li]];
      for lj := 0 to |idx|
        invariant IsMatrix(a', size, size)
        invariant forall r, c :: 0 <= r < size && 0 <= c < size ==>
                    a'[r][c] == a[r][c] + RowsTotal(idx, ke, r, c, li, |idx|) + RowWeights(idx, ke, r, c, li, lj)
      {
        var gj := idx[lj];
        a' := a'[gi := a'[gi][gj := a'[gi][gj] + ke[li][lj]]];
      }
    }
  }

  /** Which rule the element type selects, built as the source builds it. */
  method QuadRuleOf(t: ElementType, root3: real) returns (rule: QuadRule)
    requires IsRoot3(root3)
    ensures rule == QuadRuleFor(t, root3)
  {
    match t
    case P1 =>
      rule := Triangle(2);
    case Q1 =>
      rule := Quadrilateral(2, root3);
  }

  /** One pass of the element loop: element k's local system, computed with the written table, scattered into A and b. */
  method AddElement(mesh: Mesh2d, f: (real, real) -> real, root3: real, refElement: ReferenceElement, rule: QuadRule, k: nat,
                    a: seq<seq<real>>, b: seq<real>) returns (a': seq<seq<real>>, b': seq<real>)
    requires MeshAssemblable(mesh, root3) && k < |mesh.elements|
    requires refElement == ReferenceElementFor(mesh.elementType) && rule == QuadRuleFor(mesh.elementType, root3)
    requires GradientTable(WrittenShapeGradients)
    requires IsMatrix(a, |mesh.vertices|, |mesh.vertices|) && |b| == |mesh.vertices|
    requires var ss := ElementSystems(mesh, WrittenShapeGradients, f, root3);
             && (forall r, c :: 0 <= r < |mesh.vertices| && 0 <= c < |mesh.vertices| ==> a[r][c] == MatrixEntry(ss[..k], r, c))
             && (forall r :: 0 <= r < |mesh.vertices| ==> b[r] == LoadEntry(ss[..k], r))
    ensures IsMatrix(a', |mesh.vertices|, |mesh.vertices|) && |b'| == |mesh.vertices|
    ensures var ss := ElementSystems(mesh, WrittenShapeGradients, f, root3);
            && (forall r, c :: 0 <= r < |mesh.vertices| && 0 <= c < |mesh.vertices| ==> a'[r][c] == MatrixEntry(ss[..k + 1], r, c))
            && (forall r :: 0 <= r < |mesh.vertices| ==> b'[r] == LoadEntry(ss[..k + 1], r))
  {
    ghost var ss := ElementSystems(mesh, WrittenShapeGradients, f, root3);
    assert ss[..k + 1][..k] == ss[..k];
    var idx := mesh.elements[k].indices;
    var nodes := GatherNodes(mesh.vertices, idx);
    var ke, fe := LocalSystemAt(refElement, WrittenShapeGradients, rule, nodes, f);
    ElementSystemsAt(mesh, WrittenShapeGradients, f, root3, k);
    assert ElementSystems(mesh, WrittenShapeGradients, f, root3)[k] == LocalSystem(idx, ke, fe);
    a', b' := ScatterElement(a, b, idx, ke, fe, |mesh.vertices|);
  }

  /**
   * `assemble_system_dense`: A is |vertices|×|vertices| and b has |vertices|
   * entries whatever the number of elements; each is the scatter of the
   * elements' local systems in mesh order, computed with the gradient table
   * of element.rs as written.
   */
  method AssembleSystemDense(mesh: Mesh2d, f: (real, real) -> real, root3: real) returns (a: seq<seq<real>>, b: seq<real>)
    requires MeshAssemblable(mesh, root3)
    ensures GradientTable(WrittenShapeGradients)
    ensures a == AssembledMatrix(ElementSystems(mesh, WrittenShapeGradients, f, root3), |mesh.vertices|)
    ensures b == AssembledLoad(ElementSystems(mesh, WrittenShapeGradients, f, root3), |mesh.vertices|)
  {
    var numVertices := |mesh.vertices|;
    a, b := ZeroMatrix(numVertices, numVertices), Zeros(numVertices);
    var refElement := ReferenceElementFor(mesh.elementType);
    var rule := QuadRuleOf(mesh.elementType, root3);
    ghost var ss := ElementSystems(mesh, WrittenShapeGradients, f, root3);
    for k := 0 to |mesh.elements|
      invariant IsMatrix(a, numVertices, numVertices) && |b| == numVertices
      invariant forall r, c :: 0 <= r < numVertices && 0 <= c < numVertices ==> a[r][c] == MatrixEntry(ss[..k], r, c)
      invariant forall r :: 0 <= r < numVertices ==> b[r] == LoadEntry(ss[..k], r)
    {
      a, b := AddElement(mesh, f, root3, refElement, rule, k, a, b);
    }
    ScatteredAll(a, b, ss, numVertices);
  }

  /** Entries equal to those of the whole sequence of systems are its assembled matrix and load. */
  lemma ScatteredAll(a: seq<seq<real>>, b: seq<real>, ss: seq<LocalSystem>, n: nat)
    requires IsMatrix(a, n, n) && |b| == n
    requires forall r, c :: 0 <= r < n && 0 <= c < n ==> a[r][c] == MatrixEntry(ss[..|ss|], r, c)
    requires forall r :: 0 <= r < n ==> b[r] == LoadEntry(ss[..|ss|], r)
    ensures a == AssembledMatrix(ss, n) && b == AssembledLoad(ss, n)
  {
    assert ss[..|ss|] == ss;
    MatrixExtensional(a, AssembledMatrix(ss, n), n);
  }

  /** Element k's local system in the mesh is the one computed on its gathered nodes. */
  lemma ElementSystemsAt(mesh: Mesh2d, table: (ReferenceElement, Vec2) -> seq<Vec2>, f: (real, real) -> real, root3: real, k: nat)
    requires GradientTable(table) && MeshAssemblable(mesh, root3) && k < |mesh.elements|
    ensures var e, rule, idx := ReferenceElementFor(mesh.elementType), QuadRuleFor(mesh.elementType, root3), mesh.elements[k].indices;
            ElementAssemblable(e, mesh.vertices, idx, rule)
            && ElementSystems(mesh, table, f, root3)[k]
               == LocalSystem(idx, LocalStiffness(PointDataList(e, table, Gather(mesh.vertices, idx), rule, f), NumNodes(e)),
                              LocalLoad(PointDataList(e, table, Gather(mesh.vertices, idx), rule, f), NumNodes(e)))
  {
    var e, rule, idx := ReferenceElementFor(mesh.elementType), QuadRuleFor(mesh.elementType, root3), mesh.elements[k].indices;
    assert ElementAssemblable(e, mesh.vertices, idx, rule);
    assert ElementSystems(mesh, table, f, root3)[k] == ElementSystem(e, table, rule, mesh.vertices, idx, f);
  }

  // The stiffness matrix on the reference triangle itself.

  /** One P1 element on the vertices (0, 0), (1, 0), (0, 1) of the reference triangle. */
  function ReferenceTriangleMesh(): (r: Mesh2d)
  {
    Mesh2d([Vec2(0.0, 0.0), Vec2(1.0, 0.0), Vec2(0.0, 1.0)], [Element([0, 1, 2])], P1)
  }

  /** On the reference triangle J = I: the physical gradients are the table's and the weight is kept. */
  lemma ReferenceTrianglePoint(table: (ReferenceElement, Vec2) -> seq<Vec2>, p: Vec2, w: real, f: (real, real) -> real)
    requires GradientTable(table)
    ensures JacobianOf(Tri3, ReferenceTriangleMesh().vertices, p) == Identity()
    ensures PointDataAt(Tri3, table, ReferenceTriangleMesh().vertices, p, w, f).grads == table(Tri3, p)
    ensures PointDataAt(Tri3, table, ReferenceTriangleMesh().vertices, p, w, f).weight == w
  {
    var vs := ReferenceTriangleMesh().vertices;
    assert JacobianOf(Tri3, vs, p) == Identity();
    var g, d := table(Tri3, p), PointDataAt(Tri3, table, vs, p, w, f);
    forall k | 0 <= k < |g|
      ensures d.grads[k] == g[k]
    {
      assert Apply(Transpose(Identity()), d.grads[k]) == g[k];
    }
  }

  /** One more point adds (gᵢ·gⱼ)·weight to entry (i, j) of ke. */
  lemma LocalStepEntry(ds: seq<PointData>, q: nat, n: nat, i: nat, j: nat)
    requires Fits(ds, n) && q < |ds| && i < n && j < n
    ensures Fits(ds[..q], n) && Fits(ds[..q + 1], n)
    ensures LocalStiffness(ds[..q + 1], n)[i][j] == LocalStiffness(ds[..q], n)[i][j] + Dot2(ds[q].grads[i], ds[q].grads[j]) * ds[q].weight
  {
    LocalStep(ds, q, n);
    var prev := LocalStiffness(ds[..q], n);
    var row := AddedRow(prev[i], ds[q].grads[i], ds[q].grads, ds[q].weight);
    assert LocalStiffness(ds[..q + 1], n)[i] == row;
    assert row[j] == prev[i][j] + Dot2(ds[q].grads[i], ds[q].grads[j]) * ds[q].weight;
  }

  /** The third of three points completes ke. */
  lemma ThirdPointEntry(ds: seq<PointData>, i: nat, j: nat)
    requires |ds| == 3 && Fits(ds, 3) && i < 3 && j < 3
    ensures Fits(ds[..2], 3)
    ensures LocalStiffness(ds, 3)[i][j] == LocalStiffness(ds[..2], 3)[i][j] + Dot2(ds[2].grads[i], ds[2].grads[j]) * ds[2].weight
  {
    assert Fits(ds[..2], 3);
    var prev := LocalStiffness(ds[..2], 3);
    var row := AddedRow(prev[i], ds[2].grads[i], ds[2].grads, ds[2].weight);
    assert LocalStiffness(ds, 3)[i] == row;
    assert row[j] == prev[i][j] + Dot2(ds[2].grads[i], ds[2].grads[j]) * ds[2].weight;
  }

  /** What one local point with gradients g and weight w adds to entry (i, j) of ke. */
  function PointTerm(g: seq<Vec2>, w: real, i: nat, j: nat): (r: real)
    requires i < |g| && j < |g|
  {
    Dot2(g[i], g[j]) * w
  }

  /** ke after three points: entry (i, j) is Σ_q (g_qi·g_qj)·weight_q. */
  lemma ThreePointStiffness(ds: seq<PointData>, i: nat, j: nat)
    requires |ds| == 3 && Fits(ds, 3) && i < 3 && j < 3
    ensures LocalStiffness(ds, 3)[i][j]
         == Dot2(ds[0].grads[i], ds[0].grads[j]) * ds[0].weight + Dot2(ds[1].grads[i], ds[1].grads[j]) * ds[1].weight
          + Dot2(ds[2].grads[i], ds[2].grads[j]) * ds[2].weight
  {
    LocalStepEntry(ds, 0, 3, i, j);
    LocalStepEntry(ds, 1, 3, i, j);
    ThirdPointEntry(ds, i, j);
  }

  /** The same sum, point by point. */
  lemma ThreePointTerms(ds: seq<PointData>, i: nat, j: nat)
    requires |ds| == 3 && Fits(ds, 3) && i < 3 && j < 3
    ensures LocalStiffness(ds, 3)[i][j]
         == PointTerm(ds[0].grads, ds[0].weight, i, j) + PointTerm(ds[1].grads, ds[1].weight, i, j) + PointTerm(ds[2].grads, ds[2].weight, i, j)
  {
    ThreePointStiffness(ds, i, j);
  }

  /** Scattering through the indices 0, 1, 2 puts ke at the same global positions. */
  lemma IdentityScatter(ke: seq<seq<real>>, i: nat, j: nat)
    requires IsMatrix(ke, 3, 3) && i < 3 && j < 3
    ensures Contribution([0, 1, 2], ke, i, j) == ke[i][j]
  {
    var idx: seq<nat> := [0, 1, 2];
    forall a | 0 <= a < 3
      ensures RowWeights(idx, ke, i, j, a, 3) == if a == i then ke[i][j] else 0.0
    {
      IdentityRow(ke, i, j, a);
    }
    assert RowsTotal(idx, ke, i, j, 1, 3) == RowWeights(idx, ke, i, j, 0, 3);
    assert RowsTotal(idx, ke, i, j, 2, 3) == RowsTotal(idx, ke, i, j, 1, 3) + RowWeights(idx, ke, i, j, 1, 3);
    assert RowsTotal(idx, ke, i, j, 3, 3) == RowsTotal(idx, ke, i, j, 2, 3) + RowWeights(idx, ke, i, j, 2, 3);
  }

  lemma IdentityRow(ke: seq<seq<real>>, i: nat, j: nat, a: nat)
    requires IsMatrix(ke, 3, 3) && i < 3 && j < 3 && a < 3
    ensures RowWeights([0, 1, 2], ke, i, j, a, 3) == if a == i then ke[i][j] else 0.0
  {
    var idx: seq<nat> := [0, 1, 2];
    assert RowWeights(idx, ke, i, j, a, 1) == PairWeight(idx, ke, i, j, a, 0);
    assert RowWeights(idx, ke, i, j, a, 2) == RowWeights(idx, ke, i, j, a, 1) + PairWeight(idx, ke, i, j, a, 1);
    assert RowWeights(idx, ke, i, j, a, 3) == RowWeights(idx, ke, i, j, a, 2) + PairWeight(idx, ke, i, j, a, 2);
  }

  /** On the reference triangle, ke of a three-point rule is the rule's quadrature sum of the table's gradients. */
  lemma ReferenceTriangleLocal(table: (ReferenceElement, Vec2) -> seq<Vec2>, f: (real, real) -> real, rule: QuadRule, i: nat, j: nat)
    requires GradientTable(table) && |rule.points| == |rule.weights| == 3 && i < 3 && j < 3
    requires InvertibleAt(Tri3, ReferenceTriangleMesh().vertices, rule)
    ensures var p, w := rule.points, rule.weights;
            LocalStiffness(PointDataList(Tri3, table, ReferenceTriangleMesh().vertices, rule, f), 3)[i][j]
            == PointTerm(table(Tri3, p[0]), w[0], i, j) + PointTerm(table(Tri3, p[1]), w[1], i, j) + PointTerm(table(Tri3, p[2]), w[2], i, j)
  {
    var ds := PointDataList(Tri3, table, ReferenceTriangleMesh().vertices, rule, f);
    ReferenceTriangleDataAt(table, f, rule, 0);
    ReferenceTriangleDataAt(table, f, rule, 1);
    ReferenceTriangleDataAt(table, f, rule, 2);
    TableQuadratureStiffness(ds, table, rule, i, j);
  }

  /** Three points carrying the table's gradients at the points of a three-point rule and its weights: ke[i][j] is the rule's quadrature sum. */
  lemma TableQuadratureStiffness(ds: seq<PointData>, table: (ReferenceElement, Vec2) -> seq<Vec2>, rule: QuadRule, i: nat, j: nat)
    requires |ds| == 3 && Fits(ds, 3) && |rule.points| == |rule.weights| == 3 && i < 3 && j < 3
    requires ds[0].grads == table(Tri3, rule.points[0]) && ds[0].weight == rule.weights[0]
    requires ds[1].grads == table(Tri3, rule.points[1]) && ds[1].weight == rule.weights[1]
    requires ds[2].grads == table(Tri3, rule.points[2]) && ds[2].weight == rule.weights[2]
    ensures LocalStiffness(ds, 3)[i][j]
         == PointTerm(table(Tri3, rule.points[0]), rule.weights[0], i, j) + PointTerm(table(Tri3, rule.points[1]), rule.weights[1], i, j)
          + PointTerm(table(Tri3, rule.points[2]), rule.weights[2], i, j)
  {
    ThreePointTerms(ds, i, j);
  }

  /** Entry (i, j) of A is entry (i, j) of the one element's ke. */
  lemma ReferenceTriangleScatter(table: (ReferenceElement, Vec2) -> seq<Vec2>, f: (real, real) -> real, root3: real, i: nat, j: nat)
    requires GradientTable(table) && IsRoot3(root3) && MeshAssemblable(ReferenceTriangleMesh(), root3) && i < 3 && j < 3
    requires InvertibleAt(Tri3, ReferenceTriangleMesh().vertices, Triangle(2))
    ensures AssembledMatrix(ElementSystems(ReferenceTriangleMesh(), table, f, root3), 3)[i][j]
         == LocalStiffness(PointDataList(Tri3, table, ReferenceTriangleMesh().vertices, Triangle(2), f), 3)[i][j]
  {
    ReferenceTriangleSystems(table, f, root3);
    OneSystemScatter(ElementSystems(ReferenceTriangleMesh(), table, f, root3),
                     LocalStiffness(PointDataList(Tri3, table, ReferenceTriangleMesh().vertices, Triangle(2), f), 3),
                     LocalLoad(PointDataList(Tri3, table, ReferenceTriangleMesh().vertices, Triangle(2), f), 3), i, j);
  }

  /** A single local system on the indices [0, 1, 2] of a three-vertex mesh is scattered entry for entry. */
  lemma OneSystemScatter(ss: seq<LocalSystem>, ke: seq<seq<real>>, fe: seq<real>, i: nat, j: nat)
    requires ss == [LocalSystem([0, 1, 2], ke, fe)] && IsMatrix(ke, 3, 3) && i < 3 && j < 3
    ensures AssembledMatrix(ss, 3)[i][j] == ke[i][j]
  {
    assert ss[..0] == [];
    IdentityScatter(ke, i, j);
    assert MatrixEntry(ss, i, j) == ke[i][j];
  }

  /** At point q of a rule on the reference triangle, the gradients are the table's and the weight is the rule's. */
  lemma ReferenceTriangleDataAt(table: (ReferenceElement, Vec2) -> seq<Vec2>, f: (real, real) -> real, rule: QuadRule, q: nat)
    requires GradientTable(table) && q < |rule.points| && q < |rule.weights|
    requires InvertibleAt(Tri3, ReferenceTriangleMesh().vertices, rule)
    ensures var ds := PointDataList(Tri3, table, ReferenceTriangleMesh().vertices, rule, f);
            q < |ds| && ds[q].grads == table(Tri3, rule.points[q]) && ds[q].weight == rule.weights[q]
  {
    var vs := ReferenceTriangleMesh().vertices;
    var ds := PointDataList(Tri3, table, vs, rule, f);
    assert ds[q] == PointDataAt(Tri3, table, vs, rule.points[q], rule.weights[q], f);
    ReferenceTrianglePoint(table, rule.points[q], rule.weights[q], f);
  }

  /** The reference triangle's Jacobian is I at every point of triangle(2): its one element can be assembled. */
  lemma ReferenceTriangleAssemblable(root3: real)
    requires IsRoot3(root3)
    ensures JacobianDefined(Tri3, ReferenceTriangleMesh().vertices) && InvertibleAt(Tri3, ReferenceTriangleMesh().vertices, Triangle(2))
    ensures MeshAssemblable(ReferenceTriangleMesh(), root3)
  {
    var mesh, rule := ReferenceTriangleMesh(), Triangle(2);
    var vs := mesh.vertices;
    forall q | 0 <= q < |rule.points|
      ensures Determinant(JacobianOf(Tri3, vs, rule.points[q])) != 0.0
    {
      assert JacobianOf(Tri3, vs, rule.points[q]) == Identity();
    }
    assert InvertibleAt(Tri3, vs, rule);
    assert Gather(vs, mesh.elements[0].indices) == vs;
    assert ElementAssemblable(Tri3, vs, mesh.elements[0].indices, rule);
    assert QuadRuleFor(mesh.elementType, root3) == rule;
  }

  /** The one local system: ke and fe are summed over the points of triangle(2) on the reference triangle's vertices. */
  lemma ReferenceTriangleSystems(table: (ReferenceElement, Vec2) -> seq<Vec2>, f: (real, real) -> real, root3: real)
    requires GradientTable(table) && IsRoot3(root3) && MeshAssemblable(ReferenceTriangleMesh(), root3)
    requires InvertibleAt(Tri3, ReferenceTriangleMesh().vertices, Triangle(2))
    ensures ElementSystems(ReferenceTriangleMesh(), table, f, root3)
         == [LocalSystem([0, 1, 2], LocalStiffness(PointDataList(Tri3, table, ReferenceTriangleMesh().vertices, Triangle(2), f), 3),
                         LocalLoad(PointDataList(Tri3, table, ReferenceTriangleMesh().vertices, Triangle(2), f), 3))]
  {
    var vs := ReferenceTriangleMesh().vertices;
    assert Gather(vs, [0, 1, 2]) == vs;
    OneElementSystems(ReferenceTriangleMesh(), table, f, root3);
  }

  /** A mesh of one element whose indices gather the vertices in order has that element's local system on the vertices. */
  lemma OneElementSystems(mesh: Mesh2d, table: (ReferenceElement, Vec2) -> seq<Vec2>, f: (real, real) -> real, root3: real)
    requires GradientTable(table) && MeshAssemblable(mesh, root3) && |mesh.elements| == 1
    requires ElementAssemblable(ReferenceElementFor(mesh.elementType), mesh.vertices, mesh.elements[0].indices, QuadRuleFor(mesh.elementType, root3))
    requires Gather(mesh.vertices, mesh.elements[0].indices) == mesh.vertices
    ensures var e, rule := ReferenceElementFor(mesh.elementType), QuadRuleFor(mesh.elementType, root3);
            ElementSystems(mesh, table, f, root3)
            == [LocalSystem(mesh.elements[0].indices, LocalStiffness(PointDataList(e, table, mesh.vertices, rule, f), NumNodes(e)),
                            LocalLoad(PointDataList(e, table, mesh.vertices, rule, f), NumNodes(e)))]
  {
    var e, rule := ReferenceElementFor(mesh.elementType), QuadRuleFor(mesh.elementType, root3);
    var ss := ElementSystems(mesh, table, f, root3);
    assert ss[0] == ElementSystem(e, table, rule, mesh.vertices, mesh.elements[0].indices, f);
  }

  /**
   * With the table of element.rs as written, ke[0][2] on the reference
   * triangle is +(w₀ + w₁ + w₂) for every three-point rule: 0.5 for
   * triangle(2), whose weights sum to 0.5.
   */
  lemma WrittenReferenceTriangleCoupling(f: (real, real) -> real, rule: QuadRule)
    requires |rule.points| == |rule.weights| == 3
    requires InvertibleAt(Tri3, ReferenceTriangleMesh().vertices, rule)
    ensures GradientTable(WrittenShapeGradients)
    ensures LocalStiffness(PointDataList(Tri3, WrittenShapeGradients, ReferenceTriangleMesh().vertices, rule, f), 3)[0][2]
         == rule.weights[0] + rule.weights[1] + rule.weights[2]
  {
    ReferenceTriangleLocal(WrittenShapeGradients, f, rule, 0, 2);
    CouplingTerms(rule.points[0], rule.weights[0]);
    CouplingTerms(rule.points[1], rule.weights[1]);
    CouplingTerms(rule.points[2], rule.weights[2]);
  }

  /** With the corrected table the same entry is -(w₀ + w₁ + w₂): ∇N₀ = (-1, -1) against ∇N₂ = (0, 1). */
  lemma CorrectedReferenceTriangleCoupling(f: (real, real) -> real, rule: QuadRule)
    requires |rule.points| == |rule.weights| == 3
    requires InvertibleAt(Tri3, ReferenceTriangleMesh().vertices, rule)
    ensures GradientTable(ShapeGradients)
    ensures LocalStiffness(PointDataList(Tri3, ShapeGradients, ReferenceTriangleMesh().vertices, rule, f), 3)[0][2]
         == -(rule.weights[0] + rule.weights[1] + rule.weights[2])
  {
    ReferenceTriangleLocal(ShapeGradients, f, rule, 0, 2);
    CouplingTerms(rule.points[0], rule.weights[0]);
    CouplingTerms(rule.points[1], rule.weights[1]);
    CouplingTerms(rule.points[2], rule.weights[2]);
  }

  /** A[0][2] of the one-element mesh with the written table: the weights of triangle(2) summed, 0.5. */
  lemma WrittenAssembledCoupling(f: (real, real) -> real, root3: real)
    requires IsRoot3(root3)
    ensures GradientTable(WrittenShapeGradients) && MeshAssemblable(ReferenceTriangleMesh(), root3)
    ensures AssembledMatrix(ElementSystems(ReferenceTriangleMesh(), WrittenShapeGradients, f, root3), 3)[0][2] == 0.5
  {
    ReferenceTriangleAssemblable(root3);
    ReferenceTriangleScatter(WrittenShapeGradients, f, root3, 0, 2);
    WrittenReferenceTriangleCoupling(f, Triangle(2));
  }

  /** The same entry with the corrected table: -0.5. */
  lemma CorrectedAssembledCoupling(f: (real, real) -> real, root3: real)
    requires IsRoot3(root3)
    ensures GradientTable(ShapeGradients) && MeshAssemblable(ReferenceTriangleMesh(), root3)
    ensures AssembledMatrix(ElementSystems(ReferenceTriangleMesh(), ShapeGradients, f, root3), 3)[0][2] == -0.5
  {
    ReferenceTriangleAssemblable(root3);
    ReferenceTriangleScatter(ShapeGradients, f, root3, 0, 2);
    CorrectedReferenceTriangleCoupling(f, Triangle(2));
  }

  /** One point's share of ke[0][2]: +w with the written table, -w with the corrected one. */
  lemma CouplingTerms(p: Vec2, w: real)
    ensures PointTerm(WrittenShapeGradients(Tri3, p), w, 0, 2) == w
    ensures PointTerm(ShapeGradients(Tri3, p), w, 0, 2) == -w
  {
    var g := ShapeGradients(Tri3, p);
    assert g[0] == Vec2(-1.0, -1.0) && g[2] == Vec2(0.0, 1.0);
    assert Dot2(g[0], g[2]) == -1.0;
  }

  // `_assemble_system_sparse`.

  /** A coordinate-format entry (row, column, value). */
  datatype Triplet = Triplet(row: nat, col: nat, value: real)

  /** Entry (r, c) of the matrix built from coordinate triplets: repeated positions add up. */
  function CooValue(coo: seq<Triplet>, r: nat, c: nat): (res: real)
  {
    if |coo| == 0 then 0.0
    else
      var t := coo[|coo| - 1];
      CooValue(coo[..|coo| - 1], r, c) + (if t.row == r && t.col == c then t.value else 0.0)
  }

  /** `_assemble_system_sparse`: the n×n identity as triplets (i, i, 1) in order, and a zero vector; the source is ignored. */
  method AssembleSystemSparse(mesh: Mesh2d, f: (real, real) -> real) returns (coo: seq<Triplet>, b: seq<real>)
    ensures |coo| == |mesh.vertices| && forall i :: 0 <= i < |coo| ==> coo[i] == Triplet(i, i, 1.0)
    ensures forall r, c :: 0 <= r < |mesh.vertices| && 0 <= c < |mesh.vertices| ==>
              CooValue(coo, r, c) == if r == c then 1.0 else 0.0
    ensures b == Zeros(|mesh.vertices|)
  {
    var numVertices := |mesh.vertices|;
    coo := [];
    for i := 0 to numVertices
      invariant |coo| == i && forall k :: 0 <= k < i ==> coo[k] == Triplet(k, k, 1.0)
      invariant forall r, c :: 0 <= r < numVertices && 0 <= c < numVertices ==>
                  CooValue(coo, r, c) == if r == c && r < i then 1.0 else 0.0
    {
      coo := coo + [Triplet(i, i, 1.0)];
      assert coo[..i] == coo[..|coo| - 1];
    }
    b := Zeros(numVertices);
  }
}
