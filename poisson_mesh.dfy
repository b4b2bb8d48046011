/**
 * poisson_2d/src/mesh.rs: a mesh is its vertices, its elements (each a list
 * of vertex indices) and the element type shared by all elements. The mesh
 * is built once and never changed, so it is a value. `Element` and
 * `ElementType` are imported by mesh.rs from the element module, which does
 * not define them; they are defined here with the fields and variants the
 * crate uses.
 */
module PoissonMesh {
  import opened Matrix2Algebra

  /** P1: linear triangles; Q1: bilinear quadrilaterals. */
  datatype ElementType = P1 | Q1

  /** The global indices of an element's vertices, in local node order. */
  datatype Element = Element(indices: seq<nat>)

  datatype Mesh2d = Mesh2d(vertices: seq<Vec2>, elements: seq<Element>, elementType: ElementType)

  /**
   * `Mesh2d::new`: stores its arguments as they are, without checking that
   * the indices are in range or that the elements fit the element type.
   */
  function NewMesh(vertices: seq<Vec2>, elements: seq<Element>, elementType: ElementType): (m: Mesh2d)
    ensures m.vertices == vertices && m.elements == elements && m.elementType == elementType
  {
    Mesh2d(vertices, elements, elementType)
  }

  /** Rebuilding a mesh from its three accessors gives the same mesh. */
  lemma AccessorsRebuildMesh(m: Mesh2d)
    ensures NewMesh(m.vertices, m.elements, m.elementType) == m
  {
  }

  /** The unit square as one Q1 element. */
  function UnitSquare(): (r: Mesh2d)
  {
    NewMesh([Vec2(0.0, 0.0), Vec2(1.0, 0.0), Vec2(1.0, 1.0), Vec2(0.0, 1.0)], [Element([0, 1, 2, 3])], Q1)
  }

  /** The unit square mesh reports 4 vertices, 1 element and type Q1. */
  lemma UnitSquareMesh()
    ensures |UnitSquare().vertices| == 4 && |UnitSquare().elements| == 1 && UnitSquare().elementType == Q1
  {
  }
}
