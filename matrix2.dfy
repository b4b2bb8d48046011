/**
 * The 2-vectors and 2×2 matrices of the Poisson crate (nalgebra's `Point2`,
 * `Vector2` and `Matrix2`) with the determinant, inverse, transpose and
 * products it uses. Over reals the 2×2 inverse is the adjugate divided by
 * the determinant.
 */
module Matrix2Algebra {

  /** `Point2<f64>` and `Vector2<f64>`. */
  datatype Vec2 = Vec2(x: real, y: real)

  /** `Matrix2<f64>`, row by row: [[m00, m01], [m10, m11]]. */
  datatype Matrix2 = Matrix2(m00: real, m01: real, m10: real, m11: real)

  function Identity(): (r: Matrix2)
  {
    Matrix2(1.0, 0.0, 0.0, 1.0)
  }

  function Abs(r: real): (res: real)
  {
    if r < 0.0 then -r else r
  }

  function Determinant(m: Matrix2): (r: real)
  {
    m.m00 * m.m11 - m.m01 * m.m10
  }

  function Multiply(a: Matrix2, b: Matrix2): (r: Matrix2)
  {
    Matrix2(a.m00 * b.m00 + a.m01 * b.m10, a.m00 * b.m01 + a.m01 * b.m11,
            a.m10 * b.m00 + a.m11 * b.m10, a.m10 * b.m01 + a.m11 * b.m11)
  }

  function Transpose(m: Matrix2): (r: Matrix2)
  {
    Matrix2(m.m00, m.m10, m.m01, m.m11)
  }

  /** The matrix-vector product `m * v`. */
  function Apply(m: Matrix2, v: Vec2): (r: Vec2)
  {
    Vec2(m.m00 * v.x + m.m01 * v.y, m.m10 * v.x + m.m11 * v.y)
  }

  function Dot2(u: Vec2, v: Vec2): (r: real)
  {
    u.x * v.x + u.y * v.y
  }

  /** `try_inverse` of an invertible matrix: a two-sided inverse. */
  function Inverse(m: Matrix2): (r: Matrix2)
    requires Determinant(m) != 0.0
    ensures Multiply(m, r) == Identity() && Multiply(r, m) == Identity()
  {
    var d := Determinant(m);
    InverseEntries(m.m00, m.m01, m.m10, m.m11, d);
    Matrix2(m.m11 / d, -m.m01 / d, -m.m10 / d, m.m00 / d)
  }

  lemma InverseEntries(a: real, b: real, c: real, e: real, d: real)
    requires d == a * e - b * c && d != 0.0
    ensures a * (e / d) + b * (-c / d) == 1.0 && a * (-b / d) + b * (a / d) == 0.0
    ensures c * (e / d) + e * (-c / d) == 0.0 && c * (-b / d) + e * (a / d) == 1.0
    ensures (e / d) * a + (-b / d) * c == 1.0 && (e / d) * b + (-b / d) * e == 0.0
    ensures (-c / d) * a + (a / d) * c == 0.0 && (-c / d) * b + (a / d) * e == 1.0
  {
    assert a * (e / d) + b * (-c / d) == (a * e - b * c) / d;
    assert c * (-b / d) + e * (a / d) == (a * e - b * c) / d;
    assert (e / d) * a + (-b / d) * c == (a * e - b * c) / d;
    assert (-c / d) * b + (a / d) * e == (a * e - b * c) / d;
  }

  /**
   * The physical gradient J⁻ᵀ·g is the vector that Jᵀ maps back to the
   * reference gradient g: the chain rule the assembly relies on.
   */
  lemma InverseTransposeUndone(m: Matrix2, g: Vec2)
    requires Determinant(m) != 0.0
    ensures Apply(Transpose(m), Apply(Transpose(Inverse(m)), g)) == g
  {
    var r := Inverse(m);
    assert Multiply(r, m) == Identity();
    assert Apply(Transpose(m), Apply(Transpose(r), g)) == Apply(Transpose(Multiply(r, m)), g);
  }
}
