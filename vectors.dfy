/** Real 3-vectors standing in for DirectX::XMFLOAT3, and the few numeric
    helpers the cloth update uses but whose definitions live elsewhere. */
module Vectors {

  datatype Vec3 = Vec3(x: real, y: real, z: real)

  const Zero: Vec3 := Vec3(0.0, 0.0, 0.0)

  /** The "up" normal every vertex starts with. */
  const Up: Vec3 := Vec3(0.0, 1.0, 0.0)

  function Add(a: Vec3, b: Vec3): Vec3 {
    Vec3(a.x + b.x, a.y + b.y, a.z + b.z)
  }

  function Sub(a: Vec3, b: Vec3): Vec3 {
    Vec3(a.x - b.x, a.y - b.y, a.z - b.z)
  }

  function Neg(a: Vec3): Vec3 {
    Vec3(-a.x, -a.y, -a.z)
  }

  function Scale(s: real, a: Vec3): Vec3 {
    Vec3(s * a.x, s * a.y, s * a.z)
  }

  function Dot(a: Vec3, b: Vec3): real {
    a.x * b.x + a.y * b.y + a.z * b.z
  }

  /** Squared Euclidean length. */
  function SqLen(a: Vec3): real {
    Dot(a, a)
  }

  /** The cross product, written out as the usual polynomial. */
  function Cross(a: Vec3, b: Vec3): Vec3 {
    Vec3(a.y * b.z - a.z * b.y, a.z * b.x - a.x * b.z, a.x * b.y - a.y * b.x)
  }

  /** The cross product is orthogonal to both of its factors; this is why a
      normal computed as cross(bitangent, tangent) is perpendicular to the
      surface frame. */
  lemma CrossOrthogonal(a: Vec3, b: Vec3)
    ensures Dot(Cross(a, b), a) == 0.0
    ensures Dot(Cross(a, b), b) == 0.0
  {
  }

  /** Positivity as a predicate: a fact `Positive(e)` carries over to any
      term equal to `e` without arithmetic on the products inside it. */
  predicate Positive(r: real) {
    r > 0.0
  }

  lemma SquareNonNegative(r: real)
    ensures r * r >= 0.0
  {
    if r < 0.0 { assert r * r == (-r) * (-r); }
  }

  lemma SquarePositive(r: real)
    ensures r != 0.0 ==> r * r > 0.0
  {
    if r < 0.0 { assert r * r == (-r) * (-r); }
  }

  /** A sum of three squares, not all of them of zero, is positive. */
  lemma SumOfSquaresPositive(x: real, y: real, z: real)
    requires x != 0.0 || y != 0.0 || z != 0.0
    ensures Positive(x * x + y * y + z * z)
  {
    SquareNonNegative(x); SquareNonNegative(y); SquareNonNegative(z);
    SquarePositive(x); SquarePositive(y); SquarePositive(z);
  }

  lemma SqLenExpand(d: Vec3)
    ensures SqLen(d) == d.x * d.x + d.y * d.y + d.z * d.z
  {
  }

  /** A non-zero vector has positive squared length. */
  lemma SqLenPositive(d: Vec3)
    requires d != Zero
    ensures SqLen(d) > 0.0
  {
    SumOfSquaresPositive(d.x, d.y, d.z);
    SqLenExpand(d);
    assert Positive(SqLen(d));
  }

  /** Scaling one factor of a dot product of a vector with itself scales the
      squared length. */
  lemma DotScale(k: real, d: Vec3)
    ensures Dot(Scale(k, d), d) == k * SqLen(d)
  {
  }

  /** Reversing the cross product's factors flips the normal. */
  lemma CrossAntiCommutes(a: Vec3, b: Vec3)
    ensures Cross(b, a) == Neg(Cross(a, b))
  {
  }

  /** The numeric primitives the update calls without this model seeing
      their definitions: `sqrt`, `sin`, MathHelper::Normalize and the
      constant MathHelper::sqrt_2. They are carried as values so that
      nothing is assumed about them. */
  datatype Maths = Maths(sqrt: real -> real, sin: real -> real, normalize: Vec3 -> Vec3, sqrt2: real)
}
