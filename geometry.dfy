/** Vector arithmetic over reals, standing in for Unity's single-precision
    Vector2 / Vector3 as used by the scene builder. */
module Geometry {

  datatype Vec2 = Vec2(x: real, y: real)

  datatype Vec3 = Vec3(x: real, y: real, z: real)

  /** Vector3.zero */
  const Zero: Vec3 := Vec3(0.0, 0.0, 0.0)

  /** Component-wise difference a - b. */
  function Sub(a: Vec3, b: Vec3): (r: Vec3)
    ensures Add(r, b) == a
  {
    Vec3(a.x - b.x, a.y - b.y, a.z - b.z)
  }

  function Add(a: Vec3, b: Vec3): Vec3
  {
    Vec3(a.x + b.x, a.y + b.y, a.z + b.z)
  }

  /** Uniform scaling, as in `Vector3.one * 0.04f`. */
  function Splat(k: real): Vec3
  {
    Vec3(k, k, k)
  }

  /** Vector3.SqrMagnitude: the squared Euclidean length. */
  function SqrMagnitude(v: Vec3): (r: real)
    ensures r >= 0.0
  {
    SquareNonNegative(v.x);
    SquareNonNegative(v.y);
    SquareNonNegative(v.z);
    v.x * v.x + v.y * v.y + v.z * v.z
  }

  lemma SquareNonNegative(a: real)
    ensures a * a >= 0.0
  {
    if a < 0.0 {
      assert a * a == (-a) * (-a);
    }
  }

  /** The squared distance between two points does not depend on their order. */
  lemma SqrDistanceSymmetric(a: Vec3, b: Vec3)
    ensures SqrMagnitude(Sub(a, b)) == SqrMagnitude(Sub(b, a))
  {
    assert (a.x - b.x) * (a.x - b.x) == (b.x - a.x) * (b.x - a.x);
    assert (a.y - b.y) * (a.y - b.y) == (b.y - a.y) * (b.y - a.y);
    assert (a.z - b.z) * (a.z - b.z) == (b.z - a.z) * (b.z - a.z);
  }
}
