/** Vectors of reals standing in for glm::vec3, and the distance test used by
    the interaction system and the movement code. Floating-point rounding is
    not modelled. */
module Geometry {

  datatype Vec3 = Vec3(x: real, y: real, z: real)

  function Sub(a: Vec3, b: Vec3): Vec3 {
    Vec3(a.x - b.x, a.y - b.y, a.z - b.z)
  }

  function Scale(v: Vec3, k: real): Vec3 {
    Vec3(v.x * k, v.y * k, v.z * k)
  }

  function Dot(a: Vec3, b: Vec3): real {
    a.x * b.x + a.y * b.y + a.z * b.z
  }

  /** The square of glm::length(a - b). */
  function SqDist(a: Vec3, b: Vec3): real {
    Dot(Sub(a, b), Sub(a, b))
  }

  /** `glm::length(a - b) <= r`, stated without a square root: a length is
      never negative, so a negative bound admits nothing, and for r >= 0 the
      comparison of squares is equivalent. */
  predicate Within(a: Vec3, b: Vec3, r: real) {
    r >= 0.0 && SqDist(a, b) <= r * r
  }

  /** `glm::length(a - b) > t` for a threshold t >= 0. */
  predicate Beyond(a: Vec3, b: Vec3, t: real) {
    SqDist(a, b) > t * t
  }

  /** A unit-bounded stand-in for std::sin: only its range is known. */
  type Sine = f: real -> real | forall x: real :: -1.0 <= f(x) <= 1.0
    witness (x: real) => 0.0

  lemma SquareNonNegative(r: real)
    ensures 0.0 <= r * r
  {
    if r < 0.0 {
      assert r * r == (-r) * (-r);
    }
  }

  lemma SqDistSelf(p: Vec3)
    ensures SqDist(p, p) == 0.0
  {
    assert Sub(p, p) == Vec3(0.0, 0.0, 0.0);
  }

  /** Every point is within any non-negative distance of itself. */
  lemma WithinSelf(p: Vec3, r: real)
    requires r >= 0.0
    ensures Within(p, p, r)
  {
    SqDistSelf(p);
    SquareNonNegative(r);
  }

  /** No point is beyond any threshold from itself. */
  lemma NotBeyondSelf(p: Vec3, t: real)
    ensures !Beyond(p, p, t)
  {
    SqDistSelf(p);
    SquareNonNegative(t);
  }
}
