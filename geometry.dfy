/**
 * The few pieces of vector and scalar arithmetic that the scene code takes from
 * three.js (`Vector3.lerp`, `MathUtils.lerp`, `MathUtils.clamp`), over the reals.
 */
module Geometry {

  /** A three.js `Vector3`, as a value. */
  datatype Vec3 = Vec3(x: real, y: real, z: real)

  /** What `new THREE.Vector3()` holds. */
  const Zero: Vec3 := Vec3(0.0, 0.0, 0.0)

  function Min(a: int, b: int): int { if a <= b then a else b }
  function Max(a: int, b: int): int { if a >= b then a else b }
  function MinR(a: real, b: real): real { if a <= b then a else b }
  function MaxR(a: real, b: real): real { if a >= b then a else b }

  /** `r` lies on the segment between `a` and `b`, whichever way round they are. */
  predicate Between(a: real, b: real, r: real) {
    MinR(a, b) <= r <= MaxR(a, b)
  }

  /** Every component of `p` lies between the same components of `a` and `b`. */
  predicate InBox(a: Vec3, b: Vec3, p: Vec3) {
    Between(a.x, b.x, p.x) && Between(a.y, b.y, p.y) && Between(a.z, b.z, p.z)
  }

  function Sub(a: Vec3, b: Vec3): Vec3 { Vec3(a.x - b.x, a.y - b.y, a.z - b.z) }
  function Scale(k: real, a: Vec3): Vec3 { Vec3(k * a.x, k * a.y, k * a.z) }

  /** `MathUtils.clamp(v, lo, hi)`, that is `Math.max(lo, Math.min(hi, v))`. */
  function Clamp(v: real, lo: real, hi: real): (r: real)
    ensures lo <= hi ==> lo <= r <= hi
    ensures lo <= v <= hi ==> r == v
    ensures v < lo ==> r == lo
    ensures lo <= hi && hi < v ==> r == hi
  {
    MaxR(lo, MinR(hi, v))
  }

  /** A product of two non-negative reals is non-negative. */
  lemma ProductNonNegative(u: real, v: real)
    requires 0.0 <= u && 0.0 <= v
    ensures 0.0 <= u * v
  {
  }

  /** Multiplying by a positive factor keeps a non-strict order. */
  lemma ProductMonotone(u: real, v: real, h: real)
    requires u <= v && 0.0 < h
    ensures u * h <= v * h
  {
    assert v * h - u * h == (v - u) * h;
  }

  /** Multiplying by a positive factor keeps a strict order. */
  lemma ProductStrictlyMonotone(u: real, v: real, h: real)
    requires u < v && 0.0 < h
    ensures u * h < v * h
  {
    assert v * h - u * h == (v - u) * h;
  }

  /** Moving a fraction in [0, 1] of the way from `a` to `b` stays between them. */
  lemma BetweenOfWeights(a: real, b: real, t: real)
    ensures 0.0 <= t <= 1.0 ==> Between(a, b, a + (b - a) * t)
  {
    if 0.0 <= t <= 1.0 {
      ProductNonNegative(if a <= b then b - a else a - b, t);
      ProductNonNegative(if a <= b then b - a else a - b, 1.0 - t);
    }
  }

  /** `MathUtils.lerp(x, y, t)`, written there as `(1 - t) * x + t * y`. */
  function LerpScalar(x: real, y: real, t: real): real {
    (1.0 - t) * x + t * y
  }

  /**
   * For a weight in [0, 1] the blend lies between its ends; weight 0 gives the
   * first end, weight 1 the second, and equal ends give that value.
   */
  lemma LerpScalarFacts(x: real, y: real, t: real)
    ensures 0.0 <= t <= 1.0 ==> Between(x, y, LerpScalar(x, y, t))
    ensures t == 0.0 ==> LerpScalar(x, y, t) == x
    ensures t == 1.0 ==> LerpScalar(x, y, t) == y
    ensures x == y ==> LerpScalar(x, y, t) == x
  {
    assert LerpScalar(x, y, t) == x + (y - x) * t;
    BetweenOfWeights(x, y, t);
  }

  /** `a.clone().lerp(b, t)`: each component moves `t` of the way from `a` to `b`. */
  function LerpVec(a: Vec3, b: Vec3, t: real): (p: Vec3)
    ensures 0.0 <= t <= 1.0 ==> InBox(a, b, p)
    ensures t == 0.0 ==> p == a
    ensures t == 1.0 ==> p == b
    ensures a == b ==> p == a
    ensures Sub(p, b) == Scale(1.0 - t, Sub(a, b))
  {
    BetweenOfWeights(a.x, b.x, t);
    BetweenOfWeights(a.y, b.y, t);
    BetweenOfWeights(a.z, b.z, t);
    Vec3(a.x + (b.x - a.x) * t, a.y + (b.y - a.y) * t, a.z + (b.z - a.z) * t)
  }
}
