/**
 * Vectors over the reals and the sqrt-free distance tests the simulation uses.
 * `Vector2.Distance(a, b) <= eps` is modelled as `eps >= 0 && DistSq(a, b) <= eps * eps`,
 * which is exactly the same test without a square root.
 */
module Geometry {
  datatype Vec3 = Vec3(x: real, y: real, z: real)

  function Add(a: Vec3, b: Vec3): Vec3 { Vec3(a.x + b.x, a.y + b.y, a.z + b.z) }
  function Sub(a: Vec3, b: Vec3): Vec3 { Vec3(a.x - b.x, a.y - b.y, a.z - b.z) }
  function Scale(a: Vec3, k: real): Vec3 { Vec3(a.x * k, a.y * k, a.z * k) }

  function Sq(r: real): real { r * r }

  /** `sqrMagnitude`. */
  function SqMag(v: Vec3): real { Sq(v.x) + Sq(v.y) + Sq(v.z) }

  /** Squared Euclidean distance in 3-D. */
  function DistSq(a: Vec3, b: Vec3): real
  {
    Sq(a.x - b.x) + Sq(a.y - b.y) + Sq(a.z - b.z)
  }

  /** Squared distance of the projections on the horizontal (x, z) plane. */
  function DistSqXZ(a: Vec3, b: Vec3): real
  {
    Sq(a.x - b.x) + Sq(a.z - b.z)
  }

  /** `Vector3.Distance(a, b) <= eps`. */
  predicate Within(a: Vec3, b: Vec3, eps: real)
  {
    eps >= 0.0 && DistSq(a, b) <= eps * eps
  }

  /** `Vector2.Distance((a.x, a.z), (b.x, b.z)) <= eps`. */
  predicate WithinXZ(a: Vec3, b: Vec3, eps: real)
  {
    eps >= 0.0 && DistSqXZ(a, b) <= eps * eps
  }

  function Abs(r: real): real { if r < 0.0 then -r else r }

  function Max(a: real, b: real): real { if a >= b then a else b }

  /** An axis-aligned box given by its centre and half-size, like Unity's `Bounds`. */
  datatype Bounds = Bounds(center: Vec3, extents: Vec3)
  {
    function Min(): Vec3 { Sub(center, extents) }
    function Max(): Vec3 { Add(center, extents) }
    function Size(): Vec3 { Scale(extents, 2.0) }
  }

  /** A Unity transform; only its world position matters here. */
  class Transform {
    var position: Vec3

    constructor (p: Vec3)
      ensures position == p
    {
      position := p;
    }
  }
}
