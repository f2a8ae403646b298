/** Three-component vertex positions, with the vector operators the relaxation
    pass uses (difference, scaling by a scalar, in-place addition).
    Coordinates are reals: single-precision rounding is not modelled. */
module Vec {

  datatype Vec3 = Vec3(x: real, y: real, z: real)

  const Zero := Vec3(0.0, 0.0, 0.0)

  /** `a + b`, also `a += b` */
  function Add(a: Vec3, b: Vec3): Vec3
  {
    Vec3(a.x + b.x, a.y + b.y, a.z + b.z)
  }

  /** `a - b` */
  function Sub(a: Vec3, b: Vec3): Vec3
  {
    Vec3(a.x - b.x, a.y - b.y, a.z - b.z)
  }

  /** The midpoint of the segment from `p` to `q`. */
  function Midpoint(p: Vec3, q: Vec3): Vec3
  {
    Vec3((p.x + q.x) / 2.0, (p.y + q.y) / 2.0, (p.z + q.z) / 2.0)
  }

  /** `v * s`, also `v *= s` */
  function Scale(v: Vec3, s: real): Vec3
  {
    Vec3(v.x * s, v.y * s, v.z * s)
  }
}
