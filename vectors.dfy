/** Three-component vectors over the reals: the `cgp::vec3` used for positions,
    velocities and colours. Single-precision rounding is not modelled. */
module Vectors {

  datatype Vec3 = Vec3(x: real, y: real, z: real)

  const Zero := Vec3(0.0, 0.0, 0.0)

  function Add(a: Vec3, b: Vec3): Vec3 {
    Vec3(a.x + b.x, a.y + b.y, a.z + b.z)
  }

  /** `k * v` and `v *= k`. */
  function Scale(k: real, v: Vec3): Vec3 {
    Vec3(k * v.x, k * v.y, k * v.z)
  }

  function Abs(r: real): real {
    if r < 0.0 then -r else r
  }

  /** Every channel lies in [lo, hi]. */
  predicate Within(v: Vec3, lo: real, hi: real) {
    lo <= v.x <= hi && lo <= v.y <= hi && lo <= v.z <= hi
  }

  /** Every channel of `a` is within `d` of the matching channel of `b`. */
  predicate Near(a: Vec3, b: Vec3, d: real) {
    Abs(a.x - b.x) <= d && Abs(a.y - b.y) <= d && Abs(a.z - b.z) <= d
  }

}
