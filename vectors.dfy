// Plain coordinate records. Floating-point values are modelled as reals.
module Vectors {

  datatype Vec2 = Vec2(x: real, y: real)

  datatype Vec3 = Vec3(x: real, y: real, z: real)

  /** An axis-aligned box given by its two corners. */
  datatype Aabb3 = Aabb3(mins: Vec3, maxs: Vec3)

  /** An integer grid coordinate or extent (columns in x, rows in y). */
  datatype IntVec2 = IntVec2(x: int, y: int)

  /** The xy part of a point. */
  function Flatten(v: Vec3): Vec2
  {
    Vec2(v.x, v.y)
  }

  /** `start + direction * distance`. */
  function Along(start: Vec3, direction: Vec3, distance: real): Vec3
  {
    Vec3(start.x + direction.x * distance, start.y + direction.y * distance, start.z + direction.z * distance)
  }

  /** `p + Vec3(0, 0, dz)`. */
  function Raised(p: Vec3, dz: real): Vec3
  {
    Vec3(p.x, p.y, p.z + dz)
  }

  /** `a - b`. */
  function Minus(a: Vec3, b: Vec3): Vec3
  {
    Vec3(a.x - b.x, a.y - b.y, a.z - b.z)
  }
}
