/** Three-component values shared by the import pipeline and the control rule.
    A point or vector is a `Triple<real>` (the f32 components of the program are
    modelled as exact reals); a triangle's three vertex indices are a `Triple<nat>`. */
module Vectors {

  datatype Triple<T> = Triple(x: T, y: T, z: T)

  type Vec3 = Triple<real>

  /** Three vertex indices of one triangle (the `[u32; 3]` of the program). */
  type Face = Triple<nat>

  const Zero: Vec3 := Triple(0.0, 0.0, 0.0)

  function Sub(a: Vec3, b: Vec3): Vec3 {
    Triple(a.x - b.x, a.y - b.y, a.z - b.z)
  }

  /** The right-handed cross product `a × b`. */
  function Cross(a: Vec3, b: Vec3): Vec3 {
    Triple(a.y * b.z - a.z * b.y,
           a.z * b.x - a.x * b.z,
           a.x * b.y - a.y * b.x)
  }

  function Dot(a: Vec3, b: Vec3): real {
    a.x * b.x + a.y * b.y + a.z * b.z
  }
}
