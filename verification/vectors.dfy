/** Three-component vectors with exact (real) arithmetic, standing in for
    `QVector3D`, `glm.vec3` and the float triples of the vertex tables. */
module Vectors {

  datatype Vec3 = Vec3(x: real, y: real, z: real)

  const Zero := Vec3(0.0, 0.0, 0.0)

  function Add(a: Vec3, b: Vec3): Vec3
  {
    Vec3(a.x + b.x, a.y + b.y, a.z + b.z)
  }

  function Sub(a: Vec3, b: Vec3): Vec3
  {
    Vec3(a.x - b.x, a.y - b.y, a.z - b.z)
  }

  function Neg(a: Vec3): Vec3
  {
    Vec3(-a.x, -a.y, -a.z)
  }

  function Scale(k: real, a: Vec3): Vec3
  {
    Vec3(k * a.x, k * a.y, k * a.z)
  }

  function Dot(a: Vec3, b: Vec3): real
  {
    a.x * b.x + a.y * b.y + a.z * b.z
  }

  /** One of the six vectors (+-1, 0, 0), (0, +-1, 0), (0, 0, +-1). */
  predicate SignedUnitAxis(v: Vec3)
  {
    || ((v.x == 1.0 || v.x == -1.0) && v.y == 0.0 && v.z == 0.0)
    || (v.x == 0.0 && (v.y == 1.0 || v.y == -1.0) && v.z == 0.0)
    || (v.x == 0.0 && v.y == 0.0 && (v.z == 1.0 || v.z == -1.0))
  }
}
