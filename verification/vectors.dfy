/** Three-component vectors with real coordinates, standing in for `glm::vec3`. */
module Vectors {

  datatype Vec3 = Vec3(x: real, y: real, z: real)

  function Dot(a: Vec3, b: Vec3): real {
    a.x * b.x + a.y * b.y + a.z * b.z
  }

  function Sub(a: Vec3, b: Vec3): Vec3 {
    Vec3(a.x - b.x, a.y - b.y, a.z - b.z)
  }

  function Cross(a: Vec3, b: Vec3): Vec3 {
    Vec3(a.y * b.z - a.z * b.y, a.z * b.x - a.x * b.z, a.x * b.y - a.y * b.x)
  }

  /** The vector as the three values pushed, in order, into an attribute buffer. */
  function Components(v: Vec3): (c: seq<real>)
    ensures |c| == 3
  {
    [v.x, v.y, v.z]
  }

  /** `v` is one of the six signed unit axis vectors. */
  predicate IsAxisUnit(v: Vec3) {
    || (v.x == 0.0 && v.y == 0.0 && (v.z == 1.0 || v.z == -1.0))
    || (v.x == 0.0 && v.z == 0.0 && (v.y == 1.0 || v.y == -1.0))
    || (v.y == 0.0 && v.z == 0.0 && (v.x == 1.0 || v.x == -1.0))
  }
}
