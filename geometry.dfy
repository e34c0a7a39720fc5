/**
 * Three-component vectors over exact reals: the `glm::vec3` values the
 * camera and the vertex table are made of.
 */
module Geometry {

  datatype Vec3 = Vec3(x: real, y: real, z: real)

  const Origin := Vec3(0.0, 0.0, 0.0)

  /** Component-wise sum, as `glm::vec3 + glm::vec3`. */
  function Add(a: Vec3, b: Vec3): Vec3
  {
    Vec3(a.x + b.x, a.y + b.y, a.z + b.z)
  }

  /** Component-wise difference, as `glm::vec3 - glm::vec3`. */
  function Sub(a: Vec3, b: Vec3): Vec3
  {
    Vec3(a.x - b.x, a.y - b.y, a.z - b.z)
  }

  /** Scalar product, as `float * glm::vec3`. */
  function Scale(k: real, v: Vec3): Vec3
  {
    Vec3(k * v.x, k * v.y, k * v.z)
  }

  function Abs(r: real): real
  {
    if r < 0.0 then -r else r
  }

  /** Sum of the absolute components (the L1 norm). */
  function Manhattan(v: Vec3): real
  {
    Abs(v.x) + Abs(v.y) + Abs(v.z)
  }
}
