/** A three-component vector, standing for glm::vec3 with its float components read as reals. */
module Vectors {
  datatype Vec3 = Vec3(x: real, y: real, z: real)

  /** The vector v stretched by the factor s. */
  function Scale(v: Vec3, s: real): Vec3
  {
    Vec3(v.x * s, v.y * s, v.z * s)
  }

  /** The squared Euclidean length of v. */
  function SquaredLength(v: Vec3): real
  {
    v.x * v.x + v.y * v.y + v.z * v.z
  }
}
