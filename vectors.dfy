/** Three-component world-space translations, as read and written through the pose port. */
module Vectors {

  datatype Vec3 = Vec3(x: real, y: real, z: real)

  /** add_vector3s: componentwise sum of two translations. Taking the offset away again gives
      back the first translation, and the sum differs from it exactly when the offset is
      non-zero. */
  function AddVector3s(a: Vec3, b: Vec3): (r: Vec3)
    ensures Vec3(r.x - b.x, r.y - b.y, r.z - b.z) == a
    ensures r == a <==> b == Vec3(0.0, 0.0, 0.0)
  {
    Vec3(a.x + b.x, a.y + b.y, a.z + b.z)
  }

  /** The vertical offset (0, d, 0) used to lift a bone (d > 0) or sink its children (d < 0). */
  function Lift(d: real): Vec3
  {
    Vec3(0.0, d, 0.0)
  }
}
