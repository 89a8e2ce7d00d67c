/** Shared value types: an optional value (the source's `null`) and the
    3-vector arithmetic the game uses for positions and velocities. */
module Common {

  /** A value that may be absent; `None` stands for JavaScript's `null`. */
  datatype Option<T> = None | Some(value: T)

  /** A point or displacement in world space. */
  datatype Vec3 = Vec3(x: real, y: real, z: real)

  const Origin: Vec3 := Vec3(0.0, 0.0, 0.0)

  function Add(a: Vec3, b: Vec3): Vec3
  {
    Vec3(a.x + b.x, a.y + b.y, a.z + b.z)
  }

  function Sub(a: Vec3, b: Vec3): Vec3
  {
    Vec3(a.x - b.x, a.y - b.y, a.z - b.z)
  }

  function Scale(v: Vec3, k: real): Vec3
  {
    Vec3(v.x * k, v.y * k, v.z * k)
  }

  /** Squared Euclidean length. Comparing it against a squared bound is the
      same as comparing the length against the bound, without a square root. */
  function LengthSq(v: Vec3): (r: real)
    ensures r >= 0.0
  {
    v.x * v.x + v.y * v.y + v.z * v.z
  }

  function DistanceSq(a: Vec3, b: Vec3): (r: real)
    ensures r >= 0.0
  {
    LengthSq(Sub(a, b))
  }
}
