/** Values shared by the three components: optional values and 3-vectors. */
module Common {

  /** `undefined`/`null` versus a present value. */
  datatype Option<+T> = None | Some(value: T) {
    /** JavaScript's `x || d` for a value that is either absent or present. */
    function GetOr(default: T): T {
      match this
      case Some(v) => v
      case None => default
    }
  }

  /** A position or direction in world coordinates (three.js `Vector3`). */
  datatype Vec3 = Vec3(x: real, y: real, z: real)

  const Origin := Vec3(0.0, 0.0, 0.0)

  function Add(p: Vec3, q: Vec3): Vec3 {
    Vec3(p.x + q.x, p.y + q.y, p.z + q.z)
  }

  function Sub(p: Vec3, q: Vec3): Vec3 {
    Vec3(p.x - q.x, p.y - q.y, p.z - q.z)
  }

  function Scale(p: Vec3, k: real): Vec3 {
    Vec3(k * p.x, k * p.y, k * p.z)
  }

  /** Squared Euclidean distance, which needs no square root. */
  function SqDist(p: Vec3, q: Vec3): real {
    var d := Sub(p, q);
    d.x * d.x + d.y * d.y + d.z * d.z
  }
}
