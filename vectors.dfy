/** Unity's Vector3 value type, with float components read as reals, and the
    engine's vector primitives that rest on square roots and trigonometry. */
module Vectors {

  datatype Vec3 = Vec3(x: real, y: real, z: real)

  const Zero := Vec3(0.0, 0.0, 0.0)
  const Up := Vec3(0.0, 1.0, 0.0)
  const Down := Vec3(0.0, -1.0, 0.0)

  function Add(a: Vec3, b: Vec3): Vec3 {
    Vec3(a.x + b.x, a.y + b.y, a.z + b.z)
  }

  /** `a * k` (and `k * a`) in Unity. */
  function Scale(k: real, a: Vec3): Vec3 {
    Vec3(k * a.x, k * a.y, k * a.z)
  }

  /** Unary minus. */
  function Neg(a: Vec3): Vec3 {
    Vec3(-a.x, -a.y, -a.z)
  }

  /** `a / d` in Unity divides each component. */
  function Div(a: Vec3, d: real): Vec3
    requires d != 0.0
  {
    Vec3(a.x / d, a.y / d, a.z / d)
  }

  function Dot(a: Vec3, b: Vec3): real {
    a.x * b.x + a.y * b.y + a.z * b.z
  }

  /** `Vector3.Cross`, component by component. */
  function Cross(a: Vec3, b: Vec3): Vec3 {
    Vec3(a.y * b.z - a.z * b.y, a.z * b.x - a.x * b.z, a.x * b.y - a.y * b.x)
  }

  /** The primitives the host engine computes with square roots and
      trigonometry. They are parameters of the model, not definitions:
      `magnitude(v)` is `v.magnitude`, `normalized(v)` is `v.normalized`,
      `distance(a, b)` is `Vector3.Distance(a, b)` and `angleAxis(deg, axis, v)`
      is `Quaternion.AngleAxis(deg, axis) * v`. */
  datatype Engine = Engine(
    magnitude: Vec3 -> real,
    normalized: Vec3 -> Vec3,
    distance: (Vec3, Vec3) -> real,
    angleAxis: (real, Vec3, Vec3) -> Vec3)

  /** Unity's `Vector3.kEpsilon`: below this length `normalized` gives zero. */
  const NormalizeEpsilon: real := 0.00001

  /** What the engine's `normalized` computes at `v`: it divides by the
      (non-negative) magnitude unless that is at most `NormalizeEpsilon`,
      where it gives the zero vector. */
  ghost predicate NormalizesAt(e: Engine, v: Vec3) {
    var m := e.magnitude(v);
    m >= 0.0 && e.normalized(v) == (if m > NormalizeEpsilon then Div(v, m) else Zero)
  }

  /** What the engine's `magnitude` computes at `v`, stated without a square
      root: the non-negative root of `v . v`. */
  ghost predicate MeasuresAt(e: Engine, v: Vec3) {
    var m := e.magnitude(v);
    m >= 0.0 && m * m == Dot(v, v)
  }

  lemma DotScaleLeft(s: real, a: Vec3, b: Vec3)
    ensures Dot(Scale(s, a), b) == s * Dot(a, b)
  {
  }

  lemma DotScaleRight(s: real, a: Vec3, b: Vec3)
    ensures Dot(a, Scale(s, b)) == s * Dot(a, b)
  {
  }
}
