/** Unity's `Vector2` value type and the `Mathf.Clamp01` / `Vector2.Lerp`
    helpers the simulation scripts rely on, over exact `real` arithmetic. */
module Vectors {

  /** An ordered pair of coordinates, a value type. */
  datatype Vec2 = Vec2(x: real, y: real)

  function Add(a: Vec2, b: Vec2): Vec2 {
    Vec2(a.x + b.x, a.y + b.y)
  }

  function Sub(a: Vec2, b: Vec2): Vec2 {
    Vec2(a.x - b.x, a.y - b.y)
  }

  /** `v * k` for a vector and a scalar. */
  function Scale(v: Vec2, k: real): Vec2 {
    Vec2(v.x * k, v.y * k)
  }

  const Zero: Vec2 := Vec2(0.0, 0.0)

  function Min(a: real, b: real): real { if a <= b then a else b }

  function Max(a: real, b: real): real { if a >= b then a else b }

  /** `Mathf.Clamp01`: below 0 gives 0, above 1 gives 1, otherwise the value. */
  function Clamp01(v: real): (r: real)
    ensures 0.0 <= r <= 1.0
    ensures 0.0 <= v <= 1.0 ==> r == v
    ensures v < 0.0 ==> r == 0.0
    ensures v > 1.0 ==> r == 1.0
  {
    if v < 0.0 then 0.0 else if v > 1.0 then 1.0 else v
  }

  predicate InUnitSquare(p: Vec2) {
    0.0 <= p.x <= 1.0 && 0.0 <= p.y <= 1.0
  }

  /** `a + (b - a) * t` on one coordinate, with no clamping of `t`. */
  function LerpUnclamped(a: real, b: real, t: real): real {
    a + (b - a) * t
  }

  /** `Vector2.Lerp`: clamps `t` to [0,1], then interpolates each coordinate. */
  function Lerp(a: Vec2, b: Vec2, t: real): Vec2 {
    var s := Clamp01(t);
    Vec2(LerpUnclamped(a.x, b.x, s), LerpUnclamped(a.y, b.y, s))
  }
}
