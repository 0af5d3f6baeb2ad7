/** Two-dimensional vectors over the reals: the `Vector2d`/`Vector2` values that the
    rigid-body and finite-element code compute with. */
module Vectors {

  datatype Vec2 = Vec2(x: real, y: real)

  const Zero: Vec2 := Vec2(0.0, 0.0)

  function Add(a: Vec2, b: Vec2): Vec2 {
    Vec2(a.x + b.x, a.y + b.y)
  }

  function Sub(a: Vec2, b: Vec2): Vec2 {
    Vec2(a.x - b.x, a.y - b.y)
  }

  function Neg(a: Vec2): Vec2 {
    Vec2(-a.x, -a.y)
  }

  /** `a * s` for a vector and a scalar. */
  function Scale(a: Vec2, s: real): Vec2 {
    Vec2(a.x * s, a.y * s)
  }

  /** `a / s` for a vector and a non-zero scalar. */
  function DivBy(a: Vec2, s: real): Vec2
    requires s != 0.0
  {
    Vec2(a.x / s, a.y / s)
  }

  function Dot(a: Vec2, b: Vec2): real {
    a.x * b.x + a.y * b.y
  }

  /** The scalar 2D cross product `a.x * b.y - a.y * b.x`. */
  function Cross(a: Vec2, b: Vec2): real {
    a.x * b.y - a.y * b.x
  }

  function SquaredNorm(a: Vec2): real {
    Dot(a, a)
  }

  function Abs(r: real): real {
    if r < 0.0 then -r else r
  }

  function Max(a: real, b: real): real {
    if a < b then b else a
  }
}
