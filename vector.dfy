/** Two-dimensional vectors over the reals, standing in for the LibGDX
    Vector2 the game mutates with `set`. Only the arithmetic the game uses
    is defined here. */
module Vectors {

  datatype Vec2 = Vec2(x: real, y: real) {

    function Plus(other: Vec2): Vec2 {
      Vec2(x + other.x, y + other.y)
    }

    function Scale(k: real): Vec2 {
      Vec2(k * x, k * y)
    }
  }

  const Zero: Vec2 := Vec2(0.0, 0.0)

  /** The point `d` below and to the left of `p` on both axes: where a
      sprite of half-size `d` centred on `p` has its corner. */
  function Corner(p: Vec2, d: real): Vec2 {
    Vec2(p.x - d, p.y - d)
  }
}
