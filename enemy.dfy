/** One enemy: a circle that drifts across the play field at the velocity it
    was given when it spawned (core/src/com/isak/main/Enemy.java). Its
    collision circle and its sprite corner follow its position. Texture,
    sprite size and rotation are rendering and are not modelled. */
module Enemies {
  import opened Vectors

  /** Where an enemy starting at `p` with velocity `v` is after `n` calls
      of `Movement`. */
  function Drift(p: Vec2, v: Vec2, n: nat): Vec2 {
    if n == 0 then p else Drift(p, v, n - 1).Plus(v)
  }

  /** The drift is purely linear: after `n` ticks the enemy has moved by
      exactly `n` times its velocity. */
  lemma {:induction false} DriftIsLinear(p: Vec2, v: Vec2, n: nat)
    ensures Drift(p, v, n) == p.Plus(v.Scale(n as real))
  {
    if n > 0 {
      DriftIsLinear(p, v, n - 1);
    }
  }

  /** Drifting `m` ticks and then `n` more is drifting `m + n` ticks. */
  lemma {:induction false} DriftComposes(p: Vec2, v: Vec2, m: nat, n: nat)
    ensures Drift(Drift(p, v, m), v, n) == Drift(p, v, m + n)
  {
    if n > 0 {
      DriftComposes(p, v, m, n - 1);
    }
  }

  class Enemy {
    var pos: Vec2
    var vel: Vec2
    /** Centre and radius of the collision circle. */
    var collisionCentre: Vec2
    var collisionRadius: real
    /** Lower-left corner of the sprite. */
    var spritePos: Vec2
    const radius: int

    /** The collision circle is centred on the enemy with the enemy's
        radius, and the sprite's corner is one radius below and left of it. */
    ghost predicate Valid()
      reads this
    {
      && collisionCentre == pos
      && collisionRadius == radius as real
      && spritePos == Corner(pos, radius as real)
    }

    constructor (startPos: Vec2, startVel: Vec2, enemyRadius: int)
      ensures Valid()
      ensures pos == startPos && vel == startVel && radius == enemyRadius
    {
      pos := startPos;
      vel := startVel;
      radius := enemyRadius;
      spritePos := Corner(startPos, enemyRadius as real);
      collisionCentre := startPos;
      collisionRadius := enemyRadius as real;
    }

    /** One tick: move by the velocity and re-centre the collision circle
        and the sprite on the new position. */
    method Movement()
      modifies this
      ensures pos == Drift(old(pos), vel, 1)
      ensures vel == old(vel)
      ensures collisionRadius == old(collisionRadius)
      ensures collisionCentre == pos && spritePos == Corner(pos, radius as real)
      ensures old(Valid()) ==> Valid()
    {
      pos := pos.Plus(vel);
      collisionCentre := pos;
      spritePos := Corner(pos, radius as real);
    }
  }
}
