/** The avatar controller (core/src/com/isak/main/Player.java): the avatar
    steers toward a touch point under a pursuit force, loses speed to
    friction every tick, and bounces off the screen edges. Texture loading,
    drawing and the sprite's rotation are rendering and are not modelled;
    the screen size and "is the screen touched" come in as parameters. */
module Players {
  import opened Vectors

  /** The motion state the controller updates in place. */
  datatype Motion = Motion(pos: Vec2, vel: Vec2, acc: Vec2)

  /** Pursuit step: accelerate by the displacement to the target divided by
      the acceleration constant (higher is slower), then integrate. */
  function Pursue(m: Motion, target: Vec2, accConstant: int): Motion
    requires accConstant != 0
  {
    var k := accConstant as real;
    var acc := Vec2((target.x - m.pos.x) / k, (target.y - m.pos.y) / k);
    var vel := m.vel.Plus(acc);
    Motion(m.pos.Plus(vel), vel, acc)
  }

  /** Friction step: accelerate against the velocity by the velocity divided
      by the friction constant (higher is less friction), then integrate. */
  function Friction(m: Motion, accFriction: int): Motion
    requires accFriction != 0
  {
    var f := accFriction as real;
    var acc := Vec2(-m.vel.x / f, -m.vel.y / f);
    var vel := m.vel.Plus(acc);
    Motion(m.pos.Plus(vel), vel, acc)
  }

  /** One tick of `movement`: the pursuit step only while touched, the
      friction step always. */
  function Move(m: Motion, target: Vec2, touched: bool, accConstant: int, accFriction: int): Motion
    requires accConstant != 0 && accFriction != 0
  {
    Friction(if touched then Pursue(m, target, accConstant) else m, accFriction)
  }

  /** Without a touch only friction acts: the velocity keeps `1 - 1/f` of
      itself, the position advances by the new velocity, and the
      acceleration is the velocity scaled by `-1/f`. */
  lemma UntouchedIsFrictionOnly(m: Motion, target: Vec2, accConstant: int, accFriction: int)
    requires accConstant != 0 && accFriction != 0
    ensures var f := accFriction as real;
            var n := Move(m, target, false, accConstant, accFriction);
            && n.vel == m.vel.Scale(1.0 - 1.0 / f)
            && n.pos == m.pos.Plus(n.vel)
            && n.acc == m.vel.Scale(-1.0 / f)
  {
  }

  /** With friction constant at least 1, friction never speeds the avatar
      up on either axis, and never reverses its direction. */
  lemma FrictionSlowsDown(m: Motion, accFriction: int)
    requires accFriction >= 1
    ensures var n := Friction(m, accFriction);
            && (0.0 <= m.vel.x ==> 0.0 <= n.vel.x <= m.vel.x)
            && (m.vel.x <= 0.0 ==> m.vel.x <= n.vel.x <= 0.0)
            && (0.0 <= m.vel.y ==> 0.0 <= n.vel.y <= m.vel.y)
            && (m.vel.y <= 0.0 ==> m.vel.y <= n.vel.y <= 0.0)
  {
    var f := accFriction as real;
    var c := 1.0 - 1.0 / f;
    assert 0.0 <= c < 1.0 by {
      assert 0.0 < 1.0 / f <= 1.0;
    }
    var n := Friction(m, accFriction);
    assert n.vel.x == c * m.vel.x by {
      assert -m.vel.x / f == (-1.0 / f) * m.vel.x;
    }
    assert n.vel.y == c * m.vel.y by {
      assert -m.vel.y / f == (-1.0 / f) * m.vel.y;
    }
    ScaleTowardZero(c, m.vel.x);
    ScaleTowardZero(c, m.vel.y);
  }

  /** Scaling by a factor in [0, 1) moves a number toward zero. */
  lemma ScaleTowardZero(c: real, a: real)
    requires 0.0 <= c < 1.0
    ensures 0.0 <= a ==> 0.0 <= c * a <= a
    ensures a <= 0.0 ==> a <= c * a <= 0.0
  {
  }

  /** An avatar at rest stays put: with zero velocity, it neither moves nor
      accelerates, whether untouched or touched exactly at its position. */
  lemma AtRestStaysPut(m: Motion, target: Vec2, touched: bool, accConstant: int, accFriction: int)
    requires accConstant != 0 && accFriction != 0
    requires m.vel == Zero
    requires touched ==> target == m.pos
    ensures var n := Move(m, target, touched, accConstant, accFriction);
            n.pos == m.pos && n.vel == Zero && n.acc == Zero
  {
    if touched {
      var p := Pursue(m, target, accConstant);
      ZeroOver(accConstant as real);
      assert p.acc == Zero;
      assert p.vel == Zero && p.pos == m.pos;
      FrictionAtRest(p, accFriction);
    } else {
      FrictionAtRest(m, accFriction);
    }
  }

  /** Zero divided by any non-zero number is zero. */
  lemma ZeroOver(k: real)
    requires k != 0.0
    ensures 0.0 / k == 0.0
    ensures -0.0 / k == 0.0
  {
  }

  /** Friction leaves a motion at rest where it is, with no acceleration. */
  lemma FrictionAtRest(m: Motion, accFriction: int)
    requires accFriction != 0
    requires m.vel == Zero
    ensures Friction(m, accFriction) == Motion(m.pos, Zero, Zero)
  {
    ZeroOver(accFriction as real);
  }

  /** A touch pulls the avatar toward the target: on each axis the pursuit
      step, from rest, moves the avatar strictly toward the target whenever
      the acceleration constant is positive. */
  lemma PursuitMovesTowardTarget(m: Motion, target: Vec2, accConstant: int)
    requires accConstant > 0
    requires m.vel == Zero
    ensures var n := Pursue(m, target, accConstant);
            && (m.pos.x < target.x ==> m.pos.x < n.pos.x)
            && (target.x < m.pos.x ==> n.pos.x < m.pos.x)
            && (m.pos.y < target.y ==> m.pos.y < n.pos.y)
            && (target.y < m.pos.y ==> n.pos.y < m.pos.y)
  {
  }

  /** The circle of radius `r` centred at `p` sticks out of `[0, extent]`. */
  predicate Overlaps(p: real, extent: int, r: int) {
    p + r as real > extent as real || p - r as real < 0.0
  }

  /** One axis of the wall bounce: the velocity flips when the circle sticks
      out on either side. */
  function Reflect(p: real, v: real, extent: int, r: int): real {
    if Overlaps(p, extent, r) then -v else v
  }

  /** One axis of the wall clamp, in the order of the source: first against
      the far wall, then, from that result, against the near wall. */
  function Clamp(p: real, extent: int, r: int): (c: real)
    ensures 2 * r <= extent ==> r as real <= c <= (extent - r) as real
    ensures !Overlaps(p, extent, r) ==> c == p
  {
    var afterFar := if p + r as real > extent as real then (extent - r) as real else p;
    if afterFar - r as real < 0.0 then r as real else afterFar
  }

  /** `checkIfHitWall` on the motion state: each axis is reflected and then
      clamped on its own; the acceleration is untouched. */
  function Bounce(m: Motion, width: int, height: int, r: int): Motion {
    Motion(
      Vec2(Clamp(m.pos.x, width, r), Clamp(m.pos.y, height, r)),
      Vec2(Reflect(m.pos.x, m.vel.x, width, r), Reflect(m.pos.y, m.vel.y, height, r)),
      m.acc)
  }

  /** After a bounce the avatar's circle lies inside the screen, provided
      the screen is at least one diameter wide and high. */
  lemma BounceStaysInside(m: Motion, width: int, height: int, r: int)
    requires 2 * r <= width && 2 * r <= height
    ensures var b := Bounce(m, width, height, r);
            && r as real <= b.pos.x <= (width - r) as real
            && r as real <= b.pos.y <= (height - r) as real
            && !Overlaps(b.pos.x, width, r) && !Overlaps(b.pos.y, height, r)
  {
  }

  /** The bounce negates `vel.x` exactly when the circle sticks out on the
      left or right, whatever happens on the other axis, and symmetrically
      for `vel.y`; the acceleration is kept. */
  lemma BounceReflectsPerAxis(m: Motion, width: int, height: int, r: int)
    ensures var b := Bounce(m, width, height, r);
            && (Overlaps(m.pos.x, width, r) ==> b.vel.x == -m.vel.x)
            && (!Overlaps(m.pos.x, width, r) ==> b.vel.x == m.vel.x)
            && (Overlaps(m.pos.y, height, r) ==> b.vel.y == -m.vel.y)
            && (!Overlaps(m.pos.y, height, r) ==> b.vel.y == m.vel.y)
            && b.acc == m.acc
  {
  }

  /** A circle fully inside the screen is left exactly as it was. */
  lemma BounceInsideIsIdentity(m: Motion, width: int, height: int, r: int)
    requires !Overlaps(m.pos.x, width, r) && !Overlaps(m.pos.y, height, r)
    ensures Bounce(m, width, height, r) == m
  {
  }

  /** Bouncing twice in one tick is bouncing once, on a screen at least one
      diameter wide and high. */
  lemma BounceIdempotent(m: Motion, width: int, height: int, r: int)
    requires 2 * r <= width && 2 * r <= height
    ensures var b := Bounce(m, width, height, r);
            Bounce(b, width, height, r) == b
  {
  }

  class Player {
    var pos: Vec2
    var vel: Vec2
    var acc: Vec2
    /** Centre and radius of the collision circle. */
    var collisionCentre: Vec2
    var collisionRadius: real
    /** Lower-left corner of the sprite. */
    var spritePos: Vec2
    const radius: int
    const accConstant: int
    const accFriction: int

    /** The motion state as a value. */
    function State(): Motion
      reads this
    {
      Motion(pos, vel, acc)
    }

    /** Both constants can be divided by, and the collision circle is 0.8
        of the visual radius. */
    ghost predicate Valid()
      reads this
    {
      && accConstant != 0
      && accFriction != 0
      && collisionRadius == 0.8 * radius as real
    }

    /** The start position argument is overwritten: the avatar always
        starts at the centre of the screen, at rest. */
    constructor (playerStartPos: Vec2, playerRadius: int, playerAccConstant: int,
                 playerAccFriction: int, screenWidth: int, screenHeight: int)
      requires playerAccConstant != 0 && playerAccFriction != 0
      ensures Valid()
      ensures radius == playerRadius && accConstant == playerAccConstant
      ensures accFriction == playerAccFriction
      ensures pos == Vec2(screenWidth as real / 2.0, screenHeight as real / 2.0)
      ensures vel == Zero && acc == Zero
      ensures collisionCentre == pos && spritePos == Corner(pos, playerRadius as real)
      ensures 0 <= playerRadius ==> collisionRadius <= playerRadius as real
    {
      radius := playerRadius;
      accConstant := playerAccConstant;
      accFriction := playerAccFriction;
      pos := playerStartPos;
      new;
      pos := Vec2(screenWidth as real / 2.0, screenHeight as real / 2.0);
      vel := Zero;
      acc := Zero;
      spritePos := Corner(pos, radius as real);
      collisionRadius := radius as real * 0.8;
      collisionCentre := pos;
    }

    /** Put the avatar at `resetPosition`, at rest. The collision circle and
        the sprite stay where they were until the next `Movement`. */
    method Reset(resetPosition: Vec2)
      modifies this
      ensures pos == resetPosition && vel == Zero && acc == Zero
      ensures collisionCentre == old(collisionCentre) && collisionRadius == old(collisionRadius)
      ensures spritePos == old(spritePos)
    {
      pos := resetPosition;
      vel := Zero;
      acc := Zero;
    }

    /** One tick of steering toward `touchPos`, then the collision circle
        and the sprite follow the new position. */
    method Movement(touchPos: Vec2, touched: bool)
      requires Valid()
      modifies this
      ensures Valid()
      ensures State() == Move(old(State()), touchPos, touched, accConstant, accFriction)
      ensures collisionCentre == pos && spritePos == Corner(pos, radius as real)
      ensures collisionRadius == old(collisionRadius)
    {
      if touched {
        acc := Vec2((touchPos.x - pos.x) / accConstant as real,
                    (touchPos.y - pos.y) / accConstant as real);
        vel := Vec2(vel.x + acc.x, vel.y + acc.y);
        pos := Vec2(pos.x + vel.x, pos.y + vel.y);
      }
      acc := Vec2(-vel.x / accFriction as real, -vel.y / accFriction as real);
      vel := Vec2(vel.x + acc.x, vel.y + acc.y);
      pos := Vec2(pos.x + vel.x, pos.y + vel.y);
      collisionCentre := pos;
      spritePos := Vec2(pos.x - radius as real, pos.y - radius as real);
    }

    /** The two-coordinate overload of `Movement`. */
    method MovementTo(touchPosX: real, touchPosY: real, touched: bool)
      requires Valid()
      modifies this
      ensures Valid()
      ensures State() == Move(old(State()), Vec2(touchPosX, touchPosY), touched, accConstant, accFriction)
      ensures collisionCentre == pos && spritePos == Corner(pos, radius as real)
      ensures collisionRadius == old(collisionRadius)
    {
      Movement(Vec2(touchPosX, touchPosY), touched);
    }

    /** Bounce off the screen edges and clamp the avatar back inside. The
        collision circle and the sprite are not moved here. */
    method CheckIfHitWall(screenWidth: int, screenHeight: int)
      modifies this
      ensures State() == Bounce(old(State()), screenWidth, screenHeight, radius)
      ensures collisionCentre == old(collisionCentre) && collisionRadius == old(collisionRadius)
      ensures spritePos == old(spritePos)
    {
      var w, h, r := screenWidth as real, screenHeight as real, radius as real;
      if pos.x + r > w || pos.x - r < 0.0 {
        vel := Vec2(-vel.x, vel.y);
      }
      if pos.y + r > h || pos.y - r < 0.0 {
        vel := Vec2(vel.x, -vel.y);
      }
      if pos.x + r > w {
        pos := Vec2(w - r, pos.y);
      }
      if pos.x - r < 0.0 {
        pos := Vec2(r, pos.y);
      }
      if pos.y + r > h {
        pos := Vec2(pos.x, h - r);
      }
      if pos.y - r < 0.0 {
        pos := Vec2(pos.x, r);
      }
    }
  }

  /** The resting scenario on an 800 by 600 screen: an avatar at the centre,
      touched at its own position, with pursuit constant 1000 and friction
      constant 50, does not move in one tick. */
  lemma RestingScenario()
    ensures var m := Motion(Vec2(400.0, 300.0), Zero, Zero);
            var n := Move(m, Vec2(400.0, 300.0), true, 1000, 50);
            n.pos == Vec2(400.0, 300.0) && n.vel == Zero
  {
    AtRestStaysPut(Motion(Vec2(400.0, 300.0), Zero, Zero), Vec2(400.0, 300.0), true, 1000, 50);
  }
}
