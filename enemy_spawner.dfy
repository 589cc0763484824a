/** The enemy spawner and population manager
    (core/src/com/isak/main/EnemySpawner.java): it keeps the ordered list of
    live enemies and a separate count of them, places new enemies just
    outside one screen edge, moves them all once per tick, removes those
    that have drifted beyond a margin of 2.01 radii past any edge, and
    raises the global enemy speed on every removal. The random draws, the
    screen size and the spawn velocity come in as parameters. */
module Spawning {
  import opened Vectors
  import opened Enemies

  /** Beyond the despawn margin, 2.01 enemy radii past some screen edge. */
  predicate OffScreen(p: Vec2, width: int, height: int, r: int) {
    || p.x > width as real + 2.01 * r as real
    || p.x < -2.01 * r as real
    || p.y > height as real + 2.01 * r as real
    || p.y < -2.01 * r as real
  }

  /** `c` is a coordinate drawn along an edge of length `extent`: in
      `[0, extent)`, or 0 on a screen of zero extent. */
  predicate AlongEdge(c: real, extent: int) {
    0.0 <= c && (c < extent as real || c == 0.0)
  }

  /** `p` is two radii past the top or bottom edge at some x along it, or
      two radii past the right or left edge at some y along it. */
  predicate OnSpawnLine(p: Vec2, width: int, height: int, r: int) {
    || ((p.y == (height + 2 * r) as real || p.y == (-2 * r) as real) && AlongEdge(p.x, width))
    || ((p.x == (width + 2 * r) as real || p.x == (-2 * r) as real) && AlongEdge(p.y, height))
  }

  /** Where `spawnEnemy` puts a new enemy, from its three uniform draws in
      `[0, 1)`, in the order it takes them: the edge pair (above 0.5 means
      top or bottom), the coordinate along the edge, and the side (above
      0.5 means top, or right). */
  function SpawnPosition(width: int, height: int, r: int,
                         edgeDraw: real, coordDraw: real, sideDraw: real): (p: Vec2)
    requires 0 <= width && 0 <= height
    requires 0.0 <= coordDraw < 1.0
    ensures OnSpawnLine(p, width, height, r)
    ensures edgeDraw > 0.5 ==> p.y == (if sideDraw > 0.5 then (height + 2 * r) as real else (-2 * r) as real)
    ensures edgeDraw <= 0.5 ==> p.x == (if sideDraw > 0.5 then (width + 2 * r) as real else (-2 * r) as real)
  {
    if edgeDraw > 0.5 then
      var x := coordDraw * width as real;
      assert AlongEdge(x, width) by {
        if width > 0 {
          assert coordDraw * width as real < 1.0 * width as real;
        }
      }
      Vec2(x, if sideDraw > 0.5 then (height + 2 * r) as real else (-2 * r) as real)
    else
      var y := coordDraw * height as real;
      assert AlongEdge(y, height) by {
        if height > 0 {
          assert coordDraw * height as real < 1.0 * height as real;
        }
      }
      Vec2(if sideDraw > 0.5 then (width + 2 * r) as real else (-2 * r) as real, y)
  }

  /** A freshly spawned enemy starts outside the screen, clear of it by at
      least one radius, yet within the despawn margin, so the despawn check
      of the same tick keeps it. */
  lemma SpawnLineInsideMargin(p: Vec2, width: int, height: int, r: int)
    requires 0 <= width && 0 <= height && 0 <= r
    requires OnSpawnLine(p, width, height, r)
    ensures !OffScreen(p, width, height, r)
    ensures || p.y - r as real >= height as real || p.y + r as real <= 0.0
            || p.x - r as real >= width as real || p.x + r as real <= 0.0
  {
  }

  /** The enemies of `es` the despawn check keeps, in their order. */
  function Survivors(es: seq<Enemy>, width: int, height: int, r: int): (s: seq<Enemy>)
    reads es
    ensures |s| <= |es|
  {
    if es == [] then []
    else
      (if OffScreen(es[0].pos, width, height, r) then [] else [es[0]])
      + Survivors(es[1..], width, height, r)
  }

  /** The despawn check removes exactly the enemies beyond the margin:
      every survivor comes from the list and is inside the margin, and every
      listed enemy inside the margin survives. */
  lemma {:induction false} SurvivorsExactly(es: seq<Enemy>, width: int, height: int, r: int)
    ensures var s := Survivors(es, width, height, r);
            && (forall i :: 0 <= i < |s| ==> s[i] in es && !OffScreen(s[i].pos, width, height, r))
            && (forall i :: 0 <= i < |es| && !OffScreen(es[i].pos, width, height, r) ==> es[i] in s)
  {
    if es != [] {
      SurvivorsExactly(es[1..], width, height, r);
      var s := Survivors(es, width, height, r);
      var rest := Survivors(es[1..], width, height, r);
      forall i | 0 <= i < |s|
        ensures s[i] in es && !OffScreen(s[i].pos, width, height, r)
      {
        if !OffScreen(es[0].pos, width, height, r) && i > 0 {
          assert s[i] == rest[i - 1];
        }
      }
      forall i | 0 <= i < |es| && !OffScreen(es[i].pos, width, height, r)
        ensures es[i] in s
      {
        if i > 0 {
          assert es[i] == es[1..][i - 1];
        }
      }
    }
  }

  /** The despawn filter works piecewise: the survivors of a concatenation
      are the survivors of each part, in the same order. */
  lemma {:induction false} SurvivorsAppend(a: seq<Enemy>, b: seq<Enemy>, width: int, height: int, r: int)
    ensures Survivors(a + b, width, height, r) == Survivors(a, width, height, r) + Survivors(b, width, height, r)
  {
    if a == [] {
      assert a + b == b;
    } else {
      assert (a + b)[1..] == a[1..] + b;
      SurvivorsAppend(a[1..], b, width, height, r);
    }
  }

  /** When nothing is beyond the margin, the despawn check removes nothing. */
  lemma {:induction false} SurvivorsAllInside(es: seq<Enemy>, width: int, height: int, r: int)
    requires forall i :: 0 <= i < |es| ==> !OffScreen(es[i].pos, width, height, r)
    ensures Survivors(es, width, height, r) == es
  {
    if es != [] {
      SurvivorsAllInside(es[1..], width, height, r);
    }
  }

  /** A spawned enemy that joins the end of the list is kept by the next
      despawn check, behind the other survivors. */
  lemma SpawnedSurvives(es: seq<Enemy>, e: Enemy, width: int, height: int, r: int)
    requires 0 <= width && 0 <= height && 0 <= r
    requires OnSpawnLine(e.pos, width, height, r)
    ensures Survivors(es + [e], width, height, r) == Survivors(es, width, height, r) + [e]
  {
    SurvivorsAppend(es, [e], width, height, r);
    SpawnLineInsideMargin(e.pos, width, height, r);
    assert [e][1..] == [];
  }

  /** One iteration of the reverse despawn walk at index `k`: removing the
      enemy there, or keeping it, extends the processed suffix by one. */
  lemma SurvivorsStep(cur: seq<Enemy>, orig: seq<Enemy>, k: int, width: int, height: int, r: int)
    requires 0 <= k < |orig|
    requires cur == orig[..k + 1] + Survivors(orig[k + 1..], width, height, r)
    ensures k < |cur| && cur[k] == orig[k]
    ensures OffScreen(orig[k].pos, width, height, r) ==>
              cur[..k] + cur[k + 1..] == orig[..k] + Survivors(orig[k..], width, height, r)
    ensures !OffScreen(orig[k].pos, width, height, r) ==>
              cur == orig[..k] + Survivors(orig[k..], width, height, r)
  {
  }

  /** The state of the reverse despawn walk once every index above `k` has
      been checked: the unchecked prefix `orig[..k + 1]`, then the
      survivors of the checked suffix. */
  ghost predicate WalkAt(cur: seq<Enemy>, orig: seq<Enemy>, k: int, width: int, height: int, r: int)
    requires -1 <= k < |orig|
    reads orig
  {
    cur == orig[..k + 1] + Survivors(orig[k + 1..], width, height, r)
  }

  /** The enemy at a not yet checked index `k` is the original one. */
  lemma WalkAtIndex(cur: seq<Enemy>, orig: seq<Enemy>, k: int, width: int, height: int, r: int)
    requires 0 <= k < |orig| && WalkAt(cur, orig, k, width, height, r)
    ensures k < |cur| && cur[k] == orig[k]
  {
  }

  /** One iteration of the walk at `k`: removing the enemy there when it is
      off screen, or keeping it otherwise, gives the walk's state at
      `k - 1`. */
  lemma WalkStep(prev: seq<Enemy>, cur: seq<Enemy>, orig: seq<Enemy>, k: int, width: int, height: int, r: int)
    requires 0 <= k < |orig| && WalkAt(prev, orig, k, width, height, r)
    requires OffScreen(orig[k].pos, width, height, r) ==> k < |prev| && cur == prev[..k] + prev[k + 1..]
    requires !OffScreen(orig[k].pos, width, height, r) ==> cur == prev
    ensures WalkAt(cur, orig, k - 1, width, height, r)
  {
    SurvivorsStep(prev, orig, k, width, height, r);
  }

  /** The finished walk leaves exactly the survivors. */
  lemma WalkDone(cur: seq<Enemy>, orig: seq<Enemy>, width: int, height: int, r: int)
    requires WalkAt(cur, orig, -1, width, height, r)
    ensures cur == Survivors(orig, width, height, r)
  {
    assert orig[0..] == orig;
  }

  /** Before the walk nothing has been checked. */
  lemma WalkStart(orig: seq<Enemy>, width: int, height: int, r: int)
    ensures WalkAt(orig, orig, |orig| - 1, width, height, r)
  {
    assert orig[|orig|..] == [];
  }

  /** One removal's effect on the speed: one step up, but only while the
      speed is below the cap; the result is not clamped to the cap. */
  function RampStep(speed: real, maxSpeed: real, increase: real): real {
    if speed < maxSpeed then speed + increase else speed
  }

  /** The speed after `n` removals. */
  function Ramp(speed: real, maxSpeed: real, increase: real, n: nat): real {
    if n == 0 then speed else RampStep(Ramp(speed, maxSpeed, increase, n - 1), maxSpeed, increase)
  }

  /** With a non-negative increase the speed never decreases. */
  lemma {:induction false} RampNeverDecreases(speed: real, maxSpeed: real, increase: real, n: nat)
    requires 0.0 <= increase
    ensures speed <= Ramp(speed, maxSpeed, increase, n)
    ensures Ramp(speed, maxSpeed, increase, n) <= Ramp(speed, maxSpeed, increase, n + 1)
  {
    if n > 0 {
      RampNeverDecreases(speed, maxSpeed, increase, n - 1);
    }
  }

  /** Below the cap plus one step the speed stays there: it overshoots the
      cap by less than one increase. */
  lemma {:induction false} RampBelowCapPlusStep(speed: real, maxSpeed: real, increase: real, n: nat)
    requires speed < maxSpeed + increase
    ensures Ramp(speed, maxSpeed, increase, n) < maxSpeed + increase
  {
    if n > 0 {
      RampBelowCapPlusStep(speed, maxSpeed, increase, n - 1);
    }
  }

  /** Once at or above the cap, further removals leave the speed alone. */
  lemma {:induction false} RampFrozenAtCap(speed: real, maxSpeed: real, increase: real, n: nat)
    requires maxSpeed <= speed
    ensures Ramp(speed, maxSpeed, increase, n) == speed
  {
    if n > 0 {
      RampFrozenAtCap(speed, maxSpeed, increase, n - 1);
    }
  }

  /** While the cap is not reached, each removal adds exactly one increase. */
  lemma {:induction false} RampLinearBelowCap(speed: real, maxSpeed: real, increase: real, n: nat)
    requires 0.0 <= increase
    requires 0 < n ==> speed + (n - 1) as real * increase < maxSpeed
    ensures Ramp(speed, maxSpeed, increase, n) == speed + n as real * increase
  {
    if n > 0 {
      assert speed + (n - 2) as real * increase <= speed + (n - 1) as real * increase;
      RampLinearBelowCap(speed, maxSpeed, increase, n - 1);
    }
  }

  /** No clamp: from 0.9 with cap 1.0 and increase 0.5, one removal gives
      1.4, above the cap. */
  lemma RampOvershootsCap()
    ensures Ramp(0.9, 1.0, 0.5, 1) == 1.4
  {
  }

  /** An enemy spawned at (-128, 300) with velocity (2, 0) and radius 64
      on an 800 by 600 screen reaches x = 0 after 64 ticks without ever
      being beyond the despawn margin. */
  lemma DriftScenario(n: nat)
    requires n <= 64
    ensures !OffScreen(Drift(Vec2(-128.0, 300.0), Vec2(2.0, 0.0), n), 800, 600, 64)
    ensures n == 64 ==> Drift(Vec2(-128.0, 300.0), Vec2(2.0, 0.0), n) == Vec2(0.0, 300.0)
  {
    DriftIsLinear(Vec2(-128.0, 300.0), Vec2(2.0, 0.0), n);
  }

  class EnemySpawner {
    var enemies: seq<Enemy>
    const enemyStartSpeed: real
    var currentEnemySpeed: real
    const enemySpeedIncrease: real
    const enemyMaxSpeed: real
    const maxNumberEnemies: int
    var currentNumberEnemies: int
    const enemyRadius: int

    /** The count matches the list, no enemy is listed twice, and every
        enemy is a well-formed circle of the shared radius. */
    ghost predicate Valid()
      reads this, enemies
    {
      && currentNumberEnemies == |enemies|
      && (forall i, j :: 0 <= i < j < |enemies| ==> enemies[i] != enemies[j])
      && (forall e :: e in enemies ==> e.Valid() && e.radius == enemyRadius)
    }

    constructor (startSpeed: real, speedIncrease: real, maxSpeed: real,
                 maxEnemies: int, radius: int)
      ensures Valid()
      ensures enemies == [] && currentNumberEnemies == 0
      ensures currentEnemySpeed == startSpeed && enemyStartSpeed == startSpeed
      ensures enemySpeedIncrease == speedIncrease && enemyMaxSpeed == maxSpeed
      ensures maxNumberEnemies == maxEnemies && enemyRadius == radius
    {
      enemies := [];
      enemyStartSpeed := startSpeed;
      currentEnemySpeed := startSpeed;
      enemySpeedIncrease := speedIncrease;
      enemyMaxSpeed := maxSpeed;
      maxNumberEnemies := maxEnemies;
      currentNumberEnemies := 0;
      enemyRadius := radius;
    }

    /** Append one new enemy at the spawn position the draws select, moving
        with `startVel`; the enemies already listed are not touched. */
    method SpawnEnemy(screenWidth: int, screenHeight: int,
                      edgeDraw: real, coordDraw: real, sideDraw: real, startVel: Vec2)
      requires Valid()
      requires 0 <= screenWidth && 0 <= screenHeight
      requires 0.0 <= coordDraw < 1.0
      modifies this
      ensures Valid()
      ensures |enemies| == |old(enemies)| + 1 && enemies[..|old(enemies)|] == old(enemies)
      ensures var e := enemies[|old(enemies)|];
              && fresh(e)
              && e.pos == SpawnPosition(screenWidth, screenHeight, enemyRadius, edgeDraw, coordDraw, sideDraw)
              && e.vel == startVel
      ensures currentNumberEnemies == old(currentNumberEnemies) + 1
      ensures currentEnemySpeed == old(currentEnemySpeed)
    {
      var startPos := SpawnPosition(screenWidth, screenHeight, enemyRadius, edgeDraw, coordDraw, sideDraw);
      var e := new Enemy(startPos, startVel, enemyRadius);
      enemies := enemies + [e];
      currentNumberEnemies := currentNumberEnemies + 1;
    }

    /** Remove the enemy at index `i`, keeping the others in order. */
    method DespawnEnemy(i: int)
      requires Valid()
      requires 0 <= i < currentNumberEnemies
      modifies this
      ensures Valid()
      ensures enemies == old(enemies[..i]) + old(enemies[i + 1..])
      ensures currentNumberEnemies == old(currentNumberEnemies) - 1
      ensures currentEnemySpeed == old(currentEnemySpeed)
    {
      enemies := enemies[..i] + enemies[i + 1..];
      currentNumberEnemies := currentNumberEnemies - 1;
    }

    /** Walk the list from its end and remove every enemy beyond the despawn
        margin, raising the speed once per removal while it is below the
        cap. */
    method CheckEnemyDespawn(screenWidth: int, screenHeight: int)
      requires Valid()
      modifies this
      ensures Valid()
      ensures enemies == Survivors(old(enemies), screenWidth, screenHeight, enemyRadius)
      ensures currentEnemySpeed
              == Ramp(old(currentEnemySpeed), enemyMaxSpeed, enemySpeedIncrease, |old(enemies)| - |enemies|)
    {
      ghost var orig := enemies;
      ghost var speed0 := currentEnemySpeed;
      ghost var removed: nat := 0;
      var k := currentNumberEnemies - 1;
      WalkStart(orig, screenWidth, screenHeight, enemyRadius);
      while k >= 0
        invariant -1 <= k < |orig|
        invariant Valid()
        invariant WalkAt(enemies, orig, k, screenWidth, screenHeight, enemyRadius)
        invariant |enemies| + removed == |orig|
        invariant currentEnemySpeed == Ramp(speed0, enemyMaxSpeed, enemySpeedIncrease, removed)
        decreases k
      {
        ghost var gone := OffScreen(orig[k].pos, screenWidth, screenHeight, enemyRadius);
        DespawnAt(k, screenWidth, screenHeight, orig);
        if gone {
          removed := removed + 1;
        }
        k := k - 1;
      }
      WalkDone(enemies, orig, screenWidth, screenHeight, enemyRadius);
    }

    /** The body of the despawn walk at index `k`: remove the enemy there if
        it is beyond the margin, and then raise the speed by one increase
        if it is still below the cap. */
    method DespawnAt(k: int, screenWidth: int, screenHeight: int, ghost orig: seq<Enemy>)
      requires Valid()
      requires 0 <= k < |orig| && WalkAt(enemies, orig, k, screenWidth, screenHeight, enemyRadius)
      modifies this
      ensures Valid()
      ensures WalkAt(enemies, orig, k - 1, screenWidth, screenHeight, enemyRadius)
      ensures OffScreen(orig[k].pos, screenWidth, screenHeight, enemyRadius) ==>
                |enemies| == |old(enemies)| - 1
                && currentEnemySpeed == RampStep(old(currentEnemySpeed), enemyMaxSpeed, enemySpeedIncrease)
      ensures !OffScreen(orig[k].pos, screenWidth, screenHeight, enemyRadius) ==>
                enemies == old(enemies) && currentEnemySpeed == old(currentEnemySpeed)
    {
      ghost var prev := enemies;
      WalkAtIndex(enemies, orig, k, screenWidth, screenHeight, enemyRadius);
      if OffScreen(enemies[k].pos, screenWidth, screenHeight, enemyRadius) {
        DespawnEnemy(k);
        if currentEnemySpeed < enemyMaxSpeed {
          currentEnemySpeed := currentEnemySpeed + enemySpeedIncrease;
        }
      }
      WalkStep(prev, enemies, orig, k, screenWidth, screenHeight, enemyRadius);
    }

    method MoveEnemies()
      requires Valid()
      modifies enemies
      ensures Valid()
      ensures enemies == old(enemies) && currentNumberEnemies == old(currentNumberEnemies)
      ensures currentEnemySpeed == old(currentEnemySpeed)
      ensures forall e :: e in enemies ==> e.pos == Drift(old(e.pos), e.vel, 1) && e.vel == old(e.vel)
    {
      var i := 0;
      while i < |enemies|
        invariant 0 <= i <= |enemies|
        invariant forall j :: 0 <= j < i ==>
                    enemies[j].pos == Drift(old(enemies[j].pos), enemies[j].vel, 1)
                    && enemies[j].vel == old(enemies[j].vel) && enemies[j].Valid()
        invariant forall j :: i <= j < |enemies| ==> unchanged(enemies[j])
      {
        enemies[i].Movement();
        i := i + 1;
      }
    }

    /** Overwrite the current enemy speed. */
    method SetCurrentEnemySpeed(speed: real)
      modifies this
      ensures currentEnemySpeed == speed
      ensures enemies == old(enemies) && currentNumberEnemies == old(currentNumberEnemies)
    {
      currentEnemySpeed := speed;
    }
  }
}
