# Survival game simulation core, in Dafny

This project models the simulation logic of a small LibGDX survival game:
an avatar that chases the touch point, and circular enemies that spawn just
outside the screen, drift across it in straight lines and are removed once
they are far enough off screen, each removal making later enemies faster.
Three Java classes carry that logic, and each becomes a Dafny class whose
methods update its fields in place, with contracts stated against pure
functions. The classes keep the simulation fields only: the sprite,
texture, sprite batch, shape renderer and image path are dropped, each
LibGDX `Circle` becomes the two fields `collisionCentre` and
`collisionRadius`, and each `Sprite` becomes `spritePos`, the corner it is
drawn at.

- `Players` (`player.dfy`) models `Player`. Its motion state is position,
  velocity and acceleration, plus the collision circle and the sprite
  corner. `Move` is one tick of `movement`: a pursuit step while touched,
  then a friction step every tick. `Bounce` is `checkIfHitWall`: reflect,
  then clamp, one axis at a time.
- `Enemies` (`enemy.dfy`) models `Enemy`, a circle with a constant
  velocity. `Drift` gives its position after n calls of `movement`.
- `Spawning` (`enemy_spawner.dfy`) models `EnemySpawner`. It holds the
  ordered list of `Enemy` objects and a separate live count, which
  `Valid()` ties to the list length. `SpawnPosition` is the spawn-point
  choice. `Survivors` is the result of the reverse despawn walk. `Ramp`
  is the speed after n removals. The body of the walk's loop is the
  method `DespawnAt`, which `CheckEnemyDespawn` calls once per index from
  the last down to 0; `WalkAt` states what the list is between two
  passes.
- `Vectors` (`vector.dfy`) holds the 2-D vector value that stands in for
  LibGDX's `Vector2`.

Numbers are `real`, so there is no rounding. Screen width and height are
`int` parameters, as LibGDX reports them. "Is the screen touched" is a
`bool` parameter. The three draws that choose the spawn position in
`spawnEnemy` (`EnemySpawner.java:44-55`) are `real` parameters, taken in
the order the code draws them: the edge draw and the side draw are only
compared with 0.5, and the coordinate draw lies in `[0, 1)`. The three
later draws that shape the velocity (`EnemySpawner.java:68-71`) are
replaced by the velocity itself, a parameter of `SpawnEnemy`.

## Behaviour of the code worth knowing

- The code does not clamp the enemy speed: a removal adds one increase
  whenever the speed is still below the cap, so it can end above the cap
  by less than one increase (`EnemySpawner.java:87`; `RampOvershootsCap`,
  `RampBelowCapPlusStep`).
- `reset` and `checkIfHitWall` move the avatar's position but not its
  collision circle or sprite. Those follow the position only in
  `movement`, so the model keeps them as separate fields.
- The constructor ignores its start-position argument. The avatar always
  starts at the screen centre.
- `EnemySpawner.checkEnemyDespawn` reads each enemy's position through
  `getPos()`, but `Enemy` only defines `getEnemyPos()`. Both name the
  enemy's position field, `Enemies.Enemy.pos`.

## Model

| member | source | states |
|---|---|---|
| `Enemies.DriftIsLinear` | core/src/com/isak/main/Enemy.java:59 | n moves put the enemy at its start position plus n times its velocity: the drift is purely linear |
| `Enemies.DriftComposes` | core/src/com/isak/main/Enemy.java:59 | m moves followed by n moves are the same as m + n moves |
| `Enemies.Enemy.constructor` | core/src/com/isak/main/Enemy.java:34-53 | holds the given position, velocity and radius; the collision circle is centred on the start position with the enemy's radius; the sprite corner is one radius below and left |
| `Enemies.Enemy.Movement` | core/src/com/isak/main/Enemy.java:58-62 | the position advances by the velocity; the velocity and collision radius stay the same; the collision centre equals the new position; the sprite corner is the position minus the radius |
| `Players.UntouchedIsFrictionOnly` | core/src/com/isak/main/Player.java:127-138 | without a touch only friction acts: the new velocity is (1 - 1/friction) times the old one, the acceleration is -velocity/friction, and the position advances by the new velocity |
| `Players.FrictionSlowsDown` | core/src/com/isak/main/Player.java:135-138 | with a friction constant of at least 1, friction never increases a velocity component's size and never flips its sign |
| `Players.AtRestStaysPut` | core/src/com/isak/main/Player.java:126-138 | an avatar at rest stays put when untouched or when touched at its own position: same position, zero velocity, zero acceleration |
| `Players.PursuitMovesTowardTarget` | core/src/com/isak/main/Player.java:127-133 | from rest, with a positive acceleration constant, the pursuit step moves the avatar strictly toward the target on each axis where they differ |
| `Players.RestingScenario` | core/src/com/isak/main/Player.java:126-138 | on an 800×600 screen, an avatar at (400, 300) touched at (400, 300), with constants 1000 and 50, keeps its position and zero velocity over one tick |
| `Players.Clamp` | core/src/com/isak/main/Player.java:161-170 | the far-wall clamp then the near-wall clamp leave the coordinate in [r, extent - r] whenever 2r ≤ extent, and change nothing when the circle does not stick out |
| `Players.BounceStaysInside` | core/src/com/isak/main/Player.java:154-171 | when 2·radius ≤ width and 2·radius ≤ height, the bounce leaves radius ≤ x ≤ width - radius and radius ≤ y ≤ height - radius, so the circle no longer sticks out |
| `Players.BounceReflectsPerAxis` | core/src/com/isak/main/Player.java:155-159 | vel.x is negated exactly when the circle sticks out left or right, and kept otherwise, whatever happens on y; the same holds for vel.y and the top and bottom walls; the acceleration is kept |
| `Players.BounceInsideIsIdentity` | core/src/com/isak/main/Player.java:154-171 | a circle fully inside the screen keeps its whole motion state |
| `Players.BounceIdempotent` | core/src/com/isak/main/Player.java:154-171 | on a screen at least one diameter wide and high, a second bounce right after the first changes nothing |
| `Players.Player.constructor` | core/src/com/isak/main/Player.java:38-69 | whatever start position is passed, the avatar starts at (width/2, height/2) with zero velocity and acceleration; the collision circle is centred there with radius 0.8·playerRadius, at most playerRadius when playerRadius is non-negative |
| `Players.Player.Reset` | core/src/com/isak/main/Player.java:75-80 | the position becomes the given point and velocity and acceleration become zero; the collision circle and sprite are unchanged |
| `Players.Player.Movement` | core/src/com/isak/main/Player.java:126-148 | the new motion state is one `Move` tick (pursuit while touched, then friction) of the old one; the collision centre equals the new position; the sprite corner is the position minus the radius |
| `Players.Player.MovementTo` | core/src/com/isak/main/Player.java:117-119 | the two-coordinate overload behaves as `Movement` on the point (x, y) |
| `Players.Player.CheckIfHitWall` | core/src/com/isak/main/Player.java:154-171 | the new motion state is `Bounce` of the old one for the given screen size; the collision circle and sprite do not move |
| `Spawning.SpawnPosition` | core/src/com/isak/main/EnemySpawner.java:40-62 | the spawn point lies on one spawn line: y = H + 2r or -2r with x in [0, W), or x = W + 2r or -2r with y in [0, H); the edge draw picks top/bottom versus right/left and the side draw picks the side |
| `Spawning.SpawnLineInsideMargin` | core/src/com/isak/main/EnemySpawner.java:82-85 | for a non-negative radius, a point on a spawn line is not beyond the 2.01·r despawn margin, and the enemy's circle there lies entirely off screen |
| `Spawning.Survivors` | core/src/com/isak/main/EnemySpawner.java:79-90 | the despawn walk never makes the list longer |
| `Spawning.SurvivorsExactly` | core/src/com/isak/main/EnemySpawner.java:80-89 | exactly the enemies beyond 2.01·r past an edge are removed: every survivor came from the list and is within the margin, and every listed enemy within the margin survives |
| `Spawning.SurvivorsAppend` | core/src/com/isak/main/EnemySpawner.java:80-89 | the survivors of a concatenation are the survivors of each part, in order, so the walk keeps the survivors' relative order |
| `Spawning.SurvivorsAllInside` | core/src/com/isak/main/EnemySpawner.java:82-86 | when no enemy is beyond the margin, the despawn walk leaves the list as it was |
| `Spawning.SpawnedSurvives` | core/src/com/isak/main/EnemySpawner.java:74-89 | an enemy just appended at a spawn point is kept by the next despawn walk and stays at the end of the list |
| `Spawning.RampNeverDecreases` | core/src/com/isak/main/EnemySpawner.java:87 | with a non-negative increase, the speed never decreases from one removal to the next |
| `Spawning.RampBelowCapPlusStep` | core/src/com/isak/main/EnemySpawner.java:87 | a speed starting below cap + increase stays below it, so it overshoots the cap by less than one increase |
| `Spawning.RampFrozenAtCap` | core/src/com/isak/main/EnemySpawner.java:87 | once the speed is at or above the cap, removals leave it unchanged |
| `Spawning.RampLinearBelowCap` | core/src/com/isak/main/EnemySpawner.java:87 | while the cap is not reached before the last removal, n removals add exactly n increases |
| `Spawning.RampOvershootsCap` | core/src/com/isak/main/EnemySpawner.java:87 | there is no clamp: from 0.9 with cap 1.0 and increase 0.5, one removal gives 1.4 |
| `Spawning.DriftScenario` | core/src/com/isak/main/EnemySpawner.java:82-85 | an enemy at (-128, 300) with velocity (2, 0) and radius 64 on an 800×600 screen reaches (0, 300) after 64 moves and is never beyond the margin on the way |
| `Spawning.EnemySpawner.constructor` | core/src/com/isak/main/EnemySpawner.java:23-34 | the list is empty, the count is 0, the current speed is the start speed, and the parameters are stored |
| `Spawning.EnemySpawner.SpawnEnemy` | core/src/com/isak/main/EnemySpawner.java:40-77 | appends exactly one fresh enemy at `SpawnPosition` with the given velocity; the earlier enemies stay in place; the count rises by one; the speed is unchanged |
| `Spawning.EnemySpawner.DespawnEnemy` | core/src/com/isak/main/EnemySpawner.java:92-95 | for 0 ≤ i < count, removes the element at i and keeps the rest in order; the count drops by one |
| `Spawning.EnemySpawner.CheckEnemyDespawn` | core/src/com/isak/main/EnemySpawner.java:79-90 | the new list is `Survivors` of the old one; the new speed is `Ramp` of the old speed over the number of enemies removed; count = list length still holds |
| `Spawning.EnemySpawner.DespawnAt` | core/src/com/isak/main/EnemySpawner.java:81-88 | one pass of the walk's body at index k: the enemy there is removed exactly when it is beyond the margin, and only then does the speed take one `RampStep`; the walk's state moves from k to k - 1 |
| `Spawning.EnemySpawner.MoveEnemies` | core/src/com/isak/main/EnemySpawner.java:97-102 | every listed enemy advances by its own velocity exactly once; the list, its order, the count and the speed are unchanged |
| `Spawning.EnemySpawner.SetCurrentEnemySpeed` | core/src/com/isak/main/EnemySpawner.java:118-120 | the current speed becomes the given value; the list and count are unchanged |

## Left out

- Rendering is not modelled. This covers `render`, `drawCollider`,
  `drawRadius`, `drawEnemies`, textures and sprite setup. It also covers
  the sprite rotation: computed with `atan2` in `Player.movement` and
  `Enemy.setup`, and reset to 0 in `Player.reset`. LibGDX draws all of
  this, and the model cannot see its behaviour.
- The spawn velocity is not modelled. It uses `atan2` toward the centre,
  a random angle offset, `cos`/`sin` and random jitter
  (`EnemySpawner.java:66-71`). This is floating-point trigonometry and
  randomness, so `SpawnEnemy` takes the resulting velocity as a parameter.
  The model therefore does not capture that the velocity scales with
  `currentEnemySpeed`, nor that it points roughly at the centre.
- `Gdx.graphics` and `Gdx.input` become parameters: screen width and
  height, and whether the screen is touched. `MathUtils.random()` draws
  become parameters as well. `SpawnPosition` and `SpawnEnemy` require
  only the coordinate draw to be in `[0, 1)`, which is what that generator
  returns; the edge and side draws may be any real, since the code only
  compares them with 0.5. They also require a non-negative screen size.
- Java `float` and `double` become `real`. Rounding is not modelled, nor
  are infinities, NaN, or the float and double mix in the margin test.
- `Players.Player.constructor` requires non-zero acceleration and friction
  constants, because the model divides reals. Java float division by zero
  would produce infinities or NaN instead of failing.
- `Spawning.EnemySpawner.DespawnEnemy` requires an index in range. The
  only caller, `checkEnemyDespawn`, always passes one. The exception that
  `Array.removeIndex` throws otherwise is not modelled.
- The getters (`getPlayerPos`, `getPlayerCollision`, `getEnemyPos`,
  `getEnemyCollision`, `getCurrentEnemySpeed` and the others) are plain
  field reads of the Dafny classes. They have no members of their own.
- `Vector2` is a value here. `Enemy` keeps the `Vector2` objects its
  caller passes by reference, but `spawnEnemy` always passes fresh ones,
  so no state is shared and the value model loses nothing.
- Some `EnemySpawner` behaviour is not in this class: there is no
  "spawn until `maxNumberEnemies`" loop and no restart that resets the
  speed. `maxNumberEnemies` is stored and nothing more. That logic lives
  outside the files modelled here.
- This model does not include collision detection between circles, the
  idle/playing/score state machine, `TouchElement.java` or
  `FirstGame.java`. `FirstGame.java` holds an early inline copy of the
  motion code, with no wall clamp and a flipped touch y coordinate.
