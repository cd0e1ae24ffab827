# AIP_A3 game core in Dafny

A Dafny model of the game logic of AIP_A3. AIP_A3 is a small Unity side-scrolling arcade game. The player's plane flies to the right. A level spawner fills the space ahead with columns of obstacles and collectibles. After a set time the boss ("Godzilla") is brought in front of the player and fires homing lasers. The player shoots projectiles that destroy the first obstacle they touch.

The model covers the per-frame bookkeeping of the seven game scripts:

- **`Spawning`** (`level_spawner.dfy`, LevelSpawner.cs) covers the spawner:
  - the spawn cursor and its `while` loop, which emits evenly spaced columns;
  - the bounded redraw loop that places each item away from the player;
  - the boss clock and its one-way latch.
- **`Player`** (`player_plane_controller.dfy`, PlayerPlaneController.cs) covers the plane's frame: acceleration with the forward push, friction, the dash, the speed clamp, the position step and shooting, each gated by its cooldown.
- **`Godzilla`** (`godzilla.dfy`, Godzilla.cs) covers the boss:
  - its `AllBosses` registration;
  - its activation line;
  - the fire timer, which is gated on the player's x;
  - the jittered laser shot.
- **`HomingLasers`** (`homing_laser.dfy`, HomingLaser.cs) covers the laser: its registration, the initial aim, the per-frame steering, the movement and the lifetime.
- **`Projectiles`** (`projectile.dfy`, Projectile.cs) covers the shot's movement, the first-hit scan over `AllObstacles`, and its lifetime.
- **`Obstacles`** and **`Collectibles`** cover the two static lists, which entities join in `OnEnable` and leave in `OnDisable`.
- Shared modules:
  - **`Registries`** models those lists (C# `List<T>`): add-if-absent and `List.Remove`, with the no-duplicates invariant.
  - **`Geometry`** models Unity's `Vector2` operations over `real`.
  - **`Clock`** models runs of frames.
  - **`Options`** holds the `Option` type.

Engine services become explicit inputs and outputs:

- Each `Update`'s `Time.deltaTime` is a parameter `dt`.
- Each frame's keyboard and mouse input is a `Command` record.
- `Random.Range` draws are parameters:
  - jitter values for the boss;
  - a stream `rng: nat -> real` for the spawner. Its `Update` takes draws `rng(0)`, `rng(1)`, … in order and reports how many it used.
- `Instantiate` becomes a returned record that the engine would turn into an object: `Shot` for a projectile, `LaserShot` for a laser, `Column` for a column of obstacles and collectibles.
- `Destroy` sets a `destroyRequested` flag, because Unity carries out the destruction at the end of the frame.
- `gameObject.SetActive` is `Boss.SetActive`, which runs `OnEnable`/`OnDisable` when the state changes.
- Square roots are a parameter `sqrt` with one stated assumption, `IsSqrt`. All other arithmetic is exact.
- Distance tests are written as squared-distance tests. `WithinIsDistanceTest` and `CloserIsDistanceTest` prove them equal to the engine's `Distance(p, q) <= r` and `Distance(p, q) < r`.

Source paths below are relative to the repository root.

## Model

| member | source | states |
|---|---|---|
| Geometry.WithinIsDistanceTest | AIP_A3/Assets/Scenes/Scipts/Projectile.cs:43-46 | The squared overlap test holds exactly when the centre distance is at most the sum of radii. Both directions are proved, for every reach. |
| Geometry.CloserIsDistanceTest | AIP_A3/Assets/Scenes/Scipts/LevelSpawner.cs:107 | The squared closeness test holds exactly when `Vector2.Distance(pos, player) < minDistanceFromPlayer`. Both directions are proved. |
| Geometry.NormalizedIsUnitOrZero | AIP_A3/Assets/Scenes/Scipts/PlayerPlaneController.cs:39 | `normalized` gives a vector of length one when the magnitude exceeds `kEpsilon`, and the zero vector otherwise. |
| Geometry.NormalizedSameDirection | AIP_A3/Assets/Scenes/Scipts/HomingLaser.cs:45 | `normalized` keeps the direction: the result is a non-negative multiple of the input. |
| Geometry.AboveThresholdNormalizes | AIP_A3/Assets/Scenes/Scipts/HomingLaser.cs:44-45 | A vector whose squared length passes a threshold of at least `kEpsilon²` (0.001 or 0.01 here) normalises to length one. |
| Geometry.NormalizedZero | AIP_A3/Assets/Scenes/Scipts/HomingLaser.cs:80 | The zero vector normalises to zero. |
| Geometry.NormalizedUnitIsIdentity | AIP_A3/Assets/Scenes/Scipts/PlayerPlaneController.cs:102 | Re-normalising a unit vector returns it unchanged, as when the dash re-normalises the already normalised input. |
| Geometry.LerpFull | AIP_A3/Assets/Scenes/Scipts/HomingLaser.cs:80 | `Lerp` clamps its parameter, so a parameter of one or more lands exactly on the end point. |
| Geometry.MoveTowardsZero | AIP_A3/Assets/Scenes/Scipts/PlayerPlaneController.cs:56-60 | `MoveTowards(v, zero, d)` with `d >= 0` gives a multiple `k·v` with `0 <= k <= 1`, so it never overshoots zero. The result is at most `d` away from `v`. |
| Geometry.MoveTowardsZeroFar | AIP_A3/Assets/Scenes/Scipts/PlayerPlaneController.cs:59 | When `v` is longer than the step `d`, `MoveTowards` scales it by `1 - d/|v|`, a factor in (0, 1]. |
| Registries.Insert | AIP_A3/Assets/Scenes/Scipts/Obstacles.cs:14-17 | After add-if-absent the entity is listed. A listed entity leaves the list unchanged. An unlisted one is appended at the end. |
| Registries.IndexOf | AIP_A3/Assets/Scenes/Scipts/Obstacles.cs:22 | The position `List.Remove` finds is the first occurrence: it holds `x`, and no earlier entry does. |
| Registries.InsertIdempotent | AIP_A3/Assets/Scenes/Scipts/Obstacles.cs:14-17 | A second `OnEnable` changes nothing. |
| Registries.InsertKeepsNoDuplicates | AIP_A3/Assets/Scenes/Scipts/Collectable.cs:13-19 | `OnEnable` keeps the list free of duplicates. |
| Registries.RemoveFirstRemovesAll | AIP_A3/Assets/Scenes/Scipts/Obstacles.cs:20-23 | In a duplicate-free list, `OnDisable` leaves the entity absent. |
| Registries.RemoveFirstKeepsNoDuplicates | AIP_A3/Assets/Scenes/Scipts/Collectable.cs:21-24 | `OnDisable` keeps the list free of duplicates. |
| Registries.RemoveFirstAt | AIP_A3/Assets/Scenes/Scipts/Obstacles.cs:22 | After a removal, entries before the removed one keep their index and later ones move up by one, so relative order is kept. |
| Registries.RemoveFirstLength | AIP_A3/Assets/Scenes/Scipts/Collectable.cs:23 | Removing an absent entity changes nothing. Removing a present one shortens the list by one. |
| Registries.RemoveFirstKeepsOthers | AIP_A3/Assets/Scenes/Scipts/Obstacles.cs:22 | Every other entity is listed after a removal exactly when it was before. |
| Registries.RemoveAfterInsert | AIP_A3/Assets/Scenes/Scipts/Obstacles.cs:12-23 | Disabling an entity that was just enabled, and was not listed before, restores the list. |
| Registries.LiveList.Contains | AIP_A3/Assets/Scenes/Scipts/Obstacles.cs:14 | `List.Contains` is membership in the list's contents. |
| Registries.LiveList.Add | AIP_A3/Assets/Scenes/Scipts/Obstacles.cs:16 | `List.Add` appends at the end. |
| Registries.LiveList.Remove | AIP_A3/Assets/Scenes/Scipts/Obstacles.cs:22 | `List.Remove` drops the first occurrence and reports whether there was one. |
| Obstacles.Obstacle.OnEnable | AIP_A3/Assets/Scenes/Scipts/Obstacles.cs:12-18 | `AllObstacles` becomes `Insert(old, this)`. A duplicate-free list stays duplicate-free. |
| Obstacles.Obstacle.OnDisable | AIP_A3/Assets/Scenes/Scipts/Obstacles.cs:20-23 | `AllObstacles` becomes `RemoveFirst(old, this)`. In a duplicate-free list the obstacle is then absent and no duplicates appear. |
| Collectibles.Collectible.OnEnable | AIP_A3/Assets/Scenes/Scipts/Collectable.cs:13-19 | `AllCollectibles` becomes `Insert(old, this)`. A duplicate-free list stays duplicate-free. |
| Collectibles.Collectible.OnDisable | AIP_A3/Assets/Scenes/Scipts/Collectable.cs:21-24 | `AllCollectibles` becomes `RemoveFirst(old, this)`. In a duplicate-free list the collectible is then absent and no duplicates appear. |
| Projectiles.FirstHit | AIP_A3/Assets/Scenes/Scipts/Projectile.cs:38-52 | If a hit is reported, it is a live obstacle that overlaps the shot, and no earlier one does. If none is reported, no live obstacle overlaps. |
| Projectiles.Projectile.CheckCollisionWithObstacles | AIP_A3/Assets/Scenes/Scipts/Projectile.cs:35-54 | Only the obstacle that `FirstHit` picks gets a destroy request, together with the shot. With no hit, no obstacle and not the shot is touched. The list and every `destroyed` flag stay unchanged. |
| Projectiles.Projectile.Update | AIP_A3/Assets/Scenes/Scipts/Projectile.cs:15-33 | The frame moves the shot by `velocity·dt`, then scans from the new position, then ages: `timer` grows by `dt`. Destruction is requested after a hit or once `timer >= lifetime`. |
| Player.CooldownCountsDown | AIP_A3/Assets/Scenes/Scipts/PlayerPlaneController.cs:31-34 | A cooldown changes only while positive, and then by exactly `dt`. With `dt >= 0` it never grows. |
| Player.CooldownMeasuresElapsedTime | AIP_A3/Assets/Scenes/Scipts/PlayerPlaneController.cs:31-34 | A cooldown set to `t` equals `t` minus the elapsed time, through the frame in which the elapsed time first reaches `t`. So it is ready exactly when `t` seconds have passed. |
| Player.ClampSpeedBound | AIP_A3/Assets/Scenes/Scipts/PlayerPlaneController.cs:66-69 | After the clamp the speed is at most `maxSpeed`. A velocity that is not too fast is unchanged. |
| Player.FrictionBrakesTowardZero | AIP_A3/Assets/Scenes/Scipts/PlayerPlaneController.cs:56-60 | Below the 0.01 input threshold, friction scales the velocity by a factor in [0, 1] and changes it by at most `friction·dt`. With input there is no friction. |
| Player.DashDirectionIsUnit | AIP_A3/Assets/Scenes/Scipts/PlayerPlaneController.cs:98-107 | The dash direction has length one. Above the 0.01 threshold it is the input direction itself; otherwise it is `(1, 0)`. |
| Player.PlayerPlaneController.Update | AIP_A3/Assets/Scenes/Scipts/PlayerPlaneController.cs:26-85 | The new velocity is the clamp of the driven velocity plus the dash impulse when dashing. The driven velocity is the acceleration with the forward push only when `horizontal >= 0`, then friction without input. `pos` moves by exactly `velocity·dt`. Both cooldowns tick and are reset only by their action. A shot at the new position with velocity `(projectileSpeed, 0)` comes exactly when firing is ready and pressed. |
| Player.PlayerPlaneController.HandleDash | AIP_A3/Assets/Scenes/Scipts/PlayerPlaneController.cs:87-115 | A dash happens exactly when the cooldown is `<= 0` and Space went down. It adds `dashDir·dashBoost` and sets the cooldown to `dashCooldown`. Otherwise nothing changes. |
| Player.PlayerPlaneController.HandleShooting | AIP_A3/Assets/Scenes/Scipts/PlayerPlaneController.cs:117-136 | A shot comes exactly when the cooldown is `<= 0`, a fire input went down and a prefab is assigned. Then the cooldown becomes `fireCooldown`. Otherwise it is unchanged. |
| Godzilla.FireRunBudget | AIP_A3/Assets/Scenes/Scipts/Godzilla.cs:81-87 | Over any run of armed frames with `dt >= 0`: at most one fire attempt per frame; each attempt uses up a whole `fireInterval` of the elapsed time; the timer stays in `[0, fireInterval)`. |
| Godzilla.Boss.OnEnable | AIP_A3/Assets/Scenes/Scipts/Godzilla.cs:29-35 | `AllBosses` becomes `Insert(old, this)`, keeping it duplicate-free. |
| Godzilla.Boss.OnDisable | AIP_A3/Assets/Scenes/Scipts/Godzilla.cs:37-40 | `AllBosses` becomes `RemoveFirst(old, this)`. In a duplicate-free list the boss is then absent. |
| Godzilla.Boss.SetActive | AIP_A3/Assets/Scenes/Scipts/LevelSpawner.cs:60 | Activation runs `OnEnable` only on a change to active, and `OnDisable` only on a change to inactive. Otherwise the list is unchanged. |
| Godzilla.Boss.Start | AIP_A3/Assets/Scenes/Scipts/Godzilla.cs:43-69 | `activationX` becomes `x - 3`, whatever was configured. A missing player is taken from the tagged object; an assigned one is kept. |
| Godzilla.Boss.Update | AIP_A3/Assets/Scenes/Scipts/Godzilla.cs:72-88 | With no player, or the player short of `activationX`, nothing changes. Otherwise the timer advances by `dt`; on reaching `fireInterval` one attempt is made and the timer is 0. A shot exists only if a prefab is assigned, and `shotsFired` counts exactly the shots. The shot lies within ±0.3 of the boss on each axis. |
| Godzilla.Boss.FireHomingLaser | AIP_A3/Assets/Scenes/Scipts/Godzilla.cs:92-113 | Without a prefab: no laser and no count. Otherwise: a laser at the jittered position, aimed at the player, and `shotsFired` one higher. |
| HomingLasers.InitialDirectionIsUnit | AIP_A3/Assets/Scenes/Scipts/HomingLaser.cs:41-48 | The initial direction always has length one. It points straight at a target farther than the 0.001 threshold, and is `(1, 0)` otherwise. |
| HomingLasers.SteerIsUnitOrZero | AIP_A3/Assets/Scenes/Scipts/HomingLaser.cs:76-81 | Steering leaves the direction alone when the target is within the threshold. Otherwise the new direction has length one or is zero. |
| HomingLasers.SteerFullTurn | AIP_A3/Assets/Scenes/Scipts/HomingLaser.cs:79-80 | With `turnSpeed·dt >= 1`, one frame of steering lands exactly on the direction `Init` would pick. |
| HomingLasers.SteerCanStall | AIP_A3/Assets/Scenes/Scipts/HomingLaser.cs:80 | The zero case happens. Heading right with the target straight behind and a half turn (`turnSpeed = 4`, `dt = 0.125`), the interpolated vector is zero, so the direction becomes zero. |
| HomingLasers.HomingLaser.OnEnable | AIP_A3/Assets/Scenes/Scipts/HomingLaser.cs:22-26 | `AllLasers` becomes `Insert(old, this)`, keeping it duplicate-free. |
| HomingLasers.HomingLaser.OnDisable | AIP_A3/Assets/Scenes/Scipts/HomingLaser.cs:28-31 | `AllLasers` becomes `RemoveFirst(old, this)`. In a duplicate-free list the laser is then absent. |
| HomingLasers.HomingLaser.Init | AIP_A3/Assets/Scenes/Scipts/HomingLaser.cs:36-54 | The target is stored and `initialized` is set. The direction is `InitialDirection` toward the target, or `(1, 0)` for a null target. |
| HomingLasers.HomingLaser.Update | AIP_A3/Assets/Scenes/Scipts/HomingLaser.cs:57-101 | Only with a target after `Init` does the direction steer; otherwise it is unchanged. In every branch the position moves by `direction·speed·dt` along the new direction and `timer` grows by `dt`. Destruction is requested once `timer >= lifetime`. |
| Spawning.DueColumnsShape | AIP_A3/Assets/Scenes/Scipts/LevelSpawner.cs:76-80 | The columns due from cursor `x` are `x + i·step`, each within the horizon. The next step, `x + n·step`, is beyond it. |
| Spawning.DueColumnsIncreasing | AIP_A3/Assets/Scenes/Scipts/LevelSpawner.cs:76-80 | The columns of one frame have strictly increasing x. |
| Spawning.DueColumnsExample | AIP_A3/Assets/Scenes/Scipts/LevelSpawner.cs:12-14 | With the defaults (cursor 3, step 2, horizon 5) the first frame spawns the columns at 3 and 5. |
| Spawning.LevelSpawner.Start | AIP_A3/Assets/Scenes/Scipts/LevelSpawner.cs:33-61 | With the player, boss or either prefab missing, the spawner disables itself and nothing else changes. Otherwise the cursor is `player.x + firstSpawnOffsetX` and the boss is inactive, having left `AllBosses` if it was active. |
| Spawning.LevelSpawner.Update | AIP_A3/Assets/Scenes/Scipts/LevelSpawner.cs:64-88 | `timer` always grows by `dt`. Once the latch is set nothing else changes. Otherwise, first, the columns are `DueColumns` from the old cursor and the cursor ends one step past the last of them, beyond the horizon. Each column's items are placed by the retry rule, the columns one after another from `rng(0)`, and `draws` is the total they took (`ColumnsTook`). Then, at `timeToBoss`, the boss is moved to `player.x + bossSpawnAheadX` at its own height and activated, and the latch is set. |
| Spawning.LevelSpawner.SpawnAhead | AIP_A3/Assets/Scenes/Scipts/LevelSpawner.cs:76-80 | The loop emits exactly `DueColumns` from the old cursor. The cursor ends one step past the last column, beyond the horizon. Column `i` is placed by the retry rule from draw `starts[i]`, where column `i - 1` left off, and `draws` is the total. |
| Spawning.LevelSpawner.SpawnColumn | AIP_A3/Assets/Scenes/Scipts/LevelSpawner.cs:92-129 | The column is at `x` with exactly `obstaclesPerStep` obstacles and then `collectiblesPerStep` collectibles (none for a negative count). Each y is `Placed` by the retry rule from the draw where the item before it left off, the first from `rng(start)`. `used` is the total number of draws. |
| Spawning.LevelSpawner.PlaceItem | AIP_A3/Assets/Scenes/Scipts/LevelSpawner.cs:98-107 | Placing one item keeps the retry rule (`Placed`): 1 to 11 draws, the last one kept. Every earlier draw was too close to the player. Fewer than 11 draws means the kept one is not too close. |
| Spawning.DrawsFrom | AIP_A3/Assets/Scenes/Scipts/LevelSpawner.cs:98-107 | Counting on from `made` draws known to be too close, the placement ends after more than `made` and at most 11 draws. |
| Spawning.DrawsFromPlaced | AIP_A3/Assets/Scenes/Scipts/LevelSpawner.cs:98-107 | The count `DrawsFrom` gives, with its last draw kept, is a placement that keeps the retry rule. |
| Spawning.PlacedDetermined | AIP_A3/Assets/Scenes/Scipts/LevelSpawner.cs:98-107 | The retry rule leaves no choice. Two placements from the same draw that keep it took the same number of draws and kept the same y. |
| Spawning.DrawsPlaced | AIP_A3/Assets/Scenes/Scipts/LevelSpawner.cs:98-107 | A placement keeps the retry rule exactly when it took `Draws` draws and kept the last one. Both directions are proved. |
| Spawning.PlacedRunStep | AIP_A3/Assets/Scenes/Scipts/LevelSpawner.cs:95-128 | Placing one more item, from the draw where the run left off, extends the run. |
| Spawning.PlacedRunBounds | AIP_A3/Assets/Scenes/Scipts/LevelSpawner.cs:95-128 | A run of `n` items took between `n` and `11·n` draws. When every draw lies in `[lo, hi]`, so does every kept y. |
| Spawning.PlacedRunDetermined | AIP_A3/Assets/Scenes/Scipts/LevelSpawner.cs:95-128 | Two runs of the same length from the same draw keep the same ys and take the same draws, so a column is fixed by its `rng` and its first draw. |
| Spawning.ColumnTookShaped | AIP_A3/Assets/Scenes/Scipts/LevelSpawner.cs:92-129 | When every draw lies in `[minY, maxY]`, a column placed by the retry rule has its counts and every y in that range. It took between 1 and 11 draws per item. |
| Spawning.ColumnsTookShaped | AIP_A3/Assets/Scenes/Scipts/LevelSpawner.cs:76-80 | When every draw lies in `[minY, maxY]`, every column of a frame has its counts and every y in range. |
| Spawning.ColumnsTookStep | AIP_A3/Assets/Scenes/Scipts/LevelSpawner.cs:76-80 | One more column, placed from the draw where the frame's columns left off, extends them. |
| Spawning.DueColumnsNext | AIP_A3/Assets/Scenes/Scipts/LevelSpawner.cs:76-80 | No column is due exactly when the cursor is beyond the horizon. Each due column is within the horizon and the next is one step further. One step past the last one is beyond the horizon. |
| Spawning.LevelSpawner.SpawnBossInFront | AIP_A3/Assets/Scenes/Scipts/LevelSpawner.cs:133-145 | The boss moves to `player.x + bossSpawnAheadX` with its y unchanged and becomes active, joining `AllBosses` if it was inactive. No other boss field changes. |

## Left out

- Rendering and engine presentation are not modelled:
  - sprite rotation with `Atan2` (HomingLaser.cs:88-93);
  - gizmos;
  - every `Debug.Log` message.
- CameraFollow.cs and UIManager.cs are not part of this model. They only move the camera and set text.
- The player's collisions with obstacles, collectibles, lasers and the boss, the score, and winning or losing are not modelled. None of the modelled scripts performs them. `requiredScoreToDefeat` and the radii are kept as data only.
- Floating point is not modelled: every quantity is an exact `real`, so rounding and drift are not captured.
  - `sqrt` is an oracle parameter. `IsSqrt(sqrt)` says only that it returns the non-negative root.
- `Instantiate` is not modelled as object creation. The model returns the event (`Shot`, `LaserShot`, `Column`); creating the object, running its `OnEnable`, and handing a laser its target are for the engine.
- Spawning.LevelSpawner.Update: the model requires `spawnStepX > 0`. With a step of zero or less the source's `while` loop never ends once it starts.
- Spawning.LevelSpawner.Update: the model requires `Configured()`. The engine runs `Update` only while the spawner is enabled. A successful `Start` is the only way to stay enabled, and without it `player.position` would throw.
- The `rng` stream is only assumed to stay within `[minY, maxY]`, and Boss.Update's jitters within ±0.3. Their distribution is not modelled.
- Player.PlayerPlaneController.HandleShooting: with no prefab, `Instantiate` throws. The model gives no shot and leaves the cooldown unchanged, which is what the aborted frame does since `HandleShooting` is the last step. A prefab without a `Projectile` component, which would throw after creating the object, is not modelled.
- Godzilla.Boss.Update: `shotsFired` is an unbounded integer. C# `int` overflow after 2³¹ shots is not modelled.
- Godzilla.Boss.Update: the engine calls it only while the boss is active, and the model does not check `active`. The field `hasActivated` is never used by the source and is left out.
- HomingLasers.HomingLaser.Update: the target is the player's controller object. The player being destroyed, so that Unity's `target == null` becomes true, is not modelled.
- The order in which Unity calls `Start` on scripts is not modelled. Each `Start` is a method the caller runs.
- When `Godzilla.Boss.Start` runs is not modelled. Unity runs it once, either at scene load or at the boss's first activation by `SpawnBossInFront` (LevelSpawner.cs:144). Which one it is depends on the unmodelled order of the two `Start` calls. The choice matters because `Start` sets `activationX` from the boss's x at that moment: its load-time position, or `player.x + bossSpawnAheadX` once moved in front of the player.
- HomingLasers.SteerIsUnitOrZero: the direction is not always a unit vector. When the interpolated vector is shorter than `kEpsilon` the laser's direction becomes zero for that frame, as the source does; `SteerCanStall` shows such a case.
