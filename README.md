# SpaceTanks core, modelled in Dafny

SpaceTanks is a small vector-graphics tank game. It runs at 240 ticks per
second and does all of its arithmetic in fixed point. This project models
the game's simulation core:

- **The collision registry.** It is a static pool of 48 collider slots, and a
  slot is free exactly when its mask is 0. It offers first-fit allocation,
  freeing and reset. `CollisionObject::Configure` flattens a 3D pose onto the
  ground plane. `Collisions::Test` is a read-only scan that filters slots by
  mask, then by a Manhattan pre-filter, then by a circle test. In box mode it
  adds an oriented-box test in the slot's local frame. When contact detail is
  asked for, it runs a swept narrow phase that finds the crossed edge and
  builds a contact point and normal.
- **The entity pools that use the registry.**
  - Projectiles: 5 slots with a lifetime countdown, a swept probe each tick,
    and a reaction to hits. The reaction spawns particles and destroys enemy
    tanks.
  - Particles: 128 slots. A particle is active iff its unsigned tick counter
    is non-zero.
  - Enemy tanks: 4 slots. Each runs a TurnToPlayer / Move / Dead behaviour
    machine and owns one collider. The tanks share 5 debris chunks.
- **The static obstacle field.** It is a table of 21 obstacles of four types
  that registers 32 colliders. Obstacle brightness fades with ground
  distance from the camera.
- **The player's tank.** Turning, driving and firing, with the button
  states as inputs.

Each pool is a `class` whose slots are an `array` of datatype records. The
class's methods update the slots in place, and each method's `ensures`
clauses state the new array contents and counters in terms of pure
functions on one slot (`Launched`, `Moved`, `Stepped`, `Activated`,
`Destroyed`, `Updated`, `Configured`, ...). The properties the game relies
on are then proved about those functions as lemmas.

Modelling conventions:

- **Collider handles** are slot indices. Pointer identity of
  `CollisionObject&` becomes index equality.
- **Masks** are `bv32`.
- **Scalars** are exact `real`s.
- **External inputs are parameters:**
  - the sine table (`sinCos: real -> Trig`);
  - `ApproxATan2` (`atan2`);
  - the random draws (`SpawnDraw`, `lifeDraw`, `debrisDraw`, `velocityOf`);
  - the button states.

Modules, in dependency order:

- `Wrappers` and `Geometry`: `Option`, vectors, and rigid 2D/3D transforms.
- `GameConstants`: tick rate and intensity scale.
- `CollisionTypes`: masks, colliders, probes, contacts.
- `Collisions`: the registry.
- `CollisionsHeadOn`: a worked narrow-phase example.
- `Particles`.
- `Projectiles`: the pool.
- `EnemyTanks`.
- `ProjectileFlight`: the per-tick flight and hit reaction. It is a separate
  module because it calls into both the projectile pool and the enemy tanks.
- `Obstacles`.
- `PlayerTank`.

## Model

| member | source | states |
|---|---|---|
| CollisionTypes.MasksAreDistinctBits | src/collisions.h:25-28 | the four capability masks are the single bits 1, 2, 4, 8 and pairwise disjoint |
| CollisionTypes.MakeTester | src/collisions.cpp:43-51 | a probe keeps the radius and mask, and takes the X and Z components of the 3D position and step as its 2D position and step |
| CollisionTypes.TesterIgnoresHeight | src/collisions.cpp:43-51 | the probe does not depend on the heights of the position and step it is built from |
| Collisions.SentinelMatchesNoFlags | src/collisions.cpp:61-74 | the 0x1000 allocation sentinel shares no bit with any mask built from the capability flags |
| Collisions.Configured | src/collisions.cpp:28-41 | a configured collider keeps the mask, half width and surface angle as given, and its centre and frame origin are the pose's X/Z translation |
| Collisions.ConfiguredCircleCoversBox | src/collisions.cpp:39 | the bounding radius hbw × 1.4142136 is at least the half width and covers the square footprint's corners (r² ≥ 2·hbw²) |
| Collisions.ConfiguredFramesAreInverse | src/collisions.cpp:33-36 | for a rigid flattened pose, the stored world-to-local transform is a two-sided inverse of local-to-world and maps the centre to the local origin |
| Collisions.ManhattanFilterSound | src/collisions.cpp:90-109 | the Manhattan pre-filter dx+dz ≤ 2w never rejects a pair that lies within sqrt 2 · w |
| Collisions.CircleImpliesManhattan | src/collisions.cpp:90-109 | on a collider with radius hbw × 1.4142136, a probe whose circle test passes also passes the Manhattan pre-filter, whenever the probe radius is at least hbw / 10⁷ (the projectile probe's 0.01 against half widths up to 0.75 qualifies) |
| Collisions.ZeroRadiusSliver | src/collisions.cpp:90-109 | for a zero-radius probe at (1.00000002, 1.00000002) against a unit collider at the origin, the circle test passes and the Manhattan pre-filter rejects, because 1.4142136 exceeds sqrt 2 |
| Collisions.Canonicalise | src/collisions.cpp:135-151 | after flipping, both step components are non-positive; an axis is flipped iff its local step was positive; flipping back restores the position and step |
| Collisions.SweptContactAsWritten | src/collisions.cpp:154-209 | the contact as the source builds it exists iff an edge was crossed, and names the tested slot |
| Collisions.AsWrittenFractionInRange | src/collisions.cpp:164-173 | on a crossed axis the source's fraction (hbw−cur)/(prev−cur) lies in (0, 1] |
| Collisions.AsWrittenAxisIsCrossed | src/collisions.cpp:181-192 | the axis the source picks (x only when xt > yt) is always a crossed axis, with a strictly negative local step |
| Collisions.AsWrittenHitOffEdge | src/collisions.cpp:184-190 | on the struck axis, in the flipped frame, the source's hit coordinate prev + delta·t equals prev + cur − hbw, which is the edge only when prev + cur = 2·hbw |
| Collisions.StruckAxis | src/collisions.cpp:181-192 | the corrected axis choice is a crossed axis whose edge was reached no earlier than any other crossed axis's |
| Collisions.SweptContact | src/collisions.cpp:154-209 | the corrected contact exists iff an edge was crossed, and names the tested slot |
| Collisions.EntryHitsEdge | src/collisions.cpp:164-192 | the corrected entry fraction lies in [0, 1), the struck local step is negative, and the hit point lies exactly on the crossed edge |
| Collisions.ContactNormal | src/collisions.cpp:176-208 | on the struck axis the local normal is +cos when the local step there was ≤ 0 and −cos when it was > 0, and 0 on the other axis; the world normal's height is the surface sine, 0 for surface angle 0 |
| Collisions.MaskIndependence | src/collisions.cpp:87 | a slot whose mask shares no bit with the probe's is never accepted, whatever the geometry |
| Collisions.UnconfiguredNeverMatches | src/collisions.cpp:61-87 | a slot allocated but not yet configured never matches a query built from the capability flags |
| Collisions.LastAccepted | src/collisions.cpp:85-216 | the last slot in index order that the query accepts: accepted, none accepted after it, and None iff no slot is accepted |
| Collisions.InfoWritten | src/collisions.cpp:203-215 | contact detail is written only in box mode with detail, only for an accepted slot, and exists iff some slot is accepted |
| Collisions.StepRejected | src/collisions.cpp:85-216 | a slot the query rejects leaves the running result and the written contact unchanged |
| Collisions.StepAccepted | src/collisions.cpp:85-216 | a slot the query accepts becomes the running result, and its contact overwrites the written one |
| Collisions.FirstFreeFrom | src/collisions.cpp:61-74 | the first-fit scan finds a free slot with every earlier slot in use, and finds none iff no slot from i on is free |
| Collisions.FreeCountBounded | src/collisions.cpp:61-74 | the free count is at most the pool size, and positive iff the first-fit scan succeeds |
| Collisions.FreeCountUpdate | src/collisions.cpp:61-79 | overwriting one slot changes the free count only by that slot's change between free and in use |
| Collisions.FreeCountAllFree | src/collisions.cpp:53-59 | a pool with every mask 0 has all slots free |
| Collisions.AllocateFreeAllocate | src/collisions.cpp:61-79 | allocate, free, allocate on an otherwise unchanged pool returns the same slot, and an allocation never returns a slot that is still live |
| Collisions.Collisions.constructor | src/collisions.cpp:26 | the static pool starts zero-initialised, so every slot is free |
| Collisions.Collisions.Reset | src/collisions.cpp:53-59 | every slot's mask becomes 0 and every other field is kept; all 48 slots are free |
| Collisions.Collisions.AllocateObject | src/collisions.cpp:61-74 | needs a free slot (the source asserts); returns the lowest-index free slot, marks it with the sentinel, changes no other slot, and the free count drops by one |
| Collisions.Collisions.FreeObject | src/collisions.cpp:76-79 | only that slot's mask becomes 0 |
| Collisions.Collisions.Configure | src/collisions.cpp:28-41 | only slot h changes, and it becomes the configured collider |
| Collisions.Collisions.Test | src/collisions.cpp:81-219 | changes nothing; reports a hit iff some slot is accepted; the contact is the last accepted slot's (in box mode with detail), and then a hit iff a contact is written |
| CollisionsHeadOn.ConfiguredUnitBox | src/collisions.cpp:28-41 | configuring an identity pose at the origin with half width 1 and no tilt gives an unrotated unit box at the origin |
| CollisionsHeadOn.HeadOnSweep | src/collisions.cpp:164-209 | a probe swept from (3, 0) to (0, 0) into a unit box gets, with the entry fraction, the contact (1, 0, 0) on the face with normal (1, 0, 0) |
| CollisionsHeadOn.HeadOnSweepAsWritten | src/collisions.cpp:164-209 | the same sweep as the source computes it puts the contact at (2, 0, 0), off the face |
| CollisionsHeadOn.HeadOnFractions | src/collisions.cpp:158-192 | on that sweep only the x edge is crossed; the entry fraction is 2/3, the source's fraction is 1/3, and both pick x |
| Particles.Dec32 | src/particles.h:54 | decrementing the unsigned tick counter wraps 0 to 2^32 − 1 and otherwise subtracts one |
| Particles.NewParticle | src/particles.cpp:31-38 | a fresh particle is inactive and well formed, with a lifetime of 60 to 240 ticks and start brightness in [0.075, 0.3] |
| Particles.Activated | src/particles.cpp:58-64 | after activation the particle is at the given position and velocity, with ticks = start ticks and brightness = start brightness; it is active iff the start ticks are non-zero |
| Particles.DeActivated | src/particles.cpp:66-69 | after deactivation the particle is inactive, and only its tick count changed |
| Particles.Stepped | src/particles.cpp:40-56 | an update decrements the counter; a particle that reaches 0 is deactivated where it stands; one still active is at or above the ground |
| Particles.SteppedActive | src/particles.cpp:40-56 | on an active well-formed particle the decrement never wraps, the particle stays well formed, and its brightness stays in [0, start brightness] |
| Particles.ChosenCount | src/particles.cpp:144-161 | with count ≥ 1, Spawn activates min(count, number of inactive) particles |
| Particles.ChosenAll | src/particles.cpp:144-161 | with count ≤ 0 the break is never reached, and every inactive particle is activated |
| Particles.ChosenArePrefix | src/particles.cpp:144-161 | Spawn fills the lowest-index inactive slots: an inactive slot before a chosen one is chosen too |
| Particles.ParticlePool.constructor | src/particles.cpp:31-38 | every particle is constructed from its own random draw and is inactive |
| Particles.ParticlePool.Reset | src/particles.cpp:84-90 | every particle is inactive, and only tick counts changed |
| Particles.ParticlePool.Update | src/particles.cpp:92-98 | active particles are stepped, each counting down by exactly one, and inactive ones are untouched |
| Particles.ParticlePool.Spawn | src/particles.cpp:115-162 | slot i becomes the chosen activation at pos when Spawn chooses it, and is unchanged otherwise |
| Projectiles.Launched | src/projectiles.cpp:74-82 | a launched projectile is active with 360 ticks, the given mask and pose, and a step of TranslationSpeed along the parent's model x axis |
| Projectiles.Moved | src/projectiles.cpp:40-47 | a tick takes one off the lifetime; at zero the projectile goes inactive without moving, otherwise it moves one step |
| Projectiles.ActiveCountUpdate | src/projectiles.cpp:74-88 | overwriting one slot changes the active count only by that slot's change of activity |
| Projectiles.ActiveCountNone | src/projectiles.cpp:98 | a pool with no active slot has count 0 |
| Projectiles.ProjectilePool.constructor | src/projectiles.cpp:98 | all 5 slots start zeroed and inactive, and the counter starts at 0 |
| Projectiles.ProjectilePool.Activate | src/projectiles.cpp:74-82 | slot idx becomes Launched(...) and the counter rises by one, still equal to the number of active slots |
| Projectiles.ProjectilePool.DeActivate | src/projectiles.cpp:84-88 | only slot idx's active flag clears and the counter drops by one |
| Projectiles.ProjectilePool.Fly | src/projectiles.cpp:42-47 | slot idx becomes Moved(...), and it is uncounted when its lifetime runs out |
| Projectiles.ProjectilePool.Create | src/projectiles.cpp:125-133 | an inactive slot is launched and counted; on an active slot nothing changes |
| Projectiles.ProjectilePool.Reset | src/projectiles.cpp:101-107 | every slot is inactive with its other fields kept, and the counter is 0 |
| ProjectileFlight.Flown | src/projectiles.cpp:40-66 | one tick off the lifetime; a contact is reported only for a slot of the registry and leaves the projectile inactive; the projectile flies on iff it has lifetime left and strikes nothing |
| ProjectileFlight.StrikesOnlyMatching | src/projectiles.cpp:47-66 | a projectile strikes only a collider its probe is accepted by; with no such collider it flies on, one step further |
| ProjectileFlight.ShotsPassTankOnlyObstacles | src/projectiles.cpp:48-50 | neither kind of shot ever strikes a collider that only blocks tanks |
| ProjectileFlight.CoastFlying | src/projectiles.cpp:40-47 | an active projectile that hits nothing is still flying after n ticks while n is below its lifetime, n steps further on |
| ProjectileFlight.LaunchedRange | src/projectiles.cpp:30 | a launched projectile that hits nothing flies 359 steps and is gone on tick 360 |
| ProjectileFlight.Impact | src/projectiles.cpp:53-64 | 64 particles are spawned at the hit iff the struck mask meets ProjectileObstacle or Enemy; the owning enemy tanks are destroyed iff it has the Enemy bit; otherwise nothing changes |
| ProjectileFlight.UpdateProjectile | src/projectiles.cpp:40-66 | the slot becomes Flown(...) against the registry, which is only read; a contact triggers the particle and enemy reactions at the hit point raised to the projectile's height |
| ProjectileFlight.Update | src/projectiles.cpp:109-115 | every active slot flies one tick in index order, and inactive slots are untouched |
| EnemyTanks.PhaseLength | src/enemytanks.cpp:46-51 | every phase lasts at least one second of ticks |
| EnemyTanks.NextBehaviour | src/enemytanks.cpp:139-156 | an expired phase never leads to Dead, and TurnToPlayer and Move alternate |
| EnemyTanks.Respawned | src/enemytanks.cpp:116-130 | a respawned tank is within 16 units of the origin on X and Z, at tank height, with yaw in [0, 2π] and the radar dish reset; nothing else changes |
| EnemyTanks.RadarStep | src/enemytanks.cpp:134-138 | the dish turns by its speed, wrapping once, and stays in [0, 2π] |
| EnemyTanks.CountDown | src/enemytanks.cpp:139-156 | one tick off the phase; on expiry the next phase starts with its full length, and a dead tank respawns into TurnToPlayer |
| EnemyTanks.WrapDiff | src/enemytanks.cpp:164-166 | the heading difference is wrapped by at most one turn into [−π, π] |
| EnemyTanks.TurnedYaw | src/enemytanks.cpp:167-176 | the yaw is unchanged within the aim tolerance; outside it, it steps toward the target by the rotation speed and stays in [0, 2π] |
| EnemyTanks.MoveStep | src/enemytanks.cpp:186-188 | a moving tank advances MoveSpeed along its model x axis |
| EnemyTanks.UpdatedKeepsTankOk | src/enemytanks.cpp:132-199 | an update keeps an active tank well formed (counter in [1, phase length], angles in [0, 2π]); only an aimed TurnToPlayer tank fires; a dead tank stands still |
| EnemyTanks.PhaseCycle | src/enemytanks.cpp:139-156 | the phases cycle TurnToPlayer, Move, TurnToPlayer, ..., and Dead leads back into the cycle |
| EnemyTanks.DebrisVelocity | src/enemytanks.cpp:228-232 | debris velocities are at most 5 units per second on X and Z, and between 0 and that upward |
| EnemyTanks.Destroyed | src/enemytanks.cpp:222-225 | a destroyed tank is Dead for the Dead phase length and stays well formed |
| EnemyTanks.LastOwner | src/enemytanks.cpp:319-325 | the last active tank in index order whose collider handle is obj, and None iff no tank owns obj |
| EnemyTanks.ActiveTanksUpdate | src/enemytanks.cpp:237-255 | rewriting one tank changes the active count only by that tank's change of activity |
| EnemyTanks.ActiveTanksNone | src/enemytanks.cpp:54 | a pool with no active tank has count 0 |
| EnemyTanks.SameShape | src/enemytanks.cpp:132-199 | rewriting a tank without touching its activity or collider keeps the count, the distinct-collider invariant and collider liveness |
| EnemyTanks.ReconfiguredSlots | src/enemytanks.cpp:198 | after the tank loop, each active tank's collider holds the enemy collider at that tank's updated pose (half width 0.3, Enemy mask, angle 0.3), dead tanks included, and no other slot changes |
| EnemyTanks.VolleysLaunchOnlyIdle | src/enemytanks.cpp:178-181 | tanks only launch idle projectile slots, so a shot in flight (the player's included) is never disturbed; a launched shot has full lifetime and the ProjectileObstacle / Player mask |
| EnemyTanks.FreedOwnedSlots | src/enemytanks.cpp:281-286 | the reset loop frees exactly the colliders owned by active tanks |
| EnemyTanks.EnemyTankPool.constructor | src/enemytanks.cpp:104 | every tank starts inactive with no collider, the count is 0, and every debris chunk is a freshly constructed particle |
| EnemyTanks.EnemyTankPool.Activate | src/enemytanks.cpp:237-247 | the tank is respawned, active, in TurnToPlayer with the full phase, and holds the first free collider, which is allocated; the count rises by one |
| EnemyTanks.EnemyTankPool.DeActivate | src/enemytanks.cpp:249-255 | the tank is inactive with a null handle, its collider is freed, and the count drops by one |
| EnemyTanks.EnemyTankPool.DestroyTank | src/enemytanks.cpp:222-235 | the tank becomes Destroyed(...) and every debris chunk is thrown from its position |
| EnemyTanks.EnemyTankPool.Destroy | src/enemytanks.cpp:319-325 | exactly the active tanks whose handle is obj are destroyed; the debris is thrown from the last of them, and is untouched when there is none |
| EnemyTanks.EnemyTankPool.UpdateTank | src/enemytanks.cpp:132-199 | the tank becomes Updated(...), its collider is reconfigured at the new pose, and its projectile slot is launched iff it is aimed and the slot is idle |
| EnemyTanks.EnemyTankPool.Update | src/enemytanks.cpp:294-304 | active tanks are updated in index order and inactive ones untouched; the registry and projectile pool change only as those updates say; active debris chunks take one particle step |
| EnemyTanks.EnemyTankPool.UpdateTanks | src/enemytanks.cpp:296-299 | the tank loop of the update, with the same per-tank, registry and projectile results |
| EnemyTanks.EnemyTankPool.UpdateDebris | src/enemytanks.cpp:300-303 | each active debris chunk takes one particle step, and inactive ones are untouched |
| EnemyTanks.EnemyTankPool.Reset | src/enemytanks.cpp:279-292 | tank i gets projectile slot i + 1; every tank but tank 0 is inactive; tank 0 is active in TurnToPlayer on the first free collider once the others are freed; the count is 1 |
| EnemyTanks.EnemyTankPool.ReleaseAll | src/enemytanks.cpp:281-286 | every tank gets its projectile slot and is inactive with no collider; the registry loses exactly the tanks' colliders; the count is 0 |
| EnemyTanks.EnemyTankPool.GetTransform | src/enemytanks.cpp:327-331 | the pose of an active tank, and None exactly for an inactive one |
| Obstacles.Int16 | src/obstacles.cpp:67-81 | a raw table word read as signed 16-bit: in [−32768, 32768) and congruent to the raw word mod 2^16 |
| Obstacles.Coord | src/obstacles.cpp:67-81 | a table coordinate (signed, 10 fraction bits) lies in [−32, 32) |
| Obstacles.Position | src/obstacles.cpp:67-81 | an obstacle's X and Z lie in [−32, 32), and its height is its type's model height yScale × 0.625 |
| Obstacles.TankMask | src/obstacles.cpp:143-145 | the tank collider always blocks tanks, and also blocks projectiles iff the two radii are equal |
| Obstacles.ColliderCountMono | src/obstacles.cpp:136-153 | registering more instances never uses fewer colliders |
| Obstacles.TypeColliders | src/obstacles.cpp:57-63 | the pyramids need a separate projectile collider, tall boxes block both with one collider, and short boxes block only tanks |
| Obstacles.TableRawOk | src/obstacles.cpp:83-106 | every table entry is a valid raw 16-bit coordinate pair |
| Obstacles.TableColliders | src/obstacles.cpp:83-106 | the 21 obstacles register exactly 32 colliders, and with the 4 enemy tanks that fits in the 48-slot registry |
| Obstacles.Placed | src/obstacles.cpp:138-153 | registering one obstacle uses up exactly its 1 or 2 free slots |
| Obstacles.PlacedRegisters | src/obstacles.cpp:138-153 | registering an obstacle never overwrites a live collider, and afterwards the registry holds its tank collider and, when needed, its projectile collider |
| Obstacles.FirstFitKeepsLive | src/collisions.cpp:61-74 | a first-fit write keeps every live slot, stores its collider, and marks only the chosen slot live |
| Obstacles.PlacedAll | src/obstacles.cpp:136-154 | registering the first n obstacles uses up exactly their colliders' free slots |
| Obstacles.PlaceAll | src/obstacles.cpp:136-154 | the loop registers each obstacle in table order |
| Obstacles.Init | src/obstacles.cpp:132-155 | with enough free slots, the whole table is registered in order and exactly 32 slots are used |
| Obstacles.PlaceOne | src/obstacles.cpp:138-153 | one loop iteration: allocate and configure the tank collider, then the projectile collider when needed |
| Obstacles.SquaredDistance | src/obstacles.cpp:109-130 | the squared ground distance is non-negative |
| Obstacles.FadeShape | src/obstacles.cpp:117-129 | the fade lies in [0, IntensityAdjustment], is full at distance 0, is positive iff within 32 units, and never increases with distance |
| Obstacles.ManhattanBeyondFade | src/obstacles.cpp:113-116 | beyond the Manhattan bound of 64 the point is certainly beyond the fade distance |
| Obstacles.IntensityIsFade | src/obstacles.cpp:109-130 | the Manhattan early-out never changes the result: the intensity is the fade of the squared distance, positive iff within 32 units, and full at the camera |
| Obstacles.IntensityFades | src/obstacles.cpp:109-130 | a nearer obstacle is never dimmer |
| PlayerTank.DampedTowardZero | src/player.cpp:66-78 | with no turn button, the yaw speed moves toward 0 by one step, never crosses 0, and stops within one step of it |
| PlayerTank.SteeredInRange | src/player.cpp:53-78 | the yaw speed stays within ±YawRate, moves by at most one step, drops under Left alone and rises under Right alone |
| PlayerTank.WrappedInRange | src/player.cpp:79-81 | the yaw stays in [0, 2π] and differs from yaw + yawSpeed by at most one whole turn |
| PlayerTank.ThrottledInRange | src/player.cpp:88-105 | the speed stays in [0, TopSpeed]; thrust never slows the tank and coasting never speeds it up |
| PlayerTank.ThrustRamp | src/player.cpp:88-96 | from rest, n ticks of thrust give min(n × Acceleration, TopSpeed) |
| PlayerTank.TurnRamp | src/player.cpp:60-65 | from rest, n ticks of Right give min(n × YawAcceleration, YawRate) |
| PlayerTank.ShotAlongHeading | src/player.cpp:106-125 | the tank drives, and its shot leaves, along the level heading (sin yaw, 0, cos yaw), and the shot starts at the tank's position |
| PlayerTank.Player.constructor | src/player.cpp:33-37 | the statics start at zero and satisfy the range invariant |
| PlayerTank.Player.Reset | src/player.cpp:44-48 | the position is (4, 0.5, 0) and the yaw 1.5π; the yaw speed, speed and velocity are kept |
| PlayerTank.Player.Update | src/player.cpp:50-126 | keeps the ranges; turns, throttles and moves along the new heading at height 0.625; launches slot 0 with the ProjectileObstacle / Enemy mask from the camera's pose iff fire was just pressed and the slot is idle |
| PlayerTank.Player.Turn | src/player.cpp:53-81 | the yaw speed is steered, then added to the yaw with a wrap, and both stay in range |
| PlayerTank.Player.Drive | src/player.cpp:88-108 | the speed is throttled, the velocity is the heading times the speed, and the position moves by it and is held at eye height |

## Left out

- **Fixed-point numerics.** Every fixed-point scalar is an exact `real`: no
  rounding, saturation or overflow. One exception is the particle tick
  counter: its unsigned 32-bit decrement is written out (`Dec32`). The
  obstacle table's raw coordinates are decoded as signed 16-bit words with
  10 fraction bits.
- **Library code not shown in the repository.** Sine, cosine and
  `ApproxATan2` are function parameters. The 3D rotation that
  `setRotationXYZ(0, yaw, 0)` builds is taken to be the standard rotation
  about the y axis. The FixedPoint, Transform and SinTable libraries are not
  part of this model.
- **Randomness.** The random draws are parameters:
  - spawn positions and yaws;
  - particle lifetimes;
  - debris velocities;
  - particle spawn velocities.

  Particles.ParticlePool.Spawn takes each chosen slot's world velocity from
  `velocityOf`. So the spawn basis built from the contact normal, the
  `normalise` helper (a square root and a reciprocal) and the quarter of the
  impact velocity are folded into that parameter and not modelled.
- **Particle motion.** `Particles.Stepped` computes gravity (0.0001),
  damping (0.999) and the bounce factors (0.75, −0.5, 0.75) exactly, but no
  contract states more about the motion than the ground clamp and the
  fade. Debris chunk rotation (a random
  rotation matrix applied each tick) is not modelled. A chunk's own pose is
  drawing state.
- **Drawing state.** All `Draw` methods, the display list, the camera
  settings in `Player::Update`, the radar, the grid, logging, and the debris
  shapes that `EnemyTanks::Reset` assigns.
- **Buttons.** Buttons are boolean inputs. "Fire just pressed" is one
  boolean.
- **Assertions as preconditions.**
  - `Projectiles::Create` on an active slot asserts in a debug build. The
    model does nothing there, which is what a release build does.
  - Running out of collider slots in `AllocateObject` is an assertion. The
    model requires a free slot instead.
- **Player collisions.** None of the core files registers a collider with
  the Player mask, so in this model an enemy shot stops only at obstacles.
  A player collider and its response are not part of this model.
- ProjectileFlight.Update: its contract states the new projectile slots
  only. The particle and enemy-tank effects of each hit are stated per
  projectile by ProjectileFlight.UpdateProjectile, not composed over the
  whole loop.
- **The `SinTable::Index` cast.** In `Player::Update` the yaw passes through
  this cast, which is absorbed into the `sinCos` parameter.
- Collisions.ManhattanFilterSound: the sqrt 2 bound is stated over free
  reals. On the model, "circle test passes ⟹ pre-filter passes" holds only for
  probes whose radius is at least hbw / 10⁷ (`Collisions.CircleImpliesManhattan`).
  It fails for a zero-radius probe (`Collisions.ZeroRadiusSliver`), because the
  rounded-up factor 1.4142136 exceeds sqrt 2. `Test` applies both filters, so
  its result does not depend on this.

## Findings

The source draws an "x is struck" decision from `xt > yt`. Here xt and yt
are the fractions (hbw − cur) / (prev − cur) computed on each crossed axis.
The hit point is then walked from the previous position:
`prev + delta · t`. That fraction measures the distance from the current
position, not from the previous one. So the point lands at prev + cur − hbw
instead of on the edge, and "the larger fraction" picks the edge that was
crossed first instead of the one entered last. The model keeps the source's
computation as `Collisions.SweptContactAsWritten`. The registry's `Test`
uses the corrected entry fraction (prev − hbw) / (prev − cur), with the
later-entered axis.

| source | as written | input that shows it | evidently intended | confidence | as-written member | corrected member |
|---|---|---|---|---|---|---|
| src/collisions.cpp:168-192 | hit = prev + delta · (hbw − cur) / (prev − cur), on the axis with the larger such fraction | a probe swept from (3, 0) to (0, 0) into an unrotated unit box at the origin: the hit is put at x = 2, one unit in front of the face x = 1 on the approach side, off the box | the hit on the face the probe entered, x = 1 | not executed | CollisionsHeadOn.HeadOnSweepAsWritten | CollisionsHeadOn.HeadOnSweep |
