/**
 * Enemy tanks: a static pool of 4 tanks, each driven by a three-phase
 * behaviour machine (turn to the player, move, dead), each owning one
 * collider in the registry and one projectile slot; plus 5 shared debris
 * chunks thrown out when a tank is destroyed.
 */
module EnemyTanks {
  import opened Wrappers
  import opened Geometry
  import opened GameConstants
  import opened CollisionTypes
  import opened Collisions
  import opened Particles
  import opened Projectiles

  const RadarDishRotationSpeed: real := 3.0 * PerSecond
  const RotationSpeed: real := 0.3 * PerSecond
  const AimAngleTolerance: real := Pi * 0.001
  const MoveSpeed: real := 2.0 * PerSecond
  const NumDebrisChunks: int := 5

  /** The spawn area is [-16, 16] on X and Z; tanks stand at height 0.625. */
  const SpawnRange: real := 16.0
  const TankHeight: real := 0.625

  /** The collider every tank reconfigures each tick. */
  const TankHalfBoxWidth: real := 0.3
  const TankSurfaceAngle: real := 0.3

  datatype Behaviour = TurnToPlayer | Move | Dead

  /** Phase lengths in ticks: 6, 1.5 and 4 seconds at 240 ticks per second. */
  function PhaseLength(b: Behaviour): (n: int)
    ensures n >= FramesPerSecond
  {
    match b
    case TurnToPlayer => 1440
    case Move => 360
    case Dead => 960
  }

  /** The phase that follows an expired one. */
  function NextBehaviour(b: Behaviour): (n: Behaviour)
    ensures n != Dead
    ensures b == TurnToPlayer <==> n == Move
  {
    match b
    case TurnToPlayer => Move
    case Move => TurnToPlayer
    case Dead => TurnToPlayer
  }

  /** The random draws of one respawn: x and z in [-1, 1], the yaw fraction in [0, 1]. */
  datatype SpawnDraw = SpawnDraw(x: real, z: real, yaw: real)

  predicate DrawInRange(d: SpawnDraw)
  {
    -1.0 <= d.x <= 1.0 && -1.0 <= d.z <= 1.0 && 0.0 <= d.yaw <= 1.0
  }

  /** The state of one tank. The collider handle is a registry slot index, None for a null pointer. */
  datatype Tank = Tank(
    active: bool,
    yaw: real,
    radarDishYaw: real,
    behaviour: Behaviour,
    ticksLeft: int,
    projectileIdx: int,
    pose: Transform3D,
    collider: Option<nat>)

  /** The zero-initialised tank of the static array. */
  const Parked := Tank(false, 0.0, 0.0, TurnToPlayer, 0, 0, IdentityAt(Vec3(0.0, 0.0, 0.0)), None)

  /**
   * What holds of every tank between updates: an active tank has a
   * collider in the registry's range, a phase counter in [1, phase length]
   * and both angles in [0, 2 pi]; an inactive one has a null collider.
   */
  predicate TankOk(t: Tank)
  {
    0 <= t.projectileIdx < MaxProjectiles &&
    (t.active ==>
      t.collider.Some? && t.collider.value < MaxCollisionObjects &&
      1 <= t.ticksLeft <= PhaseLength(t.behaviour) &&
      0.0 <= t.yaw <= TwoPi && 0.0 <= t.radarDishYaw <= TwoPi) &&
    (!t.active ==> t.collider.None?)
  }

  /** EnemyTank::Respawn: a random position in the spawn area, a random yaw, the radar dish reset. */
  function Respawned(t: Tank, d: SpawnDraw): (r: Tank)
    ensures DrawInRange(d) ==> 0.0 <= r.yaw <= TwoPi && Abs(r.pose.t.x) <= SpawnRange && Abs(r.pose.t.z) <= SpawnRange
    ensures r.radarDishYaw == 0.0 && r.pose.t.y == TankHeight
    ensures r == t.(yaw := r.yaw, radarDishYaw := 0.0, pose := r.pose)
  {
    var pos := Vec3(d.x * SpawnRange, TankHeight, d.z * SpawnRange);
    assert DrawInRange(d) ==> Abs(pos.x) <= SpawnRange && Abs(pos.z) <= SpawnRange;
    t.(pose := t.pose.(t := pos), yaw := d.yaw * TwoPi, radarDishYaw := 0.0)
  }

  /** The radar dish turns a little each tick and wraps once past 2 pi. */
  function RadarStep(r: real): (n: real)
    ensures 0.0 <= r <= TwoPi ==> 0.0 <= n <= TwoPi
    ensures n == r + RadarDishRotationSpeed || n == r + RadarDishRotationSpeed - TwoPi
  {
    var n := r + RadarDishRotationSpeed;
    if n > TwoPi then n - TwoPi else n
  }

  /**
   * The phase countdown: one tick off; on reaching 0 the next phase starts
   * (a dead tank respawns first) with its full length.
   */
  function CountDown(t: Tank, d: SpawnDraw): (r: Tank)
    ensures t.ticksLeft > 1 ==> r == t.(ticksLeft := t.ticksLeft - 1)
    ensures t.ticksLeft == 1 ==> r.behaviour == NextBehaviour(t.behaviour) && r.ticksLeft == PhaseLength(r.behaviour)
    ensures t.ticksLeft == 1 && t.behaviour != Dead ==> r == t.(behaviour := r.behaviour, ticksLeft := r.ticksLeft)
    ensures t.ticksLeft == 1 && t.behaviour == Dead ==> r == Respawned(t, d).(behaviour := TurnToPlayer, ticksLeft := 1440)
  {
    var ticks := t.ticksLeft - 1;
    if ticks != 0 then t.(ticksLeft := ticks)
    else
      var respawned := if t.behaviour == Dead then Respawned(t, d) else t;
      var next := NextBehaviour(t.behaviour);
      respawned.(behaviour := next, ticksLeft := PhaseLength(next))
  }

  /** The heading difference wrapped once into about [-pi, pi]. */
  function WrapDiff(diff: real): (w: real)
    ensures -3.0 * Pi <= diff <= 3.0 * Pi ==> -Pi <= w <= Pi
    ensures w == diff || w == diff - TwoPi || w == diff + TwoPi
  {
    if diff > Pi then diff - TwoPi
    else if diff < -Pi then diff + TwoPi
    else diff
  }

  /** The heading to the player, as ApproxATan2 plus a quarter turn, minus the yaw, wrapped once. */
  function YawDiff(t: Tank, playerPos: Vec3, atan2: (real, real) -> real): real
  {
    var targetYaw := atan2(t.pose.t.x - playerPos.x, t.pose.t.z - playerPos.z) + Pi * 0.5;
    WrapDiff(targetYaw - t.yaw)
  }

  /**
   * One turning step toward the target: only outside the aim tolerance, by
   * the rotation speed, kept in [0, 2 pi].
   */
  function TurnedYaw(yaw: real, diff: real): (y: real)
    ensures 0.0 <= yaw <= TwoPi ==> 0.0 <= y <= TwoPi
    ensures -AimAngleTolerance <= diff <= AimAngleTolerance ==> y == yaw
    ensures diff > AimAngleTolerance ==> y == yaw + RotationSpeed || y == yaw + RotationSpeed - TwoPi
    ensures diff < -AimAngleTolerance ==> y == yaw - RotationSpeed || y == yaw - RotationSpeed + TwoPi
  {
    if diff > AimAngleTolerance then
      var y := yaw + RotationSpeed;
      if y > TwoPi then y - TwoPi else y
    else if diff < -AimAngleTolerance then
      var y := yaw - RotationSpeed;
      if y < 0.0 then y + TwoPi else y
    else yaw
  }

  /** The world-space step of a moving tank: MoveSpeed along its model x axis. */
  function MoveStep(pose: Transform3D): (s: Vec3)
    ensures s == Scale3(pose.m0, MoveSpeed)
  {
    var s := Rotate3(pose, Vec3(MoveSpeed, 0.0, 0.0));
    assert s == Scale3(pose.m0, MoveSpeed);
    s
  }

  /** The tank after one EnemyTank::Update, and whether it is aimed within tolerance (TurnToPlayer only). */
  datatype TankStep = TankStep(tank: Tank, aimed: bool)

  function Updated(t: Tank, playerPos: Vec3, atan2: (real, real) -> real, sinCos: real -> Trig, d: SpawnDraw): TankStep
  {
    var counted := CountDown(t.(radarDishYaw := RadarStep(t.radarDishYaw)), d);
    match counted.behaviour
    case TurnToPlayer =>
      var diff := YawDiff(counted, playerPos, atan2);
      var yaw := TurnedYaw(counted.yaw, diff);
      TankStep(counted.(yaw := yaw, pose := WithYaw(counted.pose, sinCos(yaw))), Abs(diff) < AimAngleTolerance)
    case Move =>
      TankStep(counted.(pose := Translate(counted.pose, MoveStep(counted.pose))), false)
    case Dead =>
      TankStep(counted, false)
  }

  /**
   * An update keeps an active tank well formed: its counter stays in
   * [1, phase length] and its angles in [0, 2 pi]. Only TurnToPlayer turns
   * or fires, only Move moves, and a dead tank stands still until it
   * respawns.
   */
  lemma UpdatedKeepsTankOk(t: Tank, playerPos: Vec3, atan2: (real, real) -> real, sinCos: real -> Trig, d: SpawnDraw)
    requires TankOk(t) && t.active && DrawInRange(d)
    ensures var r := Updated(t, playerPos, atan2, sinCos, d);
      TankOk(r.tank) && r.tank.active && r.tank.collider == t.collider && r.tank.projectileIdx == t.projectileIdx &&
      (r.aimed ==> r.tank.behaviour == TurnToPlayer) &&
      (r.tank.behaviour == Dead ==> r.tank.pose == t.pose && r.tank.yaw == t.yaw && r.tank.ticksLeft == t.ticksLeft - 1)
  {
    var counted := CountDown(t.(radarDishYaw := RadarStep(t.radarDishYaw)), d);
    assert 1 <= counted.ticksLeft <= PhaseLength(counted.behaviour);
  }

  /** The expired phases follow TurnToPlayer, Move, TurnToPlayer, ... and Dead leads back to TurnToPlayer. */
  lemma PhaseCycle(b: Behaviour)
    ensures NextBehaviour(NextBehaviour(b)) == (if b == Dead then Move else b)
  {
  }

  /**
   * A debris chunk's velocity from its three draws (x and z in [-1, 1], y
   * in [0, 1]), at up to 5 units per second on each axis.
   */
  function DebrisVelocity(draw: Vec3): (v: Vec3)
    ensures -1.0 <= draw.x <= 1.0 && 0.0 <= draw.y <= 1.0 && -1.0 <= draw.z <= 1.0 ==>
      Abs(v.x) <= 5.0 * PerSecond && 0.0 <= v.y <= 5.0 * PerSecond && Abs(v.z) <= 5.0 * PerSecond
  {
    Scale3(draw, PerSecond * 5.0)
  }

  /** EnemyTank::Destroy without the debris: dead for the Dead phase length. */
  function Destroyed(t: Tank): (r: Tank)
    ensures r.behaviour == Dead && r.ticksLeft == PhaseLength(Dead)
    ensures TankOk(t) && t.active ==> TankOk(r)
  {
    t.(behaviour := Dead, ticksLeft := PhaseLength(Dead))
  }

  /** Whether the tank is active and owns the given collider (pointer equality on the handle). */
  predicate Owns(t: Tank, obj: nat)
  {
    t.active && t.collider == Some(obj)
  }

  /** The last tank, in index order, that owns the collider. */
  function LastOwner(s: seq<Tank>, n: nat, obj: nat): (r: Option<nat>)
    requires n <= |s|
    ensures r.Some? ==> r.value < n && Owns(s[r.value], obj)
    ensures r.Some? ==> forall j :: r.value < j < n ==> !Owns(s[j], obj)
    ensures r.None? <==> forall j :: 0 <= j < n ==> !Owns(s[j], obj)
  {
    if n == 0 then None
    else if Owns(s[n - 1], obj) then Some(n - 1)
    else LastOwner(s, n - 1, obj)
  }


  /** The number of active tanks. */
  function ActiveTanks(s: seq<Tank>): nat
  {
    if s == [] then 0 else (if s[0].active then 1 else 0) + ActiveTanks(s[1..])
  }

  lemma {:induction false} ActiveTanksUpdate(s: seq<Tank>, i: nat, t: Tank)
    requires i < |s|
    ensures ActiveTanks(s[i := t]) == ActiveTanks(s) - (if s[i].active then 1 else 0) + (if t.active then 1 else 0)
  {
    if i == 0 {
      assert s[i := t][1..] == s[1..];
    } else {
      ActiveTanksUpdate(s[1..], i - 1, t);
      assert s[i := t][1..] == s[1..][i - 1 := t];
    }
  }

  lemma {:induction false} ActiveTanksNone(s: seq<Tank>)
    requires forall i :: 0 <= i < |s| ==> !s[i].active
    ensures ActiveTanks(s) == 0
  {
    if s != [] {
      ActiveTanksNone(s[1..]);
    }
  }

  /** Two active tanks never share a collider. */
  predicate DistinctColliders(s: seq<Tank>)
  {
    forall i, j :: 0 <= i < j < |s| && s[i].active && s[j].active ==> s[i].collider != s[j].collider
  }

  /** Every tank well formed, and no collider shared. */
  predicate TanksOk(s: seq<Tank>)
  {
    (forall i :: 0 <= i < |s| ==> TankOk(s[i])) && DistinctColliders(s)
  }

  /** Every active tank's collider is a live (allocated) slot of the registry. */
  predicate CollidersLiveIn(s: seq<Tank>, objects: seq<CollisionObject>)
  {
    forall i :: 0 <= i < |s| && s[i].active && s[i].collider.Some? ==>
      s[i].collider.value < |objects| && objects[s[i].collider.value].mask != 0
  }

  /** Rewriting a tank without touching its activity or collider keeps the count, the invariant and liveness. */
  lemma SameShape(s: seq<Tank>, i: nat, t: Tank, objects: seq<CollisionObject>)
    requires i < |s| && t.active == s[i].active && t.collider == s[i].collider && TankOk(t)
    ensures ActiveTanks(s[i := t]) == ActiveTanks(s)
    ensures TanksOk(s) ==> TanksOk(s[i := t])
    ensures CollidersLiveIn(s, objects) ==> CollidersLiveIn(s[i := t], objects)
  {
    ActiveTanksUpdate(s, i, t);
  }

  /** The registry after every active tank among the first n reconfigured its collider at its updated pose, in index order. */
  ghost function Reconfigured(objects: seq<CollisionObject>, s: seq<Tank>, n: nat,
                              playerPos: Vec3, atan2: (real, real) -> real, sinCos: real -> Trig, draws: nat -> SpawnDraw)
    : seq<CollisionObject>
    requires n <= |s|
  {
    if n == 0 then objects
    else
      var r := Reconfigured(objects, s, n - 1, playerPos, atan2, sinCos, draws);
      var t := s[n - 1];
      if t.active && t.collider.Some? && t.collider.value < |r| then
        r[t.collider.value := Configured(Updated(t, playerPos, atan2, sinCos, draws(n - 1)).tank.pose,
                                         TankHalfBoxWidth, MaskEnemy, TankSurfaceAngle)]
      else r
  }

  /**
   * With distinct colliders, Reconfigured puts each active tank's collider
   * at that tank's updated pose and leaves every other slot alone.
   */
  lemma {:induction false} ReconfiguredSlots(objects: seq<CollisionObject>, s: seq<Tank>, n: nat,
                                             playerPos: Vec3, atan2: (real, real) -> real, sinCos: real -> Trig, draws: nat -> SpawnDraw)
    requires n <= |s| && TanksOk(s) && CollidersLiveIn(s, objects)
    ensures var r := Reconfigured(objects, s, n, playerPos, atan2, sinCos, draws);
      |r| == |objects| &&
      (forall i :: 0 <= i < n && s[i].active ==>
        r[s[i].collider.value] == Configured(Updated(s[i], playerPos, atan2, sinCos, draws(i)).tank.pose,
                                             TankHalfBoxWidth, MaskEnemy, TankSurfaceAngle)) &&
      (forall j :: 0 <= j < |r| && (forall i :: 0 <= i < n ==> !Owns(s[i], j)) ==> r[j] == objects[j])
  {
    if n > 0 {
      ReconfiguredSlots(objects, s, n - 1, playerPos, atan2, sinCos, draws);
    }
  }

  /** The projectile pool after the active tanks among the first n fired, in index order, where aimed and the slot was idle. */
  ghost function Volleys(slots: seq<Projectile>, s: seq<Tank>, n: nat,
                         playerPos: Vec3, atan2: (real, real) -> real, sinCos: real -> Trig, draws: nat -> SpawnDraw)
    : seq<Projectile>
    requires n <= |s|
  {
    if n == 0 then slots
    else
      var r := Volleys(slots, s, n - 1, playerPos, atan2, sinCos, draws);
      var u := Updated(s[n - 1], playerPos, atan2, sinCos, draws(n - 1));
      var idx := u.tank.projectileIdx;
      if s[n - 1].active && u.aimed && 0 <= idx < |r| && !r[idx].active then
        r[idx := Launched(u.tank.pose, MaskProjectileObstacle | MaskPlayer)]
      else r
  }

  /**
   * Tanks only ever launch idle projectile slots: a slot in flight (the
   * player's included) is never disturbed, and a launched one has the full
   * lifetime and a mask that hits obstacles and the player.
   */
  lemma {:induction false} VolleysLaunchOnlyIdle(slots: seq<Projectile>, s: seq<Tank>, n: nat,
                                                 playerPos: Vec3, atan2: (real, real) -> real, sinCos: real -> Trig, draws: nat -> SpawnDraw)
    requires n <= |s|
    ensures var r := Volleys(slots, s, n, playerPos, atan2, sinCos, draws);
      |r| == |slots| &&
      forall p :: 0 <= p < |r| ==>
        r[p] == slots[p] ||
        (!slots[p].active && r[p].active && r[p].ticksRemaining == LifeTicks && r[p].mask == MaskProjectileObstacle | MaskPlayer)
  {
    if n > 0 {
      VolleysLaunchOnlyIdle(slots, s, n - 1, playerPos, atan2, sinCos, draws);
    }
  }

  /** The registry after Reset's deactivations: the collider of every active tank among the first n freed. */
  ghost function FreedOwned(objects: seq<CollisionObject>, s: seq<Tank>, n: nat): seq<CollisionObject>
    requires n <= |s|
  {
    if n == 0 then objects
    else
      var r := FreedOwned(objects, s, n - 1);
      match s[n - 1].collider
      case Some(h) => if s[n - 1].active && h < |r| then Freed(r, h) else r
      case None => r
  }

  /** FreedOwned frees exactly the slots owned by active tanks. */
  lemma {:induction false} FreedOwnedSlots(objects: seq<CollisionObject>, s: seq<Tank>, n: nat)
    requires n <= |s|
    ensures var r := FreedOwned(objects, s, n);
      |r| == |objects| &&
      forall j :: 0 <= j < |r| ==>
        r[j] == if exists i :: 0 <= i < n && Owns(s[i], j) then objects[j].(mask := 0) else objects[j]
  {
    if n > 0 {
      FreedOwnedSlots(objects, s, n - 1);
    }
  }

  class EnemyTankPool {
    var tanks: array<Tank>
    var debris: array<Particle>
    var numActive: int

    ghost predicate Valid()
      reads this, tanks, debris
    {
      tanks.Length == MaxEnemyTanks && debris.Length == NumDebrisChunks &&
      numActive == ActiveTanks(tanks[..]) && TanksOk(tanks[..]) &&
      (forall k :: 0 <= k < debris.Length ==> WellFormed(debris[k]))
    }

    ghost predicate CollidersLive(registry: Collisions)
      reads this, tanks, registry, registry.objects
    {
      CollidersLiveIn(tanks[..], registry.objects[..])
    }

    /** The static arrays: every tank parked and inactive, every debris chunk freshly constructed. */
    constructor (lifeDraw: nat -> real)
      requires forall k :: 0 <= k < NumDebrisChunks ==> 0.0 <= lifeDraw(k) <= 1.0
      ensures Valid() && fresh(tanks) && fresh(debris) && numActive == 0
      ensures forall i :: 0 <= i < tanks.Length ==> tanks[i] == Parked
      ensures forall k :: 0 <= k < debris.Length ==> debris[k] == NewParticle(lifeDraw(k))
    {
      tanks := new Tank[MaxEnemyTanks](_ => Parked);
      debris := new Particle[NumDebrisChunks](k requires 0 <= k < NumDebrisChunks => NewParticle(lifeDraw(k)));
      numActive := 0;
      new;
      ActiveTanksNone(tanks[..]);
    }

    /**
     * EnemyTank::Activate: mark active and count it, respawn, start turning
     * to the player, and take the first free collider of the registry.
     */
    method Activate(i: nat, registry: Collisions, d: SpawnDraw)
      requires Valid() && registry.Valid() && CollidersLive(registry)
      requires i < tanks.Length && !tanks[i].active && registry.HasFree() && DrawInRange(d)
      modifies this, tanks, registry.objects
      ensures Valid() && registry.Valid() && CollidersLive(registry)
      ensures tanks == old(tanks) && debris == old(debris) && numActive == old(numActive) + 1
      ensures tanks[i].collider.Some? && Some(tanks[i].collider.value) == FirstFree(old(registry.objects[..]))
      ensures registry.objects[..] == Allocated(old(registry.objects[..]), tanks[i].collider.value)
      ensures tanks[..] == old(tanks[..])[i := Respawned(old(tanks[i]), d).(
        active := true, behaviour := TurnToPlayer, ticksLeft := PhaseLength(TurnToPlayer), collider := tanks[i].collider)]
    {
      var h := registry.AllocateObject();
      var t := Respawned(tanks[i], d).(active := true, behaviour := TurnToPlayer, ticksLeft := PhaseLength(TurnToPlayer), collider := Some(h));
      ActiveTanksUpdate(tanks[..], i, t);
      tanks[i] := t;
      numActive := numActive + 1;
    }

    /** EnemyTank::DeActivate: mark inactive and uncount, free the collider, null the handle. */
    method DeActivate(i: nat, registry: Collisions)
      requires Valid() && registry.Valid() && CollidersLive(registry)
      requires i < tanks.Length && tanks[i].active
      modifies this, tanks, registry.objects
      ensures Valid() && registry.Valid() && CollidersLive(registry)
      ensures tanks == old(tanks) && debris == old(debris) && numActive == old(numActive) - 1
      ensures registry.objects[..] == Freed(old(registry.objects[..]), old(tanks[i].collider.value))
      ensures tanks[..] == old(tanks[..])[i := old(tanks[i]).(active := false, collider := None)]
    {
      registry.FreeObject(tanks[i].collider.value);
      var t := tanks[i].(active := false, collider := None);
      ActiveTanksUpdate(tanks[..], i, t);
      tanks[i] := t;
      numActive := numActive - 1;
    }

    /**
     * EnemyTank::Destroy: dead for the Dead phase, and all debris chunks
     * thrown from the tank's position with velocities from the draws.
     */
    method DestroyTank(i: nat, debrisDraw: nat -> Vec3)
      requires Valid() && i < tanks.Length && tanks[i].active
      modifies tanks, debris
      ensures Valid()
      ensures tanks[..] == old(tanks[..])[i := Destroyed(old(tanks[i]))]
      ensures forall k :: 0 <= k < debris.Length ==>
        debris[k] == Activated(old(debris[k]), old(tanks[i]).pose.t, DebrisVelocity(debrisDraw(k)))
    {
      SameShape(tanks[..], i, Destroyed(tanks[i]), []);
      tanks[i] := Destroyed(tanks[i]);
      var pos := tanks[i].pose.t;
      for k := 0 to debris.Length
        invariant Valid()
        invariant tanks[..] == old(tanks[..])[i := Destroyed(old(tanks[i]))]
        invariant forall m :: 0 <= m < k ==> debris[m] == Activated(old(debris[m]), pos, DebrisVelocity(debrisDraw(m)))
        invariant forall m :: k <= m < debris.Length ==> debris[m] == old(debris[m])
      {
        debris[k] := Activated(debris[k], pos, DebrisVelocity(debrisDraw(k)));
      }
    }

    /**
     * EnemyTanks::Destroy: destroys exactly the active tanks whose collider
     * handle is obj; the debris ends up thrown from the last of them.
     */
    method Destroy(obj: nat, debrisDraw: nat -> Vec3)
      requires Valid()
      modifies tanks, debris
      ensures Valid()
      ensures forall i :: 0 <= i < tanks.Length ==>
        tanks[i] == if Owns(old(tanks[i]), obj) then Destroyed(old(tanks[i])) else old(tanks[i])
      ensures var last := LastOwner(old(tanks[..]), tanks.Length, obj);
        forall k :: 0 <= k < debris.Length ==>
          debris[k] == if last.None? then old(debris[k])
                       else Activated(old(debris[k]), old(tanks[last.value]).pose.t, DebrisVelocity(debrisDraw(k)))
    {
      ghost var s := tanks[..];
      for i := 0 to tanks.Length
        invariant Valid()
        invariant forall j :: 0 <= j < i ==> tanks[j] == if Owns(s[j], obj) then Destroyed(s[j]) else s[j]
        invariant forall j :: i <= j < tanks.Length ==> tanks[j] == s[j]
        invariant var last := LastOwner(s, i, obj);
          forall k :: 0 <= k < debris.Length ==>
            debris[k] == if last.None? then old(debris[k])
                         else Activated(old(debris[k]), s[last.value].pose.t, DebrisVelocity(debrisDraw(k)))
      {
        if tanks[i].active && tanks[i].collider == Some(obj) {
          DestroyTank(i, debrisDraw);
        }
      }
    }

    /**
     * EnemyTank::Update on an active tank: the tank becomes Updated(...),
     * its collider is reconfigured at the new pose, and its projectile slot
     * is launched when the tank is aimed and the slot is idle.
     */
    method UpdateTank(i: nat, registry: Collisions, projectiles: ProjectilePool, playerPos: Vec3,
                      atan2: (real, real) -> real, sinCos: real -> Trig, d: SpawnDraw)
      requires Valid() && registry.Valid() && CollidersLive(registry) && projectiles.Valid()
      requires i < tanks.Length && tanks[i].active && DrawInRange(d)
      modifies tanks, registry.objects, projectiles, projectiles.slots
      ensures Valid() && registry.Valid() && CollidersLive(registry) && projectiles.Valid()
      ensures projectiles.slots == old(projectiles.slots)
      ensures var r := Updated(old(tanks[i]), playerPos, atan2, sinCos, d);
        tanks[..] == old(tanks[..])[i := r.tank] &&
        registry.objects[..] == old(registry.objects[..])[r.tank.collider.value :=
          Configured(r.tank.pose, TankHalfBoxWidth, MaskEnemy, TankSurfaceAngle)] &&
        (if r.aimed && !old(projectiles.slots[r.tank.projectileIdx].active)
         then projectiles.slots[..] == old(projectiles.slots[..])[r.tank.projectileIdx :=
                Launched(r.tank.pose, MaskProjectileObstacle | MaskPlayer)]
         else projectiles.slots[..] == old(projectiles.slots[..]))
    {
      UpdatedKeepsTankOk(tanks[i], playerPos, atan2, sinCos, d);
      var r := Updated(tanks[i], playerPos, atan2, sinCos, d);
      if r.aimed && !projectiles.IsActive(r.tank.projectileIdx) {
        projectiles.Create(r.tank.projectileIdx, r.tank.pose, MaskProjectileObstacle | MaskPlayer);
      }
      SameShape(tanks[..], i, r.tank, registry.objects[..]);
      tanks[i] := r.tank;
      registry.Configure(r.tank.collider.value, r.tank.pose, TankHalfBoxWidth, MaskEnemy, TankSurfaceAngle);
    }

    /**
     * EnemyTanks::Update: every active tank is updated in index order, then
     * every active debris chunk takes one particle step. The registry and
     * the projectile pool end up as Reconfigured and Volleys say.
     */
    method Update(registry: Collisions, projectiles: ProjectilePool, playerPos: Vec3,
                  atan2: (real, real) -> real, sinCos: real -> Trig, draws: nat -> SpawnDraw)
      requires Valid() && registry.Valid() && CollidersLive(registry) && projectiles.Valid()
      requires forall i :: 0 <= i < MaxEnemyTanks ==> DrawInRange(draws(i))
      modifies tanks, debris, registry.objects, projectiles, projectiles.slots
      ensures Valid() && registry.Valid() && CollidersLive(registry) && projectiles.Valid()
      ensures projectiles.slots == old(projectiles.slots)
      ensures forall i :: 0 <= i < tanks.Length ==>
        tanks[i] == if old(tanks[i]).active then Updated(old(tanks[i]), playerPos, atan2, sinCos, draws(i)).tank else old(tanks[i])
      ensures registry.objects[..] == Reconfigured(old(registry.objects[..]), old(tanks[..]), tanks.Length, playerPos, atan2, sinCos, draws)
      ensures projectiles.slots[..] == Volleys(old(projectiles.slots[..]), old(tanks[..]), tanks.Length, playerPos, atan2, sinCos, draws)
      ensures forall k :: 0 <= k < debris.Length ==>
        debris[k] == if IsActive(old(debris[k])) then Stepped(old(debris[k])) else old(debris[k])
    {
      UpdateTanks(registry, projectiles, playerPos, atan2, sinCos, draws);
      UpdateDebris();
    }

    /** The tank half of EnemyTanks::Update. */
    method UpdateTanks(registry: Collisions, projectiles: ProjectilePool, playerPos: Vec3,
                       atan2: (real, real) -> real, sinCos: real -> Trig, draws: nat -> SpawnDraw)
      requires Valid() && registry.Valid() && CollidersLive(registry) && projectiles.Valid()
      requires forall i :: 0 <= i < MaxEnemyTanks ==> DrawInRange(draws(i))
      modifies tanks, registry.objects, projectiles, projectiles.slots
      ensures Valid() && registry.Valid() && CollidersLive(registry) && projectiles.Valid()
      ensures projectiles.slots == old(projectiles.slots)
      ensures forall i :: 0 <= i < tanks.Length ==>
        tanks[i] == if old(tanks[i]).active then Updated(old(tanks[i]), playerPos, atan2, sinCos, draws(i)).tank else old(tanks[i])
      ensures registry.objects[..] == Reconfigured(old(registry.objects[..]), old(tanks[..]), tanks.Length, playerPos, atan2, sinCos, draws)
      ensures projectiles.slots[..] == Volleys(old(projectiles.slots[..]), old(tanks[..]), tanks.Length, playerPos, atan2, sinCos, draws)
    {
      ghost var s := tanks[..];
      for i := 0 to tanks.Length
        invariant UpdatedUpTo(i, s, old(registry.objects[..]), old(projectiles.slots[..]), registry, projectiles,
                              playerPos, atan2, sinCos, draws)
        invariant projectiles.slots == old(projectiles.slots)
      {
        UpdateNth(i, s, old(registry.objects[..]), old(projectiles.slots[..]), registry, projectiles,
                  playerPos, atan2, sinCos, draws);
      }
    }

    /** Where the tank loop of EnemyTanks::Update stands once the first n tanks are done. */
    ghost predicate UpdatedUpTo(n: nat, s: seq<Tank>, objects: seq<CollisionObject>, slots: seq<Projectile>,
                                registry: Collisions, projectiles: ProjectilePool,
                                playerPos: Vec3, atan2: (real, real) -> real, sinCos: real -> Trig, draws: nat -> SpawnDraw)
      reads this, tanks, debris, registry, registry.objects, projectiles, projectiles.slots
    {
      Valid() && registry.Valid() && CollidersLive(registry) && projectiles.Valid() &&
      n <= tanks.Length == |s| &&
      (forall i :: 0 <= i < MaxEnemyTanks ==> DrawInRange(draws(i))) &&
      (forall j :: 0 <= j < n ==>
        tanks[j] == if s[j].active then Updated(s[j], playerPos, atan2, sinCos, draws(j)).tank else s[j]) &&
      (forall j :: n <= j < tanks.Length ==> tanks[j] == s[j]) &&
      registry.objects[..] == Reconfigured(objects, s, n, playerPos, atan2, sinCos, draws) &&
      projectiles.slots[..] == Volleys(slots, s, n, playerPos, atan2, sinCos, draws)
    }

    /** One iteration of the tank loop: tank n is updated when active. */
    method UpdateNth(n: nat, ghost s: seq<Tank>, ghost objects: seq<CollisionObject>, ghost slots: seq<Projectile>,
                     registry: Collisions, projectiles: ProjectilePool,
                     playerPos: Vec3, atan2: (real, real) -> real, sinCos: real -> Trig, draws: nat -> SpawnDraw)
      requires n < tanks.Length
      requires UpdatedUpTo(n, s, objects, slots, registry, projectiles, playerPos, atan2, sinCos, draws)
      modifies tanks, registry.objects, projectiles, projectiles.slots
      ensures UpdatedUpTo(n + 1, s, objects, slots, registry, projectiles, playerPos, atan2, sinCos, draws)
      ensures projectiles.slots == old(projectiles.slots)
    {
      if tanks[n].active {
        UpdateTank(n, registry, projectiles, playerPos, atan2, sinCos, draws(n));
      }
    }

    /** The debris half of EnemyTanks::Update: each active chunk takes one particle step. */
    method UpdateDebris()
      requires Valid()
      modifies debris
      ensures Valid()
      ensures forall k :: 0 <= k < debris.Length ==>
        debris[k] == if IsActive(old(debris[k])) then Stepped(old(debris[k])) else old(debris[k])
    {
      for k := 0 to debris.Length
        invariant Valid()
        invariant forall m :: 0 <= m < k ==>
          debris[m] == if IsActive(old(debris[m])) then Stepped(old(debris[m])) else old(debris[m])
        invariant forall m :: k <= m < debris.Length ==> debris[m] == old(debris[m])
      {
        if IsActive(debris[k]) {
          SteppedActive(debris[k]);
          debris[k] := Stepped(debris[k]);
        }
      }
    }

    /**
     * EnemyTanks::Reset: tank i gets projectile slot i + 1, every active tank
     * is deactivated (freeing its collider), then tank 0 is activated on the
     * first free collider. The registry needs a free slot once the tanks'
     * colliders are back. The debris shapes it also assigns are drawing state.
     */
    method Reset(registry: Collisions, d: SpawnDraw)
      requires Valid() && registry.Valid() && CollidersLive(registry) && DrawInRange(d)
      requires FirstFree(FreedOwned(registry.objects[..], tanks[..], tanks.Length)).Some?
      modifies this, tanks, registry.objects
      ensures Valid() && registry.Valid() && CollidersLive(registry)
      ensures tanks == old(tanks) && debris == old(debris) && numActive == 1
      ensures forall i :: 0 <= i < tanks.Length ==> tanks[i].projectileIdx == i + 1
      ensures forall i :: 1 <= i < tanks.Length ==> !tanks[i].active
      ensures var freed := FreedOwned(old(registry.objects[..]), old(tanks[..]), tanks.Length);
        tanks[0].active && tanks[0].behaviour == TurnToPlayer && tanks[0].ticksLeft == PhaseLength(TurnToPlayer) &&
        tanks[0].collider == FirstFree(freed) &&
        registry.objects[..] == Allocated(freed, tanks[0].collider.value)
    {
      ReleaseAll(registry);
      FreedOwnedSlots(old(registry.objects[..]), old(tanks[..]), tanks.Length);
      Activate(0, registry, d);
    }

    /** The first loop of EnemyTanks::Reset: renumber the projectile slots and deactivate every tank. */
    method ReleaseAll(registry: Collisions)
      requires Valid() && registry.Valid() && CollidersLive(registry)
      modifies this, tanks, registry.objects
      ensures Valid() && registry.Valid() && CollidersLive(registry)
      ensures tanks == old(tanks) && debris == old(debris) && numActive == 0
      ensures forall i :: 0 <= i < tanks.Length ==>
        tanks[i] == old(tanks[i]).(projectileIdx := i + 1, active := false, collider := None)
      ensures registry.objects[..] == FreedOwned(old(registry.objects[..]), old(tanks[..]), tanks.Length)
    {
      ghost var s := tanks[..];
      for i := 0 to tanks.Length
        invariant ReleasedUpTo(i, s, old(registry.objects[..]), registry)
        invariant tanks == old(tanks) && debris == old(debris)
      {
        ReleaseNth(i, s, old(registry.objects[..]), registry);
      }
      ActiveTanksNone(tanks[..]);
    }

    /** Where the first loop of EnemyTanks::Reset stands once the first n tanks are done. */
    ghost predicate ReleasedUpTo(n: nat, s: seq<Tank>, objects: seq<CollisionObject>, registry: Collisions)
      reads this, tanks, debris, registry, registry.objects
    {
      Valid() && registry.Valid() && CollidersLive(registry) && n <= tanks.Length == |s| &&
      (forall j :: 0 <= j < n ==> tanks[j] == s[j].(projectileIdx := j + 1, active := false, collider := None)) &&
      (forall j :: n <= j < tanks.Length ==> tanks[j] == s[j]) &&
      registry.objects[..] == FreedOwned(objects, s, n)
    }

    /** One iteration: tank n gets projectile slot n + 1 and is deactivated if active. */
    method ReleaseNth(n: nat, ghost s: seq<Tank>, ghost objects: seq<CollisionObject>, registry: Collisions)
      requires n < tanks.Length && ReleasedUpTo(n, s, objects, registry)
      modifies this, tanks, registry.objects
      ensures ReleasedUpTo(n + 1, s, objects, registry)
      ensures tanks == old(tanks) && debris == old(debris)
    {
      var t := tanks[n].(projectileIdx := n + 1);
      SameShape(tanks[..], n, t, registry.objects[..]);
      tanks[n] := t;
      if tanks[n].active {
        DeActivate(n, registry);
      }
    }

    /** EnemyTanks::GetTransform: the pose of an active tank, None for an inactive one. */
    function GetTransform(idx: nat): (r: Option<Transform3D>)
      requires idx < tanks.Length
      reads this, tanks
      ensures r.Some? <==> tanks[idx].active
      ensures r.Some? ==> r.value == tanks[idx].pose
    {
      if tanks[idx].active then Some(tanks[idx].pose) else None
    }
  }
}
