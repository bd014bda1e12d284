/**
 * The per-tick flight of a projectile: count down, move one step, probe
 * the collision registry along the step, and on a hit stop, throw impact
 * particles and destroy the enemy tank that was struck.
 */
module ProjectileFlight {
  import opened Wrappers
  import opened Geometry
  import opened CollisionTypes
  import opened Collisions
  import opened Particles
  import opened Projectiles
  import opened EnemyTanks

  /** The radius of the probe a projectile sweeps. */
  const ProbeRadius: real := 0.01

  /** The number of particles thrown at an impact. */
  const ImpactParticles: int := 64

  /** The masks of the two kinds of shot. */
  const PlayerShotMask: bv32 := MaskProjectileObstacle | MaskEnemy
  const EnemyShotMask: bv32 := MaskProjectileObstacle | MaskPlayer

  /** The probe: a circle of ProbeRadius at the new position, swept back over the step. */
  function Probe(p: Projectile): CollisionTester
  {
    MakeTester(p.pose.t, p.step, ProbeRadius, p.mask)
  }

  /** The projectile after one Projectile::Update against the registry contents, and the contact it struck. */
  datatype Flight = Flight(slot: Projectile, contact: Option<CollisionInfo>)

  function Flown(p: Projectile, objects: seq<CollisionObject>, sinCos: real -> Trig): (f: Flight)
    ensures f.slot.ticksRemaining == p.ticksRemaining - 1
    ensures f.contact.Some? ==> !f.slot.active && f.contact.value.obj < |objects|
    ensures f.slot.active <==> Moved(p).active && f.contact.None?
  {
    var q := Moved(p);
    if !q.active then Flight(q, None)
    else
      var info := InfoWritten(objects, |objects|, Probe(q), false, true, sinCos);
      if info.Some? then Flight(q.(active := false), info) else Flight(q, None)
  }

  /** A hit on a projectile obstacle or an enemy throws particles; a hit on an enemy destroys it. */
  predicate SpawnsParticles(struck: bv32) { struck & (MaskProjectileObstacle | MaskEnemy) != 0 }
  predicate DestroysTank(struck: bv32) { struck & MaskEnemy != 0 }

  /**
   * A projectile only ever strikes a collider whose mask shares a flag with
   * its own, that its probe circle overlaps and whose box edge its step
   * crossed; with no such collider it flies on.
   */
  lemma StrikesOnlyMatching(p: Projectile, objects: seq<CollisionObject>, sinCos: real -> Trig)
    requires p.active
    ensures var f := Flown(p, objects, sinCos);
      (f.contact.Some? ==> Accepts(objects[f.contact.value.obj], Probe(Moved(p)), false, true)) &&
      (Moved(p).active && (forall j :: 0 <= j < |objects| ==> !Accepts(objects[j], Probe(Moved(p)), false, true)) ==>
        f.slot.active && f.slot.pose.t == Add3(p.pose.t, p.step))
  {
  }

  /**
   * Shots of either kind pass through colliders that only block tanks
   * (the short boxes): such a collider is never the one struck.
   */
  lemma ShotsPassTankOnlyObstacles(p: Projectile, objects: seq<CollisionObject>, sinCos: real -> Trig)
    requires p.mask == PlayerShotMask || p.mask == EnemyShotMask
    ensures var f := Flown(p, objects, sinCos);
      f.contact.Some? ==> objects[f.contact.value.obj].mask != MaskTankObstacle
  {
    var f := Flown(p, objects, sinCos);
    if f.contact.Some? {
      var o := objects[f.contact.value.obj];
      assert MasksMeet(o, Probe(Moved(p)));
    }
  }

  /** n ticks of unobstructed flight. */
  function Coast(p: Projectile, n: nat): Projectile
  {
    if n == 0 then p else Moved(Coast(p, n - 1))
  }

  /** Stepping n + 1 times lands one more step further. */
  lemma ScaleSucc(v: Vec3, k: real)
    ensures Add3(Scale3(v, k), v) == Scale3(v, k + 1.0)
  {
    assert v.x * k + v.x == v.x * (k + 1.0);
    assert v.y * k + v.y == v.y * (k + 1.0);
    assert v.z * k + v.z == v.z * (k + 1.0);
  }

  /**
   * An active projectile that hits nothing is still flying after n ticks
   * while n is below its remaining lifetime, n steps further on.
   */
  lemma {:induction false} CoastFlying(p: Projectile, n: nat)
    requires p.active && n < p.ticksRemaining
    ensures var q := Coast(p, n);
      q.active && q.ticksRemaining == p.ticksRemaining - n && q.step == p.step && q.mask == p.mask &&
      q.pose.t == Add3(p.pose.t, Scale3(p.step, n as real))
  {
    if n == 0 {
      assert Scale3(p.step, 0.0) == Vec3(0.0, 0.0, 0.0);
    } else {
      CoastFlying(p, n - 1);
      var q := Coast(p, n - 1);
      ScaleSucc(p.step, (n - 1) as real);
      assert Add3(Add3(p.pose.t, Scale3(p.step, (n - 1) as real)), p.step)
          == Add3(p.pose.t, Add3(Scale3(p.step, (n - 1) as real), p.step));
    }
  }

  /**
   * A launched projectile that hits nothing flies 359 ticks, each one step
   * of TranslationSpeed along its launcher's model x axis, and is gone on
   * tick 360.
   */
  lemma LaunchedRange(parent: Transform3D, mask: bv32)
    ensures var q := Coast(Launched(parent, mask), LifeTicks - 1);
      q.active && q.pose.t == Add3(parent.t, Scale3(Scale3(parent.m0, TranslationSpeed), (LifeTicks - 1) as real))
    ensures !Coast(Launched(parent, mask), LifeTicks).active
  {
    CoastFlying(Launched(parent, mask), LifeTicks - 1);
  }

  /**
   * The reaction to a hit on collider obj whose mask is struck: particles
   * thrown from pos when it is an obstacle or an enemy, and the enemy tanks
   * owning the collider destroyed when it is an enemy.
   */
  method Impact(pos: Vec3, obj: nat, struck: bv32, particles: ParticlePool, enemies: EnemyTankPool,
                impactVelocity: nat -> Vec3, debrisDraw: nat -> Vec3)
    requires particles.Valid() && enemies.Valid() && particles.slots != enemies.debris
    modifies particles.slots, enemies.tanks, enemies.debris
    ensures particles.Valid() && enemies.Valid()
    ensures SpawnsParticles(struck) ==>
      forall i :: 0 <= i < particles.slots.Length ==>
        particles.slots[i] == SpawnedSlot(old(particles.slots[..]), i, pos, ImpactParticles, impactVelocity)
    ensures !SpawnsParticles(struck) ==> particles.slots[..] == old(particles.slots[..])
    ensures DestroysTank(struck) ==>
      forall i :: 0 <= i < enemies.tanks.Length ==>
        enemies.tanks[i] == if Owns(old(enemies.tanks[i]), obj) then Destroyed(old(enemies.tanks[i])) else old(enemies.tanks[i])
    ensures !DestroysTank(struck) ==> enemies.tanks[..] == old(enemies.tanks[..]) && enemies.debris[..] == old(enemies.debris[..])
  {
    if SpawnsParticles(struck) {
      particles.Spawn(pos, ImpactParticles, impactVelocity);
    }
    if DestroysTank(struck) {
      enemies.Destroy(obj, debrisDraw);
    }
  }

  /**
   * Projectile::Update on an active slot: the slot becomes Flown(...) against
   * the registry, which is only read; a contact triggers Impact at the
   * contact point raised to the projectile's height.
   */
  method UpdateProjectile(idx: nat, projectiles: ProjectilePool, registry: Collisions, particles: ParticlePool,
                          enemies: EnemyTankPool, sinCos: real -> Trig, impactVelocity: nat -> Vec3, debrisDraw: nat -> Vec3)
    requires projectiles.Valid() && registry.Valid() && particles.Valid() && enemies.Valid()
    requires particles.slots != enemies.debris
    requires idx < projectiles.slots.Length && projectiles.slots[idx].active
    modifies projectiles, projectiles.slots, particles.slots, enemies.tanks, enemies.debris
    ensures projectiles.Valid() && particles.Valid() && enemies.Valid()
    ensures projectiles.slots == old(projectiles.slots)
    ensures var f := Flown(old(projectiles.slots[idx]), registry.objects[..], sinCos);
      projectiles.slots[..] == old(projectiles.slots[..])[idx := f.slot] &&
      (f.contact.None? ==>
        particles.slots[..] == old(particles.slots[..]) &&
        enemies.tanks[..] == old(enemies.tanks[..]) && enemies.debris[..] == old(enemies.debris[..]))
    ensures var f := Flown(old(projectiles.slots[idx]), registry.objects[..], sinCos);
      f.contact.Some? ==>
        var c := f.contact.value;
        var struck := registry.objects[c.obj].mask;
        (SpawnsParticles(struck) ==>
          forall i :: 0 <= i < particles.slots.Length ==>
            particles.slots[i] == SpawnedSlot(old(particles.slots[..]), i, c.pos.(y := f.slot.pose.t.y), ImpactParticles, impactVelocity)) &&
        (!SpawnsParticles(struck) ==> particles.slots[..] == old(particles.slots[..])) &&
        (DestroysTank(struck) ==>
          forall i :: 0 <= i < enemies.tanks.Length ==>
            enemies.tanks[i] == if Owns(old(enemies.tanks[i]), c.obj) then Destroyed(old(enemies.tanks[i])) else old(enemies.tanks[i])) &&
        (!DestroysTank(struck) ==> enemies.tanks[..] == old(enemies.tanks[..]))
  {
    projectiles.Fly(idx);
    if !projectiles.IsActive(idx) {
      return;
    }
    var q := projectiles.slots[idx];
    var hit, info := registry.Test(Probe(q), false, true, sinCos);
    if hit {
      projectiles.DeActivate(idx);
      var struck := registry.objects[info.value.obj].mask;
      Impact(info.value.pos.(y := q.pose.t.y), info.value.obj, struck, particles, enemies, impactVelocity, debrisDraw);
    }
  }

  /** Projectiles::Update: every active projectile flies one tick, in index order. */
  method Update(projectiles: ProjectilePool, registry: Collisions, particles: ParticlePool,
                enemies: EnemyTankPool, sinCos: real -> Trig, impactVelocity: nat -> Vec3, debrisDraw: nat -> Vec3)
    requires projectiles.Valid() && registry.Valid() && particles.Valid() && enemies.Valid()
    requires particles.slots != enemies.debris
    modifies projectiles, projectiles.slots, particles.slots, enemies.tanks, enemies.debris
    ensures projectiles.Valid() && particles.Valid() && enemies.Valid()
    ensures projectiles.slots == old(projectiles.slots)
    ensures forall i :: 0 <= i < projectiles.slots.Length ==>
      projectiles.slots[i] == if old(projectiles.slots[i]).active
                              then Flown(old(projectiles.slots[i]), registry.objects[..], sinCos).slot
                              else old(projectiles.slots[i])
  {
    for i := 0 to projectiles.slots.Length
      invariant projectiles.Valid() && particles.Valid() && enemies.Valid()
      invariant projectiles.slots == old(projectiles.slots)
      invariant forall j :: 0 <= j < i ==>
        projectiles.slots[j] == if old(projectiles.slots[j]).active
                                then Flown(old(projectiles.slots[j]), registry.objects[..], sinCos).slot
                                else old(projectiles.slots[j])
      invariant forall j :: i <= j < projectiles.slots.Length ==> projectiles.slots[j] == old(projectiles.slots[j])
    {
      if projectiles.IsActive(i) {
        UpdateProjectile(i, projectiles, registry, particles, enemies, sinCos, impactVelocity, debrisDraw);
      }
    }
  }
}
