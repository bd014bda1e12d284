/**
 * Static obstacles: four obstacle types and a fixed table of 21 instances,
 * registered with the collision registry once at start-up, plus the
 * distance fade used when drawing them.
 */
module Obstacles {
  import opened Wrappers
  import opened Geometry
  import opened GameConstants
  import opened CollisionTypes
  import opened Collisions

  datatype ObstacleType = WidePyramid | NarrowPyramid | TallBox | ShortBox

  /**
   * An obstacle type: its draw scale, the half box width of the collider
   * that blocks tanks, that of the collider that blocks projectiles (0 for
   * none) and the projectile collider's surface angle.
   */
  datatype TypeDef = TypeDef(xzScale: real, yScale: real, tankRadius: real, projectileRadius: real, surfaceAngle: real)

  function Def(t: ObstacleType): TypeDef
  {
    match t
    case WidePyramid => TypeDef(1.5, 1.0, 0.75, 0.375, 0.6435)
    case NarrowPyramid => TypeDef(1.0, 1.0, 0.5, 0.25, 0.4636)
    case TallBox => TypeDef(1.0, 1.0, 0.5, 0.5, 0.0)
    case ShortBox => TypeDef(1.5, 0.5, 0.75, 0.0, 0.0)
  }

  /** An obstacle instance: raw 16-bit X and Z coordinates and its type. */
  datatype Instance = Instance(rawX: int, rawZ: int, kind: ObstacleType)

  predicate RawOk(i: Instance)
  {
    0 <= i.rawX < 0x1_0000 && 0 <= i.rawZ < 0x1_0000
  }

  const Instances: seq<Instance> := [
    Instance(0x2000, 0x2000, WidePyramid),
    Instance(0x4000, 0x0000, ShortBox),
    Instance(0x8000, 0x0000, WidePyramid),
    Instance(0x8000, 0x4000, ShortBox),
    Instance(0x8000, 0x8000, WidePyramid),
    Instance(0x4000, 0x8000, NarrowPyramid),
    Instance(0x0000, 0x8000, TallBox),
    Instance(0x0000, 0x4000, NarrowPyramid),
    Instance(0x5000, 0x3000, TallBox),
    Instance(0x1800, 0xc000, ShortBox),
    Instance(0x4400, 0xf700, WidePyramid),
    Instance(0x4000, 0xc800, NarrowPyramid),
    Instance(0x8c00, 0xd800, TallBox),
    Instance(0x0c00, 0x9400, ShortBox),
    Instance(0xe800, 0x9800, WidePyramid),
    Instance(0xe400, 0xe800, NarrowPyramid),
    Instance(0x9c00, 0x7000, TallBox),
    Instance(0xcc00, 0x7800, ShortBox),
    Instance(0xb400, 0x4000, WidePyramid),
    Instance(0xbc00, 0x2400, NarrowPyramid),
    Instance(0xf400, 0x2c00, TallBox)
  ]

  /** A raw 16-bit word read as a two's-complement signed integer. */
  function Int16(raw: int): (v: int)
    requires 0 <= raw < 0x1_0000
    ensures -0x8000 <= v < 0x8000
    ensures (v - raw) % 0x1_0000 == 0
  {
    if raw >= 0x8000 then raw - 0x1_0000 else raw
  }

  /** A coordinate in the table's fixed-point format: signed, 10 fraction bits, so within [-32, 32). */
  function Coord(raw: int): (c: real)
    requires 0 <= raw < 0x1_0000
    ensures -32.0 <= c < 32.0
  {
    Int16(raw) as real / 1024.0
  }

  /** The world position of an instance: its table coordinates, at the height of its type's model origin. */
  function Position(i: Instance): (p: Vec3)
    requires RawOk(i)
    ensures -32.0 <= p.x < 32.0 && -32.0 <= p.z < 32.0
    ensures p.y == Def(i.kind).yScale * 0.625
  {
    Vec3(Coord(i.rawX), Def(i.kind).yScale * 0.625, Coord(i.rawZ))
  }

  /** The tank collider also blocks projectiles when both radii agree. */
  function TankMask(d: TypeDef): (m: bv32)
    ensures m & MaskTankObstacle != 0
    ensures m & MaskProjectileObstacle != 0 <==> d.tankRadius == d.projectileRadius
  {
    if d.tankRadius == d.projectileRadius then MaskTankObstacle | MaskProjectileObstacle else MaskTankObstacle
  }

  /** A second, projectile-only collider is needed when the radii differ and the projectile one is positive. */
  predicate NeedsProjectileCollider(d: TypeDef)
  {
    d.tankRadius != d.projectileRadius && d.projectileRadius > 0.0
  }

  function CollidersPer(d: TypeDef): nat
  {
    if NeedsProjectileCollider(d) then 2 else 1
  }

  /** The number of colliders the first n instances register. */
  function ColliderCount(s: seq<Instance>, n: nat): nat
    requires n <= |s|
  {
    if n == 0 then 0 else ColliderCount(s, n - 1) + CollidersPer(Def(s[n - 1].kind))
  }

  lemma {:induction false} ColliderCountMono(s: seq<Instance>, n: nat, m: nat)
    requires n <= m <= |s|
    ensures ColliderCount(s, n) <= ColliderCount(s, m)
    decreases m
  {
    if n < m {
      ColliderCountMono(s, n, m - 1);
    }
  }

  /**
   * Every type blocks tanks; the pyramids block projectiles with a smaller
   * collider, tall boxes with the same one, and short boxes not at all.
   */
  lemma TypeColliders()
    ensures NeedsProjectileCollider(Def(WidePyramid)) && NeedsProjectileCollider(Def(NarrowPyramid))
    ensures TankMask(Def(TallBox)) == MaskTankObstacle | MaskProjectileObstacle && !NeedsProjectileCollider(Def(TallBox))
    ensures TankMask(Def(ShortBox)) == MaskTankObstacle && !NeedsProjectileCollider(Def(ShortBox))
  {
  }

  /** The table registers 32 colliders, which leaves room in the registry for the four enemy tanks. */
  lemma TableRawOk()
    ensures forall i :: 0 <= i < |Instances| ==> RawOk(Instances[i])
  {
  }

  lemma TableColliders()
    ensures ColliderCount(Instances, |Instances|) == 32
    ensures ColliderCount(Instances, |Instances|) + MaxEnemyTanks <= MaxCollisionObjects
  {
    SecondThirdColliders();
    assert ColliderCount(Instances, 18) == 27;
  }

  lemma FirstThirdColliders()
    ensures ColliderCount(Instances, 7) == 11
  {
    assert ColliderCount(Instances, 4) == 6;
  }

  lemma SecondThirdColliders()
    ensures ColliderCount(Instances, 14) == 21
  {
    FirstThirdColliders();
    assert ColliderCount(Instances, 11) == 17;
  }

  /** The collider blocking tanks that instance i gets: identity rotation, at its position, angle 0. */
  function TankCollider(i: Instance): CollisionObject
    requires RawOk(i)
  {
    Configured(IdentityAt(Position(i)), Def(i.kind).tankRadius, TankMask(Def(i.kind)), 0.0)
  }

  /** The projectile-only collider of a pyramid, with its surface angle. */
  function ProjectileCollider(i: Instance): CollisionObject
    requires RawOk(i)
  {
    Configured(IdentityAt(Position(i)), Def(i.kind).projectileRadius, MaskProjectileObstacle, Def(i.kind).surfaceAngle)
  }

  /** Writing a non-free collider into a free slot uses up exactly that slot. */
  lemma TakeFree(s: seq<CollisionObject>, o: CollisionObject)
    requires FreeCount(s) > 0 && o.mask != 0
    ensures FirstFree(s).Some? && FreeCount(s[FirstFree(s).value := o]) == FreeCount(s) - 1
  {
    FreeCountBounded(s);
    FreeCountUpdate(s, FirstFree(s).value, o);
  }

  /** The registry after one instance is registered: first-fit allocation of each of its colliders. */
  function Placed(s: seq<CollisionObject>, i: Instance): (r: seq<CollisionObject>)
    requires RawOk(i) && FreeCount(s) >= CollidersPer(Def(i.kind))
    ensures |r| == |s| && FreeCount(r) == FreeCount(s) - CollidersPer(Def(i.kind))
  {
    TakeFree(s, TankCollider(i));
    var r := s[FirstFree(s).value := TankCollider(i)];
    if NeedsProjectileCollider(Def(i.kind)) then
      TakeFree(r, ProjectileCollider(i));
      r[FirstFree(r).value := ProjectileCollider(i)]
    else r
  }

  /**
   * Registering an instance never overwrites a live collider, and afterwards
   * the registry holds its tank collider and, for a pyramid, its projectile
   * collider.
   */
  lemma PlacedRegisters(s: seq<CollisionObject>, i: Instance)
    requires RawOk(i) && FreeCount(s) >= CollidersPer(Def(i.kind))
    ensures forall j :: 0 <= j < |s| && s[j].mask != 0 ==> Placed(s, i)[j] == s[j]
    ensures TankCollider(i) in Placed(s, i)
    ensures NeedsProjectileCollider(Def(i.kind)) ==> ProjectileCollider(i) in Placed(s, i)
  {
    var tc := TankCollider(i);
    TakeFree(s, tc);
    var r := s[FirstFree(s).value := tc];
    FirstFitKeepsLive(s, tc);
    if NeedsProjectileCollider(Def(i.kind)) {
      var pc := ProjectileCollider(i);
      TakeFree(r, pc);
      FirstFitKeepsLive(r, pc);
    }
  }

  /** A first-fit write keeps every live slot and stores its object. */
  lemma FirstFitKeepsLive(s: seq<CollisionObject>, o: CollisionObject)
    requires FirstFree(s).Some? && o.mask != 0
    ensures var r := s[FirstFree(s).value := o];
      (forall j :: 0 <= j < |s| && s[j].mask != 0 ==> r[j] == s[j]) && o in r &&
      (forall j :: 0 <= j < |s| ==> (r[j].mask != 0 <==> s[j].mask != 0 || j == FirstFree(s).value))
  {
    var h := FirstFree(s).value;
    assert s[h := o][h] == o;
  }

  /** The registry after the first n instances are registered in table order. */
  function PlacedAll(s: seq<CollisionObject>, insts: seq<Instance>, n: nat): (r: seq<CollisionObject>)
    requires n <= |insts| && (forall k :: 0 <= k < |insts| ==> RawOk(insts[k]))
    requires FreeCount(s) >= ColliderCount(insts, n)
    ensures |r| == |s| && FreeCount(r) == FreeCount(s) - ColliderCount(insts, n)
  {
    if n == 0 then s
    else Placed(PlacedAll(s, insts, n - 1), insts[n - 1])
  }

  /**
   * The loop of Obstacles::Init over a table of instances: each one is
   * registered in table order.
   */
  method PlaceAll(registry: Collisions, insts: seq<Instance>)
    requires registry.Valid() && (forall k :: 0 <= k < |insts| ==> RawOk(insts[k]))
    requires FreeCount(registry.objects[..]) >= ColliderCount(insts, |insts|)
    modifies registry.objects
    ensures registry.objects[..] == PlacedAll(old(registry.objects[..]), insts, |insts|)
  {
    ghost var s0 := registry.objects[..];
    for n := 0 to |insts|
      invariant ColliderCount(insts, n) <= ColliderCount(insts, |insts|)
      invariant registry.objects[..] == PlacedAll(s0, insts, n)
    {
      ColliderCountMono(insts, n + 1, |insts|);
      assert ColliderCount(insts, n + 1) == ColliderCount(insts, n) + CollidersPer(Def(insts[n].kind));
      assert FreeCount(registry.objects[..]) == FreeCount(s0) - ColliderCount(insts, n);
      PlaceOne(registry, insts[n]);
    }
  }

  /**
   * Obstacles::Init: registers every instance of the table. The registry
   * must have the free slots the table needs, and exactly 32 are used.
   */
  method Init(registry: Collisions)
    requires registry.Valid() && FreeCount(registry.objects[..]) >= ColliderCount(Instances, |Instances|)
    modifies registry.objects
    ensures registry.objects[..] == PlacedAll(old(registry.objects[..]), Instances, |Instances|)
    ensures FreeCount(registry.objects[..]) == old(FreeCount(registry.objects[..])) - 32
  {
    TableRawOk();
    TableColliders();
    PlaceAll(registry, Instances);
  }

  /** One iteration of Init: allocate and configure the tank collider, then the projectile collider if needed. */
  method PlaceOne(registry: Collisions, inst: Instance)
    requires registry.Valid() && RawOk(inst)
    requires FreeCount(registry.objects[..]) >= CollidersPer(Def(inst.kind))
    modifies registry.objects
    ensures registry.objects[..] == Placed(old(registry.objects[..]), inst)
  {
    var d := Def(inst.kind);
    var pose := IdentityAt(Position(inst));
    ghost var s := registry.objects[..];
    FreeCountBounded(s);
    var h := registry.AllocateObject();
    registry.Configure(h, pose, d.tankRadius, TankMask(d), 0.0);
    ghost var r := registry.objects[..];
    assert r == s[h := TankCollider(inst)];
    if NeedsProjectileCollider(d) {
      TakeFree(s, TankCollider(inst));
      FreeCountBounded(r);
      var w := FirstFree(r).value;
      assert registry.objects[w].mask == 0;
      var h2 := registry.AllocateObject();
      registry.Configure(h2, pose, d.projectileRadius, MaskProjectileObstacle, d.surfaceAngle);
      assert registry.objects[..] == r[h2 := ProjectileCollider(inst)];
    }
  }

  // ---------------------------------------------------------------------
  // Distance fade
  // ---------------------------------------------------------------------

  /** Obstacles fade out at this distance from the camera. */
  const MaxDist: real := 32.0

  /** The squared ground-plane distance from the camera. */
  function SquaredDistance(camera: Vec3, pos: Vec3): (q: real)
    ensures q >= 0.0
  {
    var dx := pos.x - camera.x;
    var dz := pos.z - camera.z;
    assert dx * dx >= 0.0 && dz * dz >= 0.0;
    dx * dx + dz * dz
  }

  /** The fade for squared distance q: 1 - q / 32^2 scaled by the intensity adjustment, 0 from the fade distance on. */
  function Fade(q: real): real
  {
    var normDist := q / (MaxDist * MaxDist);
    if normDist >= 1.0 then 0.0 else (1.0 - normDist) * IntensityAdjustment
  }

  /** calcIntensity: a Manhattan early-out at twice the fade distance, then the fade. */
  function CalcIntensity(camera: Vec3, pos: Vec3): real
  {
    if Abs(pos.x - camera.x) + Abs(pos.z - camera.z) > MaxDist * 2.0 then 0.0
    else Fade(SquaredDistance(camera, pos))
  }

  /** The fade lies in [0, IntensityAdjustment], is positive exactly inside the fade distance, full at 0, and never increases. */
  lemma FadeShape(q: real, q': real)
    requires 0.0 <= q <= q'
    ensures 0.0 <= Fade(q) <= IntensityAdjustment && Fade(0.0) == IntensityAdjustment
    ensures Fade(q) > 0.0 <==> q < MaxDist * MaxDist
    ensures Fade(q) >= Fade(q')
  {
  }

  /** (a + b)^2 never exceeds twice a^2 + b^2. */
  lemma SumSquareBound(a: real, b: real)
    ensures (a + b) * (a + b) <= 2.0 * (a * a + b * b)
  {
    assert (a - b) * (a - b) >= 0.0;
    assert (a + b) * (a + b) + (a - b) * (a - b) == 2.0 * (a * a + b * b);
  }

  /** Beyond the Manhattan bound the point is certainly beyond the fade distance. */
  lemma ManhattanBeyondFade(a: real, b: real)
    requires a >= 0.0 && b >= 0.0 && a + b > 64.0
    ensures a * a + b * b >= 1024.0
  {
    SumSquareBound(a, b);
    SquareStrictlyMonotone(64.0, a + b);
  }

  /**
   * The early-out never changes the result: the intensity is the fade of
   * the squared distance, so it lies in [0, IntensityAdjustment], is
   * positive exactly within the fade distance and is full at the camera.
   */
  lemma IntensityIsFade(camera: Vec3, pos: Vec3)
    ensures CalcIntensity(camera, pos) == Fade(SquaredDistance(camera, pos))
    ensures 0.0 <= CalcIntensity(camera, pos) <= IntensityAdjustment
    ensures CalcIntensity(camera, pos) > 0.0 <==> SquaredDistance(camera, pos) < MaxDist * MaxDist
    ensures pos.x == camera.x && pos.z == camera.z ==> CalcIntensity(camera, pos) == IntensityAdjustment
  {
    var dx := pos.x - camera.x;
    var dz := pos.z - camera.z;
    FadeShape(SquaredDistance(camera, pos), SquaredDistance(camera, pos));
    if Abs(dx) + Abs(dz) > MaxDist * 2.0 {
      assert Abs(dx) * Abs(dx) == dx * dx && Abs(dz) * Abs(dz) == dz * dz;
      ManhattanBeyondFade(Abs(dx), Abs(dz));
    }
  }

  /** Nearer obstacles are never dimmer. */
  lemma IntensityFades(camera: Vec3, near: Vec3, far: Vec3)
    requires SquaredDistance(camera, near) <= SquaredDistance(camera, far)
    ensures CalcIntensity(camera, near) >= CalcIntensity(camera, far)
  {
    IntensityIsFade(camera, near);
    IntensityIsFade(camera, far);
    FadeShape(SquaredDistance(camera, near), SquaredDistance(camera, far));
  }
}
