/**
 * The collision vocabulary shared by every entity: capability masks, the
 * collider record, the immutable query (tester) and the contact report.
 */
module CollisionTypes {
  import opened Geometry

  /** Capability masks: which categories a collider belongs to or a query is interested in. */
  const MaskProjectileObstacle: bv32 := 1
  const MaskTankObstacle: bv32 := 2
  const MaskPlayer: bv32 := 4
  const MaskEnemy: bv32 := 8

  /** The four capability flags together. */
  const AllFlags: bv32 := MaskProjectileObstacle | MaskTankObstacle | MaskPlayer | MaskEnemy

  /** A mask built only from the capability flags. */
  predicate FlagsOnly(m: bv32)
  {
    m & AllFlags == m
  }

  /** The four capability masks are single bits and pairwise distinct. */
  lemma MasksAreDistinctBits()
    ensures MaskProjectileObstacle == 1 << 0 && MaskTankObstacle == 1 << 1
    ensures MaskPlayer == 1 << 2 && MaskEnemy == 1 << 3
    ensures MaskProjectileObstacle & MaskTankObstacle == 0 && MaskProjectileObstacle & MaskPlayer == 0
    ensures MaskProjectileObstacle & MaskEnemy == 0 && MaskTankObstacle & MaskPlayer == 0
    ensures MaskTankObstacle & MaskEnemy == 0 && MaskPlayer & MaskEnemy == 0
  {
  }

  /**
   * A collider slot. The slot is free exactly when its mask is 0.
   * Positions are on the X/Z plane of the world, stored as (x, y) = (X, Z).
   */
  datatype CollisionObject = CollisionObject(
    localToWorld: Transform2D,
    worldToLocal: Transform2D,
    pos: Vec2,
    halfBoxWidth: real,
    radius: real,
    mask: bv32,
    surfaceAngle: real)

  /** The zero-initialised slot of the static pool. */
  const EmptyObject := CollisionObject(
    Transform2D(Vec2(0.0, 0.0), Vec2(0.0, 0.0), Vec2(0.0, 0.0)),
    Transform2D(Vec2(0.0, 0.0), Vec2(0.0, 0.0), Vec2(0.0, 0.0)),
    Vec2(0.0, 0.0), 0.0, 0.0, 0, 0.0)

  /** The collider's mask accessor. */
  function GetMask(o: CollisionObject): bv32
  {
    o.mask
  }

  /** A probe: its current position, this tick's step, its radius and its mask, on the X/Z plane. */
  datatype CollisionTester = CollisionTester(pos: Vec2, deltaPos: Vec2, radius: real, mask: bv32)

  /** Builds a probe from 3D vectors by dropping their vertical components. */
  function MakeTester(pos: Vec3, deltaPos: Vec3, radius: real, mask: bv32): (t: CollisionTester)
    ensures t.radius == radius && t.mask == mask
    ensures t.pos.x == pos.x && t.pos.y == pos.z && t.deltaPos.x == deltaPos.x && t.deltaPos.y == deltaPos.z
  {
    CollisionTester(Vec2(pos.x, pos.z), Vec2(deltaPos.x, deltaPos.z), radius, mask)
  }

  /** The probe does not depend on the heights of its position and step. */
  lemma TesterIgnoresHeight(pos: Vec3, deltaPos: Vec3, radius: real, mask: bv32, h: real, k: real)
    ensures MakeTester(pos, deltaPos, radius, mask) == MakeTester(pos.(y := h), deltaPos.(y := k), radius, mask)
  {
  }

  /** A contact report: world hit position (height 0), contact normal and the struck slot. */
  datatype CollisionInfo = CollisionInfo(pos: Vec3, normal: Vec3, obj: nat)
}
