/**
 * The collision registry: a fixed pool of 48 collider slots, first-fit
 * allocation, and the broad-phase plus swept oriented-box narrow-phase query.
 */
module Collisions {
  import opened Geometry
  import opened Wrappers
  import opened CollisionTypes

  const MaxCollisionObjects: nat := 48

  /** The mask an allocated but not yet configured slot carries. */
  const AllocatedMask: bv32 := 0x1000

  /** The factor from half box width to circumscribed radius (sqrt 2, rounded up). */
  const RadiusFactor: real := 1.4142136

  /** The allocation sentinel shares no bit with any query built from the capability flags. */
  lemma SentinelMatchesNoFlags(queryMask: bv32)
    requires FlagsOnly(queryMask)
    ensures AllocatedMask & queryMask == 0
  {
  }

  // ---------------------------------------------------------------------
  // Configure
  // ---------------------------------------------------------------------

  /** The XZ-plane projection of a 3D pose: model x and model z columns, and the X/Z translation. */
  function FlattenPose(modelToWorld: Transform3D): Transform2D
  {
    Transform2D(
      Vec2(modelToWorld.m0.x, modelToWorld.m0.z),
      Vec2(modelToWorld.m2.x, modelToWorld.m2.z),
      Vec2(modelToWorld.t.x, modelToWorld.t.z))
  }

  /**
   * The collider that CollisionObject::Configure leaves in a slot. Its
   * circle circumscribes its square footprint, and its centre is the origin
   * of its local frame.
   */
  function Configured(modelToWorld: Transform3D, halfBoxWidth: real, mask: bv32, surfaceAngle: real): (o: CollisionObject)
    ensures o.mask == mask && o.halfBoxWidth == halfBoxWidth && o.surfaceAngle == surfaceAngle
    ensures o.pos == Vec2(modelToWorld.t.x, modelToWorld.t.z) && o.localToWorld.t == o.pos
  {
    var localToWorld := FlattenPose(modelToWorld);
    CollisionObject(localToWorld, OrthonormalInvert(localToWorld), localToWorld.t,
                    halfBoxWidth, halfBoxWidth * RadiusFactor, mask, surfaceAngle)
  }

  /** The bounding circle of a configured collider covers its square footprint, corners included. */
  lemma ConfiguredCircleCoversBox(modelToWorld: Transform3D, halfBoxWidth: real, mask: bv32, surfaceAngle: real)
    requires halfBoxWidth >= 0.0
    ensures var o := Configured(modelToWorld, halfBoxWidth, mask, surfaceAngle);
      o.radius >= halfBoxWidth && o.radius * o.radius >= 2.0 * halfBoxWidth * halfBoxWidth
  {
  }

  /**
   * When the flattened pose is rigid, the stored world-to-local transform is
   * the exact inverse of the local-to-world one, and maps the centre to the
   * local origin.
   */
  lemma ConfiguredFramesAreInverse(modelToWorld: Transform3D, halfBoxWidth: real, mask: bv32, surfaceAngle: real, p: Vec2)
    requires Orthonormal(FlattenPose(modelToWorld))
    ensures var o := Configured(modelToWorld, halfBoxWidth, mask, surfaceAngle);
      Transform2(o.worldToLocal, Transform2(o.localToWorld, p)) == p &&
      Transform2(o.localToWorld, Transform2(o.worldToLocal, p)) == p &&
      Transform2(o.worldToLocal, o.pos) == Vec2(0.0, 0.0)
  {
    var o := Configured(modelToWorld, halfBoxWidth, mask, surfaceAngle);
    InvertUndoesTransform(o.localToWorld, p);
    InvertIsRightInverse(o.localToWorld, p);
    InvertUndoesTransform(o.localToWorld, Vec2(0.0, 0.0));
    assert Transform2(o.localToWorld, Vec2(0.0, 0.0)) == o.pos;
  }

  // ---------------------------------------------------------------------
  // Broad phase
  // ---------------------------------------------------------------------

  function DistX(o: CollisionObject, test: CollisionTester): real { Abs(o.pos.x - test.pos.x) }
  function DistZ(o: CollisionObject, test: CollisionTester): real { Abs(o.pos.y - test.pos.y) }

  predicate MasksMeet(o: CollisionObject, test: CollisionTester)
  {
    o.mask & test.mask != 0
  }

  /** The Manhattan pre-filter, which avoids squaring large distances. */
  predicate ManhattanOk(o: CollisionObject, test: CollisionTester)
  {
    DistX(o, test) + DistZ(o, test) <= (o.halfBoxWidth + test.radius) * 2.0
  }

  /** Squared centre distance minus squared sum of radii: non-positive when the circles overlap. */
  function Separation(o: CollisionObject, test: CollisionTester): real
  {
    var dx, dz := DistX(o, test), DistZ(o, test);
    var minSep := o.radius + test.radius;
    dx * dx + dz * dz - minSep * minSep
  }

  predicate CircleOk(o: CollisionObject, test: CollisionTester)
  {
    Separation(o, test) <= 0.0
  }

  /**
   * The Manhattan pre-filter never rejects a pair whose centre distance is at
   * most sqrt 2 times the extended half width. (With RadiusFactor rounded up
   * to 1.4142136 the circle test can admit a sliver beyond that bound, so the
   * model keeps both tests in the acceptance condition.)
   */
  lemma ManhattanFilterSound(dx: real, dz: real, w: real)
    requires dx >= 0.0 && dz >= 0.0 && w >= 0.0
    requires dx * dx + dz * dz <= 2.0 * w * w
    ensures dx + dz <= 2.0 * w
  {
    var m := dx + dz;
    assert m * m <= 4.0 * w * w by {
      assert (dx - dz) * (dx - dz) >= 0.0;
      assert m * m == 2.0 * (dx * dx + dz * dz) - (dx - dz) * (dx - dz);
    }
    if m > 2.0 * w {
      SquareStrictlyMonotone(2.0 * w, m);
      assert false;
    }
  }

  /**
   * On the model's own tests: for a collider whose radius is hbw * RadiusFactor,
   * a probe whose circle test passes also passes the Manhattan pre-filter, as
   * long as the probe's radius is not negligible next to the half width
   * (at least hbw / 10^7). Projectile probes (radius 0.01 against half widths
   * of at most 0.75) are well inside this bound.
   */
  lemma CircleImpliesManhattan(o: CollisionObject, test: CollisionTester)
    requires o.radius == o.halfBoxWidth * RadiusFactor && o.halfBoxWidth >= 0.0
    requires test.radius * 10000000.0 >= o.halfBoxWidth
    requires CircleOk(o, test)
    ensures ManhattanOk(o, test)
  {
    var h, r := o.halfBoxWidth, test.radius;
    var dx, dz := DistX(o, test), DistZ(o, test);
    var w, s := h + r, o.radius + r;
    assert s == RadiusFactor * h + r;
    assert 2.0 * w * w - s * s == -0.00000010642496 * (h * h) + 1.1715728 * (h * r) + r * r;
    ProductBelow(h, r);
    assert s * s <= 2.0 * w * w;
    assert dx * dx + dz * dz <= s * s;
    ManhattanFilterSound(dx, dz, w);
  }

  /** h * h / 10^7 is at most h * r when r * 10^7 is at least h >= 0. */
  lemma ProductBelow(h: real, r: real)
    requires h >= 0.0 && r * 10000000.0 >= h
    ensures 0.0000001 * h * h <= h * r
  {
    assert h * (r * 10000000.0) >= h * h;
  }

  /**
   * Without a probe radius the implication fails: a zero-radius probe at
   * (1.00000002, 1.00000002) from a unit collider at the origin lies within
   * the rounded-up radius 1.4142136 but beyond the Manhattan bound 2.
   */
  lemma ZeroRadiusSliver(o: CollisionObject, test: CollisionTester)
    requires o.pos == Vec2(0.0, 0.0) && o.halfBoxWidth == 1.0 && o.radius == RadiusFactor
    requires test.pos == Vec2(1.00000002, 1.00000002) && test.radius == 0.0
    ensures CircleOk(o, test) && !ManhattanOk(o, test)
  {
    assert DistX(o, test) == 1.00000002 && DistZ(o, test) == 1.00000002;
  }

  /** Squaring is strictly increasing on the non-negative reals. */
  lemma SquareStrictlyMonotone(a: real, b: real)
    requires 0.0 <= a < b
    ensures a * a < b * b
  {
    var d := b - a;
    assert b * b == (a + d) * (a + d);
    assert (a + d) * (a + d) == a * a + 2.0 * a * d + d * d;
    assert d * d > 0.0;
    assert a * d >= 0.0;
  }

  // ---------------------------------------------------------------------
  // Narrow phase
  // ---------------------------------------------------------------------

  /** The probe position in the collider's local frame. */
  function LocalPos(o: CollisionObject, test: CollisionTester): Vec2
  {
    Transform2(o.worldToLocal, test.pos)
  }

  /** The local-space box reject, with the box extended by the probe radius. */
  predicate BoxOk(o: CollisionObject, test: CollisionTester)
  {
    var local := LocalPos(o, test);
    var extended := o.halfBoxWidth + test.radius;
    Abs(local.x) <= extended && Abs(local.y) <= extended
  }

  datatype Axis = X | Y

  function Coord(v: Vec2, axis: Axis): real
  {
    if axis == X then v.x else v.y
  }

  /** Negates the flagged components. Its own inverse. */
  function Flip(v: Vec2, flipX: bool, flipY: bool): Vec2
  {
    Vec2(if flipX then -v.x else v.x, if flipY then -v.y else v.y)
  }

  /**
   * The probe in local space with each axis flipped so that the step is
   * non-positive on it: cur is the current position, step the displacement.
   */
  datatype Canon = Canon(flipX: bool, flipY: bool, cur: Vec2, step: Vec2)

  function Canonicalise(local: Vec2, delta: Vec2): (c: Canon)
    ensures c.step.x <= 0.0 && c.step.y <= 0.0
    ensures c.flipX <==> delta.x > 0.0
    ensures c.flipY <==> delta.y > 0.0
    ensures Flip(c.cur, c.flipX, c.flipY) == local && Flip(c.step, c.flipX, c.flipY) == delta
  {
    var flipX, flipY := delta.x > 0.0, delta.y > 0.0;
    Canon(flipX, flipY, Flip(local, flipX, flipY), Flip(delta, flipX, flipY))
  }

  /** The position one step earlier, in the flipped frame. */
  function Prev(c: Canon): Vec2
  {
    Sub2(c.cur, c.step)
  }

  /** The probe, canonicalised in the collider's local frame. */
  function ProbeCanon(o: CollisionObject, test: CollisionTester): Canon
  {
    Canonicalise(LocalPos(o, test), Rotate2(o.worldToLocal, test.deltaPos))
  }

  /** The box edge at hbw was crossed this tick on this axis: now below it, before at or above it. */
  predicate Crossed(c: Canon, hbw: real, axis: Axis)
  {
    Coord(c.cur, axis) < hbw <= Coord(Prev(c), axis)
  }

  predicate EdgeCrossed(o: CollisionObject, test: CollisionTester)
  {
    var c := ProbeCanon(o, test);
    Crossed(c, o.halfBoxWidth, X) || Crossed(c, o.halfBoxWidth, Y)
  }

  /** The surface tilt: no table lookup for angle 0. */
  function SurfaceTrig(surfaceAngle: real, sinCos: real -> Trig): Trig
  {
    if surfaceAngle == 0.0 then Trig(0.0, 1.0) else sinCos(surfaceAngle)
  }

  /** The walked-back hit position in the flipped frame: prev + step * t. */
  function HitFlipped(c: Canon, t: real): Vec2
  {
    Add2(Prev(c), Scale2(c.step, t))
  }

  function NormalFlipped(axis: Axis, cos: real): Vec2
  {
    if axis == X then Vec2(cos, 0.0) else Vec2(0.0, cos)
  }

  /** Un-flips the hit position and normal and takes them back to world space. */
  function ContactFrom(o: CollisionObject, idx: nat, c: Canon, axis: Axis, t: real, trig: Trig): CollisionInfo
  {
    var hitLocal := Flip(HitFlipped(c, t), c.flipX, c.flipY);
    var normalLocal := Flip(NormalFlipped(axis, trig.cos), c.flipX, c.flipY);
    var pos := Transform2(o.localToWorld, hitLocal);
    var normal := Rotate2(o.localToWorld, normalLocal);
    CollisionInfo(Vec3(pos.x, 0.0, pos.y), Vec3(normal.x, trig.sin, normal.y), idx)
  }

  // --- as written in the source -----------------------------------------

  /** The source's interpolation fraction, (hbw - cur) / (prev - cur), or 0 on an axis not crossed. */
  function AsWrittenFraction(c: Canon, hbw: real, axis: Axis): real
  {
    if Crossed(c, hbw, axis) then
      (hbw - Coord(c.cur, axis)) / (Coord(Prev(c), axis) - Coord(c.cur, axis))
    else 0.0
  }

  /** The source's choice: x when its fraction is strictly larger, else y. */
  function AsWrittenAxis(c: Canon, hbw: real): Axis
  {
    if AsWrittenFraction(c, hbw, X) > AsWrittenFraction(c, hbw, Y) then X else Y
  }

  /** The contact exactly as the source computes it; None when no edge was crossed. */
  function SweptContactAsWritten(o: CollisionObject, idx: nat, test: CollisionTester, sinCos: real -> Trig): (r: Option<CollisionInfo>)
    ensures r.Some? <==> EdgeCrossed(o, test)
    ensures r.Some? ==> r.value.obj == idx
  {
    CanonContactAsWritten(o, idx, ProbeCanon(o, test), sinCos)
  }

  /** The source's contact for a probe already in the flipped local frame. */
  function CanonContactAsWritten(o: CollisionObject, idx: nat, c: Canon, sinCos: real -> Trig): Option<CollisionInfo>
  {
    var hbw := o.halfBoxWidth;
    if !Crossed(c, hbw, X) && !Crossed(c, hbw, Y) then None
    else
      var axis := AsWrittenAxis(c, hbw);
      Some(ContactFrom(o, idx, c, axis, AsWrittenFraction(c, hbw, axis), SurfaceTrig(o.surfaceAngle, sinCos)))
  }

  /** On a crossed axis the source's fraction lies in (0, 1]. */
  lemma AsWrittenFractionInRange(c: Canon, hbw: real, axis: Axis)
    requires Crossed(c, hbw, axis)
    ensures 0.0 < AsWrittenFraction(c, hbw, axis) <= 1.0
  {
    var cur, prev := Coord(c.cur, axis), Coord(Prev(c), axis);
    assert 0.0 < hbw - cur <= prev - cur;
    DivInUnit(hbw - cur, prev - cur);
  }

  lemma DivInUnit(n: real, d: real)
    requires 0.0 < n <= d
    ensures 0.0 < n / d <= 1.0
  {
    assert n / d * d == n;
  }

  /**
   * The source always strikes a crossed axis, and the local step on it is
   * strictly negative in the flipped frame.
   */
  lemma AsWrittenAxisIsCrossed(c: Canon, hbw: real)
    requires Crossed(c, hbw, X) || Crossed(c, hbw, Y)
    ensures Crossed(c, hbw, AsWrittenAxis(c, hbw))
    ensures Coord(c.step, AsWrittenAxis(c, hbw)) < 0.0
  {
    if Crossed(c, hbw, X) { AsWrittenFractionInRange(c, hbw, X); }
    if Crossed(c, hbw, Y) { AsWrittenFractionInRange(c, hbw, Y); }
  }

  /**
   * On the struck axis the source's hit coordinate is prev + cur - hbw, which
   * is the edge hbw only when prev + cur == 2 * hbw.
   */
  lemma AsWrittenHitOffEdge(c: Canon, hbw: real, axis: Axis)
    requires Crossed(c, hbw, axis)
    ensures Coord(HitFlipped(c, AsWrittenFraction(c, hbw, axis)), axis)
         == Coord(Prev(c), axis) + Coord(c.cur, axis) - hbw
  {
    var cur, prev := Coord(c.cur, axis), Coord(Prev(c), axis);
    var t := (hbw - cur) / (prev - cur);
    assert Coord(c.step, axis) == cur - prev;
    assert (cur - prev) * t == -(hbw - cur) by {
      assert t * (prev - cur) == hbw - cur;
    }
  }

  // --- corrected ----------------------------------------------------------

  /** The fraction of the step, from the previous position, at which the edge was reached. */
  function EntryFraction(c: Canon, hbw: real, axis: Axis): real
    requires Crossed(c, hbw, axis)
  {
    (Coord(Prev(c), axis) - hbw) / (Coord(Prev(c), axis) - Coord(c.cur, axis))
  }

  lemma DivInHalfOpenUnit(n: real, d: real)
    requires 0.0 <= n < d
    ensures 0.0 <= n / d < 1.0
  {
    assert n / d * d == n;
  }

  /** The crossed axis whose edge was reached last; ties go to y. */
  function StruckAxis(c: Canon, hbw: real): (axis: Axis)
    requires Crossed(c, hbw, X) || Crossed(c, hbw, Y)
    ensures Crossed(c, hbw, axis)
    ensures forall a: Axis :: Crossed(c, hbw, a) ==> EntryFraction(c, hbw, a) <= EntryFraction(c, hbw, axis)
  {
    if Crossed(c, hbw, X) && (!Crossed(c, hbw, Y) || EntryFraction(c, hbw, X) > EntryFraction(c, hbw, Y)) then X else Y
  }

  /** The contact with the entry fraction: the collider model uses this one. */
  function SweptContact(o: CollisionObject, idx: nat, test: CollisionTester, sinCos: real -> Trig): (r: Option<CollisionInfo>)
    ensures r.Some? <==> EdgeCrossed(o, test)
    ensures r.Some? ==> r.value.obj == idx
  {
    CanonContact(o, idx, ProbeCanon(o, test), sinCos)
  }

  /** The corrected contact for a probe already in the flipped local frame. */
  function CanonContact(o: CollisionObject, idx: nat, c: Canon, sinCos: real -> Trig): Option<CollisionInfo>
  {
    var hbw := o.halfBoxWidth;
    if !Crossed(c, hbw, X) && !Crossed(c, hbw, Y) then None
    else
      var axis := StruckAxis(c, hbw);
      Some(ContactFrom(o, idx, c, axis, EntryFraction(c, hbw, axis), SurfaceTrig(o.surfaceAngle, sinCos)))
  }

  /** The entry fraction lies in [0, 1), the struck step is strictly negative, and the hit lies on the edge. */
  lemma EntryHitsEdge(c: Canon, hbw: real, axis: Axis)
    requires Crossed(c, hbw, axis)
    ensures 0.0 <= EntryFraction(c, hbw, axis) < 1.0
    ensures Coord(c.step, axis) < 0.0
    ensures Coord(HitFlipped(c, EntryFraction(c, hbw, axis)), axis) == hbw
  {
    var cur, prev := Coord(c.cur, axis), Coord(Prev(c), axis);
    var e := (prev - hbw) / (prev - cur);
    DivInHalfOpenUnit(prev - hbw, prev - cur);
    assert e * (prev - cur) == prev - hbw;
    assert Coord(c.step, axis) == cur - prev;
  }

  /**
   * The local normal of the corrected contact: on the struck axis it is the
   * surface cosine when the local step there was non-positive, minus it when
   * positive; 0 on the other axis. Its height is the surface sine.
   */
  lemma ContactNormal(o: CollisionObject, idx: nat, test: CollisionTester, sinCos: real -> Trig)
    requires EdgeCrossed(o, test)
    ensures var c := ProbeCanon(o, test);
      var axis := StruckAxis(c, o.halfBoxWidth);
      var trig := SurfaceTrig(o.surfaceAngle, sinCos);
      var delta := Rotate2(o.worldToLocal, test.deltaPos);
      var normalLocal := Flip(NormalFlipped(axis, trig.cos), c.flipX, c.flipY);
      Coord(normalLocal, axis) == (if Coord(delta, axis) <= 0.0 then trig.cos else -trig.cos) &&
      Coord(normalLocal, if axis == X then Y else X) == 0.0 &&
      SweptContact(o, idx, test, sinCos).value.normal.y == trig.sin &&
      (o.surfaceAngle == 0.0 ==> SweptContact(o, idx, test, sinCos).value.normal.y == 0.0)
  {
  }

  // ---------------------------------------------------------------------
  // Which slots a query reports
  // ---------------------------------------------------------------------

  /**
   * A slot is reported when its mask meets the query's, both broad-phase
   * tests pass and, in box mode, the local box test passes and (when contact
   * detail is asked for) an edge was crossed.
   */
  predicate Accepts(o: CollisionObject, test: CollisionTester, justDoCircles: bool, wantInfo: bool)
  {
    MasksMeet(o, test) && ManhattanOk(o, test) && CircleOk(o, test) &&
    (justDoCircles || (BoxOk(o, test) && (!wantInfo || EdgeCrossed(o, test))))
  }

  /** No slot is ever reported to a query it shares no mask bit with, whatever the geometry. */
  lemma MaskIndependence(o: CollisionObject, test: CollisionTester, justDoCircles: bool, wantInfo: bool)
    requires o.mask & test.mask == 0
    ensures !Accepts(o, test, justDoCircles, wantInfo)
  {
  }

  /** A slot allocated but not yet configured never matches a query built from the capability flags. */
  lemma UnconfiguredNeverMatches(o: CollisionObject, test: CollisionTester, justDoCircles: bool, wantInfo: bool)
    requires o.mask == AllocatedMask && FlagsOnly(test.mask)
    ensures !Accepts(o, test, justDoCircles, wantInfo)
  {
    SentinelMatchesNoFlags(test.mask);
  }

  /** The index of the last slot before n that the query accepts. */
  function LastAccepted(s: seq<CollisionObject>, n: nat, test: CollisionTester, justDoCircles: bool, wantInfo: bool): (r: Option<nat>)
    requires n <= |s|
    ensures r.Some? ==> r.value < n && Accepts(s[r.value], test, justDoCircles, wantInfo)
    ensures r.Some? ==> forall j :: r.value < j < n ==> !Accepts(s[j], test, justDoCircles, wantInfo)
    ensures r.None? <==> forall j :: 0 <= j < n ==> !Accepts(s[j], test, justDoCircles, wantInfo)
    decreases n
  {
    if n == 0 then None
    else if Accepts(s[n - 1], test, justDoCircles, wantInfo) then Some(n - 1)
    else LastAccepted(s, n - 1, test, justDoCircles, wantInfo)
  }

  /** The contact written by a box-mode query with detail over the first n slots: the last accepted slot's. */
  function InfoWritten(s: seq<CollisionObject>, n: nat, test: CollisionTester, justDoCircles: bool, wantInfo: bool,
                       sinCos: real -> Trig): (r: Option<CollisionInfo>)
    requires n <= |s|
    ensures r.Some? ==> !justDoCircles && wantInfo
    ensures r.Some? ==> r.value.obj < n && Accepts(s[r.value.obj], test, false, true)
    ensures !justDoCircles && wantInfo ==> (r.Some? <==> exists j :: 0 <= j < n && Accepts(s[j], test, false, true))
  {
    if justDoCircles || !wantInfo then None
    else match LastAccepted(s, n, test, false, true)
      case None => None
      case Some(k) => SweptContact(s[k], k, test, sinCos)
  }

  /** One more slot that the query rejects leaves the last accepted slot and the written contact as they were. */
  lemma StepRejected(s: seq<CollisionObject>, i: nat, test: CollisionTester, justDoCircles: bool, wantInfo: bool,
                     sinCos: real -> Trig)
    requires i < |s| && !Accepts(s[i], test, justDoCircles, wantInfo)
    ensures LastAccepted(s, i + 1, test, justDoCircles, wantInfo) == LastAccepted(s, i, test, justDoCircles, wantInfo)
    ensures InfoWritten(s, i + 1, test, justDoCircles, wantInfo, sinCos) == InfoWritten(s, i, test, justDoCircles, wantInfo, sinCos)
  {
  }

  /** One more slot that the query accepts becomes the last accepted one, and its contact the written one. */
  lemma StepAccepted(s: seq<CollisionObject>, i: nat, test: CollisionTester, justDoCircles: bool, wantInfo: bool,
                     sinCos: real -> Trig)
    requires i < |s| && Accepts(s[i], test, justDoCircles, wantInfo)
    ensures LastAccepted(s, i + 1, test, justDoCircles, wantInfo) == Some(i)
    ensures InfoWritten(s, i + 1, test, justDoCircles, wantInfo, sinCos) ==
      if !justDoCircles && wantInfo then SweptContact(s[i], i, test, sinCos) else None
  {
  }

  // ---------------------------------------------------------------------
  // Pool bookkeeping on the sequence of slots
  // ---------------------------------------------------------------------

  /** The lowest-index free slot at or after i. */
  function FirstFreeFrom(s: seq<CollisionObject>, i: nat): (r: Option<nat>)
    requires i <= |s|
    ensures r.Some? ==> i <= r.value < |s| && s[r.value].mask == 0
    ensures r.Some? ==> forall j :: i <= j < r.value ==> s[j].mask != 0
    ensures r.None? <==> forall j :: i <= j < |s| ==> s[j].mask != 0
    decreases |s| - i
  {
    if i == |s| then None
    else if s[i].mask == 0 then Some(i)
    else FirstFreeFrom(s, i + 1)
  }

  function FirstFree(s: seq<CollisionObject>): Option<nat>
  {
    FirstFreeFrom(s, 0)
  }

  /** The number of free slots. */
  function FreeCount(s: seq<CollisionObject>): nat
  {
    if s == [] then 0 else (if s[0].mask == 0 then 1 else 0) + FreeCount(s[1..])
  }

  lemma {:induction false} FreeCountBounded(s: seq<CollisionObject>)
    ensures FreeCount(s) <= |s|
    ensures FreeCount(s) > 0 <==> FirstFree(s).Some?
  {
    if s != [] {
      FreeCountBounded(s[1..]);
      if s[0].mask != 0 {
        assert FirstFree(s).Some? <==> FirstFree(s[1..]).Some? by {
          FirstFreeShift(s);
        }
      }
    }
  }

  lemma FirstFreeShift(s: seq<CollisionObject>)
    requires s != [] && s[0].mask != 0
    ensures FirstFree(s).Some? <==> FirstFree(s[1..]).Some?
  {
    if FirstFree(s[1..]).Some? {
      var k := FirstFree(s[1..]).value;
      assert s[k + 1].mask == 0;
    }
    if FirstFree(s).Some? {
      var k := FirstFree(s).value;
      assert s[1..][k - 1].mask == 0;
    }
  }

  /** Overwriting one slot changes the free count only by that slot's change of state. */
  lemma {:induction false} FreeCountUpdate(s: seq<CollisionObject>, h: nat, o: CollisionObject)
    requires h < |s|
    ensures FreeCount(s[h := o]) ==
      FreeCount(s) - (if s[h].mask == 0 then 1 else 0) + (if o.mask == 0 then 1 else 0)
  {
    if h == 0 {
      assert s[h := o][1..] == s[1..];
    } else {
      FreeCountUpdate(s[1..], h - 1, o);
      assert s[h := o][1..] == s[1..][h - 1 := o];
    }
  }

  /** Every slot free: the count is the pool size. */
  lemma {:induction false} FreeCountAllFree(s: seq<CollisionObject>)
    requires forall i :: 0 <= i < |s| ==> s[i].mask == 0
    ensures FreeCount(s) == |s|
  {
    if s != [] {
      FreeCountAllFree(s[1..]);
    }
  }

  /** The pool after AllocateObject, when h is the slot it picks. */
  function Allocated(s: seq<CollisionObject>, h: nat): seq<CollisionObject>
    requires h < |s|
  {
    s[h := s[h].(mask := AllocatedMask)]
  }

  /** The pool after FreeObject(h). */
  function Freed(s: seq<CollisionObject>, h: nat): seq<CollisionObject>
    requires h < |s|
  {
    s[h := s[h].(mask := 0)]
  }

  /**
   * Allocate, free, allocate on an otherwise unchanged pool picks the same
   * slot again; and an allocation never returns a slot that is live.
   */
  lemma AllocateFreeAllocate(s: seq<CollisionObject>)
    requires FirstFree(s).Some?
    ensures var h := FirstFree(s).value;
      FirstFree(Freed(Allocated(s, h), h)) == Some(h) &&
      FirstFree(Allocated(s, h)) != Some(h)
  {
    var h := FirstFree(s).value;
    var s2 := Freed(Allocated(s, h), h);
    assert forall j :: 0 <= j < |s| ==> (s2[j].mask == 0 <==> s[j].mask == 0);
  }

  // ---------------------------------------------------------------------
  // The registry
  // ---------------------------------------------------------------------

  class Collisions {
    var objects: array<CollisionObject>

    ghost predicate Valid()
      reads this
    {
      objects.Length == MaxCollisionObjects
    }

    /** The static pool: every slot zero-initialised, hence free. */
    constructor ()
      ensures Valid() && fresh(objects)
      ensures forall i :: 0 <= i < objects.Length ==> objects[i] == EmptyObject
    {
      objects := new CollisionObject[MaxCollisionObjects](_ => EmptyObject);
    }

    /** A slot is free. */
    predicate HasFree()
      reads this, objects
    {
      exists i :: 0 <= i < objects.Length && objects[i].mask == 0
    }

    /** Frees every slot and changes nothing else. */
    method Reset()
      requires Valid()
      modifies objects
      ensures forall i :: 0 <= i < objects.Length ==> objects[i] == old(objects[i]).(mask := 0)
      ensures FreeCount(objects[..]) == MaxCollisionObjects
    {
      for i := 0 to objects.Length
        invariant forall j :: 0 <= j < i ==> objects[j] == old(objects[j]).(mask := 0)
        invariant forall j :: i <= j < objects.Length ==> objects[j] == old(objects[j])
      {
        objects[i] := objects[i].(mask := 0);
      }
      FreeCountAllFree(objects[..]);
    }

    /**
     * First-fit allocation: the lowest-index free slot gets the sentinel mask.
     * Running out of slots is an assertion failure, so a free slot is required.
     */
    method AllocateObject() returns (h: nat)
      requires Valid() && HasFree()
      modifies objects
      ensures h < objects.Length && Some(h) == FirstFree(old(objects[..]))
      ensures objects[..] == Allocated(old(objects[..]), h)
      ensures FreeCount(objects[..]) == FreeCount(old(objects[..])) - 1
    {
      h := 0;
      while h < objects.Length
        invariant h <= objects.Length
        invariant forall j :: 0 <= j < h ==> objects[j].mask != 0
        invariant FirstFree(objects[..]) == FirstFreeFrom(objects[..], h)
      {
        if objects[h].mask == 0 {
          FreeCountUpdate(objects[..], h, objects[h].(mask := AllocatedMask));
          objects[h] := objects[h].(mask := AllocatedMask);
          return;
        }
        h := h + 1;
      }
      assert false;
    }

    /** Frees one slot and changes nothing else. */
    method FreeObject(h: nat)
      requires Valid() && h < objects.Length
      modifies objects
      ensures objects[..] == Freed(old(objects[..]), h)
    {
      objects[h] := objects[h].(mask := 0);
    }

    /** CollisionObject::Configure on slot h. */
    method Configure(h: nat, modelToWorld: Transform3D, halfBoxWidth: real, mask: bv32, surfaceAngle: real)
      requires Valid() && h < objects.Length
      modifies objects
      ensures objects[..] == old(objects[..])[h := Configured(modelToWorld, halfBoxWidth, mask, surfaceAngle)]
    {
      objects[h] := Configured(modelToWorld, halfBoxWidth, mask, surfaceAngle);
    }

    /**
     * Tests a probe against every slot. Reports whether any slot was
     * accepted; in box mode with detail, the contact of the LAST accepted
     * slot in index order (not the closest). Changes nothing.
     */
    method Test(test: CollisionTester, justDoCircles: bool, wantInfo: bool, sinCos: real -> Trig)
      returns (hit: bool, info: Option<CollisionInfo>)
      requires Valid()
      ensures hit <==> exists i :: 0 <= i < objects.Length && Accepts(objects[i], test, justDoCircles, wantInfo)
      ensures info == InfoWritten(objects[..], objects.Length, test, justDoCircles, wantInfo, sinCos)
      ensures !justDoCircles && wantInfo ==> (hit <==> info.Some?)
    {
      ghost var s := objects[..];
      var closestSeparationSquared: real := -1.0;
      var closestObject: Option<nat> := None;
      info := None;
      for i := 0 to objects.Length
        invariant closestObject.Some? <==> LastAccepted(s, i, test, justDoCircles, wantInfo).Some?
        invariant closestObject.Some? ==>
          closestObject.value < i && closestSeparationSquared == Separation(s[closestObject.value], test)
        invariant info == InfoWritten(s, i, test, justDoCircles, wantInfo, sinCos)
      {
        var slot := objects[i];
        if !MasksMeet(slot, test) {
          StepRejected(s, i, test, justDoCircles, wantInfo, sinCos);
          continue;
        }
        // Manhattan early-out, before squaring anything
        if !ManhattanOk(slot, test) {
          StepRejected(s, i, test, justDoCircles, wantInfo, sinCos);
          continue;
        }
        var separationSquaredKinda := Separation(slot, test);
        if !CircleOk(slot, test) {
          StepRejected(s, i, test, justDoCircles, wantInfo, sinCos);
          continue;
        }
        if justDoCircles {
          if closestObject.Some? && separationSquaredKinda > closestSeparationSquared {
            // Overlapping, but not the closest
            StepAccepted(s, i, test, justDoCircles, wantInfo, sinCos);
            continue;
          }
        } else {
          if !BoxOk(slot, test) {
            StepRejected(s, i, test, justDoCircles, wantInfo, sinCos);
            continue;
          }
          if wantInfo {
            var contact := SweptContact(slot, i, test, sinCos);
            if contact.None? {
              // No edge crossed this tick
              StepRejected(s, i, test, justDoCircles, wantInfo, sinCos);
              continue;
            }
            info := contact;
          }
        }
        StepAccepted(s, i, test, justDoCircles, wantInfo, sinCos);
        closestObject := Some(i);
        closestSeparationSquared := separationSquaredKinda;
      }
      hit := closestObject.Some?;
    }
  }
}

module CollisionsHeadOn {
  import opened Wrappers
  import opened Geometry
  import opened CollisionTypes
  import opened Collisions

  const IdentityFrame := Transform2D(Vec2(1.0, 0.0), Vec2(0.0, 1.0), Vec2(0.0, 0.0))

  /** A unit box at the world origin, unrotated and untilted. */
  predicate UnitBoxAtOrigin(o: CollisionObject)
  {
    o.halfBoxWidth == 1.0 && o.surfaceAngle == 0.0 && o.localToWorld == IdentityFrame && o.worldToLocal == IdentityFrame
  }

  /** A probe now at the origin that moved by (-3, 0) this tick. */
  predicate HeadOnProbe(test: CollisionTester)
  {
    test.pos == Vec2(0.0, 0.0) && test.deltaPos == Vec2(-3.0, 0.0)
  }

  /** Configure with an identity pose at the origin, half width 1 and no tilt leaves a unit box at the origin. */
  lemma ConfiguredUnitBox(mask: bv32)
    ensures UnitBoxAtOrigin(Configured(IdentityAt(Vec3(0.0, 0.0, 0.0)), 1.0, mask, 0.0))
  {
    var o := Configured(IdentityAt(Vec3(0.0, 0.0, 0.0)), 1.0, mask, 0.0);
    assert o.localToWorld == IdentityFrame;
    IdentityFrameSelfInverse();
    assert o.worldToLocal == OrthonormalInvert(IdentityFrame);
  }

  /** The identity frame is its own orthonormal inverse. */
  lemma IdentityFrameSelfInverse()
    ensures OrthonormalInvert(IdentityFrame) == IdentityFrame
  {
    InvertTranslation(Vec2(0.0, 0.0));
  }

  /**
   * The corrected sweep of the head-on probe against a unit box: the
   * contact is on the face x = 1, with normal (1, 0, 0).
   */
  lemma HeadOnSweep(o: CollisionObject, test: CollisionTester, sinCos: real -> Trig)
    requires UnitBoxAtOrigin(o) && HeadOnProbe(test)
    ensures SweptContact(o, 0, test, sinCos) == Some(CollisionInfo(Vec3(1.0, 0.0, 0.0), Vec3(1.0, 0.0, 0.0), 0))
  {
    var c := HeadOnCanon(o, test);
    HeadOnCanonContact(o, sinCos);
  }

  /** The same sweep as the source computes it: the hit is put at x = 2, one unit in front of the face x = 1 it entered. */
  lemma HeadOnSweepAsWritten(o: CollisionObject, test: CollisionTester, sinCos: real -> Trig)
    requires UnitBoxAtOrigin(o) && HeadOnProbe(test)
    ensures SweptContactAsWritten(o, 0, test, sinCos) == Some(CollisionInfo(Vec3(2.0, 0.0, 0.0), Vec3(1.0, 0.0, 0.0), 0))
  {
    var c := HeadOnCanon(o, test);
    HeadOnCanonContactAsWritten(o, sinCos);
  }

  /** The head-on probe after canonicalisation. */
  const HeadOn := Canon(false, false, Vec2(0.0, 0.0), Vec2(-3.0, 0.0))

  lemma HeadOnCanonContact(o: CollisionObject, sinCos: real -> Trig)
    requires UnitBoxAtOrigin(o)
    ensures CanonContact(o, 0, HeadOn, sinCos) == Some(CollisionInfo(Vec3(1.0, 0.0, 0.0), Vec3(1.0, 0.0, 0.0), 0))
  {
    HeadOnFractions(HeadOn);
    HeadOnContact(o, HeadOn, 2.0 / 3.0, Vec2(1.0, 0.0), sinCos);
  }

  lemma HeadOnCanonContactAsWritten(o: CollisionObject, sinCos: real -> Trig)
    requires UnitBoxAtOrigin(o)
    ensures CanonContactAsWritten(o, 0, HeadOn, sinCos) == Some(CollisionInfo(Vec3(2.0, 0.0, 0.0), Vec3(1.0, 0.0, 0.0), 0))
  {
    HeadOnFractions(HeadOn);
    HeadOnContact(o, HeadOn, 1.0 / 3.0, Vec2(2.0, 0.0), sinCos);
  }

  /** The canonical head-on probe: no flips and a step of (-3, 0). */
  lemma HeadOnCanon(o: CollisionObject, test: CollisionTester) returns (c: Canon)
    requires UnitBoxAtOrigin(o) && HeadOnProbe(test)
    ensures c == ProbeCanon(o, test)
    ensures c == Canon(false, false, Vec2(0.0, 0.0), Vec2(-3.0, 0.0))
  {
    c := Canon(false, false, Vec2(0.0, 0.0), Vec2(-3.0, 0.0));
    HeadOnLocal(o, test);
    HeadOnCanonical();
  }

  lemma HeadOnLocal(o: CollisionObject, test: CollisionTester)
    requires UnitBoxAtOrigin(o) && HeadOnProbe(test)
    ensures LocalPos(o, test) == Vec2(0.0, 0.0)
    ensures Rotate2(o.worldToLocal, test.deltaPos) == Vec2(-3.0, 0.0)
  {
    UnrotatedFrame(Vec2(0.0, 0.0), Vec2(0.0, 0.0));
    UnrotatedFrame(Vec2(0.0, 0.0), Vec2(-3.0, 0.0));
  }

  lemma HeadOnCanonical()
    ensures Canonicalise(Vec2(0.0, 0.0), Vec2(-3.0, 0.0)) == Canon(false, false, Vec2(0.0, 0.0), Vec2(-3.0, 0.0))
  {
  }

  /**
   * Only the x edge is crossed; the entry fraction is 2/3 and the source's
   * fraction 1/3, and both choose the x axis.
   */
  lemma HeadOnFractions(c: Canon)
    requires c == Canon(false, false, Vec2(0.0, 0.0), Vec2(-3.0, 0.0))
    ensures Crossed(c, 1.0, X) && !Crossed(c, 1.0, Y)
    ensures EntryFraction(c, 1.0, X) == 2.0 / 3.0 && StruckAxis(c, 1.0) == X
    ensures AsWrittenFraction(c, 1.0, X) == 1.0 / 3.0 && AsWrittenAxis(c, 1.0) == X
  {
    assert Prev(c) == Vec2(3.0, 0.0);
  }

  /** The world contact of the head-on probe for a given fraction. */
  lemma HeadOnContact(o: CollisionObject, c: Canon, t: real, hit: Vec2, sinCos: real -> Trig)
    requires o.surfaceAngle == 0.0 && o.localToWorld == IdentityFrame
    requires c == Canon(false, false, Vec2(0.0, 0.0), Vec2(-3.0, 0.0))
    requires hit == Vec2(3.0 - 3.0 * t, 0.0)
    ensures ContactFrom(o, 0, c, X, t, SurfaceTrig(o.surfaceAngle, sinCos))
         == CollisionInfo(Vec3(hit.x, 0.0, 0.0), Vec3(1.0, 0.0, 0.0), 0)
  {
    assert HitFlipped(c, t) == hit;
    UnrotatedFrame(Vec2(0.0, 0.0), hit);
    UnrotatedFrame(Vec2(0.0, 0.0), Vec2(1.0, 0.0));
  }
}
