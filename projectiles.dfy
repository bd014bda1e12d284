/**
 * Projectiles: a static pool of 5 projectiles. Slot 0 belongs to the
 * player and slots 1 to 4 to the enemy tanks. A running counter tracks how
 * many slots are active. The per-tick flight is in module ProjectileFlight.
 */
module Projectiles {
  import opened Geometry
  import opened GameConstants

  const MaxProjectiles: int := 5

  /** World units per tick: 8 per second. */
  const TranslationSpeed: real := 8.0 * PerSecond

  /** Lifetime in ticks: 1.5 seconds at 240 ticks per second. */
  const LifeTicks: int := 360

  /** The state of one projectile. */
  datatype Projectile = Projectile(
    active: bool,
    ticksRemaining: int,
    mask: bv32,
    pose: Transform3D,
    step: Vec3)

  /** The zero-initialised slot of the static array. */
  const Idle := Projectile(false, 0, 0,
    Transform3D(Vec3(0.0, 0.0, 0.0), Vec3(0.0, 0.0, 0.0), Vec3(0.0, 0.0, 0.0), Vec3(0.0, 0.0, 0.0)),
    Vec3(0.0, 0.0, 0.0))

  /**
   * Projectile::Activate without the counter: full lifetime, the given mask
   * and pose, and a per-tick step of TranslationSpeed along the parent's
   * model x axis.
   */
  function Launched(parent: Transform3D, mask: bv32): (q: Projectile)
    ensures q.active && q.ticksRemaining == LifeTicks && q.mask == mask && q.pose == parent
    ensures q.step == Scale3(parent.m0, TranslationSpeed)
  {
    var step := Rotate3(parent, Vec3(TranslationSpeed, 0.0, 0.0));
    assert step == Scale3(parent.m0, TranslationSpeed);
    Projectile(true, LifeTicks, mask, parent, step)
  }

  /**
   * Projectile::Update up to the probe: one tick off the lifetime; at zero
   * the projectile goes inactive where it is, otherwise it moves one step.
   */
  function Moved(p: Projectile): (q: Projectile)
    ensures q.ticksRemaining == p.ticksRemaining - 1 && q.mask == p.mask && q.step == p.step
    ensures q.active <==> p.active && p.ticksRemaining != 1
    ensures p.ticksRemaining == 1 ==> q.pose == p.pose
    ensures p.ticksRemaining != 1 ==> q.pose.t == Add3(p.pose.t, p.step)
  {
    var ticks := p.ticksRemaining - 1;
    if ticks == 0 then p.(ticksRemaining := ticks, active := false)
    else p.(ticksRemaining := ticks, pose := Translate(p.pose, p.step))
  }

  /** An active projectile has between 1 and LifeTicks ticks left. */
  predicate SlotOk(p: Projectile)
  {
    p.active ==> 1 <= p.ticksRemaining <= LifeTicks
  }

  /** The number of active slots. */
  function ActiveCount(s: seq<Projectile>): nat
  {
    if s == [] then 0 else (if s[0].active then 1 else 0) + ActiveCount(s[1..])
  }

  /** Overwriting one slot changes the count only by that slot's change of state. */
  lemma {:induction false} ActiveCountUpdate(s: seq<Projectile>, i: nat, p: Projectile)
    requires i < |s|
    ensures ActiveCount(s[i := p]) == ActiveCount(s) - (if s[i].active then 1 else 0) + (if p.active then 1 else 0)
  {
    if i == 0 {
      assert s[i := p][1..] == s[1..];
    } else {
      ActiveCountUpdate(s[1..], i - 1, p);
      assert s[i := p][1..] == s[1..][i - 1 := p];
    }
  }

  lemma {:induction false} ActiveCountNone(s: seq<Projectile>)
    requires forall i :: 0 <= i < |s| ==> !s[i].active
    ensures ActiveCount(s) == 0
  {
    if s != [] {
      ActiveCountNone(s[1..]);
    }
  }

  class ProjectilePool {
    var slots: array<Projectile>
    var numActive: int

    /** The counter always equals the number of active slots, and every slot is well formed. */
    ghost predicate Valid()
      reads this, slots
    {
      slots.Length == MaxProjectiles && numActive == ActiveCount(slots[..]) &&
      forall i :: 0 <= i < slots.Length ==> SlotOk(slots[i])
    }

    /** The static array: every slot zeroed, the counter 0. */
    constructor ()
      ensures Valid() && fresh(slots)
      ensures forall i :: 0 <= i < slots.Length ==> slots[i] == Idle
      ensures numActive == 0
    {
      slots := new Projectile[MaxProjectiles](_ => Idle);
      numActive := 0;
      new;
      ActiveCountNone(slots[..]);
    }

    /** Projectiles::IsActive. */
    predicate IsActive(idx: nat)
      requires idx < slots.Length
      reads this, slots
    {
      slots[idx].active
    }

    /** Projectile::Activate: launch slot idx and count it. */
    method Activate(idx: nat, parent: Transform3D, mask: bv32)
      requires Valid() && idx < slots.Length && !slots[idx].active
      modifies this, slots
      ensures Valid() && slots == old(slots)
      ensures slots[..] == old(slots[..])[idx := Launched(parent, mask)]
      ensures numActive == old(numActive) + 1
    {
      ActiveCountUpdate(slots[..], idx, Launched(parent, mask));
      slots[idx] := Launched(parent, mask);
      numActive := numActive + 1;
    }

    /** Projectile::DeActivate: clear the active flag and uncount; every other field is kept. */
    method DeActivate(idx: nat)
      requires Valid() && idx < slots.Length && slots[idx].active
      modifies this, slots
      ensures Valid() && slots == old(slots)
      ensures slots[..] == old(slots[..])[idx := old(slots[idx]).(active := false)]
      ensures numActive == old(numActive) - 1
    {
      ActiveCountUpdate(slots[..], idx, slots[idx].(active := false));
      slots[idx] := slots[idx].(active := false);
      numActive := numActive - 1;
    }

    /**
     * The countdown and move of Projectile::Update on an active slot: the
     * slot becomes Moved(...), and is deactivated and uncounted when its
     * lifetime runs out.
     */
    method Fly(idx: nat)
      requires Valid() && idx < slots.Length && slots[idx].active
      modifies this, slots
      ensures Valid() && slots == old(slots)
      ensures slots[..] == old(slots[..])[idx := Moved(old(slots[idx]))]
      ensures numActive == old(numActive) - (if Moved(old(slots[idx])).active then 0 else 1)
    {
      var ticks := slots[idx].ticksRemaining - 1;
      if ticks == 0 {
        DeActivate(idx);
        ActiveCountUpdate(slots[..], idx, slots[idx].(ticksRemaining := ticks));
        slots[idx] := slots[idx].(ticksRemaining := ticks);
        return;
      }
      ActiveCountUpdate(slots[..], idx, slots[idx].(ticksRemaining := ticks, pose := Translate(slots[idx].pose, slots[idx].step)));
      slots[idx] := slots[idx].(ticksRemaining := ticks, pose := Translate(slots[idx].pose, slots[idx].step));
    }

    /**
     * Projectiles::Create: launches slot idx when it is inactive; on an
     * active slot (a failed debug assertion) nothing changes.
     */
    method Create(idx: nat, parent: Transform3D, mask: bv32)
      requires Valid() && idx < slots.Length
      modifies this, slots
      ensures Valid() && slots == old(slots)
      ensures old(slots[idx].active) ==> slots[..] == old(slots[..]) && numActive == old(numActive)
      ensures !old(slots[idx].active) ==>
        slots[..] == old(slots[..])[idx := Launched(parent, mask)] && numActive == old(numActive) + 1
    {
      if !slots[idx].active {
        Activate(idx, parent, mask);
      }
    }

    /** Deactivates every active projectile; the counter drops to 0. */
    method Reset()
      requires Valid()
      modifies this, slots
      ensures Valid() && slots == old(slots) && numActive == 0
      ensures forall i :: 0 <= i < slots.Length ==> slots[i] == old(slots[i]).(active := false)
    {
      for i := 0 to slots.Length
        invariant Valid() && slots == old(slots)
        invariant forall j :: 0 <= j < i ==> slots[j] == old(slots[j]).(active := false)
        invariant forall j :: i <= j < slots.Length ==> slots[j] == old(slots[j])
      {
        if slots[i].active {
          DeActivate(i);
        }
      }
      ActiveCountNone(slots[..]);
    }
  }
}
