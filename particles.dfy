/**
 * Particles: a static pool of 128 point particles, each with a lifetime
 * countdown. A particle is active exactly while its tick count is non-zero.
 * The per-particle behaviour (ParticleBase) is also used by the debris
 * chunks of the enemy tanks.
 */
module Particles {
  import opened Geometry
  import opened GameConstants

  const MaxParticles: int := 128

  /** The range of the unsigned 32-bit tick counter. */
  const UintModulus: int := 0x1_0000_0000

  const Gravity: real := 0.0001
  const Damping: real := 0.999

  /** The velocity scale applied when a particle bounces off the ground. */
  const Bounce := Vec3(0.75, -0.5, 0.75)

  /** Unsigned 32-bit decrement: 0 wraps to the largest value. */
  function Dec32(n: nat): (r: nat)
    requires n < UintModulus
    ensures r < UintModulus && (r + 1) % UintModulus == n
  {
    if n == 0 then UintModulus - 1 else n - 1
  }

  function Mul3(a: Vec3, b: Vec3): Vec3 { Vec3(a.x * b.x, a.y * b.y, a.z * b.z) }

  /** The state of one particle (ParticleBase). */
  datatype Particle = Particle(
    pos: Vec3,
    velocity: Vec3,
    ticksRemaining: nat,
    startTicks: nat,
    startBrightness: real,
    brightness: real,
    recipTotalTicks: real)

  predicate IsActive(p: Particle)
  {
    p.ticksRemaining != 0
  }

  /**
   * What every particle keeps from construction on: the counters fit an
   * unsigned 32-bit word, the lifetime is at least one tick, the remaining
   * ticks never exceed it, and the reciprocal is exact.
   */
  predicate WellFormed(p: Particle)
  {
    p.startTicks < UintModulus && p.ticksRemaining <= p.startTicks && p.startTicks >= 1 &&
    p.recipTotalTicks * (p.startTicks as real) == 1.0 && p.startBrightness >= 0.0
  }

  /**
   * A freshly constructed particle, given the random draw in [0, 1] that
   * picks its relative life in [0.25, 1]. The start tick count truncates
   * relLife * 240 toward zero.
   */
  function NewParticle(rand: real): (p: Particle)
    requires 0.0 <= rand <= 1.0
    ensures WellFormed(p) && !IsActive(p)
    ensures 60 <= p.startTicks <= FramesPerSecond
    ensures 0.075 <= p.startBrightness <= 0.3
  {
    var relLife := rand * 0.75 + 0.25;
    var startTicks := (relLife * (FramesPerSecond as real)).Floor;
    assert 60 <= startTicks <= 240 by {
      assert 60.0 <= relLife * 240.0 <= 240.0;
    }
    Particle(Vec3(0.0, 0.0, 0.0), Vec3(0.0, 0.0, 0.0), 0, startTicks, relLife * 0.3, 0.0, 1.0 / (startTicks as real))
  }

  /** ParticleBase::Activate: restart the countdown at the given position and velocity. */
  function Activated(p: Particle, pos: Vec3, velocity: Vec3): (q: Particle)
    ensures IsActive(q) <==> p.startTicks != 0
    ensures WellFormed(p) ==> WellFormed(q)
    ensures q.pos == pos && q.velocity == velocity && q.ticksRemaining == p.startTicks
    ensures q.brightness == p.startBrightness
    ensures q.startTicks == p.startTicks && q.startBrightness == p.startBrightness
  {
    p.(ticksRemaining := p.startTicks, brightness := p.startBrightness, pos := pos, velocity := velocity)
  }

  /** ParticleBase::DeActivate. */
  function DeActivated(p: Particle): (q: Particle)
    ensures !IsActive(q)
    ensures WellFormed(p) ==> WellFormed(q)
    ensures q == p.(ticksRemaining := q.ticksRemaining)
  {
    p.(ticksRemaining := 0)
  }

  /**
   * ParticleBase::Update: count down; on reaching 0 deactivate and stop,
   * otherwise apply gravity and damping, move, bounce off the ground and
   * fade the brightness with the remaining life.
   */
  function Stepped(p: Particle): (q: Particle)
    requires p.ticksRemaining < UintModulus
    ensures q.ticksRemaining == Dec32(p.ticksRemaining)
    ensures !IsActive(q) ==> q == p.(ticksRemaining := 0)
    ensures IsActive(q) ==> q.pos.y >= 0.0
    ensures q.startTicks == p.startTicks && q.startBrightness == p.startBrightness && q.recipTotalTicks == p.recipTotalTicks
  {
    var ticks := Dec32(p.ticksRemaining);
    if ticks == 0 then DeActivated(p)
    else
      var falling := Vec3(p.velocity.x, p.velocity.y - Gravity, p.velocity.z);
      var damped := Scale3(falling, Damping);
      var moved := Add3(p.pos, damped);
      var pos := if moved.y < 0.0 then moved.(y := 0.0) else moved;
      var velocity := if moved.y < 0.0 then Mul3(damped, Bounce) else damped;
      p.(ticksRemaining := ticks, pos := pos, velocity := velocity,
         brightness := p.recipTotalTicks * (ticks as real) * p.startBrightness)
  }

  /**
   * Updating an active particle counts down by exactly one, never wrapping,
   * keeps it well formed, and fades its brightness to ticks / startTicks of
   * the start brightness.
   */
  lemma SteppedActive(p: Particle)
    requires WellFormed(p) && IsActive(p)
    ensures Stepped(p).ticksRemaining == p.ticksRemaining - 1
    ensures WellFormed(Stepped(p))
    ensures IsActive(Stepped(p)) ==> 0.0 <= Stepped(p).brightness <= p.startBrightness
  {
    var q := Stepped(p);
    if IsActive(q) {
      var t := p.ticksRemaining - 1;
      assert q.ticksRemaining == t;
      assert q.brightness == p.recipTotalTicks * (t as real) * p.startBrightness;
      FadeAt(p, t);
    }
  }

  /** The brightness a well-formed particle has with t <= startTicks ticks left lies in [0, startBrightness]. */
  lemma FadeAt(p: Particle, t: nat)
    requires WellFormed(p) && t <= p.startTicks
    ensures 0.0 <= p.recipTotalTicks * (t as real) * p.startBrightness <= p.startBrightness
  {
    Fade(p.recipTotalTicks, t as real, p.startTicks as real, p.startBrightness);
  }

  /** r * t * b lies in [0, b] when r is the reciprocal of s and 0 <= t <= s. */
  lemma Fade(r: real, t: real, s: real, b: real)
    requires r * s == 1.0 && 0.0 <= t <= s && b >= 0.0
    ensures 0.0 <= r * t * b <= b
  {
    assert s > 0.0;
    assert r > 0.0 by {
      if r <= 0.0 {
        NonPositiveProduct(r, s);
        assert false;
      }
    }
    var u := r * t;
    assert 0.0 <= u <= r * s;
    assert (1.0 - u) * b >= 0.0;
    assert u * b >= 0.0;
  }

  lemma NonPositiveProduct(r: real, s: real)
    requires r <= 0.0 && s >= 0.0
    ensures r * s <= 0.0
  {
  }

  // ---------------------------------------------------------------------
  // Spawn bookkeeping on the sequence of slots
  // ---------------------------------------------------------------------

  /** The number of inactive particles among the first n. */
  function InactiveBefore(s: seq<Particle>, n: nat): nat
    requires n <= |s|
  {
    if n == 0 then 0 else InactiveBefore(s, n - 1) + (if IsActive(s[n - 1]) then 0 else 1)
  }

  /**
   * Whether Spawn picks slot i: it is inactive and fewer than count
   * inactive slots come before it. A count of 0 or less never runs out.
   */
  predicate Chosen(s: seq<Particle>, i: nat, count: int)
    requires i < |s|
  {
    !IsActive(s[i]) && (count <= 0 || InactiveBefore(s, i) < count)
  }

  /** The number of chosen slots among the first n. */
  function ChosenBefore(s: seq<Particle>, n: nat, count: int): nat
    requires n <= |s|
  {
    if n == 0 then 0 else ChosenBefore(s, n - 1, count) + (if Chosen(s, n - 1, count) then 1 else 0)
  }

  function Min(a: int, b: int): int { if a < b then a else b }

  /** With count >= 1, Spawn activates min(count, inactive) particles. */
  lemma {:induction false} ChosenCount(s: seq<Particle>, n: nat, count: int)
    requires n <= |s| && count >= 1
    ensures ChosenBefore(s, n, count) == Min(count, InactiveBefore(s, n))
  {
    if n > 0 {
      ChosenCount(s, n - 1, count);
    }
  }

  /** With count <= 0, Spawn activates every inactive particle. */
  lemma {:induction false} ChosenAll(s: seq<Particle>, n: nat, count: int)
    requires n <= |s| && count <= 0
    ensures ChosenBefore(s, n, count) == InactiveBefore(s, n)
  {
    if n > 0 {
      ChosenAll(s, n - 1, count);
    }
  }

  lemma {:induction false} InactiveBeforeMonotone(s: seq<Particle>, a: nat, b: nat)
    requires a <= b <= |s|
    ensures InactiveBefore(s, a) <= InactiveBefore(s, b)
    decreases b - a
  {
    if a < b {
      InactiveBeforeMonotone(s, a, b - 1);
    }
  }

  /** Spawn fills the lowest-index free slots: an inactive slot before a chosen one is chosen too. */
  lemma ChosenArePrefix(s: seq<Particle>, i: nat, j: nat, count: int)
    requires j < i < |s| && Chosen(s, i, count) && !IsActive(s[j])
    ensures Chosen(s, j, count)
  {
    InactiveBeforeMonotone(s, j, i);
  }

  /** The particle in slot i after Spawn. */
  function SpawnedSlot(s: seq<Particle>, i: nat, pos: Vec3, count: int, velocityOf: nat -> Vec3): Particle
    requires i < |s|
  {
    if Chosen(s, i, count) then Activated(s[i], pos, velocityOf(i)) else s[i]
  }

  // ---------------------------------------------------------------------
  // The pool
  // ---------------------------------------------------------------------

  class ParticlePool {
    var slots: array<Particle>

    ghost predicate Valid()
      reads this, slots
    {
      slots.Length == MaxParticles && forall i :: 0 <= i < slots.Length ==> WellFormed(slots[i])
    }

    /**
     * The static array: each particle constructed with its own random
     * relative life, given by lifeDraw, and inactive.
     */
    constructor (lifeDraw: nat -> real)
      requires forall i :: 0 <= i < MaxParticles ==> 0.0 <= lifeDraw(i) <= 1.0
      ensures Valid() && fresh(slots)
      ensures forall i :: 0 <= i < slots.Length ==> slots[i] == NewParticle(lifeDraw(i))
    {
      slots := new Particle[MaxParticles](i requires 0 <= i < MaxParticles => NewParticle(lifeDraw(i)));
    }

    /** Deactivates every active particle; nothing else changes. */
    method Reset()
      requires Valid()
      modifies slots
      ensures Valid()
      ensures forall i :: 0 <= i < slots.Length ==> !IsActive(slots[i])
      ensures forall i :: 0 <= i < slots.Length ==> slots[i] == old(slots[i]).(ticksRemaining := 0)
    {
      for i := 0 to slots.Length
        invariant Valid()
        invariant forall j :: 0 <= j < i ==> slots[j] == old(slots[j]).(ticksRemaining := 0)
        invariant forall j :: i <= j < slots.Length ==> slots[j] == old(slots[j])
      {
        if IsActive(slots[i]) {
          slots[i] := DeActivated(slots[i]);
        }
      }
    }

    /** Steps every active particle; inactive ones are not touched. */
    method Update()
      requires Valid()
      modifies slots
      ensures Valid()
      ensures forall i :: 0 <= i < slots.Length ==>
        slots[i] == if IsActive(old(slots[i])) then Stepped(old(slots[i])) else old(slots[i])
      ensures forall i :: 0 <= i < slots.Length && IsActive(old(slots[i])) ==>
        slots[i].ticksRemaining == old(slots[i]).ticksRemaining - 1
    {
      for i := 0 to slots.Length
        invariant Valid()
        invariant forall j :: 0 <= j < i ==>
          slots[j] == if IsActive(old(slots[j])) then Stepped(old(slots[j])) else old(slots[j])
        invariant forall j :: 0 <= j < i && IsActive(old(slots[j])) ==>
          slots[j].ticksRemaining == old(slots[j]).ticksRemaining - 1
        invariant forall j :: i <= j < slots.Length ==> slots[j] == old(slots[j])
      {
        if IsActive(slots[i]) {
          SteppedActive(slots[i]);
          slots[i] := Stepped(slots[i]);
        }
      }
    }

    /**
     * Particles::Spawn: activates the lowest-index inactive particles at
     * pos, up to count of them (all of them when count <= 0). The spawn
     * basis and the random velocities are given by velocityOf, indexed by
     * slot.
     */
    method Spawn(pos: Vec3, count: int, velocityOf: nat -> Vec3)
      requires Valid()
      modifies slots
      ensures Valid()
      ensures forall i :: 0 <= i < slots.Length ==>
        slots[i] == SpawnedSlot(old(slots[..]), i, pos, count, velocityOf)
    {
      ghost var s := slots[..];
      var left := count;
      for i := 0 to slots.Length
        invariant Valid()
        invariant left == count - InactiveBefore(s, i)
        invariant count >= 1 ==> left >= 1
        invariant forall j :: 0 <= j < i ==> slots[j] == SpawnedSlot(s, j, pos, count, velocityOf)
        invariant forall j :: i <= j < slots.Length ==> slots[j] == s[j]
      {
        if !IsActive(slots[i]) {
          slots[i] := Activated(slots[i], pos, velocityOf(i));
          left := left - 1;
          if left == 0 {
            forall j | i < j < slots.Length
              ensures !Chosen(s, j, count)
            {
              InactiveBeforeMonotone(s, i + 1, j);
            }
            break;
          }
        }
      }
    }
  }
}
