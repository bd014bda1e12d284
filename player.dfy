/**
 * The player's tank: turning with a yaw speed that ramps up while a turn
 * button is held and decays back to zero when none is, a forward speed
 * that ramps between zero and a top speed with the thrust button, and a
 * fire button that launches projectile slot 0 along the view direction.
 */
module PlayerTank {
  import opened Geometry
  import opened GameConstants
  import opened Projectiles
  import ProjectileFlight

  /** The largest yaw speed, in radians per tick, and its change per tick. */
  const YawRate: real := 1.0 * PerSecond
  const YawAcceleration: real := 0.01 * PerSecond

  /** The top speed, in world units per tick, and its change per tick. */
  const TopSpeed: real := 2.5 * PerSecond
  const Acceleration: real := 0.02 * PerSecond

  /** The height the tank's camera is held at. */
  const EyeHeight: real := 0.625

  function Min(a: real, b: real): real { if a < b then a else b }
  function Max(a: real, b: real): real { if a > b then a else b }

  /** With no turn button held the yaw speed decays by one acceleration step toward zero, stopping at zero. */
  function Damped(s: real): real
  {
    if s > 0.0 then Max(s - YawAcceleration, 0.0) else Min(s + YawAcceleration, 0.0)
  }

  /**
   * The yaw speed after one tick: left pulls it down to at most -YawRate,
   * then right pushes it up to at most YawRate (both held cancel out away
   * from the limits); with neither held it is damped.
   */
  function Steered(s: real, left: bool, right: bool): real
  {
    if !left && !right then Damped(s)
    else
      var l := if left then Max(s - YawAcceleration, -YawRate) else s;
      if right then Min(l + YawAcceleration, YawRate) else l
  }

  /** The yaw after adding the yaw speed, brought back into [0, 2 pi] by one turn either way. */
  function Wrapped(yaw: real, yawSpeed: real): real
  {
    var y := yaw + yawSpeed;
    var y' := if y < 0.0 then y + TwoPi else y;
    if y' > TwoPi then y' - TwoPi else y'
  }

  /** The speed after one tick: thrust adds one acceleration step up to the top speed, otherwise one is taken off down to 0. */
  function Throttled(speed: real, thrust: bool): real
  {
    if thrust then Min(speed + Acceleration, TopSpeed) else Max(speed - Acceleration, 0.0)
  }

  /** The camera's pose: turned by the yaw, at the position. */
  function ViewToWorld(position: Vec3, yaw: Trig): Transform3D
  {
    WithYaw(IdentityAt(position), yaw)
  }

  /** The pose a shot leaves from: the camera looks along its z axis while a tank model faces along its x axis. */
  function MuzzlePose(view: Transform3D): Transform3D
  {
    Transform3D(view.m2, view.m1, Neg3(view.m0), view.t)
  }

  /** Damping never speeds the turn up, never reverses it, and stops it within one step of zero. */
  lemma DampedTowardZero(s: real)
    ensures Abs(Damped(s)) <= Abs(s)
    ensures s >= 0.0 ==> Damped(s) >= 0.0
    ensures s <= 0.0 ==> Damped(s) <= 0.0
    ensures Abs(s) <= YawAcceleration ==> Damped(s) == 0.0
    ensures Abs(s) > YawAcceleration ==> Abs(Damped(s)) == Abs(s) - YawAcceleration
  {
  }

  /** The yaw speed stays within the turn-rate limit, and moves by at most one acceleration step. */
  lemma SteeredInRange(s: real, left: bool, right: bool)
    requires -YawRate <= s <= YawRate
    ensures -YawRate <= Steered(s, left, right) <= YawRate
    ensures Abs(Steered(s, left, right) - s) <= YawAcceleration
    ensures left && !right ==> Steered(s, left, right) <= s
    ensures right && !left ==> Steered(s, left, right) >= s
  {
  }

  /** The yaw stays in [0, 2 pi] and differs from yaw + yawSpeed by a whole turn at most. */
  lemma WrappedInRange(yaw: real, yawSpeed: real)
    requires 0.0 <= yaw <= TwoPi && -TwoPi <= yawSpeed <= TwoPi
    ensures var r := Wrapped(yaw, yawSpeed);
      0.0 <= r <= TwoPi &&
      (r == yaw + yawSpeed || r == yaw + yawSpeed + TwoPi || r == yaw + yawSpeed - TwoPi)
  {
  }

  /** The speed stays in [0, TopSpeed]; thrust never slows the tank and its absence never speeds it up. */
  lemma ThrottledInRange(speed: real, thrust: bool)
    requires 0.0 <= speed <= TopSpeed
    ensures 0.0 <= Throttled(speed, thrust) <= TopSpeed
    ensures thrust ==> Throttled(speed, thrust) >= speed
    ensures !thrust ==> Throttled(speed, thrust) <= speed
  {
  }

  /** The speed after n ticks with the thrust button in the same state. */
  function ThrottledFor(speed: real, thrust: bool, n: nat): real
  {
    if n == 0 then speed else Throttled(ThrottledFor(speed, thrust, n - 1), thrust)
  }

  /** From rest, n ticks of thrust give n acceleration steps, capped at the top speed (reached after 125 ticks). */
  lemma {:induction false} ThrustRamp(n: nat)
    ensures ThrottledFor(0.0, true, n) == Min(n as real * Acceleration, TopSpeed)
  {
    if n > 0 {
      ThrustRamp(n - 1);
      assert (n - 1) as real * Acceleration + Acceleration == n as real * Acceleration;
    }
  }

  /** The yaw speed after n ticks with the turn buttons in the same state. */
  function SteeredFor(s: real, left: bool, right: bool, n: nat): real
  {
    if n == 0 then s else Steered(SteeredFor(s, left, right, n - 1), left, right)
  }

  /** From rest, n ticks of holding right give n acceleration steps, capped at the turn rate (reached after 100 ticks). */
  lemma {:induction false} TurnRamp(n: nat)
    ensures SteeredFor(0.0, false, true, n) == Min(n as real * YawAcceleration, YawRate)
  {
    if n > 0 {
      TurnRamp(n - 1);
      assert (n - 1) as real * YawAcceleration + YawAcceleration == n as real * YawAcceleration;
    }
  }

  /**
   * The tank drives along the camera's view direction, level with the
   * ground, and a shot leaves along that same direction: both are multiples
   * of (sin yaw, 0, cos yaw).
   */
  lemma ShotAlongHeading(position: Vec3, yaw: Trig, speed: real)
    ensures Scale3(ViewToWorld(position, yaw).m2, speed) == Vec3(yaw.sin * speed, 0.0, yaw.cos * speed)
    ensures Launched(MuzzlePose(ViewToWorld(position, yaw)), ProjectileFlight.PlayerShotMask).step
         == Vec3(yaw.sin * TranslationSpeed, 0.0, yaw.cos * TranslationSpeed)
    ensures MuzzlePose(ViewToWorld(position, yaw)).t == position
  {
  }

  class Player {
    var yaw: real
    var yawSpeed: real
    var position: Vec3
    var velocity: Vec3
    var speed: real

    /** The yaw speed and speed within their limits, the yaw within one turn. */
    ghost predicate Valid()
      reads this
    {
      -YawRate <= yawSpeed <= YawRate && 0.0 <= yaw <= TwoPi && 0.0 <= speed <= TopSpeed
    }

    /** The zero-initialised statics. */
    constructor ()
      ensures Valid()
      ensures yaw == 0.0 && yawSpeed == 0.0 && speed == 0.0
      ensures position == Vec3(0.0, 0.0, 0.0) && velocity == Vec3(0.0, 0.0, 0.0)
    {
      yaw, yawSpeed, speed := 0.0, 0.0, 0.0;
      position, velocity := Vec3(0.0, 0.0, 0.0), Vec3(0.0, 0.0, 0.0);
    }

    /** Player::Reset: the start position and a yaw of 1.5 pi; the yaw speed, speed and velocity are kept. */
    method Reset()
      requires Valid()
      modifies this
      ensures Valid()
      ensures position == Vec3(4.0, 0.5, 0.0) && yaw == Pi * 1.5
      ensures yawSpeed == old(yawSpeed) && speed == old(speed) && velocity == old(velocity)
    {
      position := Vec3(4.0, 0.5, 0.0);
      yaw := Pi * 1.5;
    }

    /**
     * Player::Update for one tick, given the button states and the sine
     * table: turn, drive along the new heading at camera height, and fire
     * slot 0 from the camera's pose when fire was just pressed and the slot
     * is idle.
     */
    method Update(left: bool, right: bool, thrust: bool, firePressed: bool,
                  sinCos: real -> Trig, projectiles: ProjectilePool)
      requires Valid() && projectiles.Valid()
      modifies this, projectiles, projectiles.slots
      ensures Valid() && projectiles.Valid() && projectiles.slots == old(projectiles.slots)
      ensures yawSpeed == Steered(old(yawSpeed), left, right)
      ensures yaw == Wrapped(old(yaw), yawSpeed)
      ensures speed == Throttled(old(speed), thrust)
      ensures velocity == Scale3(ViewToWorld(old(position), sinCos(yaw)).m2, speed)
      ensures position == Add3(old(position), velocity).(y := EyeHeight)
      ensures var launch := firePressed && !old(projectiles.slots[0].active);
        (launch ==> projectiles.slots[..] == old(projectiles.slots[..])[0 := Launched(
          MuzzlePose(ViewToWorld(position, sinCos(yaw))), ProjectileFlight.PlayerShotMask)]) &&
        (!launch ==> projectiles.slots[..] == old(projectiles.slots[..]))
    {
      Turn(left, right);
      var viewToWorld := WithYaw(IdentityAt(position), sinCos(yaw));
      Drive(thrust, viewToWorld.m2);
      viewToWorld := viewToWorld.(t := position);
      if firePressed && !projectiles.IsActive(0) {
        var modelToWorld := Transform3D(viewToWorld.m2, viewToWorld.m1, Neg3(viewToWorld.m0), viewToWorld.t);
        projectiles.Create(0, modelToWorld, ProjectileFlight.PlayerShotMask);
      }
    }

    /** The turning part of Player::Update: steer the yaw speed, then add it to the yaw and wrap. */
    method Turn(left: bool, right: bool)
      requires Valid()
      modifies this
      ensures Valid()
      ensures yawSpeed == Steered(old(yawSpeed), left, right)
      ensures yaw == Wrapped(old(yaw), yawSpeed)
      ensures speed == old(speed) && position == old(position) && velocity == old(velocity)
    {
      SteeredInRange(yawSpeed, left, right);
      var dampYaw := true;
      if left {
        yawSpeed := yawSpeed - YawAcceleration;
        if yawSpeed < -YawRate { yawSpeed := -YawRate; }
        dampYaw := false;
      }
      if right {
        yawSpeed := yawSpeed + YawAcceleration;
        if yawSpeed > YawRate { yawSpeed := YawRate; }
        dampYaw := false;
      }
      if dampYaw {
        if yawSpeed > 0.0 {
          yawSpeed := yawSpeed - YawAcceleration;
          if yawSpeed < 0.0 { yawSpeed := 0.0; }
        } else {
          yawSpeed := yawSpeed + YawAcceleration;
          if yawSpeed > 0.0 { yawSpeed := 0.0; }
        }
      }
      WrappedInRange(yaw, yawSpeed);
      yaw := yaw + yawSpeed;
      if yaw < 0.0 { yaw := yaw + TwoPi; }
      if yaw > TwoPi { yaw := yaw - TwoPi; }
    }

    /** The driving part of Player::Update: throttle, then move along the heading at camera height. */
    method Drive(thrust: bool, heading: Vec3)
      requires Valid()
      modifies this
      ensures Valid()
      ensures speed == Throttled(old(speed), thrust)
      ensures velocity == Scale3(heading, speed)
      ensures position == Add3(old(position), velocity).(y := EyeHeight)
      ensures yaw == old(yaw) && yawSpeed == old(yawSpeed)
    {
      ThrottledInRange(speed, thrust);
      if thrust {
        speed := speed + Acceleration;
        if speed > TopSpeed { speed := TopSpeed; }
      } else {
        speed := speed - Acceleration;
        if speed < 0.0 { speed := 0.0; }
      }
      velocity := Scale3(heading, speed);
      position := Add3(position, velocity);
      position := position.(y := EyeHeight);
    }
  }
}
