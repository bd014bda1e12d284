/** Game-wide constants shared by the entity pools. */
module GameConstants {
  /** The simulation runs at a fixed 240 ticks per second. */
  const FramesPerSecond: int := 240

  /** Converts a per-second rate into a per-tick one. */
  const PerSecond: real := 1.0 / 240.0

  /** The brightness scale that keeps intensities uniform across frame rates: 120 / 240. */
  const IntensityAdjustment: real := 120.0 / 240.0

  /**
   * The fixed-point value of pi used by the angle arithmetic. Only its sign
   * and rough size matter to the properties stated here.
   */
  const Pi: real := 3.14159265
  const TwoPi: real := Pi * 2.0

  const MaxEnemyTanks: int := 4
}
