/**
 * The duration tile of the statistics grid (src/components/TripStats.tsx):
 * a number of seconds shown as `{Math.floor(duration / 60)}m {duration % 60}s`.
 */
module TripStats {

  /** What the tile shows: whole minutes and the seconds left over. */
  datatype Clock = Clock(minutes: int, seconds: int)

  /**
   * JavaScript's `%` on integers: the quotient is truncated toward zero, so
   * the remainder takes the sign of the dividend (unlike Dafny's `%`).
   */
  function JsRemainder(a: int, b: int): (r: int)
    requires b > 0
    ensures a >= 0 ==> 0 <= r < b && a == b * (a / b) + r
    ensures a < 0 ==> -b < r <= 0 && a == -(b * ((-a) / b)) + r
  {
    if a >= 0 then a % b else -((-a) % b)
  }

  /**
   * The tile's two numbers. `Math.floor(duration / 60)` is Dafny's `/` with
   * a positive divisor, which rounds toward minus infinity as `floor` does.
   */
  function DurationClock(duration: int): (c: Clock)
    ensures duration >= 0 ==> c.minutes * 60 + c.seconds == duration && 0 <= c.seconds < 60
  {
    Clock(duration / 60, JsRemainder(duration, 60))
  }

  /** A longer trip never shows fewer minutes. */
  lemma MinutesMonotone(d1: int, d2: int)
    requires 0 <= d1 <= d2
    ensures DurationClock(d1).minutes <= DurationClock(d2).minutes
  {
  }

  /** The start of the trip shows 0m 0s. */
  lemma ClockAtZero()
    ensures DurationClock(0) == Clock(0, 0)
  {
  }

  /** A duration counted in 5-second steps always shows seconds that are a multiple of 5. */
  lemma SecondsInFiveSecondSteps(steps: nat)
    ensures DurationClock(steps * 5).seconds % 5 == 0
    ensures DurationClock(steps * 5).minutes == steps / 12
  {
  }

  /**
   * Below zero the tile no longer adds up: minutes are floored but seconds
   * are truncated, so minus five seconds shows as "-1m -5s".
   */
  lemma NegativeClock()
    ensures DurationClock(-5) == Clock(-1, -5)
    ensures DurationClock(-5).minutes * 60 + DurationClock(-5).seconds != -5
  {
  }
}
