/** The arithmetic of the one-second interval callback (src/App.js line 56):
    whole seconds elapsed since the last detected movement. Timestamps are
    integer milliseconds; the wall clock is passed in as `now`. */
module Ticker {

  /** `Math.floor((now - lastMovementTime) / 1000)`. Dafny's `/` on `int`
      rounds towards minus infinity when the divisor is positive, as
      `Math.floor` of the exact quotient does, negative differences included;
      the floating-point rounding of JavaScript's division is not modelled. */
  function ElapsedSeconds(now: int, lastMovementTime: int): (seconds: int)
    ensures seconds * 1000 <= now - lastMovementTime < seconds * 1000 + 1000
  {
    (now - lastMovementTime) / 1000
  }

  /** The floor characterisation pins the result down: any whole number of
      seconds that brackets the difference is the elapsed time. */
  lemma ElapsedSecondsUnique(now: int, lastMovementTime: int, s: int)
    requires s * 1000 <= now - lastMovementTime < s * 1000 + 1000
    ensures ElapsedSeconds(now, lastMovementTime) == s
  {
  }

  /** Time that has not gone backwards gives a non-negative duration. */
  lemma ElapsedNonNegative(now: int, lastMovementTime: int)
    requires now >= lastMovementTime
    ensures ElapsedSeconds(now, lastMovementTime) >= 0
  {
  }

  /** The duration is 0 exactly within the first 999 ms after the movement. */
  lemma ElapsedZeroWithinSecond(now: int, lastMovementTime: int)
    ensures ElapsedSeconds(now, lastMovementTime) == 0 <==>
      lastMovementTime <= now <= lastMovementTime + 999
  {
  }

  /** For a fixed last movement the duration never decreases as time passes. */
  lemma ElapsedMonotone(now1: int, now2: int, lastMovementTime: int)
    requires now1 <= now2
    ensures ElapsedSeconds(now1, lastMovementTime) <= ElapsedSeconds(now2, lastMovementTime)
  {
  }

  /** One interval period later, with no movement in between, the duration
      has grown by exactly one second. */
  lemma ElapsedOneSecondLater(now: int, lastMovementTime: int)
    ensures ElapsedSeconds(now + 1000, lastMovementTime) == ElapsedSeconds(now, lastMovementTime) + 1
  {
  }
}
