/** Points in time as whole microseconds, and the relative delays handed to the kernel timer. */
module Timestamps {

  const MICROS_PER_SECOND := 1_000_000
  const MIN_DELAY_MICROS := 100

  /** A relative delay in the form the kernel takes it. */
  datatype Timespec = Timespec(sec: int, nsec: int) {
    function Nanos(): int {
      sec * 1_000_000_000 + nsec
    }
  }

  function Max(a: int, b: int): (m: int)
    ensures m >= a && m >= b && (m == a || m == b)
  {
    if a < b then b else a
  }

  predicate ValidTime(t: int) {
    t > 0
  }

  /** The conversion of a floating value to an integer: the fraction is dropped, toward zero. */
  function TruncateTowardZero(x: real): int {
    if x >= 0.0 then x.Floor else -((-x).Floor)
  }

  function Micros(seconds: real): int {
    TruncateTowardZero(seconds * 1000000.0)
  }

  function AddTime(t: int, seconds: real): int {
    t + Micros(seconds)
  }

  /** `u` is `t` and so many seconds later, the last fraction of a microsecond dropped. */
  predicate LaterBy(t: int, seconds: real, u: int) {
    t as real + 1000000.0 * seconds - 1.0 < u as real <= t as real + 1000000.0 * seconds
  }

  /** What is added is the interval, up to the fraction of a microsecond that is dropped: toward
      zero, so time is never moved further than asked for, in either direction. */
  lemma AddTimeIsTheInterval(t: int, seconds: real)
    ensures seconds >= 0.0 ==> LaterBy(t, seconds, AddTime(t, seconds))
    ensures seconds <= 0.0 ==> LaterBy(-t, -seconds, -AddTime(t, seconds))
  {
  }

  /** A positive interval never moves time backward, and moves it not at all exactly
      when it is shorter than a microsecond. */
  lemma PositiveIntervalMayStandStill(t: int, seconds: real)
    requires seconds > 0.0
    ensures AddTime(t, seconds) >= t
    ensures AddTime(t, seconds) == t <==> seconds < 0.000001
  {
    var scaled := seconds * 1000000.0;
    assert scaled > 0.0;
    assert scaled < 1.0 <==> seconds < 0.000001;
  }

  /** The delay until `when`, never below MIN_DELAY_MICROS, split into seconds and nanoseconds.
      The operands of `/` and `%` are positive, so Dafny's operators agree with C's. */
  function HowMuchTimeFromNow(when: int, now: int): (ts: Timespec)
    ensures ts.Nanos() == 1000 * Max(when - now, MIN_DELAY_MICROS)
    ensures 0 <= ts.sec && 0 <= ts.nsec < 1_000_000_000
    ensures ts != Timespec(0, 0)
  {
    var micros := if when - now < MIN_DELAY_MICROS then MIN_DELAY_MICROS else when - now;
    Timespec(micros / MICROS_PER_SECOND, (micros % MICROS_PER_SECOND) * 1000)
  }
}
