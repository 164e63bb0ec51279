/**
 * Time as integer milliseconds on the local clock, with a fixed day length and no time zone
 * or daylight-saving shifts. Day 0 (1970-01-01) was a Thursday.
 */
module Clock {

  const MinuteMs: int := 60000
  const HourMs: int := 3600000
  const DayMs: int := 86400000

  /** The number of whole days since 1970-01-01 (floor division, also for instants before it). */
  function DayIndex(t: int): int {
    t / DayMs
  }

  /** `d.setHours(0, 0, 0, 0)`: the midnight that starts the day of `t`. */
  function StartOfDay(t: int): (r: int)
    ensures r <= t < r + DayMs
    ensures r % DayMs == 0 && r / DayMs == DayIndex(t)
  {
    DayIndex(t) * DayMs
  }

  /** `d.getDay()`: 0 for Sunday through 6 for Saturday. */
  function Weekday(t: int): (w: int)
    ensures 0 <= w < 7
  {
    (DayIndex(t) + 4) % 7
  }

  predicate IsMidnight(t: int) {
    t % DayMs == 0
  }

  /** Moving by whole days moves the day index by the same number. */
  lemma DayIndexShift(t: int, n: int)
    ensures DayIndex(t + n * DayMs) == DayIndex(t) + n
  {
    var q, r := t / DayMs, t % DayMs;
    assert t + n * DayMs == (q + n) * DayMs + r;
  }

  /** The day index of a midnight is its quotient, and the midnight is that index times a day. */
  lemma MidnightIndex(d: int)
    ensures IsMidnight(d * DayMs) && DayIndex(d * DayMs) == d
  {
    DayIndexShift(0, d);
  }
}
