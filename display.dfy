/**
 * Display rules shared by the recent-tasks card, the agent table and the log viewer: the
 * "time ago" buckets (components/recent-tasks.tsx, components/agent-table.tsx) and the unit
 * chosen for a duration (components/recent-tasks.tsx, components/log-viewer.tsx).
 */
module Display {
  import opened Wrappers
  import opened Strings
  import opened Clock

  // ---------------------------------------------------------------------------
  // Elapsed time: Math.floor(diffMs / 60000) and its buckets

  /** A timestamp as the page receives it: null or "", a date `new Date` understands, or one it does not. */
  datatype Stamp = Missing | At(ms: int) | Invalid

  datatype Elapsed = JustNow | MinutesAgo(n: int) | HoursAgo(n: int) | DaysAgo(n: int)

  /** Flooring to minutes and then to hours is flooring to hours directly. */
  lemma MinutesThenHours(d: int)
    ensures (d / MinuteMs) / 60 == d / HourMs
  {
    var q, r := d / 60000, d % 60000;
    var Q, R := q / 60, q % 60;
    assert d == 3600000 * Q + (60000 * R + r);
    assert 0 <= 60000 * R + r < 3600000;
  }

  /** Flooring to minutes and then to days is flooring to days directly. */
  lemma MinutesThenDays(d: int)
    ensures (d / MinuteMs) / 1440 == d / DayMs
  {
    var q, r := d / 60000, d % 60000;
    var Q, R := q / 1440, q % 1440;
    assert d == 86400000 * Q + (60000 * R + r);
    assert 0 <= 60000 * R + r < 86400000;
  }

  /**
   * The bucket for a difference `now - then` in milliseconds: under a minute (also in the future),
   * whole minutes under an hour, whole hours under a day, and whole days after that.
   */
  function ElapsedBucket(diffMs: int): (e: Elapsed)
    ensures e == JustNow <==> diffMs < MinuteMs
    ensures e.MinutesAgo? <==> MinuteMs <= diffMs < HourMs
    ensures e.HoursAgo? <==> HourMs <= diffMs < DayMs
    ensures e.DaysAgo? <==> DayMs <= diffMs
    ensures e.MinutesAgo? ==> 1 <= e.n < 60 && e.n * MinuteMs <= diffMs < (e.n + 1) * MinuteMs
    ensures e.HoursAgo? ==> 1 <= e.n < 24 && e.n * HourMs <= diffMs < (e.n + 1) * HourMs
    ensures e.DaysAgo? ==> 1 <= e.n && e.n * DayMs <= diffMs < (e.n + 1) * DayMs
  {
    var mins := diffMs / MinuteMs;
    MinutesThenHours(diffMs);
    MinutesThenDays(diffMs);
    if mins < 1 then JustNow
    else if mins < 60 then MinutesAgo(mins)
    else if mins < 1440 then HoursAgo(mins / 60)
    else DaysAgo(mins / 1440)
  }

  /** A later `now` never moves a timestamp to an earlier bucket. */
  lemma ElapsedMonotone(d1: int, d2: int)
    requires d1 <= d2
    ensures Rank(ElapsedBucket(d1)) <= Rank(ElapsedBucket(d2))
  {
  }

  function Rank(e: Elapsed): nat {
    match e
    case JustNow => 0
    case MinutesAgo(_) => 1
    case HoursAgo(_) => 2
    case DaysAgo(_) => 3
  }

  function ElapsedText(e: Elapsed): string {
    match e
    case JustNow => "Just now"
    case MinutesAgo(n) => IntToString(n) + " min ago"
    case HoursAgo(n) => IntToString(n) + " hours ago"
    case DaysAgo(n) => IntToString(n) + " days ago"
  }

  /**
   * The label for a timestamp, `missing` being the component's text for an absent one. A date that
   * does not parse makes every comparison with NaN false, which falls through to the days branch.
   */
  function SinceLabel(stamp: Stamp, now: int, missing: string): (s: string)
    ensures stamp.Missing? ==> s == missing
    ensures stamp.Invalid? ==> s == "NaN days ago"
    ensures stamp.At? && stamp.ms >= now ==> s == "Just now"
  {
    match stamp
    case Missing => missing
    case Invalid => "NaN days ago"
    case At(t) => ElapsedText(ElapsedBucket(now - t))
  }

  // ---------------------------------------------------------------------------
  // Durations

  /** The unit `formatDuration` chooses; the digits of the seconds and minutes forms are not modelled. */
  datatype DurationUnit = NotAvailable | Millis(ms: int) | Seconds(ms: int) | Minutes(ms: int)

  /** `formatDuration`: `!duration` (absent or 0) is "N/A", then milliseconds, seconds, minutes. */
  function DurationUnitOf(duration: Option<int>): (u: DurationUnit)
    ensures u == NotAvailable <==> duration.None? || duration.value == 0
    ensures u.Millis? <==> duration.Some? && duration.value != 0 && duration.value < 1000
    ensures u.Seconds? <==> duration.Some? && 1000 <= duration.value < 60000
    ensures u.Minutes? <==> duration.Some? && 60000 <= duration.value
    ensures !u.NotAvailable? ==> u.ms == duration.value
  {
    match duration
    case None => NotAvailable
    case Some(d) =>
      if d == 0 then NotAvailable
      else if d < 1000 then Millis(d)
      else if d < 60000 then Seconds(d)
      else Minutes(d)
  }

  function UnitRank(u: DurationUnit): nat {
    match u
    case NotAvailable => 0
    case Millis(_) => 1
    case Seconds(_) => 2
    case Minutes(_) => 3
  }

  /** For positive durations a longer one never gets a smaller unit. */
  lemma DurationUnitMonotone(d1: int, d2: int)
    requires 0 < d1 <= d2
    ensures UnitRank(DurationUnitOf(Some(d1))) <= UnitRank(DurationUnitOf(Some(d2)))
  {
  }

  /** `"N/A"` and `"<d>ms"`; the `toFixed(1)` text of the other two units is not modelled. */
  function DurationText(u: DurationUnit): Option<string> {
    match u
    case NotAvailable => Some("N/A")
    case Millis(ms) => Some(IntToString(ms) + "ms")
    case Seconds(_) => None
    case Minutes(_) => None
  }
}
