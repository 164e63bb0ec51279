/**
 * The dashboard's "upcoming tasks" panel: the next-run heuristic, the time-until label and
 * the ranking of scheduled tasks (components/upcoming-tasks.tsx).
 */
module UpcomingTasks {
  import opened Wrappers
  import opened Strings
  import opened Seqs
  import opened Sorting
  import opened Clock

  // ---------------------------------------------------------------------------
  // Reference instants

  /** The first midnight strictly after `now`. */
  function NextMidnight(now: int): (r: int)
    ensures IsMidnight(r) && now < r <= now + DayMs
    ensures DayIndex(r) == DayIndex(now) + 1
  {
    MidnightIndex(DayIndex(now) + 1);
    (DayIndex(now) + 1) * DayMs
  }

  /** No midnight lies strictly between `now` and `NextMidnight(now)`. */
  lemma NextMidnightIsFirst(now: int, m: int)
    requires IsMidnight(m) && now < m
    ensures NextMidnight(now) <= m
  {
    assert m == DayIndex(m) * DayMs;
  }

  /** Midnight of the first Sunday that starts strictly after `now`. */
  function NextSundayMidnight(now: int): (r: int)
    ensures IsMidnight(r) && Weekday(r) == 0 && now < r
    ensures 1 <= DayIndex(r) - DayIndex(now) <= 7
  {
    var d := DayIndex(now) + 1;
    var wait := (7 - (d + 4) % 7) % 7;
    MidnightIndex(d + wait);
    (d + wait) * DayMs
  }

  /** No Sunday midnight lies strictly between `now` and `NextSundayMidnight(now)`. */
  lemma NextSundayMidnightIsFirst(now: int, m: int)
    requires IsMidnight(m) && Weekday(m) == 0 && now < m
    ensures NextSundayMidnight(now) <= m
  {
    var d := DayIndex(now) + 1;
    var e := DayIndex(m);
    assert m == e * DayMs;
    MidnightIndex(e);
    assert d <= e;
    var wait := (7 - (d + 4) % 7) % 7;
    assert (e + 4) % 7 == 0;
    assert (d + wait + 4) % 7 == 0;
  }

  // ---------------------------------------------------------------------------
  // parseNextRun

  /**
   * What `parseNextRun` computes: nothing for an empty schedule; the next midnight for a
   * schedule mentioning "daily" or equal to "0 0 * * *"; the next Sunday midnight for one
   * mentioning "weekly" or equal to "0 0 * * 0"; otherwise one hour from now.
   */
  function NextRun(schedule: string, now: int): (r: Option<int>)
    ensures r.None? <==> schedule == ""
    ensures r.Some? ==> now < r.value
  {
    if schedule == "" then None
    else if Contains(schedule, "daily") || schedule == "0 0 * * *" then Some(NextMidnight(now))
    else if Contains(schedule, "weekly") || schedule == "0 0 * * 0" then Some(NextSundayMidnight(now))
    else Some(now + HourMs)
  }

  /** `parseNextRun`, step by step on a copy of the current date. */
  method ParseNextRun(schedule: string, now: int) returns (next: Option<int>)
    ensures next == NextRun(schedule, now)
  {
    if schedule == "" {
      return None;
    }
    if Contains(schedule, "daily") || schedule == "0 0 * * *" {
      var tomorrow := now;
      tomorrow := tomorrow + DayMs;           // setDate(getDate() + 1)
      DayIndexShift(now, 1);
      tomorrow := StartOfDay(tomorrow);       // setHours(0, 0, 0, 0)
      return Some(tomorrow);
    }
    if Contains(schedule, "weekly") || schedule == "0 0 * * 0" {
      var nextSunday := now;
      var daysUntilSunday := (7 - Weekday(now)) % 7;
      if daysUntilSunday == 0 {
        daysUntilSunday := 7;
      }
      nextSunday := now + daysUntilSunday * DayMs;   // setDate(now.getDate() + daysUntilSunday)
      DayIndexShift(now, daysUntilSunday);
      nextSunday := StartOfDay(nextSunday);           // setHours(0, 0, 0, 0)
      WeeklyStepsAgree(now, daysUntilSunday);
      return Some(nextSunday);
    }
    var nextHour := now;
    nextHour := nextHour + HourMs;            // setHours(getHours() + 1)
    return Some(nextHour);
  }

  /** The source's `(7 - getDay()) % 7 || 7` days ahead lands on `NextSundayMidnight`. */
  lemma WeeklyStepsAgree(now: int, days: int)
    requires days == (if (7 - Weekday(now)) % 7 == 0 then 7 else (7 - Weekday(now)) % 7)
    ensures (DayIndex(now) + days) * DayMs == NextSundayMidnight(now)
  {
    var w := Weekday(now);
    var d := DayIndex(now) + 1;
    assert (d + 4) % 7 == (w + 1) % 7;
  }

  /**
   * A non-empty schedule that mentions neither "daily" nor "weekly" and is neither "0 0 * * *"
   * nor "0 0 * * 0" takes the one-hour fallback.
   */
  lemma FallbackForOtherSchedules(schedule: string, now: int)
    requires schedule != "" && schedule != "0 0 * * *" && schedule != "0 0 * * 0"
    requires !Contains(schedule, "daily") && !Contains(schedule, "weekly")
    ensures NextRun(schedule, now) == Some(now + HourMs)
  {
  }

  /** A text without the first letter of `sub` does not contain `sub`. */
  lemma {:induction false} NotContainedWithoutFirstChar(s: string, sub: string)
    requires sub != [] && sub[0] !in s
    ensures !Contains(s, sub)
  {
    if s != [] {
      assert s[0] != sub[0];
      assert forall c :: c in s[1..] ==> c in s;
      NotContainedWithoutFirstChar(s[1..], sub);
    }
  }

  /** "0 2 * * *" is not read as a cron expression: it runs an hour from now. */
  lemma TwoAmCronRunsInAnHour(now: int)
    ensures NextRun("0 2 * * *", now) == Some(now + HourMs)
  {
    NotContainedWithoutFirstChar("0 2 * * *", "daily");
    NotContainedWithoutFirstChar("0 2 * * *", "weekly");
    FallbackForOtherSchedules("0 2 * * *", now);
  }

  // ---------------------------------------------------------------------------
  // formatTimeUntil

  datatype TimeUntil = InMinutes(n: int) | InHours(n: int) | InDays(n: int)

  /** The bucket `formatTimeUntil` chooses for the interval from `now` to `date`. */
  function TimeUntilBucket(date: int, now: int): (b: TimeUntil)
    ensures b.InMinutes? <==> date - now < HourMs
    ensures b.InMinutes? ==> b.n * MinuteMs <= date - now < b.n * MinuteMs + MinuteMs
    ensures b.InHours? <==> HourMs <= date - now < DayMs
    ensures b.InHours? ==> 1 <= b.n < 24 && b.n * HourMs <= date - now < b.n * HourMs + HourMs
    ensures b.InDays? <==> DayMs <= date - now
    ensures b.InDays? ==> 1 <= b.n && b.n * DayMs <= date - now < b.n * DayMs + DayMs
  {
    var diffMs := date - now;
    var diffHours := diffMs / HourMs;
    var diffDays := diffHours / 24;
    if diffHours < 1 then InMinutes(diffMs / MinuteMs)
    else if diffHours < 24 then InHours(diffHours)
    else
      assert diffDays * DayMs == diffDays * 24 * HourMs;
      InDays(diffDays)
  }

  /** `formatTimeUntil`, with `later` the clock reading it takes: "in N minutes", "in N hours" or "in N days". */
  function FormatTimeUntil(date: int, later: int): string {
    match TimeUntilBucket(date, later)
    case InMinutes(n) => "in " + IntToString(n) + " minutes"
    case InHours(n) => "in " + IntToString(n) + " hours"
    case InDays(n) => "in " + IntToString(n) + " days"
  }

  /**
   * A fallback run is one hour after `parseNextRun`'s reading `now`; `formatTimeUntil` reads the
   * clock again. The label is "in 1 hours" only when the second reading is the same instant; one up
   * to a minute later gives "in 59 minutes".
   */
  lemma FallbackTimeUntil(now: int, later: int)
    requires now <= later
    ensures FormatTimeUntil(now + HourMs, later) == "in 1 hours" <==> later == now
    ensures now < later <= now + MinuteMs ==> FormatTimeUntil(now + HourMs, later) == "in 59 minutes"
  {
    if later == now {
      assert TimeUntilBucket(now + HourMs, later) == InHours(1);
    } else {
      var b := TimeUntilBucket(now + HourMs, later);
      assert b.InMinutes?;
      assert |FormatTimeUntil(now + HourMs, later)| > |"in 1 hours"|;
      if later <= now + MinuteMs {
        assert b.n == 59;
        assert NatToString(59) == "59";
      }
    }
  }

  // ---------------------------------------------------------------------------
  // The ranking in fetchUpcomingTasks

  /** A task as /api/tasks returns it; a `null` `active` is falsy and is written here as false. */
  datatype Task = Task(id: string, name: string, description: string, agentHostname: string,
                       schedule: string, active: bool)

  /** A task together with the instant `parseNextRun` gave it. */
  datatype Candidate = Candidate(task: Task, nextRun: int)

  /** What the panel shows of a task (the locale-formatted `nextRun` text is not modelled). */
  datatype UpcomingTask = UpcomingTask(id: string, name: string, agent: string, timeUntil: string,
                                       schedule: string)

  /** `task.active && task.schedule`. */
  predicate IsScheduled(t: Task) {
    t.active && t.schedule != ""
  }

  predicate RunsNoLater(a: Candidate, b: Candidate) {
    a.nextRun <= b.nextRun
  }

  lemma RunsNoLaterIsPreorder()
    ensures TotalPreorder(RunsNoLater)
  {
  }

  /** The `.map`: each task with its next run, or null when there is none. */
  function WithNextRun(tasks: seq<Task>, now: int): (r: seq<Option<Candidate>>)
    ensures |r| == |tasks|
    ensures forall i :: 0 <= i < |r| ==> r[i] == (match NextRun(tasks[i].schedule, now)
                                                 case None => None
                                                 case Some(t) => Some(Candidate(tasks[i], t)))
  {
    if tasks == [] then []
    else
      var head := match NextRun(tasks[0].schedule, now)
                  case None => None
                  case Some(t) => Some(Candidate(tasks[0], t));
      [head] + WithNextRun(tasks[1..], now)
  }

  /** The `.filter(Boolean)`: drops the nulls. */
  function Present(cs: seq<Option<Candidate>>): (r: seq<Candidate>)
    ensures |r| <= |cs|
    ensures forall c :: c in r <==> Some(c) in cs
  {
    if cs == [] then []
    else (if cs[0].Some? then [cs[0].value] else []) + Present(cs[1..])
  }

  /** Every scheduled task with its next run, earliest first (the stable `.sort`). */
  function Ranked(tasks: seq<Task>, now: int): seq<Candidate> {
    Sort(Present(WithNextRun(Filter(tasks, IsScheduled), now)), RunsNoLater)
  }

  /** The first five of the ranking (`.slice(0, 5)`). */
  function Upcoming(tasks: seq<Task>, now: int): seq<Candidate> {
    var all := Ranked(tasks, now);
    if |all| <= 5 then all else all[..5]
  }

  /** The row shown for a ranked task; `later` is the reading `formatTimeUntil` takes. */
  function Card(c: Candidate, later: int): UpcomingTask {
    UpcomingTask(c.task.id, c.task.name, c.task.agentHostname, FormatTimeUntil(c.nextRun, later),
                 c.task.schedule)
  }

  /** The panel's rows: next runs from the reading `now`, time-until labels from the reading `later`. */
  function UpcomingCards(tasks: seq<Task>, now: int, later: int): (cards: seq<UpcomingTask>)
    ensures |cards| == |Upcoming(tasks, now)|
    ensures forall i :: 0 <= i < |cards| ==> cards[i] == Card(Upcoming(tasks, now)[i], later)
  {
    var u := Upcoming(tasks, now);
    seq(|u|, i requires 0 <= i < |u| => Card(u[i], later))
  }

  /** Every task with a schedule gets a next run, so the `.filter(Boolean)` drops nothing. */
  lemma {:induction false} NothingDropped(tasks: seq<Task>, now: int)
    requires forall i :: 0 <= i < |tasks| ==> tasks[i].schedule != ""
    ensures |Present(WithNextRun(tasks, now))| == |tasks|
    ensures forall t :: t in tasks ==> Candidate(t, NextRun(t.schedule, now).value) in Present(WithNextRun(tasks, now))
  {
    if tasks != [] {
      NothingDropped(tasks[1..], now);
      assert WithNextRun(tasks, now)[1..] == WithNextRun(tasks[1..], now);
    }
  }

  /** Every candidate belongs to a scheduled input task and carries that task's next run. */
  lemma RankedCandidates(tasks: seq<Task>, now: int)
    ensures forall c :: c in Ranked(tasks, now) ==>
      c.task in tasks && IsScheduled(c.task) && NextRun(c.task.schedule, now) == Some(c.nextRun)
  {
    var scheduled := Filter(tasks, IsScheduled);
    var cs := WithNextRun(scheduled, now);
    forall c | c in Ranked(tasks, now)
      ensures c.task in tasks && IsScheduled(c.task) && NextRun(c.task.schedule, now) == Some(c.nextRun)
    {
      assert c in multiset(Ranked(tasks, now));
      assert Some(c) in cs;
      var i :| 0 <= i < |cs| && cs[i] == Some(c);
      assert c.task == scheduled[i];
    }
  }

  /**
   * The upcoming list: only active, scheduled tasks; earliest first; at most five; exactly
   * min(5, number of scheduled tasks) entries; a prefix of the full ranking.
   */
  lemma UpcomingProperties(tasks: seq<Task>, now: int)
    ensures var u := Upcoming(tasks, now);
      && |u| <= 5
      && |u| == (if |Filter(tasks, IsScheduled)| < 5 then |Filter(tasks, IsScheduled)| else 5)
      && u == Ranked(tasks, now)[..|u|]
      && Sorted(u, RunsNoLater)
      && (forall c :: c in u ==> c.task in tasks && IsScheduled(c.task))
  {
    UpcomingShape(tasks, now);
    RunsNoLaterIsPreorder();
    var all := Ranked(tasks, now);
    SortSorted(Present(WithNextRun(Filter(tasks, IsScheduled), now)), RunsNoLater);
    var u := Upcoming(tasks, now);
    assert forall i :: 0 <= i < |u| ==> u[i] == all[i];
    RankedCandidates(tasks, now);
    forall c | c in u ensures c in all {
    }
  }

  /** The ranking has one entry per scheduled task, and the list is its first five. */
  lemma UpcomingShape(tasks: seq<Task>, now: int)
    ensures |Ranked(tasks, now)| == |Filter(tasks, IsScheduled)|
    ensures var u := Upcoming(tasks, now);
      |u| == (if |Ranked(tasks, now)| < 5 then |Ranked(tasks, now)| else 5) && u == Ranked(tasks, now)[..|u|]
  {
    var scheduled := Filter(tasks, IsScheduled);
    NothingDropped(scheduled, now);
    assert |Ranked(tasks, now)| == |Present(WithNextRun(scheduled, now))|;
  }

  /** A task left out of the list runs no earlier than any task shown. */
  lemma UpcomingIsEarliest(tasks: seq<Task>, now: int, c: Candidate, d: Candidate)
    requires c in Ranked(tasks, now)
    requires d in Upcoming(tasks, now) && c !in Upcoming(tasks, now)
    ensures d.nextRun <= c.nextRun
  {
    RunsNoLaterIsPreorder();
    var all := Ranked(tasks, now);
    SortSorted(Present(WithNextRun(Filter(tasks, IsScheduled), now)), RunsNoLater);
    var i :| 0 <= i < |all| && all[i] == c;
    var j :| 0 <= j < 5 && j < |all| && all[j] == d;
    assert i >= 5;
  }

  /** A manual-only task (empty schedule) never appears in the list. */
  lemma ManualTasksNeverUpcoming(tasks: seq<Task>, now: int, t: Task)
    requires t.schedule == ""
    ensures forall c :: c in Upcoming(tasks, now) ==> c.task != t
  {
    UpcomingProperties(tasks, now);
  }

  /** Tasks due at the same instant keep their order from the task list (the sort is stable). */
  lemma TiesKeepListOrder(tasks: seq<Task>, now: int, k: Candidate)
    ensures Class(Ranked(tasks, now), RunsNoLater, k)
         == Class(Present(WithNextRun(Filter(tasks, IsScheduled), now)), RunsNoLater, k)
  {
    RunsNoLaterIsPreorder();
    SortStable(Present(WithNextRun(Filter(tasks, IsScheduled), now)), RunsNoLater, k);
  }
}
