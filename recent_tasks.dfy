/** The recent-executions card (components/recent-tasks.tsx). */
module RecentTasks {
  import opened Wrappers
  import opened Display

  /** The fields of an execution listing row that the card shows. */
  datatype ExecutionItem = ExecutionItem(
    id: string, taskName: string, agentHostname: string, status: string, startedAt: Stamp, duration: Option<int>)

  const Shown: nat := 3

  /** `data.slice(0, 3)`: the first three executions of the listing, in the order received. */
  function Recent(executions: seq<ExecutionItem>): (r: seq<ExecutionItem>)
    ensures |r| == if |executions| < Shown then |executions| else Shown
    ensures r == executions[..|r|]
  {
    if |executions| <= Shown then executions else executions[..Shown]
  }

  /** A listing with at most three executions is shown whole, and a longer one loses only its tail. */
  lemma RecentPrefix(executions: seq<ExecutionItem>, more: seq<ExecutionItem>)
    requires |executions| >= Shown
    ensures Recent(executions + more) == Recent(executions)
  {
    assert (executions + more)[..Shown] == executions[..Shown];
  }

  datatype Icon = CheckIcon | SpinnerIcon | CrossIcon

  /** The status icon: a check for "success", a spinner for "running", a cross for anything else. */
  function StatusIcon(status: string): (i: Icon)
    ensures i == CheckIcon <==> status == "success"
    ensures i == SpinnerIcon <==> status == "running"
    ensures i == CrossIcon <==> status != "success" && status != "running"
  {
    if status == "success" then CheckIcon else if status == "running" then SpinnerIcon else CrossIcon
  }

  /** `formatTimeAgo`. */
  function FormatTimeAgo(stamp: Stamp, now: int): string {
    SinceLabel(stamp, now, "Unknown")
  }

  /** An absent timestamp reads "Unknown", and one not yet reached reads "Just now". */
  lemma TimeAgoEdges(stamp: Stamp, now: int)
    ensures stamp.Missing? ==> FormatTimeAgo(stamp, now) == "Unknown"
    ensures stamp.At? && stamp.ms >= now ==> FormatTimeAgo(stamp, now) == "Just now"
    ensures stamp.At? && now - stamp.ms >= 60000 ==> FormatTimeAgo(stamp, now) != "Just now"
  {
    if stamp.At? && now - stamp.ms >= 60000 {
      var e := ElapsedBucket(now - stamp.ms);
      assert ElapsedText(e)[|ElapsedText(e)| - 3..] == "ago";
    }
  }

  /** `formatDuration`, down to the unit. */
  function FormatDuration(duration: Option<int>): DurationUnit {
    DurationUnitOf(duration)
  }
}
