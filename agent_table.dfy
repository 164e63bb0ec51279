/** The agents table (components/agent-table.tsx). */
module AgentTable {
  import opened Wrappers
  import opened Display
  import RecentTasks

  datatype Badge = Default | Destructive
  datatype Icon = WifiIcon | WifiOffIcon

  /** The status badge and icon: online agents get the default badge and wifi, everything else the other pair. */
  function StatusBadge(status: string): (b: Badge)
    ensures b == Default <==> status == "online"
  {
    if status == "online" then Default else Destructive
  }

  function StatusIcon(status: string): (i: Icon)
    ensures i == WifiIcon <==> status == "online"
  {
    if status == "online" then WifiIcon else WifiOffIcon
  }

  /** Badge and icon always tell the same story. */
  lemma BadgeAgreesWithIcon(status: string)
    ensures StatusBadge(status) == Default <==> StatusIcon(status) == WifiIcon
  {
  }

  /** `value || "Unknown"` for `os`, `arch`, `cpu` and `ram`: absent and empty both show "Unknown". */
  function OrUnknown(value: Option<string>): (s: string)
    ensures s == "Unknown" <==> value.None? || value.value == "" || value.value == "Unknown"
    ensures value.Some? && value.value != "" ==> s == value.value
  {
    if value.Some? && value.value != "" then value.value else "Unknown"
  }

  /** `formatLastSeen`. */
  function FormatLastSeen(stamp: Stamp, now: int): string {
    SinceLabel(stamp, now, "Never")
  }

  /**
   * `formatLastSeen` and the recent-tasks `formatTimeAgo` use the same buckets: they differ only
   * on an absent timestamp, "Never" against "Unknown"; a future `last_seen` reads "Just now".
   */
  lemma LastSeenMatchesTimeAgo(stamp: Stamp, now: int)
    ensures !stamp.Missing? ==> FormatLastSeen(stamp, now) == RecentTasks.FormatTimeAgo(stamp, now)
    ensures stamp.Missing? ==> FormatLastSeen(stamp, now) == "Never"
    ensures stamp.At? && stamp.ms >= now ==> FormatLastSeen(stamp, now) == "Just now"
  {
  }
}
