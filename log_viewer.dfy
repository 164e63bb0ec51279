/** The execution log viewer (components/log-viewer.tsx). */
module LogViewer {
  import opened Wrappers
  import opened Strings
  import opened Display

  datatype Icon = CheckIcon | CrossIcon | InfoIcon | WarningIcon
  datatype Variant = Default | Destructive | Secondary | Outline

  /** `getIcon`. */
  function GetIcon(status: string): (i: Icon)
    ensures i == WarningIcon <==> status !in {"success", "failed", "running"}
  {
    match status
    case "success" => CheckIcon
    case "failed" => CrossIcon
    case "running" => InfoIcon
    case _ => WarningIcon
  }

  /** `getBadgeVariant`. */
  function GetBadgeVariant(status: string): (v: Variant)
    ensures v == Outline <==> status !in {"success", "failed", "running"}
  {
    match status
    case "success" => Default
    case "failed" => Destructive
    case "running" => Secondary
    case _ => Outline
  }

  /** The three known statuses get three different icons and badges, and each badge goes with one icon. */
  lemma IconsAndBadgesDistinguishStatuses(s: string, t: string)
    ensures s in {"success", "failed", "running"} && t in {"success", "failed", "running"} ==>
      (GetIcon(s) == GetIcon(t) <==> s == t) && (GetBadgeVariant(s) == GetBadgeVariant(t) <==> s == t)
    ensures GetIcon(s) == GetIcon(t) <==> GetBadgeVariant(s) == GetBadgeVariant(t)
  {
  }

  /** `formatDuration`, down to the unit. */
  function FormatDuration(duration: Option<int>): DurationUnit {
    DurationUnitOf(duration)
  }

  // ---------------------------------------------------------------------------
  // `{execution.duration && <span>...</span>}`

  /** What a JSX child expression renders: nothing, bare text, or the duration label. */
  datatype Cell = Nothing | Text(text: string) | DurationLabel(unit: DurationUnit)

  /**
   * As written: a null duration renders nothing, but a duration of 0 is itself the value of the
   * `&&` expression and React prints it as the text "0".
   */
  function DurationCell(duration: Option<int>): Cell {
    match duration
    case None => Nothing
    case Some(d) => if d == 0 then Text(IntToString(d)) else DurationLabel(FormatDuration(duration))
  }

  lemma ZeroDurationRendersZero()
    ensures DurationCell(Some(0)) == Text("0")
  {
    assert IntToString(0) == NatToString(0) == [DigitChar(0)];
  }

  /** As intended: the label, and only for a duration that is present and non-zero. */
  function DurationCellCorrected(duration: Option<int>): (c: Cell)
    ensures !c.Text?
    ensures c.Nothing? <==> duration.None? || duration.value == 0
    ensures c.DurationLabel? ==> c.unit == FormatDuration(duration) && !c.unit.NotAvailable?
  {
    if duration.Some? && duration.value != 0 then DurationLabel(FormatDuration(duration)) else Nothing
  }

  /** The correction changes only the zero case. */
  lemma CorrectedDiffersOnlyAtZero(duration: Option<int>)
    ensures DurationCellCorrected(duration) != DurationCell(duration) <==> duration == Some(0)
  {
  }
}
