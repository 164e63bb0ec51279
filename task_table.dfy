/**
 * The schedule column of the task table: `formatSchedule` turns a few cron shapes into words
 * (components/task-table.tsx).
 */
module TaskTable {
  import opened Wrappers
  import opened Strings

  // ---------------------------------------------------------------------------
  // Number.parseInt(s) with no radix

  /** The result of `parseInt`: `NaN`, or a sign and a magnitude (so that `-0` is representable). */
  datatype ParsedInt = NaN | Number(negative: bool, magnitude: nat)

  function TrimStart(s: string): (r: string)
    ensures |r| <= |s| && r == s[|s| - |r|..]
    ensures r != [] ==> !IsJsWhitespace(r[0])
  {
    if s != [] && IsJsWhitespace(s[0]) then TrimStart(s[1..]) else s
  }

  /** The longest prefix of decimal digits. */
  function DigitPrefix(s: string): (r: string)
    ensures |r| <= |s| && r == s[..|r|]
    ensures forall c :: c in r ==> IsDigit(c)
  {
    if s != [] && IsDigit(s[0]) then [s[0]] + DigitPrefix(s[1..]) else []
  }

  predicate IsHexDigit(c: char) {
    IsDigit(c) || ('a' <= c <= 'f') || ('A' <= c <= 'F')
  }

  function HexDigitValue(c: char): nat
    requires IsHexDigit(c)
  {
    if IsDigit(c) then DigitValue(c)
    else if 'a' <= c <= 'f' then c as int - 'a' as int + 10
    else c as int - 'A' as int + 10
  }

  /** The longest prefix of hexadecimal digits. */
  function HexPrefix(s: string): (r: string)
    ensures |r| <= |s| && r == s[..|r|]
    ensures forall c :: c in r ==> IsHexDigit(c)
  {
    if s != [] && IsHexDigit(s[0]) then [s[0]] + HexPrefix(s[1..]) else []
  }

  function HexValue(s: string): nat
    requires forall c :: c in s ==> IsHexDigit(c)
  {
    if s == [] then 0 else HexValue(s[..|s| - 1]) * 16 + HexDigitValue(s[|s| - 1])
  }

  /** The digits after the sign: "0x" and hex digits, or else decimal digits, as far as they go; none is NaN. */
  function ParseMagnitude(u: string): Option<nat> {
    if |u| >= 2 && u[0] == '0' && (u[1] == 'x' || u[1] == 'X') then
      var h := HexPrefix(u[2..]);
      if h == [] then None else Some(HexValue(h))
    else
      var d := DigitPrefix(u);
      if d == [] then None else Some(DigitsValue(d))
  }

  /** `parseInt(s)`: skip leading white space, read an optional sign, then the magnitude. */
  function ParseInt(s: string): ParsedInt {
    var t := TrimStart(s);
    var negative := t != [] && t[0] == '-';
    var u := if t != [] && (t[0] == '-' || t[0] == '+') then t[1..] else t;
    match ParseMagnitude(u)
    case None => NaN
    case Some(m) => Number(negative, m)
  }

  lemma {:induction false} DigitPrefixOfDigits(s: string)
    requires forall c :: c in s ==> IsDigit(c)
    ensures DigitPrefix(s) == s
  {
    if s != [] {
      assert forall c :: c in s[1..] ==> c in s;
      DigitPrefixOfDigits(s[1..]);
    }
  }

  /** A non-empty run of decimal digits parses as its value. */
  lemma ParseIntOfDigits(s: string)
    requires s != [] && forall c :: c in s ==> IsDigit(c)
    ensures ParseInt(s) == Number(false, DigitsValue(s))
  {
    assert IsDigit(s[0]) by { assert s[0] in s; }
    DigitLeadNotTrimmed(s);
    MagnitudeOfDigits(s);
  }

  /** A string that starts with a digit loses nothing to `TrimStart` and has no sign. */
  lemma DigitLeadNotTrimmed(s: string)
    requires s != [] && IsDigit(s[0])
    ensures TrimStart(s) == s && s[0] != '-' && s[0] != '+'
  {
    assert !IsJsWhitespace(s[0]);
  }

  lemma MagnitudeOfDigits(s: string)
    requires s != [] && forall c :: c in s ==> IsDigit(c)
    ensures ParseMagnitude(s) == Some(DigitsValue(s))
  {
    assert !(|s| >= 2 && (s[1] == 'x' || s[1] == 'X')) by {
      if |s| >= 2 { assert s[1] in s; }
    }
    DigitPrefixOfDigits(s);
  }

  /** `parseInt` reads back the decimal rendering of any natural number. */
  lemma ParseIntOfNumeral(n: nat)
    ensures ParseInt(NatToString(n)) == Number(false, n)
  {
    ParseIntOfDigits(NatToString(n));
    NatToStringRoundTrip(n);
  }

  // ---------------------------------------------------------------------------
  // formatSchedule

  const Days: seq<string> := ["Sun", "Mon", "Tue", "Wed", "Thu", "Fri", "Sat"]

  /**
   * `days[Number.parseInt(weekday)]` in a template: a day name when the parsed number is an index
   * of the table (a negative zero indexes "0"), and the text "undefined" otherwise.
   */
  function DayName(weekday: string): string {
    DayOf(ParseInt(weekday))
  }

  /** The table entry a parsed number indexes, or "undefined". */
  function DayOf(n: ParsedInt): string {
    match n
    case NaN => "undefined"
    case Number(negative, m) => if m < 7 && (!negative || m == 0) then Days[m] else "undefined"
  }

  function FormatSchedule(schedule: string): string {
    if schedule == "" then "Manual only"
    else
      var parts := Split(schedule, ' ');
      if |parts| == 5 then
        var min, hour, day, month, weekday := parts[0], parts[1], parts[2], parts[3], parts[4];
        if min == "0" && hour != "*" && day == "*" && month == "*" && weekday == "*" then
          "Daily at " + hour + ":00"
        else if min == "0" && hour != "*" && day == "*" && month == "*" && weekday != "*" then
          DayName(weekday) + " at " + hour + ":00"
        else schedule
      else schedule
  }

  /** The schedule made of five space-free cron fields. */
  function Fields(min: string, hour: string, day: string, month: string, weekday: string): string {
    Join([min, hour, day, month, weekday], ' ')
  }

  predicate SpaceFree(f: string) { ' ' !in f }

  lemma FieldsSplit(min: string, hour: string, day: string, month: string, weekday: string)
    requires SpaceFree(min) && SpaceFree(hour) && SpaceFree(day) && SpaceFree(month) && SpaceFree(weekday)
    ensures Split(Fields(min, hour, day, month, weekday), ' ') == [min, hour, day, month, weekday]
    ensures Fields(min, hour, day, month, weekday) != ""
  {
    var parts := [min, hour, day, month, weekday];
    SplitJoin(parts, ' ');
    assert Split("", ' ') == [""];
  }

  /** An empty schedule reads "Manual only". */
  lemma ManualOnly()
    ensures FormatSchedule("") == "Manual only"
  {
  }

  /** "0 H * * *" with H not "*" reads "Daily at H:00", with H copied as written. */
  lemma DailyAt(hour: string)
    requires SpaceFree(hour) && hour != "*"
    ensures FormatSchedule(Fields("0", hour, "*", "*", "*")) == "Daily at " + hour + ":00"
  {
    FieldsSplit("0", hour, "*", "*", "*");
  }

  /** "0 H * * W" with H and W not "*" reads as the day lookup of W, then " at H:00". */
  lemma WeekdayBranch(hour: string, weekday: string)
    requires SpaceFree(hour) && hour != "*" && SpaceFree(weekday) && weekday != "*"
    ensures FormatSchedule(Fields("0", hour, "*", "*", weekday)) == DayName(weekday) + " at " + hour + ":00"
  {
    FieldsSplit("0", hour, "*", "*", weekday);
  }

  /** "0 H * * W" with H not "*" and W a numeral 0 to 6 reads as W's day name, then " at H:00". */
  lemma WeeklyAt(hour: string, w: nat)
    requires SpaceFree(hour) && hour != "*" && w < 7
    ensures FormatSchedule(Fields("0", hour, "*", "*", NatToString(w))) == Days[w] + " at " + hour + ":00"
  {
    assert NatToString(w) == [DigitChar(w)];
    WeekdayBranch(hour, NatToString(w));
    DayNameOfNumeral(w);
  }

  /** Five fields with a minute other than "0", an hour of "*", or a restricted day or month stay as written. */
  lemma OtherFiveFieldSchedulesUnchanged(min: string, hour: string, day: string, month: string, weekday: string)
    requires SpaceFree(min) && SpaceFree(hour) && SpaceFree(day) && SpaceFree(month) && SpaceFree(weekday)
    requires min != "0" || hour == "*" || day != "*" || month != "*"
    ensures FormatSchedule(Fields(min, hour, day, month, weekday)) == Fields(min, hour, day, month, weekday)
  {
    FieldsSplit(min, hour, day, month, weekday);
  }

  /** A schedule that does not split on single spaces into exactly five pieces stays as written. */
  lemma NotFiveFieldsUnchanged(schedule: string)
    requires schedule != "" && |Split(schedule, ' ')| != 5
    ensures FormatSchedule(schedule) == schedule
  {
  }

  /** Splitting on single spaces loses nothing: the pieces join back to the schedule. */
  lemma SplitLosesNothing(schedule: string)
    ensures Join(Split(schedule, ' '), ' ') == schedule
    ensures forall p :: p in Split(schedule, ' ') ==> SpaceFree(p)
  {
    JoinSplit(schedule, ' ');
    SplitPiecesFree(schedule, ' ');
  }

  // ---------------------------------------------------------------------------
  // Cron's weekday 7 (Sunday) has no entry in the table

  /** The day-name lookup on a numeral: a name for 0 to 6, and "undefined" from 7 on. */
  lemma DayNameOfNumeral(w: nat)
    ensures DayName(NatToString(w)) == if w < 7 then Days[w] else "undefined"
  {
    ParseIntOfNumeral(w);
  }

  /** A numeral is a cron field: no space, and not "*". */
  lemma NumeralIsField(w: nat)
    ensures SpaceFree(NatToString(w)) && NatToString(w) != "*"
  {
    var n := NatToString(w);
    assert IsDigit(n[0]) by { assert n[0] in n; }
  }

  /** A weekday field that names no day renders "undefined at H:00". */
  lemma UndefinedWeekday(hour: string, weekday: string)
    requires SpaceFree(hour) && hour != "*" && SpaceFree(weekday) && weekday != "*"
    requires DayName(weekday) == "undefined"
    ensures FormatSchedule(Fields("0", hour, "*", "*", weekday)) == "undefined at " + hour + ":00"
  {
    WeekdayBranch(hour, weekday);
  }

  /** As written, a weekday numeral from 7 on (7 is Sunday in cron) renders as "undefined at H:00"; "0 2 * * 7" reads "undefined at 2:00". */
  lemma WeekdayPastSixUndefined(hour: string, w: nat)
    requires SpaceFree(hour) && hour != "*" && w >= 7
    ensures FormatSchedule(Fields("0", hour, "*", "*", NatToString(w))) == "undefined at " + hour + ":00"
  {
    NumeralIsField(w);
    DayNameOfNumeral(w);
    UndefinedWeekday(hour, NatToString(w));
  }

  /**
   * The lookup as intended: a weekday `parseInt` reads as 7 is Sunday, as in cron; every other
   * weekday gets the source's lookup.
   */
  function CorrectedDayName(weekday: string): string {
    CorrectedDayOf(ParseInt(weekday))
  }

  /** The corrected table lookup: 0 to 7 name a day (7 being Sunday again), anything else "undefined". */
  function CorrectedDayOf(n: ParsedInt): (r: string)
    ensures r == "undefined" <==> n.NaN? || n.magnitude > 7 || (n.negative && n.magnitude != 0)
    ensures r != "undefined" ==> r == Days[n.magnitude % 7]
    ensures r != DayOf(n) ==> n == Number(false, 7) && DayOf(n) == "undefined"
  {
    if n == Number(false, 7) then Days[0] else DayOf(n)
  }

  /** A schedule taking the weekday branch with a weekday `parseInt` reads as 7. */
  predicate WeekdaySevenBranch(schedule: string) {
    var parts := Split(schedule, ' ');
    && schedule != "" && |parts| == 5 && parts[0] == "0" && parts[1] != "*" && parts[2] == "*"
    && parts[3] == "*" && parts[4] != "*" && ParseInt(parts[4]) == Number(false, 7)
  }

  /** As written, such a schedule renders "undefined at H:00". */
  lemma WeekdaySevenBranchUndefined(schedule: string)
    requires WeekdaySevenBranch(schedule)
    ensures FormatSchedule(schedule) == "undefined at " + Split(schedule, ' ')[1] + ":00"
  {
    var parts := Split(schedule, ' ');
    var n := ParseInt(parts[4]);
    assert DayOf(n) == "undefined";
    assert FormatSchedule(schedule) == DayName(parts[4]) + " at " + parts[1] + ":00";
  }

  /**
   * `formatSchedule` as intended: the as-written renderer, except that the weekday branch uses the
   * corrected lookup, which only changes a weekday `parseInt` reads as 7.
   */
  function FormatScheduleCorrected(schedule: string): (r: string)
    ensures r != FormatSchedule(schedule) ==>
      var parts := Split(schedule, ' ');
      && |parts| == 5 && ParseInt(parts[4]) == Number(false, 7)
      && FormatSchedule(schedule) == "undefined at " + parts[1] + ":00"
      && r == "Sun at " + parts[1] + ":00"
  {
    if WeekdaySevenBranch(schedule) then
      var parts := Split(schedule, ' ');
      WeekdaySevenBranchUndefined(schedule);
      assert CorrectedDayName(parts[4]) == "Sun";
      CorrectedDayName(parts[4]) + " at " + parts[1] + ":00"
    else FormatSchedule(schedule)
  }

  /** "0 H * * W" with H and W not "*" reads as the corrected lookup of W, then " at H:00". */
  lemma CorrectedWeekdayBranch(hour: string, weekday: string)
    requires SpaceFree(hour) && hour != "*" && SpaceFree(weekday) && weekday != "*"
    ensures FormatScheduleCorrected(Fields("0", hour, "*", "*", weekday)) == CorrectedDayName(weekday) + " at " + hour + ":00"
  {
    FieldsSplit("0", hour, "*", "*", weekday);
    WeekdayBranch(hour, weekday);
  }

  /** A weekday that `parseInt` reads as 7 is rendered as Sunday by the correction ... */
  lemma CorrectedParsedSeven(hour: string, weekday: string)
    requires SpaceFree(hour) && hour != "*" && SpaceFree(weekday) && weekday != "*"
    requires ParseInt(weekday) == Number(false, 7)
    ensures FormatScheduleCorrected(Fields("0", hour, "*", "*", weekday)) == "Sun at " + hour + ":00"
  {
    CorrectedWeekdayBranch(hour, weekday);
  }

  /** ... so "0 H * * 7" reads "Sun at H:00" ... */
  lemma CorrectedWeekdaySeven(hour: string)
    requires SpaceFree(hour) && hour != "*"
    ensures FormatScheduleCorrected(Fields("0", hour, "*", "*", "7")) == "Sun at " + hour + ":00"
  {
    ParseIntOfDigits("7");
    assert DigitsValue("7") == 7;
    assert SpaceFree("7");
    CorrectedParsedSeven(hour, "7");
  }

  /** ... and agrees with the source on every other weekday numeral. */
  lemma CorrectedAgreesOnNumerals(hour: string, w: nat)
    requires SpaceFree(hour) && hour != "*" && w != 7
    ensures FormatScheduleCorrected(Fields("0", hour, "*", "*", NatToString(w)))
         == FormatSchedule(Fields("0", hour, "*", "*", NatToString(w)))
  {
    NumeralIsField(w);
    ParseIntOfNumeral(w);
    FieldsSplit("0", hour, "*", "*", NatToString(w));
  }
}
