/**
 * The slash-command shape both Discord-bot validators check (src/lib/main/botmain.js,
 * src/lib/commands/commandloader.js): a command needs a `name` and a `description` that are
 * non-empty strings, and `name` is checked first.
 */
module BotCommands {
  import opened Wrappers

  /**
   * A property of a command module as JavaScript sees it: a string, or anything else (absent,
   * null, a number, an object). `!v || typeof v !== 'string'` rejects every non-string, truthy or
   * not, so the model does not distinguish them.
   */
  datatype JsValue = Str(s: string) | NotString

  /** A command module; the properties other than these two (`execute`, `options`) are not modelled. */
  datatype Command = Command(name: JsValue, description: JsValue)

  datatype Field = Name | Description

  /** Passes `!v || typeof v !== 'string'` unharmed: a non-empty string. */
  predicate Present(v: JsValue) { v.Str? && v.s != "" }

  /** The field a command is rejected for: its name if that is missing, else its description. */
  function Check(c: Command): (r: Option<Field>)
    ensures r.None? <==> Present(c.name) && Present(c.description)
    ensures r == Some(Name) <==> !Present(c.name)
    ensures r == Some(Description) <==> Present(c.name) && !Present(c.description)
  {
    if !Present(c.name) then Some(Name)
    else if !Present(c.description) then Some(Description)
    else None
  }

  predicate Valid(c: Command) { Check(c).None? }

  /** The command at `index` is rejected for `field`. */
  datatype Failure = Failure(index: nat, field: Field)

  function Shift(r: Option<Failure>, k: nat): Option<Failure> {
    match r
    case None => None
    case Some(f) => Some(Failure(f.index + k, f.field))
  }

  /** The first rejected command of a list, scanning in index order. */
  function FirstInvalid(cs: seq<Command>): (r: Option<Failure>)
    ensures r.None? <==> forall i :: 0 <= i < |cs| ==> Valid(cs[i])
    ensures r.Some? ==> && r.value.index < |cs|
                        && Check(cs[r.value.index]) == Some(r.value.field)
                        && forall j :: 0 <= j < r.value.index ==> Valid(cs[j])
  {
    if cs == [] then None
    else match Check(cs[0])
      case Some(f) => Some(Failure(0, f))
      case None =>
        var rest := FirstInvalid(cs[1..]);
        assert forall i :: 1 <= i < |cs| ==> cs[i] == cs[1..][i - 1];
        Shift(rest, 1)
  }

  /** Whoever scans in index order and stops at the first rejection reports `FirstInvalid`. */
  lemma FirstInvalidUnique(cs: seq<Command>, i: nat, f: Field)
    requires i < |cs| && Check(cs[i]) == Some(f)
    requires forall j :: 0 <= j < i ==> Valid(cs[j])
    ensures FirstInvalid(cs) == Some(Failure(i, f))
  {
  }

  /** Scanning a concatenation: a rejection in the first part wins, otherwise the second part's, offset. */
  lemma FirstInvalidConcat(a: seq<Command>, b: seq<Command>)
    ensures FirstInvalid(a + b) == if FirstInvalid(a).Some? then FirstInvalid(a) else Shift(FirstInvalid(b), |a|)
  {
    var ab := a + b;
    assert forall i :: 0 <= i < |a| ==> ab[i] == a[i];
    assert forall i :: 0 <= i < |b| ==> ab[|a| + i] == b[i];
    var fa := FirstInvalid(a);
    if fa.Some? {
      FirstInvalidUnique(ab, fa.value.index, fa.value.field);
    } else {
      var fb := FirstInvalid(b);
      if fb.Some? {
        FirstInvalidUnique(ab, |a| + fb.value.index, fb.value.field);
      } else {
        assert forall i :: 0 <= i < |ab| ==> Valid(ab[i]) by {
          forall i | 0 <= i < |ab| ensures Valid(ab[i]) {
            if i >= |a| { assert ab[i] == b[i - |a|]; }
          }
        }
      }
    }
  }
}
