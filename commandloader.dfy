/**
 * `commandloader` of the Discord bot (src/lib/commands/commandloader.js): keep the `.js` files of a
 * directory, require each of them in directory order, and throw at the first module that is not a
 * valid command.
 */
module CommandLoader {
  import opened Strings
  import opened Seqs
  import opened BotCommands

  /** A directory entry: the file name and the module that requiring it yields. */
  datatype Entry = Entry(file: string, module_: Command)

  predicate IsJsEntry(e: Entry) { EndsWith(e.file, ".js") }

  /** The entries `readdirSync(...).filter(file => file.endsWith('.js'))` keeps. */
  function JsEntries(dir: seq<Entry>): seq<Entry> {
    Filter(dir, IsJsEntry)
  }

  function Modules(entries: seq<Entry>): (ms: seq<Command>)
    ensures |ms| == |entries| && forall i :: 0 <= i < |entries| ==> ms[i] == entries[i].module_
  {
    if entries == [] then [] else [entries[0].module_] + Modules(entries[1..])
  }

  /**
   * The error `loadCommands` throws: the missing field, and the file name standing for the
   * module the message prints with `JSON.stringify`.
   */
  datatype LoadError = LoadError(file: string, field: Field)

  /** What `commandloader` returns or throws. */
  datatype Loaded = Commands(commands: seq<Command>) | Threw(error: LoadError)

  /** Every command of a list that passes the scan has a non-empty string name and description. */
  lemma AllPresent(cs: seq<Command>)
    requires FirstInvalid(cs).None?
    ensures forall k :: 0 <= k < |cs| ==>
      && cs[k].name.Str? && cs[k].name.s != ""
      && cs[k].description.Str? && cs[k].description.s != ""
  {
    forall k | 0 <= k < |cs|
      ensures cs[k].name.Str? && cs[k].name.s != "" && cs[k].description.Str? && cs[k].description.s != ""
    {
      assert Valid(cs[k]);
    }
  }

  /** The loop of `commandloader` over the kept files: require, check, push. */
  method LoadAll(files: seq<Entry>) returns (r: Loaded)
    ensures r.Commands? <==> FirstInvalid(Modules(files)).None?
    ensures r.Commands? ==> r.commands == Modules(files)
    ensures r.Threw? ==> var f := FirstInvalid(Modules(files)).value;
      r.error == LoadError(files[f.index].file, f.field)
  {
    ghost var ms := Modules(files);
    var commands: seq<Command> := [];
    var i := 0;
    while i < |files|
      invariant 0 <= i <= |files|
      invariant commands == ms[..i]
      invariant forall j :: 0 <= j < i ==> Valid(ms[j])
    {
      var command := files[i].module_;
      var rejected := Check(command);
      if rejected.Some? {
        FirstInvalidUnique(ms, i, rejected.value);
        return Threw(LoadError(files[i].file, rejected.value));
      }
      commands := commands + [command];
      i := i + 1;
    }
    assert commands == ms;
    return Commands(commands);
  }

  /** `commandloader`: the commands of the `.js` files in directory order, or the first rejection. */
  method Load(dir: seq<Entry>) returns (r: Loaded)
    ensures r.Commands? <==> FirstInvalid(Modules(JsEntries(dir))).None?
    ensures r.Commands? ==> r.commands == Modules(JsEntries(dir))
    ensures r.Commands? ==> forall k :: 0 <= k < |r.commands| ==>
      && r.commands[k].name.Str? && r.commands[k].name.s != ""
      && r.commands[k].description.Str? && r.commands[k].description.s != ""
    ensures r.Threw? ==> var f := FirstInvalid(Modules(JsEntries(dir))).value;
      r.error == LoadError(JsEntries(dir)[f.index].file, f.field)
  {
    var files := JsEntries(dir);
    r := LoadAll(files);
    if r.Commands? {
      AllPresent(r.commands);
    }
  }

  /** Files not ending in `.js` are ignored wherever they appear in the directory. */
  lemma NonJsFilesIgnored(before: seq<Entry>, e: Entry, after: seq<Entry>)
    requires !EndsWith(e.file, ".js")
    ensures JsEntries(before + [e] + after) == JsEntries(before + after)
  {
    FilterConcat(before + [e], after, IsJsEntry);
    FilterConcat(before, [e], IsJsEntry);
    FilterConcat(before, after, IsJsEntry);
  }
}
