/**
 * The script agent (agent/agent.py): how a script name chooses an interpreter, how parameters
 * become `PARAM_*` environment variables, how a subprocess outcome becomes a response, and the
 * validation done by the `/execute` endpoint. The subprocess, the temporary file, the clock and
 * the local `scripts` directory are inputs.
 */
module ScriptAgent {
  import opened Wrappers
  import opened Strings

  // ---------------------------------------------------------------------------
  // Extension and command line

  /** `_get_script_extension`: ".py", ".sh" or ".js"; ".bash" and anything unrecognised run as shell. */
  function ScriptExtension(name: string): (ext: string)
    ensures ext == ".py" || ext == ".sh" || ext == ".js"
    ensures ext == ".py" <==> EndsWith(name, ".py")
    ensures ext == ".js" <==> EndsWith(name, ".js")
    ensures ext == ".sh" <==> !EndsWith(name, ".py") && !EndsWith(name, ".js")
  {
    if EndsWith(name, ".py") then ".py"
    else if EndsWith(name, ".sh") || EndsWith(name, ".bash") then
      assert name[|name| - 1] == 'h' by {
        if EndsWith(name, ".sh") {
          assert name[|name| - 3..][2] == 'h';
        } else {
          assert name[|name| - 5..][4] == 'h';
        }
      }
      ".sh"
    else if EndsWith(name, ".js") then ".js"
    else ".sh"
  }

  /** Whether the temporary file is made executable (`chmod 0o755`) before it runs. */
  predicate MakesExecutable(ext: string) {
    ext == ".sh" || ext == ".bash"
  }

  /** The command line for a script file of extension `ext`; `executable` is the agent's own Python. */
  function Command(ext: string, executable: string, path: string): seq<string> {
    if ext == ".py" then [executable, path]
    else if ext == ".sh" || ext == ".bash" then ["/bin/bash", path]
    else if ext == ".js" then ["node", path]
    else [path]
  }

  /**
   * From a script name, the temporary file always runs under an interpreter: Python for ".py",
   * node for ".js", bash for everything else; the direct-execution branch is never taken, and
   * exactly the bash-run files are made executable.
   */
  lemma CommandForName(name: string, executable: string, path: string)
    ensures var argv := Command(ScriptExtension(name), executable, path);
      && |argv| == 2 && argv[1] == path
      && argv[0] == (if EndsWith(name, ".py") then executable
                     else if EndsWith(name, ".js") then "node"
                     else "/bin/bash")
    ensures MakesExecutable(ScriptExtension(name)) <==> !EndsWith(name, ".py") && !EndsWith(name, ".js")
  {
  }

  // ---------------------------------------------------------------------------
  // Parameters as environment variables

  /** A JSON value as `str(value)` prints it. */
  datatype ParamValue = PStr(s: string) | PInt(i: int) | PBool(b: bool) | PNull | POther(repr: string)

  function PyStr(v: ParamValue): string {
    match v
    case PStr(s) => s
    case PInt(i) => IntToString(i)
    case PBool(b) => if b then "True" else "False"
    case PNull => "None"
    case POther(repr) => repr
  }

  /** `f'PARAM_{key.upper()}'` */
  function ParamName(key: string): (name: string)
    ensures StartsWith(name, "PARAM_")
    ensures |name| == |key| + 6 && forall i :: 0 <= i < |key| ==> name[6 + i] == UpperChar(key[i])
  {
    "PARAM_" + Upper(key)
  }

  /** The parent environment with each parameter assigned in turn, later assignments winning. */
  function Overlay(parent: map<string, string>, ps: seq<(string, ParamValue)>): map<string, string> {
    if ps == [] then parent
    else
      var last := ps[|ps| - 1];
      Overlay(parent, ps[..|ps| - 1])[ParamName(last.0) := PyStr(last.1)]
  }

  /** `env = os.environ.copy()` followed by the assignment loop. */
  method ChildEnvironment(parent: map<string, string>, ps: seq<(string, ParamValue)>) returns (env: map<string, string>)
    ensures env == Overlay(parent, ps)
  {
    env := parent;
    var i := 0;
    while i < |ps|
      invariant 0 <= i <= |ps|
      invariant env == Overlay(parent, ps[..i])
    {
      assert ps[..i + 1][..i] == ps[..i];
      env := env[ParamName(ps[i].0) := PyStr(ps[i].1)];
      i := i + 1;
    }
    assert ps[..|ps|] == ps;
  }

  /** The child's variables are the parent's plus one `PARAM_` name per parameter. */
  lemma {:induction false} OverlayKeys(parent: map<string, string>, ps: seq<(string, ParamValue)>)
    ensures Overlay(parent, ps).Keys == parent.Keys + set i | 0 <= i < |ps| :: ParamName(ps[i].0)
  {
    if ps != [] {
      var init := ps[..|ps| - 1];
      OverlayKeys(parent, init);
      assert (set i | 0 <= i < |ps| :: ParamName(ps[i].0))
          == (set i | 0 <= i < |init| :: ParamName(init[i].0)) + {ParamName(ps[|ps| - 1].0)} by {
        forall i | 0 <= i < |init| ensures init[i] == ps[i] { }
      }
    }
  }

  /** A variable that no parameter names keeps the parent's value, or stays absent. */
  lemma {:induction false} OverlayOthers(parent: map<string, string>, ps: seq<(string, ParamValue)>, k: string)
    requires forall j :: 0 <= j < |ps| ==> ParamName(ps[j].0) != k
    ensures k in Overlay(parent, ps) <==> k in parent
    ensures k in parent ==> Overlay(parent, ps)[k] == parent[k]
  {
    if ps != [] {
      var init := ps[..|ps| - 1];
      assert forall j :: 0 <= j < |init| ==> init[j] == ps[j];
      OverlayOthers(parent, init, k);
    }
  }

  /** In particular, variables not starting with `PARAM_` are passed through unchanged. */
  lemma NonParamVariablesUnchanged(parent: map<string, string>, ps: seq<(string, ParamValue)>, k: string)
    requires !StartsWith(k, "PARAM_")
    ensures k in Overlay(parent, ps) <==> k in parent
    ensures k in parent ==> Overlay(parent, ps)[k] == parent[k]
  {
    OverlayOthers(parent, ps, k);
  }

  /** A parameter's variable holds that parameter's value unless a later key upper-cases to the same name. */
  lemma {:induction false} OverlayLastWins(parent: map<string, string>, ps: seq<(string, ParamValue)>, i: nat)
    requires i < |ps|
    requires forall j :: i < j < |ps| ==> ParamName(ps[j].0) != ParamName(ps[i].0)
    ensures ParamName(ps[i].0) in Overlay(parent, ps)
    ensures Overlay(parent, ps)[ParamName(ps[i].0)] == PyStr(ps[i].1)
  {
    var init := ps[..|ps| - 1];
    if i < |ps| - 1 {
      assert forall j :: 0 <= j < |init| ==> init[j] == ps[j];
      OverlayLastWins(parent, init, i);
    }
  }

  // ---------------------------------------------------------------------------
  // Outcome of a run and the response it produces

  /** What running the script did: it exited, it ran past the 300-second timeout, or something raised. */
  datatype Outcome = Exited(returnCode: int, stdout: string, stderr: string) | TimedOut | Raised(message: string)

  datatype Status = Success | Error

  /** The response dictionary; an absent key is `None`. */
  datatype ExecutionResult = ExecutionResult(
    executionId: string, status: Status, output: Option<string>, error: Option<string>, duration: Option<int>)

  const TimeoutMessage: string := "Script execution timed out (5 minutes)"

  /** `execute_script`'s result for an outcome, `duration` being the elapsed milliseconds. */
  function Classify(executionId: string, outcome: Outcome, duration: int): (r: ExecutionResult)
    ensures r.executionId == executionId && r.duration == Some(duration)
    ensures r.status == Success <==> outcome.Exited? && outcome.returnCode == 0
    ensures r.error.None? <==> r.status == Success
    ensures r.output.Some? <==> outcome.Exited?
    ensures outcome.Exited? ==> r.output == Some(outcome.stdout)
    ensures outcome.Exited? && outcome.returnCode != 0 ==> r.error == Some(outcome.stderr)
    ensures outcome.TimedOut? ==> r.error == Some(TimeoutMessage)
    ensures outcome.Raised? ==> r.error == Some(outcome.message)
  {
    match outcome
    case Exited(code, out, err) =>
      if code == 0 then ExecutionResult(executionId, Success, Some(out), None, Some(duration))
      else ExecutionResult(executionId, Error, Some(out), Some(err), Some(duration))
    case TimedOut => ExecutionResult(executionId, Error, None, Some(TimeoutMessage), Some(duration))
    case Raised(message) => ExecutionResult(executionId, Error, None, Some(message), Some(duration))
  }

  // ---------------------------------------------------------------------------
  // The /execute endpoint

  /** The first of `required` that is not in `present`, checked in order; `None` when all are there. */
  method FirstMissing(required: seq<string>, present: set<string>) returns (missing: Option<string>)
    ensures missing.None? <==> forall i :: 0 <= i < |required| ==> required[i] in present
    ensures missing.Some? ==> exists i :: 0 <= i < |required| && required[i] == missing.value
                                     && required[i] !in present
                                     && forall j :: 0 <= j < i ==> required[j] in present
  {
    var i := 0;
    while i < |required|
      invariant 0 <= i <= |required|
      invariant forall j :: 0 <= j < i ==> required[j] in present
    {
      if required[i] !in present {
        return Some(required[i]);
      }
      i := i + 1;
    }
    return None;
  }

  const RequiredFields: seq<string> := ["script_name", "execution_id"]

  /**
   * The JSON body: `fields` holds its text-valued keys (`script_name`, `execution_id`,
   * `script_content`), `parameters` the `parameters` object when it is given.
   */
  datatype ExecuteBody = ExecuteBody(fields: map<string, string>, parameters: Option<seq<(string, ParamValue)>>)

  /** `not data`: no body, or an empty object. */
  predicate NoData(body: Option<ExecuteBody>) {
    body.None? || (body.value.fields == map[] && body.value.parameters.None?)
  }

  datatype ReplyBody = ErrorOnly(error: string) | Report(result: ExecutionResult)

  datatype Reply = Reply(code: int, body: ReplyBody)

  /**
   * What the agent prepares to run: the command line, its environment, the file's text, and the
   * chmod. A `Raised` outcome may have failed before anything started.
   */
  datatype Launch = Launch(argv: seq<string>, env: map<string, string>, content: string, chmod: bool)

  /** The text of `data[key]` for a key known to be present, `data.get(key, '')` otherwise. */
  function FieldOr(fields: map<string, string>, key: string): string {
    if key in fields then fields[key] else ""
  }

  /**
   * `/execute`. `localScript` is the content of `scripts/<script_name>` when that file exists;
   * `executable`, `tempPath` and `environ` are the agent's Python, the temporary file's name and
   * its environment; `outcome` and `duration` are what running the command gave.
   */
  method HandleExecute(body: Option<ExecuteBody>, localScript: Option<string>, executable: string,
                       tempPath: string, environ: map<string, string>, outcome: Outcome, duration: int)
    returns (reply: Reply, launched: Option<Launch>)
    ensures NoData(body) ==> reply == Reply(400, ErrorOnly("No JSON data provided")) && launched.None?
    ensures !NoData(body) && "script_name" !in body.value.fields ==>
      reply == Reply(400, ErrorOnly("Missing required field: script_name")) && launched.None?
    ensures !NoData(body) && "script_name" in body.value.fields && "execution_id" !in body.value.fields ==>
      reply == Reply(400, ErrorOnly("Missing required field: execution_id")) && launched.None?
    ensures !NoData(body) && "script_name" in body.value.fields && "execution_id" in body.value.fields ==>
      var fields := body.value.fields;
      var name, id := fields["script_name"], fields["execution_id"];
      if FieldOr(fields, "script_content") == "" && localScript.None? then
        && reply == Reply(404, Report(ExecutionResult(id, Error, None,
             Some("Script '" + name + "' not found and no content provided"), None)))
        && launched.None?
      else
        var ext := ScriptExtension(name);
        && reply == Reply(200, Report(Classify(id, outcome, duration)))
        && launched == Some(Launch(
             Command(ext, executable, tempPath),
             Overlay(environ, body.value.parameters.GetOr([])),
             if FieldOr(fields, "script_content") != "" then fields["script_content"] else localScript.value,
             MakesExecutable(ext)))
  {
    if NoData(body) {
      return Reply(400, ErrorOnly("No JSON data provided")), None;
    }
    var fields := body.value.fields;
    var missing := FirstMissing(RequiredFields, fields.Keys);
    if missing.Some? {
      var i :| 0 <= i < |RequiredFields| && RequiredFields[i] == missing.value
               && RequiredFields[i] !in fields && forall j :: 0 <= j < i ==> RequiredFields[j] in fields;
      assert RequiredFields[0] == "script_name" && RequiredFields[1] == "execution_id";
      assert "Missing required field: " + "script_name" == "Missing required field: script_name";
      assert "Missing required field: " + "execution_id" == "Missing required field: execution_id";
      return Reply(400, ErrorOnly("Missing required field: " + missing.value)), None;
    }
    assert RequiredFields[0] in fields && RequiredFields[1] in fields;
    var name := fields["script_name"];
    var content := FieldOr(fields, "script_content");
    var parameters := body.value.parameters.GetOr([]);
    var id := fields["execution_id"];
    if content == "" {
      if localScript.Some? {
        content := localScript.value;
      } else {
        return Reply(404, Report(ExecutionResult(id, Error, None,
          Some("Script '" + name + "' not found and no content provided"), None))), None;
      }
    }
    var ext := ScriptExtension(name);
    var env := ChildEnvironment(environ, parameters);
    launched := Some(Launch(Command(ext, executable, tempPath), env, content, MakesExecutable(ext)));
    reply := Reply(200, Report(Classify(id, outcome, duration)));
  }
}
