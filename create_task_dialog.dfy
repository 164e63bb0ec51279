/**
 * The create-task dialog (components/create-task-dialog.tsx): the agent picker, copying a library
 * script into the form, and submitting the form. The fetches and `JSON.parse` are inputs.
 */
module CreateTaskDialog {
  import opened Wrappers
  import opened Strings
  import opened Seqs

  datatype Form = Form(
    name: string, description: string, agentId: string, scriptName: string, scriptContent: string,
    schedule: string, parameters: string, active: bool)

  const InitialForm: Form := Form("", "", "", "", "", "", "{}", true)

  /** The rows of `/api/agents` and `/api/scripts` the dialog uses. */
  datatype AgentItem = AgentItem(id: string, hostname: string, ip: string, status: string)
  datatype ScriptItem = ScriptItem(id: string, name: string, description: string, content: string, kind: string)

  // ---------------------------------------------------------------------------
  // The agent picker

  predicate IsOnline(a: AgentItem) { a.status == "online" }

  /** `fetchAgents`: only agents reported online are offered. */
  function OnlineAgents(agents: seq<AgentItem>): (r: seq<AgentItem>)
    ensures forall a :: a in r <==> a in agents && a.status == "online"
  {
    Filter(agents, IsOnline)
  }

  /** The picker keeps the listing's order: picking from a concatenation is picking from each part. */
  lemma OnlineAgentsKeepOrder(a: seq<AgentItem>, b: seq<AgentItem>)
    ensures OnlineAgents(a + b) == OnlineAgents(a) + OnlineAgents(b)
  {
    FilterConcat(a, b, IsOnline);
  }

  /** When every agent is online, the picker offers the whole listing, in order. */
  lemma AllOnlineAllOffered(agents: seq<AgentItem>)
    requires forall i :: 0 <= i < |agents| ==> agents[i].status == "online"
    ensures OnlineAgents(agents) == agents
  {
    FilterAll(agents, IsOnline);
  }

  // ---------------------------------------------------------------------------
  // Choosing a library script

  /** `scripts.find((s) => s.id === scriptId)`: the first script with that id. */
  function FindScript(scripts: seq<ScriptItem>, id: string): (r: Option<ScriptItem>)
    ensures r.None? <==> forall i :: 0 <= i < |scripts| ==> scripts[i].id != id
    ensures r.Some? ==> exists i :: 0 <= i < |scripts| && scripts[i] == r.value && r.value.id == id
                                   && forall j :: 0 <= j < i ==> scripts[j].id != id
  {
    if scripts == [] then None
    else if scripts[0].id == id then Some(scripts[0])
    else
      var r := FindScript(scripts[1..], id);
      assert r.Some? ==> exists i :: 1 <= i < |scripts| && scripts[i] == r.value && r.value.id == id
                                    && forall j :: 0 <= j < i ==> scripts[j].id != id by {
        if r.Some? {
          var i :| 0 <= i < |scripts[1..]| && scripts[1..][i] == r.value && r.value.id == id
                   && forall j :: 0 <= j < i ==> scripts[1..][j].id != id;
          assert scripts[i + 1] == r.value;
          assert forall j :: 0 <= j < i + 1 ==> scripts[j].id != id by {
            forall j | 0 <= j < i + 1 ensures scripts[j].id != id {
              if j > 0 { assert scripts[j] == scripts[1..][j - 1]; }
            }
          }
        }
      }
      r
  }

  /** `handleScriptSelect`. */
  function SelectScript(form: Form, scripts: seq<ScriptItem>, id: string): Form {
    match FindScript(scripts, id)
    case Some(s) => form.(scriptName := s.name, scriptContent := s.content)
    case None => form
  }

  /**
   * Selecting a known script copies its name and content into the form and nothing else;
   * an unknown id leaves the form as it was.
   */
  lemma SelectScriptEffect(form: Form, scripts: seq<ScriptItem>, id: string)
    ensures var f := SelectScript(form, scripts, id);
      if exists i :: 0 <= i < |scripts| && scripts[i].id == id then
        var s := FindScript(scripts, id).value;
        && s in scripts && s.id == id
        && f == form.(scriptName := s.name, scriptContent := s.content)
        && f.(scriptName := form.scriptName, scriptContent := form.scriptContent) == form
      else f == form
  {
  }

  // ---------------------------------------------------------------------------
  // Submitting

  /** The `parameters` value sent: `{}` for blank text, otherwise whatever `JSON.parse` made of the text. */
  datatype Parameters = EmptyObject | ParsedFrom(text: string)

  /** The JSON body posted to `/api/tasks`. */
  datatype TaskRequest = TaskRequest(
    name: string, description: string, agentId: string, scriptName: string, scriptContent: string,
    schedule: Option<string>, parameters: Parameters, active: bool)

  function RequestFor(form: Form): (r: TaskRequest)
    ensures r.schedule.None? <==> form.schedule == ""
    ensures r.schedule.Some? ==> r.schedule.value == form.schedule
    ensures r.parameters == EmptyObject <==> IsBlank(form.parameters)
  {
    TaskRequest(form.name, form.description, form.agentId, form.scriptName, form.scriptContent,
                if form.schedule == "" then None else Some(form.schedule),
                if IsBlank(form.parameters) then EmptyObject else ParsedFrom(form.parameters),
                form.active)
  }

  /** How the POST went: an ok response, an error response, or a fetch that threw. */
  datatype Reply = Ok | NotOk | Threw

  class Dialog {
    var open: bool
    var loading: bool
    var form: Form

    constructor()
      ensures !open && !loading && form == InitialForm
    {
      open, loading, form := false, false, InitialForm;
    }

    /**
     * `handleSubmit`. `parses` says whether `JSON.parse` accepts the parameters text, `reply` how
     * the POST went. Returns the request sent, if any.
     */
    method Submit(parses: bool, reply: Reply) returns (sent: Option<TaskRequest>)
      modifies this
      ensures !loading
      ensures !IsBlank(old(form.parameters)) && !parses ==>
        sent.None? && form == old(form) && open == old(open)
      ensures IsBlank(old(form.parameters)) || parses ==>
        && sent == Some(RequestFor(old(form)))
        && (reply == Ok ==> form == InitialForm && !open)
        && (reply != Ok ==> form == old(form) && open == old(open))
    {
      loading := true;
      if !IsBlank(form.parameters) && !parses {
        loading := false;
        return None;
      }
      sent := Some(RequestFor(form));
      if reply == Ok {
        open := false;
        form := InitialForm;
      }
      loading := false;
    }
  }
}
