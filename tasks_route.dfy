/** Task creation and listing (app/api/tasks/route.ts). */
module TasksRoute {
  import opened Wrappers
  import opened Sorting
  import opened Http
  import opened Database

  /**
   * The JSON body of `POST /api/tasks`; `parameters` is the `JSON.stringify` text of a truthy
   * `parameters` value and `None` for a falsy one.
   */
  datatype TaskBody = TaskBody(
    name: Option<string>, description: Option<string>, agentId: Option<string>, scriptName: Option<string>,
    scriptContent: Option<string>, parameters: Option<string>, schedule: Option<string>, active: ActiveField)

  /**
   * The body's `active`: absent, an explicit `null`, or a boolean. The destructuring default
   * `active = true` replaces only an absent value; `null` is bound into the INSERT as NULL.
   */
  datatype ActiveField = Unset | Null | Given(b: bool)

  /** What JavaScript reads from the stored column: NULL and false are both falsy. */
  predicate Truthy(active: Option<bool>) {
    active == Some(true)
  }

  /** The row inserted for a valid body: optional text fields default to "", an absent `active` to true. */
  function NewTask(id: string, body: TaskBody, now: int): (t: Task)
    requires !Falsy(body.name) && !Falsy(body.agentId) && !Falsy(body.scriptName)
    ensures t.id == id && t.name == body.name.value && t.agentId == body.agentId.value
    ensures t.scriptName == body.scriptName.value
    ensures t.description == (if body.description.Some? then body.description.value else "")
    ensures t.scriptContent == (if body.scriptContent.Some? then body.scriptContent.value else "")
    ensures t.parameters == (if body.parameters.Some? then body.parameters.value else "")
    ensures t.schedule == (if body.schedule.Some? then body.schedule.value else "")
    ensures t.active.None? <==> body.active == Null
    ensures Truthy(t.active) <==> body.active == Unset || body.active == Given(true)
    ensures t.createdAt == now && t.updatedAt == now
  {
    Task(id, body.name.value, body.description.GetOr(""), body.agentId.value, body.scriptName.value,
         body.scriptContent.GetOr(""), body.parameters.GetOr(""), body.schedule.GetOr(""),
         match body.active
         case Unset => Some(true)
         case Null => None
         case Given(b) => Some(b),
         now, now)
  }

  method Post(db: DatabasePool, body: TaskBody, newId: string, now: int) returns (resp: Response<Task>)
    requires db.Valid()
    modifies db
    ensures db.Valid()
    ensures db.agents == old(db.agents) && db.executions == old(db.executions) && db.scripts == old(db.scripts)
    ensures Falsy(body.name) || Falsy(body.agentId) || Falsy(body.scriptName) ==>
      resp == Response(400, Failure("Name, agent_id, and script_name are required")) && db.tasks == old(db.tasks)
    ensures !Falsy(body.name) && !Falsy(body.agentId) && !Falsy(body.scriptName) ==>
      if body.agentId.value !in old(db.agents) then
        resp == Response(404, Failure("Agent not found")) && db.tasks == old(db.tasks)
      else if newId in old(db.tasks) then
        resp == Response(500, Failure("Failed to create task")) && db.tasks == old(db.tasks)
      else
        resp == Response(201, Payload(NewTask(newId, body, now)))
        && db.tasks == old(db.tasks)[newId := NewTask(newId, body, now)]
  {
    if Falsy(body.name) || Falsy(body.agentId) || Falsy(body.scriptName) {
      return Response(400, Failure("Name, agent_id, and script_name are required"));
    }
    var agent := db.AgentGetById(body.agentId.value);
    if agent.None? {
      return Response(404, Failure("Agent not found"));
    }
    var t := NewTask(newId, body, now);
    var ok := db.TaskCreate(t.id, t.name, t.description, t.agentId, t.scriptName, t.scriptContent,
                            t.parameters, t.schedule, t.active, now);
    if !ok {
      return Response(500, Failure("Failed to create task"));
    }
    var row := db.TaskGetById(newId);
    resp := Response(201, Payload(row.value));
  }

  /** `GET`: every task with its agent's hostname and ip, newest first. */
  method Get(db: DatabasePool) returns (resp: Response<seq<TaskView>>)
    ensures resp.status == 200 && resp.body.Payload?
    ensures Sorted(resp.body.value, CreatedLater) && multiset(resp.body.value) == Bag(TaskViews(db.tasks, db.agents))
  {
    var rows := db.TaskGetAll();
    resp := Response(200, Payload(rows));
  }
}
