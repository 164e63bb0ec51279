/**
 * The record store (lib/database.ts) with the constraints its schema declares
 * (scripts/init-db.js): four tables, each a map from id to row; unique agent ip and script
 * name; foreign keys from tasks to agents and from executions to tasks and agents, with
 * cascading deletes. `CURRENT_TIMESTAMP` is the parameter `now`.
 */
module Database {
  import opened Wrappers
  import opened Strings
  import opened Sorting

  // ---------------------------------------------------------------------------
  // Rows

  datatype Agent = Agent(
    id: string, hostname: string, ip: string, port: int, status: string,
    os: Option<string>, arch: Option<string>, cpu: Option<string>, ram: Option<string>,
    lastSeen: Option<int>, createdAt: int, updatedAt: int)

  /** `active` is the BOOLEAN column, which has no NOT NULL constraint: `None` is SQL NULL. */
  datatype Task = Task(
    id: string, name: string, description: string, agentId: string, scriptName: string,
    scriptContent: string, parameters: string, schedule: string, active: Option<bool>,
    createdAt: int, updatedAt: int)

  datatype Execution = Execution(
    id: string, taskId: string, agentId: string, status: string,
    output: Option<string>, errorMessage: Option<string>,
    startedAt: int, finishedAt: Option<int>, duration: Option<int>)

  datatype Script = Script(
    id: string, name: string, description: string, content: string, kind: string,
    parameters: string, createdAt: int, updatedAt: int)

  /** A row of `taskQueries.getAll`: the task joined with its agent's hostname and ip. */
  datatype TaskView = TaskView(task: Task, agentHostname: string, agentIp: string)

  /** A row of the execution listings: the execution joined with its task's name and agent's hostname. */
  datatype ExecutionView = ExecutionView(execution: Execution, taskName: string, agentHostname: string)

  // ---------------------------------------------------------------------------
  // Table constraints

  predicate IpTaken(agents: map<string, Agent>, ip: string) {
    exists id :: id in agents && agents[id].ip == ip
  }

  predicate NameTaken(scripts: map<string, Script>, name: string) {
    exists id :: id in scripts && scripts[id].name == name
  }

  predicate UniqueIps(agents: map<string, Agent>) {
    forall a, b :: a in agents && b in agents && agents[a].ip == agents[b].ip ==> a == b
  }

  predicate UniqueNames(scripts: map<string, Script>) {
    forall a, b :: a in scripts && b in scripts && scripts[a].name == scripts[b].name ==> a == b
  }

  /** Every row is filed under its own id. */
  predicate KeyedById(agents: map<string, Agent>, tasks: map<string, Task>,
                      executions: map<string, Execution>, scripts: map<string, Script>) {
    && (forall id :: id in agents ==> agents[id].id == id)
    && (forall id :: id in tasks ==> tasks[id].id == id)
    && (forall id :: id in executions ==> executions[id].id == id)
    && (forall id :: id in scripts ==> scripts[id].id == id)
  }

  /** Every foreign key names an existing row. */
  predicate ReferencesExist(agents: map<string, Agent>, tasks: map<string, Task>, executions: map<string, Execution>) {
    && (forall id :: id in tasks ==> tasks[id].agentId in agents)
    && (forall id :: id in executions ==> executions[id].taskId in tasks && executions[id].agentId in agents)
  }

  predicate TablesValid(agents: map<string, Agent>, tasks: map<string, Task>,
                        executions: map<string, Execution>, scripts: map<string, Script>) {
    && KeyedById(agents, tasks, executions, scripts)
    && UniqueIps(agents) && UniqueNames(scripts)
    && ReferencesExist(agents, tasks, executions)
  }

  // ---------------------------------------------------------------------------
  // Cascading delete of an agent

  /** The tasks that survive deleting agent `agentId` (`ON DELETE CASCADE` on `agent_id`). */
  function TasksKept(tasks: map<string, Task>, agentId: string): map<string, Task> {
    map t | t in tasks && tasks[t].agentId != agentId :: tasks[t]
  }

  /** The executions that survive: neither their agent nor their task was deleted. */
  function ExecutionsKept(executions: map<string, Execution>, agentId: string, keptTasks: set<string>): map<string, Execution> {
    map e | e in executions && executions[e].agentId != agentId && executions[e].taskId in keptTasks :: executions[e]
  }

  /**
   * Deleting an agent keeps the store consistent, and removes exactly the agent, its tasks, and the
   * executions that belong to the agent or to one of those tasks; nothing left refers to the agent.
   */
  lemma CascadeKeepsTablesValid(agents: map<string, Agent>, tasks: map<string, Task>,
                                executions: map<string, Execution>, scripts: map<string, Script>, id: string)
    requires TablesValid(agents, tasks, executions, scripts)
    ensures var ts := TasksKept(tasks, id);
            var es := ExecutionsKept(executions, id, ts.Keys);
            && TablesValid(agents - {id}, ts, es, scripts)
            && (forall t :: t in tasks ==> (t !in ts <==> tasks[t].agentId == id))
            && (forall e :: e in executions ==>
                  (e !in es <==> (executions[e].agentId == id || tasks[executions[e].taskId].agentId == id)))
            && (forall t :: t in ts ==> ts[t].agentId != id)
            && (forall e :: e in es ==> es[e].agentId != id && es[e].taskId in ts)
  {
    var ts := TasksKept(tasks, id);
    var es := ExecutionsKept(executions, id, ts.Keys);
    assert ReferencesExist(agents - {id}, ts, es);
  }

  /** The executions that survive deleting task `taskId` (`ON DELETE CASCADE` on `task_id`). */
  function ExecutionsOfOtherTasks(executions: map<string, Execution>, taskId: string): map<string, Execution> {
    map e | e in executions && executions[e].taskId != taskId :: executions[e]
  }

  /** Deleting a task keeps the store consistent and removes exactly the task and its executions. */
  lemma TaskCascadeKeepsTablesValid(agents: map<string, Agent>, tasks: map<string, Task>,
                                    executions: map<string, Execution>, scripts: map<string, Script>, id: string)
    requires TablesValid(agents, tasks, executions, scripts)
    ensures var es := ExecutionsOfOtherTasks(executions, id);
            && TablesValid(agents, tasks - {id}, es, scripts)
            && (forall e :: e in executions ==> (e !in es <==> executions[e].taskId == id))
            && (forall e :: e in es ==> es[e] == executions[e])
  {
    var es := ExecutionsOfOtherTasks(executions, id);
    assert ReferencesExist(agents, tasks - {id}, es);
  }

  // ---------------------------------------------------------------------------
  // Joined listings

  /** `tasks t JOIN agents a ON t.agent_id = a.id`, keyed by task id. */
  function TaskViews(tasks: map<string, Task>, agents: map<string, Agent>): map<string, TaskView> {
    map t | t in tasks && tasks[t].agentId in agents ::
      TaskView(tasks[t], agents[tasks[t].agentId].hostname, agents[tasks[t].agentId].ip)
  }

  /** `task_executions e JOIN tasks t ... JOIN agents a ...`, keyed by execution id. */
  function ExecutionViews(executions: map<string, Execution>, tasks: map<string, Task>,
                          agents: map<string, Agent>): map<string, ExecutionView> {
    map e | e in executions && executions[e].taskId in tasks && executions[e].agentId in agents ::
      ExecutionView(executions[e], tasks[executions[e].taskId].name, agents[executions[e].agentId].hostname)
  }

  /** The same join restricted to `WHERE e.task_id = ?`. */
  function ExecutionViewsOf(executions: map<string, Execution>, tasks: map<string, Task>,
                            agents: map<string, Agent>, taskId: string): map<string, ExecutionView> {
    map e | e in executions && executions[e].taskId == taskId && executions[e].taskId in tasks
                          && executions[e].agentId in agents ::
      ExecutionView(executions[e], tasks[executions[e].taskId].name, agents[executions[e].agentId].hostname)
  }

  /** With the foreign keys in place the joins drop no row. */
  lemma JoinsDropNothing(agents: map<string, Agent>, tasks: map<string, Task>,
                         executions: map<string, Execution>, scripts: map<string, Script>)
    requires TablesValid(agents, tasks, executions, scripts)
    ensures TaskViews(tasks, agents).Keys == tasks.Keys
    ensures ExecutionViews(executions, tasks, agents).Keys == executions.Keys
    ensures forall t :: t in tasks ==> TaskViews(tasks, agents)[t].agentHostname == agents[tasks[t].agentId].hostname
    ensures forall t :: t in tasks ==> TaskViews(tasks, agents)[t].task == tasks[t]
  {
  }

  /** The task-filtered listing is the full one restricted to that task. */
  lemma ViewsOfTask(executions: map<string, Execution>, tasks: map<string, Task>,
                    agents: map<string, Agent>, taskId: string)
    ensures var all, some := ExecutionViews(executions, tasks, agents), ExecutionViewsOf(executions, tasks, agents, taskId);
      && some.Keys == set e | e in all && all[e].execution.taskId == taskId
      && forall e :: e in some ==> some[e] == all[e]
  {
  }

  // ORDER BY clauses

  predicate HostnameLe(a: Agent, b: Agent) { LexLe(a.hostname, b.hostname) }
  predicate NameLe(a: Script, b: Script) { LexLe(a.name, b.name) }
  predicate CreatedLater(a: TaskView, b: TaskView) { a.task.createdAt >= b.task.createdAt }
  predicate StartedLater(a: ExecutionView, b: ExecutionView) { a.execution.startedAt >= b.execution.startedAt }

  lemma OrdersArePreorders()
    ensures TotalPreorder(HostnameLe) && TotalPreorder(NameLe)
    ensures TotalPreorder(CreatedLater) && TotalPreorder(StartedLater)
  {
    forall a: Agent, b: Agent ensures HostnameLe(a, b) || HostnameLe(b, a) { LexLeTotal(a.hostname, b.hostname); }
    forall a: Agent, b: Agent, c: Agent | HostnameLe(a, b) && HostnameLe(b, c) ensures HostnameLe(a, c) {
      LexLeTransitive(a.hostname, b.hostname, c.hostname);
    }
    forall a: Script, b: Script ensures NameLe(a, b) || NameLe(b, a) { LexLeTotal(a.name, b.name); }
    forall a: Script, b: Script, c: Script | NameLe(a, b) && NameLe(b, c) ensures NameLe(a, c) {
      LexLeTransitive(a.name, b.name, c.name);
    }
  }

  const ExecutionLimit: nat := 100

  // ---------------------------------------------------------------------------
  // Updates of a single row

  /** `agentQueries.updateStatus` on one row. */
  function WithStatus(a: Agent, status: string, now: int): (r: Agent)
    ensures r.status == status && r.lastSeen == Some(now) && r.updatedAt == now
    ensures r.(status := a.status, lastSeen := a.lastSeen, updatedAt := a.updatedAt) == a
  {
    a.(status := status, lastSeen := Some(now), updatedAt := now)
  }

  /** `executionQueries.updateFinished` on one row. */
  function Finish(e: Execution, status: string, output: string, errorMessage: string, duration: int, now: int): (r: Execution)
    ensures r.id == e.id && r.taskId == e.taskId && r.agentId == e.agentId && r.startedAt == e.startedAt
    ensures r.status == status && r.output == Some(output) && r.errorMessage == Some(errorMessage)
    ensures r.finishedAt == Some(now) && r.duration == Some(duration)
  {
    e.(status := status, output := Some(output), errorMessage := Some(errorMessage),
       finishedAt := Some(now), duration := Some(duration))
  }

  /** There is no once-only guard: finishing twice leaves exactly the second call's values. */
  lemma FinishOverwrites(e: Execution, s1: string, o1: string, m1: string, d1: int, t1: int,
                         s2: string, o2: string, m2: string, d2: int, t2: int)
    ensures Finish(Finish(e, s1, o1, m1, d1, t1), s2, o2, m2, d2, t2) == Finish(e, s2, o2, m2, d2, t2)
  {
  }

  // ---------------------------------------------------------------------------
  // The store

  class DatabasePool {
    var agents: map<string, Agent>
    var tasks: map<string, Task>
    var executions: map<string, Execution>
    var scripts: map<string, Script>

    ghost predicate Valid()
      reads this
    {
      TablesValid(agents, tasks, executions, scripts)
    }

    /** Opening the store; its tables start empty (the file's previous contents are not modelled). */
    constructor()
      ensures Valid()
      ensures agents == map[] && tasks == map[] && executions == map[] && scripts == map[]
    {
      agents, tasks, executions, scripts := map[], map[], map[], map[];
    }

    // agentQueries

    method AgentGetAll() returns (rows: seq<Agent>)
      ensures Sorted(rows, HostnameLe)
      ensures multiset(rows) == Bag(agents)
      ensures |rows| == |agents|
    {
      OrdersArePreorders();
      rows := ListMap(agents, HostnameLe);
      BagSize(agents);
    }

    method AgentGetById(id: string) returns (row: Option<Agent>)
      ensures row.Some? <==> id in agents
      ensures row.Some? ==> row.value == agents[id]
    {
      row := if id in agents then Some(agents[id]) else None;
    }

    method AgentGetByIp(ip: string) returns (row: Option<Agent>)
      requires Valid()
      ensures row.None? <==> !IpTaken(agents, ip)
      ensures row.Some? ==> row.value.id in agents && agents[row.value.id] == row.value && row.value.ip == ip
    {
      if IpTaken(agents, ip) {
        var id :| id in agents && agents[id].ip == ip;
        row := Some(agents[id]);
      } else {
        row := None;
      }
    }

    /** The INSERT fails on a missing hostname (NOT NULL), a used id (PRIMARY KEY) or a used ip (UNIQUE). */
    method AgentCreate(id: string, hostname: Option<string>, ip: string, port: int,
                       os: Option<string>, arch: Option<string>, cpu: Option<string>, ram: Option<string>,
                       status: string, now: int) returns (ok: bool)
      requires Valid()
      modifies this
      ensures Valid()
      ensures ok <==> hostname.Some? && id !in old(agents) && !IpTaken(old(agents), ip)
      ensures agents == if ok then old(agents)[id := Agent(id, hostname.value, ip, port, status, os, arch, cpu, ram,
                                                            Some(now), now, now)]
                        else old(agents)
      ensures tasks == old(tasks) && executions == old(executions) && scripts == old(scripts)
    {
      ok := hostname.Some? && id !in agents && !IpTaken(agents, ip);
      if ok {
        agents := agents[id := Agent(id, hostname.value, ip, port, status, os, arch, cpu, ram, Some(now), now, now)];
      }
    }

    method AgentUpdateStatus(status: string, id: string, now: int)
      requires Valid()
      modifies this
      ensures Valid()
      ensures agents == if id in old(agents) then old(agents)[id := WithStatus(old(agents)[id], status, now)] else old(agents)
      ensures tasks == old(tasks) && executions == old(executions) && scripts == old(scripts)
    {
      if id in agents {
        agents := agents[id := WithStatus(agents[id], status, now)];
      }
    }

    method AgentDelete(id: string)
      requires Valid()
      modifies this
      ensures Valid()
      ensures agents == old(agents) - {id}
      ensures tasks == TasksKept(old(tasks), id)
      ensures executions == ExecutionsKept(old(executions), id, tasks.Keys)
      ensures scripts == old(scripts)
    {
      CascadeKeepsTablesValid(agents, tasks, executions, scripts, id);
      agents := agents - {id};
      tasks := TasksKept(tasks, id);
      executions := ExecutionsKept(executions, id, tasks.Keys);
    }

    // taskQueries

    /** `taskQueries.delete`: the task goes, and its executions with it. */
    method TaskDelete(id: string)
      requires Valid()
      modifies this
      ensures Valid()
      ensures tasks == old(tasks) - {id}
      ensures executions == ExecutionsOfOtherTasks(old(executions), id)
      ensures agents == old(agents) && scripts == old(scripts)
    {
      TaskCascadeKeepsTablesValid(agents, tasks, executions, scripts, id);
      tasks := tasks - {id};
      executions := ExecutionsOfOtherTasks(executions, id);
    }


    method TaskGetAll() returns (rows: seq<TaskView>)
      ensures Sorted(rows, CreatedLater)
      ensures multiset(rows) == Bag(TaskViews(tasks, agents))
      ensures Valid() ==> |rows| == |tasks|
    {
      OrdersArePreorders();
      var views := TaskViews(tasks, agents);
      rows := ListMap(views, CreatedLater);
      BagSize(views);
      if Valid() {
        JoinsDropNothing(agents, tasks, executions, scripts);
        assert |views| == |views.Keys| == |tasks.Keys|;
      }
    }

    method TaskGetById(id: string) returns (row: Option<Task>)
      ensures row.Some? <==> id in tasks
      ensures row.Some? ==> row.value == tasks[id]
    {
      row := if id in tasks then Some(tasks[id]) else None;
    }

    /** The INSERT fails on a used id or an agent id that names no agent (foreign key). */
    method TaskCreate(id: string, name: string, description: string, agentId: string, scriptName: string,
                      scriptContent: string, parameters: string, schedule: string, active: Option<bool>, now: int)
      returns (ok: bool)
      requires Valid()
      modifies this
      ensures Valid()
      ensures ok <==> id !in old(tasks) && agentId in old(agents)
      ensures tasks == if ok then old(tasks)[id := Task(id, name, description, agentId, scriptName, scriptContent,
                                                         parameters, schedule, active, now, now)]
                       else old(tasks)
      ensures agents == old(agents) && executions == old(executions) && scripts == old(scripts)
    {
      ok := id !in tasks && agentId in agents;
      if ok {
        tasks := tasks[id := Task(id, name, description, agentId, scriptName, scriptContent,
                                  parameters, schedule, active, now, now)];
      }
    }

    // executionQueries

    /** The newest `ExecutionLimit` executions, newest first. */
    method ExecutionGetAll() returns (rows: seq<ExecutionView>)
      ensures Sorted(rows, StartedLater)
      ensures |rows| == Min(ExecutionLimit, |ExecutionViews(executions, tasks, agents)|)
      ensures multiset(rows) <= Bag(ExecutionViews(executions, tasks, agents))
      ensures forall x, y :: x in rows && y in Bag(ExecutionViews(executions, tasks, agents)) - multiset(rows)
                ==> StartedLater(x, y)
    {
      OrdersArePreorders();
      rows := ListMapTop(ExecutionViews(executions, tasks, agents), StartedLater, ExecutionLimit);
    }

    method ExecutionGetByTaskId(taskId: string) returns (rows: seq<ExecutionView>)
      ensures Sorted(rows, StartedLater)
      ensures multiset(rows) == Bag(ExecutionViewsOf(executions, tasks, agents, taskId))
      ensures forall r :: r in rows ==> r.execution.taskId == taskId
    {
      OrdersArePreorders();
      var views := ExecutionViewsOf(executions, tasks, agents, taskId);
      rows := ListMap(views, StartedLater);
      forall r | r in rows ensures r.execution.taskId == taskId {
        assert r in multiset(rows);
        BagMember(views, r);
      }
    }

    /** The INSERT fails on a used id or an unknown task or agent (foreign keys). */
    method ExecutionCreate(id: string, taskId: string, agentId: string, status: string, now: int) returns (ok: bool)
      requires Valid()
      modifies this
      ensures Valid()
      ensures ok <==> id !in old(executions) && taskId in old(tasks) && agentId in old(agents)
      ensures executions == if ok then old(executions)[id := Execution(id, taskId, agentId, status, None, None,
                                                                       now, None, None)]
                            else old(executions)
      ensures agents == old(agents) && tasks == old(tasks) && scripts == old(scripts)
    {
      ok := id !in executions && taskId in tasks && agentId in agents;
      if ok {
        executions := executions[id := Execution(id, taskId, agentId, status, None, None, now, None, None)];
      }
    }

    /** Overwrites the terminal fields of one execution; an unknown id changes nothing. */
    method ExecutionUpdateFinished(status: string, output: string, errorMessage: string, duration: int,
                                   id: string, now: int)
      requires Valid()
      modifies this
      ensures Valid()
      ensures executions == if id in old(executions)
                            then old(executions)[id := Finish(old(executions)[id], status, output, errorMessage, duration, now)]
                            else old(executions)
      ensures agents == old(agents) && tasks == old(tasks) && scripts == old(scripts)
    {
      if id in executions {
        executions := executions[id := Finish(executions[id], status, output, errorMessage, duration, now)];
      }
    }

    // scriptQueries

    method ScriptGetAll() returns (rows: seq<Script>)
      ensures Sorted(rows, NameLe)
      ensures multiset(rows) == Bag(scripts)
      ensures |rows| == |scripts|
    {
      OrdersArePreorders();
      rows := ListMap(scripts, NameLe);
      BagSize(scripts);
    }

    method ScriptGetById(id: string) returns (row: Option<Script>)
      ensures row.Some? <==> id in scripts
      ensures row.Some? ==> row.value == scripts[id]
    {
      row := if id in scripts then Some(scripts[id]) else None;
    }

    method ScriptGetByName(name: string) returns (row: Option<Script>)
      requires Valid()
      ensures row.None? <==> !NameTaken(scripts, name)
      ensures row.Some? ==> row.value.id in scripts && scripts[row.value.id] == row.value && row.value.name == name
    {
      if NameTaken(scripts, name) {
        var id :| id in scripts && scripts[id].name == name;
        row := Some(scripts[id]);
      } else {
        row := None;
      }
    }

    /** The INSERT fails on a used id (PRIMARY KEY) or a used name (UNIQUE). */
    method ScriptCreate(id: string, name: string, description: string, content: string, kind: string,
                        parameters: string, now: int) returns (ok: bool)
      requires Valid()
      modifies this
      ensures Valid()
      ensures ok <==> id !in old(scripts) && !NameTaken(old(scripts), name)
      ensures scripts == if ok then old(scripts)[id := Script(id, name, description, content, kind, parameters, now, now)]
                         else old(scripts)
      ensures agents == old(agents) && tasks == old(tasks) && executions == old(executions)
    {
      ok := id !in scripts && !NameTaken(scripts, name);
      if ok {
        scripts := scripts[id := Script(id, name, description, content, kind, parameters, now, now)];
      }
    }
  }

  function Min(a: int, b: int): int { if a <= b then a else b }

  /** The static `DatabasePool.instance` field and `getInstance`. */
  class Singleton {
    var instance: DatabasePool?

    constructor()
      ensures instance == null
    {
      instance := null;
    }

    /** Creates the store on the first call and returns that same store on every later call. */
    method GetInstance() returns (db: DatabasePool)
      modifies this
      ensures instance == db
      ensures old(instance) != null ==> db == old(instance)
      ensures old(instance) == null ==>
                (fresh(db) && db.Valid() && db.agents == map[] && db.tasks == map[]
                 && db.executions == map[] && db.scripts == map[])
    {
      if instance == null {
        instance := new DatabasePool();
      }
      db := instance;
    }
  }
}
