/** The dashboard's summary counters (app/page.tsx). */
module Dashboard {
  import opened Wrappers
  import opened Seqs
  import opened Clock
  import opened Display

  /** A fetched listing: `response.ok` and the rows it carried. */
  datatype Fetched<T> = Fetched(ok: bool, rows: seq<T>)

  /** `response.ok ? await response.json() : []` */
  function Received<T>(f: Fetched<T>): seq<T> {
    if f.ok then f.rows else []
  }

  datatype AgentItem = AgentItem(status: string)
  /**
   * `active` is SQLite's 0/1 integer; JavaScript treats any non-zero value as true. A NULL
   * `active` (a task created with a non-boolean one) is falsy and is written here as 0.
   */
  datatype TaskItem = TaskItem(active: int)
  datatype ExecutionItem = ExecutionItem(status: string, startedAt: Stamp)

  datatype Stats = Stats(totalAgents: nat, onlineAgents: nat, activeTasks: nat, failedTasks: nat)

  predicate IsOnline(a: AgentItem) { a.status == "online" }
  predicate IsActive(t: TaskItem) { t.active != 0 }

  /** Failed in the last day: status "failed" and started strictly after `now` minus one day (an unparseable date compares false). */
  function FailedSince(yesterday: int): ExecutionItem -> bool {
    (e: ExecutionItem) => e.status == "failed" && e.startedAt.At? && e.startedAt.ms > yesterday
  }

  /**
   * `fetchStats`, with `now` the page's clock: the number of agents received, of those reported
   * "online", of tasks whose `active` is non-zero, and of executions that failed and started after
   * `now` minus one day. A failed fetch counts as an empty list.
   */
  function ComputeStats(agents: Fetched<AgentItem>, tasks: Fetched<TaskItem>,
                        executions: Fetched<ExecutionItem>, now: int): (s: Stats)
    ensures var a := Received(agents);
      && s.totalAgents == |a|
      && s.onlineAgents == |set i | 0 <= i < |a| && a[i].status == "online"|
    ensures var t := Received(tasks);
      s.activeTasks == |set i | 0 <= i < |t| && t[i].active != 0|
    ensures var e := Received(executions);
      s.failedTasks == |set i | 0 <= i < |e| && e[i].status == "failed" && e[i].startedAt.At?
                                                 && e[i].startedAt.ms > now - DayMs|
    ensures s.onlineAgents <= s.totalAgents
    ensures s.activeTasks <= |Received(tasks)| && s.failedTasks <= |Received(executions)|
    ensures !agents.ok ==> s.totalAgents == 0 && s.onlineAgents == 0
    ensures !tasks.ok ==> s.activeTasks == 0
    ensures !executions.ok ==> s.failedTasks == 0
  {
    var a, t, e := Received(agents), Received(tasks), Received(executions);
    OnlineCount(a);
    ActiveCount(t);
    FailedCount(e, now - DayMs);
    Stats(|a|, |Filter(a, IsOnline)|, |Filter(t, IsActive)|, |Filter(e, FailedSince(now - DayMs))|)
  }

  /** `agents.filter(status === "online").length` counts the agents reported online. */
  lemma OnlineCount(a: seq<AgentItem>)
    ensures |Filter(a, IsOnline)| == |set i | 0 <= i < |a| && a[i].status == "online"|
  {
    var p: AgentItem -> bool := IsOnline;
    FilterLength(a, p);
    assert Positions(a, p) == set i | 0 <= i < |a| && a[i].status == "online";
  }

  /** `tasks.filter(task.active).length` counts the tasks whose `active` is non-zero. */
  lemma ActiveCount(t: seq<TaskItem>)
    ensures |Filter(t, IsActive)| == |set i | 0 <= i < |t| && t[i].active != 0|
  {
    var p: TaskItem -> bool := IsActive;
    FilterLength(t, p);
    assert Positions(t, p) == set i | 0 <= i < |t| && t[i].active != 0;
  }

  /** The failure filter counts the failed executions started after `yesterday`. */
  lemma FailedCount(e: seq<ExecutionItem>, yesterday: int)
    ensures |Filter(e, FailedSince(yesterday))|
         == |set i | 0 <= i < |e| && e[i].status == "failed" && e[i].startedAt.At? && e[i].startedAt.ms > yesterday|
  {
    var p := FailedSince(yesterday);
    FilterLength(e, p);
    assert Positions(e, p)
        == set i | 0 <= i < |e| && e[i].status == "failed" && e[i].startedAt.At? && e[i].startedAt.ms > yesterday;
  }

  /** When every agent is online the two agent counters agree. */
  lemma AllOnline(agents: Fetched<AgentItem>, tasks: Fetched<TaskItem>, executions: Fetched<ExecutionItem>, now: int)
    requires forall i :: 0 <= i < |agents.rows| ==> agents.rows[i].status == "online"
    ensures ComputeStats(agents, tasks, executions, now).onlineAgents == ComputeStats(agents, tasks, executions, now).totalAgents
  {
    FilterAll(Received(agents), IsOnline);
  }

  /** Counting failures over two batches of executions is the sum of the counts. */
  lemma FailedCountAdds(e1: seq<ExecutionItem>, e2: seq<ExecutionItem>, now: int)
    ensures |Filter(e1 + e2, FailedSince(now - DayMs))|
         == |Filter(e1, FailedSince(now - DayMs))| + |Filter(e2, FailedSince(now - DayMs))|
  {
    FilterConcat(e1, e2, FailedSince(now - DayMs));
  }

  /** The uptime line: 0 with no agents, otherwise the online share (its rounding is not modelled). */
  datatype Uptime = ZeroUptime | Share(online: nat, total: nat)

  function UptimeOf(s: Stats): (u: Uptime)
    ensures u.ZeroUptime? <==> s.totalAgents == 0
    ensures u.Share? ==> u.total > 0 && u.online == s.onlineAgents && u.total == s.totalAgents
  {
    if s.totalAgents > 0 then Share(s.onlineAgents, s.totalAgents) else ZeroUptime
  }
}
