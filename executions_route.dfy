/** The execution log listing (app/api/executions/route.ts). */
module ExecutionsRoute {
  import opened Wrappers
  import opened Sorting
  import opened Http
  import opened Database

  /**
   * `GET`, with `taskId` the `task_id` search parameter (`None` when absent) and `queryFailed`
   * standing for a rejected query.
   */
  method Get(db: DatabasePool, taskId: Option<string>, queryFailed: bool) returns (resp: Response<seq<ExecutionView>>)
    ensures queryFailed ==> resp == Response(500, Failure("Failed to fetch executions"))
    ensures !queryFailed ==> resp.status == 200 && resp.body.Payload? && Sorted(resp.body.value, StartedLater)
    ensures !queryFailed && !Falsy(taskId) ==>
      && multiset(resp.body.value) == Bag(ExecutionViewsOf(db.executions, db.tasks, db.agents, taskId.value))
      && forall r :: r in resp.body.value ==> r.execution.taskId == taskId.value
    ensures !queryFailed && Falsy(taskId) ==>
      var all := Bag(ExecutionViews(db.executions, db.tasks, db.agents));
      && |resp.body.value| == Min(ExecutionLimit, |all|)
      && multiset(resp.body.value) <= all
      && forall x, y :: x in resp.body.value && y in all - multiset(resp.body.value) ==> StartedLater(x, y)
  {
    if queryFailed {
      return Response(500, Failure("Failed to fetch executions"));
    }
    var rows;
    if !Falsy(taskId) {
      rows := db.ExecutionGetByTaskId(taskId.value);
    } else {
      rows := db.ExecutionGetAll();
      BagSize(ExecutionViews(db.executions, db.tasks, db.agents));
    }
    resp := Response(200, Payload(rows));
  }
}
