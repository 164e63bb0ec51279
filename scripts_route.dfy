/** Script library creation and listing (app/api/scripts/route.ts). */
module ScriptsRoute {
  import opened Wrappers
  import opened Sorting
  import opened Http
  import opened Database

  /** The JSON body of `POST /api/scripts`; `parameters` as in the task route. */
  datatype ScriptBody = ScriptBody(
    name: Option<string>, description: Option<string>, content: Option<string>, kind: Option<string>,
    parameters: Option<string>)

  predicate Complete(body: ScriptBody) {
    !Falsy(body.name) && !Falsy(body.content) && !Falsy(body.kind)
  }

  function NewScript(id: string, body: ScriptBody, now: int): (s: Script)
    requires Complete(body)
    ensures s.id == id && s.name == body.name.value && s.content == body.content.value && s.kind == body.kind.value
    ensures s.description == (if body.description.Some? then body.description.value else "")
    ensures s.parameters == (if body.parameters.Some? then body.parameters.value else "")
  {
    Script(id, body.name.value, body.description.GetOr(""), body.content.value, body.kind.value,
           body.parameters.GetOr(""), now, now)
  }

  method Post(db: DatabasePool, body: ScriptBody, newId: string, now: int) returns (resp: Response<Script>)
    requires db.Valid()
    modifies db
    ensures db.Valid()
    ensures db.agents == old(db.agents) && db.tasks == old(db.tasks) && db.executions == old(db.executions)
    ensures !Complete(body) ==>
      resp == Response(400, Failure("Name, content, and type are required")) && db.scripts == old(db.scripts)
    ensures Complete(body) ==>
      if NameTaken(old(db.scripts), body.name.value) then
        resp == Response(409, Failure("Script with this name already exists")) && db.scripts == old(db.scripts)
      else if newId in old(db.scripts) then
        resp == Response(500, Failure("Failed to create script")) && db.scripts == old(db.scripts)
      else
        resp == Response(201, Payload(NewScript(newId, body, now)))
        && db.scripts == old(db.scripts)[newId := NewScript(newId, body, now)]
  {
    if !Complete(body) {
      return Response(400, Failure("Name, content, and type are required"));
    }
    var existing := db.ScriptGetByName(body.name.value);
    if existing.Some? {
      return Response(409, Failure("Script with this name already exists"));
    }
    var s := NewScript(newId, body, now);
    var ok := db.ScriptCreate(s.id, s.name, s.description, s.content, s.kind, s.parameters, now);
    if !ok {
      return Response(500, Failure("Failed to create script"));
    }
    var row := db.ScriptGetById(newId);
    resp := Response(201, Payload(row.value));
  }

  /** How many of the responses created a script. */
  function CreatedCount(codes: seq<int>): nat {
    if codes == [] then 0 else (if codes[|codes| - 1] == 201 then 1 else 0) + CreatedCount(codes[..|codes| - 1])
  }

  /**
   * A sequence of `POST`s (the i-th with generated id `ids[i]`): names stay unique throughout,
   * and the library grows by exactly one script per 201 response.
   */
  method PostAll(db: DatabasePool, bodies: seq<ScriptBody>, ids: seq<string>, now: int) returns (codes: seq<int>)
    requires db.Valid() && |ids| == |bodies|
    modifies db
    ensures db.Valid() && UniqueNames(db.scripts)
    ensures |codes| == |bodies|
    ensures forall i :: 0 <= i < |codes| ==> codes[i] in {201, 400, 409, 500}
    ensures |db.scripts| == |old(db.scripts)| + CreatedCount(codes)
  {
    codes := [];
    var i := 0;
    while i < |bodies|
      invariant 0 <= i <= |bodies| && |codes| == i
      invariant db.Valid()
      invariant forall j :: 0 <= j < i ==> codes[j] in {201, 400, 409, 500}
      invariant |db.scripts| == |old(db.scripts)| + CreatedCount(codes)
    {
      var resp := Post(db, bodies[i], ids[i], now);
      assert (codes + [resp.status])[..|codes|] == codes;
      codes := codes + [resp.status];
      i := i + 1;
    }
  }

  /** `GET`: every script, ordered by name. */
  method Get(db: DatabasePool) returns (resp: Response<seq<Script>>)
    ensures resp.status == 200 && resp.body.Payload?
    ensures Sorted(resp.body.value, NameLe) && multiset(resp.body.value) == Bag(db.scripts)
  {
    var rows := db.ScriptGetAll();
    resp := Response(200, Payload(rows));
  }
}
