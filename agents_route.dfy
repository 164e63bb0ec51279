/** Agent registration and listing (app/api/agents/route.ts). */
module AgentsRoute {
  import opened Wrappers
  import opened Sorting
  import opened Http
  import opened Database

  /** The JSON body of `POST /api/agents`. */
  datatype RegisterBody = RegisterBody(ip: Option<string>, port: Option<int>)

  /** What the agent's `/info` endpoint reported, as `AgentClient.getInfo` returns it. */
  datatype AgentInfo = AgentInfo(
    hostname: Option<string>, os: Option<string>, arch: Option<string>, cpu: Option<string>, ram: Option<string>)

  const DefaultPort: int := 5000

  /** The row a successful registration inserts. */
  function NewAgent(id: string, ip: string, port: int, info: AgentInfo, now: int): Agent
    requires info.hostname.Some?
  {
    Agent(id, info.hostname.value, ip, port, "online", info.os, info.arch, info.cpu, info.ram, Some(now), now, now)
  }

  /**
   * `POST`: `handshake` is the result of `getInfo` on the new agent and `contacted` says whether
   * it was asked; `newId` is the generated UUID.
   */
  method Post(db: DatabasePool, body: RegisterBody, handshake: Option<AgentInfo>, newId: string, now: int)
    returns (resp: Response<Agent>, contacted: bool)
    requires db.Valid()
    modifies db
    ensures db.Valid()
    ensures db.tasks == old(db.tasks) && db.executions == old(db.executions) && db.scripts == old(db.scripts)
    ensures Falsy(body.ip) ==>
      resp == Response(400, Failure("IP address is required")) && !contacted && db.agents == old(db.agents)
    ensures !Falsy(body.ip) && IpTaken(old(db.agents), body.ip.value) ==>
      resp == Response(409, Failure("Agent with this IP already exists")) && !contacted && db.agents == old(db.agents)
    ensures !Falsy(body.ip) && !IpTaken(old(db.agents), body.ip.value) ==> contacted
    ensures contacted && handshake.None? ==>
      resp == Response(400, Failure("Failed to connect to agent")) && db.agents == old(db.agents)
    ensures contacted && handshake.Some? ==>
      if handshake.value.hostname.Some? && newId !in old(db.agents) then
        var row := NewAgent(newId, body.ip.value, body.port.GetOr(DefaultPort), handshake.value, now);
        resp == Response(201, Payload(row)) && db.agents == old(db.agents)[newId := row]
      else
        resp == Response(500, Failure("Failed to create agent")) && db.agents == old(db.agents)
  {
    contacted := false;
    if Falsy(body.ip) {
      return Response(400, Failure("IP address is required")), contacted;
    }
    var ip := body.ip.value;
    var port := body.port.GetOr(DefaultPort);
    var existing := db.AgentGetByIp(ip);
    if existing.Some? {
      return Response(409, Failure("Agent with this IP already exists")), contacted;
    }
    contacted := true;
    if handshake.None? {
      return Response(400, Failure("Failed to connect to agent")), contacted;
    }
    var info := handshake.value;
    var ok := db.AgentCreate(newId, info.hostname, ip, port, info.os, info.arch, info.cpu, info.ram, "online", now);
    if !ok {
      return Response(500, Failure("Failed to create agent")), contacted;
    }
    var row := db.AgentGetById(newId);
    resp := Response(201, Payload(row.value));
  }

  /** `GET`: every agent, ordered by hostname. */
  method Get(db: DatabasePool) returns (resp: Response<seq<Agent>>)
    ensures resp.status == 200 && resp.body.Payload?
    ensures Sorted(resp.body.value, HostnameLe) && multiset(resp.body.value) == Bag(db.agents)
  {
    var rows := db.AgentGetAll();
    resp := Response(200, Payload(rows));
  }
}
