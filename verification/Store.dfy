/** The Store: five tables that its calls update row by row, some of them inside a transaction. */
module Store {
  import opened Base
  import opened Tables

  /** Where a call meets a database error: at writing statement number `at`, counted from 1 with the commit; 0 is nowhere. */
  datatype Disk = Disk(at: nat) {
    predicate Fails(statement: nat) {
      at == statement
    }

    /** None of the first `n` statements fails. */
    predicate Spares(n: nat) {
      !(1 <= at <= n)
    }
  }

  class Store {
    var projects: map<string, ProjectRow>
    var members: map<Id, MemberRow>
    var invitations: map<Id, InviteRow>
    var agents: map<Id, AgentRow>
    var requests: map<Id, RequestRow>

    function Db(): DB
      reads this
    {
      DB(projects, members, invitations, agents, requests)
    }

    constructor ()
      ensures Db() == EMPTY
    {
      projects, members, invitations, agents, requests := map[], map[], map[], map[], map[];
    }

    method Rollback(saved: DB)
      modifies this
      ensures Db() == saved
    {
      projects, members, invitations := saved.projects, saved.members, saved.invitations;
      agents, requests := saved.agents, saved.requests;
    }

    method CreateProject(p: string, project: ProjectRow, ownerProject: string, owner: string, row: MemberRow, disk: Disk)
      returns (error: Outcome)
      modifies this
      ensures disk.Spares(3) || error.None? ==> (Db(), error) == Tables.CreateProject(old(Db()), p, project, ownerProject, owner, row)
      ensures !disk.Spares(3) ==> error.Some?
      ensures error.Some? ==> Db() == old(Db())
    {
      var saved := Db();
      if disk.Fails(1) || p in projects {
        return Some(if disk.Fails(1) then Fault else Constraint);
      }
      projects := projects[p := project];
      if disk.Fails(2) || !CanAddMember(Db(), ownerProject, owner, row) {
        Rollback(saved);
        return Some(if disk.Fails(2) then Fault else Constraint);
      }
      members := members[(ownerProject, owner) := row];
      if disk.Fails(3) {
        Rollback(saved);
        return Some(Fault);
      }
      error := None;
    }

    method DeleteProject(p: string, disk: Disk) returns (error: Outcome)
      modifies this
      ensures disk.Spares(6) <==> error.None?
      ensures Db() == if error.None? then Tables.DeleteProject(old(Db()), p) else old(Db())
    {
      var saved := Db();
      for table := 0 to 4
        invariant projects == saved.projects
        invariant disk.Spares(table)
        invariant requests == if table > 0 then Tables.DeleteProject(saved, p).requests else saved.requests
        invariant agents == if table > 1 then Tables.DeleteProject(saved, p).agents else saved.agents
        invariant invitations == if table > 2 then Tables.DeleteProject(saved, p).invitations else saved.invitations
        invariant members == if table > 3 then Tables.DeleteProject(saved, p).members else saved.members
      {
        if disk.Fails(table + 1) {
          Rollback(saved);
          return Some(Fault);
        }
        if table == 0 {
          requests := map k | k in requests && k.0 != p :: requests[k];
        } else if table == 1 {
          agents := map k | k in agents && k.0 != p :: agents[k];
        } else if table == 2 {
          invitations := map k | k in invitations && k.0 != p :: invitations[k];
        } else {
          members := map k | k in members && k.0 != p :: members[k];
        }
      }
      if disk.Fails(5) {
        Rollback(saved);
        return Some(Fault);
      }
      projects := map q | q in projects && q != p :: projects[q];
      if disk.Fails(6) {
        Rollback(saved);
        return Some(Fault);
      }
      error := None;
    }

    method AddInvitation(p: string, inv: string, key: Bytes, expiresAt: int, disk: Disk) returns (error: Outcome)
      modifies this`invitations
      ensures disk.Spares(1) || error.None? ==> (Db(), error) == Tables.AddInvitation(old(Db()), p, inv, key, expiresAt)
      ensures !disk.Spares(1) ==> error.Some?
      ensures error.Some? ==> Db() == old(Db())
    {
      if disk.Fails(1) || (p, inv) in invitations {
        return Some(if disk.Fails(1) then Fault else Constraint);
      }
      invitations := invitations[(p, inv) := InviteRow(key, expiresAt, None)];
      error := None;
    }

    /** A refused or failed admission leaves every table as it was, wherever inside the transaction it stops. */
    method ConsumeInvitation(join: Join, now: int, disk: Disk) returns (error: Outcome)
      modifies this
      ensures disk.Spares(3) || error.None? ==> (Db(), error) == Tables.ConsumeInvitation(old(Db()), join, now)
      ensures error.None? || error == Some(Fault) || error == Tables.ConsumeInvitation(old(Db()), join, now).1
      ensures !disk.Spares(3) ==> error.Some?
      ensures error.Some? ==> Db() == old(Db())
    {
      var j := join.request;
      error := InviteProblem(Db(), join, now);
      if error.Some? {
        return;
      }
      var saved := Db();
      var row := MemberRow(j.memberName, j.memberKey, now);
      if disk.Fails(1) || !CanAddMember(Db(), j.project, join.memberId, row) {
        return Some(if disk.Fails(1) then Fault else Constraint);
      }
      members := members[(j.project, join.memberId) := row];
      var k := (j.project, j.inviteId);
      if disk.Fails(2) || invitations[k].consumedAt.Some? {
        Rollback(saved);
        return Some(if disk.Fails(2) then Fault else InviteConsumed);
      }
      invitations := invitations[k := invitations[k].(consumedAt := Some(now))];
      if disk.Fails(3) {
        Rollback(saved);
        return Some(Fault);
      }
    }

    method RemoveMember(p: string, actor: string, target: string, disk: Disk) returns (error: Outcome)
      modifies this
      ensures disk.Spares(3) || error.None? ==> (Db(), error) == Tables.RemoveMember(old(Db()), p, actor, target)
      ensures !disk.Spares(3) ==> error.Some?
      ensures error.Some? ==> Db() == old(Db())
    {
      if p !in projects {
        return Some(NotFound);
      }
      if !IsOwner(Db(), p, actor) || (p, target) !in members || IsOwner(Db(), p, target) {
        return Some(MemberForbidden);
      }
      var saved := Db();
      if disk.Fails(1) {
        return Some(Fault);
      }
      agents := map k | k in agents && !(k.0 == p && agents[k].owner == target) :: agents[k];
      if disk.Fails(2) {
        Rollback(saved);
        return Some(Fault);
      }
      members := members - {(p, target)};
      if disk.Fails(3) {
        Rollback(saved);
        return Some(Fault);
      }
      error := None;
    }

    method RegisterAgent(p: string, member: string, agent: string, name: string, manifest: string, now: int, disk: Disk)
      returns (error: Outcome)
      modifies this`agents
      ensures disk.Spares(1) || error.None? ==> (Db(), error) == Tables.RegisterAgent(old(Db()), p, member, agent, name, manifest, now)
      ensures !disk.Spares(1) ==> error.Some?
      ensures error.Some? ==> Db() == old(Db())
    {
      if (p, member) !in members {
        return Some(MemberForbidden);
      }
      var k := (p, agent);
      if disk.Fails(1) {
        return Some(Fault);
      }
      if k in agents && agents[k].owner != member {
        return Some(MemberForbidden);
      }
      if NameTaken(Db(), p, agent, name) {
        return Some(Constraint);
      }
      agents := agents[k := if k in agents then agents[k].(name := name, manifest := manifest)
                            else AgentRow(member, name, manifest, false, None, now)];
      error := None;
    }

    method SetAgentOnline(p: string, agent: string, member: string, online: bool, now: int, disk: Disk) returns (error: Outcome)
      modifies this`agents
      ensures disk.Spares(1) || error.None? ==> (Db(), error) == Tables.SetAgentOnline(old(Db()), p, agent, member, online, now)
      ensures !disk.Spares(1) ==> error.Some?
      ensures error.Some? ==> Db() == old(Db())
    {
      if disk.Fails(1) {
        return Some(Fault);
      }
      var k := (p, agent);
      if k !in agents || agents[k].owner != member {
        return Some(NotFound);
      }
      agents := agents[k := agents[k].(online := online, lastSeen := Some(now))];
      error := None;
    }

    /** Some row with that id or that name; which one is not fixed when both exist. */
    method Agent(p: string, selector: string) returns (agent: Option<string>)
      ensures agent.Some? ==> Selects(Db(), p, selector, agent.value)
      ensures agent.None? ==> forall a :: !Selects(Db(), p, selector, a)
    {
      var db := Db();
      var matches := set k | k in agents && k.0 == p && Selects(db, p, selector, k.1);
      assert forall a :: Selects(db, p, selector, a) ==> (p, a) in matches;
      if matches == {} {
        return None;
      }
      var k :| k in matches;
      agent := Some(k.1);
    }

    method RemoveAgent(p: string, actor: string, selector: string, disk: Disk) returns (error: Outcome, picked: string)
      modifies this`agents
      ensures disk.Spares(1) || error.None? ==> (Db(), error) == Tables.RemoveAgent(old(Db()), p, actor, selector, picked)
      ensures !disk.Spares(1) ==> error.Some?
      ensures error.Some? ==> Db() == old(Db())
    {
      var found := Agent(p, selector);
      picked := if found.Some? then found.value else selector;
      if found.None? {
        assert !Selects(Db(), p, selector, picked);
        return Some(NotFound), picked;
      }
      if (p, actor) !in members || (actor != agents[(p, found.value)].owner && !IsOwner(Db(), p, actor)) {
        return Some(MemberForbidden), picked;
      }
      if disk.Fails(1) {
        return Some(Fault), picked;
      }
      agents := agents - {(p, found.value)};
      error := None;
    }

    method CreateRequest(q: Request, disk: Disk) returns (error: Outcome)
      modifies this`requests
      ensures disk.Spares(1) || error.None? ==> (Db(), error) == Tables.CreateRequest(old(Db()), q)
      ensures !disk.Spares(1) ==> error.Some?
      ensures error.Some? ==> Db() == old(Db())
    {
      var k := (q.project, q.id);
      if disk.Fails(1) || k in requests {
        return Some(if disk.Fails(1) then Fault else Constraint);
      }
      requests := requests[k := RequestRow(q.requester, q.agent, Running, |q.body|, q.bodyDigest, q.createdAt,
                                           q.createdAt + DEFAULT_REQUEST_TIMEOUT, None, None)];
      error := None;
    }

    method UpdateRequest(p: string, id: string, status: Status, at: int, disk: Disk) returns (error: Outcome)
      modifies this`requests
      ensures disk.Spares(1) <==> error.None?
      ensures Db() == if error.None? then Tables.UpdateRequest(old(Db()), p, id, status, at) else old(Db())
    {
      if disk.Fails(1) {
        return Some(Fault);
      }
      var k := (p, id);
      if k in requests {
        var row := requests[k];
        requests := requests[k := if status.Running? then row.(status := status, startedAt := Some(at))
                                  else row.(status := status, completedAt := Some(at))];
      }
      error := None;
    }
  }
}
