/** What every sequence of Store calls keeps. */
module StoreInvariants {
  import opened Base
  import opened Tables
  import opened Signing

  // ---- When a call succeeds ------------------------------------------------------------------

  /** The rows that an admission needs, before it looks at the join itself. */
  predicate InviteUsable(db: DB, p: string, inv: string, now: int) {
    && p in db.projects && (p, inv) in db.invitations
    && db.invitations[(p, inv)].consumedAt == None && now < db.invitations[(p, inv)].expiresAt && |db.invitations[(p, inv)].key| == 32
  }

  /** The join is filled in, its key has the right size, it is at most two minutes off, and the invitation's key signed it. */
  predicate JoinFilled(j: JoinRequest) {
    j.schema == 2 && "" !in [j.project, j.inviteId, j.verb, j.path, j.nonce] && TrimSpace(j.memberName) != ""
  }

  predicate JoinTimely(j: JoinRequest, now: int) {
    -120_000_000_000 <= now - j.timestamp <= 120_000_000_000
  }

  predicate SeatTaken(db: DB, p: string, memberId: string, key: Bytes) {
    (p, memberId) in db.members || exists k :: k in db.members && k.0 == p && db.members[k].key == key
  }

  /** Exactly when an admission succeeds, and which error each failing condition gives. */
  lemma ConsumeExactly(db: DB, join: Join, now: int)
    ensures var (j, outcome) := (join.request, ConsumeInvitation(db, join, now).1);
      var (p, k) := (j.project, (j.project, j.inviteId));
      var usable := InviteUsable(db, p, j.inviteId, now);
      var (filled, keyed, timely) := (JoinFilled(j), |j.memberKey| == 32, JoinTimely(j, now));
      && (outcome == None <==> usable && filled && keyed && timely && join.signer == db.invitations[k].key
                               && !SeatTaken(db, p, join.memberId, j.memberKey))
      && (outcome == Some(NotFound) <==> p !in db.projects)
      && (outcome == Some(InviteConsumed) <==> p in db.projects && k in db.invitations && db.invitations[k].consumedAt.Some?)
      && (outcome == Some(InviteExpired) <==>
          p in db.projects && k in db.invitations && db.invitations[k].consumedAt.None? && now >= db.invitations[k].expiresAt)
      && (outcome == Some(InviteInvalid) <==>
          p in db.projects && (k !in db.invitations || (db.invitations[k].consumedAt.None? && now < db.invitations[k].expiresAt && |db.invitations[k].key| != 32)))
      && (outcome == Some(Unverified(Incomplete)) <==> usable && !filled)
      && (outcome == Some(Unverified(BadKey)) <==> usable && filled && !keyed)
      && (outcome == Some(Unverified(ClockSkew)) <==> usable && filled && keyed && !timely)
      && (outcome == Some(Unverified(SignatureInvalid)) <==> usable && filled && keyed && timely && join.signer != db.invitations[k].key)
      && (outcome == Some(Constraint) <==> usable && filled && keyed && timely && join.signer == db.invitations[k].key
                                           && SeatTaken(db, p, join.memberId, j.memberKey))
  {
    BlankIsTrimmed(join.request.memberName);
    hide TrimSpace, IsBlank;
  }

  /** In terms of the signature: it has to be over the join's own signing bytes, with the invitation's key. */
  lemma ConsumesSigned(db: DB, j: JoinRequest, sig: Signature, memberId: string, enc: Encoders, now: int)
    ensures ConsumeInvitation(db, JoinOf(j, sig, memberId, enc), now).1 == None <==>
      && InviteUsable(db, j.project, j.inviteId, now) && !SeatTaken(db, j.project, memberId, j.memberKey)
      && VerifyJoin(j, sig, db.invitations[(j.project, j.inviteId)].key, now, 120_000_000_000, enc) == None
  {
    ConsumeExactly(db, JoinOf(j, sig, memberId, enc), now);
    if InviteUsable(db, j.project, j.inviteId, now) {
      VerifyJoinErrors(j, sig, db.invitations[(j.project, j.inviteId)].key, now, 120_000_000_000, enc);
    }
    hide ConsumeInvitation, VerifyJoin, JoinBytes, TrimSpace;
  }

  /** What an admission writes, and nothing else. */
  lemma ConsumeWrites(db: DB, join: Join, now: int)
    requires ConsumeInvitation(db, join, now).1 == None
    ensures var (j, after) := (join.request, ConsumeInvitation(db, join, now).0);
      && after == db.(members := after.members, invitations := after.invitations)
      && after.members == db.members[(j.project, join.memberId) := MemberRow(j.memberName, j.memberKey, now)]
      && (j.project, j.inviteId) in db.invitations
      && after.invitations == db.invitations[(j.project, j.inviteId) :=
           InviteRow(db.invitations[(j.project, j.inviteId)].key, db.invitations[(j.project, j.inviteId)].expiresAt, Some(now))]
  {
  }

  /** Exactly when a registration succeeds, its errors, and the row it leaves. */
  lemma RegisterExactly(db: DB, p: string, member: string, agent: string, name: string, manifest: string, now: int)
    ensures var ((after, outcome), k) := (RegisterAgent(db, p, member, agent, name, manifest, now), (p, agent));
      var foreign := (p, member) !in db.members || (k in db.agents && db.agents[k].owner != member);
      var clash := exists l :: l in db.agents && l.0 == p && l.1 != agent && db.agents[l].name == name;
      && (outcome == Some(MemberForbidden) <==> foreign) && (outcome == Some(Constraint) <==> !foreign && clash) && (outcome == None <==> !foreign && !clash)
      && after == db.(agents := after.agents)
      && (outcome == None ==>
          && k in after.agents && after.agents - {k} == db.agents - {k}
          && (after.agents[k] == if k in db.agents
              then AgentRow(member, name, manifest, db.agents[k].online, db.agents[k].lastSeen, db.agents[k].createdAt)
              else AgentRow(member, name, manifest, false, None, now)))
      && (outcome != None ==> after == db)
  {
  }

  /** Exactly when a removal succeeds, its errors, and what it takes. */
  lemma RemoveMemberExactly(db: DB, p: string, actor: string, target: string)
    ensures var (after, outcome) := RemoveMember(db, p, actor, target);
      && (outcome == Some(NotFound) <==> p !in db.projects)
      && (outcome == None <==>
          && p in db.projects && (p, actor) in db.members && db.members[(p, actor)].key == db.projects[p].hostKey
          && (p, target) in db.members && db.members[(p, target)].key != db.projects[p].hostKey)
      && (outcome in {None, Some(NotFound), Some(MemberForbidden)})
      && (outcome != None ==> after == db)
      && (outcome == None ==>
          && after == db.(members := after.members, agents := after.agents) && after.members == db.members - {(p, target)}
          && forall k :: (k in after.agents <==> k in db.agents && !(k.0 == p && db.agents[k].owner == target))
                         && (k in after.agents ==> after.agents[k] == db.agents[k]))
  {
  }

  /** Exactly when an agent is removed, for the row that its lookup returned. */
  lemma RemoveAgentExactly(db: DB, p: string, actor: string, selector: string, picked: string)
    ensures var ((after, outcome), k) := (RemoveAgent(db, p, actor, selector, picked), (p, picked));
      var found := k in db.agents && (picked == selector || db.agents[k].name == selector);
      && (outcome == Some(NotFound) <==> !found)
      && (outcome == None <==>
          && found && (p, actor) in db.members
          && (actor == db.agents[k].owner || (p in db.projects && db.members[(p, actor)].key == db.projects[p].hostKey)))
      && (outcome in {None, Some(NotFound), Some(MemberForbidden)})
      && after == if outcome == None then db.(agents := db.agents - {k}) else db
  {
  }

  // ---- Structure -----------------------------------------------------------------------------

  ghost predicate KeysUnique(members: map<Id, MemberRow>) {
    forall k, l :: k in members && l in members && k.0 == l.0 && members[k].key == members[l].key ==> k == l
  }

  ghost predicate NamesUnique(agents: map<Id, AgentRow>) {
    forall k, l :: k in agents && l in agents && k.0 == l.0 && agents[k].name == agents[l].name ==> k == l
  }

  /** Members belong to live Projects, and each live Project keeps its host member. */
  ghost predicate Hosted(db: DB) {
    && (forall k :: k in db.members ==> k.0 in db.projects)
    && (forall p :: p in db.projects ==> Lacks(NUL, p) && IsOwner(db, p, db.projects[p].hostMember))
  }

  ghost predicate OwnersLive(db: DB) {
    forall k :: k in db.agents ==> (k.0, db.agents[k].owner) in db.members
  }

  ghost predicate ConsumedLive(db: DB) {
    forall k :: k in db.invitations && db.invitations[k].consumedAt.Some? ==> k.0 in db.projects
  }

  ghost predicate Sound(db: DB) {
    KeysUnique(db.members) && NamesUnique(db.agents) && Hosted(db) && OwnersLive(db) && ConsumedLive(db)
  }

  lemma KeysInsert(members: map<Id, MemberRow>, k: Id, row: MemberRow)
    requires KeysUnique(members) && k !in members
    requires forall l :: l in members && l.0 == k.0 ==> members[l].key != row.key
    ensures KeysUnique(members[k := row])
  {
  }

  lemma KeysShrink(members: map<Id, MemberRow>, fewer: map<Id, MemberRow>)
    requires KeysUnique(members)
    requires forall k :: k in fewer ==> k in members && fewer[k] == members[k]
    ensures KeysUnique(fewer)
  {
  }

  lemma NamesInsert(agents: map<Id, AgentRow>, k: Id, row: AgentRow)
    requires NamesUnique(agents)
    requires forall l :: l in agents && l.0 == k.0 && l.1 != k.1 ==> agents[l].name != row.name
    ensures NamesUnique(agents[k := row])
  {
  }

  lemma NamesShrink(agents: map<Id, AgentRow>, fewer: map<Id, AgentRow>)
    requires NamesUnique(agents)
    requires forall k :: k in fewer ==> k in agents && fewer[k].name == agents[k].name
    ensures NamesUnique(fewer)
  {
  }

  /** Every live Project was live before with the same row, and its host member kept its row. */
  lemma HostsKept(db: DB, after: DB)
    requires Hosted(db)
    requires forall p :: p in after.projects ==> p in db.projects && after.projects[p] == db.projects[p]
    requires forall p :: p in after.projects ==>
      var k := (p, db.projects[p].hostMember); k in db.members ==> k in after.members && after.members[k] == db.members[k]
    requires forall k :: k in after.members ==> k.0 in after.projects
    ensures Hosted(after)
  {
    forall p | p in after.projects
      ensures Lacks(NUL, p) && IsOwner(after, p, after.projects[p].hostMember)
    {
      assert IsOwner(db, p, db.projects[p].hostMember);
    }
  }

  lemma CreateProjectHosted(db: DB, p: string, project: ProjectRow, owner: string, row: MemberRow)
    requires Hosted(db) && Lacks(NUL, p) && project.hostMember == owner && project.hostKey == row.key
    ensures Hosted(CreateProject(db, p, project, p, owner, row).0)
  {
    var after := CreateProject(db, p, project, p, owner, row).0;
    forall q | q in after.projects
      ensures Lacks(NUL, q) && IsOwner(after, q, after.projects[q].hostMember)
    {
      if q in db.projects {
        assert IsOwner(db, q, db.projects[q].hostMember);
      }
    }
  }

  lemma CreateProjectSound(db: DB, p: string, project: ProjectRow, owner: string, row: MemberRow)
    requires Sound(db) && Lacks(NUL, p) && project.hostMember == owner && project.hostKey == row.key
    ensures Sound(CreateProject(db, p, project, p, owner, row).0)
  {
    CreateProjectHosted(db, p, project, owner, row);
    hide KeysUnique, NamesUnique, Hosted;
    if CanAddMember(db, p, owner, row) {
      KeysInsert(db.members, (p, owner), row);
    }
  }

  lemma DeleteProjectSound(db: DB, p: string)
    requires Sound(db)
    ensures Sound(DeleteProject(db, p))
  {
    var after := DeleteProject(db, p);
    hide KeysUnique, NamesUnique;
    KeysShrink(db.members, after.members);
    NamesShrink(db.agents, after.agents);
    HostsKept(db, after);
    hide Hosted;
  }

  lemma ConsumeInvitationSound(db: DB, join: Join, now: int)
    requires Sound(db)
    ensures Sound(ConsumeInvitation(db, join, now).0)
  {
    var (after, outcome) := ConsumeInvitation(db, join, now);
    hide KeysUnique, NamesUnique;
    if outcome.None? {
      var j := join.request;
      KeysInsert(db.members, (j.project, join.memberId), MemberRow(j.memberName, j.memberKey, now));
      HostsKept(db, after);
      hide Hosted;
    }
  }

  lemma RemoveMemberSound(db: DB, p: string, actor: string, target: string)
    requires Sound(db)
    ensures Sound(RemoveMember(db, p, actor, target).0)
  {
    var (after, outcome) := RemoveMember(db, p, actor, target);
    hide KeysUnique, NamesUnique;
    if outcome.None? {
      KeysShrink(db.members, after.members);
      NamesShrink(db.agents, after.agents);
      HostsKept(db, after) by {
        assert IsOwner(db, p, db.projects[p].hostMember);
      }
      hide Hosted;
    }
  }

  lemma OnlyAgentsChanged(db: DB, after: DB)
    requires Sound(db) && after.(agents := db.agents) == db
    requires NamesUnique(after.agents) && OwnersLive(after)
    ensures Sound(after)
  {
    hide KeysUnique, NamesUnique;
    HostsKept(db, after);
  }

  lemma AgentPut(db: DB, k: Id, row: AgentRow)
    requires Sound(db) && (k.0, row.owner) in db.members && !NameTaken(db, k.0, k.1, row.name)
    ensures Sound(db.(agents := db.agents[k := row]))
  {
    var after := db.(agents := db.agents[k := row]);
    assert OwnersLive(after);
    hide KeysUnique, NamesUnique, OwnersLive, Hosted, ConsumedLive;
    NamesInsert(db.agents, k, row);
    OnlyAgentsChanged(db, after);
  }

  lemma RegisterAgentSound(db: DB, p: string, member: string, agent: string, name: string, manifest: string, now: int)
    requires Sound(db)
    ensures Sound(RegisterAgent(db, p, member, agent, name, manifest, now).0)
  {
    hide Sound, NameTaken;
    var (after, outcome) := RegisterAgent(db, p, member, agent, name, manifest, now);
    if outcome.None? {
      AgentPut(db, (p, agent), after.agents[(p, agent)]);
    }
  }

  lemma SetAgentOnlineSound(db: DB, p: string, agent: string, member: string, online: bool, now: int)
    requires Sound(db)
    ensures Sound(SetAgentOnline(db, p, agent, member, online, now).0)
  {
    var (after, outcome) := SetAgentOnline(db, p, agent, member, online, now);
    if outcome.None? {
      assert OwnersLive(after);
      hide KeysUnique, NamesUnique, OwnersLive, Hosted, ConsumedLive;
      NamesShrink(db.agents, after.agents);
      OnlyAgentsChanged(db, after);
    }
  }

  lemma RemoveAgentSound(db: DB, p: string, actor: string, selector: string, picked: string)
    requires Sound(db)
    ensures Sound(RemoveAgent(db, p, actor, selector, picked).0)
  {
    var (after, outcome) := RemoveAgent(db, p, actor, selector, picked);
    if outcome.None? {
      assert OwnersLive(after);
      hide KeysUnique, NamesUnique, OwnersLive, Hosted, ConsumedLive;
      NamesShrink(db.agents, after.agents);
      OnlyAgentsChanged(db, after);
    }
  }

  lemma AddInvitationSound(db: DB, p: string, inv: string, key: Bytes, expiresAt: int)
    requires Sound(db)
    ensures Sound(AddInvitation(db, p, inv, key, expiresAt).0)
  {
  }

  lemma SameButRequests(db: DB, after: DB)
    requires Sound(db) && after.(requests := db.requests) == db
    ensures Sound(after)
  {
    assert forall q :: q in after.projects ==> IsOwner(after, q, db.projects[q].hostMember);
  }

  lemma SoundStep(db: DB, op: Op)
    requires Sound(db) && Admissible(op)
    ensures Sound(Apply(db, op).0)
  {
    hide Sound;
    match op
    case CreateProjectOp(p, project, _, owner, row) => CreateProjectSound(db, p, project, owner, row);
    case DeleteProjectOp(p) => DeleteProjectSound(db, p);
    case AddInvitationOp(p, inv, key, expiresAt) => AddInvitationSound(db, p, inv, key, expiresAt);
    case ConsumeInvitationOp(join, now) => ConsumeInvitationSound(db, join, now);
    case RemoveMemberOp(p, actor, target) => RemoveMemberSound(db, p, actor, target);
    case RegisterAgentOp(p, member, agent, name, manifest, now) => RegisterAgentSound(db, p, member, agent, name, manifest, now);
    case SetAgentOnlineOp(p, agent, member, online, now) => SetAgentOnlineSound(db, p, agent, member, online, now);
    case RemoveAgentOp(p, actor, selector, picked) => RemoveAgentSound(db, p, actor, selector, picked);
    case CreateRequestOp(q) => SameButRequests(db, CreateRequest(db, q).0);
    case UpdateRequestOp(p, id, status, now) => SameButRequests(db, UpdateRequest(db, p, id, status, now));
  }

  ghost predicate AllAdmissible(ops: seq<Op>) {
    forall i :: 0 <= i < |ops| ==> Admissible(ops[i])
  }

  lemma {:induction false} RunSound(ops: seq<Op>)
    requires AllAdmissible(ops)
    ensures Sound(Run(ops))
  {
    if ops == [] {
    } else {
      RunSound(ops[..|ops| - 1]);
      SoundStep(Run(ops[..|ops| - 1]), ops[|ops| - 1]);
    }
  }

  lemma OwnerIsHost(db: DB, p: string, m: string)
    requires KeysUnique(db.members) && Hosted(db) && p in db.projects
    ensures IsOwner(db, p, m) <==> m == db.projects[p].hostMember
  {
    var host := db.projects[p].hostMember;
    assert IsOwner(db, p, host);
    if IsOwner(db, p, m) {
      assert (p, m) == (p, host);
    }
  }

  ghost predicate SoleOwner(db: DB, p: string, owner: string) {
    forall m :: IsOwner(db, p, m) <==> m == owner
  }

  /** In every reachable store each live Project has exactly one owner among its members. */
  lemma ExactlyOneOwner(ops: seq<Op>, p: string)
    requires AllAdmissible(ops) && p in Run(ops).projects
    ensures exists owner :: SoleOwner(Run(ops), p, owner)
  {
    RunSound(ops);
    var db := Run(ops);
    forall m ensures IsOwner(db, p, m) <==> m == db.projects[p].hostMember {
      OwnerIsHost(db, p, m);
    }
    assert SoleOwner(db, p, db.projects[p].hostMember);
  }

  /** In every reachable store an agent belongs to a current member of a live Project, and its name is its own. */
  lemma AgentOwnership(ops: seq<Op>, k: Id)
    requires AllAdmissible(ops) && k in Run(ops).agents
    ensures var db := Run(ops);
      && k.0 in db.projects && (k.0, db.agents[k].owner) in db.members
      && forall l :: l in db.agents && l.0 == k.0 && db.agents[l].name == db.agents[k].name ==> l == k
  {
    RunSound(ops);
  }

  lemma OwnerColumnFixed(db: DB, op: Op, k: Id)
    requires k in db.agents && k in Apply(db, op).0.agents
    ensures Apply(db, op).0.agents[k].owner == db.agents[k].owner
  {
  }

  /** As long as an agent stays registered its owner does not change, whoever re-registers it. */
  lemma {:induction false} OwnerNeverChanges(ops: seq<Op>, n: nat, k: Id)
    requires n <= |ops|
    requires forall i :: n <= i <= |ops| ==> k in Run(ops[..i]).agents
    ensures Run(ops[..n]).agents[k].owner == Run(ops[..|ops|]).agents[k].owner
    decreases |ops| - n
  {
    hide Apply;
    if n < |ops| {
      assert ops[..n + 1][..n] == ops[..n];
      OwnerColumnFixed(Run(ops[..n]), ops[n], k);
      OwnerNeverChanges(ops, n + 1, k);
    }
  }

  // ---- Conservation of membership ------------------------------------------------------------

  function MembersOf(db: DB, p: string): set<Id> {
    set k | k in db.members && k.0 == p
  }

  function ConsumedOf(db: DB, p: string): set<Id> {
    set k | k in db.invitations && k.0 == p && db.invitations[k].consumedAt.Some?
  }

  function Done(db: DB, op: Op): bool {
    Apply(db, op).1.None?
  }

  /** Members removed from Project `p` since it was created. */
  function Removals(ops: seq<Op>, p: string): nat {
    if ops == [] then 0 else
      var (before, op) := (ops[..|ops| - 1], ops[|ops| - 1]);
      if op.CreateProjectOp? && op.p == p && Done(Run(before), op) then 0
      else if op.RemoveMemberOp? && op.p == p && Done(Run(before), op) then Removals(before, p) + 1
      else Removals(before, p)
  }

  lemma CreateStartsCount(db: DB, p: string, project: ProjectRow, owner: string, row: MemberRow)
    requires Hosted(db) && ConsumedLive(db) && CreateProject(db, p, project, p, owner, row).1.None?
    ensures var after := CreateProject(db, p, project, p, owner, row).0;
      |MembersOf(after, p)| == 1 && |ConsumedOf(after, p)| == 0
  {
    var after := CreateProject(db, p, project, p, owner, row).0;
    assert MembersOf(after, p) == {(p, owner)};
    assert ConsumedOf(after, p) == {};
  }

  lemma MemberAdded(db: DB, k: Id, row: MemberRow)
    requires k !in db.members
    ensures |MembersOf(db.(members := db.members[k := row]), k.0)| == |MembersOf(db, k.0)| + 1
  {
    assert MembersOf(db.(members := db.members[k := row]), k.0) == MembersOf(db, k.0) + {k};
  }

  lemma InviteUsed(db: DB, k: Id, now: int)
    requires k in db.invitations && db.invitations[k].consumedAt.None?
    ensures |ConsumedOf(db.(invitations := db.invitations[k := db.invitations[k].(consumedAt := Some(now))]), k.0)|
         == |ConsumedOf(db, k.0)| + 1
  {
    assert ConsumedOf(db.(invitations := db.invitations[k := db.invitations[k].(consumedAt := Some(now))]), k.0)
        == ConsumedOf(db, k.0) + {k};
  }

  lemma ConsumeCounts(db: DB, join: Join, now: int)
    requires ConsumeInvitation(db, join, now).1.None?
    ensures var (p, after) := (join.request.project, ConsumeInvitation(db, join, now).0);
      |MembersOf(after, p)| == |MembersOf(db, p)| + 1 && |ConsumedOf(after, p)| == |ConsumedOf(db, p)| + 1
  {
    var j := join.request;
    var k, row := (j.project, join.memberId), MemberRow(j.memberName, j.memberKey, now);
    var after := ConsumeInvitation(db, join, now).0;
    MemberAdded(db, k, row);
    InviteUsed(db, (j.project, j.inviteId), now);
    assert MembersOf(after, j.project) == MembersOf(db.(members := db.members[k := row]), j.project);
  }

  lemma RemoveCounts(db: DB, p: string, actor: string, target: string)
    requires RemoveMember(db, p, actor, target).1.None?
    ensures |MembersOf(RemoveMember(db, p, actor, target).0, p)| == |MembersOf(db, p)| - 1
  {
    assert MembersOf(RemoveMember(db, p, actor, target).0, p) == MembersOf(db, p) - {(p, target)};
  }

  lemma OthersKeepMembers(db: DB, op: Op, p: string)
    requires Admissible(op) && p in Apply(db, op).0.projects
    requires op.CreateProjectOp? ==> op.p != p || !Done(db, op)
    requires op.ConsumeInvitationOp? ==> op.join.request.project != p || !Done(db, op)
    requires op.RemoveMemberOp? ==> op.p != p || !Done(db, op)
    ensures MembersOf(Apply(db, op).0, p) == MembersOf(db, p)
  {
    var after := Apply(db, op).0;
    assert forall m :: (p, m) in after.members <==> (p, m) in db.members;
  }

  lemma OthersKeepConsumed(db: DB, op: Op, p: string)
    requires Admissible(op) && p in Apply(db, op).0.projects
    requires op.ConsumeInvitationOp? ==> op.join.request.project != p || !Done(db, op)
    ensures ConsumedOf(Apply(db, op).0, p) == ConsumedOf(db, p)
  {
    var after := Apply(db, op).0;
    assert forall i :: IsConsumed(after, (p, i)) <==> IsConsumed(db, (p, i));
  }

  /** Every other call, and every call for another Project, leaves both sets alone. */
  lemma OthersKeepCounts(db: DB, op: Op, p: string)
    requires Admissible(op) && p in Apply(db, op).0.projects
    requires op.CreateProjectOp? ==> op.p != p || !Done(db, op)
    requires op.ConsumeInvitationOp? ==> op.join.request.project != p || !Done(db, op)
    requires op.RemoveMemberOp? ==> op.p != p || !Done(db, op)
    ensures p in db.projects
    ensures MembersOf(Apply(db, op).0, p) == MembersOf(db, p) && ConsumedOf(Apply(db, op).0, p) == ConsumedOf(db, p)
  {
    OthersKeepMembers(db, op, p);
    OthersKeepConsumed(db, op, p);
    hide MembersOf, ConsumedOf;
  }

  /** For every live Project: current members + removed members = 1 + consumed invitations. */
  lemma {:induction false} MembershipConserved(ops: seq<Op>, p: string)
    requires AllAdmissible(ops) && p in Run(ops).projects
    ensures |MembersOf(Run(ops), p)| + Removals(ops, p) == 1 + |ConsumedOf(Run(ops), p)|
  {
    var (before, op) := (ops[..|ops| - 1], ops[|ops| - 1]);
    var db := Run(before);
    RunSound(before);
    hide Sound;
    if op.CreateProjectOp? && op.p == p && Done(db, op) {
      CreateStartsCount(db, p, op.project, op.owner, op.row);
    } else {
      if op.ConsumeInvitationOp? && op.join.request.project == p && Done(db, op) {
        ConsumeCounts(db, op.join, op.now);
      } else if op.RemoveMemberOp? && op.p == p && Done(db, op) {
        RemoveCounts(db, p, op.actor, op.target);
        assert ConsumedOf(Apply(db, op).0, p) == ConsumedOf(db, p);
      } else {
        OthersKeepCounts(db, op, p);
      }
      MembershipConserved(before, p);
    }
  }

  // ---- Single use ----------------------------------------------------------------------------

  ghost predicate Deleted(ops: seq<Op>, p: string) {
    exists i :: 0 <= i < |ops| && ops[i] == DeleteProjectOp(p)
  }

  /** Project ids are generated: one that was deleted is not created again. */
  ghost predicate NoRevival(ops: seq<Op>) {
    forall i :: 0 <= i < |ops| && ops[i].CreateProjectOp? ==> !Deleted(ops[..i], ops[i].p)
  }

  predicate Consumes(db: DB, op: Op, k: Id) {
    op.ConsumeInvitationOp? && (op.join.request.project, op.join.request.inviteId) == k && Done(db, op)
  }

  /** How often invitation `k` admitted somebody. */
  function Admissions(ops: seq<Op>, k: Id): nat {
    if ops == [] then 0 else
      var before := ops[..|ops| - 1];
      Admissions(before, k) + if Consumes(Run(before), ops[|ops| - 1], k) then 1 else 0
  }

  predicate IsConsumed(db: DB, k: Id) {
    k in db.invitations && db.invitations[k].consumedAt.Some?
  }

  lemma ConsumptionSticks(db: DB, op: Op, k: Id)
    ensures Consumes(db, op, k) ==> !IsConsumed(db, k) && IsConsumed(Apply(db, op).0, k) && k.0 in db.projects
    ensures IsConsumed(db, k) && op != DeleteProjectOp(k.0) ==> IsConsumed(Apply(db, op).0, k)
    ensures IsConsumed(Apply(db, op).0, k) ==> IsConsumed(db, k) || Consumes(db, op, k)
  {
  }

  lemma StaysDeleted(db: DB, op: Op, p: string)
    requires p !in db.projects && (op.CreateProjectOp? ==> op.p != p)
    ensures p !in Apply(db, op).0.projects
  {
  }

  /** A deleted Project is gone for good. */
  lemma {:induction false} DeletedIsGone(ops: seq<Op>, p: string)
    requires NoRevival(ops) && Deleted(ops, p)
    ensures p !in Run(ops).projects
  {
    var (before, op) := (ops[..|ops| - 1], ops[|ops| - 1]);
    if op != DeleteProjectOp(p) {
      assert forall i :: 0 <= i < |before| ==> ops[..i] == before[..i];
      assert Deleted(before, p);
      DeletedIsGone(before, p);
      StaysDeleted(Run(before), op, p);
    }
  }

  /** An invitation admits at most once, whatever calls are made. */
  lemma {:induction false} SingleUse(ops: seq<Op>, k: Id)
    requires NoRevival(ops)
    ensures Admissions(ops, k) <= 1
    ensures Admissions(ops, k) == 1 ==> IsConsumed(Run(ops), k) || Deleted(ops, k.0)
    ensures IsConsumed(Run(ops), k) ==> Admissions(ops, k) == 1
  {
    if ops == [] {
    } else {
      var (before, op) := (ops[..|ops| - 1], ops[|ops| - 1]);
      assert forall i :: 0 <= i < |before| ==> ops[..i] == before[..i];
      SingleUse(before, k);
      ConsumptionSticks(Run(before), op, k);
      if Deleted(before, k.0) {
        DeletedIsGone(before, k.0);
        assert Deleted(ops, k.0);
      }
      assert op == DeleteProjectOp(k.0) ==> Deleted(ops, k.0);
    }
  }

  /** Whoever an invitation admits is not an owner: the owner's key is taken. */
  lemma JoinerIsNotOwner(ops: seq<Op>, join: Join, now: int)
    requires AllAdmissible(ops) && ConsumeInvitation(Run(ops), join, now).1.None?
    ensures var after := ConsumeInvitation(Run(ops), join, now).0;
      (join.request.project, join.memberId) in after.members && !IsOwner(after, join.request.project, join.memberId)
  {
    RunSound(ops);
    var (db, p) := (Run(ops), join.request.project);
    assert IsOwner(db, p, db.projects[p].hostMember);
  }

  lemma InviteRowOrigin(db: DB, op: Op, k: Id)
    requires k in Apply(db, op).0.invitations
    ensures var row := Apply(db, op).0.invitations[k];
      || op == AddInvitationOp(k.0, k.1, row.key, row.expiresAt)
      || (k in db.invitations && db.invitations[k].key == row.key && db.invitations[k].expiresAt == row.expiresAt)
  {
  }

  lemma {:induction false} InviteOrigin(ops: seq<Op>, k: Id) returns (i: nat)
    requires k in Run(ops).invitations
    ensures i < |ops|
    ensures var row := Run(ops).invitations[k]; ops[i] == AddInvitationOp(k.0, k.1, row.key, row.expiresAt)
  {
    var before := ops[..|ops| - 1];
    InviteRowOrigin(Run(before), ops[|ops| - 1], k);
    var row := Run(ops).invitations[k];
    if ops[|ops| - 1] == AddInvitationOp(k.0, k.1, row.key, row.expiresAt) {
      i := |ops| - 1;
    } else {
      i := InviteOrigin(before, k);
    }
  }

  /** Whoever is admitted was admitted strictly before the expiry that the invitation was created with. */
  lemma AdmittedBeforeExpiry(ops: seq<Op>, join: Join, now: int) returns (i: nat)
    requires ConsumeInvitation(Run(ops), join, now).1.None?
    ensures i < |ops| && ops[i].AddInvitationOp?
    ensures ops[i].p == join.request.project && ops[i].inv == join.request.inviteId
    ensures now < ops[i].expiresAt && join.signer == ops[i].key
  {
    i := InviteOrigin(ops, (join.request.project, join.request.inviteId));
  }

  // ---- Revocation ----------------------------------------------------------------------------

  /** `op` makes `m` a member of `p`: it is admitted with a new invitation, or is the owner of a new Project. */
  predicate Readmits(op: Op, p: string, m: string) {
    || (op.ConsumeInvitationOp? && op.join.request.project == p && op.join.memberId == m)
    || (op.CreateProjectOp? && op.ownerProject == p && op.owner == m)
  }

  lemma StaysOut(db: DB, op: Op, p: string, m: string)
    requires (p, m) !in db.members && !Readmits(op, p, m)
    ensures (p, m) !in Apply(db, op).0.members
  {
  }

  /** After a removal, and until a re-admission, the key is no member and owns no agent, whatever else happens. */
  lemma {:induction false} RemovalLasts(ops: seq<Op>, n: nat, p: string, actor: string, m: string)
    requires AllAdmissible(ops) && n < |ops|
    requires ops[n] == RemoveMemberOp(p, actor, m) && Done(Run(ops[..n]), ops[n])
    requires forall i :: n < i < |ops| ==> !Readmits(ops[i], p, m)
    ensures (p, m) !in Run(ops).members
    ensures forall k :: k in Run(ops).agents && k.0 == p ==> Run(ops).agents[k].owner != m
    decreases |ops|
  {
    RunSound(ops);
    var before := ops[..|ops| - 1];
    if n < |ops| - 1 {
      assert before[..n] == ops[..n];
      RemovalLasts(before, n, p, actor, m);
      StaysOut(Run(before), ops[|ops| - 1], p, m);
    } else {
      assert before == ops[..n];
    }
    hide KeysUnique, NamesUnique, Hosted;
  }

  /** The check and the insert of RegisterAgent are two statements: a removal between them leaves an ownerless agent. */
  lemma RegisterAgentIsNotOneStatement()
    ensures exists db: DB, p: string, actor: string, m: string, agent: string ::
      && Sound(db) && (p, m) in db.members
      && var removed := RemoveMember(db, p, actor, m).0;
         !OwnersLive(UpsertAgent(removed, p, m, agent, agent, "", 0).0)
  {
    var host, guest := seq(KEY_SIZE, _ => 1 as byte), seq(KEY_SIZE, _ => 2 as byte);
    assert host[0] != guest[0];
    var db := EMPTY.(projects := map["p" := ProjectRow("P", "h", host, 0)],
                     members := map[("p", "h") := MemberRow("H", host, 0), ("p", "m") := MemberRow("M", guest, 0)]);
    assert IsOwner(db, "p", "h") && !IsOwner(db, "p", "m");
    assert Sound(db);
    var removed := RemoveMember(db, "p", "h", "m").0;
    var after := UpsertAgent(removed, "p", "m", "a", "a", "", 0).0;
    assert after.agents[("p", "a")].owner == "m";
    assert ("p", "m") !in after.members;
  }
}
