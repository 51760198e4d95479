/** The host's five tables as maps from primary key to row, and each Store call as a function on them. */
module Tables {
  import opened Base
  import opened Signing

  type Id = (string, string)  // (project_id, id)

  datatype ProjectRow = ProjectRow(name: string, hostMember: string, hostKey: Bytes, createdAt: int)
  datatype MemberRow = MemberRow(name: string, key: Bytes, createdAt: int)
  datatype InviteRow = InviteRow(key: Bytes, expiresAt: int, consumedAt: Option<int>)
  datatype AgentRow = AgentRow(owner: string, name: string, manifest: string, online: bool, lastSeen: Option<int>, createdAt: int)
  datatype Status = Running | Succeeded | Failed | Canceled | Expired
  datatype RequestRow = RequestRow(requester: string, agent: string, status: Status, bodyBytes: int, bodyDigest: Digest,
                                   createdAt: int, expiresAt: int, startedAt: Option<int>, completedAt: Option<int>)

  datatype DB = DB(projects: map<string, ProjectRow>, members: map<Id, MemberRow>, invitations: map<Id, InviteRow>,
                   agents: map<Id, AgentRow>, requests: map<Id, RequestRow>)

  const EMPTY: DB := DB(map[], map[], map[], map[], map[])

  datatype StoreError =
    | NotFound | InviteInvalid | InviteConsumed | InviteExpired | MemberForbidden
    | Unverified(why: VerifyError)
    | Constraint  // a PRIMARY KEY or UNIQUE violation
    | Fault       // any other database error

  type Outcome = Option<StoreError>

  // ---- Constraints and reads -----------------------------------------------------------------

  predicate KeyTaken(db: DB, p: string, key: Bytes) {
    exists k :: k in db.members && k.0 == p && db.members[k].key == key
  }

  predicate NameTaken(db: DB, p: string, agent: string, name: string) {
    exists k :: k in db.agents && k.0 == p && k.1 != agent && db.agents[k].name == name
  }

  predicate CanAddMember(db: DB, p: string, m: string, row: MemberRow) {
    (p, m) !in db.members && !KeyTaken(db, p, row.key)
  }

  /** The Owner flag that Member computes. */
  predicate IsOwner(db: DB, p: string, m: string) {
    (p, m) in db.members && p in db.projects && db.members[(p, m)].key == db.projects[p].hostKey
  }

  /** A row that Agent may return for a selector: it is looked up by id or by name. */
  predicate Selects(db: DB, p: string, selector: string, agent: string) {
    (p, agent) in db.agents && (agent == selector || db.agents[(p, agent)].name == selector)
  }

  /** A join request, the key under which its signature verifies, and memberIDFromPublicKey of its member key. */
  datatype Join = Join(request: JoinRequest, signer: Bytes, memberId: string)

  function JoinProblem(join: Join, key: Bytes, now: int): Option<VerifyError> {
    var j := join.request;
    if j.schema != SCHEMA_VERSION || j.project == "" || j.inviteId == "" || IsBlank(j.memberName)
       || j.verb == "" || j.path == "" || j.nonce == "" then Some(Incomplete)
    else if |j.memberKey| != KEY_SIZE then Some(BadKey)
    else if now - j.timestamp > SIGNATURE_MAX_AGE || now - j.timestamp < -SIGNATURE_MAX_AGE then Some(ClockSkew)
    else if join.signer != key then Some(SignatureInvalid)
    else None
  }

  /** The tables' view of a signed join: the key under which its signature verifies is the signer's, if it is over these bytes. */
  function JoinOf(j: JoinRequest, sig: Signature, memberId: string, enc: Encoders): Join {
    Join(j, if sig.over == JoinBytes(j, enc) then sig.signer else [], memberId)
  }

  /** It verifies exactly as the join does, with the same error, under any key of the right size. */
  lemma JoinProblemAgrees(j: JoinRequest, sig: Signature, memberId: string, key: Bytes, now: int, enc: Encoders)
    requires |key| == KEY_SIZE
    ensures JoinProblem(JoinOf(j, sig, memberId, enc), key, now) == VerifyJoin(j, sig, key, now, SIGNATURE_MAX_AGE, enc)
  {
    hide JoinBytes, IsBlank;
  }

  // ---- Writes --------------------------------------------------------------------------------

  function CreateProject(db: DB, p: string, project: ProjectRow, ownerProject: string, owner: string, row: MemberRow): (DB, Outcome) {
    if p in db.projects || !CanAddMember(db, ownerProject, owner, row) then (db, Some(Constraint))
    else (db.(projects := db.projects[p := project], members := db.members[(ownerProject, owner) := row]), None)
  }

  function DeleteProject(db: DB, p: string): DB {
    DB(map q | q in db.projects && q != p :: db.projects[q],
       map k | k in db.members && k.0 != p :: db.members[k],
       map k | k in db.invitations && k.0 != p :: db.invitations[k],
       map k | k in db.agents && k.0 != p :: db.agents[k],
       map k | k in db.requests && k.0 != p :: db.requests[k])
  }

  function AddInvitation(db: DB, p: string, inv: string, key: Bytes, expiresAt: int): (DB, Outcome) {
    if (p, inv) in db.invitations then (db, Some(Constraint))
    else (db.(invitations := db.invitations[(p, inv) := InviteRow(key, expiresAt, None)]), None)
  }

  /** The checks of ConsumeInvitation before it writes. */
  function InviteProblem(db: DB, join: Join, now: int): Outcome {
    var p, inv := join.request.project, join.request.inviteId;
    if p !in db.projects then Some(NotFound)
    else if (p, inv) !in db.invitations then Some(InviteInvalid)
    else
      var invite := db.invitations[(p, inv)];
      if invite.consumedAt.Some? then Some(InviteConsumed)
      else if now >= invite.expiresAt then Some(InviteExpired)
      else if |invite.key| != KEY_SIZE then Some(InviteInvalid)
      else match JoinProblem(join, invite.key, now) case Some(why) => Some(Unverified(why)) case None => None
  }

  function ConsumeInvitation(db: DB, join: Join, now: int): (DB, Outcome) {
    var j := join.request;
    var row := MemberRow(j.memberName, j.memberKey, now);
    var problem := InviteProblem(db, join, now);
    if problem.Some? then (db, problem)
    else if !CanAddMember(db, j.project, join.memberId, row) then (db, Some(Constraint))
    else
      var k := (j.project, j.inviteId);
      (db.(members := db.members[(j.project, join.memberId) := row],
           invitations := db.invitations[k := db.invitations[k].(consumedAt := Some(now))]), None)
  }

  function RemoveMember(db: DB, p: string, actor: string, target: string): (DB, Outcome) {
    if p !in db.projects then (db, Some(NotFound))
    else if !IsOwner(db, p, actor) || (p, target) !in db.members || IsOwner(db, p, target) then (db, Some(MemberForbidden))
    else (db.(agents := map k | k in db.agents && !(k.0 == p && db.agents[k].owner == target) :: db.agents[k],
              members := db.members - {(p, target)}), None)
  }

  /** The second statement of RegisterAgent: the guarded upsert, which does not look at the members. The id conflict is resolved first. */
  function UpsertAgent(db: DB, p: string, member: string, agent: string, name: string, manifest: string, now: int): (DB, Outcome) {
    var k := (p, agent);
    if k in db.agents && db.agents[k].owner != member then (db, Some(MemberForbidden))
    else if NameTaken(db, p, agent, name) then (db, Some(Constraint))
    else if k !in db.agents then (db.(agents := db.agents[k := AgentRow(member, name, manifest, false, None, now)]), None)
    else (db.(agents := db.agents[k := db.agents[k].(name := name, manifest := manifest)]), None)
  }

  function RegisterAgent(db: DB, p: string, member: string, agent: string, name: string, manifest: string, now: int): (DB, Outcome) {
    if (p, member) !in db.members then (db, Some(MemberForbidden)) else UpsertAgent(db, p, member, agent, name, manifest, now)
  }

  function SetAgentOnline(db: DB, p: string, agent: string, member: string, online: bool, now: int): (DB, Outcome) {
    var k := (p, agent);
    if k in db.agents && db.agents[k].owner == member
    then (db.(agents := db.agents[k := db.agents[k].(online := online, lastSeen := Some(now))]), None)
    else (db, Some(NotFound))
  }

  /** `picked` is the row that Agent returned for the selector. */
  function RemoveAgent(db: DB, p: string, actor: string, selector: string, picked: string): (DB, Outcome) {
    if !Selects(db, p, selector, picked) then (db, Some(NotFound))
    else if (p, actor) !in db.members then (db, Some(MemberForbidden))
    else if actor != db.agents[(p, picked)].owner && !IsOwner(db, p, actor) then (db, Some(MemberForbidden))
    else (db.(agents := db.agents - {(p, picked)}), None)
  }

  function CreateRequest(db: DB, q: Request): (DB, Outcome) {
    if (q.project, q.id) in db.requests then (db, Some(Constraint))
    else (db.(requests := db.requests[(q.project, q.id) := RequestRow(q.requester, q.agent, Running, |q.body|, q.bodyDigest,
                                                                     q.createdAt, q.createdAt + DEFAULT_REQUEST_TIMEOUT, None, None)]), None)
  }

  function UpdateRequest(db: DB, p: string, id: string, status: Status, at: int): DB {
    var k := (p, id);
    if k !in db.requests then db
    else db.(requests := db.requests[k := if status.Running? then db.requests[k].(status := status, startedAt := Some(at))
                                          else db.requests[k].(status := status, completedAt := Some(at))])
  }

  // ---- Runs ----------------------------------------------------------------------------------

  datatype Op =
    | CreateProjectOp(p: string, project: ProjectRow, ownerProject: string, owner: string, row: MemberRow)
    | DeleteProjectOp(p: string)
    | AddInvitationOp(p: string, inv: string, key: Bytes, expiresAt: int)
    | ConsumeInvitationOp(join: Join, now: int)
    | RemoveMemberOp(p: string, actor: string, target: string)
    | RegisterAgentOp(p: string, member: string, agent: string, name: string, manifest: string, now: int)
    | SetAgentOnlineOp(p: string, agent: string, member: string, online: bool, now: int)
    | RemoveAgentOp(p: string, actor: string, selector: string, picked: string)
    | CreateRequestOp(q: Request)
    | UpdateRequestOp(p: string, id: string, status: Status, now: int)

  function Apply(db: DB, op: Op): (DB, Outcome) {
    match op
    case CreateProjectOp(p, project, ownerProject, owner, row) => CreateProject(db, p, project, ownerProject, owner, row)
    case DeleteProjectOp(p) => (DeleteProject(db, p), None)
    case AddInvitationOp(p, inv, key, expiresAt) => AddInvitation(db, p, inv, key, expiresAt)
    case ConsumeInvitationOp(join, now) => ConsumeInvitation(db, join, now)
    case RemoveMemberOp(p, actor, target) => RemoveMember(db, p, actor, target)
    case RegisterAgentOp(p, member, agent, name, manifest, now) => RegisterAgent(db, p, member, agent, name, manifest, now)
    case SetAgentOnlineOp(p, agent, member, online, now) => SetAgentOnline(db, p, agent, member, online, now)
    case RemoveAgentOp(p, actor, selector, picked) => RemoveAgent(db, p, actor, selector, picked)
    case CreateRequestOp(q) => CreateRequest(db, q)
    case UpdateRequestOp(p, id, status, now) => (UpdateRequest(db, p, id, status, now), None)
  }

  /** The only caller of CreateProject inserts one key as host key and owner key, under a generated Project ID. */
  predicate Admissible(op: Op) {
    op.CreateProjectOp? ==>
      && op.ownerProject == op.p && op.project.hostMember == op.owner && op.project.hostKey == op.row.key && Lacks(NUL, op.p)
  }

  function Run(ops: seq<Op>): DB {
    if ops == [] then EMPTY else Apply(Run(ops[..|ops| - 1]), ops[|ops| - 1]).0
  }
}
