/** The host's handlers: each step of a request in order, on the store, the replay guard and the broker. */
module Server {
  import opened Base
  import opened Signing
  import opened Tables
  import opened Replay
  import opened Store
  import opened Broker
  import Invitations

  /** What an operation other than an ask is asked to do; an inquiry only reads, and what is not understood is refused. */
  datatype Order =
    | InviteCreate(ttlSeconds: int)
    | MemberRemove(target: string)
    | AgentRegister(agent: string, name: string, manifest: string)
    | AgentRemove(selector: string)
    | Inquiry
    | Unknown

  datatype Content = Ask(request: Request) | Connect(agent: string) | Perform(order: Order)

  /** A signed message; `signer` is the key under which its signature verifies. */
  datatype Msg = Msg(schema: int, project: string, sender: string, kind: string, verb: string, path: string, nonce: string,
                     timestamp: int, signer: Bytes, content: Content)

  const INQUIRIES: set<string> := {"members.list", "agents.list", "agent.get"}

  /** The kind of a message says what it asks for; a message of a known kind whose payload does not parse is not understood. */
  predicate KindFits(m: Msg) {
    match m.content
    case Ask(_) => m.kind == "request.ask"
    case Connect(_) => m.kind == "provider.connect"
    case Perform(order) =>
      match order
      case InviteCreate(_) => m.kind == "invitation.create"
      case MemberRemove(_) => m.kind == "member.remove"
      case AgentRegister(_, _, _) => m.kind == "agent.register"
      case AgentRemove(_) => m.kind == "agent.remove"
      case Inquiry => m.kind in INQUIRIES
      case Unknown => true
  }

  datatype AuthError = NotMember | RouteMismatch | Rejected(why: VerifyError) | Replayed

  function MessageKey(m: Msg): string {
    GuardKey(m.project, m.sender, m.nonce)
  }

  function VerifyMsg(m: Msg, key: Bytes, now: int): Option<VerifyError> {
    if m.schema != SCHEMA_VERSION || m.project == "" || m.sender == "" || m.kind == "" || m.verb == "" || m.path == "" || m.nonce == ""
    then Some(Incomplete)
    else if |key| != KEY_SIZE then Some(BadKey)
    else if !InWindow(m.timestamp, now, SIGNATURE_MAX_AGE) then Some(ClockSkew)
    else if m.signer != key then Some(SignatureInvalid)
    else None
  }

  /** The model's view of a signed message: the key under which its signature verifies is the signer's, if it is over these bytes. */
  function Abstracted(s: SignedMessage, sig: Signature, content: Content, enc: Encoders): Msg {
    Msg(s.schema, s.project, s.sender, s.kind, s.verb, s.path, s.nonce, s.timestamp,
        if sig.over == MessageBytes(s, enc) then sig.signer else [], content)
  }

  /** It verifies exactly as the message does, with the same error. */
  lemma VerifyAgrees(s: SignedMessage, sig: Signature, content: Content, key: Bytes, now: int, enc: Encoders)
    ensures VerifyMsg(Abstracted(s, sig, content, enc), key, now) == Verify(s, sig, key, now, SIGNATURE_MAX_AGE, enc)
  {
    hide MessageBytes;
  }

  /** What the kind and the content of a message have to do with each other, kind by kind. */
  lemma KindsExactly(m: Msg)
    ensures KindFits(m) <==>
      || (m.kind == "request.ask" && m.content.Ask?)
      || (m.kind == "provider.connect" && m.content.Connect?)
      || (m.kind == "invitation.create" && m.content.Perform? && m.content.order.InviteCreate?)
      || (m.kind == "member.remove" && m.content.Perform? && m.content.order.MemberRemove?)
      || (m.kind == "agent.register" && m.content.Perform? && m.content.order.AgentRegister?)
      || (m.kind == "agent.remove" && m.content.Perform? && m.content.order.AgentRemove?)
      || (m.kind in ["members.list", "agents.list", "agent.get"] && m.content == Perform(Inquiry))
      || m.content == Perform(Unknown)
  {
  }

  // ---- Asks and joins ------------------------------------------------------------------------

  const POST: string := "POST"
  const GET: string := "GET"
  const RPC_PATH: string := "/v2/rpc"
  const JOIN_PATH: string := "/v2/join"
  const IDENTITY_PATH: string := "/v2/identity"

  /** The request that a member may make with a message of this Project. */
  predicate MayAsk(q: Request, project: string, member: string) {
    ValidRequest(q) && q.project == project && q.requester == member
  }

  /** ask's final status: failed on a dispatch error or a provider failure, succeeded otherwise. */
  function FinalStatus(d: Option<Delivery>): Status {
    if d.Some? && !d.value.payload.kind.FailureType? then Succeeded else Failed
  }

  /** How an ask ends; the first four come before there is a request row. */
  datatype AskEnd =
    | InvalidRequest | AgentNotFound | AgentNotOnline | RequestFailed
    | IdentityUnavailable | DispatchFailed | Delivered(payload: Payload)

  datatype JoinEnd = WrongRoute | TurnedAway(error: StoreError) | Joined(project: ProjectRow, member: MemberRow, owner: bool)

  class Server {
    const store: Store
    const replays: ReplayGuard
    const broker: Broker

    constructor (store: Store)
      ensures this.store == store && fresh(replays) && replays.seen == map[] && replays.maxAge == SIGNATURE_MAX_AGE
      ensures fresh(broker) && broker.Valid() && broker.State() == IDLE
    {
      this.store := store;
      this.replays := new ReplayGuard(SIGNATURE_MAX_AGE);
      this.broker := new Broker();
    }

    /**
     * Whoever passes is a stored member whose own key signed the message, on this route, within two minutes, for the
     * first time in four. Only a message that passes every other check changes the guard.
     */
    method Authenticate(s: SignedMessage, sig: Signature, enc: Encoders, verb: string, path: string, now: int) returns (error: Option<AuthError>)
      requires replays.maxAge == SIGNATURE_MAX_AGE
      modifies replays
      ensures var (members, k) := (store.members, (s.project, s.sender));
        var routed := s.verb == verb && s.path == path;
        var keyed := k in members && |members[k].key| == 32;
        var problem := if keyed then Verify(s, sig, members[k].key, now, 120_000_000_000, enc) else Some(BadKey);
        var (seen, key) := (old(replays.seen), GuardKey(s.project, s.sender, s.nonce));
        var replayed := key in seen && now - seen[key] <= 240_000_000_000;
        && (error == Some(NotMember) <==> k !in members)
        && (error == Some(RouteMismatch) <==> k in members && !routed)
        && (forall why :: error == Some(Rejected(why)) <==> k in members && routed && problem == Some(why))
        && (error == Some(Replayed) <==> k in members && routed && problem == None && replayed)
        && (error == None <==> k in members && routed && problem == None && !replayed)
        && (var kept := map c | c in seen && now - seen[c] <= 240_000_000_000 :: seen[c];
            replays.seen == if error == None then kept[key := now] else if error == Some(Replayed) then kept else seen)
    {
      var k := (s.project, s.sender);
      if k !in store.members {
        return Some(NotMember);
      }
      if s.verb != verb || s.path != path {
        return Some(RouteMismatch);
      }
      var key := store.members[k].key;
      if |key| != KEY_SIZE {
        return Some(Rejected(BadKey));
      }
      var problem := Verify(s, sig, key, now, SIGNATURE_MAX_AGE, enc);
      if problem.Some? {
        return Some(Rejected(problem.value));
      }
      var ok := replays.Accept(GuardKey(s.project, s.sender, s.nonce), now);
      error := if ok then None else Some(Replayed);
    }

    /**
     * `owner` is what authenticate read. Only the owner invites, and no invitation is stored with more than an hour
     * to live.
     */
    method CreateInvitation(p: string, owner: bool, inv: string, key: Bytes, ttlSeconds: int, now: int, disk: Disk) returns (error: Outcome)
      modifies store`invitations
      ensures error.Some? ==> store.Db() == old(store.Db())
      ensures disk.Spares(1) ==> (error.None? <==> owner && p in old(store.projects) && (p, inv) !in old(store.invitations))
      ensures error.None? ==>
        && owner && p in old(store.projects)
        && store.invitations == old(store.invitations)[(p, inv) := InviteRow(key, now + Invitations.Ttl(ttlSeconds), None)]
        && store.invitations[(p, inv)].expiresAt <= now + HOUR
    {
      if !owner {
        return Some(MemberForbidden);
      }
      if p !in store.projects {
        return Some(NotFound);
      }
      Invitations.TtlAtMostOneHour(ttlSeconds);
      error := store.AddInvitation(p, inv, key, now + Invitations.Ttl(ttlSeconds), disk);
    }

    /** A join request posted to the right route admits its own key and is told so, or changes nothing and is told why. */
    method HandleJoin(join: Join, now: int, disk: Disk) returns (end: JoinEnd)
      modifies store
      ensures !end.Joined? ==> store.Db() == old(store.Db())
      ensures end.WrongRoute? <==> join.request.verb != POST || join.request.path != JOIN_PATH
      ensures end.TurnedAway? ==> end.error == Fault || Some(end.error) == ConsumeInvitation(old(store.Db()), join, now).1
      ensures disk.Spares(3) ==> (end.Joined? <==> !end.WrongRoute? && ConsumeInvitation(old(store.Db()), join, now).1.None?)
      ensures end.Joined? ==>
        && store.Db() == ConsumeInvitation(old(store.Db()), join, now).0
        && join.request.project in old(store.projects) && end.project == old(store.projects)[join.request.project]
        && end.member == MemberRow(join.request.memberName, join.request.memberKey, now)
        && end.owner == IsOwner(store.Db(), join.request.project, join.memberId)
        && (join.request.project, join.memberId) !in old(store.members)
        && store.members == old(store.members)[(join.request.project, join.memberId) := end.member]
    {
      if join.request.verb != POST || join.request.path != JOIN_PATH {
        return WrongRoute;
      }
      var error := store.ConsumeInvitation(join, now, disk);
      if error.Some? {
        return TurnedAway(error.value);
      }
      var k := (join.request.project, join.memberId);
      end := Joined(store.projects[k.0], store.members[k], IsOwner(store.Db(), k.0, k.1));
    }

    /**
     * One ask from start to end, alone: `request` is None when the payload does not parse, `dispatched` is what
     * dispatch returns. The row is left running when the host identity is missing, or when its update fails.
     */
    method Ask(project: string, member: string, request: Option<Request>, identity: bool, dispatched: Option<Delivery>, now: int,
               insert: Disk, update: Disk)
      returns (end: AskEnd)
      modifies store`requests
      ensures end.InvalidRequest? <==>
        || request.None? || request.value.schema != 2 || request.value.project != project || request.value.requester != member
        || "" in [request.value.id, request.value.project, request.value.requester, request.value.agent]
        || |request.value.body| > 262_144 || request.value.bodyDigest != Digest(request.value.body) || request.value.createdAt == 0
      ensures end.AgentNotFound? ==> forall a :: !Selects(old(store.Db()), project, request.value.agent, a)
      ensures end.AgentNotOnline? ==>
        exists a :: Selects(old(store.Db()), project, request.value.agent, a) && !old(store.agents)[(project, a)].online
      ensures end.RequestFailed? ==> !insert.Spares(1) || (project, request.value.id) in old(store.requests)
      ensures end.InvalidRequest? || end.AgentNotFound? || end.AgentNotOnline? || end.RequestFailed? ==> store.Db() == old(store.Db())
      ensures end.IdentityUnavailable? || end.DispatchFailed? || end.Delivered? ==>
        && (project, request.value.id) !in old(store.requests)
        && (exists a :: Selects(old(store.Db()), project, request.value.agent, a) && old(store.agents)[(project, a)].online)
        && end == (if !identity then IdentityUnavailable else if dispatched.None? then DispatchFailed else Delivered(dispatched.value.payload))
        && var (q, created) := (request.value, CreateRequest(old(store.Db()), request.value).0);
           created.requests == old(store.requests)[(project, q.id) :=
             RequestRow(member, q.agent, Running, |q.body|, Digest(q.body), q.createdAt, q.createdAt + 300_000_000_000, None, None)]
           && store.Db() == if !identity || !update.Spares(1) then created
                         else UpdateRequest(created, project, request.value.id, FinalStatus(dispatched), now)
    {
      if request.None? || !MayAsk(request.value, project, member) {
        return InvalidRequest;
      }
      var q := request.value;
      var agent := store.Agent(project, q.agent);
      if agent.None? {
        assert forall a :: !Selects(store.Db(), project, q.agent, a);
        assert store.Db() == old(store.Db());
        return AgentNotFound;
      }
      if !store.agents[(project, agent.value)].online {
        return AgentNotOnline;
      }
      var error := store.CreateRequest(q, insert);
      if error.Some? {
        return RequestFailed;
      }
      if !identity {
        return IdentityUnavailable;
      }
      var _ := store.UpdateRequest(project, q.id, FinalStatus(dispatched), now, update);
      end := if dispatched.None? then DispatchFailed else Delivered(dispatched.value.payload);
    }

    // ---- Provider connections ----------------------------------------------------------------

    /** handleProvider from the lookup on: only the agent's owner gets attached, and a failed status update is ignored. */
    method Connect(p: string, member: string, selector: string, identity: bool, conn: nat, now: int, disk: Disk)
      returns (agent: Option<string>, replaced: Option<nat>)
      requires broker.Valid()
      modifies store`agents, broker`providers
      ensures broker.Valid()
      ensures agent.None? ==> store.Db() == old(store.Db()) && broker.State() == old(broker.State()) && replaced.None?
      ensures agent.None? && identity ==>
        || (forall a :: !Selects(old(store.Db()), p, selector, a))
        || exists a :: Selects(old(store.Db()), p, selector, a) && old(store.agents)[(p, a)].owner != member
      ensures agent.Some? ==>
        && identity && Selects(old(store.Db()), p, selector, agent.value) && old(store.agents)[(p, agent.value)].owner == member
        && broker.State() == AttachStep(old(broker.State()), ProviderKey(p, agent.value), conn)
        && replaced == (if ProviderKey(p, agent.value) in old(broker.providers) then Some(old(broker.providers)[ProviderKey(p, agent.value)]) else None)
        && store.Db() == if !disk.Spares(1) then old(store.Db()) else SetAgentOnline(old(store.Db()), p, agent.value, member, true, now).0
    {
      replaced := None;
      agent := store.Agent(p, selector);
      if agent.None? || store.agents[(p, agent.value)].owner != member || !identity {
        return None, None;
      }
      replaced := broker.Attach(ProviderKey(p, agent.value), conn);
      var _ := store.SetAgentOnline(p, agent.value, member, true, now, disk);
    }

    /** The deferred cleanup: it marks the agent offline whether or not this connection was still the attached one. */
    method Hangup(p: string, agent: string, member: string, conn: nat, now: int, disk: Disk)
      requires broker.Valid()
      modifies store`agents, broker`providers, broker`slots
      ensures broker.Valid() && broker.State() == DetachStep(old(broker.State()), ProviderKey(p, agent), agent, conn)
      ensures store.Db() == if !disk.Spares(1) then old(store.Db()) else SetAgentOnline(old(store.Db()), p, agent, member, false, now).0
    {
      broker.Detach(ProviderKey(p, agent), agent, conn);
      var _ := store.SetAgentOnline(p, agent, member, false, now, disk);
    }
  }
}
