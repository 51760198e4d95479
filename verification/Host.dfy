/**
 * The Project host as one concurrent machine: store, replay guard, broker, the requests and provider connections in
 * progress, and the provider loops at the other end. One action is one atomic step of one goroutine.
 */
module Host {
  import opened Base
  import opened Signing
  import opened Tables
  import opened Replay
  import opened Server
  import opened Broker
  import opened Provider
  import Correlation
  import Invitations

  /** Where an ask stands. */
  datatype Stage =
    | Arrived                                    // authenticated and decoded
    | Found                                      // the agent row was there and online
    | Inserted                                   // the request row was created
    | Identified                                 // the host identity was there
    | Dispatching                                // dispatch found a connection
    | Offline                                    // dispatch found none
    | Closed(outcome: Option<Delivery>)          // the request row was updated
    | Replied(outcome: Option<Delivery>)         // the reply was signed
    | Refused                                    // ended before there was a row
    | NoIdentity                                 // ended because the host identity was not available

  /** `ask` numbers the acceptance of its message; `row` is the agent row its lookup returned. */
  datatype Call = Call(request: Request, ask: nat, stage: Stage, ticket: Option<nat>, row: string, rowOwner: string)

  /** Where any other operation stands: taken on, done with the Store call it made, if any, or replied to as well. */
  datatype JobStage = Taken | Done(op: Option<Op>, ok: bool) | Told(op: Option<Op>, ok: bool)
  datatype Job = Job(project: string, member: string, owner: bool, order: Order, ask: nat, stage: JobStage)

  /** authenticate after its lookup: the member's key and whether it is the owner, as they were then. */
  datatype Visit = Visit(msg: Msg, key: Bytes, owner: bool)
  datatype Acceptance = Acceptance(msg: Msg, time: int)

  /** The guard, its clock readings, and every message accepted. */
  datatype Gate = Gate(clock: int, checked: int, seen: map<string, int>, visits: set<Visit>, accepted: seq<Acceptance>)

  /** handleProvider before attach: authenticated, then past the ownership check. `owners` remembers who first owned an id. */
  datatype Guest = Guest(project: string, member: string, key: Bytes, selector: string)
  /** A welcomed connection is for the agent of the row that was found; its loop is for the agent it named. */
  datatype Greeted = Greeted(conn: Correlation.Conn, selector: string)

  /** A join that was admitted and not yet answered. */
  datatype Joiner = Joiner(project: string, member: string, nonce: string)

  datatype Doors = Doors(guests: set<Guest>, welcomed: set<Greeted>, joined: set<Joiner>, owners: map<Id, string>, reused: bool)

  /** The frame that dispatch writes. */
  datatype WireFrame = WireFrame(nonce: string, request: Request)

  /** A provider loop: its guard at the start and now, what it has read and replied, and whether it still runs. */
  datatype Loop = Loop(first: map<string, int>, seen: map<string, int>, inbox: seq<HostFrame>, out: seq<Reply>, alive: bool)

  /**
   * One connection: the agent whose loop is at its other end, whether the connection's agent was marked online and
   * offline again, the frames written to it, and the loop that reads them.
   */
  datatype Line = Line(agent: string, marked: bool, cleaned: bool, wire: seq<WireFrame>, loop: Loop)

  /** The provider side: the agents' runtime, and the frames that were signed with members' keys, by loops or otherwise. */
  datatype Floor = Floor(runtime: Runtime, lines: seq<Line>, frames: set<Frame>, forged: set<Frame>)

  /** A signed ok result. */
  datatype HostReply =
    | AskReply(call: nat, replyTo: string, payload: Payload)
    | OpReply(job: nat, replyTo: string)
    | IdentityReply(project: string, replyTo: string)
    | JoinReply(project: string, replyTo: string)

  /** `hosting` holds the Projects whose identity this device has; `deleted` those that were deleted. */
  datatype Host = Host(db: DB, hosting: set<string>, deleted: set<string>, gate: Gate, doors: Doors, bs: Correlation.Sys,
                       calls: seq<Call>, jobs: seq<Job>, callOf: seq<nat>, floor: Floor, replies: set<HostReply>)

  function Start(runtime: Runtime): Host {
    Host(EMPTY, {}, {}, Gate(0, 0, map[], {}, []), Doors({}, {}, {}, map[], false), Correlation.START, [], [], [],
         Floor(runtime, [], {}, {}), {})
  }

  datatype Action =
    | Tick(time: int)
    | Arrive(msg: Msg)
    | Accept(visit: Visit)
    | StoreCall(op: Op)
    | PutProfile(p: string)
    | Withdraw(p: string)
    | Execute(j: nat, op: Op)
    | Decline(j: nat)
    | Inquire(j: nat, ok: bool)
    | ReplyToJob(j: nat)
    | AnswerChallenge(p: string, challenge: string)
    | AnswerJoin(joiner: Joiner)
    | Find(i: nat, agent: string)
    | FindNone(i: nat)
    | Insert(i: nat)
    | ReadIdentity(i: nat)
    | LoseIdentity(i: nat)
    | Dispatch(i: nat, nonce: string)
    | DispatchOffline(i: nat)
    | WriteFrame(t: nat, sent: bool, ok: bool)
    | BrokerAction(action: Correlation.Action)
    | Finish(i: nat)
    | ReplyTo(i: nat)
    | Welcome(guest: Guest, agent: string)
    | Attach(greeted: Greeted, seen: map<string, int>)
    | MarkOnline(c: nat)
    | MarkOffline(c: nat)
    | ServeFrame(c: nat, time: int, verified: bool)
    | Forge(frame: Frame)
    | ReadFrame(c: nat, frame: Frame)

  // ---- Pieces: authentication ----------------------------------------------------------------

  // handleProvider takes connect messages only; handleRPC takes any, and knows no operation for a connect message.
  predicate Routed(m: Msg) {
    KindFits(m) && ((m.verb == POST && m.path == RPC_PATH) || (m.content.Connect? && m.verb == GET && m.path == PROVIDER_PATH))
  }

  function Knock(g: Gate, m: Msg): (Gate, bool) {
    var (seen, ok) := AcceptStep(g.seen, MessageKey(m), g.clock, 2 * SIGNATURE_MAX_AGE);
    (g.(checked := g.clock, seen := seen, accepted := if ok then g.accepted + [Acceptance(m, g.clock)] else g.accepted), ok)
  }

  predicate AskFits(m: Msg) {
    m.content.Ask? && MayAsk(m.content.request, m.project, m.sender)
  }

  /** The guard lets the visit pass. */
  predicate Admits(h: Host, v: Visit) {
    Knock(h.gate, v.msg).1
  }

  // ---- Pieces: operations --------------------------------------------------------------------

  /** `op` is a Store call that the order makes; ids and keys the host generates and rows it picks are free. */
  predicate Carries(job: Job, op: Op, now: int) {
    match job.order
    case InviteCreate(ttl) => job.owner && op.AddInvitationOp? && op.p == job.project && op.expiresAt == now + Invitations.Ttl(ttl)
    case MemberRemove(target) => op == RemoveMemberOp(job.project, job.member, target)
    case AgentRegister(agent, name, manifest) =>
      agent != "" && !IsBlank(name) && op == RegisterAgentOp(job.project, job.member, agent, name, manifest, now)
    case AgentRemove(selector) => op.RemoveAgentOp? && op.p == job.project && op.actor == job.member && op.selector == selector
    case _ => false
  }

  /** The row a removal picks is one that its lookup can return. */
  ghost predicate PicksRow(db: DB, op: Op) {
    op.RemoveAgentOp? ==> Selects(db, op.p, op.selector, op.picked) || forall a :: !Selects(db, op.p, op.selector, a)
  }

  /** The order is refused before any Store call. */
  predicate Improper(job: Job) {
    match job.order
    case InviteCreate(_) => !job.owner
    case AgentRegister(agent, name, _) => agent == "" || IsBlank(name)
    case Unknown => true
    case _ => false
  }

  predicate JobAt(h: Host, j: nat, stage: JobStage) {
    j < |h.jobs| && h.jobs[j].stage == stage
  }

  /** An id that was registered before by somebody else is being registered again. */
  function Record(d: Doors, db: DB, op: Op): Doors {
    if op.RegisterAgentOp? && (op.p, op.agent) !in db.agents && Apply(db, op).1.None? then
      d.(owners := d.owners[(op.p, op.agent) := op.member],
         reused := d.reused || ((op.p, op.agent) in d.owners && d.owners[(op.p, op.agent)] != op.member))
    else d
  }

  // ---- Pieces: asks --------------------------------------------------------------------------

  predicate AtStage(h: Host, i: nat, stage: Stage) {
    i < |h.calls| && h.calls[i].stage == stage
  }

  function CallKey(c: Call): Id {
    (c.request.project, c.request.id)
  }

  function ProviderOf(c: Call): string {
    ProviderKey(c.request.project, c.request.agent)
  }

  /** dispatch has returned to this ask, or found no connection. */
  predicate HasOutcome(h: Host, i: nat) {
    && i < |h.calls|
    && (h.calls[i].stage.Offline?
        || (h.calls[i].stage.Dispatching? && h.calls[i].ticket.Some? && h.calls[i].ticket.value < |h.bs.tickets|
            && h.bs.tickets[h.calls[i].ticket.value].phase.Returned?))
  }

  function OutcomeOf(h: Host, i: nat): Option<Delivery>
    requires HasOutcome(h, i)
  {
    if h.calls[i].stage.Offline? then None else h.bs.tickets[h.calls[i].ticket.value].phase.result
  }

  // ---- Pieces: provider connections ----------------------------------------------------------

  predicate HasLine(h: Host, c: nat) {
    c < |h.floor.lines| && c < |h.bs.conns|
  }

  /** WriteJSON puts the frame on the wire, or part of it, or nothing. */
  function Written(line: Line, sent: bool, t: Correlation.Ticket): Line {
    if sent then line.(wire := line.wire + [WireFrame(t.nonce, t.request)]) else line
  }

  predicate CanRead(line: Line) {
    line.loop.alive && |line.loop.inbox| < |line.wire|
  }

  // The loop reads one Project's host only, so the nonce stands for the guard's key.
  function FrameRead(line: Line, time: int, verified: bool): HostFrame
    requires CanRead(line)
  {
    var f := line.wire[|line.loop.inbox|];
    HostFrame(verified, f.nonce, f.nonce, time, Some(f.request))
  }

  /** One turn of the provider loop: the frame is answered, or ends the loop. */
  function Turn(loop: Loop, f: HostFrame, agent: string, runtime: Runtime): Loop {
    if Good(loop.seen, f, 2 * SIGNATURE_MAX_AGE) then
      loop.(seen := AcceptStep(loop.seen, f.key, f.time, 2 * SIGNATURE_MAX_AGE).0, inbox := loop.inbox + [f],
            out := loop.out + [Turned(f, agent, runtime)])
    else loop.(inbox := loop.inbox + [f], alive := false)
  }

  function SignedReply(c: Correlation.Conn, r: Reply, time: int): Frame {
    Frame(c.project, c.member, c.key, WS, PROVIDER_PATH, r.replyTo, time, r.payload)
  }

  function Served(h: Host, c: nat, time: int, verified: bool): Floor
    requires HasLine(h, c) && CanRead(h.floor.lines[c])
  {
    var (line, conn) := (h.floor.lines[c], h.bs.conns[c]);
    var loop := Turn(line.loop, FrameRead(line, time, verified), line.agent, h.floor.runtime);
    h.floor.(lines := h.floor.lines[c := line.(loop := loop)],
             frames := if |loop.out| > |line.loop.out| then h.floor.frames + {SignedReply(conn, loop.out[|line.loop.out|], time)}
                       else h.floor.frames)
  }

  // ---- Steps: what a step calls --------------------------------------------------------------

  function MarkOp(h: Host, c: nat, online: bool): Op
    requires HasLine(h, c)
  {
    SetAgentOnlineOp(h.bs.conns[c].project, h.bs.conns[c].agent, h.bs.conns[c].member, online, h.gate.clock)
  }

  /** The Store call that a step makes. */
  function OpOf(h: Host, a: Action): Option<Op> {
    match a
    case StoreCall(op) => Some(op)
    case Execute(_, op) => Some(op)
    case Insert(i) => if i < |h.calls| then Some(CreateRequestOp(h.calls[i].request)) else None
    case Finish(i) =>
      if HasOutcome(h, i)
      then Some(UpdateRequestOp(h.calls[i].request.project, h.calls[i].request.id, FinalStatus(OutcomeOf(h, i)), h.gate.clock)) else None
    case MarkOnline(c) => if HasLine(h, c) then Some(MarkOp(h, c, true)) else None
    case MarkOffline(c) => if HasLine(h, c) then Some(MarkOp(h, c, false)) else None
    case _ => None
  }

  /** The critical section of the broker, or the move between two of them, that a step makes. */
  function BrokerOf(h: Host, a: Action): Option<Correlation.Action> {
    match a
    case Dispatch(i, nonce) => if i < |h.calls| then Some(Correlation.Register(h.calls[i].request, nonce)) else None
    case WriteFrame(t, sent, ok) => Some(Correlation.Write(t, sent, ok))
    case BrokerAction(action) => Some(action)
    case Attach(greeted, _) => Some(Correlation.Connect(greeted.conn))
    case ReadFrame(c, frame) => Some(Correlation.Receive(c, frame))
    case _ => None
  }

  // Of the broker's critical sections, those that no other action contains.
  predicate Internal(h: Host, a: Correlation.Action) {
    match a
    case Disconnect(c) => c < |h.floor.lines| && h.floor.lines[c].marked
    case Timeout(_) => true
    case Take(_) => true
    case Unregister(_) => true
    case Send(_) => true
    case _ => false
  }

  predicate Callable(h: Host, op: Op) {
    match op
    case CreateProjectOp(p, _, _, _, _) => Admissible(op) && p !in h.deleted        // Project ids are never reused
    case DeleteProjectOp(p) => p in h.db.projects && p !in h.hosting                // the profile is removed first
    case ConsumeInvitationOp(join, now) => join.request.verb == POST && join.request.path == JOIN_PATH && now == h.gate.clock
    case _ => false
  }

  // ---- Steps: when ---------------------------------------------------------------------------

  ghost predicate Ready(h: Host, a: Action) {
    match a
    case Tick(time) => h.gate.clock <= time
    case Arrive(m) => (m.project, m.sender) in h.db.members && Routed(m)
    case Accept(v) => v in h.gate.visits && VerifyMsg(v.msg, v.key, h.gate.clock).None?
    case StoreCall(op) => Callable(h, op)
    case PutProfile(p) => p in h.db.projects
    case Withdraw(_) => true
    case Execute(j, op) => JobAt(h, j, Taken) && Carries(h.jobs[j], op, h.gate.clock) && PicksRow(h.db, op)
    case Decline(j) => JobAt(h, j, Taken) && Improper(h.jobs[j])
    case Inquire(j, _) => JobAt(h, j, Taken) && h.jobs[j].order.Inquiry?
    case ReplyToJob(j) =>
      j < |h.jobs| && h.jobs[j].stage.Done? && h.jobs[j].ask < |h.gate.accepted| && h.jobs[j].project in h.hosting
    case AnswerChallenge(p, challenge) => p in h.hosting && challenge != ""
    case AnswerJoin(joiner) => joiner in h.doors.joined && (joiner.project, joiner.member) in h.db.members && joiner.project in h.hosting
    case Find(i, agent) => AtStage(h, i, Arrived) && Selects(h.db, h.calls[i].request.project, h.calls[i].request.agent, agent)
    case FindNone(i) => AtStage(h, i, Arrived) && forall a :: !Selects(h.db, h.calls[i].request.project, h.calls[i].request.agent, a)
    case Insert(i) => AtStage(h, i, Found)
    case ReadIdentity(i) => AtStage(h, i, Inserted) && h.calls[i].request.project in h.hosting
    case LoseIdentity(i) => AtStage(h, i, Inserted)
    case Dispatch(i, nonce) => AtStage(h, i, Identified)
    case DispatchOffline(i) => AtStage(h, i, Identified) && ProviderOf(h.calls[i]) !in h.bs.core.providers
    case WriteFrame(t, _, _) => t < |h.bs.tickets| && HasLine(h, h.bs.tickets[t].conn)
    case BrokerAction(action) => Internal(h, action)
    case Finish(i) => HasOutcome(h, i)
    case ReplyTo(i) =>
      i < |h.calls| && h.calls[i].stage.Closed? && h.calls[i].ask < |h.gate.accepted| && h.calls[i].request.project in h.hosting
    case Welcome(guest, agent) =>
      guest in h.doors.guests && Selects(h.db, guest.project, guest.selector, agent)
      && h.db.agents[(guest.project, agent)].owner == guest.member
    case Attach(greeted, _) => greeted in h.doors.welcomed
    case MarkOnline(c) => HasLine(h, c) && !h.floor.lines[c].marked
    case MarkOffline(c) => HasLine(h, c) && !h.bs.conns[c].open && !h.floor.lines[c].cleaned
    case ServeFrame(c, _, _) => HasLine(h, c) && CanRead(h.floor.lines[c])
    case Forge(_) => true
    case ReadFrame(c, frame) =>
      HasLine(h, c) && h.floor.lines[c].marked && frame in h.floor.frames && InWindow(frame.timestamp, h.gate.clock, SIGNATURE_MAX_AGE)
  }

  ghost predicate Enabled(h: Host, a: Action) {
    Ready(h, a) && (BrokerOf(h, a).Some? ==> Correlation.Enabled(h.bs, BrokerOf(h, a).value))
  }

  // ---- Steps: what changes, part by part -----------------------------------------------------

  /** Every change of the tables is a Store call's. */
  function NextTables(h: Host, a: Action): DB {
    if OpOf(h, a).Some? then Apply(h.db, OpOf(h, a).value).0 else h.db
  }

  function NextHosting(h: Host, a: Action): set<string> {
    match a
    case PutProfile(p) => h.hosting + {p}
    case Withdraw(p) => h.hosting - {p}
    case _ => h.hosting
  }

  function NextDeleted(h: Host, a: Action): set<string> {
    if a.StoreCall? && a.op.DeleteProjectOp? then h.deleted + {a.op.p} else h.deleted
  }

  ghost function NextGate(h: Host, a: Action): Gate
    requires Ready(h, a)
  {
    match a
    case Tick(time) => h.gate.(clock := time)
    case Arrive(m) =>
      h.gate.(visits := h.gate.visits + {Visit(m, h.db.members[(m.project, m.sender)].key, IsOwner(h.db, m.project, m.sender))})
    case Accept(v) => Knock(h.gate, v.msg).0
    case _ => h.gate
  }

  function NextDoors(h: Host, a: Action): Doors {
    match a
    case Accept(v) =>
      if Admits(h, v) && v.msg.content.Connect? && v.msg.verb == GET
      then h.doors.(guests := h.doors.guests + {Guest(v.msg.project, v.msg.sender, v.key, v.msg.content.agent)}) else h.doors
    case StoreCall(op) =>
      if op.ConsumeInvitationOp? && Apply(h.db, op).1.None?
      then h.doors.(joined := h.doors.joined + {Joiner(op.join.request.project, op.join.memberId, op.join.request.nonce)}) else h.doors
    case Execute(_, op) => Record(h.doors, h.db, op)
    case Welcome(guest, agent) =>
      h.doors.(welcomed := h.doors.welcomed
        + {Greeted(Correlation.Conn(guest.project, agent, guest.member, guest.key, true), guest.selector)})
    case _ => h.doors
  }

  ghost function NextBroker(h: Host, a: Action): Correlation.Sys
    requires Enabled(h, a)
  {
    if BrokerOf(h, a).Some? then Correlation.Next(h.bs, BrokerOf(h, a).value) else h.bs
  }

  /** The ask that a step moves along, and how. */
  ghost function Moved(h: Host, a: Action): Option<(nat, Call)>
    requires Ready(h, a)
  {
    match a
    case Find(i, agent) =>
      var (c, row) := (h.calls[i], h.db.agents[(h.calls[i].request.project, agent)]);
      Some((i, c.(stage := if row.online then Found else Refused, row := agent, rowOwner := row.owner)))
    case FindNone(i) => Some((i, h.calls[i].(stage := Refused)))
    case Insert(i) => Some((i, h.calls[i].(stage := if CreateRequest(h.db, h.calls[i].request).1.None? then Inserted else Refused)))
    case ReadIdentity(i) => Some((i, h.calls[i].(stage := Identified)))
    case LoseIdentity(i) => Some((i, h.calls[i].(stage := NoIdentity)))
    case Dispatch(i, _) => Some((i, h.calls[i].(stage := Dispatching, ticket := Some(|h.bs.tickets|))))
    case DispatchOffline(i) => Some((i, h.calls[i].(stage := Offline)))
    case Finish(i) => Some((i, h.calls[i].(stage := Closed(OutcomeOf(h, i)))))
    case ReplyTo(i) => Some((i, h.calls[i].(stage := Replied(h.calls[i].stage.outcome))))
    case _ => None
  }

  ghost function NextCalls(h: Host, a: Action): seq<Call>
    requires Ready(h, a)
  {
    if a.Accept? then
      if Admits(h, a.visit) && AskFits(a.visit.msg)
      then h.calls + [Call(a.visit.msg.content.request, |h.gate.accepted|, Arrived, None, "", "")] else h.calls
    else
      match Moved(h, a)
      case Some(move) => if move.0 < |h.calls| then h.calls[move.0 := move.1] else h.calls
      case None => h.calls
  }

  function NextCallOf(h: Host, a: Action): seq<nat> {
    if a.Dispatch? then h.callOf + [a.i] else h.callOf
  }

  /** The job that a step moves along, and where to. */
  ghost function Progress(h: Host, a: Action): Option<(nat, JobStage)>
    requires Ready(h, a)
  {
    match a
    case Execute(j, op) => Some((j, Done(Some(op), Apply(h.db, op).1.None?)))
    case Decline(j) => Some((j, Done(None, false)))
    case Inquire(j, ok) => Some((j, Done(None, ok)))
    case ReplyToJob(j) => Some((j, Told(h.jobs[j].stage.op, h.jobs[j].stage.ok)))
    case _ => None
  }

  ghost function NextJobs(h: Host, a: Action): seq<Job>
    requires Ready(h, a)
  {
    if a.Accept? then
      var m := a.visit.msg;
      if Admits(h, a.visit) && m.content.Perform?
      then h.jobs + [Job(m.project, m.sender, a.visit.owner, m.content.order, |h.gate.accepted|, Taken)] else h.jobs
    else
      match Progress(h, a)
      case Some(progress) =>
        if progress.0 < |h.jobs| then h.jobs[progress.0 := h.jobs[progress.0].(stage := progress.1)] else h.jobs
      case None => h.jobs
  }

  ghost function NextFloor(h: Host, a: Action): Floor
    requires Ready(h, a)
  {
    var floor := h.floor;
    match a
    case WriteFrame(t, sent, _) =>
      var c := h.bs.tickets[t].conn;
      floor.(lines := floor.lines[c := Written(floor.lines[c], sent, h.bs.tickets[t])])
    case Attach(greeted, seen) => floor.(lines := floor.lines + [Line(greeted.selector, false, false, [], Loop(seen, seen, [], [], true))])
    case MarkOnline(c) => floor.(lines := floor.lines[c := floor.lines[c].(marked := true)])
    case MarkOffline(c) => floor.(lines := floor.lines[c := floor.lines[c].(cleaned := true)])
    case ServeFrame(c, time, verified) => Served(h, c, time, verified)
    case Forge(frame) => floor.(frames := floor.frames + {frame}, forged := floor.forged + {frame})
    case _ => floor
  }

  ghost function NextReplies(h: Host, a: Action): set<HostReply>
    requires Ready(h, a)
  {
    match a
    case ReplyTo(i) =>
      var c := h.calls[i];
      if c.stage.outcome.Some? then h.replies + {AskReply(i, h.gate.accepted[c.ask].msg.nonce, c.stage.outcome.value.payload)} else h.replies
    case ReplyToJob(j) =>
      var job := h.jobs[j];
      if job.stage.ok then h.replies + {OpReply(j, h.gate.accepted[job.ask].msg.nonce)} else h.replies
    case AnswerChallenge(p, challenge) => h.replies + {IdentityReply(p, challenge)}
    case AnswerJoin(joiner) => h.replies + {JoinReply(joiner.project, joiner.nonce)}
    case _ => h.replies
  }

  ghost function Next(h: Host, a: Action): Host
    requires Enabled(h, a)
  {
    Host(NextTables(h, a), NextHosting(h, a), NextDeleted(h, a), NextGate(h, a), NextDoors(h, a), NextBroker(h, a), NextCalls(h, a),
         NextJobs(h, a), NextCallOf(h, a), NextFloor(h, a), NextReplies(h, a))
  }

  /** The state after a run; an action that is not enabled does not happen. */
  ghost function After(runtime: Runtime, run: seq<Action>): Host {
    if run == [] then Start(runtime) else
      var (h, a) := (After(runtime, run[..|run| - 1]), run[|run| - 1]);
      if Enabled(h, a) then Next(h, a) else h
  }
}
