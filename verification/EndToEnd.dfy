/** The requester's search composed with the host: what a successful call means. */
module EndToEnd {
  import opened Base
  import opened Server
  import opened Broker
  import opened Provider
  import opened Host
  import opened HostInvariants
  import opened HostTheorems
  import opened Client
  import opened Responses
  import Signing
  import Tables
  import Invitations

  // ---- What the host signs -------------------------------------------------------------------

  /** Payloads that parse to an ok result. */
  function Oks(parse: Parser): Bytes -> bool {
    b => parse(b).Some? && parse(b).value.ok
  }

  /** The kind of a signed reply: the message's, or that of its handler, and ".response". */
  function KindOfReply(h: Host, r: HostReply): string {
    match r
    case AskReply(_, _, _) => "request.ask.response"
    case OpReply(j, _) =>
      if j < |h.jobs| && h.jobs[j].ask < |h.gate.accepted| then h.gate.accepted[h.jobs[j].ask].msg.kind + DOT_RESPONSE else ""
    case IdentityReply(_, _) => "identity.response"
    case JoinReply(_, _) => "join.response"
  }

  /** The Project that a reply is signed for. */
  function ProjectOfReply(h: Host, r: HostReply): string {
    match r
    case AskReply(i, _, _) => if i < |h.calls| then h.calls[i].request.project else ""
    case OpReply(j, _) => if j < |h.jobs| then h.jobs[j].project else ""
    case IdentityReply(p, _) => p
    case JoinReply(p, _) => p
  }

  predicate OnRoute(s: Signing.SignedMessage, verb: string, path: string) {
    s.verb == verb && s.path == path
  }

  /** `s` is the signed form of reply `r`. */
  predicate SignedFor(h: Host, s: Signing.SignedMessage, r: HostReply, parse: Parser) {
    && s.replyTo == r.replyTo && s.project == ProjectOfReply(h, r) && s.kind == KindOfReply(h, r)
    && match r
       case AskReply(_, _, payload) =>
         OnRoute(s, POST, RPC_PATH) && parse(s.payload).Some? && parse(s.payload).value.data == Some(payload)
       case OpReply(_, _) => OnRoute(s, POST, RPC_PATH)
       case IdentityReply(_, _) => OnRoute(s, GET, IDENTITY_PATH)
       case JoinReply(_, _) => OnRoute(s, POST, JOIN_PATH)
  }

  /** What the host fills in by itself is newline-free and there. */
  predicate HostFields(s: Signing.SignedMessage) {
    && Lacks(NEWLINE, s.project) && Lacks(NEWLINE, s.sender) && Lacks(NEWLINE, s.nonce)
    && s.project != "" && s.sender != "" && s.nonce != ""
  }

  /**
   * `signed` is everything that was signed with the host's key. The ok results in it are the signed forms of its replies: to asks and
   * other operations, to identity challenges and to joins; each has a nonce of its own. Nothing is said of the rest.
   */
  ghost predicate HostSigns(h: Host, signed: set<Signing.SignedMessage>, parse: Parser) {
    && (forall s :: s in signed && Oks(parse)(s.payload) ==> HostFields(s) && exists r :: r in h.replies && SignedFor(h, s, r, parse))
    && (forall r :: r in h.replies ==> exists s :: s in signed && Oks(parse)(s.payload) && SignedFor(h, s, r, parse))
    && (forall s, t :: s in signed && t in signed && Oks(parse)(s.payload) && Oks(parse)(t.payload) && s.nonce == t.nonce ==> s == t)
  }

  const KINDS: set<string> :=
    {"invitation.create", "member.remove", "agent.register", "agent.remove", "members.list", "agents.list", "agent.get"}

  lemma KindsAreClean(kind: string)
    requires kind in KINDS
    ensures Lacks(NEWLINE, kind + DOT_RESPONSE)
  {
  }

  lemma OkOrderHasKind(m: Msg, job: Job)
    requires Routed(m) && m.content == Perform(job.order) && JobHonest(job) && job.stage.Told? && job.stage.ok
    ensures m.kind in KINDS
  {
  }

  lemma MadeReplyKindIsClean(h: Host, r: HostReply)
    requires RepliesSound(h.replies, h.calls, h.jobs, h.gate.accepted) && JobsSound(h.jobs, h.gate.accepted) && JobsHonest(h.jobs)
    requires AllRouted(h.gate) && r in h.replies
    ensures Lacks(NEWLINE, KindOfReply(h, r))
  {
    hide Routed, JobHonest;
    if r.OpReply? {
      OkOrderHasKind(h.gate.accepted[h.jobs[r.job].ask].msg, h.jobs[r.job]);
      KindsAreClean(h.gate.accepted[h.jobs[r.job].ask].msg.kind);
    }
  }

  /** The kind of a reply that was made is newline-free. */
  lemma ReplyKindIsClean(runtime: Runtime, run: seq<Action>, r: HostReply)
    requires r in After(runtime, run).replies
    ensures Lacks(NEWLINE, KindOfReply(After(runtime, run), r))
  {
    hide After, RepliesSound, JobsSound, JobsHonest, AllRouted, Lacks, KindOfReply;
    RunInv(runtime, run);
    MadeReplyKindIsClean(After(runtime, run), r);
  }

  lemma RoutesArePlain()
    ensures !EndsAsResponse(POST) && !EndsAsResponse(GET) && !EndsAsResponse(RPC_PATH) && !EndsAsResponse(JOIN_PATH) && !EndsAsResponse(IDENTITY_PATH)
    ensures Lacks(NEWLINE, POST) && Lacks(NEWLINE, GET)
    ensures Lacks(NEWLINE, RPC_PATH) && Lacks(NEWLINE, JOIN_PATH) && Lacks(NEWLINE, IDENTITY_PATH)
    ensures RPC_PATH != JOIN_PATH && POST != GET
  {
    assert |IDENTITY_PATH| == 12 && IDENTITY_PATH[3..][8] == 'y' && DOT_RESPONSE[8] == 'e';
    assert RPC_PATH[4] != JOIN_PATH[4] && POST[0] != GET[0];
  }

  lemma SignedReplyIsClean(h: Host, s: Signing.SignedMessage, r: HostReply, parse: Parser)
    requires SignedFor(h, s, r, parse) && HostFields(s) && Lacks(NEWLINE, KindOfReply(h, r))
    ensures CleanButReplyTo(s) && PlainRoute(s)
    ensures OnRoute(s, POST, RPC_PATH) <==> RpcReply(r)
  {
    RoutesArePlain();
    hide EndsAsResponse, Lacks;
  }

  lemma HostSignsCleanly(runtime: Runtime, run: seq<Action>, signed: set<Signing.SignedMessage>, parse: Parser)
    requires HostSigns(After(runtime, run), signed, parse)
    ensures SignsCleanly(signed, Oks(parse))
  {
    hide CleanButReplyTo, PlainRoute, After, SignedFor, HostFields, KindOfReply, Lacks, Oks;
    var h := After(runtime, run);
    forall s | s in signed && Oks(parse)(s.payload) ensures CleanButReplyTo(s) && PlainRoute(s) {
      var r :| r in h.replies && SignedFor(h, s, r, parse);
      ReplyKindIsClean(runtime, run, r);
      SignedReplyIsClean(h, s, r, parse);
    }
  }

  // ---- Which replies can be taken for another ------------------------------------------------

  function QueryOf(m: Msg): Query {
    Query(m.project, m.kind + DOT_RESPONSE, m.nonce)
  }

  predicate CleanMsg(m: Msg) {
    Lacks(NEWLINE, m.project) && Lacks(NEWLINE, m.kind) && Lacks(NEWLINE, m.nonce)
    && m.project != "" && m.kind != "" && m.nonce != ""
  }

  lemma CleanMsgQuery(m: Msg)
    requires CleanMsg(m)
    ensures CleanQuery(QueryOf(m))
  {
    var kind := m.kind + DOT_RESPONSE;
    assert kind[|kind| - |DOT_RESPONSE|..] == DOT_RESPONSE;
    assert Lacks(NEWLINE, DOT_RESPONSE);
  }

  /**
   * The reply can be taken for the response to another message: it is an RPC response of that kind and the text it
   * echoes goes on, after a newline, behind that message's nonce; or that text holds the four lines of such a response.
   */
  ghost predicate Misleads(h: Host, r: HostReply, q: Query) {
    && ProjectOfReply(h, r) == q.project
    && ((RpcReply(r) && KindOfReply(h, r) == q.kind && Signing.Split(NEWLINE, r.replyTo)[0] == q.nonce && r.replyTo != q.nonce)
        || Echoed(r.replyTo, q))
  }

  /** A challenge, a join's nonce or a message's nonce without a newline misleads nobody. */
  lemma NewlineFreeMisleadsNobody(h: Host, r: HostReply, q: Query)
    requires Lacks(NEWLINE, r.replyTo)
    ensures !Misleads(h, r, q)
  {
    Signing.SplitClean(NEWLINE, r.replyTo);
    hide Signing.Split;
  }

  lemma AstrayMisleads(h: Host, s: Signing.SignedMessage, r: HostReply, parse: Parser, q: Query)
    requires SignedFor(h, s, r, parse)
    ensures Astray(s, q) <==> Misleads(h, r, q)
  {
    RoutesArePlain();
    hide Signing.Split, EndsAsResponse, Lacks, Echoed;
  }

  /**
   * Exactly when the client's checks are enough: every ok result it takes for the response to its message is the host's
   * own response to it, if and only if none of the replies that the host has signed, to whatever request, misleads.
   */
  lemma GenuineExactly(runtime: Runtime, run: seq<Action>, signed: set<Signing.SignedMessage>, parse: Parser, q: Query, hostKey: Bytes,
                       enc: Signing.Encoders)
    requires HostSigns(After(runtime, run), signed, parse) && Collisionless(enc) && CleanQuery(q) && |hostKey| == KEY_SIZE
    ensures AllGenuine(signed, Oks(parse), q, hostKey, enc)
       <==> forall r :: r in After(runtime, run).replies ==> !Misleads(After(runtime, run), r, q)
  {
    hide After, SignedFor, Misleads, Astray, AllGenuine, CleanQuery, Collisionless, SignsCleanly, Oks, HostSigns;
    HostSignsCleanly(runtime, run, signed, parse);
    AllGenuineExactly(signed, Oks(parse), q, hostKey, enc);
    NoneAstray(After(runtime, run), signed, parse, q);
  }

  lemma NoneAstray(h: Host, signed: set<Signing.SignedMessage>, parse: Parser, q: Query)
    requires HostSigns(h, signed, parse)
    ensures (forall s :: s in signed && Oks(parse)(s.payload) ==> !Astray(s, q)) <==> forall r :: r in h.replies ==> !Misleads(h, r, q)
  {
    forall s, r | s in signed && r in h.replies && SignedFor(h, s, r, parse) ensures Astray(s, q) <==> Misleads(h, r, q) {
      AstrayMisleads(h, s, r, parse, q);
    }
    hide SignedFor, Misleads, Astray, Oks;
  }

  // ---- One search, one operation -------------------------------------------------------------

  /** The setting of one RPC: the message and what its posts brought, in two rounds. */
  datatype RpcCall = RpcCall(m: Msg, round1: seq<Reception>, round2: seq<Reception>, discover: Option<Discovery>, hostKey: Bytes,
                         enc: Signing.Encoders, parse: Parser)

  function Posts(c: RpcCall): seq<Posted> {
    Reads(c.round1, QueryOf(c.m), c.hostKey, c.enc, c.parse) + Reads(c.round2, QueryOf(c.m), c.hostKey, c.enc, c.parse)
  }

  /** What RPC returns. */
  function Outcome(c: RpcCall): Verdict {
    Search(Reads(c.round1, QueryOf(c.m), c.hostKey, c.enc, c.parse), Reads(c.round2, QueryOf(c.m), c.hostKey, c.enc, c.parse),
           c.discover, c.m.project, c.m.kind)
  }

  /** Signatures that verify with the host's key were made with it. */
  ghost predicate NoForgery(c: RpcCall, signed: set<Signing.SignedMessage>) {
    forall x :: x in c.round1 + c.round2 && x.Heard? ==> OnlyHostSigns(signed, x.signature, c.hostKey, c.enc)
  }

  /** The assumptions about keys, digests and the message's own nonce, and that no reply of the host misleads. */
  ghost predicate Sane(runtime: Runtime, run: seq<Action>, c: RpcCall, signed: set<Signing.SignedMessage>) {
    var h := After(runtime, run);
    && HostSigns(h, signed, c.parse) && NoForgery(c, signed) && Collisionless(c.enc) && CleanMsg(c.m) && OwnNonce(h, c.m)
    && forall r :: r in h.replies ==> !Misleads(h, r, QueryOf(c.m))
  }

  /** The response that decided a successful RPC. */
  lemma SuccessWasHeard(c: RpcCall) returns (x: Reception)
    requires Outcome(c).Success?
    ensures x in c.round1 + c.round2 && x.Heard? && Responses.Taken(x.message, x.signature, QueryOf(c.m), c.hostKey, x.at, c.enc)
    ensures Oks(c.parse)(x.message.payload) && Outcome(c) == Success(c.parse(x.message.payload).value.data)
  {
    var q := QueryOf(c.m);
    var (all, heard) := (Posts(c), c.round1 + c.round2);
    var n := FirstDecisive(all);
    x := heard[n];
    assert all[n] == Read(x, q, c.hostKey, c.enc, c.parse);
    hide Read, FirstDecisive, Responses.Taken;
    AcceptedPassed(x, q, c.hostKey, c.enc, c.parse);
  }

  lemma OwnReply(h: Host, s: Signing.SignedMessage, r: HostReply, parse: Parser, q: Query)
    requires SignedFor(h, s, r, parse) && Own(s, q)
    ensures RpcReply(r) && r.replyTo == q.nonce
    ensures r.AskReply? ==> parse(s.payload).Some? && parse(s.payload).value.data == Some(r.payload)
  {
    RoutesArePlain();
    hide EndsAsResponse, Lacks;
  }

  /** It was the signed form of a reply that the host made to this message, and carried that reply's payload. */
  lemma SuccessWasReplied(runtime: Runtime, run: seq<Action>, c: RpcCall, signed: set<Signing.SignedMessage>) returns (r: HostReply)
    requires Sane(runtime, run, c, signed) && Outcome(c).Success?
    ensures r in After(runtime, run).replies && RpcReply(r) && r.replyTo == c.m.nonce
    ensures r.AskReply? ==> Outcome(c) == Success(Some(r.payload))
  {
    var h := After(runtime, run);
    hide After, OwnNonce, Outcome, SignedFor, Misleads, Astray, Oks, Own, Responses.Taken, OnlyHostSigns, CleanMsg, Collisionless;
    var x := SuccessWasHeard(c);
    var q := QueryOf(c.m);
    CleanMsgQuery(c.m);
    HostSignsCleanly(runtime, run, signed, c.parse);
    NoneAstray(h, signed, c.parse, q);
    var s := TakenIsGenuine(signed, Oks(c.parse), x.message, x.signature, q, c.hostKey, x.at, c.enc);
    r :| r in h.replies && SignedFor(h, s, r, c.parse);
    OwnReply(h, s, r, c.parse, q);
  }

  /** The host did what `m` asks for exactly once: one ask, one Store call, or for an inquiry none. */
  ghost predicate DoneOnce(runtime: Runtime, run: seq<Action>, m: Msg) {
    var h := After(runtime, run);
    && TimesTaken(h.gate.accepted, m) == 1
    && match m.content
       case Ask(q) => exists i: nat :: RanAs(h, m, i) && h.calls[i].request == q
       case Perform(order) =>
         (exists j: nat :: WorkedAs(h, m, j) && h.jobs[j].order == order) && Executions(runtime, run, m) == if order.Inquiry? then 0 else 1
       case Connect(_) => false
  }

  lemma ReplyMeansDone(runtime: Runtime, run: seq<Action>, m: Msg, r: HostReply)
    requires OwnNonce(After(runtime, run), m) && r in After(runtime, run).replies && RpcReply(r) && r.replyTo == m.nonce
    ensures DoneOnce(runtime, run, m)
  {
    TakenAtMostOnce(runtime, run, m);
    ExecutedAtMostOnce(runtime, run, m);
    ReplyMeansRanOnce(runtime, run, m, r);
    var h := After(runtime, run);
    match r {
      case AskReply(i, _, _) =>
        hide After, Executions, WorkDone, TimesTaken;
        assert RanAs(h, m, i);
      case OpReply(j, _) =>
        forall i: nat | WorkedAs(h, m, i) ensures i == j {
          WorkedOnce(runtime, run, m, i, j);
        }
        hide After, Executions, TimesTaken;
        assert WorkedAs(h, m, j);
    }
  }

  /** Whatever becomes of the RPC, the host takes its message on at most once, with at most one call and one Store call. */
  lemma RpcRunsAtMostOnce(runtime: Runtime, run: seq<Action>, m: Msg)
    ensures TimesTaken(After(runtime, run).gate.accepted, m) <= 1 && Executions(runtime, run, m) <= 1
    ensures forall i: nat, j: nat :: RanAs(After(runtime, run), m, i) && RanAs(After(runtime, run), m, j) ==> i == j
  {
    TakenAtMostOnce(runtime, run, m);
    ExecutedAtMostOnce(runtime, run, m);
    forall i: nat, j: nat | RanAs(After(runtime, run), m, i) && RanAs(After(runtime, run), m, j) ensures i == j {
      RanOnce(runtime, run, m, i, j);
    }
  }

  /**
   * One RPC signs one message and posts it to whatever endpoints it likes, before and after rediscovery. When it
   * succeeds on what it heard, the host has done its operation exactly once.
   */
  lemma RpcRunsOnce(runtime: Runtime, run: seq<Action>, c: RpcCall, signed: set<Signing.SignedMessage>)
    requires Sane(runtime, run, c, signed) && Outcome(c).Success?
    ensures DoneOnce(runtime, run, c.m)
  {
    var r := SuccessWasReplied(runtime, run, c, signed);
    hide After, Outcome, DoneOnce;
    ReplyMeansDone(runtime, run, c.m, r);
  }

  lemma {:induction false} JobLasts(runtime: Runtime, run: seq<Action>, n: nat, j: nat)
    requires n <= |run| && j < |After(runtime, run[..n]).jobs|
    ensures j < |After(runtime, run).jobs|
    ensures After(runtime, run).jobs[j].(stage := Taken) == After(runtime, run[..n]).jobs[j].(stage := Taken)
    decreases |run|
  {
    hide Next, Enabled;
    if n == |run| {
      assert run[..n] == run;
    } else {
      var before := run[..|run| - 1];
      assert before[..n] == run[..n];
      JobLasts(runtime, before, n, j);
      var (h, a) := (After(runtime, before), run[|run| - 1]);
      if Enabled(h, a) {
        JobsAfter(h, a);
      }
    }
  }

  lemma ExecuteCarries(h: Host, j: nat, op: Tables.Op)
    requires Enabled(h, Execute(j, op))
    ensures j < |h.jobs| && Carries(h.jobs[j], op, h.gate.clock)
  {
  }

  /**
   * The Store call that a successful order made: at step `n`, for its Project and member, as ordered and with that
   * step's clock, and it succeeded.
   */
  lemma OrderSucceeds(runtime: Runtime, run: seq<Action>, c: RpcCall, signed: set<Signing.SignedMessage>, order: Order) returns (n: nat)
    requires Sane(runtime, run, c, signed) && Outcome(c).Success? && c.m.content == Perform(order) && !order.Inquiry?
    ensures n < |run| && run[n].Execute? && run[n].j < |After(runtime, run[..n]).jobs|
    ensures var (h, job) := (After(runtime, run[..n]), After(runtime, run[..n]).jobs[run[n].j]);
      && job.project == c.m.project && job.member == c.m.sender && job.order == order && Tables.Apply(h.db, run[n].op).1.None?
    ensures OrderedAs(c.m, order, After(runtime, run[..n]).jobs[run[n].j].owner, run[n].op, After(runtime, run[..n]).gate.clock)
  {
    var r := SuccessWasReplied(runtime, run, c, signed);
    SaneNonce(runtime, run, c, signed);
    hide Outcome, Sane;
    n := ReplyWasCarried(runtime, run, c.m, order, r);
    ReplyKind(runtime, run, c.m, r);
    CarriedAs(c.m, After(runtime, run[..n]).jobs[run[n].j], run[n].op, After(runtime, run[..n]).gate.clock);
    hide After, Carries, KindFits, TrimSpace, OrderedAs;
  }

  /** The Store call that a message's kind and order stand for, written out. */
  predicate OrderedAs(m: Msg, order: Order, owner: bool, op: Tables.Op, now: int) {
    match op
    case AddInvitationOp(p, _, _, expiresAt) =>
      m.kind == "invitation.create" && order.InviteCreate? && owner && p == m.project && expiresAt == now + Invitations.Ttl(order.ttlSeconds)
    case RemoveMemberOp(p, actor, target) => m.kind == "member.remove" && order == MemberRemove(target) && p == m.project && actor == m.sender
    case RegisterAgentOp(p, member, agent, name, manifest, at) =>
      && m.kind == "agent.register" && order == AgentRegister(agent, name, manifest) && p == m.project && member == m.sender && at == now
      && agent != "" && TrimSpace(name) != ""
    case RemoveAgentOp(p, actor, selector, _) => m.kind == "agent.remove" && order == AgentRemove(selector) && p == m.project && actor == m.sender
    case _ => false
  }

  lemma CarriedAs(m: Msg, job: Job, op: Tables.Op, now: int)
    requires Carries(job, op, now) && job.project == m.project && job.member == m.sender && m.content == Perform(job.order) && KindFits(m)
    ensures OrderedAs(m, job.order, job.owner, op, now)
  {
    KindsExactly(m);
    if job.order.AgentRegister? {
      BlankIsTrimmed(job.order.name);
    }
    hide KindFits, TrimSpace, IsBlank;
  }

  /** The message of a signed reply was routed, so its kind is that of its content. */
  lemma ReplyKind(runtime: Runtime, run: seq<Action>, m: Msg, r: HostReply)
    requires OwnNonce(After(runtime, run), m) && r in After(runtime, run).replies && RpcReply(r) && r.replyTo == m.nonce
    ensures KindFits(m)
  {
    ReplyMeansRanOnce(runtime, run, m, r);
    RunInv(runtime, run);
    var h := After(runtime, run);
    hide After, OwnNonce;
    assert AllRouted(h.gate);
    hide Inv, KindFits;
  }

  lemma ReplyWasCarried(runtime: Runtime, run: seq<Action>, m: Msg, order: Order, r: HostReply) returns (n: nat)
    requires OwnNonce(After(runtime, run), m) && r in After(runtime, run).replies && RpcReply(r) && r.replyTo == m.nonce
    requires m.content == Perform(order) && !order.Inquiry?
    ensures n < |run| && run[n].Execute? && run[n].j < |After(runtime, run[..n]).jobs|
    ensures var (h, job) := (After(runtime, run[..n]), After(runtime, run[..n]).jobs[run[n].j]);
      && job.project == m.project && job.member == m.sender && job.order == order
      && Carries(job, run[n].op, h.gate.clock) && Tables.Apply(h.db, run[n].op).1.None?
  {
    hide After, Carries, Next, Enabled, OwnNonce;
    ReplyMeansRanOnce(runtime, run, m, r);
    n := ExecutedWhen(runtime, run, r.job);
    ExecuteCarries(After(runtime, run[..n]), r.job, run[n].op);
    JobLasts(runtime, run, n, r.job);
    JobIsTheMessages(runtime, run, m, r.job);
  }

  lemma JobIsTheMessages(runtime: Runtime, run: seq<Action>, m: Msg, j: nat)
    requires WorkedAs(After(runtime, run), m, j)
    ensures var job := After(runtime, run).jobs[j]; job.project == m.project && job.member == m.sender && m.content == Perform(job.order)
  {
    RunInv(runtime, run);
    var h := After(runtime, run);
    hide After;
    assert JobsSound(h.jobs, h.gate.accepted);
    hide Inv;
  }

  // ---- An ask --------------------------------------------------------------------------------

  /** What the requester's ask makes of the payload it was sent. */
  datatype AskOutcome = Answered(response: Response) | Declined(failure: Failure) | Empty

  function AskResult(p: Payload): AskOutcome {
    if p.failure.Some? then Declined(p.failure.value)
    else if p.response.None? then Empty
    else Answered(p.response.value)
  }

  lemma SaneNonce(runtime: Runtime, run: seq<Action>, c: RpcCall, signed: set<Signing.SignedMessage>)
    requires Sane(runtime, run, c, signed)
    ensures OwnNonce(After(runtime, run), c.m)
  {
  }

  lemma DoneWasTaken(runtime: Runtime, run: seq<Action>, m: Msg)
    requires DoneOnce(runtime, run, m)
    ensures TimesTaken(After(runtime, run).gate.accepted, m) == 1
  {
  }

  /**
   * An ask whose agent's connection ended while it waited: the requester is told agent_offline for this very request,
   * and the row was already `failed` when that was signed.
   */
  lemma AskDeclinedOffline(runtime: Runtime, run: seq<Action>, c: RpcCall, signed: set<Signing.SignedMessage>, q: Request, p: Payload, i: nat)
    returns (n: nat)
    requires Sane(runtime, run, c, signed) && c.m.content == Ask(q) && Outcome(c) == Success(Some(p)) && RanAs(After(runtime, run), c.m, i)
    requires var (h, ticket) := (After(runtime, run), After(runtime, run).calls[i].ticket);
      && ticket.Some? && ticket.value < |h.bs.tickets|
      && (var phase := h.bs.tickets[ticket.value].phase; phase.Returned? && phase.result.Some? && phase.result.value.origin.FromDetach?)
    ensures AskResult(p) == Declined(Failure(q.id, "agent_offline"))
    ensures n < |run| && run[n] == Action.ReplyTo(i) && Enabled(After(runtime, run[..n]), run[n])
    ensures var requests := After(runtime, run[..n]).db.requests;
      (q.project, q.id) in requests && requests[(q.project, q.id)].status == Tables.Failed
  {
    hide Outcome, After, Next, Enabled, OwnNonce, Sane, RanAs;
    var r := SuccessWasReplied(runtime, run, c, signed);
    SaneNonce(runtime, run, c, signed);
    ReplyMeansRanOnce(runtime, run, c.m, r);
    RanOnce(runtime, run, c.m, i, r.call);
    var t;
    t, n := OfflineIsReported(runtime, run, c.m, q, r);
  }

  /**
   * End to end, from the responses heard to the runtime's answer: when the ask of `q` succeeds, the response that was
   * read names `q` and is exactly what the runtime computes from that same `q` for the agent whose loop is at the
   * connection attached for `q.agent`; the host ran the ask exactly once, and the request row was already
   * `succeeded` when the result was signed.
   */
  lemma AskSucceeds(runtime: Runtime, run: seq<Action>, c: RpcCall, signed: set<Signing.SignedMessage>, q: Request, p: Payload)
    returns (t: nat, n: nat)
    requires Sane(runtime, run, c, signed) && c.m.content == Ask(q) && Unforged(After(runtime, run), q)
    requires Outcome(c) == Success(Some(p)) && AskResult(p).Answered?
    ensures var h := After(runtime, run);
      && t < |h.bs.tickets| && h.bs.tickets[t].request == q && h.bs.tickets[t].conn < |h.bs.conns| && h.bs.tickets[t].conn < |h.floor.lines|
      && h.bs.conns[h.bs.tickets[t].conn].project == q.project && h.bs.conns[h.bs.tickets[t].conn].agent == q.agent
      && AskResult(p).response.requestId == q.id && runtime(LoopOf(h, t), q) == Handled.Answer(AskResult(p).response.answer)
      && TimesTaken(h.gate.accepted, c.m) == 1 && q.requester == c.m.sender && q.project == c.m.project
    ensures n < |run| && run[n].ReplyTo? && Enabled(After(runtime, run[..n]), run[n])
    ensures var requests := After(runtime, run[..n]).db.requests;
      (q.project, q.id) in requests && requests[(q.project, q.id)].status == Tables.Succeeded
  {
    hide Outcome, After, Next, Enabled, Unforged, OwnNonce, LoopOf, TimesTaken, Sane, DoneOnce, RanAs;
    var r := SuccessWasReplied(runtime, run, c, signed);
    SaneNonce(runtime, run, c, signed);
    ReplyMeansDone(runtime, run, c.m, r);
    DoneWasTaken(runtime, run, c.m);
    ReplyMeansRanOnce(runtime, run, c.m, r);
    ReplyIsTheSenders(runtime, run, c.m, q, r);
    t, n := AnswerBelongsToRequest(runtime, run, c.m, q, r);
  }
}
