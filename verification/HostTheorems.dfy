/** What the host guarantees in every run. */
module HostTheorems {
  import opened Base
  import opened Signing
  import opened Tables
  import opened Replay
  import opened Server
  import opened Broker
  import opened Provider
  import opened Host
  import opened HostInvariants
  import Correlation
  import StoreInvariants
  import Invitations

  lemma Extend(runtime: Runtime, run: seq<Action>, a: Action)
    requires Enabled(After(runtime, run), a)
    ensures After(runtime, run + [a]) == Next(After(runtime, run), a)
  {
    assert (run + [a])[..|run|] == run;
  }

  // ---- The host is made of the store and the broker ------------------------------------------

  /** The Store calls of a run, in order. */
  ghost function StoreRun(runtime: Runtime, run: seq<Action>): seq<Op> {
    if run == [] then [] else
      var (h, a) := (After(runtime, run[..|run| - 1]), run[|run| - 1]);
      StoreRun(runtime, run[..|run| - 1]) + if Enabled(h, a) && OpOf(h, a).Some? then [OpOf(h, a).value] else []
  }

  /** The broker's critical sections of a run, in order. */
  ghost function BrokerRun(runtime: Runtime, run: seq<Action>): seq<Correlation.Action> {
    if run == [] then [] else
      var (h, a) := (After(runtime, run[..|run| - 1]), run[|run| - 1]);
      BrokerRun(runtime, run[..|run| - 1]) + if Enabled(h, a) && BrokerOf(h, a).Some? then [BrokerOf(h, a).value] else []
  }

  lemma OneOpMore(ops: seq<Op>, op: Op)
    requires StoreInvariants.AllAdmissible(ops) && StoreInvariants.NoRevival(ops)
    requires Admissible(op) && (op.CreateProjectOp? ==> !StoreInvariants.Deleted(ops, op.p))
    ensures StoreInvariants.AllAdmissible(ops + [op]) && StoreInvariants.NoRevival(ops + [op])
    ensures Run(ops + [op]) == Apply(Run(ops), op).0
    ensures forall p :: StoreInvariants.Deleted(ops + [op], p) <==> StoreInvariants.Deleted(ops, p) || op == DeleteProjectOp(p)
  {
    var more := ops + [op];
    assert more[..|ops|] == ops && more[|ops|] == op;
    assert forall i :: 0 <= i < |ops| ==> more[..i] == ops[..i] && more[i] == ops[i];
    hide Apply, Admissible;
  }

  /** What is proved of every sequence of Store calls holds of the host's tables. */
  lemma {:induction false} HostTablesAreAStoreRun(runtime: Runtime, run: seq<Action>)
    ensures StoreInvariants.AllAdmissible(StoreRun(runtime, run)) && StoreInvariants.NoRevival(StoreRun(runtime, run))
    ensures After(runtime, run).db == Run(StoreRun(runtime, run))
    ensures forall p :: p in After(runtime, run).deleted <==> StoreInvariants.Deleted(StoreRun(runtime, run), p)
  {
    hide Next, Enabled, OpOf, Apply, Admissible, Run;
    if run == [] {
      NoCalls(runtime);
    } else {
      var before := run[..|run| - 1];
      var (h, a) := (After(runtime, before), run[|run| - 1]);
      HostTablesAreAStoreRun(runtime, before);
      assert StoreRun(runtime, before) + [] == StoreRun(runtime, before);
      if Enabled(h, a) {
        StoreMoves(h, a);
        DeletedAfter(h, a);
        if OpOf(h, a).Some? {
          OneOpMore(StoreRun(runtime, before), OpOf(h, a).value);
          DeleteOp(OpOf(h, a).value);
        }
      }
    }
    hide StoreInvariants.Deleted, StoreInvariants.NoRevival, StoreInvariants.AllAdmissible;
  }

  lemma NoCalls(runtime: Runtime)
    ensures Run([]) == Start(runtime).db
  {
  }

  lemma DeleteOp(op: Op)
    ensures forall p :: op == DeleteProjectOp(p) <==> op.DeleteProjectOp? && op.p == p
  {
  }

  /** What is proved of every interleaving at the broker holds of the host's broker. */
  lemma {:induction false} HostBrokerIsABrokerRun(runtime: Runtime, run: seq<Action>)
    ensures After(runtime, run).bs == Correlation.After(BrokerRun(runtime, run))
  {
    hide Next, Enabled, BrokerOf, Correlation.Next, Correlation.Enabled;
    if run == [] {
    } else {
      var before := run[..|run| - 1];
      var (h, a) := (After(runtime, before), run[|run| - 1]);
      HostBrokerIsABrokerRun(runtime, before);
      assert BrokerRun(runtime, before) + [] == BrokerRun(runtime, before);
      if Enabled(h, a) {
        BrokerMoves(h, a);
        if BrokerOf(h, a).Some? {
          var actions := BrokerRun(runtime, before) + [BrokerOf(h, a).value];
          assert actions[..|actions| - 1] == BrokerRun(runtime, before);
        }
      }
    }
  }

  /** In every run of the host an invitation admits at most one member. */
  lemma InvitationAdmitsOnce(runtime: Runtime, run: seq<Action>, k: Id)
    ensures StoreInvariants.Admissions(StoreRun(runtime, run), k) <= 1
  {
    HostTablesAreAStoreRun(runtime, run);
    hide StoreRun;
    StoreInvariants.SingleUse(StoreRun(runtime, run), k);
  }

  /** Where in the run Store call number `i` was made. */
  lemma {:induction false} CallAt(runtime: Runtime, run: seq<Action>, i: nat) returns (n: nat)
    requires i < |StoreRun(runtime, run)|
    ensures n < |run| && Enabled(After(runtime, run[..n]), run[n])
    ensures OpOf(After(runtime, run[..n]), run[n]) == Some(StoreRun(runtime, run)[i])
  {
    hide Next, Enabled, OpOf, After;
    var before := run[..|run| - 1];
    if i < |StoreRun(runtime, before)| {
      n := CallAt(runtime, before, i);
      assert before[..n] == run[..n];
    } else {
      n := |run| - 1;
    }
  }

  lemma InvitesByOrder(h: Host, a: Action)
    requires Enabled(h, a) && OpOf(h, a).Some? && OpOf(h, a).value.AddInvitationOp?
    ensures a.Execute? && a.op == OpOf(h, a).value && a.j < |h.jobs| && h.jobs[a.j].order.InviteCreate? && h.jobs[a.j].owner
    ensures a.op.p == h.jobs[a.j].project && a.op.expiresAt == h.gate.clock + Invitations.Ttl(h.jobs[a.j].order.ttlSeconds)
  {
    hide Enabled, Selects, VerifyMsg, Apply;
    IsReady(h, a);
  }

  /**
   * In every run of the host whoever is admitted is admitted with an invitation that an owner ordered, and less than an
   * hour after the clock at which the host made it.
   */
  lemma AdmittedInTime(runtime: Runtime, run: seq<Action>, join: Join, now: int) returns (n: nat)
    requires ConsumeInvitation(After(runtime, run).db, join, now).1.None?
    ensures n < |run| && run[n].Execute? && run[n].j < |After(runtime, run[..n]).jobs|
    ensures var (h, op) := (After(runtime, run[..n]), run[n].op);
      && op.AddInvitationOp? && op.p == join.request.project && op.inv == join.request.inviteId && op.key == join.signer
      && h.jobs[run[n].j].owner && h.jobs[run[n].j].order.InviteCreate?
      && now < op.expiresAt == h.gate.clock + Invitations.Ttl(h.jobs[run[n].j].order.ttlSeconds) <= h.gate.clock + HOUR
  {
    HostTablesAreAStoreRun(runtime, run);
    hide After, StoreRun, Enabled, ConsumeInvitation, OpOf;
    var i := StoreInvariants.AdmittedBeforeExpiry(StoreRun(runtime, run), join, now);
    n := CallAt(runtime, run, i);
    InvitesByOrder(After(runtime, run[..n]), run[n]);
    Invitations.TtlAtMostOneHour(After(runtime, run[..n]).jobs[run[n].j].order.ttlSeconds);
  }

  lemma JoinsByRoute(h: Host, op: Op)
    requires Enabled(h, StoreCall(op)) && op.ConsumeInvitationOp?
    ensures op.join.request.verb == "POST" && op.join.request.path == "/v2/join" && op.now == h.gate.clock
  {
  }

  /**
   * In every run of the host whoever is admitted posted a join that was filled in, on the join route, signed with the
   * key of an invitation that was unused and unexpired, and at most two minutes off the host's clock.
   */
  lemma AdmissionWasFresh(runtime: Runtime, run: seq<Action>, n: nat)
    requires n < |run| && run[n].StoreCall? && run[n].op.ConsumeInvitationOp? && Enabled(After(runtime, run[..n]), run[n])
    requires Apply(After(runtime, run[..n]).db, run[n].op).1 == None
    ensures var (h, join) := (After(runtime, run[..n]), run[n].op.join);
      var j := join.request;
      && j.verb == "POST" && j.path == "/v2/join" && run[n].op.now == h.gate.clock
      && -120_000_000_000 <= h.gate.clock - j.timestamp <= 120_000_000_000
      && StoreInvariants.JoinFilled(j) && |j.memberKey| == 32
      && StoreInvariants.InviteUsable(h.db, j.project, j.inviteId, h.gate.clock) && join.signer == h.db.invitations[(j.project, j.inviteId)].key
      && !StoreInvariants.SeatTaken(h.db, j.project, join.memberId, j.memberKey)
  {
    var h := After(runtime, run[..n]);
    hide After;
    JoinsByRoute(h, run[n].op);
    StoreInvariants.ConsumeExactly(h.db, run[n].op.join, run[n].op.now);
    hide Enabled, ConsumeInvitation, StoreInvariants.SeatTaken, StoreInvariants.InviteUsable, StoreInvariants.JoinFilled;
  }

  /** dispatch finds a connection, and its nonce is new. */
  ghost predicate CanDispatch(h: Host, i: nat, nonce: string) {
    && AtStage(h, i, Identified) && ProviderOf(h.calls[i]) in h.bs.core.providers
    && nonce != "" && forall t :: 0 <= t < |h.bs.tickets| ==> h.bs.tickets[t].nonce != nonce
  }

  lemma AttachNotBlocked(h: Host, greeted: Greeted, seen: map<string, int>)
    requires IdsClean(h) && greeted in h.doors.welcomed
    ensures Enabled(h, Attach(greeted, seen))
  {
  }

  lemma DispatchNotBlocked(h: Host, i: nat, nonce: string)
    requires IdsClean(h) && CanDispatch(h, i, nonce)
    ensures Enabled(h, Dispatch(i, nonce))
  {
  }

  lemma WriteNotBlocked(h: Host, t: nat, sent: bool, ok: bool)
    requires Correlation.Shaped(h.bs) && |h.floor.lines| == |h.bs.conns| && Correlation.Enabled(h.bs, Correlation.Write(t, sent, ok))
    ensures Enabled(h, WriteFrame(t, sent, ok))
  {
  }

  /** The machine's guards on Project ids and lines never stop anything: they hold whenever the code gets there. */
  lemma IdGuardsNeverBlock(runtime: Runtime, run: seq<Action>)
    ensures forall greeted, seen :: greeted in After(runtime, run).doors.welcomed ==> Enabled(After(runtime, run), Attach(greeted, seen))
    ensures forall i: nat, nonce :: CanDispatch(After(runtime, run), i, nonce) ==> Enabled(After(runtime, run), Dispatch(i, nonce))
    ensures forall t: nat, sent, ok :: Correlation.Enabled(After(runtime, run).bs, Correlation.Write(t, sent, ok)) ==>
      Enabled(After(runtime, run), WriteFrame(t, sent, ok))
  {
    RunInv(runtime, run);
    var h := After(runtime, run);
    hide After;
    assert |h.floor.lines| == |h.bs.conns|;
    assert Correlation.Shaped(h.bs);
    hide Inv, IdsClean, Enabled, CanDispatch, Correlation.Enabled, Correlation.Shaped, Correlation.Inv;
    forall greeted, seen | greeted in h.doors.welcomed ensures Enabled(h, Attach(greeted, seen)) {
      AttachNotBlocked(h, greeted, seen);
    }
    forall i: nat, nonce | CanDispatch(h, i, nonce) ensures Enabled(h, Dispatch(i, nonce)) {
      DispatchNotBlocked(h, i, nonce);
    }
    forall t: nat, sent, ok | Correlation.Enabled(h.bs, Correlation.Write(t, sent, ok)) ensures Enabled(h, WriteFrame(t, sent, ok)) {
      WriteNotBlocked(h, t, sent, ok);
    }
  }

  // ---- Who gets in ---------------------------------------------------------------------------

  /** The guard has recorded the message's key in the last four minutes. */
  predicate SeenLately(g: Gate, s: SignedMessage) {
    var key := GuardKey(s.project, s.sender, s.nonce);
    key in g.seen && g.clock - g.seen[key] <= 240_000_000_000
  }

  /** The machine's lookup and its acceptance, with nothing between, let the message pass. */
  ghost predicate GetsIn(h: Host, m: Msg) {
    && Enabled(h, Arrive(m))
    && (var v := Visit(m, h.db.members[(m.project, m.sender)].key, IsOwner(h.db, m.project, m.sender));
        && Enabled(Next(h, Arrive(m)), Accept(v))
        && Next(Next(h, Arrive(m)), Accept(v)).gate.accepted == h.gate.accepted + [Acceptance(m, h.gate.clock)])
  }

  lemma ArriveEnabled(h: Host, m: Msg)
    ensures Enabled(h, Arrive(m)) <==> (m.project, m.sender) in h.db.members && Routed(m)
    ensures Enabled(h, Arrive(m)) ==>
      var v := Visit(m, h.db.members[(m.project, m.sender)].key, IsOwner(h.db, m.project, m.sender));
      Next(h, Arrive(m)) == h.(gate := h.gate.(visits := h.gate.visits + {v}))
  {
  }

  lemma AcceptEnabled(h: Host, v: Visit)
    ensures Enabled(h, Accept(v)) <==> v in h.gate.visits && VerifyMsg(v.msg, v.key, h.gate.clock).None?
    ensures Enabled(h, Accept(v)) ==>
      (Next(h, Accept(v)).gate.accepted == h.gate.accepted + [Acceptance(v.msg, h.gate.clock)] <==> Knock(h.gate, v.msg).1)
  {
  }

  lemma KnocksExactly(g: Gate, m: Msg, s: SignedMessage)
    requires m.project == s.project && m.sender == s.sender && m.nonce == s.nonce
    ensures Knock(g, m).1 <==> !SeenLately(g, s)
  {
  }

  /**
   * The machine decides as authenticate does. A signed message gets in if and only if its sender is a stored member,
   * its signature verifies with that member's key within two minutes, its kind and route are those of a handler, and
   * the guard has not recorded it in the last four minutes.
   */
  lemma GetsInExactly(h: Host, s: SignedMessage, sig: Signature, content: Content, enc: Encoders)
    ensures var (m, k) := (Abstracted(s, sig, content, enc), (s.project, s.sender));
      GetsIn(h, m) <==>
        && k in h.db.members && Verify(s, sig, h.db.members[k].key, h.gate.clock, 120_000_000_000, enc) == None
        && KindFits(m) && ((s.verb == "POST" && s.path == "/v2/rpc") || (s.verb == "GET" && s.path == "/v2/provider" && content.Connect?))
        && !SeenLately(h.gate, s)
  {
    var m := Abstracted(s, sig, content, enc);
    var k := (s.project, s.sender);
    ArriveEnabled(h, m);
    if k in h.db.members {
      var v := Visit(m, h.db.members[k].key, IsOwner(h.db, s.project, s.sender));
      VerifyAgrees(s, sig, content, h.db.members[k].key, h.gate.clock, enc);
      var arrived := h.(gate := h.gate.(visits := h.gate.visits + {v}));
      AcceptEnabled(arrived, v);
      KnocksExactly(arrived.gate, m, s);
    }
    hide Enabled, Next, Knock, VerifyMsg, Verify, MessageBytes, KindFits, IsOwner, GuardKey;
  }

  lemma AcceptedNow(h: Host, a: Action, i: nat)
    requires Enabled(h, a) && |h.gate.accepted| <= i < |Next(h, a).gate.accepted|
    ensures a.Accept? && i == |h.gate.accepted| && a.visit in h.gate.visits && VerifyMsg(a.visit.msg, a.visit.key, h.gate.clock).None?
    ensures Next(h, a).gate.accepted == h.gate.accepted + [Acceptance(a.visit.msg, h.gate.clock)]
  {
    if !a.Tick? && !a.Arrive? && !a.Accept? {
      GateKept(h, a);
      hide Next, Enabled;
    } else {
      hide Next, Enabled, NextDoors, VerifyMsg, AcceptStep;
      GatePart(h, a);
      IsReady(h, a);
    }
  }

  lemma {:induction false} VisitWhen(runtime: Runtime, run: seq<Action>, v: Visit) returns (n: nat)
    requires v in After(runtime, run).gate.visits
    ensures n < |run| && run[n] == Arrive(v.msg) && Enabled(After(runtime, run[..n]), run[n])
    ensures (v.msg.project, v.msg.sender) in After(runtime, run[..n]).db.members
    ensures v.key == After(runtime, run[..n]).db.members[(v.msg.project, v.msg.sender)].key
    ensures v.owner == IsOwner(After(runtime, run[..n]).db, v.msg.project, v.msg.sender)
  {
    hide Next, Enabled, IsOwner;
    var before := run[..|run| - 1];
    var (h, a) := (After(runtime, before), run[|run| - 1]);
    if Enabled(h, a) && v !in h.gate.visits {
      n := |run| - 1;
      VisitNow(h, a, v);
    } else {
      n := VisitWhen(runtime, before, v);
      assert before[..n] == run[..n];
    }
  }

  lemma VisitNow(h: Host, a: Action, v: Visit)
    requires Enabled(h, a) && v in Next(h, a).gate.visits && v !in h.gate.visits
    ensures a == Arrive(v.msg) && (v.msg.project, v.msg.sender) in h.db.members
    ensures v.key == h.db.members[(v.msg.project, v.msg.sender)].key && v.owner == IsOwner(h.db, v.msg.project, v.msg.sender)
  {
    hide Next, Enabled, NextDoors, AcceptStep, IsOwner;
    GatePart(h, a);
    IsReady(h, a);
  }

  /**
   * Every message the host has accepted was looked up as a stored member's, and then verified with the key stored at
   * that lookup, complete, on a handler's route and at most two minutes from the host's clock.
   */
  lemma {:induction false} AcceptedWasAuthentic(runtime: Runtime, run: seq<Action>, i: nat) returns (looked: nat, accepted: nat)
    requires i < |After(runtime, run).gate.accepted|
    ensures looked < accepted < |run| && run[looked] == Arrive(After(runtime, run).gate.accepted[i].msg) && run[accepted].Accept?
    ensures var (m, h1, h2) := (After(runtime, run).gate.accepted[i].msg, After(runtime, run[..looked]), After(runtime, run[..accepted]));
      && (m.project, m.sender) in h1.db.members && m.signer == h1.db.members[(m.project, m.sender)].key && |m.signer| == 32
      && m.schema == 2 && "" !in [m.project, m.sender, m.kind, m.verb, m.path, m.nonce]
      && -120_000_000_000 <= h2.gate.clock - m.timestamp <= 120_000_000_000
      && KindFits(m) && ((m.verb == "POST" && m.path == "/v2/rpc") || (m.verb == "GET" && m.path == "/v2/provider" && m.content.Connect?))
  {
    hide Next, Enabled, VerifyMsg, KindFits;
    var before := run[..|run| - 1];
    var (h, a) := (After(runtime, before), run[|run| - 1]);
    if Enabled(h, a) && i >= |h.gate.accepted| {
      AcceptedNow(h, a, i);
      accepted := |run| - 1;
      looked := VisitWhen(runtime, before, a.visit);
      assert before[..looked] == run[..looked];
      VerifiedFields(a.visit.msg, a.visit.key, h.gate.clock);
      ArriveEnabled(After(runtime, run[..looked]), a.visit.msg);
    } else {
      looked, accepted := AcceptedWasAuthentic(runtime, before, i);
      assert before[..looked] == run[..looked] && before[..accepted] == run[..accepted];
      if Enabled(h, a) {
        CallsAfter(h, a);
      }
    }
    hide AskFits;
  }

  lemma VerifiedFields(m: Msg, key: Bytes, now: int)
    ensures VerifyMsg(m, key, now).None? <==>
      m.signer == key && |key| == 32 && m.schema == 2 && "" !in [m.project, m.sender, m.kind, m.verb, m.path, m.nonce]
      && -120_000_000_000 <= now - m.timestamp <= 120_000_000_000
  {
  }

  // ---- At most once --------------------------------------------------------------------------

  /** No signed message passes authenticate twice, however often and wherever it is posted. */
  lemma MessageAcceptedOnce(runtime: Runtime, run: seq<Action>, i: nat, j: nat)
    requires i < |After(runtime, run).gate.accepted| && j < |After(runtime, run).gate.accepted|
    requires After(runtime, run).gate.accepted[i].msg == After(runtime, run).gate.accepted[j].msg
    ensures i == j
  {
    RunInv(runtime, run);
    var g := After(runtime, run).gate;
    assert GateSound(g);
    hide After, Inv;
    assert OnceEach(g.accepted);
  }

  /** How often the host took on the operation of this message. */
  function TimesTaken(accepted: seq<Acceptance>, m: Msg): nat {
    if accepted == [] then 0 else
      TimesTaken(accepted[..|accepted| - 1], m) + if accepted[|accepted| - 1].msg == m then 1 else 0
  }

  lemma {:induction false} TakenCount(accepted: seq<Acceptance>, m: Msg)
    requires forall i, j :: 0 <= i < j < |accepted| && accepted[i].msg == m ==> accepted[j].msg != m
    ensures TimesTaken(accepted, m) <= 1
    ensures TimesTaken(accepted, m) == 1 <==> exists i :: 0 <= i < |accepted| && accepted[i].msg == m
  {
    if accepted == [] {
    } else {
      TakenCount(accepted[..|accepted| - 1], m);
    }
  }

  lemma TakenAtMostOnce(runtime: Runtime, run: seq<Action>, m: Msg)
    ensures var accepted := After(runtime, run).gate.accepted;
      && TimesTaken(accepted, m) <= 1
      && (TimesTaken(accepted, m) == 1 <==> exists i :: 0 <= i < |accepted| && accepted[i].msg == m)
  {
    var accepted := After(runtime, run).gate.accepted;
    forall i: nat, j: nat | i < j < |accepted| && accepted[i].msg == m ensures accepted[j].msg != m {
      if accepted[j].msg == m {
        MessageAcceptedOnce(runtime, run, i, j);
      }
    }
    hide After;
    TakenCount(accepted, m);
  }

  /** Call `i` is the ask that message `m` made; job `j` is the operation it ordered. */
  ghost predicate RanAs(h: Host, m: Msg, i: nat) {
    i < |h.calls| && h.calls[i].ask < |h.gate.accepted| && h.gate.accepted[h.calls[i].ask].msg == m
  }

  ghost predicate WorkedAs(h: Host, m: Msg, j: nat) {
    j < |h.jobs| && h.jobs[j].ask < |h.gate.accepted| && h.gate.accepted[h.jobs[j].ask].msg == m
  }

  /** The host accepted no other message with the nonce of `m`. */
  ghost predicate OwnNonce(h: Host, m: Msg) {
    forall i :: 0 <= i < |h.gate.accepted| && h.gate.accepted[i].msg.nonce == m.nonce ==> h.gate.accepted[i].msg == m
  }

  lemma RanOnce(runtime: Runtime, run: seq<Action>, m: Msg, i: nat, j: nat)
    requires RanAs(After(runtime, run), m, i) && RanAs(After(runtime, run), m, j)
    ensures i == j
  {
    var h := After(runtime, run);
    MessageAcceptedOnce(runtime, run, h.calls[i].ask, h.calls[j].ask);
    RunInv(runtime, run);
    hide After;
    assert CallsSound(h.calls, h.gate.accepted);
    hide Inv;
  }

  lemma WorkedOnce(runtime: Runtime, run: seq<Action>, m: Msg, i: nat, j: nat)
    requires WorkedAs(After(runtime, run), m, i) && WorkedAs(After(runtime, run), m, j)
    ensures i == j
  {
    var h := After(runtime, run);
    MessageAcceptedOnce(runtime, run, h.jobs[i].ask, h.jobs[j].ask);
    RunInv(runtime, run);
    hide After;
    assert JobsSound(h.jobs, h.gate.accepted);
    hide Inv;
  }

  /** What a signed ok result of the host says about the message it replies to. */
  ghost predicate Answers(h: Host, m: Msg, r: HostReply) {
    match r
    case AskReply(i, _, _) => RanAs(h, m, i) && m.content == Ask(h.calls[i].request)
    case OpReply(j, _) =>
      && WorkedAs(h, m, j) && m.content == Perform(h.jobs[j].order) && h.jobs[j].stage.Told? && h.jobs[j].stage.ok
      && (h.jobs[j].stage.op.None? <==> h.jobs[j].order.Inquiry?)
    case _ => false
  }

  /** A reply to an RPC, rather than to an identity challenge or a join. */
  predicate RpcReply(r: HostReply) {
    r.AskReply? || r.OpReply?
  }

  lemma OkOrderWasCarried(job: Job)
    requires JobHonest(job) && job.stage.Told? && job.stage.ok
    ensures job.stage.op.None? <==> job.order.Inquiry?
  {
  }

  /** A signed ok result belongs to the one call or job of the message with its nonce. */
  lemma ReplyMeansRanOnce(runtime: Runtime, run: seq<Action>, m: Msg, r: HostReply)
    requires OwnNonce(After(runtime, run), m) && r in After(runtime, run).replies && RpcReply(r) && r.replyTo == m.nonce
    ensures Answers(After(runtime, run), m, r)
  {
    RunInv(runtime, run);
    var h := After(runtime, run);
    hide After;
    assert RepliesSound(h.replies, h.calls, h.jobs, h.gate.accepted) && CallsSound(h.calls, h.gate.accepted)
        && JobsSound(h.jobs, h.gate.accepted) && JobsHonest(h.jobs);
    hide Inv, JobHonest;
    if r.OpReply? {
      OkOrderWasCarried(h.jobs[r.job]);
    }
  }

  /** How often the run made the Store call of an operation that message `m` ordered. */
  ghost function Executions(runtime: Runtime, run: seq<Action>, m: Msg): nat {
    if run == [] then 0 else
      var (h, a) := (After(runtime, run[..|run| - 1]), run[|run| - 1]);
      Executions(runtime, run[..|run| - 1], m) + if Enabled(h, a) && a.Execute? && WorkedAs(h, m, a.j) then 1 else 0
  }

  predicate MadeCall(stage: JobStage) {
    !stage.Taken? && stage.op.Some?
  }

  ghost predicate WorkDone(h: Host, m: Msg) {
    exists j: nat :: WorkedAs(h, m, j) && MadeCall(h.jobs[j].stage)
  }

  lemma WorkedStays(h: Host, a: Action, m: Msg, j: nat)
    requires JobsSound(h.jobs, h.gate.accepted) && Enabled(h, a)
    ensures WorkedAs(h, m, j) ==> WorkedAs(Next(h, a), m, j)
    ensures WorkedAs(Next(h, a), m, j) && j < |h.jobs| ==> WorkedAs(h, m, j)
    ensures WorkedAs(Next(h, a), m, j) && j >= |h.jobs| ==> Next(h, a).jobs[j].stage.Taken?
    ensures WorkedAs(h, m, j) ==>
      (MadeCall(Next(h, a).jobs[j].stage) <==> MadeCall(h.jobs[j].stage) || (a.Execute? && a.j == j))
    ensures a.Execute? && a.j == j ==> j < |h.jobs| && h.jobs[j].stage.Taken?
  {
    hide Next, Enabled, Apply, Carries;
    JobsAfter(h, a);
    if j < |h.jobs| {
      JobMoves(h, a, j);
    }
    if a.Execute? {
      ExecutesTaken(h, a);
    }
  }

  lemma ExecutesTaken(h: Host, a: Action)
    requires Enabled(h, a) && a.Execute?
    ensures a.j < |h.jobs| && h.jobs[a.j].stage.Taken?
  {
  }

  /** An operation's Store call is made at most once, however often its message is posted. */
  lemma {:induction false} ExecutedAtMostOnce(runtime: Runtime, run: seq<Action>, m: Msg)
    ensures Executions(runtime, run, m) == if WorkDone(After(runtime, run), m) then 1 else 0
  {
    hide Next, Enabled, MadeCall;
    if run == [] {
    } else {
      var before := run[..|run| - 1];
      ExecutedAtMostOnce(runtime, before, m);
      var (h, a) := (After(runtime, before), run[|run| - 1]);
      if Enabled(h, a) {
        RunInv(runtime, before);
        hide Inv, After;
        ExecutionCounts(runtime, before, a, m);
      }
    }
  }

  lemma ExecutionCounts(runtime: Runtime, run: seq<Action>, a: Action, m: Msg)
    requires Enabled(After(runtime, run), a)
    ensures var (h, after) := (After(runtime, run), Next(After(runtime, run), a));
      var executes := a.Execute? && WorkedAs(h, m, a.j);
      && (executes ==> !WorkDone(h, m))
      && (WorkDone(after, m) <==> WorkDone(h, m) || executes)
  {
    RunInv(runtime, run);
    var (h, after) := (After(runtime, run), Next(After(runtime, run), a));
    assert JobsSound(h.jobs, h.gate.accepted);
    hide Inv, Next, Enabled, MadeCall;
    forall j: nat
      ensures WorkedAs(h, m, j) ==> WorkedAs(after, m, j)
      ensures WorkedAs(after, m, j) && j < |h.jobs| ==> WorkedAs(h, m, j)
      ensures WorkedAs(after, m, j) && j >= |h.jobs| ==> after.jobs[j].stage.Taken?
      ensures WorkedAs(h, m, j) ==> (MadeCall(after.jobs[j].stage) <==> MadeCall(h.jobs[j].stage) || (a.Execute? && a.j == j))
      ensures a.Execute? && a.j == j ==> j < |h.jobs| && h.jobs[j].stage.Taken?
    {
      WorkedStays(h, a, m, j);
    }
    forall j: nat | a.Execute? && WorkedAs(h, m, a.j) && WorkedAs(h, m, j) ensures j == a.j {
      WorkedOnce(runtime, run, m, j, a.j);
    }
    hide After, WorkedAs;
    forall j: nat | j < |h.jobs| && h.jobs[j].stage.Taken? ensures !MadeCall(h.jobs[j].stage) {
      TakenMadeNone(h.jobs[j].stage);
    }
    forall j: nat | j < |after.jobs| && after.jobs[j].stage.Taken? ensures !MadeCall(after.jobs[j].stage) {
      TakenMadeNone(after.jobs[j].stage);
    }
  }

  lemma TakenMadeNone(stage: JobStage)
    requires stage.Taken?
    ensures !MadeCall(stage)
  {
  }

  /** Where in the run job `j` made its Store call, and that its result is that call's. */
  lemma {:induction false} ExecutedWhen(runtime: Runtime, run: seq<Action>, j: nat) returns (n: nat)
    requires j < |After(runtime, run).jobs| && MadeCall(After(runtime, run).jobs[j].stage)
    ensures n < |run|
    ensures var (h, stage) := (After(runtime, run[..n]), After(runtime, run).jobs[j].stage);
      && run[n] == Execute(j, stage.op.value) && Enabled(h, run[n])
      && stage.ok == Apply(h.db, stage.op.value).1.None? && Next(h, run[n]).db == Apply(h.db, stage.op.value).0
  {
    hide Next, Enabled, Apply;
    var before := run[..|run| - 1];
    var (h, a) := (After(runtime, before), run[|run| - 1]);
    if !Enabled(h, a) {
      n := ExecutedWhen(runtime, before, j);
      assert before[..n] == run[..n];
    } else {
      JobsAfter(h, a);
      if j < |h.jobs| {
        JobMoves(h, a, j);
      }
      if a.Execute? && a.j == j {
        n := |run| - 1;
        StoreMoves(h, a);
      } else {
        n := ExecutedWhen(runtime, before, j);
        assert before[..n] == run[..n];
      }
    }
  }

  // ---- At most one delivery ------------------------------------------------------------------

  /** Dispatches made for row `k`, each of which writes at most one frame to one connection. */
  function Dispatches(calls: seq<Call>, k: Id): nat {
    if calls == [] then 0 else
      var c := calls[|calls| - 1];
      Dispatches(calls[..|calls| - 1], k) + if c.ticket.Some? && CallKey(c) == k then 1 else 0
  }

  ghost predicate TicketsCleared(calls: seq<Call>) {
    forall i :: 0 <= i < |calls| && calls[i].ticket.Some? ==> Cleared(calls[i])
  }

  lemma TicketMeansCleared(h: Host)
    requires LinksSound(h.calls, h.callOf, h.bs.tickets)
    ensures TicketsCleared(h.calls)
  {
    forall i: nat | i < |h.calls| && h.calls[i].ticket.Some? ensures Cleared(h.calls[i]) {
      assert LinkFits(h.calls[i], i, h.callOf, h.bs.tickets);
    }
  }

  lemma {:induction false} DispatchesCount(calls: seq<Call>, k: Id)
    requires TicketsCleared(calls) && ClearedOnce(calls)
    ensures Dispatches(calls, k) <= 1
    ensures Dispatches(calls, k) == 1 ==> exists i :: 0 <= i < |calls| && Cleared(calls[i]) && CallKey(calls[i]) == k
    ensures Dispatches(calls, k) == 1 <==> exists i :: 0 <= i < |calls| && calls[i].ticket.Some? && CallKey(calls[i]) == k
  {
    if calls == [] {
    } else {
      DispatchesCount(calls[..|calls| - 1], k);
    }
  }

  /** Each (Project, request id) goes to a provider at most once, in every run. */
  lemma DeliveredAtMostOnce(runtime: Runtime, run: seq<Action>, k: Id)
    ensures Dispatches(After(runtime, run).calls, k) <= 1
    ensures var calls := After(runtime, run).calls;
      Dispatches(calls, k) == 1 <==> exists i :: 0 <= i < |calls| && calls[i].ticket.Some? && CallKey(calls[i]) == k
  {
    RunInv(runtime, run);
    var h := After(runtime, run);
    hide After;
    TicketMeansCleared(h);
    DispatchesCount(h.calls, k);
  }

  /** Two dispatches of one request are the same dispatch. */
  lemma OneDispatchPerRow(runtime: Runtime, run: seq<Action>, t: nat, u: nat)
    requires t < |After(runtime, run).bs.tickets| && u < |After(runtime, run).bs.tickets|
    requires After(runtime, run).bs.tickets[t].request.project == After(runtime, run).bs.tickets[u].request.project
    requires After(runtime, run).bs.tickets[t].request.id == After(runtime, run).bs.tickets[u].request.id
    ensures t == u
  {
    RunInv(runtime, run);
    hide After, LinksSound, ClearedOnce;
    OneTicket(After(runtime, run), t, u);
  }

  lemma OneTicket(h: Host, t: nat, u: nat)
    requires LinksSound(h.calls, h.callOf, h.bs.tickets) && ClearedOnce(h.calls) && t < |h.bs.tickets| && u < |h.bs.tickets|
    requires h.bs.tickets[t].request.project == h.bs.tickets[u].request.project
    requires h.bs.tickets[t].request.id == h.bs.tickets[u].request.id
    ensures t == u
  {
    var (i, j) := (h.callOf[t], h.callOf[u]);
    assert LinkFits(h.calls[i], i, h.callOf, h.bs.tickets) && LinkFits(h.calls[j], j, h.callOf, h.bs.tickets);
    TicketMeansCleared(h);
    assert CallKey(h.calls[i]) == CallKey(h.calls[j]);
  }

  /** Action `n` of the run writes the frame of request `k` to a provider's connection. */
  ghost predicate Delivers(runtime: Runtime, run: seq<Action>, n: nat, k: Id) {
    && n < |run| && Enabled(After(runtime, run[..n]), run[n])
    && run[n].WriteFrame? && run[n].sent
    && var q := After(runtime, run[..n]).bs.tickets[run[n].t].request; (q.project, q.id) == k
  }

  lemma {:induction false} TicketLasts(runtime: Runtime, run: seq<Action>, n: nat, t: nat)
    requires n <= |run| && t < |After(runtime, run[..n]).bs.tickets|
    ensures t < |After(runtime, run).bs.tickets|
    ensures After(runtime, run).bs.tickets[t].request == After(runtime, run[..n]).bs.tickets[t].request
    ensures After(runtime, run).bs.tickets[t].phase.Registered? ==> After(runtime, run[..n]).bs.tickets[t].phase.Registered?
    decreases |run|
  {
    hide Next, Enabled;
    if n == |run| {
      assert run[..n] == run;
    } else {
      var before := run[..|run| - 1];
      assert before[..n] == run[..n];
      TicketLasts(runtime, before, n, t);
      var (h, a) := (After(runtime, before), run[|run| - 1]);
      if Enabled(h, a) {
        TicketsAfter(h, a);
      }
    }
  }

  lemma WriteMovesOn(h: Host, a: Action)
    requires Enabled(h, a) && a.WriteFrame?
    ensures a.t < |h.bs.tickets| && h.bs.tickets[a.t].phase.Registered?
    ensures a.t < |Next(h, a).bs.tickets| && !Next(h, a).bs.tickets[a.t].phase.Registered?
  {
  }

  lemma DeliveryMovesOn(runtime: Runtime, run: seq<Action>, n: nat, k: Id)
    requires Delivers(runtime, run, n, k)
    ensures var t := run[n].t;
      t < |After(runtime, run[..n + 1]).bs.tickets| && !After(runtime, run[..n + 1]).bs.tickets[t].phase.Registered?
      && t < |After(runtime, run[..n]).bs.tickets| && After(runtime, run[..n]).bs.tickets[t].phase.Registered?
      && (After(runtime, run[..n]).bs.tickets[t].request.project, After(runtime, run[..n]).bs.tickets[t].request.id) == k
  {
    assert run[..n + 1][..n] == run[..n];
    WriteMovesOn(After(runtime, run[..n]), run[n]);
    hide Next, Enabled;
  }

  lemma DeliveredTicket(runtime: Runtime, run: seq<Action>, i: nat, j: nat, k: Id)
    requires i < j <= |run| && Delivers(runtime, run, i, k)
    ensures var (t, tickets) := (run[i].t, After(runtime, run[..j]).bs.tickets);
      t < |tickets| && (tickets[t].request.project, tickets[t].request.id) == k && !tickets[t].phase.Registered?
  {
    var now := run[..j];
    assert run[i].WriteFrame?;
    hide Next, Enabled, After, Delivers;
    DeliveryMovesOn(runtime, run, i, k);
    assert now[..i + 1] == run[..i + 1] && now[..i] == run[..i];
    TicketLasts(runtime, now, i + 1, run[i].t);
    TicketLasts(runtime, now, i, run[i].t);
  }

  /** A request is put on a wire once, whatever ask, dispatch or connection tries it again. */
  lemma NeverDeliveredAgain(runtime: Runtime, run: seq<Action>, i: nat, j: nat, k: Id)
    requires i < j < |run| && Delivers(runtime, run, i, k)
    ensures !Delivers(runtime, run, j, k)
  {
    if Delivers(runtime, run, j, k) {
      hide Next, Enabled, After;
      DeliveredTicket(runtime, run, i, j, k);
      DeliveryMovesOn(runtime, run, j, k);
      hide Delivers;
      OneDispatchPerRow(runtime, run[..j], run[i].t, run[j].t);
      assert false;
    }
  }

  /**
   * What keeps a deleted Project's request ids from being delivered again: their rows are gone and can be inserted
   * again by an ask in flight, but such an ask does not get the host identity any more.
   */
  lemma DeletedIsNotDispatched(runtime: Runtime, run: seq<Action>, i: nat)
    requires AtStage(After(runtime, run), i, Inserted) && After(runtime, run).calls[i].request.project in After(runtime, run).deleted
    ensures !Enabled(After(runtime, run), ReadIdentity(i))
  {
    RunInv(runtime, run);
    var h := After(runtime, run);
    hide After;
    assert HostingLive(h);
  }

  lemma DeletionForgetsRequests(db: DB, q: Request)
    ensures CreateRequest(DeleteProject(db, q.project), q).1.None?
    ensures CreateRequest(CreateRequest(db, q).0, q).1.Some?
  {
  }

  // ---- End to end ----------------------------------------------------------------------------

  /** The connection a dispatch wrote to is the addressed agent's. */
  lemma WrittenToTheAgent(h: Host, t: nat)
    requires Correlation.Inv(h.bs) && t < |h.bs.tickets|
    ensures var (ticket, conns) := (h.bs.tickets[t], h.bs.conns);
      && ticket.conn < |conns|
      && conns[ticket.conn].project == ticket.request.project && conns[ticket.conn].agent == ticket.request.agent
  {
    assert Correlation.Shaped(h.bs);
    var (ticket, conns) := (h.bs.tickets[t], h.bs.conns);
    ProviderKeyInjective(conns[ticket.conn].project, conns[ticket.conn].agent, ticket.request.project, ticket.request.agent);
  }

  /** The agent whose loop is at the other end of the connection that dispatch `t` was written to. */
  ghost function LoopOf(h: Host, t: nat): string
    requires t < |h.bs.tickets| && h.bs.tickets[t].conn < |h.floor.lines|
  {
    h.floor.lines[h.bs.tickets[t].conn].agent
  }

  /** Reply number k of a line answers the dispatch whose nonce it echoes, by its loop's runtime on that dispatch's request. */
  lemma MadeForDispatch(h: Host, f: Frame, c: nat, k: nat) returns (t: nat)
    requires FloorSound(h.floor, h.bs) && Made(f, c, k, h.floor.lines)
    ensures t < |h.bs.tickets| && f.replyTo == h.bs.tickets[t].nonce && h.bs.tickets[t].conn == c < |h.floor.lines|
    ensures var (agent, q) := (LoopOf(h, t), h.bs.tickets[t].request);
      f.payload == ProviderPayload(agent, q, h.floor.runtime(agent, q))
  {
    var line := h.floor.lines[c];
    var (agent, runtime) := (line.agent, h.floor.runtime);
    assert LineSound(line, c, h.bs.tickets, runtime);
    RepliesMatchFrames(line.loop.first, line.loop.inbox, agent, runtime, RETENTION);
    assert line.loop.out[k] == Turned(line.loop.inbox[k], agent, runtime);
    assert FromDispatch(line.wire[k], c, h.bs.tickets);
    t :| WrittenFor(line.wire[k], c, t, h.bs.tickets);
  }

  /** Nobody but the provider loops signed a frame with the nonce of a dispatch of `q`. */
  ghost predicate Unforged(h: Host, q: Request) {
    forall f, t :: f in h.floor.forged && 0 <= t < |h.bs.tickets| && h.bs.tickets[t].request == q ==> f.replyTo != h.bs.tickets[t].nonce
  }

  /** A delivered response is the runtime's answer, for the loop at the dispatch's connection, to the request of this dispatch. */
  lemma DeliveryWasComputed(h: Host, t: nat, d: Delivery)
    requires Correlation.Inv(h.bs) && FloorSound(h.floor, h.bs) && t < |h.bs.tickets| && Unforged(h, h.bs.tickets[t].request)
    requires h.bs.tickets[t].phase == Correlation.Returned(Some(d)) && d.payload.response.Some? && d.payload.failure.None?
    ensures d.origin.FromFrame? && d.origin.frame.replyTo == h.bs.tickets[t].nonce && d.payload.kind.ResponseType?
    ensures h.bs.tickets[t].conn < |h.floor.lines|
    ensures var q := h.bs.tickets[t].request;
      h.floor.runtime(LoopOf(h, t), q) == Answer(d.payload.response.value.answer) && d.payload.response.value.requestId == q.id
  {
    assert Correlation.Belongs(h.bs.tickets[t], d, h.bs.received);
    var f := d.origin.frame;
    assert f in h.floor.frames && f !in h.floor.forged;
    var c: nat, k: nat :| Made(f, c, k, h.floor.lines);
    var u := MadeForDispatch(h, f, c, k);
    assert Correlation.NoncesDistinct(h.bs.tickets);
    hide Correlation.Inv, FloorSound;
    assert u == t;
    var q := h.bs.tickets[t].request;
    HonestPayloadUntouched(LoopOf(h, t), q, h.floor.runtime(LoopOf(h, t), q));
  }

  lemma NewLine(h: Host, a: Action, c: nat)
    requires Enabled(h, a) && |h.floor.lines| == |h.bs.conns| && |h.bs.conns| <= c < |Next(h, a).bs.conns|
    ensures a.Attach? && a.greeted in h.doors.welcomed && c < |Next(h, a).floor.lines|
    ensures a.greeted == Greeted(Next(h, a).bs.conns[c], Next(h, a).floor.lines[c].agent)
  {
    hide Next, Enabled;
    NewConn(h, a, c);
    LinesAfter(h, a);
    TicketsAfter(h, a);
  }

  lemma LinesMatch(runtime: Runtime, run: seq<Action>)
    ensures |After(runtime, run).floor.lines| == |After(runtime, run).bs.conns|
  {
    RunInv(runtime, run);
    hide After;
    assert FloorSound(After(runtime, run).floor, After(runtime, run).bs);
    hide Inv;
  }

  /** How a connection began: with a welcome at which the lookup of the agent that the loop named found the connection's row. */
  ghost predicate Began(runtime: Runtime, run: seq<Action>, n: nat, conn: Correlation.Conn, selector: string) {
    && n < |run| && Enabled(After(runtime, run[..n]), run[n])
    && run[n].Welcome? && run[n].guest.selector == selector && run[n].agent == conn.agent
    && conn.project == run[n].guest.project && conn.member == run[n].guest.member && conn.key == run[n].guest.key
    && Selects(After(runtime, run[..n]).db, conn.project, selector, conn.agent)
    && After(runtime, run[..n]).db.agents[(conn.project, conn.agent)].owner == conn.member
  }

  lemma BeganEarlier(runtime: Runtime, run: seq<Action>, n: nat, conn: Correlation.Conn, selector: string)
    requires run != [] && Began(runtime, run[..|run| - 1], n, conn, selector)
    ensures Began(runtime, run, n, conn, selector)
  {
    assert run[..|run| - 1][..n] == run[..n] && run[..|run| - 1][n] == run[n];
    hide Enabled;
  }

  lemma {:induction false} GreetedBegan(runtime: Runtime, run: seq<Action>, g: Greeted) returns (n: nat)
    requires g in After(runtime, run).doors.welcomed
    ensures Began(runtime, run, n, g.conn, g.selector)
  {
    hide Next, Enabled;
    var before := run[..|run| - 1];
    var (h, a) := (After(runtime, before), run[|run| - 1]);
    if Enabled(h, a) && g !in h.doors.welcomed {
      NewGuest(h, a, g);
      n := |run| - 1;
    } else {
      n := GreetedBegan(runtime, before, g);
      BeganEarlier(runtime, run, n, g.conn, g.selector);
    }
  }

  lemma {:induction false} LineBegan(runtime: Runtime, run: seq<Action>, c: nat) returns (n: nat)
    requires c < |After(runtime, run).bs.conns| && c < |After(runtime, run).floor.lines|
    ensures Began(runtime, run, n, After(runtime, run).bs.conns[c], After(runtime, run).floor.lines[c].agent)
  {
    hide Next, Enabled, Began;
    var before := run[..|run| - 1];
    var (h, a) := (After(runtime, before), run[|run| - 1]);
    LinesMatch(runtime, before);
    if Enabled(h, a) && c >= |h.bs.conns| {
      NewLine(h, a, c);
      n := GreetedBegan(runtime, before, a.greeted);
    } else {
      n := LineBegan(runtime, before, c);
      if Enabled(h, a) {
        LineMoved(h, a, c);
        LineKeepsAgent(h, a, c);
        TicketsAfter(h, a);
        BeganSame(runtime, before, n, h.bs.conns[c], Next(h, a).bs.conns[c], h.floor.lines[c].agent);
      }
    }
    hide LineMoves;
    BeganEarlier(runtime, run, n, After(runtime, run).bs.conns[c], After(runtime, run).floor.lines[c].agent);
  }

  lemma LineKeepsAgent(h: Host, a: Action, c: nat)
    requires Enabled(h, a) && c < |h.floor.lines| && c < |Next(h, a).floor.lines| && c < |h.bs.conns|
    requires LineMoves(h.floor.lines[c], Next(h, a).floor.lines[c], h, a, c)
    ensures Next(h, a).floor.lines[c].agent == h.floor.lines[c].agent
  {
    hide Next, Enabled;
  }

  lemma BeganSame(runtime: Runtime, run: seq<Action>, n: nat, conn: Correlation.Conn, conn': Correlation.Conn, selector: string)
    requires Began(runtime, run, n, conn, selector) && conn'.(open := conn.open) == conn
    ensures Began(runtime, run, n, conn', selector)
  {
    hide Enabled;
  }

  /**
   * Exactly when a loop is attached for its own agent: whatever row the lookup returns, it is the row of the agent that
   * the loop named, if and only if no other agent of the same member is named like it.
   */
  lemma WelcomedAsItself(h: Host, guest: Guest)
    requires guest in h.doors.guests
    ensures (forall agent :: Enabled(h, Welcome(guest, agent)) ==> agent == guest.selector)
       <==> !exists other :: OtherNamed(h.db, guest.project, guest.selector, guest.member, other)
  {
    forall agent
      ensures Enabled(h, Welcome(guest, agent)) && agent != guest.selector <==> OtherNamed(h.db, guest.project, guest.selector, guest.member, agent)
    {
      WelcomeEnabled(h, guest, agent);
    }
    hide Enabled, OtherNamed;
  }

  predicate OtherNamed(db: DB, p: string, selector: string, member: string, other: string) {
    other != selector && (p, other) in db.agents && db.agents[(p, other)].name == selector && db.agents[(p, other)].owner == member
  }

  lemma WelcomeEnabled(h: Host, guest: Guest, agent: string)
    ensures Enabled(h, Welcome(guest, agent)) <==>
      guest in h.doors.guests && Selects(h.db, guest.project, guest.selector, agent)
      && h.db.agents[(guest.project, agent)].owner == guest.member
  {
  }

  lemma {:induction false} RuntimeFixed(runtime: Runtime, run: seq<Action>)
    ensures After(runtime, run).floor.runtime == runtime
  {
    hide Next, Enabled;
    if run != [] {
      var before := run[..|run| - 1];
      RuntimeFixed(runtime, before);
      RunInv(runtime, before);
      var (h, a) := (After(runtime, before), run[|run| - 1]);
      assert FloorSound(h.floor, h.bs);
      hide Inv;
      if Enabled(h, a) {
        LinesAfter(h, a);
      }
    }
  }

  lemma ReplyStep(h: Host, a: Action, r: HostReply)
    requires Enabled(h, a) && r.AskReply? && r in Next(h, a).replies && r !in h.replies
    ensures a == ReplyTo(r.call) && r.call < |h.calls| && h.calls[r.call].request.project in h.hosting
    ensures var c := h.calls[r.call]; c.stage.Closed? && c.stage.outcome.Some? && c.stage.outcome.value.payload == r.payload
    ensures Next(h, a).calls[r.call].stage == Replied(h.calls[r.call].stage.outcome) && Next(h, a).calls[r.call].request == h.calls[r.call].request
  {
    if !a.ReplyTo? && !a.ReplyToJob? {
      RepliesKept(h, a);
      hide Next, Enabled;
    }
    hide Correlation.Next, Correlation.Enabled, Apply;
  }

  /** The moment an ask's result was signed: its outcome and request were then what they are at the end of the run. */
  lemma {:induction false} SignedWhen(runtime: Runtime, run: seq<Action>, r: HostReply) returns (n: nat)
    requires r in After(runtime, run).replies && r.AskReply? && r.call < |After(runtime, run).calls|
    ensures n < |run| && run[n] == ReplyTo(r.call) && Enabled(After(runtime, run[..n]), run[n])
    ensures var (h, c) := (After(runtime, run[..n]), After(runtime, run).calls[r.call]);
      && r.call < |h.calls| && h.calls[r.call].request == c.request && c.request.project in h.hosting
      && c.stage.Replied? && h.calls[r.call].stage == Closed(c.stage.outcome)
      && c.stage.outcome.Some? && c.stage.outcome.value.payload == r.payload
  {
    hide Next, Enabled;
    var before := run[..|run| - 1];
    var (h, a) := (After(runtime, before), run[|run| - 1]);
    if Enabled(h, a) && r !in h.replies {
      n := |run| - 1;
      ReplyStep(h, a, r);
    } else {
      ReplyHasCall(runtime, before, r);
      n := SignedWhen(runtime, before, r);
      assert before[..n] == run[..n];
      if Enabled(h, a) {
        CallsAfter(h, a);
      }
    }
    hide AskFits;
  }

  lemma ReplyHasCall(runtime: Runtime, run: seq<Action>, r: HostReply)
    requires r in After(runtime, run).replies && r.AskReply?
    ensures r.call < |After(runtime, run).calls| && After(runtime, run).calls[r.call].stage.Replied?
  {
    RunInv(runtime, run);
    var h := After(runtime, run);
    hide After;
    assert RepliesSound(h.replies, h.calls, h.jobs, h.gate.accepted);
    hide Inv;
  }

  /** The row of an ask is succeeded by the time its response is signed. */
  lemma SucceededWhenSigned(h: Host, i: nat, d: Delivery)
    requires Inv(h) && i < |h.calls| && h.calls[i].stage == Closed(Some(d)) && d.payload.kind.ResponseType?
    requires h.calls[i].request.project in h.hosting
    ensures CallKey(h.calls[i]) in h.db.requests && h.db.requests[CallKey(h.calls[i])].status == Succeeded
  {
    assert HostingLive(h) && RowRight(h, i);
    hide Inv;
  }

  /**
   * End to end: when the host has signed a result with an answer for an ask of `q`, and nobody forged a frame for it,
   * that answer is the runtime's for that same request and the agent whose loop is at the dispatch's connection, which
   * was attached for `q.agent`; it was delivered for this dispatch's nonce, and the row was already `succeeded`.
   */
  lemma AnswerBelongsToRequest(runtime: Runtime, run: seq<Action>, m: Msg, q: Request, r: HostReply) returns (t: nat, n: nat)
    requires r in After(runtime, run).replies && r.AskReply? && r.replyTo == m.nonce
    requires OwnNonce(After(runtime, run), m) && m.content == Ask(q) && Unforged(After(runtime, run), q)
    requires r.payload.failure.None? && r.payload.response.Some?
    ensures var (tickets, conns) := (After(runtime, run).bs.tickets, After(runtime, run).bs.conns);
      && t < |tickets| && tickets[t].request == q
      && tickets[t].phase.Returned? && tickets[t].phase.result.Some?
      && tickets[t].phase.result.value.origin.FromFrame? && tickets[t].phase.result.value.origin.frame.replyTo == tickets[t].nonce
      && tickets[t].conn < |conns| && conns[tickets[t].conn].project == q.project && conns[tickets[t].conn].agent == q.agent
      && tickets[t].conn < |After(runtime, run).floor.lines|
    ensures runtime(LoopOf(After(runtime, run), t), q) == Answer(r.payload.response.value.answer) && r.payload.response.value.requestId == q.id
    ensures n < |run| && run[n] == ReplyTo(r.call) && Enabled(After(runtime, run[..n]), run[n])
    ensures var requests := After(runtime, run[..n]).db.requests;
      (q.project, q.id) in requests && requests[(q.project, q.id)].status == Succeeded
  {
    RunInv(runtime, run);
    RuntimeFixed(runtime, run);
    ReplyMeansRanOnce(runtime, run, m, r);
    n := SignedWhen(runtime, run, r);
    RunInv(runtime, run[..n]);
    var h := After(runtime, run);
    var c := h.calls[r.call];
    assert LinkFits(c, r.call, h.callOf, h.bs.tickets);
    assert Correlation.Inv(h.bs) && FloorSound(h.floor, h.bs);
    hide Inv, After, Next, Enabled;
    t := c.ticket.value;
    DeliveryWasComputed(h, t, c.stage.outcome.value);
    WrittenToTheAgent(h, t);
    SucceededWhenSigned(After(runtime, run[..n]), r.call, c.stage.outcome.value);
  }

  /**
   * Exactly when it is the addressed agent's own answer: the loop is `q.agent`'s if and only if, when it connected, the
   * lookup of the agent it named returned that agent's row and not the row of another one of that name.
   */
  lemma LoopIsTheAgents(runtime: Runtime, run: seq<Action>, t: nat) returns (n: nat)
    requires var h := After(runtime, run); t < |h.bs.tickets| && h.bs.tickets[t].conn < |h.floor.lines|
    ensures var (h, q) := (After(runtime, run), After(runtime, run).bs.tickets[t].request);
      && n < |run| && run[n].Welcome? && Enabled(After(runtime, run[..n]), run[n]) && run[n].agent == q.agent && run[n].guest.project == q.project
      && LoopOf(h, t) == run[n].guest.selector
      && (LoopOf(h, t) == q.agent <==> !OtherNamed(After(runtime, run[..n]).db, q.project, run[n].guest.selector, run[n].guest.member, q.agent))
  {
    RunInv(runtime, run);
    LinesMatch(runtime, run);
    var h := After(runtime, run);
    assert Correlation.Inv(h.bs);
    hide Inv, After, Enabled;
    WrittenToTheAgent(h, t);
    n := LineBegan(runtime, run, h.bs.tickets[t].conn);
  }

  lemma ReadChecks(h: Host, a: Action)
    requires Enabled(h, a) && a.ReadFrame?
    ensures a.c < |h.bs.conns| && h.bs.conns[a.c].open && -120_000_000_000 <= h.gate.clock - a.frame.timestamp <= 120_000_000_000
    ensures var (f, conn) := (a.frame, h.bs.conns[a.c]);
      && f.project == conn.project && f.sender == conn.member && f.signer == conn.key && f.verb == "WS" && f.path == "/v2/provider"
      && !f.payload.kind.OtherType?
  {
  }

  /**
   * Every frame the host took from a provider was read on an open connection, signed with the key of that connection's
   * member for its Project, on the provider route, typed as a response or failure, at most two minutes off.
   */
  lemma {:induction false} FrameWasChecked(runtime: Runtime, run: seq<Action>, f: Frame) returns (n: nat)
    requires f in After(runtime, run).bs.received
    ensures n < |run| && run[n].ReadFrame? && run[n].frame == f && run[n].c < |After(runtime, run[..n]).bs.conns|
    ensures var (h, conn) := (After(runtime, run[..n]), After(runtime, run[..n]).bs.conns[run[n].c]);
      && conn.open && f.project == conn.project && f.sender == conn.member && f.signer == conn.key && f.verb == "WS" && f.path == "/v2/provider"
      && !f.payload.kind.OtherType? && -120_000_000_000 <= h.gate.clock - f.timestamp <= 120_000_000_000
  {
    hide Next, Enabled;
    var before := run[..|run| - 1];
    var (h, a) := (After(runtime, before), run[|run| - 1]);
    if Enabled(h, a) && f !in h.bs.received {
      ReceivedGrows(h, a);
      ReadChecks(h, a);
      n := |run| - 1;
    } else {
      n := FrameWasChecked(runtime, before, f);
      assert before[..n] == run[..n];
    }
  }

  /** So a dispatch that returned with a provider's frame returned with one that was checked. */
  lemma DeliveredWasChecked(runtime: Runtime, run: seq<Action>, t: nat)
    requires t < |After(runtime, run).bs.tickets|
    requires var phase := After(runtime, run).bs.tickets[t].phase; phase.Returned? && phase.result.Some? && phase.result.value.origin.FromFrame?
    ensures After(runtime, run).bs.tickets[t].phase.result.value.origin.frame in After(runtime, run).bs.received
  {
    RunInv(runtime, run);
    var s := After(runtime, run).bs;
    hide After;
    assert Correlation.Inv(s);
    assert Correlation.Belongs(s.tickets[t], s.tickets[t].phase.result.value, s.received);
    hide Inv, Correlation.Inv;
  }

  /** A connection was opened by a message of its member, signed with the key it is known by, that named the loop's agent. */
  lemma {:induction false} GuestWasAccepted(runtime: Runtime, run: seq<Action>, g: Guest) returns (i: nat)
    requires g in After(runtime, run).doors.guests
    ensures i < |After(runtime, run).gate.accepted|
    ensures var m := After(runtime, run).gate.accepted[i].msg;
      m.content == Connect(g.selector) && m.project == g.project && m.sender == g.member && m.signer == g.key && m.verb == "GET"
  {
    hide Next, Enabled;
    var before := run[..|run| - 1];
    var (h, a) := (After(runtime, before), run[|run| - 1]);
    if Enabled(h, a) && g !in h.doors.guests {
      GuestNow(h, a, g);
      i := |h.gate.accepted|;
    } else {
      i := GuestWasAccepted(runtime, before, g);
    }
    if Enabled(h, a) {
      CallsAfter(h, a);
    }
    hide AskFits;
  }

  lemma GuestNow(h: Host, a: Action, g: Guest)
    requires Enabled(h, a) && g in Next(h, a).doors.guests && g !in h.doors.guests
    ensures a.Accept? && Next(h, a).gate.accepted == h.gate.accepted + [Acceptance(a.visit.msg, h.gate.clock)]
    ensures var m := a.visit.msg;
      m.content == Connect(g.selector) && m.project == g.project && m.sender == g.member && m.signer == g.key && m.verb == "GET"
  {
    hide Next, Enabled, Record, AcceptStep, Carries, Selects;
    GatePart(h, a);
    IsReady(h, a);
    RecordKeepsDoors(h, a);
    if a.Accept? {
      VerifiedFields(a.visit.msg, a.visit.key, h.gate.clock);
    }
    hide VerifyMsg;
  }

  /** The outcome of an ask decides its row by the time its result is signed: succeeded for a response, failed for a failure. */
  lemma DecidedWhenSigned(h: Host, i: nat, d: Delivery)
    requires Inv(h) && i < |h.calls| && h.calls[i].stage == Closed(Some(d)) && h.calls[i].request.project in h.hosting
    ensures CallKey(h.calls[i]) in h.db.requests
    ensures h.db.requests[CallKey(h.calls[i])].status == if d.payload.kind.FailureType? then Failed else Succeeded
  {
    assert HostingLive(h) && RowRight(h, i);
    hide Inv;
  }

  lemma AskOfReply(h: Host, m: Msg, r: HostReply, q: Request)
    requires Answers(h, m, r) && r.AskReply? && m.content == Ask(q)
    ensures r.call < |h.calls| && h.calls[r.call].request == q
  {
  }

  /** An ask that was closed with an outcome has a dispatch that returned it; from a detach it is the offline failure. */
  lemma ClosedTicket(h: Host, i: nat) returns (t: nat)
    requires Inv(h) && i < |h.calls| && h.calls[i].stage.Replied? && h.calls[i].stage.outcome.Some?
    ensures h.calls[i].ticket == Some(t) && t < |h.bs.tickets| && h.bs.tickets[t].request == h.calls[i].request
    ensures h.bs.tickets[t].phase == Correlation.Returned(h.calls[i].stage.outcome)
    ensures var (q, d) := (h.calls[i].request, h.calls[i].stage.outcome.value);
      d.origin.FromDetach? ==> d.payload == Payload(FailureType, q.agent, q.id, None, Some(Failure(q.id, "agent_offline")))
  {
    assert LinkFits(h.calls[i], i, h.callOf, h.bs.tickets);
    assert Correlation.Inv(h.bs);
    hide Inv;
    t := h.calls[i].ticket.value;
    assert Correlation.Belongs(h.bs.tickets[t], h.calls[i].stage.outcome.value, h.bs.received);
    hide Correlation.Inv;
  }

  /**
   * The other end: when the agent's connection ended while the ask waited, the signed result carries the failure
   * agent_offline for this very request, and the row was already `failed`.
   */
  lemma OfflineIsReported(runtime: Runtime, run: seq<Action>, m: Msg, q: Request, r: HostReply) returns (t: nat, n: nat)
    requires r in After(runtime, run).replies && r.AskReply? && r.replyTo == m.nonce
    requires OwnNonce(After(runtime, run), m) && m.content == Ask(q)
    ensures r.call < |After(runtime, run).calls| && After(runtime, run).calls[r.call].ticket == Some(t)
    ensures var tickets := After(runtime, run).bs.tickets;
      && t < |tickets| && tickets[t].request == q && tickets[t].phase.Returned? && tickets[t].phase.result.Some?
      && (tickets[t].phase.result.value.origin.FromDetach? ==>
          r.payload == Payload(FailureType, q.agent, q.id, None, Some(Failure(q.id, "agent_offline"))))
    ensures n < |run| && run[n] == ReplyTo(r.call) && Enabled(After(runtime, run[..n]), run[n])
    ensures var requests := After(runtime, run[..n]).db.requests;
      && (q.project, q.id) in requests
      && requests[(q.project, q.id)].status == if r.payload.kind.FailureType? then Failed else Succeeded
  {
    hide Inv, After, Next, Enabled, OwnNonce, RanAs;
    ReplyMeansRanOnce(runtime, run, m, r);
    AskOfReply(After(runtime, run), m, r, q);
    n := SignedWhen(runtime, run, r);
    RunInv(runtime, run);
    RunInv(runtime, run[..n]);
    t := ClosedTicket(After(runtime, run), r.call);
    DecidedWhenSigned(After(runtime, run[..n]), r.call, After(runtime, run).calls[r.call].stage.outcome.value);
  }

  // ---- The life of a request row -------------------------------------------------------------

  lemma FinishDecides(h: Host, i: nat)
    requires Correlation.Inv(h.bs) && HasOutcome(h, i)
    ensures OutcomeOf(h, i).Some? ==> !OutcomeOf(h, i).value.payload.kind.OtherType?
  {
    if OutcomeOf(h, i).Some? {
      var t := h.calls[i].ticket.value;
      assert Correlation.Belongs(h.bs.tickets[t], OutcomeOf(h, i).value, h.bs.received);
    }
  }

  /**
   * A row changes only when its own ask finishes, from running to succeeded when dispatch returned a response and to
   * failed otherwise; what is not running never changes again.
   */
  lemma RowChangesOnce(runtime: Runtime, run: seq<Action>, a: Action, k: Id)
    requires Enabled(After(runtime, run), a)
    requires k in After(runtime, run).db.requests && k in Next(After(runtime, run), a).db.requests
    ensures var (row, row') := (After(runtime, run).db.requests[k], Next(After(runtime, run), a).db.requests[k]);
      row != row' ==>
        && row.status == Running
        && a.Finish? && HasOutcome(After(runtime, run), a.i) && CallKey(After(runtime, run).calls[a.i]) == k
        && row' == row.(status := row'.status, completedAt := row'.completedAt)
        && row'.status == (match OutcomeOf(After(runtime, run), a.i)
                           case Some(d) => if d.payload.kind.ResponseType? then Succeeded else Failed
                           case None => Failed)
  {
    RunInv(runtime, run);
    var h := After(runtime, run);
    hide After;
    if Finishes(h, a, k) {
      assert RunningUntilOver(h, a.i);
      FinisherCleared(h, a);
      FinishedRow(h, a, k);
      FinishDecides(h, a.i);
    } else if Inserts(h, a, k) {
      InsertedRow(h, a, k);
    } else if a == StoreCall(DeleteProjectOp(k.0)) {
      DeletionTakesRow(h, a, k);
    } else {
      OtherRowsKept(h, a, k);
    }
    hide Next, Enabled, Inv;
  }

  /** The row of an ask, its columns apart from status and completion. */
  predicate ColumnsOf(row: RequestRow, q: Request) {
    && row.requester == q.requester && row.agent == q.agent && row.bodyBytes == |q.body| && row.bodyDigest == q.bodyDigest
    && row.createdAt == q.createdAt && row.expiresAt == q.createdAt + 300_000_000_000
  }

  lemma RowCreated(h: Host, a: Action, k: Id)
    requires Enabled(h, a) && k in Next(h, a).db.requests && k !in h.db.requests
    ensures a.Insert? && a.i < |h.calls| && CallKey(h.calls[a.i]) == k && ColumnsOf(Next(h, a).db.requests[k], h.calls[a.i].request)
  {
    hide Next, Enabled;
    if Inserts(h, a, k) {
      InsertedRow(h, a, k);
      CreatedRow(h.db, h.calls[a.i].request);
    } else if Finishes(h, a, k) {
      FinishedRow(h, a, k);
    } else if a == StoreCall(DeleteProjectOp(k.0)) {
      DeletionTakesRow(h, a, k);
    } else {
      OtherRowsKept(h, a, k);
    }
    hide CreateRequest;
  }

  lemma ColumnsKept(h: Host, a: Action, k: Id, q: Request)
    requires Enabled(h, a) && k in h.db.requests && k in Next(h, a).db.requests && ColumnsOf(h.db.requests[k], q)
    ensures ColumnsOf(Next(h, a).db.requests[k], q)
  {
    hide Next, Enabled;
    if Inserts(h, a, k) {
      InsertedRow(h, a, k);
    } else if Finishes(h, a, k) {
      FinishedRow(h, a, k);
    } else if a == StoreCall(DeleteProjectOp(k.0)) {
      DeletionTakesRow(h, a, k);
    } else {
      OtherRowsKept(h, a, k);
    }
    hide CreateRequest;
  }

  lemma {:induction false} RowMadeBy(runtime: Runtime, run: seq<Action>, k: Id) returns (i: nat)
    requires k in After(runtime, run).db.requests
    ensures i < |After(runtime, run).calls|
    ensures var (h, c) := (After(runtime, run), After(runtime, run).calls[i]); CallKey(c) == k && ColumnsOf(h.db.requests[k], c.request)
  {
    hide Next, Enabled, ColumnsOf;
    var before := run[..|run| - 1];
    var (h, a) := (After(runtime, before), run[|run| - 1]);
    if Enabled(h, a) && k !in h.db.requests {
      RowCreated(h, a, k);
      i := a.i;
    } else {
      i := RowMadeBy(runtime, before, k);
      if Enabled(h, a) {
        ColumnsKept(h, a, k, h.calls[i].request);
      }
    }
    if Enabled(h, a) {
      CallsAfter(h, a);
    }
    hide AskFits;
  }

  lemma AskedFields(m: Msg, q: Request)
    requires AskFits(m) && m.content == Ask(q)
    ensures q.schema == 2 && q.requester == m.sender && q.project == m.project && "" !in [q.id, q.project, q.requester, q.agent]
    ensures |q.body| <= 262_144 && q.bodyDigest == Digest(q.body) && q.createdAt != 0
  {
  }

  /**
   * In every run each request row was made for an accepted message: in the name of its sender, in its Project, for the
   * agent it asks, with the size, at most 256 KiB, and the digest of the very body in that message.
   */
  lemma RowIsTheSenders(runtime: Runtime, run: seq<Action>, k: Id) returns (n: nat)
    requires k in After(runtime, run).db.requests
    ensures n < |After(runtime, run).gate.accepted|
    ensures var (row, m) := (After(runtime, run).db.requests[k], After(runtime, run).gate.accepted[n].msg);
      && m.content.Ask? && k == (m.project, m.content.request.id) && m.kind == "request.ask"
      && row.requester == m.sender && row.agent == m.content.request.agent
      && row.bodyBytes == |m.content.request.body| <= 262_144 && row.bodyDigest == Digest(m.content.request.body)
      && row.createdAt == m.content.request.createdAt != 0 && row.expiresAt == row.createdAt + 300_000_000_000
  {
    RunInv(runtime, run);
    var i := RowMadeBy(runtime, run, k);
    var h := After(runtime, run);
    hide After;
    n := h.calls[i].ask;
    assert CallsSound(h.calls, h.gate.accepted) && AllRouted(h.gate);
    hide Inv, AskFits;
    AskedFields(h.gate.accepted[n].msg, h.calls[i].request);
    KindsExactly(h.gate.accepted[n].msg);
    hide KindFits;
  }

  /** For whom a dispatch is made: the request it carries is the sender's own. */
  lemma DispatchIsTheSenders(runtime: Runtime, run: seq<Action>, i: nat)
    requires i < |After(runtime, run).calls|
    ensures var (h, c) := (After(runtime, run), After(runtime, run).calls[i]);
      && c.ask < |h.gate.accepted| && h.gate.accepted[c.ask].msg.content == Ask(c.request)
      && c.request.requester == h.gate.accepted[c.ask].msg.sender && c.request.project == h.gate.accepted[c.ask].msg.project
      && |c.request.body| <= 262_144 && c.request.bodyDigest == Digest(c.request.body)
  {
    RunInv(runtime, run);
    var h := After(runtime, run);
    hide After;
    assert CallsSound(h.calls, h.gate.accepted);
    hide Inv, AskFits;
    AskedFields(h.gate.accepted[h.calls[i].ask].msg, h.calls[i].request);
  }

  lemma ReplyIsTheSenders(runtime: Runtime, run: seq<Action>, m: Msg, q: Request, r: HostReply)
    requires Answers(After(runtime, run), m, r) && r.AskReply? && m.content == Ask(q)
    ensures q.requester == m.sender && q.project == m.project
  {
    DispatchIsTheSenders(runtime, run, r.call);
    hide After;
  }

  /** Which orders end without a Store call: inquiries, and those that are not allowed or not understood. */
  lemma RefusedExactly(runtime: Runtime, run: seq<Action>, j: nat)
    requires j < |After(runtime, run).jobs|
    ensures var job := After(runtime, run).jobs[j];
      && (!job.stage.Taken? && job.stage.op.None? ==>
          || job.order == Inquiry
          || (!job.stage.ok
              && (job.order == Unknown || (job.order.InviteCreate? && !job.owner)
                  || (job.order.AgentRegister? && (job.order.agent == "" || TrimSpace(job.order.name) == "")))))
      && (!job.stage.Taken? && job.stage.op.Some? ==>
          || (job.order.InviteCreate? && job.owner && job.stage.op.value.AddInvitationOp? && job.stage.op.value.p == job.project)
          || (job.order.MemberRemove? && job.stage.op.value == RemoveMemberOp(job.project, job.member, job.order.target))
          || (job.order.AgentRegister? && job.order.agent != "" && TrimSpace(job.order.name) != ""
              && job.stage.op.value.RegisterAgentOp? && job.stage.op.value.p == job.project && job.stage.op.value.member == job.member
              && job.stage.op.value.agent == job.order.agent && job.stage.op.value.name == job.order.name
              && job.stage.op.value.manifest == job.order.manifest)
          || (job.order.AgentRemove? && job.stage.op.value.RemoveAgentOp? && job.stage.op.value.p == job.project
              && job.stage.op.value.actor == job.member && job.stage.op.value.selector == job.order.selector))
  {
    RunInv(runtime, run);
    var h := After(runtime, run);
    hide After;
    assert JobsHonest(h.jobs);
    hide Inv;
    var job := h.jobs[j];
    assert JobHonest(job);
    if job.order.AgentRegister? {
      BlankIsTrimmed(job.order.name);
    }
    hide IsBlank, TrimSpace;
  }

  lemma ReplyNow(h: Host, a: Action, r: HostReply)
    requires Enabled(h, a) && r in Next(h, a).replies && r !in h.replies
    ensures match r
      case AskReply(i, _, _) => i < |h.calls| && h.calls[i].request.project in h.hosting
      case OpReply(j, _) => j < |h.jobs| && h.jobs[j].project in h.hosting
      case IdentityReply(p, challenge) => p in h.hosting && challenge != ""
      case JoinReply(p, nonce) => p in h.hosting && exists member :: Joiner(p, member, nonce) in h.doors.joined && (p, member) in h.db.members
  {
    hide Next, Enabled, NextCalls, NextJobs, NextCallOf, Selects, VerifyMsg, Carries;
    DeskPart(h, a);
    IsReady(h, a);
  }

  /** The Project that a reply is for. */
  ghost predicate ForProject(h: Host, r: HostReply, p: string) {
    match r
    case AskReply(i, _, _) => i < |h.calls| && h.calls[i].request.project == p
    case OpReply(j, _) => j < |h.jobs| && h.jobs[j].project == p
    case IdentityReply(project, _) => project == p
    case JoinReply(project, _) => project == p
  }

  /** Every ok result was signed while the device had the identity of its Project, which was there. */
  lemma {:induction false} SignedWhileHosted(runtime: Runtime, run: seq<Action>, r: HostReply) returns (n: nat, p: string)
    requires r in After(runtime, run).replies
    ensures n < |run| && ForProject(After(runtime, run[..n]), r, p)
    ensures p in After(runtime, run[..n]).hosting && p in After(runtime, run[..n]).db.projects
  {
    hide Next, Enabled;
    var before := run[..|run| - 1];
    var (h, a) := (After(runtime, before), run[|run| - 1]);
    if Enabled(h, a) && r !in h.replies {
      n := |run| - 1;
      ReplyNow(h, a, r);
      p := match r
        case AskReply(i, _, _) => h.calls[i].request.project
        case OpReply(j, _) => h.jobs[j].project
        case IdentityReply(project, _) => project
        case JoinReply(project, _) => project;
      RunInv(runtime, before);
      assert HostingLive(h);
      hide Inv;
    } else {
      n, p := SignedWhileHosted(runtime, before, r);
      assert before[..n] == run[..n];
    }
  }

  /** The ask has returned. */
  predicate Ended(c: Call) {
    c.stage.Closed? || c.stage.Replied? || c.stage.NoIdentity?
  }

  /** The only way to return with the row still running is the host-identity error. */
  lemma LeftRunningExactly(runtime: Runtime, run: seq<Action>, i: nat)
    requires i < |After(runtime, run).calls| && Ended(After(runtime, run).calls[i])
    requires After(runtime, run).calls[i].request.project in After(runtime, run).db.projects
    ensures var (h, c) := (After(runtime, run), After(runtime, run).calls[i]);
      && CallKey(c) in h.db.requests
      && (h.db.requests[CallKey(c)].status == Running <==> c.stage.NoIdentity?)
  {
    RunInv(runtime, run);
    hide After, HostingLive, RowsRight;
    EndedRow(After(runtime, run), i);
  }

  lemma EndedRow(h: Host, i: nat)
    requires HostingLive(h) && RowsRight(h) && i < |h.calls| && Ended(h.calls[i]) && h.calls[i].request.project in h.db.projects
    ensures CallKey(h.calls[i]) in h.db.requests
    ensures h.db.requests[CallKey(h.calls[i])].status == Running <==> h.calls[i].stage.NoIdentity?
  {
    assert RowRight(h, i);
  }

  /** What a deleted Project can leave behind in any run: unused invitations and request rows, and nothing else. */
  lemma DeletedLeavesOnly(runtime: Runtime, run: seq<Action>, p: string)
    requires p in After(runtime, run).deleted
    ensures var db := After(runtime, run).db;
      && p !in db.projects
      && (forall k :: k in db.members || k in db.agents ==> k.0 != p)
      && (forall k :: k in db.invitations && k.0 == p ==> db.invitations[k].consumedAt.None?)
  {
    RunInv(runtime, run);
    var h := After(runtime, run);
    hide After;
    assert StoreInvariants.Sound(h.db) && HostingLive(h);
    hide Inv;
    NoProjectNoRows(h.db, p);
  }

  lemma NoProjectNoRows(db: DB, p: string)
    requires StoreInvariants.Sound(db) && p !in db.projects
    ensures forall k :: k in db.members || k in db.agents ==> k.0 != p
    ensures forall k :: k in db.invitations && k.0 == p ==> db.invitations[k].consumedAt.None?
  {
    assert StoreInvariants.Hosted(db) && StoreInvariants.OwnersLive(db) && StoreInvariants.ConsumedLive(db);
    forall k | k in db.agents ensures k.0 != p {
      assert (k.0, db.agents[k].owner) in db.members;
    }
  }

  // ---- Ownership and revocation --------------------------------------------------------------

  lemma AttachedIsOwned(h: Host, p: string, agent: string)
    requires StoreInvariants.Sound(h.db) && Correlation.Shaped(h.bs) && OwnersSound(h) && !h.doors.reused
    requires (p, agent) in h.db.agents && ProviderKey(p, agent) in h.bs.core.providers
    ensures var c := h.bs.core.providers[ProviderKey(p, agent)];
      c < |h.bs.conns| && h.bs.conns[c].project == p && h.bs.conns[c].agent == agent
      && h.bs.conns[c].member == h.db.agents[(p, agent)].owner && (p, h.bs.conns[c].member) in h.db.members
  {
    assert (p, h.db.agents[(p, agent)].owner) in h.db.members;
    assert StoreInvariants.Hosted(h.db);
    var conn := h.bs.conns[h.bs.core.providers[ProviderKey(p, agent)]];
    ProviderKeyInjective(conn.project, conn.agent, p, agent);
    assert Owned(h.doors, p, agent, h.db.agents[(p, agent)].owner) && Owned(h.doors, p, agent, conn.member);
  }

  /** An attached connection for a stored agent belongs to that agent's owner, who is a member, if no agent id was reused. */
  lemma AttachedBelongsToOwner(runtime: Runtime, run: seq<Action>, p: string, agent: string)
    requires (p, agent) in After(runtime, run).db.agents && ProviderKey(p, agent) in After(runtime, run).bs.core.providers
    requires !After(runtime, run).doors.reused
    ensures var h := After(runtime, run);
      var c := h.bs.core.providers[ProviderKey(p, agent)];
      c < |h.bs.conns| && h.bs.conns[c].project == p && h.bs.conns[c].agent == agent
      && h.bs.conns[c].member == h.db.agents[(p, agent)].owner && (p, h.bs.conns[c].member) in h.db.members
  {
    RunInv(runtime, run);
    hide After, OwnersSound, Correlation.Shaped, StoreInvariants.Sound;
    AttachedIsOwned(After(runtime, run), p, agent);
  }

  lemma DispatchedToOwner(h: Host, i: nat)
    requires Correlation.Inv(h.bs) && LinksSound(h.calls, h.callOf, h.bs.tickets) && OwnersSound(h) && !h.doors.reused
    requires i < |h.calls| && h.calls[i].ticket.Some? && h.calls[i].row == h.calls[i].request.agent
    ensures var c := h.calls[i];
      && c.ticket.value < |h.bs.tickets| && h.bs.tickets[c.ticket.value].conn < |h.bs.conns|
      && h.bs.conns[h.bs.tickets[c.ticket.value].conn].member == c.rowOwner
  {
    var c := h.calls[i];
    assert LinkFits(c, i, h.callOf, h.bs.tickets);
    WrittenToTheAgent(h, c.ticket.value);
    hide Correlation.Inv;
    var conn := h.bs.conns[h.bs.tickets[c.ticket.value].conn];
    assert Owned(h.doors, c.request.project, c.row, c.rowOwner) && Owned(h.doors, conn.project, conn.agent, conn.member);
  }

  /** An ask that found its agent by id is written to a connection of the member who owned the agent at that lookup. */
  lemma ReachesTheOwner(runtime: Runtime, run: seq<Action>, i: nat)
    requires i < |After(runtime, run).calls| && After(runtime, run).calls[i].ticket.Some? && !After(runtime, run).doors.reused
    requires After(runtime, run).calls[i].row == After(runtime, run).calls[i].request.agent
    ensures var (h, c) := (After(runtime, run), After(runtime, run).calls[i]);
      && c.ticket.value < |h.bs.tickets| && h.bs.tickets[c.ticket.value].conn < |h.bs.conns|
      && h.bs.conns[h.bs.tickets[c.ticket.value].conn].member == c.rowOwner
  {
    RunInv(runtime, run);
    hide After, OwnersSound, Correlation.Inv, LinksSound;
    DispatchedToOwner(After(runtime, run), i);
  }

  /** Action `n` of the run removes member `m`. */
  ghost predicate Removes(runtime: Runtime, run: seq<Action>, n: nat, p: string, actor: string, m: string) {
    && n < |run| && Enabled(After(runtime, run[..n]), run[n])
    && run[n].Execute? && run[n].op == RemoveMemberOp(p, actor, m)
    && RemoveMember(After(runtime, run[..n]).db, p, actor, m).1.None?
  }

  /** Nothing after action `n` makes `m` a member again. */
  ghost predicate StaysAway(run: seq<Action>, n: nat, p: string, m: string) {
    forall j :: n < j < |run| && run[j].StoreCall? ==> !StoreInvariants.Readmits(run[j].op, p, m)
  }

  lemma OnlyStoreCallsReadmit(h: Host, a: Action, p: string, m: string)
    requires Enabled(h, a) && OpOf(h, a).Some? && StoreInvariants.Readmits(OpOf(h, a).value, p, m)
    ensures a.StoreCall? && a.op == OpOf(h, a).value
  {
    hide Correlation.Enabled, Selects, VerifyMsg, Apply;
  }

  lemma MembersAfter(h: Host, a: Action, p: string, m: string)
    requires Enabled(h, a) && (p, m) !in h.db.members
    requires a.StoreCall? ==> !StoreInvariants.Readmits(a.op, p, m)
    ensures (p, m) !in Next(h, a).db.members
  {
    StoreMoves(h, a);
    if OpOf(h, a).Some? {
      if StoreInvariants.Readmits(OpOf(h, a).value, p, m) {
        OnlyStoreCallsReadmit(h, a, p, m);
      } else {
        StoreInvariants.StaysOut(h.db, OpOf(h, a).value, p, m);
      }
    }
    hide Next, Enabled, Apply, OpOf, StoreInvariants.Readmits;
  }

  lemma RemovedNow(h: Host, a: Action, p: string, actor: string, m: string)
    requires Enabled(h, a) && a.Execute? && a.op == RemoveMemberOp(p, actor, m) && RemoveMember(h.db, p, actor, m).1.None?
    ensures (p, m) !in Next(h, a).db.members
  {
  }

  /** From a removal on, until a re-admission, the member is out. */
  lemma {:induction false} RemovalLasts(runtime: Runtime, run: seq<Action>, n: nat, p: string, actor: string, m: string)
    requires Removes(runtime, run, n, p, actor, m) && StaysAway(run, n, p, m)
    ensures (p, m) !in After(runtime, run).db.members
    decreases |run|
  {
    hide Next, Enabled, RemoveMember;
    var before := run[..|run| - 1];
    var (h, a) := (After(runtime, before), run[|run| - 1]);
    if n == |run| - 1 {
      assert before == run[..n];
      RemovedNow(h, a, p, actor, m);
    } else {
      assert before[..n] == run[..n];
      RemovalLasts(runtime, before, n, p, actor, m);
      if Enabled(h, a) {
        MembersAfter(h, a, p, m);
      }
    }
  }

  lemma VisitorsAfter(h: Host, a: Action, v: Visit)
    requires Enabled(h, a) && v in Next(h, a).gate.visits && v !in h.gate.visits
    ensures (v.msg.project, v.msg.sender) in h.db.members
  {
    if !a.Tick? && !a.Arrive? && !a.Accept? {
      GateKept(h, a);
      hide Next, Enabled;
    }
    hide Correlation.Next, Correlation.Enabled, AcceptStep, Apply;
  }

  /** From a removal on, until a re-admission, authenticate's lookup refuses the member; only lookups made before are left. */
  lemma {:induction false} NoNewVisits(runtime: Runtime, run: seq<Action>, n: nat, p: string, actor: string, m: string, v: Visit)
    requires Removes(runtime, run, n, p, actor, m) && StaysAway(run, n, p, m)
    requires v in After(runtime, run).gate.visits && v.msg.project == p && v.msg.sender == m
    ensures v in After(runtime, run[..n + 1]).gate.visits
    decreases |run|
  {
    hide Next, Enabled, RemoveMember;
    var before := run[..|run| - 1];
    var (h, a) := (After(runtime, before), run[|run| - 1]);
    if n == |run| - 1 {
      assert run[..n + 1] == run;
    } else {
      assert before[..n] == run[..n] && before[..n + 1] == run[..n + 1];
      RemovalLasts(runtime, before, n, p, actor, m);
      if Enabled(h, a) && v !in h.gate.visits {
        VisitorsAfter(h, a, v);
      }
      NoNewVisits(runtime, before, n, p, actor, m, v);
    }
  }

  /**
   * Revocation, first half: no message of the removed member gets past authenticate's lookup; what is accepted after
   * the removal was looked up before it.
   */
  lemma RemovedCannotAuthenticate(runtime: Runtime, run: seq<Action>, n: nat, p: string, actor: string, m: string)
    requires Removes(runtime, run, n, p, actor, m) && StaysAway(run, n, p, m)
    ensures forall msg: Msg :: msg.project == p && msg.sender == m ==> !Enabled(After(runtime, run), Arrive(msg))
    ensures forall v: Visit :: v.msg.project == p && v.msg.sender == m && Enabled(After(runtime, run), Accept(v)) ==>
      v in After(runtime, run[..n + 1]).gate.visits
    ensures (p, m) !in After(runtime, run).db.members
  {
    RemovalLasts(runtime, run, n, p, actor, m);
    forall v: Visit | v.msg.project == p && v.msg.sender == m && Enabled(After(runtime, run), Accept(v))
      ensures v in After(runtime, run[..n + 1]).gate.visits
    {
      AcceptsVisitors(After(runtime, run), v);
      NoNewVisits(runtime, run, n, p, actor, m, v);
    }
    hide After, Removes;
  }

  lemma AcceptsVisitors(h: Host, v: Visit)
    requires Enabled(h, Accept(v))
    ensures v in h.gate.visits
  {
  }

  /** What a later run does not change about an ask that has done its lookup. */
  lemma {:induction false} LookupLasts(runtime: Runtime, run: seq<Action>, n: nat, i: nat)
    requires n <= |run| && i < |After(runtime, run[..n]).calls| && !After(runtime, run[..n]).calls[i].stage.Arrived?
    ensures i < |After(runtime, run).calls| && !After(runtime, run).calls[i].stage.Arrived?
    ensures After(runtime, run).calls[i].row == After(runtime, run[..n]).calls[i].row
    ensures After(runtime, run).calls[i].rowOwner == After(runtime, run[..n]).calls[i].rowOwner
    ensures After(runtime, run).calls[i].request == After(runtime, run[..n]).calls[i].request
    decreases |run|
  {
    hide Next, Enabled;
    if n == |run| {
      assert run[..n] == run;
    } else {
      var before := run[..|run| - 1];
      assert before[..n] == run[..n];
      LookupLasts(runtime, before, n, i);
      var (h, a) := (After(runtime, before), run[|run| - 1]);
      if Enabled(h, a) {
        RowStays(h, a, i);
        CallsAfter(h, a);
      }
    }
    hide AskFits;
  }

  lemma FoundIs(h: Host, i: nat, agent: string)
    requires Enabled(h, Find(i, agent)) && StoreInvariants.OwnersLive(h.db)
    ensures var c := Next(h, Find(i, agent)).calls[i];
      && (h.calls[i].request.project, agent) in h.db.agents
      && (agent == h.calls[i].request.agent || h.db.agents[(h.calls[i].request.project, agent)].name == h.calls[i].request.agent)
      && c.row == agent && c.rowOwner == h.db.agents[(h.calls[i].request.project, agent)].owner && !c.stage.Arrived?
      && c.request == h.calls[i].request && (c.request.project, c.rowOwner) in h.db.members
  {
  }

  /** What the lookup found stays with the ask to the end of the run. */
  lemma FoundLasts(runtime: Runtime, run: seq<Action>, n: nat, i: nat, agent: string)
    requires n < |run| && run[n] == Find(i, agent) && Enabled(After(runtime, run[..n]), run[n]) && i < |After(runtime, run[..n]).calls|
    ensures i < |After(runtime, run).calls|
    ensures var (h0, c) := (After(runtime, run[..n]), After(runtime, run).calls[i]);
      && c.request == h0.calls[i].request && (c.request.project, agent) in h0.db.agents
      && (agent == c.request.agent || h0.db.agents[(c.request.project, agent)].name == c.request.agent)
      && c.row == agent && (c.request.project, c.rowOwner) in h0.db.members
  {
    hide Inv, Next, Enabled, After, StoreInvariants.OwnersLive;
    var h0 := After(runtime, run[..n]);
    OwnersAreLive(runtime, run[..n]);
    Extend(runtime, run[..n], run[n]);
    assert run[..n] + [run[n]] == run[..n + 1];
    FoundIs(h0, i, agent);
    FoundNow(h0, i, agent);
    LookupLasts(runtime, run, n + 1, i);
  }

  lemma OwnersAreLive(runtime: Runtime, run: seq<Action>)
    ensures StoreInvariants.OwnersLive(After(runtime, run).db)
  {
    hide After;
    RunInv(runtime, run);
  }

  lemma FoundNow(h: Host, i: nat, agent: string)
    requires Enabled(h, Find(i, agent))
    ensures i < |h.calls| == |Next(h, Find(i, agent)).calls|
  {
  }

  /**
   * Revocation, second half: an ask whose lookup comes when `m` is out is not written to a connection of `m`,
   * even one that is still attached, unless the lookup matched another agent by name.
   */
  lemma RemovedIsNotReached(runtime: Runtime, run: seq<Action>, n: nat, i: nat, agent: string, m: string)
    requires n < |run| && run[n] == Find(i, agent) && Enabled(After(runtime, run[..n]), run[n])
    requires i < |After(runtime, run[..n]).calls|
    requires (After(runtime, run[..n]).calls[i].request.project, m) !in After(runtime, run[..n]).db.members
    requires i < |After(runtime, run).calls| && After(runtime, run).calls[i].ticket.Some? && !After(runtime, run).doors.reused
    ensures var (h, c) := (After(runtime, run), After(runtime, run).calls[i]);
      && c.ticket.value < |h.bs.tickets| && h.bs.tickets[c.ticket.value].conn < |h.bs.conns|
      && (h.bs.conns[h.bs.tickets[c.ticket.value].conn].member == m ==>
          && agent != c.request.agent
          && (c.request.project, agent) in After(runtime, run[..n]).db.agents
          && After(runtime, run[..n]).db.agents[(c.request.project, agent)].name == c.request.agent)
  {
    hide Next, Enabled, After;
    FoundLasts(runtime, run, n, i, agent);
    TicketHasConn(runtime, run, i);
    if agent == After(runtime, run).calls[i].request.agent {
      ReachesTheOwner(runtime, run, i);
    }
  }

  lemma TicketHasConn(runtime: Runtime, run: seq<Action>, i: nat)
    requires i < |After(runtime, run).calls| && After(runtime, run).calls[i].ticket.Some?
    ensures var (h, t) := (After(runtime, run), After(runtime, run).calls[i].ticket.value);
      t < |h.bs.tickets| && h.bs.tickets[t].conn < |h.bs.conns|
  {
    RunInv(runtime, run);
    var h := After(runtime, run);
    hide After;
    assert LinkFits(h.calls[i], i, h.callOf, h.bs.tickets);
    WrittenToTheAgent(h, h.calls[i].ticket.value);
    hide Inv;
  }

  /** Run without interruption from its lookup, the ask is put to a connection of `m`. */
  ghost predicate Reaches(h: Host, i: nat, agent: string, nonce: string, m: string) {
    && Enabled(h, Find(i, agent)) && Enabled(Next(h, Find(i, agent)), Insert(i))
    && (var inserted := Next(Next(h, Find(i, agent)), Insert(i));
        && Enabled(inserted, ReadIdentity(i)) && Enabled(Next(inserted, ReadIdentity(i)), Dispatch(i, nonce))
        && (var bs := Next(Next(inserted, ReadIdentity(i)), Dispatch(i, nonce)).bs;
            && |bs.tickets| == |h.bs.tickets| + 1 && bs.tickets[|h.bs.tickets|].conn < |bs.conns|
            && bs.conns[bs.tickets[|h.bs.tickets|].conn].member == m))
  }

  /** The ask could be dispatched, and the connection that is attached for its agent is one of `m`. */
  ghost predicate StillAttached(h: Host, i: nat, nonce: string, m: string) {
    && AtStage(h, i, Arrived) && CallKey(h.calls[i]) !in h.db.requests && h.calls[i].request.project in h.hosting
    && ProviderOf(h.calls[i]) in h.bs.core.providers
    && h.bs.core.providers[ProviderOf(h.calls[i])] < |h.bs.conns| && h.bs.conns[h.bs.core.providers[ProviderOf(h.calls[i])]].member == m
    && Lacks(NUL, h.calls[i].request.project) && nonce != "" && forall t :: 0 <= t < |h.bs.tickets| ==> h.bs.tickets[t].nonce != nonce
  }

  lemma FindStep(h: Host, i: nat, agent: string)
    requires Enabled(h, Find(i, agent))
    ensures var found := Next(h, Find(i, agent));
      && found == h.(calls := found.calls) && |found.calls| == |h.calls| && found.calls[i].request == h.calls[i].request
      && (h.calls[i].request.project, agent) in h.db.agents
      && found.calls[i].stage == if h.db.agents[(h.calls[i].request.project, agent)].online then Found else Refused
  {
  }

  lemma InsertStep(h: Host, i: nat)
    requires AtStage(h, i, Found) && CallKey(h.calls[i]) !in h.db.requests
    ensures Enabled(h, Insert(i))
    ensures var inserted := Next(h, Insert(i));
      && inserted == h.(calls := inserted.calls, db := inserted.db) && |inserted.calls| == |h.calls|
      && inserted.calls[i] == h.calls[i].(stage := Inserted)
  {
  }

  lemma IdentityStep(h: Host, i: nat)
    requires AtStage(h, i, Inserted) && h.calls[i].request.project in h.hosting
    ensures Enabled(h, ReadIdentity(i))
    ensures var read := Next(h, ReadIdentity(i));
      read == h.(calls := read.calls) && |read.calls| == |h.calls| && read.calls[i] == h.calls[i].(stage := Identified)
  {
  }

  lemma DispatchStep(h: Host, i: nat, nonce: string)
    requires CanDispatch(h, i, nonce) && Lacks(NUL, h.calls[i].request.project)
    ensures Enabled(h, Dispatch(i, nonce))
    ensures var bs := Next(h, Dispatch(i, nonce)).bs;
      |bs.tickets| == |h.bs.tickets| + 1 && bs.conns == h.bs.conns && bs.tickets[|h.bs.tickets|].conn == h.bs.core.providers[ProviderOf(h.calls[i])]
  {
  }

  lemma OnlineLookupReaches(h: Host, i: nat, agent: string, nonce: string, m: string)
    requires StillAttached(h, i, nonce, m) && Enabled(h, Find(i, agent))
    ensures (h.calls[i].request.project, agent) in h.db.agents
    ensures Reaches(h, i, agent, nonce, m) <==> h.db.agents[(h.calls[i].request.project, agent)].online
  {
    FindStep(h, i, agent);
    var found := Next(h, Find(i, agent));
    if h.db.agents[(h.calls[i].request.project, agent)].online {
      InsertStep(found, i);
      var inserted := Next(found, Insert(i));
      IdentityStep(inserted, i);
      DispatchStep(Next(inserted, ReadIdentity(i)), i, nonce);
      hide Next, Enabled;
    } else {
      InsertsFound(found, i);
      hide Next, Enabled;
    }
  }

  lemma InsertsFound(h: Host, i: nat)
    ensures Enabled(h, Insert(i)) ==> i < |h.calls| && h.calls[i].stage.Found?
  {
  }

  /** A stored agent, online, carries the id that the ask names as its name. */
  predicate Shadowed(db: DB, p: string, agent: string, other: string) {
    other != agent && (p, other) in db.agents && db.agents[(p, other)].name == agent && db.agents[(p, other)].online
  }

  lemma FindEnabled(h: Host, i: nat, agent: string)
    ensures Enabled(h, Find(i, agent)) <==>
      AtStage(h, i, Arrived) && Selects(h.db, h.calls[i].request.project, h.calls[i].request.agent, agent)
  {
  }

  /**
   * Exactly when revocation fails: with `m` out and its old connection still attached, an ask can reach that
   * connection if and only if another agent of the Project that is online is named like the agent id of the ask.
   */
  lemma RemovedReachedExactly(runtime: Runtime, run: seq<Action>, i: nat, nonce: string, m: string)
    requires StillAttached(After(runtime, run), i, nonce, m) && !After(runtime, run).doors.reused
    requires (After(runtime, run).calls[i].request.project, m) !in After(runtime, run).db.members
    ensures var (h, q) := (After(runtime, run), After(runtime, run).calls[i].request);
      (exists agent :: Reaches(h, i, agent, nonce, m)) <==> exists other :: Shadowed(h.db, q.project, q.agent, other)
  {
    var h := After(runtime, run);
    var q := h.calls[i].request;
    if (q.project, q.agent) in h.db.agents {
      AttachedBelongsToOwner(runtime, run, q.project, q.agent);
      assert false;
    }
    hide After, Next, Enabled;
    forall agent
      ensures Enabled(h, Find(i, agent)) ==> (Reaches(h, i, agent, nonce, m) <==> Shadowed(h.db, q.project, q.agent, agent))
      ensures Shadowed(h.db, q.project, q.agent, agent) ==> Enabled(h, Find(i, agent))
    {
      FindEnabled(h, i, agent);
      if Enabled(h, Find(i, agent)) {
        OnlineLookupReaches(h, i, agent, nonce, m);
      }
    }
    hide Shadowed;
  }

  // ---- The online flag -----------------------------------------------------------------------

  /** Connection `c` still runs although another one has been attached for its agent, and its cleanup has not been done. */
  ghost predicate Replaced(h: Host, c: nat) {
    && HasLine(h, c) && h.bs.conns[c].open && h.floor.lines[c].marked && !h.floor.lines[c].cleaned
    && (var key := ProviderKey(h.bs.conns[c].project, h.bs.conns[c].agent); key in h.bs.core.providers && h.bs.core.providers[key] != c)
  }

  /**
   * The online flag is not the attached connection: when a replaced connection ends, its cleanup leaves its successor
   * attached and marks the agent offline, if its row is still its owner's.
   */
  lemma LateCleanupMarksOffline(runtime: Runtime, run: seq<Action>, c: nat)
    requires Replaced(After(runtime, run), c)
    requires var (h, conn) := (After(runtime, run), After(runtime, run).bs.conns[c]);
      (conn.project, conn.agent) in h.db.agents && h.db.agents[(conn.project, conn.agent)].owner == conn.member
    ensures var (h, after) := (After(runtime, run), After(runtime, run + [BrokerAction(Correlation.Disconnect(c))] + [MarkOffline(c)]));
      var conn := h.bs.conns[c];
      && after.bs.core == h.bs.core
      && (conn.project, conn.agent) in after.db.agents && !after.db.agents[(conn.project, conn.agent)].online
  {
    var h := After(runtime, run);
    SilentDisconnect(h, c);
    var hung := Next(h, BrokerAction(Correlation.Disconnect(c)));
    MarkedOffline(hung, c);
    hide Next, Enabled;
    Extend(runtime, run, BrokerAction(Correlation.Disconnect(c)));
    Extend(runtime, run + [BrokerAction(Correlation.Disconnect(c))], MarkOffline(c));
    hide After;
  }

  lemma SilentDisconnect(h: Host, c: nat)
    requires Replaced(h, c)
    ensures Enabled(h, BrokerAction(Correlation.Disconnect(c)))
    ensures var hung := Next(h, BrokerAction(Correlation.Disconnect(c)));
      && hung == h.(bs := hung.bs) && hung.bs.core == h.bs.core && |hung.bs.conns| == |h.bs.conns|
      && hung.bs.conns[c] == h.bs.conns[c].(open := false)
  {
  }

  lemma MarkedOffline(h: Host, c: nat)
    requires HasLine(h, c) && !h.bs.conns[c].open && !h.floor.lines[c].cleaned
    requires var conn := h.bs.conns[c];
      (conn.project, conn.agent) in h.db.agents && h.db.agents[(conn.project, conn.agent)].owner == conn.member
    ensures Enabled(h, MarkOffline(c))
    ensures var (after, k) := (Next(h, MarkOffline(c)), (h.bs.conns[c].project, h.bs.conns[c].agent));
      after.bs == h.bs && k in after.db.agents && !after.db.agents[k].online
  {
  }
}
