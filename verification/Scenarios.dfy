/** Runs of the host, step by step from its start, that reach the states the exceptions are about. */
module Scenarios {
  import opened Base
  import opened Signing
  import opened Tables
  import opened Replay
  import opened Server
  import opened Broker
  import opened Provider
  import opened Host
  import opened HostInvariants
  import opened HostTheorems
  import Correlation
  import Invitations
  import StoreInvariants
  import Client
  import Responses
  import EndToEnd

  // ---- One signed message, from arrival to acceptance ----------------------------------------

  /** The message is complete, on its route, signed with its member's key, and dated now. */
  predicate Valid(h: Host, m: Msg) {
    && (m.project, m.sender) in h.db.members && h.db.members[(m.project, m.sender)].key == m.signer && |m.signer| == KEY_SIZE
    && m.schema == SCHEMA_VERSION && m.project != "" && m.sender != "" && m.kind != "" && m.nonce != "" && Routed(m)
    && m.timestamp == h.gate.clock
  }

  ghost predicate NewNonce(g: Gate, m: Msg) {
    && Lacks(NUL, m.nonce)
    && forall i :: 0 <= i < |g.accepted| ==> g.accepted[i].msg.nonce != m.nonce && Lacks(NUL, g.accepted[i].msg.nonce)
  }

  lemma KeysDiffer(m: Msg, n: Msg)
    requires Lacks(NUL, m.nonce) && Lacks(NUL, n.nonce) && m.nonce != n.nonce
    ensures MessageKey(m) != MessageKey(n)
  {
    var (xs, ys) := ([m.project, m.sender, m.nonce], [n.project, n.sender, n.nonce]);
    JoinSnoc(NUL, xs);
    JoinSnoc(NUL, ys);
    if MessageKey(m) == MessageKey(n) {
      TailsAgree(NUL, xs[2], ys[2], Signing.Join(NUL, xs[..2]), Signing.Join(NUL, ys[..2]));
      assert false;
    }
  }

  lemma NewKnockPasses(g: Gate, m: Msg)
    requires GateSound(g) && NewNonce(g, m)
    ensures Knock(g, m).1 && Knock(g, m).0 == g.(checked := g.clock, seen := Knock(g, m).0.seen, accepted := g.accepted + [Acceptance(m, g.clock)])
  {
    KnockHolds(g, m);
    var log := Log(g.accepted);
    forall i | 0 <= i < |log| ensures log[i].key != MessageKey(m) {
      KeysDiffer(g.accepted[i].msg, m);
    }
    hide Holds, AcceptStep, MessageKey, OnceEach, Timely;
  }

  function VisitOf(h: Host, m: Msg): Visit
    requires (m.project, m.sender) in h.db.members
  {
    Visit(m, h.db.members[(m.project, m.sender)].key, IsOwner(h.db, m.project, m.sender))
  }

  lemma ArriveStep(h: Host, m: Msg)
    requires Valid(h, m)
    ensures Enabled(h, Arrive(m)) && Next(h, Arrive(m)) == h.(gate := h.gate.(visits := h.gate.visits + {VisitOf(h, m)}))
  {
  }

  lemma AcceptsNow(h: Host, v: Visit)
    requires v in h.gate.visits && v.key == v.msg.signer && |v.key| == KEY_SIZE
    requires var m := v.msg;
      m.schema == SCHEMA_VERSION && m.project != "" && m.sender != "" && m.kind != "" && m.nonce != "" && Routed(m) && m.timestamp == h.gate.clock
    requires GateSound(h.gate) && NewNonce(h.gate, v.msg)
    ensures Enabled(h, Accept(v))
    ensures var (m, after) := (v.msg, Next(h, Accept(v)));
      && after == h.(gate := after.gate, doors := after.doors, calls := after.calls, jobs := after.jobs)
      && after.gate.accepted == h.gate.accepted + [Acceptance(m, h.gate.clock)] && after.gate.clock == h.gate.clock
      && after.doors == (if m.content.Connect? && m.verb == GET
                         then h.doors.(guests := h.doors.guests + {Guest(m.project, m.sender, v.key, m.content.agent)}) else h.doors)
      && after.calls == (if AskFits(m) then h.calls + [Call(m.content.request, |h.gate.accepted|, Arrived, None, "", "")] else h.calls)
      && after.jobs == (if m.content.Perform?
                        then h.jobs + [Job(m.project, m.sender, v.owner, m.content.order, |h.gate.accepted|, Taken)] else h.jobs)
  {
    NewKnockPasses(h.gate, v.msg);
    hide Knock, GateSound, NewNonce;
  }

  /** After the message was accepted: what Accept adds, and nothing else. */
  ghost predicate Admitted(h: Host, after: Host, m: Msg) {
    && after == h.(gate := after.gate, doors := after.doors, calls := after.calls, jobs := after.jobs)
    && after.gate.clock == h.gate.clock && after.gate.accepted == h.gate.accepted + [Acceptance(m, h.gate.clock)]
    && after.doors == (if m.content.Connect? && m.verb == GET
                       then h.doors.(guests := h.doors.guests + {Guest(m.project, m.sender, m.signer, m.content.agent)}) else h.doors)
    && after.calls == (if AskFits(m) then h.calls + [Call(m.content.request, |h.gate.accepted|, Arrived, None, "", "")] else h.calls)
    && after.jobs == (if m.content.Perform?
                      then h.jobs + [Job(m.project, m.sender, IsOwner(h.db, m.project, m.sender), m.content.order, |h.gate.accepted|, Taken)]
                      else h.jobs)
  }

  lemma GateIsSound(runtime: Runtime, run: seq<Action>)
    ensures GateSound(After(runtime, run).gate)
  {
    hide After;
    RunInv(runtime, run);
  }

  lemma Submit(runtime: Runtime, run: seq<Action>, m: Msg) returns (run': seq<Action>)
    requires Valid(After(runtime, run), m) && NewNonce(After(runtime, run).gate, m)
    ensures run' == run + [Arrive(m)] + [Accept(VisitOf(After(runtime, run), m))]
    ensures Admitted(After(runtime, run), After(runtime, run'), m)
  {
    var h := After(runtime, run);
    var v := VisitOf(h, m);
    hide After, Next, Enabled, GateSound;
    ArriveStep(h, m);
    Extend(runtime, run, Arrive(m));
    var arrived := After(runtime, run + [Arrive(m)]);
    GateIsSound(runtime, run + [Arrive(m)]);
    AcceptsNow(arrived, v);
    Extend(runtime, run + [Arrive(m)], Accept(v));
    run' := run + [Arrive(m)] + [Accept(v)];
  }

  // ---- An operation --------------------------------------------------------------------------

  lemma ExecuteStep(h: Host, j: nat, op: Op)
    requires JobAt(h, j, Taken) && Carries(h.jobs[j], op, h.gate.clock) && !op.RemoveAgentOp?
    ensures Enabled(h, Execute(j, op))
    ensures var after := Next(h, Execute(j, op));
      after == h.(jobs := after.jobs, db := Apply(h.db, op).0, doors := Record(h.doors, h.db, op))
  {
    hide Apply, Record;
  }

  /** A member's order, submitted and carried out at once; the Store call is action number |run| + 2. */
  lemma Order(runtime: Runtime, run: seq<Action>, m: Msg, op: Op) returns (run': seq<Action>)
    requires Valid(After(runtime, run), m) && NewNonce(After(runtime, run).gate, m) && m.content.Perform? && !op.RemoveAgentOp?
    requires var h := After(runtime, run);
      Carries(Job(m.project, m.sender, IsOwner(h.db, m.project, m.sender), m.content.order, |h.gate.accepted|, Taken), op, h.gate.clock)
    ensures |run'| == |run| + 3 && run' == run + run'[|run|..] && run'[|run|].Arrive? && run'[|run| + 1].Accept?
    ensures run'[|run| + 2].Execute? && run'[|run| + 2].op == op
    ensures Enabled(After(runtime, run'[..|run| + 2]), run'[|run| + 2]) && After(runtime, run'[..|run| + 2]).db == After(runtime, run).db
    ensures var (h, after) := (After(runtime, run), After(runtime, run'));
      && after == h.(gate := after.gate, doors := Record(h.doors, h.db, op), jobs := after.jobs, db := Apply(h.db, op).0)
      && after.gate.clock == h.gate.clock && after.gate.accepted == h.gate.accepted + [Acceptance(m, h.gate.clock)]
  {
    hide After, Next, Enabled, Apply, Record, Carries, Valid, NewNonce, IsOwner;
    var mid := Submit(runtime, run, m);
    var h := After(runtime, mid);
    var j := |h.jobs| - 1;
    assert h.jobs[j].stage == Taken;
    ExecuteStep(h, j, op);
    Extend(runtime, mid, Execute(j, op));
    run' := mid + [Execute(j, op)];
    assert run'[..|run| + 2] == mid;
    assert run'[|run|..] == [run'[|run|], run'[|run| + 1], run'[|run| + 2]];
  }

  // ---- A provider connection -----------------------------------------------------------------

  /** The connection that a welcome for row `agent` makes. */
  function GreetedFor(guest: Guest, agent: string): Greeted {
    Greeted(Correlation.Conn(guest.project, agent, guest.member, guest.key, true), guest.selector)
  }

  lemma WelcomeStep(h: Host, guest: Guest, agent: string)
    requires guest in h.doors.guests && Selects(h.db, guest.project, guest.selector, agent)
    requires h.db.agents[(guest.project, agent)].owner == guest.member
    ensures Enabled(h, Welcome(guest, agent))
    ensures Next(h, Welcome(guest, agent)) == h.(doors := h.doors.(welcomed := h.doors.welcomed + {GreetedFor(guest, agent)}))
  {
  }

  function FreshLine(agent: string, marked: bool): Line {
    Line(agent, marked, false, [], Loop(map[], map[], [], [], true))
  }

  lemma AttachStepOf(h: Host, g: Greeted)
    requires g in h.doors.welcomed && g.conn.open && Lacks(NUL, g.conn.project)
    ensures Enabled(h, Attach(g, map[]))
    ensures Next(h, Attach(g, map[])) ==
      h.(bs := Correlation.Next(h.bs, Correlation.Connect(g.conn)),
         floor := h.floor.(lines := h.floor.lines + [FreshLine(g.selector, false)]))
  {
  }

  lemma MarkStep(h: Host, c: nat)
    requires HasLine(h, c) && !h.floor.lines[c].marked
    ensures Enabled(h, MarkOnline(c))
    ensures Next(h, MarkOnline(c)) ==
      h.(floor := h.floor.(lines := h.floor.lines[c := h.floor.lines[c].(marked := true)]), db := Apply(h.db, MarkOp(h, c, true)).0)
  {
  }

  /** A welcomed connection is attached and its agent marked online. */
  lemma PlugLine(runtime: Runtime, run: seq<Action>, g: Greeted) returns (run': seq<Action>)
    requires g in After(runtime, run).doors.welcomed && g.conn.open && Lacks(NUL, g.conn.project)
    ensures run' == run + [Attach(g, map[])] + [MarkOnline(|After(runtime, run).bs.conns|)]
    ensures var (h, after) := (After(runtime, run), After(runtime, run'));
      after == h.(bs := Correlation.Next(h.bs, Correlation.Connect(g.conn)),
                  floor := h.floor.(lines := h.floor.lines + [FreshLine(g.selector, true)]),
                  db := SetAgentOnline(h.db, g.conn.project, g.conn.agent, g.conn.member, true, h.gate.clock).0)
  {
    var h := After(runtime, run);
    LinesMatch(runtime, run);
    AttachStepOf(h, g);
    var attached := run + [Attach(g, map[])];
    Extend(runtime, run, Attach(g, map[]));
    var h1 := After(runtime, attached);
    assert h1.bs.conns == h.bs.conns + [g.conn];
    hide After, Next, Enabled, SetAgentOnline, Correlation.Next, Correlation.Enabled;
    var c := |h.bs.conns|;
    MarkStep(h1, c);
    Extend(runtime, attached, MarkOnline(c));
    run' := attached + [MarkOnline(c)];
    assert Next(h1, MarkOnline(c)).floor.lines == h.floor.lines + [FreshLine(g.selector, true)];
  }

  lemma Greet(runtime: Runtime, run: seq<Action>, guest: Guest, agent: string) returns (run': seq<Action>)
    requires guest in After(runtime, run).doors.guests && Selects(After(runtime, run).db, guest.project, guest.selector, agent)
    requires After(runtime, run).db.agents[(guest.project, agent)].owner == guest.member
    ensures run' == run + [Welcome(guest, agent)]
    ensures var h := After(runtime, run);
      After(runtime, run') == h.(doors := h.doors.(welcomed := h.doors.welcomed + {GreetedFor(guest, agent)}))
  {
    hide After, Next, Enabled;
    WelcomeStep(After(runtime, run), guest, agent);
    Extend(runtime, run, Welcome(guest, agent));
    run' := run + [Welcome(guest, agent)];
  }

  /** A member's loop for the agent it names connects, and is attached for row `agent`. */
  lemma Plug(runtime: Runtime, run: seq<Action>, m: Msg, agent: string) returns (run': seq<Action>)
    requires Valid(After(runtime, run), m) && NewNonce(After(runtime, run).gate, m) && m.content.Connect? && m.verb == GET && Lacks(NUL, m.project)
    requires Selects(After(runtime, run).db, m.project, m.content.agent, agent)
    requires After(runtime, run).db.agents[(m.project, agent)].owner == m.sender
    ensures run <= run' && forall i :: |run| <= i < |run'| ==> !run'[i].StoreCall?
    ensures var (h, after) := (After(runtime, run), After(runtime, run'));
      var conn := Correlation.Conn(m.project, agent, m.sender, m.signer, true);
      && after == h.(gate := after.gate, doors := after.doors, bs := Correlation.Next(h.bs, Correlation.Connect(conn)), floor := after.floor,
                     db := SetAgentOnline(h.db, m.project, agent, m.sender, true, h.gate.clock).0)
      && after.gate.clock == h.gate.clock && after.gate.accepted == h.gate.accepted + [Acceptance(m, h.gate.clock)]
      && after.doors.owners == h.doors.owners && after.doors.reused == h.doors.reused
      && after.floor == h.floor.(lines := h.floor.lines + [FreshLine(m.content.agent, true)])
  {
    hide After, Valid, NewNonce, Correlation.Next, Correlation.Enabled, SetAgentOnline, Selects;
    var run1 := Submit(runtime, run, m);
    var guest := Guest(m.project, m.sender, m.signer, m.content.agent);
    var run2 := Greet(runtime, run1, guest, agent);
    run' := PlugLine(runtime, run2, GreetedFor(guest, agent));
  }

  // ---- An ask, undisturbed -------------------------------------------------------------------

  lemma DispatchAll(h: Host, i: nat, nonce: string)
    requires CanDispatch(h, i, nonce) && Lacks(NUL, h.calls[i].request.project)
    ensures Enabled(h, Dispatch(i, nonce)) && Correlation.Enabled(h.bs, Correlation.Register(h.calls[i].request, nonce))
    ensures var after := Next(h, Dispatch(i, nonce));
      && after == h.(bs := Correlation.Next(h.bs, Correlation.Register(h.calls[i].request, nonce)), calls := after.calls, callOf := after.callOf)
      && |after.calls| == |h.calls| && after.calls[i] == h.calls[i].(stage := Dispatching, ticket := Some(|h.bs.tickets|))
  {
  }

  /** From its lookup to its dispatch. */
  lemma ToDispatch(runtime: Runtime, run: seq<Action>, i: nat, nonce: string, m: string) returns (run': seq<Action>)
    requires var h := After(runtime, run);
      && StillAttached(h, i, nonce, m)
      && var k := (h.calls[i].request.project, h.calls[i].request.agent); k in h.db.agents && h.db.agents[k].online
    ensures var (h, after) := (After(runtime, run), After(runtime, run'));
      && Correlation.Enabled(h.bs, Correlation.Register(h.calls[i].request, nonce))
      && after == h.(bs := Correlation.Next(h.bs, Correlation.Register(h.calls[i].request, nonce)), calls := after.calls, callOf := after.callOf,
                     db := after.db)
      && |after.calls| == |h.calls|
      && after.calls[i] == h.calls[i].(stage := Dispatching, ticket := Some(|h.bs.tickets|), row := after.calls[i].row, rowOwner := after.calls[i].rowOwner)
  {
    var h := After(runtime, run);
    var agent := h.calls[i].request.agent;
    FindEnabled(h, i, agent);
    FindStep(h, i, agent);
    FoundRowIs(h, i, agent);
    Extend(runtime, run, Find(i, agent));
    hide Next, Enabled, After, Correlation.Next, Correlation.Enabled;
    var run1 := run + [Find(i, agent)];
    var h1 := After(runtime, run1);
    InsertStep(h1, i);
    Extend(runtime, run1, Insert(i));
    var run2 := run1 + [Insert(i)];
    IdentityStep(After(runtime, run2), i);
    Extend(runtime, run2, ReadIdentity(i));
    var run3 := run2 + [ReadIdentity(i)];
    DispatchAll(After(runtime, run3), i, nonce);
    Extend(runtime, run3, Dispatch(i, nonce));
    run' := run3 + [Dispatch(i, nonce)];
  }

  lemma FoundRowIs(h: Host, i: nat, agent: string)
    requires Enabled(h, Find(i, agent))
    ensures i < |h.calls| == |Next(h, Find(i, agent)).calls|
    ensures var (c, c') := (h.calls[i], Next(h, Find(i, agent)).calls[i]);
      c' == c.(stage := c'.stage, row := c'.row, rowOwner := c'.rowOwner)
  {
  }

  /** The loop at the other end has read nothing yet and has nothing to read. */
  ghost predicate Idle(h: Host, c: nat) {
    HasLine(h, c) && h.bs.conns[c].open && h.floor.lines[c] == FreshLine(h.floor.lines[c].agent, true)
  }

  function LoopReply(h: Host, c: nat, t: nat): Frame
    requires HasLine(h, c) && t < |h.bs.tickets|
  {
    var (agent, ticket) := (h.floor.lines[c].agent, h.bs.tickets[t]);
    SignedReply(h.bs.conns[c], Reply(ticket.nonce, ProviderPayload(agent, ticket.request, h.floor.runtime(agent, ticket.request))), h.gate.clock)
  }

  lemma WriteStep(h: Host, t: nat, c: nat)
    requires t < |h.bs.tickets| && h.bs.tickets[t].phase.Registered? && h.bs.tickets[t].conn == c && Idle(h, c)
    ensures Enabled(h, WriteFrame(t, true, true)) && Correlation.Enabled(h.bs, Correlation.Write(t, true, true))
    ensures var wire := [WireFrame(h.bs.tickets[t].nonce, h.bs.tickets[t].request)];
      Next(h, WriteFrame(t, true, true)) ==
        h.(bs := Correlation.Next(h.bs, Correlation.Write(t, true, true)),
           floor := h.floor.(lines := h.floor.lines[c := h.floor.lines[c].(wire := wire)]))
  {
    assert [] + [WireFrame(h.bs.tickets[t].nonce, h.bs.tickets[t].request)] == [WireFrame(h.bs.tickets[t].nonce, h.bs.tickets[t].request)];
  }

  lemma ServeStep(h: Host, c: nat, f: WireFrame)
    requires HasLine(h, c) && h.floor.lines[c] == FreshLine(h.floor.lines[c].agent, true).(wire := [f])
    ensures Enabled(h, ServeFrame(c, h.gate.clock, true))
    ensures var (after, agent) := (Next(h, ServeFrame(c, h.gate.clock, true)), h.floor.lines[c].agent);
      && after == h.(floor := after.floor) && |after.floor.lines| == |h.floor.lines| && after.floor.lines[c].marked
      && after.floor.lines[c].agent == agent && after.floor.runtime == h.floor.runtime
      && SignedReply(h.bs.conns[c], Reply(f.nonce, ProviderPayload(agent, f.request, h.floor.runtime(agent, f.request))), h.gate.clock) in after.floor.frames
  {
    var line := h.floor.lines[c];
    var hf := FrameRead(line, h.gate.clock, true);
    assert Good(line.loop.seen, hf, 2 * SIGNATURE_MAX_AGE);
    assert Turn(line.loop, hf, line.agent, h.floor.runtime).out == [Turned(hf, line.agent, h.floor.runtime)];
  }

  /** dispatch writes its frame, and the loop answers it. */
  lemma ToServed(runtime: Runtime, run: seq<Action>, t: nat, c: nat) returns (run': seq<Action>)
    requires var h := After(runtime, run);
      t < |h.bs.tickets| && h.bs.tickets[t].phase.Registered? && h.bs.tickets[t].conn == c && Idle(h, c)
    ensures var (h, after) := (After(runtime, run), After(runtime, run'));
      && Correlation.Enabled(h.bs, Correlation.Write(t, true, true))
      && after == h.(bs := Correlation.Next(h.bs, Correlation.Write(t, true, true)), floor := after.floor)
      && |after.floor.lines| == |h.floor.lines| && after.floor.lines[c].marked && LoopReply(h, c, t) in after.floor.frames
  {
    var h := After(runtime, run);
    hide Next, Enabled, After, Correlation.Enabled;
    WriteStep(h, t, c);
    Extend(runtime, run, WriteFrame(t, true, true));
    var run1 := run + [WriteFrame(t, true, true)];
    var h1 := After(runtime, run1);
    WriteKeepsConns(h.bs, t);
    hide Correlation.Next;
    ServeStep(h1, c, WireFrame(h.bs.tickets[t].nonce, h.bs.tickets[t].request));
    Extend(runtime, run1, ServeFrame(c, h1.gate.clock, true));
    run' := run1 + [ServeFrame(c, h1.gate.clock, true)];
  }

  lemma WriteKeepsConns(s: Correlation.Sys, t: nat)
    requires Correlation.Enabled(s, Correlation.Write(t, true, true))
    ensures var after := Correlation.Next(s, Correlation.Write(t, true, true));
      && after.conns == s.conns && after.core == s.core
      && after.tickets == s.tickets[t := s.tickets[t].(written := true, phase := Correlation.Waiting)]
  {
  }

  lemma BrokerStepOf(h: Host, b: Correlation.Action)
    requires Internal(h, b) && Correlation.Enabled(h.bs, b)
    ensures Enabled(h, BrokerAction(b)) && Next(h, BrokerAction(b)) == h.(bs := Correlation.Next(h.bs, b))
  {
    hide Correlation.Next, Correlation.Enabled;
  }

  lemma ReadStep(h: Host, c: nat, f: Frame)
    requires HasLine(h, c) && h.floor.lines[c].marked && f in h.floor.frames && f.timestamp == h.gate.clock
    requires Correlation.Enabled(h.bs, Correlation.Receive(c, f))
    ensures Enabled(h, ReadFrame(c, f)) && Next(h, ReadFrame(c, f)) == h.(bs := Correlation.Next(h.bs, Correlation.Receive(c, f)))
  {
    hide Correlation.Next, Correlation.Enabled;
  }

  /** The host reads the reply, and dispatch returns with it. */
  lemma ToReturned(runtime: Runtime, run: seq<Action>, t: nat, c: nat, f: Frame) returns (run': seq<Action>)
    requires var (h, s) := (After(runtime, run), After(runtime, run).bs);
      && HasLine(h, c) && h.floor.lines[c].marked && f in h.floor.frames && f.timestamp == h.gate.clock
      && t < |s.tickets| == |s.core.slots| && s.tickets[t].phase.Waiting? && s.core.slots[t].None? && Correlation.HasOwnEntry(s, t)
      && s.core.pending[s.tickets[t].request.id].replyTo == s.tickets[t].nonce == f.replyTo != ""
      && s.conns[c].open && Correlation.Acceptable(s.conns[c], f) && f.payload.requestId == s.tickets[t].request.id
    ensures var (h, after, d) := (After(runtime, run), After(runtime, run'), Delivery(Sanitize(f.payload), FromFrame(f)));
      && after == h.(bs := after.bs) && |after.bs.tickets| == |h.bs.tickets| && after.bs.tickets[t].phase == Correlation.Returned(Some(d))
  {
    var h := After(runtime, run);
    var flight := Correlation.Flight(t, Delivery(Sanitize(f.payload), FromFrame(f)));
    hide Next, Enabled, After, Correlation.Enabled, Correlation.Next, Sanitize, Correlation.Acceptable, Correlation.HasOwnEntry;
    Correlation.Exchange(h.bs, t, c, f);
    ReadStep(h, c, f);
    Extend(runtime, run, ReadFrame(c, f));
    var run1 := run + [ReadFrame(c, f)];
    BrokerStepOf(After(runtime, run1), Correlation.Send(flight));
    Extend(runtime, run1, BrokerAction(Correlation.Send(flight)));
    var run2 := run1 + [BrokerAction(Correlation.Send(flight))];
    BrokerStepOf(After(runtime, run2), Correlation.Take(t));
    Extend(runtime, run2, BrokerAction(Correlation.Take(t)));
    var run3 := run2 + [BrokerAction(Correlation.Take(t))];
    BrokerStepOf(After(runtime, run3), Correlation.Unregister(t));
    Extend(runtime, run3, BrokerAction(Correlation.Unregister(t)));
    run' := run3 + [BrokerAction(Correlation.Unregister(t))];
  }

  lemma FinishStep(h: Host, i: nat, t: nat, d: Delivery)
    requires i < |h.calls| && h.calls[i].stage.Dispatching? && h.calls[i].ticket == Some(t) && t < |h.bs.tickets|
    requires h.bs.tickets[t].phase == Correlation.Returned(Some(d))
    ensures Enabled(h, Finish(i))
    ensures var after := Next(h, Finish(i));
      && after == h.(calls := after.calls, db := after.db) && |after.calls| == |h.calls|
      && after.calls[i] == h.calls[i].(stage := Closed(Some(d)))
  {
  }

  lemma ReplyOf(h: Host, i: nat, d: Delivery)
    requires i < |h.calls| && h.calls[i].stage == Closed(Some(d)) && h.calls[i].ask < |h.gate.accepted| && h.calls[i].request.project in h.hosting
    ensures Enabled(h, ReplyTo(i))
    ensures AskReply(i, h.gate.accepted[h.calls[i].ask].msg.nonce, d.payload) in Next(h, ReplyTo(i)).replies
    ensures var after := Next(h, ReplyTo(i)); after == h.(calls := after.calls, replies := after.replies)
  {
  }

  /** ask updates the row and signs the result. */
  lemma ToReplied(runtime: Runtime, run: seq<Action>, i: nat, t: nat, d: Delivery) returns (run': seq<Action>)
    requires var h := After(runtime, run);
      && i < |h.calls| && h.calls[i].stage.Dispatching? && h.calls[i].ticket == Some(t) && t < |h.bs.tickets|
      && h.bs.tickets[t].phase == Correlation.Returned(Some(d))
      && h.calls[i].ask < |h.gate.accepted| && h.calls[i].request.project in h.hosting
    ensures var (h, after) := (After(runtime, run), After(runtime, run'));
      && AskReply(i, h.gate.accepted[h.calls[i].ask].msg.nonce, d.payload) in after.replies
      && after.floor == h.floor && after.bs == h.bs
  {
    var h := After(runtime, run);
    hide Next, Enabled, After;
    FinishStep(h, i, t, d);
    Extend(runtime, run, Finish(i));
    var run1 := run + [Finish(i)];
    ReplyOf(After(runtime, run1), i, d);
    Extend(runtime, run1, ReplyTo(i));
    run' := run1 + [ReplyTo(i)];
  }

  lemma RegisterIs(s: Correlation.Sys, q: Request, nonce: string)
    requires Correlation.Enabled(s, Correlation.Register(q, nonce)) && |s.core.slots| == |s.tickets|
    ensures var (after, t, key) := (Correlation.Next(s, Correlation.Register(q, nonce)), |s.tickets|, ProviderKey(q.project, q.agent));
      && after.conns == s.conns && |after.tickets| == t + 1 == |after.core.slots| && after.core.slots[t].None?
      && after.tickets[t] == Correlation.Ticket(q, nonce, s.core.providers[key], false, Correlation.Registered)
      && q.id in after.core.pending && after.core.pending[q.id] == Entry(key, nonce, t)
  {
  }

  lemma SlotsCount(runtime: Runtime, run: seq<Action>)
    ensures |After(runtime, run).bs.core.slots| == |After(runtime, run).bs.tickets|
  {
    RunInv(runtime, run);
    hide After;
    assert Correlation.Shaped(After(runtime, run).bs);
    hide Inv;
  }

  /**
   * An ask of an online agent whose connection's loop is idle is answered, when nothing comes between: with what the
   * runtime computes for that loop's agent from its request.
   */
  lemma AnsweredUndisturbed(runtime: Runtime, run: seq<Action>, i: nat, nonce: string, m: string) returns (run': seq<Action>)
    requires var h := After(runtime, run);
      && StillAttached(h, i, nonce, m) && h.calls[i].ask < |h.gate.accepted|
      && (var k := (h.calls[i].request.project, h.calls[i].request.agent); k in h.db.agents && h.db.agents[k].online)
      && (var c := h.bs.core.providers[ProviderOf(h.calls[i])]; Idle(h, c) && h.bs.conns[c].project == h.calls[i].request.project)
    ensures var (h, after) := (After(runtime, run), After(runtime, run'));
      var (q, agent) := (h.calls[i].request, h.floor.lines[h.bs.core.providers[ProviderOf(h.calls[i])]].agent);
      AskReply(i, h.gate.accepted[h.calls[i].ask].msg.nonce, ProviderPayload(agent, q, runtime(agent, q))) in after.replies
  {
    var h := After(runtime, run);
    var c := h.bs.core.providers[ProviderOf(h.calls[i])];
    var (q, t, agent) := (h.calls[i].request, |h.bs.tickets|, h.floor.lines[c].agent);
    SlotsCount(runtime, run);
    RuntimeFixed(runtime, run);
    hide After, Next, Enabled, Correlation.Next, Correlation.Enabled, ProviderKey;
    var run1 := ToDispatch(runtime, run, i, nonce, m);
    var h1 := After(runtime, run1);
    RegisterIs(h.bs, q, nonce);
    var run2 := ToServed(runtime, run1, t, c);
    var (h2, f) := (After(runtime, run2), LoopReply(h1, c, t));
    WriteKeepsConns(h1.bs, t);
    HonestPayloadUntouched(agent, q, runtime(agent, q));
    AcceptableReply(h1, c, t);
    var run3 := ToReturned(runtime, run2, t, c, f);
    run' := ToReplied(runtime, run3, i, t, Delivery(Sanitize(f.payload), FromFrame(f)));
  }

  lemma AcceptableReply(h: Host, c: nat, t: nat)
    requires HasLine(h, c) && t < |h.bs.tickets|
    ensures Correlation.Acceptable(h.bs.conns[c], LoopReply(h, c, t)) && LoopReply(h, c, t).payload.requestId == h.bs.tickets[t].request.id
  {
  }

  // ---- The tables ----------------------------------------------------------------------------

  function Key(b: byte): (key: Bytes)
    ensures |key| == KEY_SIZE && forall i :: 0 <= i < KEY_SIZE ==> key[i] == b
  {
    seq(KEY_SIZE, _ => b)
  }

  const HOST_KEY: Bytes := Key(1)
  const GUEST_KEY: Bytes := Key(2)
  const INVITE_KEY: Bytes := Key(3)
  const LIFETIME: int := Invitations.Ttl(600)
  const PROJECT: ProjectRow := ProjectRow("Project", "h", HOST_KEY, 0)
  const OWNER: MemberRow := MemberRow("Host", HOST_KEY, 0)
  const GUEST: MemberRow := MemberRow("Guest", GUEST_KEY, 0)
  const JOIN: Join := Tables.Join(JoinRequest(SCHEMA_VERSION, "p", "i", "Guest", GUEST_KEY, POST, JOIN_PATH, "j", 0), INVITE_KEY, "m")

  const FOUNDED: DB := EMPTY.(projects := map["p" := PROJECT], members := map[("p", "h") := OWNER])
  const JOINED: DB := FOUNDED.(members := map[("p", "h") := OWNER, ("p", "m") := GUEST],
                               invitations := map[("p", "i") := InviteRow(INVITE_KEY, LIFETIME, Some(0))])

  function Agents(x: bool, y: bool): map<Id, AgentRow> {
    map[("p", "x") := AgentRow("m", "docs", "", x, if x then Some(0) else None, 0),
        ("p", "y") := AgentRow("h", "x", "", y, if y then Some(0) else None, 0)]
  }

  const CREATE: Op := CreateProjectOp("p", PROJECT, "p", "h", OWNER)
  const INVITE: Op := AddInvitationOp("p", "i", INVITE_KEY, LIFETIME)
  const REGISTER_X: Op := RegisterAgentOp("p", "m", "x", "docs", "", 0)
  const REGISTER_Y: Op := RegisterAgentOp("p", "h", "y", "x", "", 0)
  const REMOVE: Op := RemoveMemberOp("p", "h", "m")

  lemma TablesFounded()
    ensures Apply(EMPTY, CREATE) == (FOUNDED, None)
  {
  }

  lemma TablesJoined()
    ensures Apply(Apply(FOUNDED, INVITE).0, ConsumeInvitationOp(JOIN, 0)) == (JOINED, None)
  {
    assert INVITE_KEY != GUEST_KEY by { assert INVITE_KEY[0] != GUEST_KEY[0]; }
    assert HOST_KEY != GUEST_KEY by { assert HOST_KEY[0] != GUEST_KEY[0]; }
    Invitations.TtlAtMostOneHour(600);
    assert !IsBlank("Guest") by { assert "Guest"[0] == 'G'; }
    var invited := Apply(FOUNDED, INVITE).0;
    assert InviteProblem(invited, JOIN, 0).None?;
    assert ConsumeInvitation(invited, JOIN, 0).0 == JOINED;
  }

  lemma TablesStaffed()
    ensures Apply(Apply(JOINED, REGISTER_X).0, REGISTER_Y).0 == JOINED.(agents := Agents(false, false))
    ensures Apply(JOINED, REGISTER_X).1.None? && Apply(JOINED, REGISTER_X).0 == JOINED.(agents := Apply(JOINED, REGISTER_X).0.agents)
    ensures ("p", "y") !in Apply(JOINED, REGISTER_X).0.agents && Apply(Apply(JOINED, REGISTER_X).0, REGISTER_Y).1.None?
  {
    assert "docs"[0] != "x"[0];
    assert Apply(JOINED, REGISTER_X).0.agents == map[("p", "x") := AgentRow("m", "docs", "", false, None, 0)];
  }

  lemma TablesOnlineX(x: bool, y: bool)
    ensures SetAgentOnline(JOINED.(agents := Agents(x, y)), "p", "x", "m", true, 0).0 == JOINED.(agents := Agents(true, y))
  {
    assert Agents(x, y)[("p", "x") := AgentRow("m", "docs", "", true, Some(0), 0)] == Agents(true, y);
  }

  lemma TablesOnlineY(x: bool, y: bool)
    ensures SetAgentOnline(JOINED.(agents := Agents(x, y)), "p", "y", "h", true, 0).0 == JOINED.(agents := Agents(x, true))
  {
    assert Agents(x, y)[("p", "y") := AgentRow("h", "x", "", true, Some(0), 0)] == Agents(x, true);
  }

  lemma TablesRemoved(agents: map<Id, AgentRow>)
    ensures var (after, outcome) := RemoveMember(JOINED.(agents := agents), "p", "h", "m");
      && outcome.None? && ("p", "m") !in after.members && ("p", "h") in after.members && after.members[("p", "h")] == OWNER
      && after.requests == map[]
      && after.projects == JOINED.projects && (forall k :: k in after.agents <==> k in agents && !(k.0 == "p" && agents[k].owner == "m"))
      && (forall k :: k in after.agents ==> after.agents[k] == agents[k])
  {
    assert HOST_KEY != GUEST_KEY by { assert HOST_KEY[0] != GUEST_KEY[0]; }
  }

  // ---- The runs ------------------------------------------------------------------------------

  function KindFor(content: Content): string {
    match content
    case Ask(_) => "request.ask"
    case Connect(_) => "provider.connect"
    case Perform(order) =>
      match order
      case InviteCreate(_) => "invitation.create"
      case MemberRemove(_) => "member.remove"
      case AgentRegister(_, _, _) => "agent.register"
      case AgentRemove(_) => "agent.remove"
      case _ => "members.list"
  }

  function Note(sender: string, signer: Bytes, nonce: string, content: Content): Msg {
    Msg(SCHEMA_VERSION, "p", sender, KindFor(content), POST, RPC_PATH, nonce, 0, signer, content)
  }

  function Dial(sender: string, signer: Bytes, nonce: string, agent: string): Msg {
    Msg(SCHEMA_VERSION, "p", sender, "provider.connect", GET, PROVIDER_PATH, nonce, 0, signer, Connect(agent))
  }

  /** The Project is hosted, no ask has come, and only these nonces were used. */
  ghost predicate Quiet(h: Host, nonces: set<string>) {
    && h.gate.clock == 0 && "p" in h.hosting && !h.doors.reused && h.bs.tickets == [] && h.calls == []
    && (forall n :: n in nonces ==> Lacks(NUL, n))
    && (forall i :: 0 <= i < |h.gate.accepted| ==> h.gate.accepted[i].msg.nonce in nonces)
  }

  /** No connection yet, no agent registered. */
  ghost predicate Bare(h: Host) {
    h.bs.conns == [] && h.bs.core.providers == map[] && h.floor.lines == []
  }

  lemma UnusedNonce(h: Host, nonces: set<string>, m: Msg)
    requires Quiet(h, nonces) && m.nonce !in nonces && Lacks(NUL, m.nonce)
    ensures NewNonce(h.gate, m)
  {
  }

  lemma StillQuiet(h: Host, after: Host, nonces: set<string>, m: Msg)
    requires Quiet(h, nonces) && Lacks(NUL, m.nonce)
    requires after.gate.clock == h.gate.clock && after.gate.accepted == h.gate.accepted + [Acceptance(m, h.gate.clock)]
    requires after.hosting == h.hosting && !after.doors.reused && after.bs.tickets == [] && after.calls == []
    ensures Quiet(after, nonces + {m.nonce})
  {
  }

  lemma MembersNote(h: Host, sender: string, nonce: string, content: Content)
    requires h.gate.clock == 0 && nonce != "" && sender in {"h", "m"} && ("p", sender) in h.db.members
    requires h.db.members[("p", sender)] == if sender == "h" then OWNER else GUEST
    ensures Valid(h, Note(sender, if sender == "h" then HOST_KEY else GUEST_KEY, nonce, content))
    ensures content.Connect? ==> Valid(h, Dial(sender, if sender == "h" then HOST_KEY else GUEST_KEY, nonce, content.agent))
  {
  }

  lemma CreateStep(runtime: Runtime)
    ensures Enabled(Start(runtime), StoreCall(CREATE))
    ensures var h := Next(Start(runtime), StoreCall(CREATE)); h == Start(runtime).(db := FOUNDED)
    ensures Enabled(Start(runtime).(db := FOUNDED), PutProfile("p"))
    ensures Next(Start(runtime).(db := FOUNDED), PutProfile("p")) == Start(runtime).(db := FOUNDED, hosting := {"p"})
  {
    TablesFounded();
    assert Lacks(NUL, "p");
    assert {} + {"p"} == {"p"};
  }

  lemma Founded(runtime: Runtime) returns (run: seq<Action>)
    ensures After(runtime, run) == Start(runtime).(db := FOUNDED, hosting := {"p"})
  {
    CreateStep(runtime);
    hide Next, Enabled;
    assert After(runtime, []) == Start(runtime);
    Extend(runtime, [], StoreCall(CREATE));
    Extend(runtime, [] + [StoreCall(CREATE)], PutProfile("p"));
    run := [] + [StoreCall(CREATE)] + [PutProfile("p")];
  }

  lemma AdmitStep(h: Host)
    requires Apply(h.db, ConsumeInvitationOp(JOIN, 0)).0 == JOINED && h.gate.clock == 0
    ensures Enabled(h, StoreCall(ConsumeInvitationOp(JOIN, 0)))
    ensures var after := Next(h, StoreCall(ConsumeInvitationOp(JOIN, 0)));
      after == h.(db := JOINED, doors := h.doors.(joined := after.doors.joined))
  {
    hide Apply;
  }

  /** The owner invites, and the guest joins. */
  lemma Joined(runtime: Runtime) returns (run: seq<Action>)
    ensures var h := After(runtime, run); h.db == JOINED && Quiet(h, {"1"}) && Bare(h) && h.doors.owners == map[]
  {
    var run0 := Founded(runtime);
    var h := After(runtime, run0);
    var m := Note("h", HOST_KEY, "1", Perform(InviteCreate(600)));
    assert Quiet(h, {}) && Bare(h) && IsOwner(h.db, "p", "h") && h.doors.owners == map[] && !h.doors.reused && h.gate.clock == 0;
    MembersNote(h, "h", "1", m.content);
    UnusedNonce(h, {}, m);
    hide After, Next, Enabled, Valid, NewNonce, Quiet, Apply;
    var run1 := Order(runtime, run0, m, INVITE);
    var h1 := After(runtime, run1);
    StillQuiet(h, h1, {}, m);
    TablesJoined();
    AdmitStep(h1);
    Extend(runtime, run1, StoreCall(ConsumeInvitationOp(JOIN, 0)));
    run := run1 + [StoreCall(ConsumeInvitationOp(JOIN, 0))];
    SameQuiet(h1, After(runtime, run), {} + {"1"});
    assert {} + {"1"} == {"1"};
  }

  lemma SameQuiet(h: Host, after: Host, nonces: set<string>)
    requires Quiet(h, nonces) && after == h.(db := after.db, doors := h.doors.(joined := after.doors.joined))
    ensures Quiet(after, nonces)
  {
  }

  lemma FirstRegistration(d: Doors, db: DB, op: Op)
    requires op.RegisterAgentOp? && (op.p, op.agent) !in db.agents && (op.p, op.agent) !in d.owners && Apply(db, op).1.None?
    ensures Record(d, db, op) == d.(owners := d.owners[(op.p, op.agent) := op.member])
  {
  }

  lemma XRegistered(runtime: Runtime) returns (run: seq<Action>)
    ensures var h := After(runtime, run);
      h.db == Apply(JOINED, REGISTER_X).0 && Quiet(h, {"1", "2"}) && Bare(h) && ("p", "y") !in h.doors.owners
  {
    var run0 := Joined(runtime);
    var h := After(runtime, run0);
    var m := Note("m", GUEST_KEY, "2", Perform(AgentRegister("x", "docs", "")));
    assert h.gate.clock == 0 && !h.doors.reused && h.bs.tickets == [] && h.calls == [];
    assert !IsBlank("docs") by { assert "docs"[0] == 'd'; }
    assert "x"[0] != "y"[0];
    MembersNote(h, "m", "2", m.content);
    UnusedNonce(h, {"1"}, m);
    TablesStaffed();
    FirstRegistration(h.doors, h.db, REGISTER_X);
    hide After, Next, Enabled, Valid, NewNonce, Quiet, Apply, Record, IsBlank;
    run := Order(runtime, run0, m, REGISTER_X);
    StillQuiet(h, After(runtime, run), {"1"}, m);
    assert {"1"} + {"2"} == {"1", "2"};
  }

  /** The guest registers agent x; the owner registers agent y and names it "x". */
  lemma Staffed(runtime: Runtime) returns (run: seq<Action>)
    ensures var h := After(runtime, run); h.db == JOINED.(agents := Agents(false, false)) && Quiet(h, {"1", "2", "3"}) && Bare(h)
  {
    var run0 := XRegistered(runtime);
    var h := After(runtime, run0);
    var m := Note("h", HOST_KEY, "3", Perform(AgentRegister("y", "x", "")));
    assert h.gate.clock == 0 && !h.doors.reused && h.bs.tickets == [] && h.calls == [];
    assert !IsBlank("x") by { assert "x"[0] == 'x'; }
    TablesStaffed();
    MembersNote(h, "h", "3", m.content);
    UnusedNonce(h, {"1", "2"}, m);
    FirstRegistration(h.doors, h.db, REGISTER_Y);
    hide After, Next, Enabled, Valid, NewNonce, Quiet, Apply, Record, IsBlank;
    run := Order(runtime, run0, m, REGISTER_Y);
    StillQuiet(h, After(runtime, run), {"1", "2"}, m);
    assert {"1", "2"} + {"3"} == {"1", "2", "3"};
  }

  const X_CONN: Correlation.Conn := Correlation.Conn("p", "x", "m", GUEST_KEY, true)
  const Y_CONN: Correlation.Conn := Correlation.Conn("p", "y", "h", HOST_KEY, true)
  lemma XIsNotY()
    ensures ProviderKey("p", "x") != ProviderKey("p", "y")
  {
    assert "x"[0] != "y"[0];
    if ProviderKey("p", "x") == ProviderKey("p", "y") {
      ProviderKeyInjective("p", "x", "p", "y");
      assert false;
    }
  }

  /** The guest connects for agent x. */
  lemma XConnected(runtime: Runtime) returns (run: seq<Action>)
    ensures var h := After(runtime, run);
      && h.db == JOINED.(agents := Agents(true, false)) && Quiet(h, {"1", "2", "3", "4"})
      && h.bs.conns == [X_CONN] && h.bs.core.providers == map[ProviderKey("p", "x") := 0] && h.floor.lines == [FreshLine("x", true)]
  {
    var run0 := Staffed(runtime);
    var h := After(runtime, run0);
    var m := Dial("m", GUEST_KEY, "4", "x");
    assert h.gate.clock == 0 && h.bs.tickets == [] && h.calls == [] && !h.doors.reused;
    MembersNote(h, "m", "4", m.content);
    UnusedNonce(h, {"1", "2", "3"}, m);
    TablesOnlineX(false, false);
    hide After, Next, Enabled, Valid, NewNonce, Quiet, SetAgentOnline, ProviderKey;
    run := Plug(runtime, run0, m, m.content.agent);
    StillQuiet(h, After(runtime, run), {"1", "2", "3"}, m);
    assert {"1", "2", "3"} + {"4"} == {"1", "2", "3", "4"};
  }

  /** The owner connects for agent y. */
  lemma BothConnected(runtime: Runtime) returns (run: seq<Action>)
    ensures var h := After(runtime, run);
      && h.db == JOINED.(agents := Agents(true, true)) && Quiet(h, {"1", "2", "3", "4", "5"})
      && h.bs.conns == [X_CONN, Y_CONN]
      && h.bs.core.providers == map[ProviderKey("p", "x") := 0, ProviderKey("p", "y") := 1]
  {
    var run0 := XConnected(runtime);
    var h := After(runtime, run0);
    var m := Dial("h", HOST_KEY, "5", "y");
    assert h.gate.clock == 0 && h.bs.tickets == [] && h.calls == [] && !h.doors.reused;
    MembersNote(h, "h", "5", m.content);
    UnusedNonce(h, {"1", "2", "3", "4"}, m);
    TablesOnlineY(true, false);
    hide After, Next, Enabled, Valid, NewNonce, Quiet, SetAgentOnline, ProviderKey;
    run := Plug(runtime, run0, m, m.content.agent);
    StillQuiet(h, After(runtime, run), {"1", "2", "3", "4"}, m);
    assert {"1", "2", "3", "4"} + {"5"} == {"1", "2", "3", "4", "5"};
  }

  // ---- What can happen -----------------------------------------------------------------------

  lemma RemovalIsOrdered(runtime: Runtime, run: seq<Action>, agents: map<Id, AgentRow>, nonces: set<string>, nonce: string)
    returns (run': seq<Action>)
    requires var h := After(runtime, run); h.db == JOINED.(agents := agents) && Quiet(h, nonces)
    requires nonce !in nonces && Lacks(NUL, nonce) && nonce != ""
    ensures |run'| == |run| + 3 && run' == run + run'[|run|..] && Removes(runtime, run', |run| + 2, "p", "h", "m")
    ensures var (h, after) := (After(runtime, run), After(runtime, run'));
      && after == h.(gate := after.gate, jobs := after.jobs, db := RemoveMember(h.db, "p", "h", "m").0)
      && h.gate.visits <= after.gate.visits && Quiet(after, nonces + {nonce})
  {
    var h := After(runtime, run);
    var m := Note("h", HOST_KEY, nonce, Perform(MemberRemove("m")));
    assert h.gate.clock == 0 && h.bs.tickets == [] && h.calls == [] && !h.doors.reused;
    assert HOST_KEY != GUEST_KEY by { assert HOST_KEY[0] != GUEST_KEY[0]; }
    MembersNote(h, "h", nonce, m.content);
    UnusedNonce(h, nonces, m);
    TablesRemoved(agents);
    assert Apply(h.db, REMOVE) == RemoveMember(h.db, "p", "h", "m");
    assert Record(h.doors, h.db, REMOVE) == h.doors;
    hide After, Next, Enabled, Valid, NewNonce, Quiet, Apply, Record, RemoveMember;
    run' := Order(runtime, run, m, REMOVE);
    VisitsGrow(runtime, run, run'[|run|..]);
    StillQuiet(h, After(runtime, run'), nonces, m);
  }

  lemma {:induction false} VisitsGrow(runtime: Runtime, run: seq<Action>, more: seq<Action>)
    ensures After(runtime, run).gate.visits <= After(runtime, run + more).gate.visits
  {
    if more == [] {
      assert run + more == run;
    } else {
      var before := run + more[..|more| - 1];
      VisitsGrow(runtime, run, more[..|more| - 1]);
      assert (run + more)[..|run + more| - 1] == before && (run + more)[|run + more| - 1] == more[|more| - 1];
      var (h, a) := (After(runtime, before), more[|more| - 1]);
      if Enabled(h, a) {
        VisitsKept(h, a);
      }
    }
    hide Next, Enabled;
  }

  lemma VisitsKept(h: Host, a: Action)
    requires Enabled(h, a)
    ensures h.gate.visits <= Next(h, a).gate.visits
  {
    if !a.Tick? && !a.Arrive? && !a.Accept? {
      GateKept(h, a);
      hide Next, Enabled;
    }
    hide Correlation.Next, Correlation.Enabled, AcceptStep, Apply;
  }

  lemma AcceptExtends(runtime: Runtime, run: seq<Action>, v: Visit)
    requires v in After(runtime, run).gate.visits && v.key == v.msg.signer && |v.key| == KEY_SIZE
    requires var m := v.msg;
      m.schema == SCHEMA_VERSION && m.project != "" && m.sender != "" && m.kind != "" && m.nonce != "" && Routed(m)
      && m.timestamp == After(runtime, run).gate.clock
    requires NewNonce(After(runtime, run).gate, v.msg)
    ensures Enabled(After(runtime, run), Accept(v))
    ensures var (h, after) := (After(runtime, run), After(runtime, run + [Accept(v)]));
      after.gate.accepted == h.gate.accepted + [Acceptance(v.msg, h.gate.clock)] && after.db == h.db
  {
    hide After, Next, Enabled, GateSound, NewNonce;
    GateIsSound(runtime, run);
    AcceptsNow(After(runtime, run), v);
    Extend(runtime, run, Accept(v));
  }

  const EARLY: Msg := Note("m", GUEST_KEY, "2", Perform(Inquiry))

  lemma EarlyArrival(runtime: Runtime) returns (run: seq<Action>, v: Visit)
    ensures v.msg == EARLY && v.key == GUEST_KEY && v in After(runtime, run).gate.visits
    ensures After(runtime, run).db == JOINED.(agents := map[]) && Quiet(After(runtime, run), {"1"})
  {
    var run0 := Joined(runtime);
    var h := After(runtime, run0);
    v := VisitOf(h, EARLY);
    assert h.db == JOINED.(agents := map[]) && h.gate.clock == 0;
    MembersNote(h, "m", "2", EARLY.content);
    ArriveStep(h, EARLY);
    hide After, Next, Enabled, Valid, Quiet;
    Extend(runtime, run0, Arrive(EARLY));
    run := run0 + [Arrive(EARLY)];
    SameQuietGate(h, After(runtime, run), {"1"});
  }

  lemma EarlyAccepted(runtime: Runtime, run: seq<Action>, v: Visit)
    requires v.msg == EARLY && v.key == GUEST_KEY && v in After(runtime, run).gate.visits && Quiet(After(runtime, run), {"1"} + {"3"})
    ensures Enabled(After(runtime, run), Accept(v))
    ensures var (h, after) := (After(runtime, run), After(runtime, run + [Accept(v)]));
      after.gate.accepted == h.gate.accepted + [Acceptance(EARLY, h.gate.clock)] && after.db == h.db
  {
    hide After, Next, Enabled;
    UnusedNonce(After(runtime, run), {"1"} + {"3"}, EARLY);
    AcceptExtends(runtime, run, v);
  }

  /**
   * authenticate is not one step: a message whose lookup came before the removal of its sender is accepted after it.
   */
  lemma LookupMayOutliveRemoval(runtime: Runtime) returns (run: seq<Action>, n: nat, v: Visit)
    ensures Removes(runtime, run, n, "p", "h", "m") && StaysAway(run, n, "p", "m") && |run| == n + 2
    ensures v.msg.project == "p" && v.msg.sender == "m" && run[n + 1] == Accept(v) && Enabled(After(runtime, run[..n + 1]), run[n + 1])
    ensures var h := After(runtime, run);
      ("p", "m") !in h.db.members && |h.gate.accepted| > 0 && h.gate.accepted[|h.gate.accepted| - 1].msg == v.msg
  {
    var run1;
    run1, v := EarlyArrival(runtime);
    TablesRemoved(map[]);
    hide After, Next, Enabled, Quiet, RemoveMember, Removes;
    var run2 := RemovalIsOrdered(runtime, run1, map[], {"1"}, "3");
    n := |run1| + 2;
    EarlyAccepted(runtime, run2, v);
    run := run2 + [Accept(v)];
    RemovesStill(runtime, run2, [Accept(v)], n, "p", "h", "m");
    assert run[..n + 1] == run2;
  }

  lemma RemovesStill(runtime: Runtime, run: seq<Action>, more: seq<Action>, n: nat, p: string, actor: string, m: string)
    requires Removes(runtime, run, n, p, actor, m)
    ensures Removes(runtime, run + more, n, p, actor, m)
  {
    assert (run + more)[..n] == run[..n] && (run + more)[n] == run[n];
    hide After, Enabled;
  }

  lemma SameQuietGate(h: Host, after: Host, nonces: set<string>)
    requires Quiet(h, nonces) && after == h.(gate := h.gate.(visits := after.gate.visits))
    ensures Quiet(after, nonces)
  {
  }

  const QUESTION: Request := Request(SCHEMA_VERSION, "r", "p", "h", "x", [], Digest([]), 1)

  const USED: set<string> := {"1", "2", "3", "4", "5"} + {"6"}

  /** The guest was removed while its connection for agent x is attached; agent y, named "x", stays. */
  ghost predicate GuestIsOut(h: Host) {
    && ("p", "m") !in h.db.members && ("p", "h") in h.db.members && h.db.members[("p", "h")] == OWNER
    && h.db.requests == map[] && ("p", "x") !in h.db.agents && ("p", "y") in h.db.agents && h.db.agents[("p", "y")] == Agents(true, true)[("p", "y")]
    && h.bs.conns == [X_CONN, Y_CONN] && h.bs.core.providers == map[ProviderKey("p", "x") := 0, ProviderKey("p", "y") := 1]
    && h.bs.tickets == [] && "p" in h.hosting && !h.doors.reused
  }

  lemma GuestRemoved(runtime: Runtime) returns (run: seq<Action>, n: nat)
    ensures Removes(runtime, run, n, "p", "h", "m") && |run| == n + 1
    ensures GuestIsOut(After(runtime, run)) && Quiet(After(runtime, run), USED)
  {
    hide Next, Enabled, RemoveMember, Removes, ProviderKey, After;
    var run0 := BothConnected(runtime);
    var h := After(runtime, run0);
    TablesRemoved(Agents(true, true));
    assert h.bs.tickets == [] && "p" in h.hosting && !h.doors.reused;
    hide Quiet;
    run := RemovalIsOrdered(runtime, run0, Agents(true, true), {"1", "2", "3", "4", "5"}, "6");
    n := |run0| + 2;
  }

  /**
   * Revocation can fail: the guest was removed, its connection for agent x is still attached, and the owner asks for x.
   * The ask finds agent y, which is online and named "x", and is written to the removed guest's connection.
   */
  lemma RevocationCanFail(runtime: Runtime) returns (run: seq<Action>, n: nat)
    ensures Removes(runtime, run, n, "p", "h", "m") && StaysAway(run, n, "p", "m")
    ensures var h := After(runtime, run);
      && ("p", "m") !in h.db.members && !h.doors.reused
      && StillAttached(h, 0, "d", "m") && Reaches(h, 0, "y", "d", "m")
  {
    hide Next, Enabled, Quiet, Removes, After;
    var run1;
    run1, n := GuestRemoved(runtime);
    run := QuestionAsked(runtime, run1, USED);
    RemovesStill(runtime, run1, run[|run1|..], n, "p", "h", "m");
    assert run == run1 + run[|run1|..];
    QuestionReaches(After(runtime, run));
    hide StillAttached, Reaches;
  }

  lemma QuestionAsked(runtime: Runtime, run: seq<Action>, nonces: set<string>) returns (run': seq<Action>)
    requires var h := After(runtime, run);
      Quiet(h, nonces) && ("p", "h") in h.db.members && h.db.members[("p", "h")] == OWNER && "7" !in nonces
    ensures run <= run' && |run'| == |run| + 2 && run'[|run|].Arrive? && run'[|run| + 1].Accept?
    ensures var (h, after) := (After(runtime, run), After(runtime, run'));
      && after == h.(gate := after.gate, calls := after.calls) && |after.calls| == 1
      && after.calls[0].request == QUESTION && after.calls[0].stage == Arrived
  {
    var h := After(runtime, run);
    var m := Note("h", HOST_KEY, "7", Ask(QUESTION));
    assert h.gate.clock == 0 && h.calls == [];
    assert AskFits(m);
    MembersNote(h, "h", "7", m.content);
    UnusedNonce(h, nonces, m);
    hide After, Next, Enabled, Valid, NewNonce, Quiet, AskFits;
    run' := Submit(runtime, run, m);
  }

  lemma QuestionReaches(h: Host)
    requires |h.calls| == 1 && h.calls[0].request == QUESTION && h.calls[0].stage == Arrived && h.bs.tickets == [] && "p" in h.hosting
    requires GuestIsOut(h)
    ensures StillAttached(h, 0, "d", "m") && Reaches(h, 0, "y", "d", "m")
  {
    XIsNotY();
    assert StillAttached(h, 0, "d", "m");
    FindEnabled(h, 0, "y");
    OnlineLookupReaches(h, 0, "y", "d", "m");
    hide Reaches, Next, Enabled;
  }

  /** The online flag can be wrong: the guest reconnects for agent x before its first connection's cleanup is done. */
  lemma FlagCanBeWrong(runtime: Runtime) returns (run: seq<Action>)
    ensures var (h, key) := (After(runtime, run), ProviderKey("p", "x"));
      && key in h.bs.core.providers && h.bs.core.providers[key] == 1 && |h.bs.conns| == 2 && h.bs.conns[1].open
      && ("p", "x") in h.db.agents && !h.db.agents[("p", "x")].online
  {
    var run0 := XConnected(runtime);
    var h := After(runtime, run0);
    var m := Dial("m", GUEST_KEY, "5", "x");
    assert h.gate.clock == 0;
    MembersNote(h, "m", "5", m.content);
    UnusedNonce(h, {"1", "2", "3", "4"}, m);
    TablesOnlineX(true, false);
    hide After, Next, Enabled, Valid, NewNonce, Quiet, SetAgentOnline, ProviderKey;
    var run1 := Plug(runtime, run0, m, "x");
    var h1 := After(runtime, run1);
    assert h1.bs.conns == [X_CONN, X_CONN] && h1.floor.lines == [FreshLine("x", true), FreshLine("x", true)];
    assert Replaced(h1, 0);
    LateCleanupMarksOffline(runtime, run1, 0);
    run := run1 + [BrokerAction(Correlation.Disconnect(0))] + [MarkOffline(0)];
    ConnsKept(runtime, run1);
  }

  lemma ConnsKept(runtime: Runtime, run: seq<Action>)
    requires var h := After(runtime, run); Replaced(h, 0) && |h.bs.conns| == 2
    ensures var (h, after) := (After(runtime, run), After(runtime, run + [BrokerAction(Correlation.Disconnect(0))] + [MarkOffline(0)]));
      |after.bs.conns| == 2 && after.bs.conns[1] == h.bs.conns[1]
  {
    var h := After(runtime, run);
    SilentDisconnect(h, 0);
    var hung := Next(h, BrokerAction(Correlation.Disconnect(0)));
    assert hung.bs.conns[1] == h.bs.conns[1];
    Extend(runtime, run, BrokerAction(Correlation.Disconnect(0)));
    var run1 := run + [BrokerAction(Correlation.Disconnect(0))];
    assert run1 + [MarkOffline(0)] == run + [BrokerAction(Correlation.Disconnect(0))] + [MarkOffline(0)];
    MarkKeepsBroker(hung, 0);
    hide Next, Enabled, After;
    if Enabled(hung, MarkOffline(0)) {
      Extend(runtime, run1, MarkOffline(0));
    }
  }

  lemma MarkKeepsBroker(h: Host, c: nat)
    ensures Enabled(h, MarkOffline(c)) ==> Next(h, MarkOffline(c)).bs == h.bs
    ensures HasLine(h, c) && !h.bs.conns[c].open && !h.floor.lines[c].cleaned ==> Enabled(h, MarkOffline(c))
  {
  }

  // ---- Answered from another agent's loop ----------------------------------------------------

  function OwnAgents(y: bool): map<Id, AgentRow> {
    map[("p", "x") := AgentRow("h", "docs", "", false, None, 0),
        ("p", "y") := AgentRow("h", "x", "", y, if y then Some(0) else None, 0)]
  }

  const REGISTER_OWN: Op := RegisterAgentOp("p", "h", "x", "docs", "", 0)

  lemma TablesOwned()
    ensures Apply(Apply(JOINED, REGISTER_OWN).0, REGISTER_Y).0 == JOINED.(agents := OwnAgents(false))
    ensures Apply(JOINED, REGISTER_OWN).1.None? && Apply(JOINED, REGISTER_OWN).0 == JOINED.(agents := Apply(JOINED, REGISTER_OWN).0.agents)
    ensures ("p", "y") !in Apply(JOINED, REGISTER_OWN).0.agents && Apply(Apply(JOINED, REGISTER_OWN).0, REGISTER_Y).1.None?
    ensures SetAgentOnline(JOINED.(agents := OwnAgents(false)), "p", "y", "h", true, 0).0 == JOINED.(agents := OwnAgents(true))
  {
    assert "docs"[0] != "x"[0];
    assert Apply(JOINED, REGISTER_OWN).0.agents == map[("p", "x") := AgentRow("h", "docs", "", false, None, 0)];
    assert OwnAgents(false)[("p", "y") := AgentRow("h", "x", "", true, Some(0), 0)] == OwnAgents(true);
  }

  lemma OwnXRegistered(runtime: Runtime) returns (run: seq<Action>)
    ensures var h := After(runtime, run);
      h.db == Apply(JOINED, REGISTER_OWN).0 && Quiet(h, {"1", "2"}) && Bare(h) && ("p", "y") !in h.doors.owners
  {
    var run0 := Joined(runtime);
    var h := After(runtime, run0);
    var m := Note("h", HOST_KEY, "2", Perform(AgentRegister("x", "docs", "")));
    assert h.gate.clock == 0 && !h.doors.reused && h.bs.tickets == [] && h.calls == [];
    assert !IsBlank("docs") by { assert "docs"[0] == 'd'; }
    assert "x"[0] != "y"[0];
    MembersNote(h, "h", "2", m.content);
    UnusedNonce(h, {"1"}, m);
    TablesOwned();
    FirstRegistration(h.doors, h.db, REGISTER_OWN);
    hide After, Next, Enabled, Valid, NewNonce, Quiet, Apply, Record, IsBlank, SetAgentOnline;
    run := Order(runtime, run0, m, REGISTER_OWN);
    StillQuiet(h, After(runtime, run), {"1"}, m);
    assert {"1"} + {"2"} == {"1", "2"};
  }

  /** The owner registers agent x, and agent y under the name "x". */
  lemma OwnStaffed(runtime: Runtime) returns (run: seq<Action>)
    ensures var h := After(runtime, run); h.db == JOINED.(agents := OwnAgents(false)) && Quiet(h, {"1", "2", "3"}) && Bare(h)
  {
    var run0 := OwnXRegistered(runtime);
    var h := After(runtime, run0);
    var m := Note("h", HOST_KEY, "3", Perform(AgentRegister("y", "x", "")));
    assert h.gate.clock == 0 && !h.doors.reused && h.bs.tickets == [] && h.calls == [];
    assert !IsBlank("x") by { assert "x"[0] == 'x'; }
    TablesOwned();
    MembersNote(h, "h", "3", m.content);
    UnusedNonce(h, {"1", "2"}, m);
    FirstRegistration(h.doors, h.db, REGISTER_Y);
    hide After, Next, Enabled, Valid, NewNonce, Quiet, Apply, Record, IsBlank, SetAgentOnline;
    run := Order(runtime, run0, m, REGISTER_Y);
    StillQuiet(h, After(runtime, run), {"1", "2"}, m);
    assert {"1", "2"} + {"3"} == {"1", "2", "3"};
  }

  /** The loop of agent x connects. The lookup of "x" returns the row of y, whose name it is, and the loop is attached for y. */
  lemma XAttachedAsY(runtime: Runtime) returns (run: seq<Action>)
    ensures var h := After(runtime, run);
      && h.db == JOINED.(agents := OwnAgents(true)) && Quiet(h, {"1", "2", "3", "4"})
      && h.bs.conns == [Y_CONN] && h.bs.core.providers == map[ProviderKey("p", "y") := 0] && h.floor.lines == [FreshLine("x", true)]
  {
    var run0 := OwnStaffed(runtime);
    var h := After(runtime, run0);
    var m := Dial("h", HOST_KEY, "4", "x");
    assert h.gate.clock == 0 && h.bs.tickets == [] && h.calls == [] && !h.doors.reused;
    assert Selects(h.db, "p", "x", "y") && h.db.agents[("p", "y")].owner == "h";
    MembersNote(h, "h", "4", m.content);
    UnusedNonce(h, {"1", "2", "3"}, m);
    TablesOwned();
    hide After, Next, Enabled, Valid, NewNonce, Quiet, SetAgentOnline, ProviderKey, Apply;
    run := Plug(runtime, run0, m, "y");
    StillQuiet(h, After(runtime, run), {"1", "2", "3"}, m);
    assert {"1", "2", "3"} + {"4"} == {"1", "2", "3", "4"};
  }

  const FOR_Y: Request := Request(SCHEMA_VERSION, "r", "p", "m", "y", [], Digest([]), 1)

  lemma ForYAsked(runtime: Runtime) returns (run: seq<Action>)
    ensures var h := After(runtime, run);
      && h.db == JOINED.(agents := OwnAgents(true)) && h.bs.tickets == [] && "p" in h.hosting
      && h.bs.conns == [Y_CONN] && h.bs.core.providers == map[ProviderKey("p", "y") := 0] && h.floor.lines == [FreshLine("x", true)]
      && |h.calls| == 1 && h.calls[0].request == FOR_Y && h.calls[0].stage == Arrived
      && h.calls[0].ask < |h.gate.accepted| && h.gate.accepted[h.calls[0].ask].msg == Note("m", GUEST_KEY, "7", Ask(FOR_Y))
  {
    var run0 := XAttachedAsY(runtime);
    var h := After(runtime, run0);
    var m := Note("m", GUEST_KEY, "7", Ask(FOR_Y));
    assert h.gate.clock == 0 && h.calls == [] && h.bs.tickets == [] && "p" in h.hosting;
    assert AskFits(m);
    MembersNote(h, "m", "7", m.content);
    UnusedNonce(h, {"1", "2", "3", "4"}, m);
    hide After, Next, Enabled, Valid, NewNonce, Quiet, AskFits, ProviderKey;
    run := Submit(runtime, run0, m);
  }

  /**
   * An answer can come from another agent's loop: agent y is asked, the loop of agent x is attached for it, and the ask
   * is answered with what the runtime computes for x. Every provider here does what it should.
   */
  lemma AnsweredByAnother(runtime: Runtime) returns (run: seq<Action>)
    ensures var h := After(runtime, run);
      AskReply(0, "7", ProviderPayload("x", FOR_Y, runtime("x", FOR_Y))) in h.replies && FOR_Y.agent == "y"
  {
    var run0 := ForYAsked(runtime);
    var h := After(runtime, run0);
    hide After, Next, Enabled, ProviderKey;
    assert StillAttached(h, 0, "d", "h");
    assert Idle(h, 0);
    run := AnsweredUndisturbed(runtime, run0, 0, "d", "h");
  }

  // ---- An invitation that outlives its Project -----------------------------------------------

  lemma GoneStep(h: Host)
    requires "p" in h.db.projects && h.hosting == {"p"}
    ensures Enabled(h, Withdraw("p")) && Next(h, Withdraw("p")) == h.(hosting := {})
    ensures Enabled(h.(hosting := {}), StoreCall(DeleteProjectOp("p")))
    ensures Next(h.(hosting := {}), StoreCall(DeleteProjectOp("p")))
         == h.(hosting := {}, db := DeleteProject(h.db, "p"), deleted := h.deleted + {"p"})
  {
    assert {"p"} - {"p"} == {};
  }

  lemma TablesGone()
    ensures DeleteProject(FOUNDED, "p") == EMPTY
    ensures Apply(EMPTY, INVITE) == (EMPTY.(invitations := map[("p", "i") := InviteRow(INVITE_KEY, LIFETIME, None)]), None)
  {
    assert DeleteProject(FOUNDED, "p").members == map[];
    assert DeleteProject(FOUNDED, "p").projects == map[];
  }

  /**
   * The undo of a creation can overtake the invitation it asked for: the owner's order was taken on, the profile was
   * removed and the Project deleted, and the order is carried out then. The one row left is that invitation.
   */
  lemma InvitationOutlivesProject(runtime: Runtime) returns (run: seq<Action>)
    ensures var h := After(runtime, run);
      "p" in h.deleted && h.db == EMPTY.(invitations := map[("p", "i") := InviteRow(INVITE_KEY, LIFETIME, None)])
  {
    var run0 := Founded(runtime);
    var h := After(runtime, run0);
    var m := Note("h", HOST_KEY, "1", Perform(InviteCreate(600)));
    assert Quiet(h, {}) && IsOwner(h.db, "p", "h") && h.hosting == {"p"};
    MembersNote(h, "h", "1", m.content);
    UnusedNonce(h, {}, m);
    TablesGone();
    hide After, Next, Enabled, Valid, NewNonce, Quiet, Apply, DeleteProject;
    var run1 := Submit(runtime, run0, m);
    var h1 := After(runtime, run1);
    GoneStep(h1);
    Extend(runtime, run1, Withdraw("p"));
    var run2 := run1 + [Withdraw("p")];
    Extend(runtime, run2, StoreCall(DeleteProjectOp("p")));
    var run3 := run2 + [StoreCall(DeleteProjectOp("p"))];
    var h3 := After(runtime, run3);
    var j := |h3.jobs| - 1;
    assert h3.jobs[j].stage == Taken;
    ExecuteStep(h3, j, INVITE);
    Extend(runtime, run3, Execute(j, INVITE));
    run := run3 + [Execute(j, INVITE)];
  }

  // ---- A challenge that reads as a response --------------------------------------------------

  const LINES: seq<string> := ["X", "agent.register.response", POST, RPC_PATH, "V", "Y"]
  const CHALLENGE: string := Signing.Join(NEWLINE, LINES)
  const QUERY: Responses.Query := Responses.Query("p", "agent.register.response", "V")

  lemma ChallengeEchoes()
    ensures Responses.Echoed(CHALLENGE, QUERY) && CHALLENGE != ""
  {
    SplitOfLines(NEWLINE, LINES);
    assert LINES[1..5] == Responses.Window(QUERY);
    assert Responses.Holds(Split(NEWLINE, CHALLENGE), 1, Responses.Window(QUERY));
  }

  lemma ChallengeStep(h: Host)
    requires "p" in h.hosting && CHALLENGE != ""
    ensures Enabled(h, AnswerChallenge("p", CHALLENGE))
    ensures Next(h, AnswerChallenge("p", CHALLENGE)) == h.(replies := h.replies + {IdentityReply("p", CHALLENGE)})
  {
  }

  /** The host has answered one identity challenge and has accepted nothing. */
  lemma ChallengeAnswered(runtime: Runtime) returns (run: seq<Action>)
    ensures var h := After(runtime, run); h.replies == {IdentityReply("p", CHALLENGE)} && h.gate.accepted == []
    ensures EndToEnd.Misleads(After(runtime, run), IdentityReply("p", CHALLENGE), QUERY)
  {
    var run0 := Founded(runtime);
    var h := After(runtime, run0);
    assert h.replies == {} && h.gate.accepted == [] && "p" in h.hosting;
    ChallengeEchoes();
    hide After, Next, Enabled, Responses.Echoed;
    ChallengeStep(h);
    Extend(runtime, run0, AnswerChallenge("p", CHALLENGE));
    run := run0 + [AnswerChallenge("p", CHALLENGE)];
  }

  function IdentityMessage(payload: Bytes): SignedMessage {
    SignedMessage(SCHEMA_VERSION, "p", "h", "identity.response", GET, IDENTITY_PATH, CHALLENGE, "n", 0, payload)
  }

  const REGISTRATION: Msg := Note("m", GUEST_KEY, "V", Perform(AgentRegister("a", "A", "")))

  lemma RegistrationQuery()
    ensures EndToEnd.QueryOf(REGISTRATION) == QUERY && EndToEnd.CleanMsg(REGISTRATION) && Responses.CleanQuery(QUERY)
  {
    assert "agent.register" + Responses.DOT_RESPONSE == "agent.register.response";
    EndToEnd.CleanMsgQuery(REGISTRATION);
  }

  lemma IdentityReads(payload: Bytes, enc: Encoders) returns (x: SignedMessage)
    requires Responses.Collisionless(enc)
    ensures Responses.Reading(x, IdentityMessage(payload), QUERY, enc) && x.payload == payload
  {
    var s := IdentityMessage(payload);
    EndToEnd.RoutesArePlain();
    ChallengeEchoes();
    RegistrationQuery();
    assert Responses.CleanButReplyTo(s) && Responses.PlainRoute(s);
    hide Responses.Echoed, Responses.EndsAsResponse, MessageBytes, Split;
    Responses.ReadsAsExactly(s, QUERY, enc);
    x :| Responses.Reading(x, s, QUERY, enc);
    Responses.SamePayload(x, s, enc);
  }

  lemma IdentityIsSigned(h: Host, payload: Bytes, parse: Client.Parser)
    requires h.replies == {IdentityReply("p", CHALLENGE)} && parse(payload) == Some(Client.RpcResult(true, None, true, None))
    ensures EndToEnd.HostSigns(h, {IdentityMessage(payload)}, parse)
  {
    var s := IdentityMessage(payload);
    assert EndToEnd.HostFields(s) by {
      assert Lacks(NEWLINE, "p") && Lacks(NEWLINE, "h") && Lacks(NEWLINE, "n");
    }
    assert EndToEnd.SignedFor(h, s, IdentityReply("p", CHALLENGE), parse);
    hide EndToEnd.SignedFor, EndToEnd.HostFields;
  }

  lemma OnePostSucceeds(c: EndToEnd.RpcCall, x: SignedMessage)
    requires c.round1 == [Client.Heard(x, Signature(c.hostKey, MessageBytes(x, c.enc)), x.timestamp, false, false)] && c.round2 == []
    requires c.discover == None && |c.hostKey| == KEY_SIZE && Responses.Complete(x) && Responses.Fits(x, EndToEnd.QueryOf(c.m))
    requires c.parse(x.payload) == Some(Client.RpcResult(true, None, true, None))
    ensures EndToEnd.Outcome(c) == Client.Success(None)
  {
    var q := EndToEnd.QueryOf(c.m);
    var posts := Client.Reads(c.round1, q, c.hostKey, c.enc, c.parse);
    hide MessageBytes;
    assert Client.Problem(c.round1[0], q, c.hostKey, c.enc, c.parse) == None;
    assert posts[0] == Client.Responded(Client.Answer(x.project, x.kind, true, None, true, None));
    assert posts + Client.Reads(c.round2, q, c.hostKey, c.enc, c.parse) == posts;
    Client.FirstDecisiveIs(posts, 0);
  }

  lemma Misheard(enc: Encoders, parse: Client.Parser, hostKey: Bytes, payload: Bytes) returns (c: EndToEnd.RpcCall)
    requires Responses.Collisionless(enc) && |hostKey| == KEY_SIZE && parse(payload) == Some(Client.RpcResult(true, None, true, None))
    ensures c.m == REGISTRATION && c.enc == enc && c.parse == parse && c.hostKey == hostKey
    ensures EndToEnd.NoForgery(c, {IdentityMessage(payload)}) && EndToEnd.Outcome(c) == Client.Success(None)
  {
    RegistrationQuery();
    var x := IdentityReads(payload, enc);
    var s := IdentityMessage(payload);
    hide MessageBytes, Responses.CleanQuery, EndToEnd.CleanMsg, EndToEnd.Outcome, Responses.Collisionless;
    var sig := Signature(hostKey, MessageBytes(x, enc));
    c := EndToEnd.RpcCall(REGISTRATION, [Client.Heard(x, sig, x.timestamp, false, false)], [], None, hostKey, enc, parse);
    assert s in {s} && sig.over == MessageBytes(s, enc);
    OnePostSucceeds(c, x);
  }

  lemma NothingDone(runtime: Runtime, run: seq<Action>, m: Msg)
    requires After(runtime, run).gate.accepted == []
    ensures !EndToEnd.DoneOnce(runtime, run, m)
  {
    assert TimesTaken(After(runtime, run).gate.accepted, m) == 0;
  }

  /**
   * Without the condition on replies a successful RPC means nothing: for any encoders and any payload that is an ok
   * result, the host answers one identity challenge, an RPC of a member succeeds, and the host has accepted no message.
   */
  lemma SuccessWithoutTheHost(runtime: Runtime, enc: Encoders, parse: Client.Parser, hostKey: Bytes, payload: Bytes)
    returns (run: seq<Action>, c: EndToEnd.RpcCall, signed: set<SignedMessage>)
    requires Responses.Collisionless(enc) && |hostKey| == KEY_SIZE && parse(payload) == Some(Client.RpcResult(true, None, true, None))
    ensures EndToEnd.HostSigns(After(runtime, run), signed, parse) && EndToEnd.NoForgery(c, signed)
    ensures c.m == REGISTRATION && c.enc == enc && c.parse == parse && c.hostKey == hostKey && EndToEnd.CleanMsg(c.m)
    ensures EndToEnd.Outcome(c).Success? && After(runtime, run).gate.accepted == [] && !EndToEnd.DoneOnce(runtime, run, c.m)
  {
    hide After, EndToEnd.HostSigns, EndToEnd.NoForgery, EndToEnd.Outcome, EndToEnd.DoneOnce, EndToEnd.CleanMsg, EndToEnd.Misleads,
      Responses.Collisionless, Responses.CleanQuery;
    run := ChallengeAnswered(runtime);
    RegistrationQuery();
    signed := {IdentityMessage(payload)};
    IdentityIsSigned(After(runtime, run), payload, parse);
    c := Misheard(enc, parse, hostKey, payload);
    NothingDone(runtime, run, REGISTRATION);
  }
}
