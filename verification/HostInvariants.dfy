/** What every step of the host keeps. */
module HostInvariants {
  import opened Base
  import opened Signing
  import opened Tables
  import opened Replay
  import opened Server
  import opened Broker
  import opened Provider
  import opened Host
  import Correlation
  import StoreInvariants

  // ---- What a step leaves alone --------------------------------------------------------------

  lemma TablesPart(h: Host, a: Action)
    requires Enabled(h, a)
    ensures Next(h, a).db == NextTables(h, a) && Next(h, a).hosting == NextHosting(h, a) && Next(h, a).deleted == NextDeleted(h, a)
  {
    hide NextTables, NextHosting, NextDeleted, NextGate, NextDoors, NextBroker, NextCalls, NextJobs, NextFloor, NextReplies;
  }

  lemma GatePart(h: Host, a: Action)
    requires Enabled(h, a)
    ensures Next(h, a).gate == NextGate(h, a) && Next(h, a).doors == NextDoors(h, a)
  {
    hide NextTables, NextHosting, NextDeleted, NextGate, NextDoors, NextBroker, NextCalls, NextJobs, NextFloor, NextReplies;
  }

  lemma BrokerPart(h: Host, a: Action)
    requires Enabled(h, a)
    ensures Next(h, a).bs == NextBroker(h, a) && Next(h, a).floor == NextFloor(h, a)
  {
    hide NextTables, NextHosting, NextDeleted, NextGate, NextDoors, NextBroker, NextCalls, NextJobs, NextFloor, NextReplies;
  }

  lemma DeskPart(h: Host, a: Action)
    requires Enabled(h, a)
    ensures Next(h, a).calls == NextCalls(h, a) && Next(h, a).jobs == NextJobs(h, a)
    ensures Next(h, a).callOf == NextCallOf(h, a) && Next(h, a).replies == NextReplies(h, a)
  {
    hide NextTables, NextHosting, NextDeleted, NextGate, NextDoors, NextBroker, NextCalls, NextJobs, NextFloor, NextReplies;
  }

  lemma IsReady(h: Host, a: Action)
    requires Enabled(h, a)
    ensures Ready(h, a)
  {
  }

  lemma GateKept(h: Host, a: Action)
    requires Enabled(h, a) && !a.Tick? && !a.Arrive? && !a.Accept?
    ensures Next(h, a).gate == h.gate
  {
    hide Next, Enabled, NextDoors;
    GatePart(h, a);
  }

  lemma StoreMoves(h: Host, a: Action)
    requires Enabled(h, a)
    ensures Next(h, a).db == if OpOf(h, a).Some? then Apply(h.db, OpOf(h, a).value).0 else h.db
    ensures OpOf(h, a).Some? ==>
      && Admissible(OpOf(h, a).value)
      && (OpOf(h, a).value.CreateProjectOp? ==> OpOf(h, a).value.p !in h.deleted)
  {
    hide Next, Enabled, NextHosting, NextDeleted, Apply, Selects, VerifyMsg;
    TablesPart(h, a);
    IsReady(h, a);
  }

  lemma DeletedAfter(h: Host, a: Action)
    requires Enabled(h, a)
    ensures Next(h, a).deleted == if OpOf(h, a).Some? && OpOf(h, a).value.DeleteProjectOp? then h.deleted + {OpOf(h, a).value.p} else h.deleted
    ensures Next(h, a).hosting == NextHosting(h, a)
  {
    hide Next, Enabled, NextTables, NextHosting, Selects, VerifyMsg, HasOutcome;
    TablesPart(h, a);
    IsReady(h, a);
  }

  // ---- The gate ------------------------------------------------------------------------------

  const RETENTION: int := 2 * SIGNATURE_MAX_AGE

  ghost function Log(accepted: seq<Acceptance>): (r: seq<Event>)
    ensures |r| == |accepted|
    ensures forall i :: 0 <= i < |r| ==> r[i] == Event(MessageKey(accepted[i].msg), accepted[i].time)
  {
    seq(|accepted|, i requires 0 <= i < |accepted| => Event(MessageKey(accepted[i].msg), accepted[i].time))
  }

  ghost predicate OnceEach(accepted: seq<Acceptance>) {
    forall i, j :: 0 <= i < j < |accepted| ==> accepted[i].msg != accepted[j].msg
  }

  ghost predicate Timely(accepted: seq<Acceptance>) {
    forall i :: 0 <= i < |accepted| ==> InWindow(accepted[i].msg.timestamp, accepted[i].time, SIGNATURE_MAX_AGE)
  }

  ghost predicate GateSound(g: Gate) {
    && g.checked <= g.clock && Holds(g.seen, Log(g.accepted), g.checked, RETENTION)
    && OnceEach(g.accepted) && Timely(g.accepted)
  }

  lemma KnockHolds(g: Gate, m: Msg)
    requires g.checked <= g.clock && Holds(g.seen, Log(g.accepted), g.checked, RETENTION)
    ensures var (after, ok) := Knock(g, m);
      && ok == !Recent(Log(g.accepted), MessageKey(m), g.clock, RETENTION)
      && Holds(after.seen, Log(after.accepted), g.clock, RETENTION)
  {
    AcceptRefines(g.seen, Log(g.accepted), g.checked, MessageKey(m), g.clock, RETENTION);
    hide Holds, Recent, Evict;
    var (after, ok) := Knock(g, m);
    if ok {
      assert Log(after.accepted) == Log(g.accepted) + [Event(MessageKey(m), g.clock)];
    }
  }

  /** A message accepted before is still in the guard's history whenever it is inside its window. */
  lemma AcceptedIsRecent(g: Gate, m: Msg, i: nat)
    requires Timely(g.accepted) && i < |g.accepted| && g.accepted[i].msg == m && g.accepted[i].time <= g.clock
    requires InWindow(m.timestamp, g.clock, SIGNATURE_MAX_AGE)
    ensures Recent(Log(g.accepted), MessageKey(m), g.clock, RETENTION)
  {
    var log := Log(g.accepted);
    assert log[i].key == MessageKey(m) && g.clock - log[i].time <= RETENTION;
  }

  lemma KnockOnce(g: Gate, m: Msg)
    requires GateSound(g) && InWindow(m.timestamp, g.clock, SIGNATURE_MAX_AGE)
    ensures GateSound(Knock(g, m).0)
  {
    var (after, ok) := Knock(g, m);
    KnockHolds(g, m);
    forall i: nat | i < |g.accepted| && g.accepted[i].msg == m ensures !ok {
      assert Log(g.accepted)[i].time <= g.checked;
      AcceptedIsRecent(g, m, i);
    }
    hide Holds, Recent, AcceptStep;
  }

  lemma GateStep(h: Host, a: Action)
    requires GateSound(h.gate) && Enabled(h, a)
    ensures GateSound(Next(h, a).gate)
  {
    hide Next, Enabled, NextDoors, Holds, OnceEach;
    GatePart(h, a);
    IsReady(h, a);
    if a.Accept? {
      KnockOnce(h.gate, a.visit.msg);
      hide GateSound, Knock;
    }
  }

  /** Whatever was looked up, and so whatever was accepted, is of a known route and kind. */
  ghost predicate AllRouted(g: Gate) {
    (forall v :: v in g.visits ==> Routed(v.msg)) && (forall i :: 0 <= i < |g.accepted| ==> Routed(g.accepted[i].msg))
  }

  lemma RoutedStep(h: Host, a: Action)
    requires AllRouted(h.gate) && Enabled(h, a)
    ensures AllRouted(Next(h, a).gate)
  {
    hide Next, Enabled, NextDoors, Routed, AcceptStep;
    GatePart(h, a);
    IsReady(h, a);
  }

  // ---- Asks, other operations, dispatches and replies ----------------------------------------

  ghost predicate CallsSound(calls: seq<Call>, accepted: seq<Acceptance>) {
    && (forall i :: 0 <= i < |calls| ==>
        && calls[i].ask < |accepted| && AskFits(accepted[calls[i].ask].msg)
        && accepted[calls[i].ask].msg.content == Ask(calls[i].request))
    && (forall i, j :: 0 <= i < j < |calls| ==> calls[i].ask < calls[j].ask)
  }

  ghost predicate JobsSound(jobs: seq<Job>, accepted: seq<Acceptance>) {
    && (forall j :: 0 <= j < |jobs| ==>
        && jobs[j].ask < |accepted| && accepted[jobs[j].ask].msg.content == Perform(jobs[j].order)
        && accepted[jobs[j].ask].msg.project == jobs[j].project && accepted[jobs[j].ask].msg.sender == jobs[j].member)
    && (forall i, j :: 0 <= i < j < |jobs| ==> jobs[i].ask < jobs[j].ask)
  }

  /** The asks and the accepted messages after any step: kept, except that Accept may add one of each. */
  lemma CallsAfter(h: Host, a: Action)
    requires Enabled(h, a)
    ensures var after := Next(h, a);
      && |h.calls| <= |after.calls| <= |h.calls| + 1 && h.gate.accepted <= after.gate.accepted
      && (forall i :: 0 <= i < |h.calls| ==>
          && after.calls[i].request == h.calls[i].request && after.calls[i].ask == h.calls[i].ask
          && (h.calls[i].stage.Replied? ==> after.calls[i] == h.calls[i]))
      && (|after.calls| > |h.calls| ==>
          var c := after.calls[|h.calls|];
          && c == Call(c.request, |h.gate.accepted|, Arrived, None, "", "") && |h.gate.accepted| < |after.gate.accepted|
          && AskFits(after.gate.accepted[c.ask].msg) && after.gate.accepted[c.ask].msg.content == Ask(c.request))
  {
    hide Next, Enabled, NextDoors, NextJobs, NextCallOf, NextReplies, AcceptStep, MayAsk, Apply, CreateRequest, Selects, VerifyMsg;
    GatePart(h, a);
    DeskPart(h, a);
    IsReady(h, a);
  }

  lemma CallsStep(h: Host, a: Action)
    requires CallsSound(h.calls, h.gate.accepted) && Enabled(h, a)
    ensures CallsSound(Next(h, a).calls, Next(h, a).gate.accepted)
  {
    hide Next, Enabled, AskFits;
    CallsAfter(h, a);
  }

  /** Likewise for the other operations. */
  lemma JobsAfter(h: Host, a: Action)
    requires Enabled(h, a)
    ensures var after := Next(h, a);
      && |h.jobs| <= |after.jobs| <= |h.jobs| + 1 && h.gate.accepted <= after.gate.accepted
      && (forall j :: 0 <= j < |h.jobs| ==>
          && after.jobs[j].(stage := h.jobs[j].stage) == h.jobs[j]
          && (h.jobs[j].stage.Told? ==> after.jobs[j] == h.jobs[j]))
      && (|after.jobs| > |h.jobs| ==>
          var j := after.jobs[|h.jobs|];
          && j.stage == Taken && j.ask == |h.gate.accepted| < |after.gate.accepted|
          && var m := after.gate.accepted[j.ask].msg; m.content == Perform(j.order) && m.project == j.project && m.sender == j.member)
  {
    hide Next, Enabled, NextDoors, NextCalls, NextCallOf, NextReplies, AcceptStep, Apply, Selects, VerifyMsg, Carries;
    GatePart(h, a);
    DeskPart(h, a);
    IsReady(h, a);
  }

  lemma JobsStep(h: Host, a: Action)
    requires JobsSound(h.jobs, h.gate.accepted) && Enabled(h, a)
    ensures JobsSound(Next(h, a).jobs, Next(h, a).gate.accepted)
  {
    hide Next, Enabled;
    JobsAfter(h, a);
  }

  /** An order that was not refused made a Store call that carries it, unless it only reads. */
  ghost predicate JobHonest(job: Job) {
    match job.stage
    case Taken => true
    case Done(op, ok) => CarriedOut(job, op, ok)
    case Told(op, ok) => CarriedOut(job, op, ok)
  }

  ghost predicate CarriedOut(job: Job, op: Option<Op>, ok: bool) {
    && (op.None? && ok ==> job.order.Inquiry?)
    && (op.None? && !ok ==> job.order.Inquiry? || Improper(job))
    && (op.Some? ==> exists now :: Carries(job, op.value, now))
  }

  ghost predicate JobsHonest(jobs: seq<Job>) {
    forall j :: 0 <= j < |jobs| ==> JobHonest(jobs[j])
  }

  lemma CarriesAnyStage(job: Job, stage: JobStage, op: Op, now: int)
    ensures Carries(job.(stage := stage), op, now) == Carries(job, op, now)
  {
  }

  /** How one step can move one job along. */
  lemma JobMoves(h: Host, a: Action, j: nat)
    requires Enabled(h, a) && j < |h.jobs|
    ensures j < |Next(h, a).jobs|
    ensures var (job, job') := (h.jobs[j], Next(h, a).jobs[j]);
      match a
      case Execute(i, op) =>
        if i == j then job.stage.Taken? && Carries(job, op, h.gate.clock) && job' == job.(stage := Done(Some(op), Apply(h.db, op).1.None?)) else job' == job
      case Decline(i) => if i == j then job.stage.Taken? && Improper(job) && job' == job.(stage := Done(None, false)) else job' == job
      case Inquire(i, ok) => if i == j then job.stage.Taken? && job.order.Inquiry? && job' == job.(stage := Done(None, ok)) else job' == job
      case ReplyToJob(i) => if i == j then job.stage.Done? && job' == job.(stage := Told(job.stage.op, job.stage.ok)) else job' == job
      case _ => job' == job
  {
    hide Next, Enabled, NextCalls, NextCallOf, NextReplies, Admits, Apply, Selects, VerifyMsg, Carries;
    DeskPart(h, a);
    IsReady(h, a);
  }

  lemma JobStaysHonest(h: Host, a: Action, j: nat)
    requires Enabled(h, a) && j < |h.jobs| && JobHonest(h.jobs[j])
    ensures JobHonest(Next(h, a).jobs[j])
  {
    hide Next, Enabled;
    JobMoves(h, a, j);
    var (job, job') := (h.jobs[j], Next(h, a).jobs[j]);
    if a.Execute? && a.j == j {
      CarriesAnyStage(job, job'.stage, a.op, h.gate.clock);
      assert Carries(job', a.op, h.gate.clock);
    } else if a.ReplyToJob? && a.j == j && job.stage.op.Some? {
      var now :| Carries(job, job.stage.op.value, now);
      CarriesAnyStage(job, job'.stage, job.stage.op.value, now);
      assert Carries(job', job.stage.op.value, now);
    }
    hide Carries;
  }

  lemma JobsHonestStep(h: Host, a: Action)
    requires JobsHonest(h.jobs) && Enabled(h, a)
    ensures JobsHonest(Next(h, a).jobs)
  {
    hide Next, Enabled, JobHonest;
    JobsAfter(h, a);
    forall j: nat | j < |h.jobs| ensures JobHonest(Next(h, a).jobs[j]) {
      JobStaysHonest(h, a, j);
    }
    if |Next(h, a).jobs| > |h.jobs| {
      TakenIsHonest(Next(h, a).jobs[|h.jobs|]);
    }
  }

  lemma TakenIsHonest(job: Job)
    requires job.stage.Taken?
    ensures JobHonest(job)
  {
  }

  /** An ask's stage agrees with its dispatch. */
  ghost predicate LinkFits(c: Call, i: nat, callOf: seq<nat>, tickets: seq<Correlation.Ticket>) {
    match c.ticket
    case Some(t) =>
      && t < |tickets| == |callOf| && callOf[t] == i && tickets[t].request == c.request
      && (c.stage.Dispatching? || ((c.stage.Closed? || c.stage.Replied?) && tickets[t].phase == Correlation.Returned(c.stage.outcome)))
    case None => !c.stage.Dispatching? && (c.stage.Closed? || c.stage.Replied? ==> c.stage.outcome.None?)
  }

  ghost predicate LinksSound(calls: seq<Call>, callOf: seq<nat>, tickets: seq<Correlation.Ticket>) {
    && |callOf| == |tickets|
    && (forall t :: 0 <= t < |callOf| ==> callOf[t] < |calls| && calls[callOf[t]].ticket == Some(t))
    && (forall i :: 0 <= i < |calls| ==> LinkFits(calls[i], i, callOf, tickets))
  }

  /** The broker's tickets after any step of the host: kept, except that Dispatch adds one. */
  lemma TicketsAfter(h: Host, a: Action)
    requires Enabled(h, a)
    ensures var (old', new') := (h.bs.tickets, Next(h, a).bs.tickets);
      && |new'| == |old'| + (if a.Dispatch? then 1 else 0)
      && (forall t :: 0 <= t < |old'| ==>
          && new'[t].request == old'[t].request && new'[t].nonce == old'[t].nonce && new'[t].conn == old'[t].conn
          && (old'[t].phase.Returned? ==> new'[t].phase == old'[t].phase)
          && (new'[t].phase.Registered? ==> old'[t].phase.Registered?))
      && (a.Dispatch? ==> new'[|old'|].request == h.calls[a.i].request)
    ensures |Next(h, a).bs.conns| == |h.bs.conns| + (if a.Attach? then 1 else 0)
    ensures forall c :: 0 <= c < |h.bs.conns| ==> Next(h, a).bs.conns[c].(open := h.bs.conns[c].open) == h.bs.conns[c]
  {
    hide Next, Enabled, NextFloor, Correlation.Next, Correlation.Enabled;
    BrokerPart(h, a);
    BrokerMoves(h, a);
    if BrokerOf(h, a).Some? {
      BrokerTickets(h.bs, BrokerOf(h, a).value);
    }
    OnlyDispatchRegisters(h, a);
  }

  lemma BrokerTickets(s: Correlation.Sys, a: Correlation.Action)
    requires Correlation.Enabled(s, a)
    ensures var after := Correlation.Next(s, a);
      && |after.tickets| == |s.tickets| + (if a.Register? then 1 else 0) && |after.conns| == |s.conns| + (if a.Connect? then 1 else 0)
      && (forall t :: 0 <= t < |s.tickets| ==>
          && after.tickets[t].request == s.tickets[t].request && after.tickets[t].nonce == s.tickets[t].nonce
          && after.tickets[t].conn == s.tickets[t].conn
          && (s.tickets[t].phase.Returned? ==> after.tickets[t].phase == s.tickets[t].phase)
          && (after.tickets[t].phase.Registered? ==> s.tickets[t].phase.Registered?))
      && (forall c :: 0 <= c < |s.conns| ==> after.conns[c].(open := s.conns[c].open) == s.conns[c])
      && (a.Register? ==> after.tickets[|s.tickets|].request == a.request)
  {
    Correlation.TicketsKept(s, a);
  }

  lemma OnlyDispatchRegisters(h: Host, a: Action)
    requires Enabled(h, a)
    ensures a.Dispatch? <==> BrokerOf(h, a).Some? && BrokerOf(h, a).value.Register?
    ensures a.Attach? <==> BrokerOf(h, a).Some? && BrokerOf(h, a).value.Connect?
    ensures a.Dispatch? ==> a.i < |h.calls| && BrokerOf(h, a).value.request == h.calls[a.i].request
    ensures a.Attach? ==> BrokerOf(h, a).value.conn == a.greeted.conn
  {
    hide Correlation.Enabled, Selects, VerifyMsg, Carries;
  }

  /** The broker's part of a step. */
  lemma BrokerMoves(h: Host, a: Action)
    requires Enabled(h, a)
    ensures BrokerOf(h, a).Some? ==>
      Correlation.Enabled(h.bs, BrokerOf(h, a).value) && Next(h, a).bs == Correlation.Next(h.bs, BrokerOf(h, a).value)
    ensures BrokerOf(h, a).None? ==> Next(h, a).bs == h.bs
  {
    hide Next, Ready, BrokerOf, NextFloor, Correlation.Next, Correlation.Enabled;
    BrokerPart(h, a);
  }

  predicate BeforeDispatch(stage: Stage) {
    stage.Arrived? || stage.Found? || stage.Inserted? || stage.Identified?
  }

  predicate WithoutDispatch(stage: Stage) {
    stage.Found? || stage.Refused? || stage.Inserted? || stage.Identified? || stage.NoIdentity? || stage.Offline?
  }

  /** How one step can move one ask along. */
  lemma CallMoves(h: Host, a: Action, i: nat)
    requires Enabled(h, a) && i < |h.calls|
    ensures Ready(h, a) && i < |Next(h, a).calls|
    ensures Next(h, a).calls[i] == if Moved(h, a).Some? && Moved(h, a).value.0 == i then Moved(h, a).value.1 else h.calls[i]
  {
    hide Next, Enabled, NextJobs, NextCallOf, NextReplies, Admits, Moved;
    DeskPart(h, a);
    IsReady(h, a);
    AcceptMovesNone(h, a);
  }

  lemma AcceptMovesNone(h: Host, a: Action)
    requires Ready(h, a)
    ensures a.Accept? ==> Moved(h, a).None?
  {
  }

  /** What a move means for an ask's dispatch. */
  lemma MoveFits(h: Host, a: Action, i: nat)
    requires Ready(h, a) && i < |h.calls| && Moved(h, a).Some? && Moved(h, a).value.0 == i
    ensures var (c, c') := (h.calls[i], Moved(h, a).value.1);
      if a.Dispatch? then c' == c.(stage := Dispatching, ticket := Some(|h.bs.tickets|)) && c.stage.Identified?
      else if a.Finish? then HasOutcome(h, i) && c' == c.(stage := Closed(OutcomeOf(h, i)))
      else if a.ReplyTo? then c.stage.Closed? && c' == c.(stage := Replied(c.stage.outcome))
      else BeforeDispatch(c.stage) && WithoutDispatch(c'.stage) && c'.ticket == c.ticket && c'.request == c.request
  {
    hide Selects, CreateRequest, VerifyMsg, Carries;
  }

  lemma DispatchFromIdentified(h: Host, a: Action)
    requires Enabled(h, a) && a.Dispatch?
    ensures a.i < |h.calls| && h.calls[a.i].stage.Identified?
  {
  }

  lemma LinkKept(c: Call, c': Call, i: nat, callOf: seq<nat>, callOf': seq<nat>,
                 tickets: seq<Correlation.Ticket>, tickets': seq<Correlation.Ticket>)
    requires LinkFits(c, i, callOf, tickets)
    requires callOf <= callOf' && |callOf'| == |tickets'| && |callOf| == |tickets| <= |tickets'|
    requires forall t :: 0 <= t < |tickets| ==>
      tickets'[t].request == tickets[t].request && (tickets[t].phase.Returned? ==> tickets'[t].phase == tickets[t].phase)
    requires c' == c || (c.stage.Closed? && c' == c.(stage := Replied(c.stage.outcome)))
          || (BeforeDispatch(c.stage) && WithoutDispatch(c'.stage) && c'.ticket == c.ticket)
    ensures LinkFits(c', i, callOf', tickets')
  {
  }

  lemma LinkStep(h: Host, a: Action, i: nat)
    requires LinksSound(h.calls, h.callOf, h.bs.tickets) && Enabled(h, a) && i < |h.calls|
    ensures i < |Next(h, a).calls| && (h.calls[i].ticket.Some? ==> Next(h, a).calls[i].ticket == h.calls[i].ticket)
    ensures LinkFits(Next(h, a).calls[i], i, Next(h, a).callOf, Next(h, a).bs.tickets)
    ensures a.Dispatch? && a.i == i ==> Next(h, a).calls[i].ticket == Some(|h.callOf|)
  {
    hide Next, Enabled, Moved, HasOutcome, OutcomeOf;
    TicketsAfter(h, a);
    CallOfGrows(h, a);
    CallMoves(h, a, i);
    var after := Next(h, a);
    assert LinkFits(h.calls[i], i, h.callOf, h.bs.tickets);
    hide LinksSound;
    if Moved(h, a).Some? && Moved(h, a).value.0 == i {
      MoveFits(h, a, i);
      MovesItself(h, a);
    } else {
      DispatchMoves(h, a);
    }
    if a.Finish? && Moved(h, a).Some? && Moved(h, a).value.0 == i {
      FinishFits(h, i, after.callOf, after.bs.tickets);
    } else if a.Dispatch? && Moved(h, a).value.0 == i {
    } else {
      hide LinkFits;
      LinkKept(h.calls[i], after.calls[i], i, h.callOf, after.callOf, h.bs.tickets, after.bs.tickets);
    }
  }

  lemma MovesItself(h: Host, a: Action)
    requires Ready(h, a) && Moved(h, a).Some?
    ensures a.Dispatch? || a.Finish? || a.ReplyTo? ==> Moved(h, a).value.0 == a.i
  {
  }

  lemma DispatchMoves(h: Host, a: Action)
    requires Ready(h, a)
    ensures a.Dispatch? ==> Moved(h, a).Some? && Moved(h, a).value.0 == a.i
  {
  }

  lemma FinishFits(h: Host, i: nat, callOf: seq<nat>, tickets: seq<Correlation.Ticket>)
    requires HasOutcome(h, i) && LinkFits(h.calls[i], i, h.callOf, h.bs.tickets)
    requires h.callOf <= callOf && |callOf| == |tickets| && |h.bs.tickets| <= |tickets| && |h.callOf| == |h.bs.tickets|
    requires forall t :: 0 <= t < |h.bs.tickets| ==>
      tickets[t].request == h.bs.tickets[t].request && (h.bs.tickets[t].phase.Returned? ==> tickets[t].phase == h.bs.tickets[t].phase)
    ensures LinkFits(h.calls[i].(stage := Closed(OutcomeOf(h, i))), i, callOf, tickets)
  {
  }

  lemma LinksFrom(calls: seq<Call>, callOf: seq<nat>, calls': seq<Call>, callOf': seq<nat>, tickets': seq<Correlation.Ticket>)
    requires |callOf'| == |tickets'| && |calls| <= |calls'|
    requires forall t :: 0 <= t < |callOf| ==> callOf[t] < |calls| && calls[callOf[t]].ticket == Some(t)
    requires forall i :: 0 <= i < |calls| && calls[i].ticket.Some? ==> calls'[i].ticket == calls[i].ticket
    requires forall i: nat :: i < |calls| ==> LinkFits(calls'[i], i, callOf', tickets')
    requires forall i :: |calls| <= i < |calls'| ==> calls'[i].ticket.None? && calls'[i].stage.Arrived?
    requires callOf' == callOf || exists i: nat :: i < |calls| && callOf' == callOf + [i] && calls'[i].ticket == Some(|callOf|)
    ensures LinksSound(calls', callOf', tickets')
  {
  }

  lemma CallsGrow(h: Host, a: Action)
    requires Enabled(h, a)
    ensures |h.calls| <= |Next(h, a).calls|
    ensures forall i :: |h.calls| <= i < |Next(h, a).calls| ==> Next(h, a).calls[i].ticket.None? && Next(h, a).calls[i].stage.Arrived?
  {
    hide Next, Enabled, AskFits;
    CallsAfter(h, a);
  }

  lemma CallOfGrows(h: Host, a: Action)
    requires Enabled(h, a) && |h.callOf| == |h.bs.tickets|
    ensures |Next(h, a).callOf| == |Next(h, a).bs.tickets|
    ensures if a.Dispatch? then a.i < |h.calls| && Next(h, a).callOf == h.callOf + [a.i] else Next(h, a).callOf == h.callOf
  {
    hide Next, Enabled, NextCalls, NextJobs, NextReplies;
    TicketsAfter(h, a);
    DeskPart(h, a);
    if a.Dispatch? {
      DispatchFromIdentified(h, a);
    }
  }

  lemma LinksStep(h: Host, a: Action)
    requires LinksSound(h.calls, h.callOf, h.bs.tickets) && Enabled(h, a)
    ensures LinksSound(Next(h, a).calls, Next(h, a).callOf, Next(h, a).bs.tickets)
  {
    hide Next, Enabled, LinkFits;
    CallsGrow(h, a);
    CallOfGrows(h, a);
    var after := Next(h, a);
    forall i: nat | i < |h.calls|
      ensures h.calls[i].ticket.Some? ==> after.calls[i].ticket == h.calls[i].ticket
      ensures LinkFits(after.calls[i], i, after.callOf, after.bs.tickets)
      ensures a.Dispatch? && a.i == i ==> after.calls[i].ticket == Some(|h.callOf|)
    {
      LinkStep(h, a, i);
    }
    LinksFrom(h.calls, h.callOf, after.calls, after.callOf, after.bs.tickets);
  }

  ghost predicate RepliesSound(replies: set<HostReply>, calls: seq<Call>, jobs: seq<Job>, accepted: seq<Acceptance>) {
    forall r :: r in replies ==>
      match r
      case AskReply(i, replyTo, payload) =>
        && i < |calls| && calls[i].ask < |accepted| && replyTo == accepted[calls[i].ask].msg.nonce
        && calls[i].stage.Replied? && calls[i].stage.outcome.Some? && calls[i].stage.outcome.value.payload == payload
      case OpReply(j, replyTo) =>
        && j < |jobs| && jobs[j].ask < |accepted| && replyTo == accepted[jobs[j].ask].msg.nonce
        && jobs[j].stage.Told? && jobs[j].stage.ok
      case _ => true
  }

  lemma RepliesKept(h: Host, a: Action)
    requires Enabled(h, a) && !a.ReplyTo? && !a.ReplyToJob?
    ensures forall r :: r in Next(h, a).replies && r !in h.replies ==> r.IdentityReply? || r.JoinReply?
    ensures h.replies <= Next(h, a).replies
  {
    hide Next, Enabled, NextCalls, NextJobs, NextCallOf;
    DeskPart(h, a);
  }

  lemma AskReplyAdded(h: Host, a: Action, r: HostReply)
    requires Enabled(h, a) && a.ReplyTo? && r in Next(h, a).replies && r !in h.replies
    ensures a.i < |h.calls| && h.calls[a.i].ask < |h.gate.accepted| && a.i < |Next(h, a).calls|
    ensures var c := Next(h, a).calls[a.i];
      && c.ask == h.calls[a.i].ask && c.stage.Replied? && c.stage.outcome.Some?
      && r == AskReply(a.i, h.gate.accepted[c.ask].msg.nonce, c.stage.outcome.value.payload)
  {
    hide Next, Enabled, NextJobs, NextCallOf;
    DeskPart(h, a);
    IsReady(h, a);
  }

  lemma OpReplyAdded(h: Host, a: Action, r: HostReply)
    requires Enabled(h, a) && a.ReplyToJob? && r in Next(h, a).replies && r !in h.replies
    ensures a.j < |h.jobs| && h.jobs[a.j].ask < |h.gate.accepted| && a.j < |Next(h, a).jobs|
    ensures var j := Next(h, a).jobs[a.j];
      && j.ask == h.jobs[a.j].ask && j.stage.Told? && j.stage.ok
      && r == OpReply(a.j, h.gate.accepted[j.ask].msg.nonce)
  {
    hide Next, Enabled, NextCalls, NextCallOf;
    DeskPart(h, a);
    IsReady(h, a);
  }

  lemma RepliesStep(h: Host, a: Action)
    requires RepliesSound(h.replies, h.calls, h.jobs, h.gate.accepted) && Enabled(h, a)
    ensures RepliesSound(Next(h, a).replies, Next(h, a).calls, Next(h, a).jobs, Next(h, a).gate.accepted)
  {
    hide Next, Enabled;
    CallsAfter(h, a);
    JobsAfter(h, a);
    var after := Next(h, a);
    if a.ReplyTo? {
      forall r | r in after.replies && r !in h.replies
        ensures a.i < |h.calls| && h.calls[a.i].ask < |h.gate.accepted| && a.i < |after.calls|
        ensures var c := after.calls[a.i];
          && c.ask == h.calls[a.i].ask && c.stage.Replied? && c.stage.outcome.Some?
          && r == AskReply(a.i, h.gate.accepted[c.ask].msg.nonce, c.stage.outcome.value.payload)
      {
        AskReplyAdded(h, a, r);
      }
    } else if a.ReplyToJob? {
      forall r | r in after.replies && r !in h.replies
        ensures a.j < |h.jobs| && h.jobs[a.j].ask < |h.gate.accepted| && a.j < |after.jobs|
        ensures var j := after.jobs[a.j];
          && j.ask == h.jobs[a.j].ask && j.stage.Told? && j.stage.ok && r == OpReply(a.j, h.gate.accepted[j.ask].msg.nonce)
      {
        OpReplyAdded(h, a, r);
      }
    } else {
      RepliesKept(h, a);
    }
  }

  // ---- Provider loops ------------------------------------------------------------------------

  /** The loop's replies are those of ServeAll to what it has read. */
  ghost predicate LoopSound(loop: Loop, agent: string, runtime: Runtime) {
    && loop.out == ServeAll(loop.first, loop.inbox, agent, runtime, RETENTION)
    && (loop.alive ==> |loop.out| == |loop.inbox| && loop.seen == SeenThrough(loop.first, loop.inbox, RETENTION))
  }

  /** What the loop has read is what was written to its connection, in that order. */
  predicate InboxFits(loop: Loop, wire: seq<WireFrame>) {
    && |loop.inbox| <= |wire|
    && (forall k :: 0 <= k < |loop.inbox| ==> loop.inbox[k].nonce == wire[k].nonce && loop.inbox[k].request == Some(wire[k].request))
  }

  predicate WrittenFor(f: WireFrame, c: nat, t: nat, tickets: seq<Correlation.Ticket>) {
    t < |tickets| && tickets[t].conn == c && f.nonce == tickets[t].nonce && f.request == tickets[t].request
  }

  ghost predicate FromDispatch(f: WireFrame, c: nat, tickets: seq<Correlation.Ticket>) {
    exists t: nat :: WrittenFor(f, c, t, tickets)
  }

  /** Every frame on the wire is a dispatch's, written to that dispatch's connection. */
  ghost predicate WireFits(wire: seq<WireFrame>, c: nat, tickets: seq<Correlation.Ticket>) {
    forall k :: 0 <= k < |wire| ==> FromDispatch(wire[k], c, tickets)
  }

  ghost predicate LineSound(line: Line, c: nat, tickets: seq<Correlation.Ticket>, runtime: Runtime) {
    LoopSound(line.loop, line.agent, runtime) && InboxFits(line.loop, line.wire) && WireFits(line.wire, c, tickets)
  }

  /** Frame `f` carries reply number k of the loop on line `c`. */
  predicate Made(f: Frame, c: nat, k: nat, lines: seq<Line>) {
    c < |lines| && k < |lines[c].loop.out| && f.replyTo == lines[c].loop.out[k].replyTo && f.payload == lines[c].loop.out[k].payload
  }

  ghost predicate FloorSound(floor: Floor, bs: Correlation.Sys) {
    && |floor.lines| == |bs.conns| && bs.received <= floor.frames
    && (forall c :: 0 <= c < |floor.lines| ==> LineSound(floor.lines[c], c, bs.tickets, floor.runtime))
    && (forall f :: f in floor.frames ==> f in floor.forged || exists c: nat, k: nat :: Made(f, c, k, floor.lines))
  }

  lemma TurnKeeps(loop: Loop, f: HostFrame, agent: string, runtime: Runtime)
    requires LoopSound(loop, agent, runtime) && loop.alive
    ensures LoopSound(Turn(loop, f, agent, runtime), agent, runtime)
    ensures loop.out <= Turn(loop, f, agent, runtime).out
  {
    ServeOneMore(loop.first, loop.inbox, f, agent, runtime, RETENTION);
    hide ServeAll, SeenThrough, AcceptStep;
  }

  /** One line after a step: a frame more on its wire, a turn of its loop, a mark, or nothing. */
  ghost predicate LineMoves(line: Line, line': Line, h: Host, a: Action, c: nat)
    requires c < |h.bs.conns| && Enabled(h, a)
  {
    if a.WriteFrame? && h.bs.tickets[a.t].conn == c then line' == Written(line, a.sent, h.bs.tickets[a.t])
    else if a.ServeFrame? && a.c == c then
      CanRead(line) && line' == line.(loop := Turn(line.loop, FrameRead(line, a.time, a.verified), line.agent, h.floor.runtime))
    else line' == line.(marked := line'.marked, cleaned := line'.cleaned)
  }

  lemma LineMoved(h: Host, a: Action, c: nat)
    requires Enabled(h, a) && |h.floor.lines| == |h.bs.conns| && c < |h.floor.lines|
    ensures c < |Next(h, a).floor.lines| && LineMoves(h.floor.lines[c], Next(h, a).floor.lines[c], h, a, c)
  {
    hide Next, Enabled, NextBroker, Turn, FrameRead, Selects, VerifyMsg, Carries;
    BrokerPart(h, a);
    IsReady(h, a);
  }

  lemma LinesAfter(h: Host, a: Action)
    requires Enabled(h, a) && |h.floor.lines| == |h.bs.conns|
    ensures var (old', new') := (h.floor, Next(h, a).floor);
      && new'.runtime == old'.runtime
      && |new'.lines| == |old'.lines| + (if a.Attach? then 1 else 0)
      && (a.Attach? ==> new'.lines[|old'.lines|] == Line(a.greeted.selector, false, false, [], Loop(a.seen, a.seen, [], [], true)))
  {
    hide Next, Enabled, NextBroker, Turn, FrameRead, Selects, VerifyMsg, Carries;
    BrokerPart(h, a);
    IsReady(h, a);
  }

  lemma FrameMade(h: Host, a: Action, f: Frame)
    requires Enabled(h, a) && f in Next(h, a).floor.frames && f !in h.floor.frames
    ensures f in Next(h, a).floor.forged || exists c: nat, k: nat :: Made(f, c, k, Next(h, a).floor.lines)
  {
    hide Next, Enabled, NextBroker, Turn, FrameRead, Selects, VerifyMsg, Carries;
    BrokerPart(h, a);
    IsReady(h, a);
    if a.ServeFrame? {
      assert Made(f, a.c, |h.floor.lines[a.c].loop.out|, Next(h, a).floor.lines);
    }
  }

  lemma FramesKept(h: Host, a: Action)
    requires Enabled(h, a)
    ensures h.floor.frames <= Next(h, a).floor.frames && h.floor.forged <= Next(h, a).floor.forged
  {
    hide Next, Enabled, NextBroker, Turn, FrameRead, Selects, VerifyMsg, Carries;
    BrokerPart(h, a);
    IsReady(h, a);
  }

  lemma ReceivedGrows(h: Host, a: Action)
    requires Enabled(h, a)
    ensures Next(h, a).bs.received == if a.ReadFrame? then h.bs.received + {a.frame} else h.bs.received
    ensures a.ReadFrame? ==> a.frame in h.floor.frames
  {
    hide Next, Enabled, Correlation.Next, Correlation.Enabled, Selects, VerifyMsg, Carries;
    BrokerMoves(h, a);
    IsReady(h, a);
    if BrokerOf(h, a).Some? {
      BrokerReceives(h.bs, BrokerOf(h, a).value);
    }
  }

  lemma BrokerReceives(s: Correlation.Sys, a: Correlation.Action)
    requires Correlation.Enabled(s, a)
    ensures Correlation.Next(s, a).received == if a.Receive? then s.received + {a.frame} else s.received
  {
    hide DetachStep;
  }

  lemma ReceivedStep(h: Host, a: Action)
    requires h.bs.received <= h.floor.frames && Enabled(h, a)
    ensures Next(h, a).bs.received <= Next(h, a).floor.frames
  {
    hide Next, Enabled;
    ReceivedGrows(h, a);
    FramesKept(h, a);
  }

  lemma WireStep(wire: seq<WireFrame>, more: seq<WireFrame>, c: nat, tickets: seq<Correlation.Ticket>, tickets': seq<Correlation.Ticket>)
    requires WireFits(wire, c, tickets) && |tickets| <= |tickets'|
    requires forall t :: 0 <= t < |tickets| ==>
      tickets'[t].request == tickets[t].request && tickets'[t].nonce == tickets[t].nonce && tickets'[t].conn == tickets[t].conn
    requires WireFits(more, c, tickets)
    ensures WireFits(wire + more, c, tickets')
  {
    forall k | 0 <= k < |wire + more| ensures FromDispatch((wire + more)[k], c, tickets') {
      var f := (wire + more)[k];
      assert f == if k < |wire| then wire[k] else more[k - |wire|];
      var t: nat :| WrittenFor(f, c, t, tickets);
      assert WrittenFor(f, c, t, tickets');
    }
  }

  lemma WrittenKeeps(line: Line, line': Line, h: Host, a: Action, c: nat)
    requires Enabled(h, a) && c < |h.bs.conns| && LineMoves(line, line', h, a, c) && WireFits(line.wire, c, h.bs.tickets)
    ensures line.wire <= line'.wire && WireFits(line'.wire, c, Next(h, a).bs.tickets)
  {
    hide Next, Enabled;
    TicketsAfter(h, a);
    IsReady(h, a);
    var tickets' := Next(h, a).bs.tickets;
    var writes := a.WriteFrame? && h.bs.tickets[a.t].conn == c && a.sent;
    var more := if writes then [WireFrame(h.bs.tickets[a.t].nonce, h.bs.tickets[a.t].request)] else [];
    assert line'.wire == line.wire + more by {
      assert line.wire + [] == line.wire;
    }
    assert writes ==> WrittenFor(more[0], c, a.t, h.bs.tickets);
    assert WireFits(more, c, h.bs.tickets);
    hide Next, Enabled, LineMoves, WireFits;
    WireStep(line.wire, more, c, h.bs.tickets, tickets');
  }

  lemma LineKeeps(line: Line, line': Line, h: Host, a: Action, c: nat)
    requires Enabled(h, a) && c < |h.bs.conns| && LineMoves(line, line', h, a, c)
    requires LineSound(line, c, h.bs.tickets, h.floor.runtime)
    ensures LineSound(line', c, Next(h, a).bs.tickets, h.floor.runtime) && line.loop.out <= line'.loop.out
  {
    hide Next, Enabled, LoopSound, WireFits;
    WrittenKeeps(line, line', h, a, c);
    if a.ServeFrame? && a.c == c {
      TurnKeeps(line.loop, FrameRead(line, a.time, a.verified), line.agent, h.floor.runtime);
    }
  }

  lemma FloorStep(h: Host, a: Action)
    requires FloorSound(h.floor, h.bs) && Enabled(h, a)
    ensures FloorSound(Next(h, a).floor, Next(h, a).bs)
  {
    ReceivedStep(h, a);
    LinesAfter(h, a);
    FramesKept(h, a);
    TicketsAfter(h, a);
    var after := Next(h, a);
    hide Next, Enabled, Made;
    forall c: nat | c < |h.floor.lines|
      ensures LineSound(after.floor.lines[c], c, after.bs.tickets, after.floor.runtime)
      ensures h.floor.lines[c].loop.out <= after.floor.lines[c].loop.out
    {
      LineMoved(h, a, c);
      LineKeeps(h.floor.lines[c], after.floor.lines[c], h, a, c);
    }
    forall f | f in after.floor.frames && f !in h.floor.frames
      ensures f in after.floor.forged || exists c: nat, k: nat :: Made(f, c, k, after.floor.lines)
    {
      FrameMade(h, a, f);
    }
    FramesMade(h.floor, after.floor);
    hide LineMoves;
  }

  lemma FramesMade(floor: Floor, floor': Floor)
    requires |floor.lines| <= |floor'.lines|
    requires forall c :: 0 <= c < |floor.lines| ==> floor.lines[c].loop.out <= floor'.lines[c].loop.out
    requires forall f :: f in floor.frames ==> f in floor.forged || exists c: nat, k: nat :: Made(f, c, k, floor.lines)
    requires floor.forged <= floor'.forged
    requires forall f :: f in floor'.frames && f !in floor.frames ==>
      f in floor'.forged || exists c: nat, k: nat :: Made(f, c, k, floor'.lines)
    ensures forall f :: f in floor'.frames ==> f in floor'.forged || exists c: nat, k: nat :: Made(f, c, k, floor'.lines)
  {
    forall f | f in floor'.frames && f !in floor'.forged ensures exists c: nat, k: nat :: Made(f, c, k, floor'.lines) {
      if f in floor.frames {
        var c: nat, k: nat :| Made(f, c, k, floor.lines);
        assert Made(f, c, k, floor'.lines);
      }
    }
  }

  // ---- Request rows --------------------------------------------------------------------------

  /** A Project whose identity the device has is there, and one that was deleted is not. */
  ghost predicate HostingLive(h: Host) {
    (forall p :: p in h.hosting ==> p in h.db.projects) && (forall p :: p in h.deleted ==> p !in h.db.projects)
  }

  lemma ProjectsMove(db: DB, op: Op)
    ensures forall p :: p in Apply(db, op).0.projects <==>
      (p in db.projects && op != DeleteProjectOp(p)) || (op.CreateProjectOp? && op.p == p && Apply(db, op).1.None?)
  {
  }

  lemma DeletesOnlyUnhosted(h: Host, a: Action)
    requires Enabled(h, a)
    ensures OpOf(h, a).Some? && OpOf(h, a).value.DeleteProjectOp? ==> OpOf(h, a).value.p !in h.hosting && OpOf(h, a).value.p in h.db.projects
    ensures a.PutProfile? ==> a.p in h.db.projects && OpOf(h, a).None?
  {
    hide Enabled, Selects, Apply, VerifyMsg;
    IsReady(h, a);
  }

  lemma HostingStep(h: Host, a: Action)
    requires HostingLive(h) && Enabled(h, a)
    ensures HostingLive(Next(h, a))
  {
    hide Next, Enabled, Apply, OpOf;
    StoreMoves(h, a);
    DeletedAfter(h, a);
    DeletesOnlyUnhosted(h, a);
    if OpOf(h, a).Some? {
      ProjectsMove(h.db, OpOf(h, a).value);
    }
  }

  /** The ask has created its request row. */
  predicate Entered(c: Call) {
    !c.stage.Arrived? && !c.stage.Found? && !c.stage.Refused?
  }

  function One(c: Call, k: Id): nat {
    if Entered(c) && CallKey(c) == k then 1 else 0
  }

  /** How many asks have created row `k`. */
  function Entries(calls: seq<Call>, k: Id): nat {
    if calls == [] then 0 else Entries(calls[..|calls| - 1], k) + One(calls[|calls| - 1], k)
  }

  lemma {:induction false} EntriesUpdate(calls: seq<Call>, i: nat, c: Call, k: Id)
    requires i < |calls|
    ensures Entries(calls[i := c], k) == Entries(calls, k) - One(calls[i], k) + One(c, k)
    decreases |calls|
  {
    var init := calls[..|calls| - 1];
    if i == |calls| - 1 {
      assert calls[i := c][..i] == init;
    } else {
      assert calls[i := c][..|calls| - 1] == init[i := c];
      EntriesUpdate(init, i, c, k);
    }
  }

  lemma {:induction false} EntriesSame(calls: seq<Call>, calls': seq<Call>, k: Id)
    requires |calls| == |calls'| && forall i :: 0 <= i < |calls| ==> One(calls[i], k) == One(calls'[i], k)
    ensures Entries(calls, k) == Entries(calls', k)
  {
    if calls == [] {
    } else {
      EntriesSame(calls[..|calls| - 1], calls'[..|calls| - 1], k);
    }
  }

  lemma {:induction false} EntriesAtLeast(calls: seq<Call>, i: nat, k: Id)
    requires i < |calls|
    ensures Entries(calls, k) >= One(calls[i], k)
  {
    if i < |calls| - 1 {
      EntriesAtLeast(calls[..|calls| - 1], i, k);
    }
  }

  lemma {:induction false} TwoEntries(calls: seq<Call>, i: nat, j: nat, k: Id)
    requires i < j < |calls|
    ensures Entries(calls, k) >= One(calls[i], k) + One(calls[j], k)
  {
    if j == |calls| - 1 {
      EntriesAtLeast(calls[..j], i, k);
    } else {
      TwoEntries(calls[..|calls| - 1], i, j, k);
    }
  }

  ghost predicate CountFits(h: Host, k: Id) {
    k.0 !in h.deleted ==> Entries(h.calls, k) == if k in h.db.requests then 1 else 0
  }

  /** Until its Project is deleted a row is there exactly when one ask, and no other, has created it. */
  ghost predicate RowsCounted(h: Host) {
    forall k :: CountFits(h, k)
  }

  lemma OpKeepsRequests(db: DB, op: Op, k: Id)
    requires op != DeleteProjectOp(k.0) && (op.CreateRequestOp? ==> (op.q.project, op.q.id) != k)
    requires op.UpdateRequestOp? ==> (op.p, op.id) != k
    ensures k in Apply(db, op).0.requests <==> k in db.requests
    ensures k in db.requests ==> Apply(db, op).0.requests[k] == db.requests[k]
  {
  }

  /** Which steps touch row `k`. */
  predicate Inserts(h: Host, a: Action, k: Id) {
    a.Insert? && a.i < |h.calls| && CallKey(h.calls[a.i]) == k
  }

  predicate Finishes(h: Host, a: Action, k: Id) {
    a.Finish? && a.i < |h.calls| && CallKey(h.calls[a.i]) == k
  }

  lemma OtherRowsKept(h: Host, a: Action, k: Id)
    requires Enabled(h, a) && !Inserts(h, a, k) && !Finishes(h, a, k) && a != StoreCall(DeleteProjectOp(k.0))
    ensures k in Next(h, a).db.requests <==> k in h.db.requests
    ensures k in h.db.requests ==> Next(h, a).db.requests[k] == h.db.requests[k]
  {
    OpAvoids(h, a, k);
    hide Next, Enabled, Apply, OpOf;
    StoreMoves(h, a);
    if OpOf(h, a).Some? {
      OpKeepsRequests(h.db, OpOf(h, a).value, k);
    }
  }

  lemma OpAvoids(h: Host, a: Action, k: Id)
    requires Enabled(h, a) && !Inserts(h, a, k) && !Finishes(h, a, k) && a != StoreCall(DeleteProjectOp(k.0))
    ensures OpOf(h, a).Some? ==>
      var op := OpOf(h, a).value;
      && op != DeleteProjectOp(k.0) && (op.CreateRequestOp? ==> (op.q.project, op.q.id) != k) && (op.UpdateRequestOp? ==> (op.p, op.id) != k)
  {
    hide Enabled, Selects, Apply, VerifyMsg;
    IsReady(h, a);
  }

  lemma InsertedRow(h: Host, a: Action, k: Id)
    requires Enabled(h, a) && Inserts(h, a, k)
    ensures Next(h, a).db.requests == if k in h.db.requests then h.db.requests else CreateRequest(h.db, h.calls[a.i].request).0.requests
  {
    hide Next, Enabled, NextHosting, NextDeleted;
    TablesPart(h, a);
    InsertCalls(h, a.i);
  }

  lemma InsertCalls(h: Host, i: nat)
    requires i < |h.calls|
    ensures NextTables(h, Insert(i)) == CreateRequest(h.db, h.calls[i].request).0
  {
  }

  lemma FinishedRow(h: Host, a: Action, k: Id)
    requires Enabled(h, a) && Finishes(h, a, k)
    ensures HasOutcome(h, a.i) && (k in Next(h, a).db.requests <==> k in h.db.requests)
    ensures k in h.db.requests ==>
      Next(h, a).db.requests[k] == h.db.requests[k].(status := FinalStatus(OutcomeOf(h, a.i)), completedAt := Some(h.gate.clock))
  {
    hide Next, Enabled, NextHosting, NextDeleted, HasOutcome;
    TablesPart(h, a);
    IsReady(h, a);
  }

  /** Only Insert makes an ask one that has created its row. */
  lemma EnteredAfter(h: Host, a: Action, i: nat)
    requires Enabled(h, a) && i < |h.calls|
    ensures i < |Next(h, a).calls|
    ensures !(a.Insert? && a.i == i) ==> Entered(Next(h, a).calls[i]) == Entered(h.calls[i])
    ensures a.Insert? && a.i == i ==> (Entered(Next(h, a).calls[i]) <==> CallKey(h.calls[i]) !in h.db.requests) && !Entered(h.calls[i])
  {
    hide Next, Enabled, Selects, VerifyMsg, Carries, OutcomeOf;
    CallMoves(h, a, i);
  }

  lemma OneAfter(h: Host, a: Action, i: nat, k: Id)
    requires Enabled(h, a) && i < |h.calls|
    ensures i < |Next(h, a).calls|
    ensures One(Next(h, a).calls[i], k)
         == One(h.calls[i], k) + if a.Insert? && a.i == i && CallKey(h.calls[i]) == k && k !in h.db.requests then 1 else 0
  {
    CallsAfter(h, a);
    EnteredAfter(h, a, i);
    hide Next, Enabled, Entered;
  }

  lemma EntriesMoved(calls: seq<Call>, calls': seq<Call>, i: nat, k: Id)
    requires i < |calls| <= |calls'| <= |calls| + 1
    requires forall j: nat :: j < |calls| && j != i ==> One(calls'[j], k) == One(calls[j], k)
    requires |calls'| > |calls| ==> One(calls'[|calls|], k) == 0
    ensures Entries(calls', k) == Entries(calls, k) - One(calls[i], k) + One(calls'[i], k)
  {
    hide One;
    var kept := calls'[..|calls|];
    EntriesUpdate(calls, i, calls'[i], k);
    EntriesSame(calls[i := calls'[i]], kept, k);
    assert |calls'| == |calls| ==> kept == calls';
  }

  lemma EntriesAfter(h: Host, a: Action, k: Id)
    requires Enabled(h, a)
    ensures a.Insert? ==> a.i < |h.calls|
    ensures Entries(Next(h, a).calls, k)
         == Entries(h.calls, k) + if a.Insert? && CallKey(h.calls[a.i]) == k && k !in h.db.requests then 1 else 0
  {
    InsertsAnAsk(h, a);
    hide Next, Enabled, One, CallKey, Entries, AskFits;
    var after := Next(h, a).calls;
    CallsCount(h, a);
    forall i: nat | i < |h.calls|
      ensures One(after[i], k)
           == One(h.calls[i], k) + if a.Insert? && a.i == i && CallKey(h.calls[i]) == k && k !in h.db.requests then 1 else 0
    {
      OneAfter(h, a, i, k);
    }
    if |after| > |h.calls| {
      NewCallNotEntered(h, a, k);
    }
    if h.calls == [] {
      EntriesOfNone(after, k);
    } else {
      EntriesMoved(h.calls, after, if a.Insert? then a.i else 0, k);
    }
  }

  lemma InsertsAnAsk(h: Host, a: Action)
    requires Enabled(h, a)
    ensures a.Insert? ==> a.i < |h.calls|
  {
  }

  lemma CallsCount(h: Host, a: Action)
    requires Enabled(h, a)
    ensures |h.calls| <= |Next(h, a).calls| <= |h.calls| + 1
  {
    hide Next, Enabled;
    CallsAfter(h, a);
  }

  lemma EntriesOfNone(calls: seq<Call>, k: Id)
    requires |calls| <= 1 && (|calls| > 0 ==> One(calls[0], k) == 0)
    ensures Entries(calls, k) == 0 == Entries([], k)
  {
  }

  lemma NewCallNotEntered(h: Host, a: Action, k: Id)
    requires Enabled(h, a) && |Next(h, a).calls| > |h.calls|
    ensures |Next(h, a).calls| == |h.calls| + 1 && One(Next(h, a).calls[|h.calls|], k) == 0
  {
    CallsAfter(h, a);
    hide Next, Enabled;
  }

  lemma CountStep(h: Host, a: Action, k: Id)
    requires CountFits(h, k) && HostingLive(h) && Enabled(h, a)
    ensures CountFits(Next(h, a), k)
  {
    hide Next, Enabled, OpOf, Entries, CreateRequest;
    DeletedAfter(h, a);
    if a == StoreCall(DeleteProjectOp(k.0)) {
      assert OpOf(h, a) == Some(a.op) by { DeleteIsItsOp(h, a); }
    } else {
      EntriesAfter(h, a, k);
      if Inserts(h, a, k) {
        InsertedRow(h, a, k);
        CreatedRow(h.db, h.calls[a.i].request);
      } else if Finishes(h, a, k) {
        FinishedRow(h, a, k);
      } else {
        OtherRowsKept(h, a, k);
      }
    }
  }

  lemma CreatedRow(db: DB, q: Request)
    ensures (q.project, q.id) !in db.requests ==>
      CreateRequest(db, q).0.requests == db.requests[(q.project, q.id) :=
        RequestRow(q.requester, q.agent, Running, |q.body|, q.bodyDigest, q.createdAt, q.createdAt + DEFAULT_REQUEST_TIMEOUT, None, None)]
  {
  }

  lemma DeleteIsItsOp(h: Host, a: Action)
    ensures a.StoreCall? ==> OpOf(h, a) == Some(a.op)
  {
  }

  /** The ask has read the host identity, which it does after it created its row. */
  predicate Cleared(c: Call) {
    c.stage.Identified? || c.stage.Dispatching? || c.stage.Offline? || c.stage.Closed? || c.stage.Replied?
  }

  predicate Over(c: Call) {
    c.stage.Closed? || c.stage.Replied?
  }

  /** No two asks with one row get past the host identity, deletions or not. */
  ghost predicate ClearedOnce(calls: seq<Call>) {
    forall i, j :: 0 <= i < j < |calls| && Cleared(calls[i]) && Cleared(calls[j]) ==> CallKey(calls[i]) != CallKey(calls[j])
  }

  lemma ClearedAfter(h: Host, a: Action, i: nat)
    requires Enabled(h, a) && i < |h.calls|
    ensures i < |Next(h, a).calls|
    ensures a == ReadIdentity(i) ==> Cleared(Next(h, a).calls[i]) && h.calls[i].stage.Inserted? && h.calls[i].request.project in h.hosting
    ensures a != ReadIdentity(i) ==> Cleared(Next(h, a).calls[i]) == Cleared(h.calls[i])
    ensures Over(Next(h, a).calls[i]) == (Over(h.calls[i]) || a == Finish(i))
  {
    hide Next, Enabled, Selects, VerifyMsg, Carries, OutcomeOf, CreateRequest;
    CallMoves(h, a, i);
  }

  lemma IdentityReadAlone(h: Host, i: nat, j: nat)
    requires RowsCounted(h) && HostingLive(h) && i < |h.calls| && j < |h.calls| && i != j
    requires h.calls[i].stage.Inserted? && h.calls[i].request.project in h.hosting && Cleared(h.calls[j])
    ensures CallKey(h.calls[i]) != CallKey(h.calls[j])
  {
    var k := CallKey(h.calls[i]);
    assert CountFits(h, k);
    if CallKey(h.calls[j]) == k {
      if i < j {
        TwoEntries(h.calls, i, j, k);
      } else {
        TwoEntries(h.calls, j, i, k);
      }
    }
  }

  lemma ClearedOnceStep(h: Host, a: Action)
    requires ClearedOnce(h.calls) && RowsCounted(h) && HostingLive(h) && Enabled(h, a)
    ensures ClearedOnce(Next(h, a).calls)
  {
    hide Next, Enabled, RowsCounted, HostingLive, Cleared;
    CallsAfter(h, a);
    var after := Next(h, a).calls;
    if |after| > |h.calls| {
      NewCallNotCleared(after[|h.calls|]);
    }
    forall i: nat, j: nat | i < j < |h.calls| && Cleared(after[i]) && Cleared(after[j]) ensures CallKey(after[i]) != CallKey(after[j]) {
      ClearedAfter(h, a, i);
      ClearedAfter(h, a, j);
      if a == ReadIdentity(i) {
        IdentityReadAlone(h, i, j);
      } else if a == ReadIdentity(j) {
        IdentityReadAlone(h, j, i);
      }
    }
  }

  lemma NewCallNotCleared(c: Call)
    requires c.stage.Arrived?
    ensures !Cleared(c)
  {
  }

  function Expected(stage: Stage): Status {
    match stage
    case Closed(outcome) => FinalStatus(outcome)
    case Replied(outcome) => FinalStatus(outcome)
    case _ => Running
  }

  /** The row is this ask's: its columns are the request's, and its status is what the ask's stage implies. */
  predicate RowFits(row: RequestRow, c: Call) {
    && row.requester == c.request.requester && row.agent == c.request.agent && row.bodyBytes == |c.request.body|
    && row.bodyDigest == c.request.bodyDigest && row.createdAt == c.request.createdAt
    && row.status == Expected(c.stage)
  }

  /** Until its Project is deleted an ask's row is there, and is its own. */
  ghost predicate RowRight(h: Host, i: nat) {
    i < |h.calls| && Entered(h.calls[i]) && h.calls[i].request.project !in h.deleted ==>
      CallKey(h.calls[i]) in h.db.requests && RowFits(h.db.requests[CallKey(h.calls[i])], h.calls[i])
  }

  /** Whatever row is there under the key of an ask that is past the identity and not over, is running. */
  ghost predicate RunningUntilOver(h: Host, i: nat) {
    i < |h.calls| && Cleared(h.calls[i]) && !Over(h.calls[i]) && CallKey(h.calls[i]) in h.db.requests ==>
      h.db.requests[CallKey(h.calls[i])].status == Running
  }

  ghost predicate RowsRight(h: Host) {
    forall i: nat :: RowRight(h, i) && RunningUntilOver(h, i)
  }

  /** While a Project is not deleted, one ask at most has created a given row. */
  lemma EntryUnique(h: Host, i: nat, j: nat)
    requires RowsCounted(h) && i < |h.calls| && j < |h.calls| && CallKey(h.calls[i]) == CallKey(h.calls[j])
    requires Entered(h.calls[i]) && Entered(h.calls[j]) && h.calls[i].request.project !in h.deleted
    ensures i == j
  {
    var k := CallKey(h.calls[i]);
    assert CountFits(h, k);
    if i < j {
      TwoEntries(h.calls, i, j, k);
    } else if j < i {
      TwoEntries(h.calls, j, i, k);
    }
  }

  lemma ExpectedAfter(h: Host, a: Action, i: nat)
    requires Enabled(h, a) && i < |h.calls| && Entered(h.calls[i])
    ensures i < |Next(h, a).calls|
    ensures Expected(Next(h, a).calls[i].stage)
         == if a == Finish(i) then FinalStatus(OutcomeOf(h, i)) else Expected(h.calls[i].stage)
  {
    hide Next, Enabled, Selects, VerifyMsg, Carries, FinalStatus, CreateRequest;
    CallMoves(h, a, i);
  }

  lemma FinisherCleared(h: Host, a: Action)
    requires Enabled(h, a) && a.Finish?
    ensures a.i < |h.calls| && Cleared(h.calls[a.i]) && !Over(h.calls[a.i]) && Entered(h.calls[a.i])
  {
    hide Enabled;
    IsReady(h, a);
  }

  lemma OldRowStaysRight(h: Host, a: Action, i: nat)
    requires RowsCounted(h) && RowRight(h, i) && Enabled(h, a) && i < |h.calls| && Entered(h.calls[i])
    ensures RowRight(Next(h, a), i)
  {
    hide Next, Enabled, RowsCounted, CreateRequest, FinalStatus, OpOf;
    CallsAfter(h, a);
    DeletedAfter(h, a);
    DeleteIsItsOp(h, a);
    var k := CallKey(h.calls[i]);
    if k.0 !in Next(h, a).deleted {
      ExpectedAfter(h, a, i);
      if Finishes(h, a, k) {
        FinisherCleared(h, a);
        EntryUnique(h, i, a.i);
        FinishedRow(h, a, k);
      } else if Inserts(h, a, k) {
        InsertedRow(h, a, k);
      } else {
        OtherRowsKept(h, a, k);
      }
      hide Entered;
    }
  }

  lemma NewRowIsRight(h: Host, i: nat)
    requires Enabled(h, Insert(i)) && Entered(Next(h, Insert(i)).calls[i])
    ensures RowRight(Next(h, Insert(i)), i)
  {
    hide Next, Enabled, NextHosting, NextDeleted;
    IsReady(h, Insert(i));
    CallMoves(h, Insert(i), i);
    TablesPart(h, Insert(i));
    InsertCalls(h, i);
    DeletedAfter(h, Insert(i));
  }

  lemma RowRightStep(h: Host, a: Action, i: nat)
    requires RowsCounted(h) && RowRight(h, i) && Enabled(h, a)
    ensures RowRight(Next(h, a), i)
  {
    hide Next, Enabled, RowsCounted;
    CallsAfter(h, a);
    if i < |h.calls| {
      EnteredAfter(h, a, i);
      if Entered(h.calls[i]) {
        OldRowStaysRight(h, a, i);
      } else if a == Insert(i) && Entered(Next(h, a).calls[i]) {
        NewRowIsRight(h, i);
      }
    } else if i < |Next(h, a).calls| {
      assert !Entered(Next(h, a).calls[i]);
    }
    hide RowFits;
  }

  lemma OldRunningStep(h: Host, a: Action, i: nat)
    requires ClearedOnce(h.calls) && Enabled(h, a) && i < |h.calls| && Cleared(h.calls[i]) && !Over(h.calls[i]) && a != Finish(i)
    requires RunningUntilOver(h, i)
    ensures RunningUntilOver(Next(h, a), i)
  {
    hide Next, Enabled, OpOf, FinalStatus, CreateRequest;
    CallsAfter(h, a);
    var k := CallKey(h.calls[i]);
    if Finishes(h, a, k) {
      FinisherCleared(h, a);
    } else if Inserts(h, a, k) {
      InsertedRow(h, a, k);
      CreatedRow(h.db, h.calls[a.i].request);
    } else if a == StoreCall(DeleteProjectOp(k.0)) {
      DeletionTakesRow(h, a, k);
    } else {
      OtherRowsKept(h, a, k);
    }
  }

  lemma DeletionTakesRow(h: Host, a: Action, k: Id)
    requires Enabled(h, a) && a == StoreCall(DeleteProjectOp(k.0))
    ensures k !in Next(h, a).db.requests
  {
    hide Next, Enabled, NextHosting, NextDeleted;
    TablesPart(h, a);
  }

  lemma RunningStep(h: Host, a: Action, i: nat)
    requires ClearedOnce(h.calls) && HostingLive(h) && RowRight(h, i) && RunningUntilOver(h, i) && Enabled(h, a)
    ensures RunningUntilOver(Next(h, a), i)
  {
    hide Next, Enabled, OpOf, FinalStatus, CreateRequest, ClearedOnce;
    CallsAfter(h, a);
    if i < |h.calls| {
      ClearedAfter(h, a, i);
      if Cleared(h.calls[i]) && !Over(h.calls[i]) && a != Finish(i) {
        OldRunningStep(h, a, i);
      } else if a == ReadIdentity(i) {
        OtherRowsKept(h, a, CallKey(h.calls[i]));
      }
    }
  }

  // ---- Owners --------------------------------------------------------------------------------

  /** `m` owns, or owned, agent id `a`; certain as long as no id has been registered again by somebody else. */
  ghost predicate Owned(d: Doors, p: string, a: string, m: string) {
    (p, a) in d.owners && (!d.reused ==> d.owners[(p, a)] == m)
  }

  ghost predicate AgentsOwned(h: Host) {
    forall k :: k in h.db.agents ==> Owned(h.doors, k.0, k.1, h.db.agents[k].owner)
  }

  predicate LookedUp(c: Call) {
    !c.stage.Arrived? && !c.stage.Refused?
  }

  ghost predicate OwnersSound(h: Host) {
    && AgentsOwned(h)
    && (forall g :: g in h.doors.welcomed ==> Owned(h.doors, g.conn.project, g.conn.agent, g.conn.member))
    && (forall c :: 0 <= c < |h.bs.conns| ==> Owned(h.doors, h.bs.conns[c].project, h.bs.conns[c].agent, h.bs.conns[c].member))
    && (forall i :: 0 <= i < |h.calls| && LookedUp(h.calls[i]) ==>
        Owned(h.doors, h.calls[i].request.project, h.calls[i].row, h.calls[i].rowOwner))
  }

  lemma OwnedStays(h: Host, a: Action, p: string, agent: string, m: string)
    requires Enabled(h, a) && Owned(h.doors, p, agent, m)
    ensures Owned(Next(h, a).doors, p, agent, m)
  {
    OwnersGrow(h, a);
    hide Next, Enabled;
  }

  lemma OwnersGrow(h: Host, a: Action)
    requires Enabled(h, a)
    ensures Next(h, a).doors.owners == if a.Execute? then Record(h.doors, h.db, a.op).owners else h.doors.owners
    ensures Next(h, a).doors.reused == if a.Execute? then Record(h.doors, h.db, a.op).reused else h.doors.reused
  {
    hide Next, Enabled, NextGate, Record;
    GatePart(h, a);
  }

  lemma RegistrationRecorded(db: DB, d: Doors, op: Op, k: Id)
    requires k in Apply(db, op).0.agents
    requires k in db.agents ==> Owned(d, k.0, k.1, db.agents[k].owner)
    ensures Owned(Record(d, db, op), k.0, k.1, Apply(db, op).0.agents[k].owner)
  {
    if k in db.agents {
      StoreInvariants.OwnerColumnFixed(db, op, k);
    } else {
      assert op.RegisterAgentOp? && k == (op.p, op.agent) by { OnlyRegisterAdds(db, op, k); }
    }
  }

  lemma OnlyRegisterAdds(db: DB, op: Op, k: Id)
    requires k in Apply(db, op).0.agents && k !in db.agents
    ensures op.RegisterAgentOp? && k == (op.p, op.agent) && Apply(db, op).1.None? && Apply(db, op).0.agents[k].owner == op.member
  {
  }

  lemma OthersRegisterNothing(h: Host, a: Action)
    requires Enabled(h, a) && !a.Execute?
    ensures OpOf(h, a).Some? ==> !OpOf(h, a).value.RegisterAgentOp?
  {
    hide Enabled, Selects, Apply, VerifyMsg, HasOutcome;
    IsReady(h, a);
  }

  lemma AgentOwnedAfter(h: Host, a: Action, k: Id)
    requires AgentsOwned(h) && Enabled(h, a) && k in Next(h, a).db.agents
    ensures Owned(Next(h, a).doors, k.0, k.1, Next(h, a).db.agents[k].owner)
  {
    StoreMoves(h, a);
    OwnersGrow(h, a);
    if a.Execute? {
      RegistrationRecorded(h.db, h.doors, a.op, k);
    } else {
      OthersRegisterNothing(h, a);
      if OpOf(h, a).Some? {
        if k in h.db.agents {
          StoreInvariants.OwnerColumnFixed(h.db, OpOf(h, a).value, k);
        } else {
          OnlyRegisterAdds(h.db, OpOf(h, a).value, k);
        }
      }
    }
    hide Next, Enabled, Apply, Record;
  }

  lemma AgentsOwnedStep(h: Host, a: Action)
    requires AgentsOwned(h) && Enabled(h, a)
    ensures AgentsOwned(Next(h, a))
  {
    forall k | k in Next(h, a).db.agents ensures Owned(Next(h, a).doors, k.0, k.1, Next(h, a).db.agents[k].owner) {
      AgentOwnedAfter(h, a, k);
    }
    hide Next, Enabled, Owned;
  }

  /** A lookup's row, once taken, stays with the ask. */
  lemma RowStays(h: Host, a: Action, i: nat)
    requires Enabled(h, a) && i < |h.calls| && !h.calls[i].stage.Arrived?
    ensures i < |Next(h, a).calls| && !Next(h, a).calls[i].stage.Arrived?
    ensures Next(h, a).calls[i].row == h.calls[i].row && Next(h, a).calls[i].rowOwner == h.calls[i].rowOwner
    ensures LookedUp(Next(h, a).calls[i]) ==> LookedUp(h.calls[i])
  {
    hide Next, Enabled, Selects, VerifyMsg, Carries, OutcomeOf, CreateRequest;
    CallMoves(h, a, i);
  }

  /** Who has looked up a row was already past the lookup, or has just found one that is there. */
  lemma FoundRow(h: Host, a: Action, i: nat)
    requires Enabled(h, a) && i < |Next(h, a).calls| && LookedUp(Next(h, a).calls[i])
    requires i >= |h.calls| || h.calls[i].stage.Arrived?
    ensures var c := Next(h, a).calls[i];
      && i < |h.calls| && c.request == h.calls[i].request
      && Selects(h.db, c.request.project, c.request.agent, c.row)
      && c.rowOwner == h.db.agents[(c.request.project, c.row)].owner
      && a == Find(i, c.row)
  {
    hide Next, Enabled, VerifyMsg, Carries, OutcomeOf, CreateRequest, AskFits;
    CallsAfter(h, a);
    if i < |h.calls| {
      CallMoves(h, a, i);
    }
  }

  lemma CallOwnedStep(h: Host, a: Action, i: nat)
    requires OwnersSound(h) && Enabled(h, a) && i < |Next(h, a).calls| && LookedUp(Next(h, a).calls[i])
    ensures var c := Next(h, a).calls[i]; Owned(Next(h, a).doors, c.request.project, c.row, c.rowOwner)
  {
    var c := Next(h, a).calls[i];
    if i >= |h.calls| || h.calls[i].stage.Arrived? {
      FoundRow(h, a, i);
      hide Next, Enabled;
      assert (c.request.project, c.row) in h.db.agents;
    } else {
      RowStays(h, a, i);
      CallsAfter(h, a);
      hide Next, Enabled;
    }
    OwnedStays(h, a, c.request.project, c.row, c.rowOwner);
  }

  lemma ConnOwnedStep(h: Host, a: Action, c: nat)
    requires OwnersSound(h) && Enabled(h, a) && c < |Next(h, a).bs.conns|
    ensures var conn := Next(h, a).bs.conns[c]; Owned(Next(h, a).doors, conn.project, conn.agent, conn.member)
  {
    TicketsAfter(h, a);
    var conn := Next(h, a).bs.conns[c];
    if c < |h.bs.conns| {
      hide Next, Enabled;
    } else {
      assert a.Attach? && a.greeted.conn == conn by { NewConn(h, a, c); }
      hide Next;
    }
    OwnedStays(h, a, conn.project, conn.agent, conn.member);
  }

  lemma NewConn(h: Host, a: Action, c: nat)
    requires Enabled(h, a) && |h.bs.conns| <= c < |Next(h, a).bs.conns|
    ensures a.Attach? && a.greeted.conn == Next(h, a).bs.conns[c] && a.greeted in h.doors.welcomed
  {
    hide Next, Enabled, Correlation.Next, Correlation.Enabled, Selects, VerifyMsg, Carries;
    TicketsAfter(h, a);
    IsReady(h, a);
    OnlyDispatchRegisters(h, a);
    BrokerMoves(h, a);
    BrokerConnects(h.bs, BrokerOf(h, a).value);
  }

  lemma BrokerConnects(s: Correlation.Sys, a: Correlation.Action)
    requires Correlation.Enabled(s, a) && a.Connect?
    ensures Correlation.Next(s, a).conns == s.conns + [a.conn]
  {
  }

  lemma NewGuest(h: Host, a: Action, g: Greeted)
    requires Enabled(h, a) && g in Next(h, a).doors.welcomed && g !in h.doors.welcomed
    ensures a.Welcome? && a.guest in h.doors.guests
    ensures g == Greeted(Correlation.Conn(a.guest.project, a.agent, a.guest.member, a.guest.key, true), a.guest.selector)
    ensures Selects(h.db, g.conn.project, g.selector, g.conn.agent) && h.db.agents[(g.conn.project, g.conn.agent)].owner == g.conn.member
  {
    hide Next, Enabled, NextGate, Record, VerifyMsg, Carries;
    GatePart(h, a);
    IsReady(h, a);
    RecordKeepsDoors(h, a);
  }

  lemma RecordKeepsDoors(h: Host, a: Action)
    ensures a.Execute? ==> Record(h.doors, h.db, a.op).welcomed == h.doors.welcomed && Record(h.doors, h.db, a.op).guests == h.doors.guests
  {
  }

  lemma WelcomedOwnedStep(h: Host, a: Action, g: Greeted)
    requires OwnersSound(h) && Enabled(h, a) && g in Next(h, a).doors.welcomed
    ensures Owned(Next(h, a).doors, g.conn.project, g.conn.agent, g.conn.member)
  {
    if g !in h.doors.welcomed {
      NewGuest(h, a, g);
    }
    hide Next, Enabled;
    OwnedStays(h, a, g.conn.project, g.conn.agent, g.conn.member);
  }

  lemma OwnersStep(h: Host, a: Action)
    requires OwnersSound(h) && Enabled(h, a)
    ensures OwnersSound(Next(h, a))
  {
    AgentsOwnedStep(h, a);
    var after := Next(h, a);
    forall g | g in after.doors.welcomed ensures Owned(after.doors, g.conn.project, g.conn.agent, g.conn.member) {
      WelcomedOwnedStep(h, a, g);
    }
    forall c: nat | c < |after.bs.conns|
      ensures Owned(after.doors, after.bs.conns[c].project, after.bs.conns[c].agent, after.bs.conns[c].member)
    {
      ConnOwnedStep(h, a, c);
    }
    forall i: nat | i < |after.calls| && LookedUp(after.calls[i])
      ensures Owned(after.doors, after.calls[i].request.project, after.calls[i].row, after.calls[i].rowOwner)
    {
      CallOwnedStep(h, a, i);
    }
    hide Next, Enabled;
  }

  // ---- Project ids ---------------------------------------------------------------------------

  /** Whoever gets as far as authenticate's lookup names a Project that exists, so its id has no NUL. */
  ghost predicate IdsClean(h: Host) {
    && (forall v :: v in h.gate.visits ==> Lacks(NUL, v.msg.project))
    && (forall g :: g in h.doors.guests ==> Lacks(NUL, g.project))
    && (forall g :: g in h.doors.welcomed ==> Lacks(NUL, g.conn.project) && g.conn.open)
    && (forall i :: 0 <= i < |h.calls| ==> Lacks(NUL, h.calls[i].request.project))
  }

  lemma VisitsClean(h: Host, a: Action)
    requires IdsClean(h) && StoreInvariants.Hosted(h.db) && Enabled(h, a)
    ensures forall v :: v in Next(h, a).gate.visits ==> Lacks(NUL, v.msg.project)
  {
    hide Next, Enabled, NextDoors, AcceptStep;
    GatePart(h, a);
    IsReady(h, a);
  }

  lemma DoorsClean(h: Host, a: Action)
    requires IdsClean(h) && Enabled(h, a)
    ensures forall g :: g in Next(h, a).doors.guests ==> Lacks(NUL, g.project)
    ensures forall g :: g in Next(h, a).doors.welcomed ==> Lacks(NUL, g.conn.project) && g.conn.open
  {
    hide Next, Enabled, NextGate, Record, AcceptStep, VerifyMsg, Carries, Selects;
    GatePart(h, a);
    IsReady(h, a);
    RecordKeepsDoors(h, a);
  }

  lemma NewCallClean(h: Host, a: Action)
    requires IdsClean(h) && Enabled(h, a) && |Next(h, a).calls| > |h.calls|
    ensures Lacks(NUL, Next(h, a).calls[|h.calls|].request.project)
  {
    hide Next, Enabled, NextJobs, NextCallOf, NextReplies, Moved, Admits, ValidRequest;
    DeskPart(h, a);
    IsReady(h, a);
  }

  lemma IdsCleanStep(h: Host, a: Action)
    requires IdsClean(h) && StoreInvariants.Hosted(h.db) && Enabled(h, a)
    ensures IdsClean(Next(h, a))
  {
    hide Next, Enabled, StoreInvariants.Hosted, AskFits;
    VisitsClean(h, a);
    DoorsClean(h, a);
    CallsAfter(h, a);
    if |Next(h, a).calls| > |h.calls| {
      NewCallClean(h, a);
    }
  }

  // ---- All of it -----------------------------------------------------------------------------

  ghost predicate Inv(h: Host) {
    && StoreInvariants.Sound(h.db) && Correlation.Inv(h.bs) && GateSound(h.gate) && AllRouted(h.gate) && HostingLive(h)
    && CallsSound(h.calls, h.gate.accepted) && JobsSound(h.jobs, h.gate.accepted) && JobsHonest(h.jobs) && LinksSound(h.calls, h.callOf, h.bs.tickets)
    && RepliesSound(h.replies, h.calls, h.jobs, h.gate.accepted) && FloorSound(h.floor, h.bs)
    && RowsCounted(h) && ClearedOnce(h.calls) && RowsRight(h) && OwnersSound(h) && IdsClean(h)
  }

  lemma StoreStep(h: Host, a: Action)
    requires StoreInvariants.Sound(h.db) && Enabled(h, a)
    ensures StoreInvariants.Sound(Next(h, a).db)
  {
    hide Next, Enabled, Apply, StoreInvariants.Sound, OpOf, Admissible;
    StoreMoves(h, a);
    if OpOf(h, a).Some? {
      StoreInvariants.SoundStep(h.db, OpOf(h, a).value);
    }
  }

  lemma BrokerStep(h: Host, a: Action)
    requires Correlation.Inv(h.bs) && Enabled(h, a)
    ensures Correlation.Inv(Next(h, a).bs)
  {
    hide Next, Enabled, BrokerOf, Correlation.Next, Correlation.Enabled, Correlation.Inv;
    BrokerMoves(h, a);
    if BrokerOf(h, a).Some? {
      Correlation.InvStep(h.bs, BrokerOf(h, a).value);
    }
  }

  lemma InvStep(h: Host, a: Action)
    requires Inv(h) && Enabled(h, a)
    ensures Inv(Next(h, a))
  {
    assert StoreInvariants.Hosted(h.db);
    hide Next, Enabled, StoreInvariants.Sound, Correlation.Inv, GateSound, AllRouted, HostingLive, CallsSound, JobsSound, JobsHonest, LinksSound, RepliesSound,
      FloorSound, RowsCounted, ClearedOnce, RowsRight, OwnersSound, IdsClean;
    IdsCleanStep(h, a);
    StoreStep(h, a);
    BrokerStep(h, a);
    GateStep(h, a);
    RoutedStep(h, a);
    HostingStep(h, a);
    CallsStep(h, a);
    JobsStep(h, a);
    JobsHonestStep(h, a);
    LinksStep(h, a);
    RepliesStep(h, a);
    FloorStep(h, a);
    RowsStep(h, a);
    OwnersStep(h, a);
  }

  lemma RowsStep(h: Host, a: Action)
    requires RowsCounted(h) && HostingLive(h) && ClearedOnce(h.calls) && RowsRight(h) && Enabled(h, a)
    ensures RowsCounted(Next(h, a)) && ClearedOnce(Next(h, a).calls) && RowsRight(Next(h, a))
  {
    hide Next, Enabled, RowsCounted, HostingLive, ClearedOnce, RowRight, RunningUntilOver, CountFits;
    forall k ensures CountFits(Next(h, a), k) {
      RowCountStep(h, a, k);
    }
    ClearedOnceStep(h, a);
    forall i: nat ensures RowRight(Next(h, a), i) && RunningUntilOver(Next(h, a), i) {
      RowRightStep(h, a, i);
      RunningStep(h, a, i);
    }
    AllRowsCounted(Next(h, a));
  }

  lemma RowCountStep(h: Host, a: Action, k: Id)
    requires RowsCounted(h) && HostingLive(h) && Enabled(h, a)
    ensures CountFits(Next(h, a), k)
  {
    hide Next, Enabled, HostingLive;
    CountStep(h, a, k);
  }

  lemma AllRowsCounted(h: Host)
    requires forall k :: CountFits(h, k)
    ensures RowsCounted(h)
  {
  }

  lemma StartInv(runtime: Runtime)
    ensures Inv(Start(runtime))
  {
    hide RowsCounted, RowsRight, StoreInvariants.Sound, Correlation.Inv, FloorSound, GateSound, AllRouted, HostingLive;
    StartStores();
    StartRows(Start(runtime));
    StartFloor(runtime);
  }

  lemma StartStores()
    ensures StoreInvariants.Sound(EMPTY) && Correlation.Inv(Correlation.START)
  {
    hide StoreInvariants.Sound, Correlation.Inv;
    StoreInvariants.RunSound([]);
    Correlation.RunInv([]);
  }

  lemma StartFloor(runtime: Runtime)
    ensures var h := Start(runtime); FloorSound(h.floor, h.bs) && GateSound(h.gate) && AllRouted(h.gate) && HostingLive(h)
  {
  }

  lemma StartRows(h: Host)
    requires h.calls == [] && h.db == EMPTY
    ensures RowsCounted(h) && RowsRight(h)
  {
  }

  lemma {:induction false} RunInv(runtime: Runtime, run: seq<Action>)
    ensures Inv(After(runtime, run))
  {
    hide Inv, Next, Enabled;
    if run == [] {
      StartInv(runtime);
    } else {
      RunInv(runtime, run[..|run| - 1]);
      var (h, a) := (After(runtime, run[..|run| - 1]), run[|run| - 1]);
      if Enabled(h, a) {
        InvStep(h, a);
      }
    }
  }
}
