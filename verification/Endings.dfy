/** Why asks are turned down, and in which order the steps of a connection come, in every run of the host. */
module Endings {
  import opened Base
  import opened Signing
  import opened Tables
  import opened Server
  import opened Provider
  import opened Host
  import opened HostInvariants
  import Correlation

  // ---- Asks ----------------------------------------------------------------------------------

  /** Turned down: without an agent, a row or an identity, or without a connection to dispatch to. */
  predicate Down(c: Call) {
    c.stage.Refused? || c.stage.NoIdentity? || (c.ticket.None? && (c.stage.Offline? || c.stage.Closed? || c.stage.Replied?))
  }

  /** The step that turns ask `i` down, and what it found: the five ways in which an ask ends before it is dispatched. */
  ghost predicate TurnsDown(h: Host, a: Action, i: nat, q: Request) {
    match a
    case FindNone(j) => j == i && forall k :: k in h.db.agents && k.0 == q.project ==> k.1 != q.agent && h.db.agents[k].name != q.agent
    case Find(j, agent) =>
      var k := (q.project, agent);
      j == i && k in h.db.agents && (agent == q.agent || h.db.agents[k].name == q.agent) && !h.db.agents[k].online
    case Insert(j) => j == i && (q.project, q.id) in h.db.requests
    case LoseIdentity(j) => j == i
    case DispatchOffline(j) => j == i && ProviderKey(q.project, q.agent) !in h.bs.core.providers
    case _ => false
  }

  /**
   * An ask is turned down for cause only: refused before there is a row exactly when no agent of its Project has that id
   * or name, or the one that was found is offline, or the request id is taken; afterwards only for want of the host
   * identity, or of a connection under its agent's key.
   */
  lemma {:induction false} TurnedDownForCause(runtime: Runtime, run: seq<Action>, i: nat) returns (n: nat)
    requires i < |After(runtime, run).calls| && Down(After(runtime, run).calls[i])
    ensures n < |run| && Enabled(After(runtime, run[..n]), run[n])
    ensures TurnsDown(After(runtime, run[..n]), run[n], i, After(runtime, run).calls[i].request)
    ensures var stage := After(runtime, run).calls[i].stage;
      && (stage.Refused? <==> run[n].FindNone? || run[n].Find? || run[n].Insert?)
      && (stage.NoIdentity? <==> run[n].LoseIdentity?)
  {
    hide Next, Enabled, TurnsDown;
    var before := run[..|run| - 1];
    var (h, a) := (After(runtime, before), run[|run| - 1]);
    if Enabled(h, a) {
      CallsAfter(h, a);
    }
    if Enabled(h, a) && !(i < |h.calls| && Down(h.calls[i])) {
      n := |run| - 1;
      DownNow(h, a, i);
    } else {
      n := TurnedDownForCause(runtime, before, i);
      assert before[..n] == run[..n];
      if Enabled(h, a) {
        DownStays(h, a, i);
      }
    }
  }

  lemma DownNow(h: Host, a: Action, i: nat)
    requires Enabled(h, a) && i < |Next(h, a).calls| && Down(Next(h, a).calls[i])
    requires i < |h.calls| ==> !Down(h.calls[i])
    ensures TurnsDown(h, a, i, Next(h, a).calls[i].request)
    ensures Next(h, a).calls[i].stage.Refused? <==> a.FindNone? || a.Find? || a.Insert?
    ensures Next(h, a).calls[i].stage.NoIdentity? <==> a.LoseIdentity?
  {
    CallsAfter(h, a);
    hide Next, Enabled, TurnsDown, Moved;
    if i < |h.calls| {
      CallMoves(h, a, i);
      MoveDown(h, a, i);
    }
  }

  lemma MoveDown(h: Host, a: Action, i: nat)
    requires Ready(h, a) && i < |h.calls| && !Down(h.calls[i])
    requires Moved(h, a).Some? && Moved(h, a).value.0 == i && Down(Moved(h, a).value.1)
    ensures TurnsDown(h, a, i, h.calls[i].request)
    ensures Moved(h, a).value.1.stage.Refused? <==> a.FindNone? || a.Find? || a.Insert?
    ensures Moved(h, a).value.1.stage.NoIdentity? <==> a.LoseIdentity?
  {
    hide VerifyMsg, Carries;
    if a.FindNone? {
      var q := h.calls[i].request;
      forall k | k in h.db.agents && k.0 == q.project ensures k.1 != q.agent && h.db.agents[k].name != q.agent {
        assert !Selects(h.db, q.project, q.agent, k.1);
      }
    }
  }

  lemma DownStays(h: Host, a: Action, i: nat)
    requires Enabled(h, a) && i < |h.calls| && Down(h.calls[i])
    ensures i < |Next(h, a).calls| && Down(Next(h, a).calls[i]) && Next(h, a).calls[i].request == h.calls[i].request
    ensures Next(h, a).calls[i].stage.Refused? <==> h.calls[i].stage.Refused?
    ensures Next(h, a).calls[i].stage.NoIdentity? <==> h.calls[i].stage.NoIdentity?
  {
    hide Next, Enabled, Moved;
    CallMoves(h, a, i);
    CallsAfter(h, a);
    if Moved(h, a).Some? && Moved(h, a).value.0 == i {
      MoveFits(h, a, i);
    }
  }

  /** A removal of an agent reports that there is none exactly when no agent of the Project has that id or name. */
  lemma MissingAgentIsMissing(h: Host, j: nat, op: Op)
    requires Enabled(h, Execute(j, op)) && op.RemoveAgentOp?
    ensures Apply(h.db, op).1 == Some(NotFound) <==>
      forall k :: k in h.db.agents && k.0 == op.p ==> k.1 != op.selector && h.db.agents[k].name != op.selector
  {
    IsReady(h, Execute(j, op));
    assert PicksRow(h.db, op);
    hide Enabled, VerifyMsg, Carries;
    if forall a :: !Selects(h.db, op.p, op.selector, a) {
      forall k | k in h.db.agents && k.0 == op.p ensures k.1 != op.selector && h.db.agents[k].name != op.selector {
        assert !Selects(h.db, op.p, op.selector, k.1);
      }
    }
  }

  // ---- Connections ---------------------------------------------------------------------------

  predicate Marked(h: Host, c: nat) {
    c < |h.floor.lines| && h.floor.lines[c].marked
  }

  predicate Cleaned(h: Host, c: nat) {
    c < |h.floor.lines| && h.floor.lines[c].cleaned
  }

  predicate Ended(h: Host, c: nat) {
    c < |h.bs.conns| && !h.bs.conns[c].open
  }

  lemma LineFlags(h: Host, a: Action, c: nat)
    requires Enabled(h, a)
    ensures Marked(Next(h, a), c) <==> Marked(h, c) || a == MarkOnline(c)
    ensures Cleaned(Next(h, a), c) <==> Cleaned(h, c) || a == MarkOffline(c)
  {
    hide Next, Enabled, NextBroker, Turn, FrameRead, Selects, VerifyMsg, Carries;
    BrokerPart(h, a);
    IsReady(h, a);
  }

  lemma EndedAfter(h: Host, a: Action, c: nat)
    requires Enabled(h, a)
    ensures Ended(Next(h, a), c) <==> Ended(h, c) || a == BrokerAction(Correlation.Disconnect(c))
  {
    hide Next, Enabled, Correlation.Next, Correlation.Enabled, Ready, NextFloor;
    BrokerMoves(h, a);
    if BrokerOf(h, a).Some? {
      BrokerEnds(h.bs, BrokerOf(h, a).value, c);
      OnlyDisconnects(h, a, c);
    }
  }

  lemma OnlyDisconnects(h: Host, a: Action, c: nat)
    requires BrokerOf(h, a).Some?
    ensures BrokerOf(h, a).value == Correlation.Disconnect(c) <==> a == BrokerAction(Correlation.Disconnect(c))
  {
  }

  lemma BrokerEnds(s: Correlation.Sys, a: Correlation.Action, c: nat)
    requires Correlation.Enabled(s, a)
    ensures var conns := Correlation.Next(s, a).conns;
      (c < |conns| && !conns[c].open) <==> (c < |s.conns| && !s.conns[c].open) || a == Correlation.Disconnect(c)
  {
  }

  lemma {:induction false} MarkedWhen(runtime: Runtime, run: seq<Action>, c: nat) returns (n: nat)
    requires Marked(After(runtime, run), c)
    ensures n < |run| && run[n] == MarkOnline(c) && Enabled(After(runtime, run[..n]), run[n])
  {
    StartIsUnmarked(runtime, c);
    hide Next, Enabled, Marked;
    var before := run[..|run| - 1];
    var (h, a) := (After(runtime, before), run[|run| - 1]);
    if Enabled(h, a) {
      LineFlags(h, a, c);
    }
    if Enabled(h, a) && a == MarkOnline(c) {
      n := |run| - 1;
    } else {
      n := MarkedWhen(runtime, before, c);
      assert before[..n] == run[..n];
    }
  }

  lemma StartIsUnmarked(runtime: Runtime, c: nat)
    ensures !Marked(Start(runtime), c) && !Ended(Start(runtime), c)
  {
  }

  lemma {:induction false} EndedWhen(runtime: Runtime, run: seq<Action>, c: nat) returns (n: nat)
    requires Ended(After(runtime, run), c)
    ensures n < |run| && run[n] == BrokerAction(Correlation.Disconnect(c)) && Enabled(After(runtime, run[..n]), run[n])
  {
    StartIsUnmarked(runtime, c);
    hide Next, Enabled, Ended;
    var before := run[..|run| - 1];
    var (h, a) := (After(runtime, before), run[|run| - 1]);
    if Enabled(h, a) {
      EndedAfter(h, a, c);
    }
    if Enabled(h, a) && a == BrokerAction(Correlation.Disconnect(c)) {
      n := |run| - 1;
    } else {
      n := EndedWhen(runtime, before, c);
      assert before[..n] == run[..n];
    }
  }

  /**
   * In every run, when a connection's agent is marked offline the connection has ended before, and its agent had been
   * marked online before that.
   */
  lemma OfflineAfterItsEnd(runtime: Runtime, run: seq<Action>, n: nat, c: nat) returns (up: nat, end: nat)
    requires n < |run| && run[n] == MarkOffline(c) && Enabled(After(runtime, run[..n]), run[n])
    ensures up < end < n && run[up] == MarkOnline(c) && Enabled(After(runtime, run[..up]), run[up])
    ensures run[end] == BrokerAction(Correlation.Disconnect(c)) && Enabled(After(runtime, run[..end]), run[end])
  {
    hide After, Enabled, Next, Ended, Marked, Cleaned;
    CleansEnded(After(runtime, run[..n]), c);
    end := EndedWhen(runtime, run[..n], c);
    assert run[..n][..end] == run[..end];
    EndsMarked(After(runtime, run[..end]), c);
    up := MarkedWhen(runtime, run[..end], c);
    assert run[..end][..up] == run[..up];
  }

  lemma CleansEnded(h: Host, c: nat)
    requires Enabled(h, MarkOffline(c))
    ensures Ended(h, c) && !Cleaned(h, c)
  {
  }

  lemma EndsMarked(h: Host, c: nat)
    requires Enabled(h, BrokerAction(Correlation.Disconnect(c)))
    ensures Marked(h, c) && !Ended(h, c)
  {
  }

  lemma MarksUnmarked(h: Host, c: nat)
    requires Enabled(h, MarkOnline(c))
    ensures !Marked(h, c)
  {
  }

  lemma {:induction false} FlagsStick(runtime: Runtime, run: seq<Action>, n: nat, c: nat)
    requires n <= |run|
    ensures Marked(After(runtime, run[..n]), c) ==> Marked(After(runtime, run), c)
    ensures Cleaned(After(runtime, run[..n]), c) ==> Cleaned(After(runtime, run), c)
    ensures Ended(After(runtime, run[..n]), c) ==> Ended(After(runtime, run), c)
  {
    hide Next, Enabled, Marked, Cleaned, Ended;
    if n == |run| {
      assert run[..n] == run;
    } else {
      var before := run[..|run| - 1];
      var (h, a) := (After(runtime, before), run[|run| - 1]);
      FlagsStick(runtime, before, n, c);
      assert before[..n] == run[..n];
      if Enabled(h, a) {
        LineFlags(h, a, c);
        EndedAfter(h, a, c);
      }
    }
  }

  /** The step that marks a connection's agent online, ends the connection, or marks the agent offline. */
  predicate StepOf(a: Action, c: nat) {
    a == MarkOnline(c) || a == BrokerAction(Correlation.Disconnect(c)) || a == MarkOffline(c)
  }

  /** Each of them happens at most once to a connection. */
  lemma EachOnce(runtime: Runtime, run: seq<Action>, n: nat, k: nat, c: nat)
    requires n <= k < |run| && run[n] == run[k] && StepOf(run[n], c)
    requires Enabled(After(runtime, run[..n]), run[n]) && Enabled(After(runtime, run[..k]), run[k])
    ensures n == k
  {
    hide After, Next, Enabled, Marked, Cleaned, Ended;
    if n < k {
      var (h, a) := (After(runtime, run[..n]), run[n]);
      LineFlags(h, a, c);
      EndedAfter(h, a, c);
      StepFrom(runtime, run, n);
      FlagsStick(runtime, run[..k], n + 1, c);
      assert run[..k][..n + 1] == run[..n + 1];
      if a == MarkOnline(c) {
        MarksUnmarked(After(runtime, run[..k]), c);
      } else if a == MarkOffline(c) {
        CleansEnded(After(runtime, run[..k]), c);
      } else {
        EndsMarked(After(runtime, run[..k]), c);
      }
    }
  }

  lemma StepFrom(runtime: Runtime, run: seq<Action>, n: nat)
    requires n < |run| && Enabled(After(runtime, run[..n]), run[n])
    ensures After(runtime, run[..n + 1]) == Next(After(runtime, run[..n]), run[n])
  {
    assert run[..n + 1][..n] == run[..n];
    hide Next, Enabled;
  }
}
