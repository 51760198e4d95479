/**
 * Dispatches, provider connections and receives, interleaved in every order. One action is one critical
 * section of the broker, or what a goroutine does between two of them.
 */
module Correlation {
  import opened Base
  import opened Signing
  import opened Broker

  /** Where a dispatch stands; Leaving has an outcome but has not run its deferred delete. */
  datatype Phase = Registered | Waiting | Leaving(result: Option<Delivery>) | Returned(result: Option<Delivery>)

  /** One call of dispatch that found a connection. Its number is the number of its channel. */
  datatype Ticket = Ticket(request: Request, nonce: string, conn: nat, written: bool, phase: Phase)

  datatype Conn = Conn(project: string, agent: string, member: string, key: Bytes, open: bool)

  /** A receive that has found its channel under the lock and has not yet sent. */
  datatype Flight = Flight(channel: nat, delivery: Delivery)

  /** `received` keeps every frame that passed receive's checks. */
  datatype Sys = Sys(core: BrokerState, tickets: seq<Ticket>, conns: seq<Conn>, flights: set<Flight>, received: set<Frame>)

  const START: Sys := Sys(IDLE, [], [], {}, {})

  function TicketKey(t: Ticket): string {
    ProviderKey(t.request.project, t.request.agent)
  }

  function ConnKey(c: Conn): string {
    ProviderKey(c.project, c.agent)
  }

  datatype Action =
    | Connect(conn: Conn)
    | Disconnect(c: nat)
    | Register(request: Request, nonce: string)
    | Write(t: nat, sent: bool, ok: bool)
    | Timeout(t: nat)
    | Take(t: nat)
    | Unregister(t: nat)
    | Receive(c: nat, frame: Frame)
    | Send(flight: Flight)

  /** receive's checks up to the lookup. */
  predicate Acceptable(c: Conn, f: Frame) {
    && f.project == c.project && f.sender == c.member && f.signer == c.key
    && f.verb == WS && f.path == PROVIDER_PATH && !f.payload.kind.OtherType?
  }

  ghost predicate Enabled(s: Sys, a: Action) {
    match a
    case Connect(conn) => conn.open && Lacks(NUL, conn.project)
    case Disconnect(c) => c < |s.conns| && s.conns[c].open
    case Register(q, nonce) =>
      && ProviderKey(q.project, q.agent) in s.core.providers && Lacks(NUL, q.project)
      && nonce != "" && forall t :: 0 <= t < |s.tickets| ==> s.tickets[t].nonce != nonce
    case Write(t, sent, ok) => t < |s.tickets| && s.tickets[t].phase.Registered? && (ok ==> sent)
    case Timeout(t) => t < |s.tickets| && s.tickets[t].phase.Waiting?
    case Take(t) => t < |s.tickets| <= |s.core.slots| && s.tickets[t].phase.Waiting? && s.core.slots[t].Some?
    case Unregister(t) => t < |s.tickets| && s.tickets[t].phase.Leaving?
    case Receive(c, f) =>
      c < |s.conns| && s.conns[c].open && Acceptable(s.conns[c], f) && Addressee(s.core, f).Some?
    case Send(flight) => flight in s.flights
  }

  function Move(s: Sys, t: nat, phase: Phase): Sys
    requires t < |s.tickets|
  {
    s.(tickets := s.tickets[t := s.tickets[t].(phase := phase)])
  }

  ghost function Next(s: Sys, a: Action): Sys
    requires Enabled(s, a)
  {
    match a
    case Connect(conn) => s.(core := AttachStep(s.core, ConnKey(conn), |s.conns|), conns := s.conns + [conn])
    case Disconnect(c) =>
      s.(core := DetachStep(s.core, ConnKey(s.conns[c]), s.conns[c].agent, c),
         conns := s.conns[c := s.conns[c].(open := false)])
    case Register(q, nonce) =>
      var key := ProviderKey(q.project, q.agent);
      s.(core := RegisterStep(s.core, key, q.id, nonce),
         tickets := s.tickets + [Ticket(q, nonce, s.core.providers[key], false, Registered)])
    case Write(t, sent, ok) =>
      s.(tickets := s.tickets[t := s.tickets[t].(written := s.tickets[t].written || sent, phase := if ok then Waiting else Leaving(None))])
    case Timeout(t) => Move(s, t, Leaving(None))
    case Take(t) => Move(s, t, Leaving(s.core.slots[t])).(core := TakeStep(s.core, t))
    case Unregister(t) =>
      Move(s, t, Returned(s.tickets[t].phase.result)).(core := UnregisterStep(s.core, s.tickets[t].request.id))
    case Receive(_, f) =>
      s.(flights := s.flights + {Flight(Addressee(s.core, f).value, Delivery(Sanitize(f.payload), FromFrame(f)))},
         received := s.received + {f})
    case Send(flight) => s.(core := Put(s.core, flight.channel, flight.delivery), flights := s.flights - {flight})
  }

  /** The state after a run; an action that is not enabled does not happen. */
  ghost function After(run: seq<Action>): Sys {
    if run == [] then START else
      var (s, a) := (After(run[..|run| - 1]), run[|run| - 1]);
      if Enabled(s, a) then Next(s, a) else s
  }

  // ---- Invariants ----------------------------------------------------------------------------

  ghost predicate Shaped(s: Sys) {
    && |s.core.slots| == |s.tickets|
    && (forall t :: 0 <= t < |s.tickets| ==>
        && s.tickets[t].conn < |s.conns| && ConnKey(s.conns[s.tickets[t].conn]) == TicketKey(s.tickets[t])
        && s.tickets[t].nonce != "" && Lacks(NUL, s.tickets[t].request.project))
    && (forall c :: 0 <= c < |s.conns| ==> Lacks(NUL, s.conns[c].project))
    && (forall k :: k in s.core.providers ==>
        s.core.providers[k] < |s.conns| && ConnKey(s.conns[s.core.providers[k]]) == k)
  }

  ghost predicate NoncesDistinct(tickets: seq<Ticket>) {
    forall t, u :: 0 <= t < u < |tickets| ==> tickets[t].nonce != tickets[u].nonce
  }

  predicate Live(t: Ticket) {
    !t.phase.Returned?
  }

  /** An entry is kept under its own request's id, with its own nonce and agent, for a dispatch that has not returned. */
  ghost predicate EntryFits(id: string, e: Entry, tickets: seq<Ticket>) {
    && e.channel < |tickets| && Live(tickets[e.channel])
    && tickets[e.channel].request.id == id && tickets[e.channel].nonce == e.replyTo && TicketKey(tickets[e.channel]) == e.provider
  }

  ghost predicate EntriesFit(pending: map<string, Entry>, tickets: seq<Ticket>) {
    forall id :: id in pending ==> EntryFits(id, pending[id], tickets)
  }

  /** What a dispatch may be given: an offline failure for its own agent and request, or a frame that answers its own nonce. */
  ghost predicate Belongs(t: Ticket, d: Delivery, received: set<Frame>) {
    match d.origin
    case FromDetach(key) => key == TicketKey(t) && d.payload == OfflinePayload(t.request.agent, t.request.id)
    case FromFrame(f) =>
      && f in received && f.replyTo == t.nonce && d.payload == Sanitize(f.payload) && d.payload.requestId == t.request.id
      && !d.payload.kind.OtherType?
  }

  ghost predicate SlotsBelong(slots: seq<Option<Delivery>>, tickets: seq<Ticket>, received: set<Frame>) {
    |slots| == |tickets| && forall t :: 0 <= t < |slots| && slots[t].Some? ==> Belongs(tickets[t], slots[t].value, received)
  }

  ghost predicate ResultsBelong(tickets: seq<Ticket>, received: set<Frame>) {
    forall t :: 0 <= t < |tickets| && (tickets[t].phase.Leaving? || tickets[t].phase.Returned?) && tickets[t].phase.result.Some? ==>
      Belongs(tickets[t], tickets[t].phase.result.value, received)
  }

  ghost predicate FlightsBelong(flights: set<Flight>, tickets: seq<Ticket>, received: set<Frame>) {
    forall f :: f in flights ==> f.channel < |tickets| && Belongs(tickets[f.channel], f.delivery, received)
  }

  predicate Taken(t: Ticket) {
    t.phase.Leaving? && t.phase.result.Some?
  }

  /** An entry whose agent has no connection has its outcome: in its channel, or already taken by its caller. */
  ghost predicate Served(core: BrokerState, tickets: seq<Ticket>, id: string)
    requires id in core.pending
  {
    var e := core.pending[id];
    e.channel < |core.slots| == |tickets| && (e.provider !in core.providers ==> core.slots[e.channel].Some? || Taken(tickets[e.channel]))
  }

  ghost predicate NoneStranded(core: BrokerState, tickets: seq<Ticket>) {
    forall id :: id in core.pending ==> Served(core, tickets, id)
  }

  ghost predicate HasOwnEntry(s: Sys, t: nat) {
    t < |s.tickets| && s.tickets[t].request.id in s.core.pending && s.core.pending[s.tickets[t].request.id].channel == t
  }

  ghost predicate SharesId(tickets: seq<Ticket>, t: nat) {
    t < |tickets| && exists u :: 0 <= u < |tickets| && u != t && tickets[u].request.id == tickets[t].request.id
  }

  ghost predicate EntriesOwnedOrShared(s: Sys) {
    forall t :: 0 <= t < |s.tickets| && Live(s.tickets[t]) ==> HasOwnEntry(s, t) || SharesId(s.tickets, t)
  }

  ghost predicate Inv(s: Sys) {
    && Shaped(s) && NoncesDistinct(s.tickets) && EntriesFit(s.core.pending, s.tickets)
    && SlotsBelong(s.core.slots, s.tickets, s.received) && ResultsBelong(s.tickets, s.received) && FlightsBelong(s.flights, s.tickets, s.received)
    && NoneStranded(s.core, s.tickets) && EntriesOwnedOrShared(s)
  }

  /** No action rewrites a dispatch's request, nonce or connection, or forgets a dispatch. */
  lemma TicketsKept(s: Sys, a: Action)
    requires Enabled(s, a)
    ensures var after := Next(s, a);
      && |s.tickets| <= |after.tickets| && |s.conns| <= |after.conns|
      && (forall t :: 0 <= t < |s.tickets| ==>
          && after.tickets[t].request == s.tickets[t].request && after.tickets[t].nonce == s.tickets[t].nonce
          && after.tickets[t].conn == s.tickets[t].conn && (s.tickets[t].written ==> after.tickets[t].written)
          && (s.tickets[t].phase.Returned? ==> after.tickets[t].phase == s.tickets[t].phase)
          && (after.tickets[t].phase.Registered? ==> s.tickets[t].phase.Registered?))
      && (forall c :: 0 <= c < |s.conns| ==> after.conns[c].(open := s.conns[c].open) == s.conns[c])
      && (!a.Register? ==> |after.tickets| == |s.tickets|) && (!a.Connect? ==> |after.conns| == |s.conns|)
  {
  }

  /** Actions that leave requests, nonces, connections and the providers as they are. */
  lemma ShapedKept(s: Sys, s': Sys)
    requires Shaped(s) && |s'.tickets| == |s.tickets| == |s'.core.slots| && |s'.conns| == |s.conns|
    requires forall t :: 0 <= t < |s.tickets| ==>
      s'.tickets[t].request == s.tickets[t].request && s'.tickets[t].nonce == s.tickets[t].nonce && s'.tickets[t].conn == s.tickets[t].conn
    requires forall c :: 0 <= c < |s.conns| ==> s'.conns[c].(open := s.conns[c].open) == s.conns[c]
    requires forall k :: k in s'.core.providers ==> k in s.core.providers && s'.core.providers[k] == s.core.providers[k]
    ensures Shaped(s')
  {
  }

  lemma ShapedConnect(s: Sys, conn: Conn)
    requires Shaped(s) && Enabled(s, Connect(conn))
    ensures Shaped(Next(s, Connect(conn)))
  {
  }

  lemma ShapedRegister(s: Sys, q: Request, nonce: string)
    requires Shaped(s) && Enabled(s, Register(q, nonce))
    ensures Shaped(Next(s, Register(q, nonce)))
  {
  }

  lemma ProvidersShrink(s: Sys, a: Action)
    requires Enabled(s, a) && !a.Connect? && !a.Register?
    ensures |Next(s, a).core.slots| == |s.core.slots|
    ensures forall k :: k in Next(s, a).core.providers ==> k in s.core.providers && Next(s, a).core.providers[k] == s.core.providers[k]
  {
    hide DetachedSlot, Acceptable, Addressee, Sanitize;
  }

  lemma ShapedStep(s: Sys, a: Action)
    requires Inv(s) && Enabled(s, a)
    ensures Shaped(Next(s, a))
  {
    hide Next, Enabled, Shaped, NoncesDistinct, SlotsBelong, ResultsBelong, FlightsBelong, NoneStranded, EntriesOwnedOrShared, EntriesFit;
    match a
    case Connect(conn) => ShapedConnect(s, conn);
    case Register(q, nonce) => ShapedRegister(s, q, nonce);
    case _ =>
      TicketsKept(s, a);
      ProvidersShrink(s, a);
      SlotsMatch(s);
      ShapedKept(s, Next(s, a));
  }

  lemma SlotsMatch(s: Sys)
    requires Shaped(s)
    ensures |s.core.slots| == |s.tickets|
  {
  }

  lemma NoncesStep(s: Sys, a: Action)
    requires Inv(s) && Enabled(s, a)
    ensures NoncesDistinct(Next(s, a).tickets)
  {
    hide Shaped, SlotsBelong, ResultsBelong, FlightsBelong, NoneStranded, EntriesOwnedOrShared, EntriesFit;
  }

  /** The entry under an id is a new dispatch's, or was there before and its dispatch has not just left. */
  lemma PendingMoves(s: Sys, a: Action, id: string)
    requires Enabled(s, a) && id in Next(s, a).core.pending
    ensures if a.Register? && a.request.id == id
      then Next(s, a).core.pending[id] == Entry(ProviderKey(a.request.project, a.request.agent), a.nonce, |s.core.slots|)
      else
        && id in s.core.pending && Next(s, a).core.pending[id] == s.core.pending[id]
        && (a.Unregister? ==> a.t < |s.tickets| && s.tickets[a.t].request.id != id)
  {
    hide Acceptable, Addressee, Sanitize, DetachedSlot, ProviderKey;
  }

  lemma LiveMoves(s: Sys, a: Action, t: nat)
    requires Enabled(s, a) && t < |s.tickets| && Live(s.tickets[t]) && a != Unregister(t)
    ensures t < |Next(s, a).tickets| && Live(Next(s, a).tickets[t])
  {
    hide Acceptable, Addressee, Sanitize, DetachedSlot, ProviderKey;
  }

  lemma NewTicket(s: Sys, q: Request, nonce: string)
    requires Enabled(s, Register(q, nonce))
    ensures var tickets := Next(s, Register(q, nonce)).tickets;
      |tickets| == |s.tickets| + 1 && tickets[|s.tickets|].request == q && tickets[|s.tickets|].nonce == nonce && Live(tickets[|s.tickets|])
  {
  }

  lemma EntryFitsAfter(s: Sys, a: Action, id: string)
    requires Shaped(s) && EntriesFit(s.core.pending, s.tickets) && Enabled(s, a) && id in Next(s, a).core.pending
    ensures EntryFits(id, Next(s, a).core.pending[id], Next(s, a).tickets)
  {
    SlotsMatch(s);
    hide Next, Enabled, Shaped, ProviderKey, Live;
    PendingMoves(s, a, id);
    if a.Register? && a.request.id == id {
      NewTicket(s, a.request, a.nonce);
    } else {
      assert EntryFits(id, s.core.pending[id], s.tickets);
      LiveMoves(s, a, s.core.pending[id].channel);
      TicketsKept(s, a);
    }
    hide EntriesFit;
  }

  lemma EntriesFitStep(s: Sys, a: Action)
    requires Inv(s) && Enabled(s, a)
    ensures EntriesFit(Next(s, a).core.pending, Next(s, a).tickets)
  {
    hide Next, Enabled, EntryFits, SlotsBelong, ResultsBelong, FlightsBelong, NoneStranded, EntriesOwnedOrShared, Shaped, NoncesDistinct;
    forall id | id in Next(s, a).core.pending ensures EntryFits(id, Next(s, a).core.pending[id], Next(s, a).tickets) {
      EntryFitsAfter(s, a, id);
    }
  }

  lemma ResultsStep(s: Sys, a: Action)
    requires Inv(s) && Enabled(s, a)
    ensures ResultsBelong(Next(s, a).tickets, Next(s, a).received)
  {
    hide FlightsBelong, NoneStranded, EntriesOwnedOrShared, EntriesFit;
  }

  lemma FlightsStep(s: Sys, a: Action)
    requires Inv(s) && Enabled(s, a)
    ensures FlightsBelong(Next(s, a).flights, Next(s, a).tickets, Next(s, a).received)
  {
    hide SlotsBelong, ResultsBelong, NoneStranded, EntriesOwnedOrShared;
  }

  lemma DisconnectSlots(s: Sys, c: nat, t: nat)
    requires Shaped(s) && EntriesFit(s.core.pending, s.tickets) && SlotsBelong(s.core.slots, s.tickets, s.received)
    requires c < |s.conns| && t < |s.tickets|
    ensures var slot := DetachedSlot(s.core.pending, s.core.slots[t], ConnKey(s.conns[c]), s.conns[c].agent, t);
      slot.Some? ==> Belongs(s.tickets[t], slot.value, s.received)
  {
    var key, agent := ConnKey(s.conns[c]), s.conns[c].agent;
    if s.core.slots[t].None? && exists id :: Waits(s.core.pending, key, id, t) {
      var id :| Waits(s.core.pending, key, id, t);
      assert EntryFits(id, s.core.pending[id], s.tickets);
      var q := s.tickets[t].request;
      ProviderKeyInjective(s.conns[c].project, agent, q.project, q.agent);
      DetachedSlotOf(s.core, key, agent, id) by {
        ChannelsDistinct(s);
      }
    }
  }

  lemma ChannelsDistinct(s: Sys)
    requires |s.core.slots| == |s.tickets| && EntriesFit(s.core.pending, s.tickets)
    ensures OneEntryPerChannel(s.core)
  {
    assert forall id :: id in s.core.pending ==> EntryFits(id, s.core.pending[id], s.tickets);
  }

  lemma SlotsStep(s: Sys, a: Action)
    requires Inv(s) && Enabled(s, a)
    ensures SlotsBelong(Next(s, a).core.slots, Next(s, a).tickets, Next(s, a).received)
  {
    hide ResultsBelong, NoneStranded, EntriesOwnedOrShared;
    if a.Disconnect? {
      forall t: nat | t < |s.tickets| && Next(s, a).core.slots[t].Some?
        ensures Belongs(s.tickets[t], Next(s, a).core.slots[t].value, s.received)
      {
        DisconnectSlots(s, a.c, t);
      }
    } else {
      hide EntriesFit, Shaped;
    }
  }

  lemma DisconnectServes(s: Sys, c: nat, id: string)
    requires Inv(s) && c < |s.conns| && s.conns[c].open && id in s.core.pending
    ensures var after := Next(s, Disconnect(c)); Served(after.core, after.tickets, id)
  {
    hide ResultsBelong, FlightsBelong, SlotsBelong, EntriesOwnedOrShared;
    assert Served(s.core, s.tickets, id);
    var key, agent := ConnKey(s.conns[c]), s.conns[c].agent;
    if s.core.pending[id].provider == key {
      ChannelsDistinct(s);
      DetachedSlotOf(s.core, key, agent, id);
    }
  }

  lemma EntryStaysServed(s: Sys, a: Action, id: string)
    requires Inv(s) && Enabled(s, a) && !a.Disconnect? && id in Next(s, a).core.pending
    ensures Served(Next(s, a).core, Next(s, a).tickets, id)
  {
    hide ResultsBelong, EntriesOwnedOrShared, FlightsBelong, SlotsBelong, NoncesDistinct;
    if id in s.core.pending {
      assert Served(s.core, s.tickets, id) && EntryFits(id, s.core.pending[id], s.tickets);
    }
    hide NoneStranded, EntriesFit;
  }

  lemma StrandedStep(s: Sys, a: Action)
    requires Inv(s) && Enabled(s, a)
    ensures NoneStranded(Next(s, a).core, Next(s, a).tickets)
  {
    hide ResultsBelong, EntriesOwnedOrShared, FlightsBelong, SlotsBelong;
    var after := Next(s, a);
    forall id | id in after.core.pending
      ensures Served(after.core, after.tickets, id)
    {
      if a.Disconnect? {
        DisconnectServes(s, a.c, id);
      } else {
        EntryStaysServed(s, a, id);
      }
    }
  }

  lemma SharingLasts(s: Sys, a: Action, t: nat)
    requires Enabled(s, a) && SharesId(s.tickets, t)
    ensures SharesId(Next(s, a).tickets, t)
  {
    TicketsKept(s, a);
    hide Next, Enabled;
    var u :| 0 <= u < |s.tickets| && u != t && s.tickets[u].request.id == s.tickets[t].request.id;
    assert Next(s, a).tickets[u].request.id == Next(s, a).tickets[t].request.id;
  }

  /** Only a dispatch with the same request id overwrites or deletes another's entry. */
  lemma EntryLostToSharer(s: Sys, a: Action, t: nat)
    requires Shaped(s) && Enabled(s, a) && HasOwnEntry(s, t) && Live(Next(s, a).tickets[t])
    ensures HasOwnEntry(Next(s, a), t) || SharesId(Next(s, a).tickets, t)
  {
    TicketsKept(s, a);
    var after := Next(s, a);
    if a.Register? && a.request.id == s.tickets[t].request.id {
      assert after.tickets[|s.tickets|].request.id == after.tickets[t].request.id;
    } else if a.Unregister? && s.tickets[a.t].request.id == s.tickets[t].request.id {
      assert after.tickets[a.t].request.id == after.tickets[t].request.id && a.t != t;
    } else {
      assert after.core.pending[s.tickets[t].request.id] == s.core.pending[s.tickets[t].request.id];
    }
  }

  lemma OwnedStep(s: Sys, a: Action)
    requires Inv(s) && Enabled(s, a)
    ensures EntriesOwnedOrShared(Next(s, a))
  {
    hide ResultsBelong, FlightsBelong, SlotsBelong, NoneStranded;
    var after := Next(s, a);
    forall t: nat | t < |after.tickets| && Live(after.tickets[t])
      ensures HasOwnEntry(after, t) || SharesId(after.tickets, t)
    {
      if t < |s.tickets| {
        assert Live(s.tickets[t]);
        if SharesId(s.tickets, t) {
          SharingLasts(s, a, t);
        } else {
          EntryLostToSharer(s, a, t);
        }
      }
    }
  }

  lemma InvStep(s: Sys, a: Action)
    requires Inv(s) && Enabled(s, a)
    ensures Inv(Next(s, a))
  {
    ShapedStep(s, a);
    NoncesStep(s, a);
    EntriesFitStep(s, a);
    ResultsStep(s, a);
    FlightsStep(s, a);
    SlotsStep(s, a);
    StrandedStep(s, a);
    OwnedStep(s, a);
    hide Shaped, NoncesDistinct, EntriesFit, SlotsBelong, ResultsBelong, FlightsBelong, NoneStranded, EntriesOwnedOrShared, Next, Enabled;
  }

  lemma {:induction false} RunInv(run: seq<Action>)
    ensures Inv(After(run))
  {
    if run == [] {
    } else {
      RunInv(run[..|run| - 1]);
      var (s, a) := (After(run[..|run| - 1]), run[|run| - 1]);
      hide Inv, Next, Enabled;
      if Enabled(s, a) {
        InvStep(s, a);
      }
    }
  }

  // ---- Theorems ------------------------------------------------------------------------------

  /** What a caller is given of a frame's payload: a response that is missing, names another request or is over 2 MiB is replaced. */
  predicate PassedOn(p: Payload, given: Payload) {
    if p.kind.ResponseType? && (p.response.None? || p.response.value.requestId != p.requestId || |p.response.value.answer| > 2_097_152)
    then given == Payload(FailureType, p.agent, p.requestId, None, Some(Failure(p.requestId, "provider_protocol_error")))
    else given == p
  }

  /**
   * Correlation under every interleaving. What a dispatch returns is a failure with code agent_offline that detach made,
   * under this dispatch's key, for its own agent and request; or what is passed on of a frame whose ReplyTo is this
   * dispatch's own nonce and no other's, which names its request, and whose response, when the frame is typed as one,
   * names it too and is at most 2 MiB.
   */
  lemma DispatchCorrelated(run: seq<Action>, t: nat)
    requires t < |After(run).tickets|
    requires var phase := After(run).tickets[t].phase; phase.Returned? && phase.result.Some?
    ensures var s := After(run);
      var (ticket, d) := (s.tickets[t], s.tickets[t].phase.result.value);
      || (&& d.origin.FromDetach? && d.origin.key == TicketKey(ticket)
          && d.payload == Payload(FailureType, ticket.request.agent, ticket.request.id, None, Some(Failure(ticket.request.id, "agent_offline"))))
      || (&& d.origin.FromFrame? && d.origin.frame.replyTo == ticket.nonce
          && (forall u :: 0 <= u < |s.tickets| && u != t ==> d.origin.frame.replyTo != s.tickets[u].nonce)
          && PassedOn(d.origin.frame.payload, d.payload)
          && d.payload.requestId == ticket.request.id && !d.payload.kind.OtherType?
          && (d.payload.kind.ResponseType? ==>
              && d.payload.response.Some? && d.payload.response.value.requestId == ticket.request.id
              && |d.payload.response.value.answer| <= 2_097_152))
  {
    RunInv(run);
    assert Belongs(After(run).tickets[t], After(run).tickets[t].phase.result.value, After(run).received);
  }

  /** A frame finds a dispatch exactly when it answers that dispatch's nonce and request and the entry there is its own. */
  lemma FrameFindsItsDispatch(run: seq<Action>, t: nat, f: Frame)
    requires t < |After(run).tickets|
    ensures var s := After(run);
      Addressee(s.core, f) == Some(t)
      <==> HasOwnEntry(s, t) && f.payload.requestId == s.tickets[t].request.id && f.replyTo == s.tickets[t].nonce
  {
    RunInv(run);
    var s := After(run);
    hide After;
    if f.payload.requestId in s.core.pending {
      assert EntryFits(f.payload.requestId, s.core.pending[f.payload.requestId], s.tickets);
    }
  }

  lemma Extend(run: seq<Action>, a: Action)
    requires Enabled(After(run), a)
    ensures After(run + [a]) == Next(After(run), a)
  {
    assert (run + [a])[..|run|] == run;
  }

  /** A waiting dispatch that owns its entry, undisturbed: the right frame is received, sent, taken and returned. */
  lemma Exchange(s: Sys, t: nat, c: nat, f: Frame)
    requires t < |s.tickets| == |s.core.slots| && s.tickets[t].phase.Waiting? && s.core.slots[t].None? && HasOwnEntry(s, t)
    requires s.core.pending[s.tickets[t].request.id].replyTo == s.tickets[t].nonce == f.replyTo != ""
    requires c < |s.conns| && s.conns[c].open && Acceptable(s.conns[c], f) && f.payload.requestId == s.tickets[t].request.id
    ensures var d := Delivery(Sanitize(f.payload), FromFrame(f));
      && Enabled(s, Receive(c, f)) && Enabled(Next(s, Receive(c, f)), Send(Flight(t, d)))
      && (var sent := Next(Next(s, Receive(c, f)), Send(Flight(t, d)));
          && Enabled(sent, Take(t)) && Enabled(Next(sent, Take(t)), Unregister(t))
          && (var after := Next(Next(sent, Take(t)), Unregister(t));
              && after.tickets == s.tickets[t := s.tickets[t].(phase := Returned(Some(d)))] && after.conns == s.conns
              && after.core.slots == s.core.slots && s.tickets[t].request.id !in after.core.pending))
  {
    hide Sanitize, Acceptable;
  }

  /** Then the waiting caller can be given exactly what the frame carries. */
  lemma RightFrameIsDelivered(run: seq<Action>, t: nat, c: nat, f: Frame)
    requires var s := After(run);
      && t < |s.tickets| && s.tickets[t].phase.Waiting? && HasOwnEntry(s, t)
      && c < |s.conns| && s.conns[c].open && Acceptable(s.conns[c], f)
      && f.payload.requestId == s.tickets[t].request.id && f.replyTo == s.tickets[t].nonce
    requires t < |After(run).core.slots| && After(run).core.slots[t].None?
    ensures var d := Delivery(Sanitize(f.payload), FromFrame(f));
      var after := After(run + [Receive(c, f)] + [Send(Flight(t, d))] + [Take(t)]);
      t < |after.tickets| && after.tickets[t].phase == Leaving(Some(d))
  {
    RunInv(run);
    OwnEntryFits(After(run), t);
    var flight := Flight(t, Delivery(Sanitize(f.payload), FromFrame(f)));
    hide After, Inv, Sanitize, Acceptable, HasOwnEntry, Next, Enabled;
    Exchange(After(run), t, c, f);
    Extend(run, Receive(c, f));
    Extend(run + [Receive(c, f)], Send(flight));
    Extend(run + [Receive(c, f)] + [Send(flight)], Take(t));
    TakeGives(After(run + [Receive(c, f)] + [Send(flight)]), t);
    SentFills(After(run), t, c, f);
  }

  lemma OwnEntryFits(s: Sys, t: nat)
    requires Inv(s) && HasOwnEntry(s, t)
    ensures s.core.pending[s.tickets[t].request.id].replyTo == s.tickets[t].nonce != "" && |s.core.slots| == |s.tickets|
  {
    assert Shaped(s);
    assert EntryFits(s.tickets[t].request.id, s.core.pending[s.tickets[t].request.id], s.tickets);
    hide Inv;
  }

  lemma TakeGives(s: Sys, t: nat)
    requires Enabled(s, Take(t))
    ensures t < |Next(s, Take(t)).tickets| && t < |s.core.slots| && Next(s, Take(t)).tickets[t].phase == Leaving(s.core.slots[t])
  {
  }

  lemma SentFills(s: Sys, t: nat, c: nat, f: Frame)
    requires t < |s.core.slots| && s.core.slots[t].None? && Enabled(s, Receive(c, f))
    requires var flight := Flight(t, Delivery(Sanitize(f.payload), FromFrame(f))); Enabled(Next(s, Receive(c, f)), Send(flight))
    ensures var flight := Flight(t, Delivery(Sanitize(f.payload), FromFrame(f)));
      var after := Next(Next(s, Receive(c, f)), Send(flight));
      t < |after.core.slots| && after.core.slots[t] == Some(flight.delivery)
  {
    hide Sanitize, Acceptable;
  }

  /** No stranded entry: without a connection for its agent, an entry has its outcome in its channel or taken from it. */
  lemma NoStrandedEntry(run: seq<Action>, id: string)
    requires id in After(run).core.pending && After(run).core.pending[id].provider !in After(run).core.providers
    ensures var s := After(run);
      var c := s.core.pending[id].channel;
      c < |s.core.slots| == |s.tickets| && (s.core.slots[c].Some? || Taken(s.tickets[c]))
  {
    RunInv(run);
    assert Served(After(run).core, After(run).tickets, id);
  }

  /** A dispatch that waits for an agent without a connection, with nothing in its channel, has lost its entry to a dispatch with the same request id. */
  lemma StrandedOnlyBySharing(run: seq<Action>, t: nat)
    requires t < |After(run).tickets| && After(run).tickets[t].phase.Waiting?
    requires TicketKey(After(run).tickets[t]) !in After(run).core.providers
    ensures t < |After(run).core.slots|
    ensures After(run).core.slots[t].None? ==> !HasOwnEntry(After(run), t) && SharesId(After(run).tickets, t)
  {
    RunInv(run);
    var s := After(run);
    var id := s.tickets[t].request.id;
    if HasOwnEntry(s, t) {
      assert EntryFits(id, s.core.pending[id], s.tickets) && Served(s.core, s.tickets, id);
    }
  }

  /**
   * When the attached connection of its agent ends, a live dispatch is left with nothing exactly when it had nothing and
   * no longer owned the entry under its request id.
   */
  lemma DetachStrandsExactly(run: seq<Action>, c: nat, t: nat)
    requires var s := After(run);
      && t < |s.tickets| && Live(s.tickets[t]) && c < |s.conns| && s.conns[c].open && ConnKey(s.conns[c]) == TicketKey(s.tickets[t])
      && ConnKey(s.conns[c]) in s.core.providers && s.core.providers[ConnKey(s.conns[c])] == c
    ensures var (s, after) := (After(run), After(run + [Disconnect(c)]));
      && t < |s.core.slots| && t < |after.core.slots| && TicketKey(s.tickets[t]) !in after.core.providers
      && (after.core.slots[t].None? <==> s.core.slots[t].None? && !HasOwnEntry(s, t))
  {
    RunInv(run);
    Extend(run, Disconnect(c));
    var s := After(run);
    hide After;
    ChannelsDistinct(s);
    var (id, key, agent) := (s.tickets[t].request.id, ConnKey(s.conns[c]), s.conns[c].agent);
    if HasOwnEntry(s, t) {
      assert EntryFits(id, s.core.pending[id], s.tickets);
      DetachedSlotOf(s.core, key, agent, id);
    } else {
      forall i | i in s.core.pending ensures s.core.pending[i].channel != t {
        assert EntryFits(i, s.core.pending[i], s.tickets);
      }
      DetachedSlotOther(s.core, key, agent, t);
    }
  }

  /**
   * The exception is real. Request ids are unique within a Project only: an entry of another Project's agent under
   * the same id replaces the first one's, and the detach of the first agent then leaves its channel empty.
   */
  lemma SharedIdStrands(b: BrokerState, key: string, other: string, id: string, n1: string, n2: string, agent: string)
    requires OneEntryPerChannel(b) && key in b.providers && other in b.providers && key != other
    ensures var both := RegisterStep(RegisterStep(b, key, id, n1), other, id, n2);
      var after := DetachStep(both, key, agent, b.providers[key]);
      key !in after.providers && after.slots[|b.slots|].None?
    ensures var both := RegisterStep(RegisterStep(b, key, id, n1), other, id, n2);
      id !in UnregisterStep(both, id).pending
  {
    var both := RegisterStep(RegisterStep(b, key, id, n1), other, id, n2);
    assert forall i :: !Waits(both.pending, key, i, |b.slots|);
  }

  function Asked(project: string, agent: string, id: string): Request {
    Request(SCHEMA_VERSION, id, project, "member", agent, [], Digest([]), 1)
  }

  /**
   * A run that strands a caller, for any two agents with connections and any request id: both are asked under that id,
   * the first frame is written, and the first agent's connection ends. Its caller waits on, with nothing in its channel.
   */
  lemma StrandedRun(first: Conn, second: Conn, id: string) returns (run: seq<Action>)
    requires first.open && second.open && Lacks(NUL, first.project) && Lacks(NUL, second.project) && ConnKey(first) != ConnKey(second)
    ensures var s := After(run);
      && |s.tickets| == 2 && s.tickets[0].request == Asked(first.project, first.agent, id) && s.tickets[0].written
      && s.tickets[0].phase.Waiting? && TicketKey(s.tickets[0]) !in s.core.providers && |s.core.slots| == 2 && s.core.slots[0].None?
  {
    var (q1, q2) := (Asked(first.project, first.agent, id), Asked(second.project, second.agent, id));
    var (k1, k2) := (ConnKey(first), ConnKey(second));
    hide After, ProviderKey;
    var run2 := [] + [Connect(first)] + [Connect(second)];
    StartIsIdle();
    Extend([], Connect(first));
    Extend([] + [Connect(first)], Connect(second));
    var s2 := After(run2);
    assert s2.core == BrokerState(map[k1 := 0, k2 := 1], map[], []) && s2.conns == [first, second] && s2.tickets == [];
    Extend(run2, Register(q1, "1"));
    var run3 := run2 + [Register(q1, "1")];
    assert After(run3).tickets == [Ticket(q1, "1", 0, false, Registered)];
    Extend(run3, Register(q2, "2"));
    var run4 := run3 + [Register(q2, "2")];
    var s4 := After(run4);
    assert s4.core == BrokerState(map[k1 := 0, k2 := 1], map[id := Entry(k2, "2", 1)], [None, None]) && s4.conns == [first, second];
    assert s4.tickets == [Ticket(q1, "1", 0, false, Registered), Ticket(q2, "2", 1, false, Registered)];
    Extend(run4, Write(0, true, true));
    var run5 := run4 + [Write(0, true, true)];
    assert After(run5).core == s4.core && After(run5).conns == s4.conns && After(run5).tickets[0].phase == Waiting;
    Extend(run5, Disconnect(0));
    run := run5 + [Disconnect(0)];
    DetachedSlotOther(s4.core, k1, first.agent, 0);
  }

  lemma StartIsIdle()
    ensures After([]) == START
  {
  }

  /** A connection that was replaced takes nothing down when it ends: its waiting requests go on waiting. */
  lemma ReplacedConnectionIsSilent(b: BrokerState, key: string, agent: string, first: nat, second: nat)
    requires key in b.providers && b.providers[key] == first
    ensures DetachStep(AttachStep(b, key, second), key, agent, first) == AttachStep(b, key, second) <==> first != second
  {
    var replaced := AttachStep(b, key, second);
    if first == second {
      assert key !in DetachStep(replaced, key, agent, first).providers;
    }
  }

  /**
   * The response a payload carries is checked only when the payload is typed as a response: whatever reaches the
   * caller names its request and fits in 2 MiB, or is absent, except for a failure that carries a bad response.
   */
  lemma FailuresKeepTheirResponse(p: Payload)
    requires !p.kind.OtherType?
    ensures Sanitize(p).response.None? || !BadResponse(Sanitize(p)) <==> !(p.kind.FailureType? && p.response.Some? && BadResponse(p))
  {
  }

  // ---- Each caller gets one outcome, each frame is written once ------------------------------

  predicate Decided(t: Ticket) {
    t.phase.Leaving? || t.phase.Returned?
  }

  lemma {:induction false} OutcomeIsFinal(run: seq<Action>, n: nat, t: nat)
    requires n <= |run| && t < |After(run[..n]).tickets| && Decided(After(run[..n]).tickets[t])
    ensures t < |After(run).tickets| && Decided(After(run).tickets[t])
    ensures After(run).tickets[t].phase.result == After(run[..n]).tickets[t].phase.result
    decreases |run|
  {
    if n == |run| {
      assert run[..n] == run;
    } else {
      var before := run[..|run| - 1];
      assert before[..n] == run[..n];
      OutcomeIsFinal(before, n, t);
    }
  }

  predicate IsWrite(a: Action, t: nat) {
    a.Write? && a.t == t && a.sent
  }

  /** How often dispatch `t` put its frame on its connection. */
  ghost function Writes(run: seq<Action>, t: nat): nat {
    if run == [] then 0 else
      var (s, a) := (After(run[..|run| - 1]), run[|run| - 1]);
      Writes(run[..|run| - 1], t) + if Enabled(s, a) && IsWrite(a, t) then 1 else 0
  }

  lemma {:induction false} WrittenAtMostOnce(run: seq<Action>, t: nat)
    ensures t >= |After(run).tickets| || After(run).tickets[t].phase.Registered? ==> Writes(run, t) == 0
    ensures t < |After(run).tickets| ==> (Writes(run, t) == 1 <==> After(run).tickets[t].written)
    ensures Writes(run, t) <= 1
    ensures t < |After(run).tickets| && After(run).tickets[t].phase.Registered? ==> !After(run).tickets[t].written
  {
    if run == [] {
    } else {
      WrittenAtMostOnce(run[..|run| - 1], t);
    }
  }

  lemma {:induction false} WaitingWasWritten(run: seq<Action>, t: nat)
    ensures t < |After(run).tickets| && After(run).tickets[t].phase.Waiting? ==> After(run).tickets[t].written
  {
    if run == [] {
    } else {
      WaitingWasWritten(run[..|run| - 1], t);
      hide DetachStep, RegisterStep, Addressee;
    }
  }

  /**
   * Where a dispatch's outcome comes from: it took what was in its own channel, or has none because its frame could not
   * be written or its time was up, and then that frame had been written.
   */
  lemma {:induction false} DecidedBy(run: seq<Action>, t: nat) returns (n: nat)
    requires t < |After(run).tickets| && Decided(After(run).tickets[t])
    ensures n < |run| && Enabled(After(run[..n]), run[n]) && t < |After(run[..n]).tickets| && t < |After(run[..n]).core.slots|
    ensures var (ticket, result) := (After(run[..n]).tickets[t], After(run).tickets[t].phase.result);
      || (run[n] == Take(t) && ticket.written && result.Some? && After(run[..n]).core.slots[t] == result)
      || (run[n] == Timeout(t) && ticket.written && result.None?)
      || (run[n].Write? && run[n].t == t && !run[n].ok && result.None?)
  {
    hide Next, Enabled, Decided;
    assert run != [] by { NothingAtStart(t); }
    var before := run[..|run| - 1];
    var (s, a) := (After(before), run[|run| - 1]);
    if Enabled(s, a) && !(t < |s.tickets| && Decided(s.tickets[t])) {
      n := |run| - 1;
      RunInv(before);
      SlotsMatch(s);
      WaitingWasWritten(before, t);
      DecidedNow(s, a, t);
    } else {
      n := DecidedBy(before, t);
      assert before[..n] == run[..n];
      OutcomeIsFinal(run, |before|, t);
      assert run[..|before|] == before;
    }
  }

  lemma NothingAtStart(t: nat)
    ensures t >= |After([]).tickets|
  {
  }

  lemma DecidedNow(s: Sys, a: Action, t: nat)
    requires Enabled(s, a) && t < |Next(s, a).tickets| && Decided(Next(s, a).tickets[t])
    requires !(t < |s.tickets| && Decided(s.tickets[t])) && |s.core.slots| == |s.tickets|
    ensures t < |s.tickets|
    ensures var result := Next(s, a).tickets[t].phase.result;
      || (a == Take(t) && s.tickets[t].phase.Waiting? && result.Some? && s.core.slots[t] == result)
      || (a == Timeout(t) && s.tickets[t].phase.Waiting? && result.None?)
      || (a.Write? && a.t == t && !a.ok && result.None?)
  {
    hide DetachStep, RegisterStep, Addressee;
  }
}
