/** The request broker: two maps and one-slot channels, and its critical sections. */
module Broker {
  import opened Base
  import opened Signing

  const WS: string := "WS"
  const PROVIDER_PATH: string := "/v2/provider"

  /** A signed message that a provider sends; `signer` is the key under which its signature verifies. */
  datatype Frame = Frame(project: string, sender: string, signer: Bytes, verb: string, path: string, replyTo: string,
                         timestamp: int, payload: Payload)

  /** What travels through a result channel, with a note of where it came from. */
  datatype Origin = FromDetach(key: string) | FromFrame(frame: Frame)
  datatype Delivery = Delivery(payload: Payload, origin: Origin)

  /** A pendingRequest; channels are numbered in the order they are made. */
  datatype Entry = Entry(provider: string, replyTo: string, channel: nat)

  datatype BrokerState = BrokerState(providers: map<string, nat>, pending: map<string, Entry>, slots: seq<Option<Delivery>>)

  const IDLE: BrokerState := BrokerState(map[], map[], [])

  function OfflinePayload(agent: string, id: string): Payload {
    Payload(FailureType, agent, id, None, Some(Failure(id, "agent_offline")))
  }

  predicate BadResponse(p: Payload) {
    p.response.None? || p.response.value.requestId != p.requestId || |p.response.value.answer| > MAX_RESPONSE_BODY
  }

  /** receive rewrites an invalid response; a failure is passed on as it is. */
  function Sanitize(p: Payload): Payload {
    if p.kind.ResponseType? && BadResponse(p)
    then p.(kind := FailureType, response := None, failure := Some(Failure(p.requestId, "provider_protocol_error")))
    else p
  }

  // ---- Critical sections ---------------------------------------------------------------------

  function AttachStep(b: BrokerState, key: string, conn: nat): BrokerState {
    b.(providers := b.providers[key := conn])
  }

  function Put(b: BrokerState, channel: nat, d: Delivery): BrokerState {
    if channel < |b.slots| && b.slots[channel].None? then b.(slots := b.slots[channel := Some(d)]) else b
  }

  ghost predicate Waits(pending: map<string, Entry>, key: string, id: string, channel: nat) {
    id in pending && pending[id].provider == key && pending[id].channel == channel
  }

  ghost function DetachedSlot(pending: map<string, Entry>, slot: Option<Delivery>, key: string, agent: string, channel: nat): Option<Delivery> {
    if slot.None? && exists id :: Waits(pending, key, id, channel)
    then var id :| Waits(pending, key, id, channel); Some(Delivery(OfflinePayload(agent, id), FromDetach(key)))
    else slot
  }

  ghost function DetachStep(b: BrokerState, key: string, agent: string, conn: nat): BrokerState {
    if key in b.providers && b.providers[key] == conn
    then b.(providers := b.providers - {key},
            slots := seq(|b.slots|, c requires 0 <= c < |b.slots| => DetachedSlot(b.pending, b.slots[c], key, agent, c)))
    else b
  }

  function RegisterStep(b: BrokerState, key: string, id: string, nonce: string): BrokerState {
    b.(pending := b.pending[id := Entry(key, nonce, |b.slots|)], slots := b.slots + [None])
  }

  function UnregisterStep(b: BrokerState, id: string): BrokerState {
    b.(pending := b.pending - {id})
  }

  function TakeStep(b: BrokerState, channel: nat): BrokerState
    requires channel < |b.slots|
  {
    b.(slots := b.slots[channel := None])
  }

  /** What receive looks up before it lets go of the lock. */
  function Addressee(b: BrokerState, f: Frame): Option<nat> {
    if f.payload.requestId in b.pending && b.pending[f.payload.requestId].replyTo != ""
       && f.replyTo == b.pending[f.payload.requestId].replyTo
    then Some(b.pending[f.payload.requestId].channel)
    else None
  }

  ghost predicate OneEntryPerChannel(b: BrokerState) {
    && (forall id :: id in b.pending ==> b.pending[id].channel < |b.slots|)
    && (forall id, id' :: id in b.pending && id' in b.pending && b.pending[id].channel == b.pending[id'].channel ==> id == id')
  }

  /** With one entry per channel the failure put into a channel names the request that waits on it. */
  lemma DetachedSlotOf(b: BrokerState, key: string, agent: string, id: string)
    requires OneEntryPerChannel(b) && id in b.pending && b.pending[id].provider == key
    ensures var c := b.pending[id].channel;
      DetachedSlot(b.pending, b.slots[c], key, agent, c)
      == if b.slots[c].None? then Some(Delivery(OfflinePayload(agent, id), FromDetach(key))) else b.slots[c]
  {
    assert Waits(b.pending, key, id, b.pending[id].channel);
  }

  lemma DetachedSlotOther(b: BrokerState, key: string, agent: string, c: nat)
    requires c < |b.slots| && forall id :: id in b.pending && b.pending[id].provider == key ==> b.pending[id].channel != c
    ensures DetachedSlot(b.pending, b.slots[c], key, agent, c) == b.slots[c]
  {
  }

  class Broker {
    var providers: map<string, nat>
    var pending: map<string, Entry>
    var slots: seq<Option<Delivery>>

    function State(): BrokerState
      reads this
    {
      BrokerState(providers, pending, slots)
    }

    ghost predicate Valid()
      reads this
    {
      OneEntryPerChannel(State())
    }

    constructor ()
      ensures Valid() && State() == IDLE
    {
      providers, pending, slots := map[], map[], [];
    }

    method Attach(key: string, conn: nat) returns (replaced: Option<nat>)
      requires Valid()
      modifies this`providers
      ensures Valid() && State() == AttachStep(old(State()), key, conn)
      ensures replaced == if key in old(providers) then Some(old(providers)[key]) else None
    {
      replaced := if key in providers then Some(providers[key]) else None;
      providers := providers[key := conn];
    }

    method Send(channel: nat, d: Delivery)
      requires Valid()
      modifies this`slots
      ensures Valid() && State() == Put(old(State()), channel, d)
    {
      if channel < |slots| && slots[channel].None? {
        slots := slots[channel := Some(d)];
      }
    }

    /** Takes the agent offline and fails whoever waits for it, unless another connection has replaced this one. */
    method Detach(key: string, agent: string, conn: nat)
      requires Valid()
      modifies this`providers, this`slots
      ensures Valid() && State() == DetachStep(old(State()), key, agent, conn)
    {
      if key in providers && providers[key] == conn {
        providers := providers - {key};
        ghost var b := old(State());
        FailWaiters(key, agent);
        assert slots == DetachStep(b, key, agent, conn).slots;
      }
    }

    method FailWaiters(key: string, agent: string)
      requires Valid()
      modifies this`slots
      ensures Valid() && |slots| == old(|slots|)
      ensures forall c: nat :: c < |slots| ==> slots[c] == DetachedSlot(pending, old(slots)[c], key, agent, c)
    {
      ghost var b := State();
      var todo := pending.Keys;
      while todo != {}
        invariant todo <= pending.Keys && |slots| == |b.slots|
        invariant forall id :: id in todo ==> slots[pending[id].channel] == b.slots[pending[id].channel]
        invariant forall id :: id in pending && id !in todo ==>
            slots[pending[id].channel] == DetachedSlot(pending, b.slots[pending[id].channel], key, agent, pending[id].channel)
        invariant forall c: nat :: c < |slots| && (forall id :: id in pending ==> pending[id].channel != c) ==> slots[c] == b.slots[c]
      {
        var id :| id in todo;
        var channel := pending[id].channel;
        if pending[id].provider == key {
          DetachedSlotOf(b, key, agent, id);
          if slots[channel].None? {
            slots := slots[channel := Some(Delivery(OfflinePayload(agent, id), FromDetach(key)))];
          }
        } else {
          DetachedSlotOther(b, key, agent, channel);
        }
        todo := todo - {id};
      }
      forall c: nat | c < |slots| && (forall id :: id in pending ==> pending[id].channel != c)
        ensures slots[c] == DetachedSlot(pending, b.slots[c], key, agent, c)
      {
        DetachedSlotOther(b, key, agent, c);
      }
    }

    /** The first half of dispatch: under the lock, find the connection and leave an entry and an empty channel. */
    method Register(key: string, id: string, nonce: string) returns (conn: Option<nat>, channel: nat)
      requires Valid()
      modifies this`pending, this`slots
      ensures Valid()
      ensures conn == if key in old(providers) then Some(old(providers)[key]) else None
      ensures State() == if conn.Some? then RegisterStep(old(State()), key, id, nonce) else old(State())
      ensures conn.Some? ==> channel == old(|slots|)
    {
      channel := |slots|;
      if key !in providers {
        return None, channel;
      }
      conn := Some(providers[key]);
      slots := slots + [None];
      pending := pending[id := Entry(key, nonce, channel)];
    }

    /** The deferred half of dispatch; it deletes by request id whoever's entry is there. */
    method Unregister(id: string)
      requires Valid()
      modifies this`pending
      ensures Valid() && State() == UnregisterStep(old(State()), id)
    {
      pending := pending - {id};
    }

    method Take(channel: nat) returns (d: Option<Delivery>)
      requires Valid() && channel < |slots|
      modifies this`slots
      ensures Valid() && d == old(slots)[channel]
      ensures State() == TakeStep(old(State()), channel)
    {
      d := slots[channel];
      slots := slots[channel := None];
    }

    /** The locked half of receive, for a verified frame of the right type. */
    method Lookup(f: Frame) returns (channel: Option<nat>)
      requires Valid()
      ensures channel == Addressee(State(), f)
    {
      var id := f.payload.requestId;
      if id !in pending || pending[id].replyTo == "" || f.replyTo != pending[id].replyTo {
        return None;
      }
      channel := Some(pending[id].channel);
    }
  }
}
