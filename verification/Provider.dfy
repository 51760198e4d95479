/** The provider's side of the socket: one request at a time, one reply for each. */
module Provider {
  import opened Base
  import opened Replay
  import opened Broker

  /** The outcome of the local runtime, which is not interpreted: any function of the agent and the request. */
  datatype Handled = Answer(answer: Bytes) | Refusal(code: string)
  type Runtime = (string, Request) -> Handled

  function ProviderPayload(agent: string, q: Request, result: Handled): Payload {
    match result
    case Answer(answer) =>
      if |answer| > MAX_RESPONSE_BODY then Payload(FailureType, agent, q.id, None, Some(Failure(q.id, "response_too_large")))
      else Payload(ResponseType, agent, q.id, Some(Response(q.id, answer)), None)
    case Refusal(code) => Payload(FailureType, agent, q.id, None, Some(Failure(q.id, code)))
  }

  /** What an honest provider sends is never rewritten by receive. */
  lemma HonestPayloadUntouched(agent: string, q: Request, result: Handled)
    ensures Sanitize(ProviderPayload(agent, q, result)) == ProviderPayload(agent, q, result)
    ensures var p := ProviderPayload(agent, q, result);
      p.response.Some? <==> result.Answer? && |result.answer| <= MAX_RESPONSE_BODY
  {
  }

  /** What a provider loop sends, case by case: an answer of at most 2 MiB as a response, anything else as a failure. */
  lemma PayloadExactly(agent: string, q: Request, result: Handled)
    ensures ProviderPayload(agent, q, result) ==
      match result
      case Answer(answer) =>
        if |answer| <= 2_097_152 then Payload(ResponseType, agent, q.id, Some(Response(q.id, answer)), None)
        else Payload(FailureType, agent, q.id, None, Some(Failure(q.id, "response_too_large")))
      case Refusal(code) => Payload(FailureType, agent, q.id, None, Some(Failure(q.id, code)))
  {
  }

  /** A frame read from the host: `verified` says that its signature, window and route passed. */
  datatype HostFrame = HostFrame(verified: bool, key: string, nonce: string, time: int, request: Option<Request>)

  datatype Reply = Reply(replyTo: string, payload: Payload)

  /** The loop goes on past frame `k` of the inbox when the frame is good and the guard has not seen it. */
  function Good(seen: map<string, int>, f: HostFrame, retention: int): bool {
    f.verified && AcceptStep(seen, f.key, f.time, retention).1 && f.request.Some?
  }

  function Turned(f: HostFrame, agent: string, runtime: Runtime): Reply
    requires f.request.Some?
  {
    Reply(f.nonce, ProviderPayload(agent, f.request.value, runtime(agent, f.request.value)))
  }

  function ServeAll(seen: map<string, int>, inbox: seq<HostFrame>, agent: string, runtime: Runtime, retention: int): seq<Reply>
    decreases |inbox|
  {
    if inbox == [] || !Good(seen, inbox[0], retention) then []
    else
      [Turned(inbox[0], agent, runtime)]
      + ServeAll(AcceptStep(seen, inbox[0].key, inbox[0].time, retention).0, inbox[1..], agent, runtime, retention)
  }

  /** The guard after frames that were all good. */
  function SeenThrough(seen: map<string, int>, inbox: seq<HostFrame>, retention: int): map<string, int>
    decreases |inbox|
  {
    if inbox == [] then seen
    else SeenThrough(AcceptStep(seen, inbox[0].key, inbox[0].time, retention).0, inbox[1..], retention)
  }

  /** Reply number k answers frame number k: it echoes that frame's nonce and is computed from that frame's request. */
  lemma {:induction false} RepliesMatchFrames(seen: map<string, int>, inbox: seq<HostFrame>, agent: string, runtime: Runtime, retention: int)
    ensures var out := ServeAll(seen, inbox, agent, runtime, retention);
      && |out| <= |inbox|
      && (forall k :: 0 <= k < |out| ==>
          && inbox[k].verified && inbox[k].request.Some?
          && out[k] == Turned(inbox[k], agent, runtime))
    decreases |inbox|
  {
    if inbox == [] || !Good(seen, inbox[0], retention) {
    } else {
      var after := AcceptStep(seen, inbox[0].key, inbox[0].time, retention).0;
      RepliesMatchFrames(after, inbox[1..], agent, runtime, retention);
      var rest := ServeAll(after, inbox[1..], agent, runtime, retention);
      assert forall k :: 1 <= k < |rest| + 1 ==> inbox[k] == inbox[1..][k - 1];
    }
  }

  /** One frame more, while every frame so far was good: a reply more, if this one is good too. */
  lemma {:induction false} ServeOneMore(seen: map<string, int>, inbox: seq<HostFrame>, f: HostFrame, agent: string, runtime: Runtime, retention: int)
    requires |ServeAll(seen, inbox, agent, runtime, retention)| == |inbox|
    ensures SeenThrough(seen, inbox + [f], retention) == AcceptStep(SeenThrough(seen, inbox, retention), f.key, f.time, retention).0
    ensures ServeAll(seen, inbox + [f], agent, runtime, retention)
         == ServeAll(seen, inbox, agent, runtime, retention)
            + if Good(SeenThrough(seen, inbox, retention), f, retention) then [Turned(f, agent, runtime)] else []
    decreases |inbox|
  {
    if inbox == [] {
      assert [] + [f] == [f] && [f][1..] == [];
    } else {
      assert (inbox + [f])[1..] == inbox[1..] + [f];
      ServeOneMore(AcceptStep(seen, inbox[0].key, inbox[0].time, retention).0, inbox[1..], f, agent, runtime, retention);
    }
  }

  /** runProviderEndpoint's loop; it ends at the first frame that fails a check. */
  method Serve(replays: ReplayGuard, inbox: seq<HostFrame>, agent: string, runtime: Runtime) returns (out: seq<Reply>)
    modifies replays
    ensures out == ServeAll(old(replays.seen), inbox, agent, runtime, 2 * replays.maxAge)
  {
    out := [];
    var next := 0;
    while next < |inbox|
      invariant 0 <= next <= |inbox|
      invariant out + ServeAll(replays.seen, inbox[next..], agent, runtime, 2 * replays.maxAge)
             == ServeAll(old(replays.seen), inbox, agent, runtime, 2 * replays.maxAge)
    {
      var message := inbox[next];
      assert inbox[next..][0] == message && inbox[next..][1..] == inbox[next + 1..];
      if !message.verified {
        return;
      }
      var fresh' := replays.Accept(message.key, message.time);
      if !fresh' || message.request.None? {
        return;
      }
      out := out + [Turned(message, agent, runtime)];
      next := next + 1;
    }
  }
}
