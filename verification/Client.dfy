/** The client's endpoint search: one signed message posted to the saved endpoints, then to the discovered ones. */
module Client {
  import opened Base
  import opened Signing
  import opened Responses

  datatype Err = Plain | Structured(code: string)

  const HOST_OFFLINE: Err := Structured("project_host_offline")

  /**
   * A verified host response; `failure` is the error of a result that is not ok, `decodes` that its data parses, and
   * `data` the provider payload that it then is, if it is one.
   */
  datatype Answer = Answer(project: string, kind: string, ok: bool, failure: Option<Err>, decodes: bool, data: Option<Payload>)
  datatype Posted = Responded(answer: Answer) | Errored(err: Err)

  datatype Discovery = Discovery(endpoints: seq<string>, err: Option<Err>)

  datatype Verdict = Success(data: Option<Payload>) | Fail(err: Err) | Canceled

  predicate Terminal(e: Err) {
    e.Structured? && e.code != "project_host_offline" && e.code != "lan_discovery_unavailable"
  }

  predicate Decisive(p: Posted) {
    p.Responded? || Terminal(p.err)
  }

  function Judge(p: Posted, project: string, kind: string): (v: Verdict)
    requires Decisive(p)
    ensures v != Canceled && (v.Success? ==> p.Responded? && p.answer.ok && v.data == p.answer.data)
  {
    match p
    case Errored(err) => Fail(err)
    case Responded(a) =>
      if a.project != project || a.kind != kind + ".response" then Fail(Structured("host_identity_mismatch"))
      else if !a.ok then Fail(if a.failure.Some? then a.failure.value else Plain)
      else if a.decodes then Success(a.data)
      else Fail(Plain)
  }

  // ---- Reading one response ------------------------------------------------------------------

  /** What the payload of a response parses to. */
  datatype RpcResult = RpcResult(ok: bool, failure: Option<Err>, decodes: bool, data: Option<Payload>)
  type Parser = Bytes -> Option<RpcResult>

  /**
   * What one post brought: no response, one that does not decode, or a message with its signature, read at a time,
   * whether the client's guard has seen it, and whether the status was 403.
   */
  datatype Reception =
    | Lost(err: Err)
    | Garbled(forbidden: bool)
    | Heard(message: SignedMessage, signature: Signature, at: int, replayed: bool, forbidden: bool)

  const MISMATCH: Err := Structured("host_identity_mismatch")

  /** decodeSignedResponse: signature and window, route, nonce, payload. */
  function Problem(x: Reception, q: Query, hostKey: Bytes, enc: Encoders, parse: Parser): Option<Err>
    requires x.Heard?
  {
    var m := x.message;
    match Verify(m, x.signature, hostKey, x.at, SIGNATURE_MAX_AGE, enc)
    case Some(error) => Some(if error.ClockSkew? then Structured("clock_skew") else MISMATCH)
    case None =>
      if m.verb != Server.POST || m.path != Server.RPC_PATH || m.replyTo != q.nonce then Some(MISMATCH)
      else if parse(m.payload).None? then Some(Plain)
      else None
  }

  /** postRPC. */
  function Read(x: Reception, q: Query, hostKey: Bytes, enc: Encoders, parse: Parser): Posted {
    match x
    case Lost(err) => Errored(err)
    case Garbled(forbidden) => Errored(if forbidden then Structured("lan_peer_required") else Plain)
    case Heard(m, _, _, replayed, forbidden) =>
      match Problem(x, q, hostKey, enc, parse)
      case Some(err) => Errored(if forbidden && !Terminal(err) then Structured("lan_peer_required") else err)
      case None =>
        var r := parse(m.payload).value;
        if replayed then Errored(Structured("request_replayed"))
        else Responded(Answer(m.project, m.kind, r.ok, r.failure, r.decodes, r.data))
  }

  function Reads(heard: seq<Reception>, q: Query, hostKey: Bytes, enc: Encoders, parse: Parser): (posts: seq<Posted>)
    ensures |posts| == |heard| && forall i :: 0 <= i < |heard| ==> posts[i] == Read(heard[i], q, hostKey, enc, parse)
  {
    seq(|heard|, i requires 0 <= i < |heard| => Read(heard[i], q, hostKey, enc, parse))
  }

  /** A response that the search then accepts has passed every check. */
  lemma AcceptedPassed(x: Reception, q: Query, hostKey: Bytes, enc: Encoders, parse: Parser)
    requires var post := Read(x, q, hostKey, enc, parse); post.Responded? && post.answer.project == q.project && post.answer.kind == q.kind
    ensures x.Heard? && Taken(x.message, x.signature, q, hostKey, x.at, enc)
    ensures var r := parse(x.message.payload);
      r.Some? && Read(x, q, hostKey, enc, parse).answer == Answer(q.project, q.kind, r.value.ok, r.value.failure, r.value.decodes, r.value.data)
  {
    hide Verify;
  }

  /** What each reception reads as, check by check; a 403 replaces exactly the errors that would let the search go on. */
  lemma ReadExactly(x: Reception, q: Query, hostKey: Bytes, enc: Encoders, parse: Parser)
    ensures var post := Read(x, q, hostKey, enc, parse);
      match x
      case Lost(err) => post == Errored(err)
      case Garbled(forbidden) => post == Errored(if forbidden then Structured("lan_peer_required") else Plain)
      case Heard(m, sig, at, replayed, forbidden) =>
        var (error, r) := (Verify(m, sig, hostKey, at, 120_000_000_000, enc), parse(m.payload));
        if error == Some(ClockSkew) then post == Errored(Structured("clock_skew"))
        else if error != None then post == Errored(Structured("host_identity_mismatch"))
        else if m.verb != "POST" || m.path != "/v2/rpc" || m.replyTo != q.nonce then post == Errored(Structured("host_identity_mismatch"))
        else if r == None then post == Errored(if forbidden then Structured("lan_peer_required") else Plain)
        else if replayed then post == Errored(Structured("request_replayed"))
        else post == Responded(Answer(m.project, m.kind, r.value.ok, r.value.failure, r.value.decodes, r.value.data))
  {
    hide Verify;
  }

  /** An error after which the search goes on: a plain one, or one of two codes. */
  predicate GoesOn(p: Posted) {
    p.Errored? && (p.err.Plain? || p.err.code == "project_host_offline" || p.err.code == "lan_discovery_unavailable")
  }

  lemma DecisiveExactly(p: Posted)
    ensures Decisive(p) <==> !GoesOn(p)
  {
  }

  /** The verdict of a post that ends the search: success exactly for an ok result of the right Project and kind that decodes. */
  lemma JudgeExactly(p: Posted, project: string, kind: string)
    requires Decisive(p)
    ensures p.Errored? ==> Judge(p, project, kind) == Fail(p.err)
    ensures p.Responded? ==>
      var (a, v) := (p.answer, Judge(p, project, kind));
      var expected := a.project == project && a.kind == kind + ".response";
      && (v.Success? <==> expected && a.ok && a.decodes) && (v.Success? ==> v.data == a.data)
      && (!expected ==> v == Fail(Structured("host_identity_mismatch")))
      && (expected && !a.ok ==> v == Fail(if a.failure.Some? then a.failure.value else Plain))
      && (expected && a.ok && !a.decodes ==> v == Fail(Plain))
  {
  }

  // ---- The specification ---------------------------------------------------------------------
  // `net` lists what the network would make of post number 0, 1, 2 and so on.

  /** The first post that decides; |net| when none does. */
  function FirstDecisive(net: seq<Posted>): (n: nat)
    ensures n <= |net|
    ensures n < |net| ==> Decisive(net[n])
  {
    if net == [] || Decisive(net[0]) then 0 else 1 + FirstDecisive(net[1..])
  }

  lemma {:induction false} FirstDecisiveIs(net: seq<Posted>, n: nat)
    requires n <= |net| && (forall i :: 0 <= i < n ==> !Decisive(net[i])) && (n < |net| ==> Decisive(net[n]))
    ensures FirstDecisive(net) == n
  {
    if n > 0 {
      FirstDecisiveIs(net[1..], n - 1);
    }
  }

  lemma {:induction false} NothingEarlier(net: seq<Posted>, i: nat)
    requires i < FirstDecisive(net)
    ensures !Decisive(net[i])
  {
    if i > 0 {
      NothingEarlier(net[1..], i - 1);
    }
  }

  lemma {:induction false} FirstDecisiveConcat(a: seq<Posted>, b: seq<Posted>)
    ensures FirstDecisive(a + b) == if FirstDecisive(a) < |a| then FirstDecisive(a) else |a| + FirstDecisive(b)
  {
    if a == [] {
      assert a + b == b;
    } else {
      assert (a + b)[1..] == a[1..] + b;
      FirstDecisiveConcat(a[1..], b);
    }
  }

  /** Post `n` ends the search: the posts before it let it go on, and it does not. */
  predicate EndsAt(net: seq<Posted>, n: nat) {
    n < |net| && (forall i :: 0 <= i < n ==> GoesOn(net[i])) && !GoesOn(net[n])
  }

  lemma FirstDecisiveExactly(net: seq<Posted>)
    ensures forall n: nat :: EndsAt(net, n) ==> n < |net| && FirstDecisive(net) == n
    ensures (forall i :: 0 <= i < |net| ==> GoesOn(net[i])) ==> FirstDecisive(net) == |net|
  {
    forall i | 0 <= i < |net| ensures Decisive(net[i]) <==> !GoesOn(net[i]) {
      DecisiveExactly(net[i]);
    }
    forall n: nat | EndsAt(net, n) ensures FirstDecisive(net) == n {
      FirstDecisiveIs(net, n);
    }
    if forall i :: 0 <= i < |net| ==> GoesOn(net[i]) {
      FirstDecisiveIs(net, |net|);
    }
  }

  /** The second round's list: what discovery found, or the first list again when there is no discovery. */
  function SecondList(first: seq<string>, discover: Option<Discovery>): seq<string> {
    if discover.Some? then discover.value.endpoints else first
  }

  /** lastErr after posts that decided nothing. */
  function LastOf(net: seq<Posted>, last: Option<Err>): Option<Err> {
    if net != [] && net[|net| - 1].Errored? then Some(net[|net| - 1].err) else last
  }

  /** The error of a search that nothing decided; a discovery replaces the error that came before it. */
  function LastError(round1: seq<Posted>, round2: seq<Posted>, discover: Option<Discovery>): Err {
    var last := LastOf(round2, if discover.Some? then discover.value.err else LastOf(round1, None));
    if last.Some? then last.value else HOST_OFFLINE
  }

  /** A fold over the posts of both rounds in order: the first decisive one is the verdict. */
  function Search(round1: seq<Posted>, round2: seq<Posted>, discover: Option<Discovery>, project: string, kind: string): Verdict {
    var (all, n) := (round1 + round2, FirstDecisive(round1 + round2));
    if n < |all| then Judge(all[n], project, kind) else Fail(LastError(round1, round2, discover))
  }

  /** The fold, one round at a time. */
  lemma SearchByRounds(round1: seq<Posted>, round2: seq<Posted>, discover: Option<Discovery>, project: string, kind: string)
    ensures var (n, m) := (FirstDecisive(round1), FirstDecisive(round2));
      && FirstDecisive(round1 + round2) == (if n < |round1| then n else |round1| + m)
      && Search(round1, round2, discover, project, kind)
         == if n < |round1| then Judge(round1[n], project, kind)
            else if m < |round2| then Judge(round2[m], project, kind)
            else Fail(LastError(round1, round2, discover))
  {
    FirstDecisiveConcat(round1, round2);
    hide Judge, LastError, FirstDecisive, Decisive;
  }

  lemma VerdictsOfEnds(round1: seq<Posted>, round2: seq<Posted>, discover: Option<Discovery>, project: string, kind: string)
    ensures var all := round1 + round2;
      && (forall n: nat :: EndsAt(all, n) && all[n].Errored? ==> Search(round1, round2, discover, project, kind) == Fail(all[n].err))
      && ((forall i :: 0 <= i < |all| ==> GoesOn(all[i])) ==> Search(round1, round2, discover, project, kind).Fail?)
  {
    FirstDecisiveExactly(round1 + round2);
    hide FirstDecisive, LastError, Decisive, GoesOn;
  }

  // ---- Endpoints -----------------------------------------------------------------------------

  function Without(first: string, endpoints: seq<string>): seq<string> {
    if endpoints == [] then []
    else if endpoints[0] == first then Without(first, endpoints[1..])
    else [endpoints[0]] + Without(first, endpoints[1..])
  }

  lemma {:induction false} WithoutIs(first: string, endpoints: seq<string>)
    ensures forall e :: e in Without(first, endpoints) <==> e in endpoints && e != first
    ensures |Without(first, endpoints)| <= |endpoints|
    ensures first !in endpoints ==> Without(first, endpoints) == endpoints
  {
    if endpoints == [] {
    } else {
      WithoutIs(first, endpoints[1..]);
      assert forall e :: e in endpoints <==> e == endpoints[0] || e in endpoints[1..];
      assert endpoints == [endpoints[0]] + endpoints[1..];
    }
  }

  lemma {:induction false} WithoutSnoc(first: string, endpoints: seq<string>, e: string)
    ensures Without(first, endpoints + [e]) == Without(first, endpoints) + if e == first then [] else [e]
  {
    if endpoints == [] {
      assert [e][1..] == [];
    } else {
      assert (endpoints + [e])[1..] == endpoints[1..] + [e];
      WithoutSnoc(first, endpoints[1..], e);
    }
  }

  method PrioritizeEndpoint(first: string, endpoints: seq<string>) returns (result: seq<string>)
    ensures result == [first] + Without(first, endpoints)
    ensures forall e :: e in result <==> e == first || e in endpoints
  {
    result := [first];
    for i := 0 to |endpoints|
      invariant result == [first] + Without(first, endpoints[..i])
    {
      assert endpoints[..i + 1] == endpoints[..i] + [endpoints[i]];
      WithoutSnoc(first, endpoints[..i], endpoints[i]);
      if endpoints[i] != first {
        result := result + [endpoints[i]];
      }
    }
    assert endpoints[..|endpoints|] == endpoints;
    WithoutIs(first, endpoints);
  }

  class Client {
    const project: string
    const saved: seq<string>
    var endpoint: string
    var notified: seq<string>  // the calls of OnEndpoint

    constructor (project: string, saved: seq<string>)
      ensures this.project == project && this.saved == saved && endpoint == "" && notified == []
    {
      this.project, this.saved, endpoint, notified := project, saved, "", [];
    }

    function Known(): seq<string>
      reads this
    {
      if endpoint == "" then saved else [endpoint] + Without(endpoint, saved)
    }

    method Endpoints() returns (endpoints: seq<string>)
      ensures endpoints == Known()
    {
      if endpoint == "" {
        return saved;
      }
      endpoints := PrioritizeEndpoint(endpoint, saved);
    }

    /** The next search starts at `e`; the profile is told only when it did not already start there. */
    method RememberEndpoint(e: string)
      modifies this
      ensures endpoint == e && (e != "" ==> Known()[0] == e)
      ensures notified == if old(endpoint) != e && (saved == [] || saved[0] != e) then old(notified) + [e] else old(notified)
    {
      var changed := endpoint != e && (|saved| == 0 || saved[0] != e);
      endpoint := e;
      if changed {
        notified := notified + [e];
      }
    }

    /** One pass over a list; it stops at the first decisive post. */
    method Sweep(kind: string, net: seq<Posted>, endpoints: seq<string>, last: Option<Err>)
      returns (decided: Option<Verdict>, posted: nat, lastErr: Option<Err>)
      requires |net| == |endpoints|
      modifies this
      ensures var n := FirstDecisive(net);
        if n < |net| then
          && decided == Some(Judge(net[n], project, kind)) && posted == n + 1
          && (net[n].Responded? && net[n].answer.project == project && net[n].answer.kind == kind + ".response" && net[n].answer.ok ==>
              endpoint == endpoints[n])
          && (decided.value.Success? ==> endpoint == endpoints[n])
        else
          decided == None && posted == n && endpoint == old(endpoint) && lastErr == LastOf(net, last)
    {
      lastErr := last;
      for j := 0 to |endpoints|
        invariant forall i :: 0 <= i < j ==> !Decisive(net[i])
        invariant lastErr == LastOf(net[..j], last)
        invariant endpoint == old(endpoint)
      {
        match net[j] {
          case Errored(err) =>
            if Terminal(err) {
              FirstDecisiveIs(net, j);
              return Some(Fail(err)), j + 1, lastErr;
            }
            lastErr := Some(err);
          case Responded(a) =>
            FirstDecisiveIs(net, j);
            if a.project != project || a.kind != kind + ".response" {
              return Some(Fail(Structured("host_identity_mismatch"))), j + 1, lastErr;
            }
            if !a.ok {
              return Some(Fail(if a.failure.Some? then a.failure.value else Plain)), j + 1, lastErr;
            }
            RememberEndpoint(endpoints[j]);
            return Some(if a.decodes then Success(a.data) else Fail(Plain)), j + 1, lastErr;
        }
      }
      assert net[..|net|] == net;
      FirstDecisiveIs(net, |net|);
      decided, posted := None, |endpoints|;
    }

    /**
     * One signed message, at most one post per list entry, at most one discovery. Without cancellation the
     * verdict is that of the first decisive post over both lists, and nothing is posted after it.
     */
    method RPC(kind: string, round1: seq<Posted>, round2: seq<Posted>, discover: Option<Discovery>, canceled: nat -> bool)
      returns (verdict: Verdict, posted: nat, discoveries: nat)
      requires |round1| == |Known()| && |round2| == |SecondList(Known(), discover)|
      modifies this
      ensures var (n, m, size) := (FirstDecisive(round1 + round2), FirstDecisive(round1), |round1| + |round2|);
        && posted <= size && posted <= n + 1
        && (verdict != Canceled ==>
            verdict == Search(round1, round2, discover, project, kind) && posted == if n < size then n + 1 else size)
        && (verdict == Canceled ==> canceled(0) || canceled(1))
        && (verdict.Success? ==> posted > 0 && endpoint == (old(Known()) + SecondList(old(Known()), discover))[posted - 1])
        && discoveries == (if m == |round1| && !canceled(0) && discover.Some? then 1 else 0)
      ensures var all := round1 + round2;
        && (forall n: nat :: EndsAt(all, n) ==> posted <= n + 1)
        && (forall n: nat :: EndsAt(all, n) && verdict != Canceled ==> posted == n + 1 && (all[n].Errored? ==> verdict == Fail(all[n].err)))
        && ((forall i :: 0 <= i < |all| ==> GoesOn(all[i])) && verdict != Canceled ==> posted == |all| && verdict.Fail?)
    {
      FirstDecisiveExactly(round1 + round2);
      VerdictsOfEnds(round1, round2, discover, project, kind);
      var endpoints := Endpoints();
      ghost var first := endpoints;
      SearchByRounds(round1, round2, discover, project, kind);
      hide Search, FirstDecisive, Judge, LastOf, Without, GoesOn, EndsAt;
      var lastErr: Option<Err> := None;
      posted, discoveries := 0, 0;
      for attempt := 0 to 2
        invariant attempt == 0 ==> endpoints == first && posted == 0 && lastErr == None && discoveries == 0
        invariant attempt == 1 ==> endpoints == SecondList(first, discover) && posted == |round1|
                                   && lastErr == (if discover.Some? then discover.value.err else LastOf(round1, None))
        invariant attempt > 0 ==> FirstDecisive(round1) == |round1| && !canceled(0)
                                  && discoveries == (if discover.Some? then 1 else 0)
        invariant attempt == 2 ==> posted == |round1| + |round2| && FirstDecisive(round2) == |round2|
                                   && (if lastErr.Some? then lastErr.value else HOST_OFFLINE) == LastError(round1, round2, discover)
      {
        var decided, count, last := Sweep(kind, if attempt == 0 then round1 else round2, endpoints, lastErr);
        posted, lastErr := posted + count, last;
        if decided.Some? {
          assert endpoints[count - 1] == (first + SecondList(first, discover))[posted - 1];
          return decided.value, posted, discoveries;
        }
        if canceled(attempt) {
          return Canceled, posted, discoveries;
        }
        if attempt == 0 && discover.Some? {
          endpoints, lastErr := discover.value.endpoints, discover.value.err;
          discoveries := 1;
        }
      }
      verdict := Fail(if lastErr.Some? then lastErr.value else HOST_OFFLINE);
    }
  }

  // ---- Joining -------------------------------------------------------------------------------
  // postJoin answers nothing but a verified success; every refusal is one of its errors.

  function JoinVerdict(p: Posted): Verdict
    requires Decisive(p)
  {
    if p.Responded? then Success(p.answer.data) else Fail(p.err)
  }

  function JoinSearch(round1: seq<Posted>, round2: seq<Posted>, discover: Option<Discovery>): Verdict {
    var (all, n) := (round1 + round2, FirstDecisive(round1 + round2));
    if n < |all| then JoinVerdict(all[n]) else Fail(LastError(round1, round2, discover))
  }

  /** The endpoints of the new profile: those of the round that succeeded, with the one that answered in front. */
  function JoinedEndpoints(saved: seq<string>, discovered: seq<string>, n: nat): seq<string>
    requires n < |saved| + |discovered|
  {
    var e := (saved + discovered)[n];
    [e] + Without(e, if n < |saved| then saved else discovered)
  }

  method JoinSweep(net: seq<Posted>, last: Option<Err>) returns (decided: Option<Verdict>, posted: nat, lastErr: Option<Err>)
    ensures var n := FirstDecisive(net);
      if n < |net| then decided == Some(JoinVerdict(net[n])) && posted == n + 1
      else decided == None && posted == n && lastErr == LastOf(net, last)
  {
    lastErr := last;
    for j := 0 to |net|
      invariant forall i :: 0 <= i < j ==> !Decisive(net[i])
      invariant lastErr == LastOf(net[..j], last)
    {
      if net[j].Responded? || Terminal(net[j].err) {
        FirstDecisiveIs(net, j);
        return Some(JoinVerdict(net[j])), j + 1, lastErr;
      }
      lastErr := Some(net[j].err);
    }
    assert net[..|net|] == net;
    FirstDecisiveIs(net, |net|);
    decided, posted := None, |net|;
  }

  /** One signed join request, posted as RPC posts its message; the profile is made from the first decisive answer. */
  method Join(saved: seq<string>, round1: seq<Posted>, round2: seq<Posted>, discover: Option<Discovery>, canceled: nat -> bool)
    returns (verdict: Verdict, posted: nat, discoveries: nat, endpoints: seq<string>)
    requires |round1| == |saved| && |round2| == |SecondList(saved, discover)|
    ensures var (n, m, size) := (FirstDecisive(round1 + round2), FirstDecisive(round1), |round1| + |round2|);
      && posted <= size && posted <= n + 1
      && (verdict != Canceled ==> verdict == JoinSearch(round1, round2, discover) && posted == if n < size then n + 1 else size)
      && (verdict == Canceled ==> canceled(0) || canceled(1))
      && (verdict.Success? ==> posted > 0 && endpoints == JoinedEndpoints(saved, SecondList(saved, discover), posted - 1))
      && discoveries == (if m == |round1| && !canceled(0) && discover.Some? then 1 else 0)
    ensures var all := round1 + round2;
      && (forall n: nat :: EndsAt(all, n) ==> posted <= n + 1)
      && (forall n: nat :: EndsAt(all, n) && verdict != Canceled ==>
          posted == n + 1 && verdict == if all[n].Errored? then Fail(all[n].err) else Success(all[n].answer.data))
      && ((forall i :: 0 <= i < |all| ==> GoesOn(all[i])) && verdict != Canceled ==> posted == |all| && verdict.Fail?)
  {
    FirstDecisiveExactly(round1 + round2);
    FirstDecisiveConcat(round1, round2);
    hide FirstDecisive, LastOf, Without, Decisive, GoesOn;
    var lastErr: Option<Err> := None;
    endpoints, posted, discoveries := saved, 0, 0;
    for attempt := 0 to 2
      invariant attempt == 0 ==> endpoints == saved && posted == 0 && lastErr == None && discoveries == 0
      invariant attempt == 1 ==> endpoints == SecondList(saved, discover) && posted == |round1|
                                 && lastErr == (if discover.Some? then discover.value.err else LastOf(round1, None))
      invariant attempt > 0 ==> FirstDecisive(round1) == |round1| && !canceled(0)
                                && discoveries == (if discover.Some? then 1 else 0)
      invariant attempt == 2 ==> posted == |round1| + |round2| && FirstDecisive(round2) == |round2|
                                 && (if lastErr.Some? then lastErr.value else HOST_OFFLINE) == LastError(round1, round2, discover)
    {
      var decided, count, last := JoinSweep(if attempt == 0 then round1 else round2, lastErr);
      posted, lastErr := posted + count, last;
      if decided.Some? {
        assert endpoints[count - 1] == (saved + SecondList(saved, discover))[posted - 1];
        endpoints := PrioritizeEndpoint(endpoints[count - 1], endpoints);
        return decided.value, posted, discoveries, endpoints;
      }
      if canceled(attempt) {
        return Canceled, posted, discoveries, endpoints;
      }
      if attempt == 0 && discover.Some? {
        endpoints, lastErr := discover.value.endpoints, discover.value.err;
        discoveries := 1;
      }
    }
    verdict := Fail(if lastErr.Some? then lastErr.value else HOST_OFFLINE);
  }

  // ---- What the search means -----------------------------------------------------------------

  /** The verdict belongs to post `n` exactly when post `n` is decisive and no post before it is. */
  lemma VerdictOfFirst(round1: seq<Posted>, round2: seq<Posted>, discover: Option<Discovery>, project: string, kind: string, n: nat)
    requires n < |round1 + round2|
    ensures var all := round1 + round2;
      (FirstDecisive(all) == n <==> Decisive(all[n]) && forall i :: 0 <= i < n ==> !Decisive(all[i]))
    ensures FirstDecisive(round1 + round2) == n ==>
      Search(round1, round2, discover, project, kind) == Judge((round1 + round2)[n], project, kind)
  {
    var all := round1 + round2;
    if Decisive(all[n]) && forall i :: 0 <= i < n ==> !Decisive(all[i]) {
      FirstDecisiveIs(all, n);
    }
    if FirstDecisive(all) == n {
      forall i: nat | i < n ensures !Decisive(all[i]) {
        NothingEarlier(all, i);
      }
    }
  }

  /** An exhausted search ends with the last error, which is never terminal, or else as an offline host. */
  lemma ExhaustedSearch(round1: seq<Posted>, round2: seq<Posted>, discover: Option<Discovery>, project: string, kind: string)
    requires FirstDecisive(round1 + round2) == |round1 + round2|
    ensures Search(round1, round2, discover, project, kind) == Fail(LastError(round1, round2, discover))
    ensures round2 == [] && (if discover.Some? then discover.value.err.None? else round1 == []) ==>
      LastError(round1, round2, discover) == Structured("project_host_offline")
    ensures round2 != [] ==>
      round2[|round2| - 1] == Errored(LastError(round1, round2, discover)) && GoesOn(round2[|round2| - 1])
    ensures round2 == [] && discover.Some? && discover.value.err.Some? ==> LastError(round1, round2, discover) == discover.value.err.value
  {
    if round2 != [] {
      NothingEarlier(round1 + round2, |round1 + round2| - 1);
      DecisiveExactly(round2[|round2| - 1]);
    }
  }
}
