/** Which messages signed by the host read as the response to an RPC: line by line, and exactly. */
module Responses {
  import opened Base
  import opened Signing
  import Server

  /** What the client expects of a response: its Project, the kind it asked for with ".response", and its nonce. */
  datatype Query = Query(project: string, kind: string, nonce: string)

  const DOT_RESPONSE: string := ".response"

  predicate EndsAsResponse(kind: string) {
    |kind| > |DOT_RESPONSE| && kind[|kind| - |DOT_RESPONSE|..] == DOT_RESPONSE
  }

  predicate CleanQuery(q: Query) {
    Lacks(NEWLINE, q.project) && Lacks(NEWLINE, q.kind) && Lacks(NEWLINE, q.nonce) && EndsAsResponse(q.kind) && q.project != "" && q.nonce != ""
  }

  /** The client's checks of a verified message, route and nonce first, then Project and kind. */
  predicate Fits(x: SignedMessage, q: Query) {
    x.verb == Server.POST && x.path == Server.RPC_PATH && x.replyTo == q.nonce && x.project == q.project && x.kind == q.kind
  }

  /** Free of newlines in every field but ReplyTo, which repeats what somebody else sent. */
  predicate CleanButReplyTo(s: SignedMessage) {
    && Lacks(NEWLINE, s.project) && Lacks(NEWLINE, s.sender) && Lacks(NEWLINE, s.kind) && Lacks(NEWLINE, s.verb)
    && Lacks(NEWLINE, s.path) && Lacks(NEWLINE, s.nonce)
    && s.project != "" && s.sender != "" && s.nonce != ""
  }

  predicate Complete(x: SignedMessage) {
    x.schema == SCHEMA_VERSION && x.project != "" && x.sender != "" && x.kind != "" && x.verb != "" && x.path != "" && x.nonce != ""
  }

  // ---- Lines of a message --------------------------------------------------------------------

  const HEAD: string := "peerctx-message-v2"

  /** The lines from the sender to the nonce. */
  function Middle(m: SignedMessage): seq<string> {
    Flat(NEWLINE, [m.sender, m.kind, m.verb, m.path, m.replyTo, m.nonce])
  }

  lemma MessageLines(m: SignedMessage, enc: Encoders)
    requires Sound(enc) && Lacks(NEWLINE, m.project)
    ensures Split(NEWLINE, MessageBytes(m, enc)) == [HEAD, m.project] + Middle(m) + [enc.time(m.timestamp), enc.digest(m.payload)]
  {
    var (front, body, back) :=
      ([HEAD, m.project], [m.sender, m.kind, m.verb, m.path, m.replyTo, m.nonce], [enc.time(m.timestamp), enc.digest(m.payload)]);
    hide Flat, Split;
    SplitJoin(NEWLINE, MessageFields(m, enc));
    assert MessageFields(m, enc) == front + body + back;
    FlatConcat(NEWLINE, front + body, back);
    FlatConcat(NEWLINE, front, body);
    FlatClean(NEWLINE, front);
    FlatClean(NEWLINE, back);
  }

  lemma FlatSix(a: string, b: string, c: string, d: string, e: string, f: string)
    ensures Flat(NEWLINE, [a, b, c, d, e, f])
         == Split(NEWLINE, a) + Split(NEWLINE, b) + Split(NEWLINE, c) + Split(NEWLINE, d) + Split(NEWLINE, e) + Split(NEWLINE, f)
  {
    hide Split;
    FlatConcat(NEWLINE, [a, b, c, d, e], [f]);
    FlatConcat(NEWLINE, [a, b, c, d], [e]);
    FlatConcat(NEWLINE, [a, b, c], [d]);
    FlatConcat(NEWLINE, [a, b], [c]);
    FlatConcat(NEWLINE, [a], [b]);
    FlatOne(a);
    FlatOne(b);
    FlatOne(c);
    FlatOne(d);
    FlatOne(e);
    FlatOne(f);
    assert [a, b, c, d, e, f] == [a, b, c, d, e] + [f];
    assert [a, b, c, d, e] == [a, b, c, d] + [e];
    assert [a, b, c, d] == [a, b, c] + [d];
    assert [a, b, c] == [a, b] + [c];
    assert [a, b] == [a] + [b];
  }

  lemma FlatOne(a: string)
    ensures Flat(NEWLINE, [a]) == Split(NEWLINE, a)
  {
    assert [a][1..] == [];
    assert Flat(NEWLINE, []) == [];
  }

  /** The four lines that a response to the query has between its sender and its nonce. */
  function Window(q: Query): seq<string> {
    [q.kind, Server.POST, Server.RPC_PATH, q.nonce]
  }

  predicate Holds(lines: seq<string>, i: int, w: seq<string>) {
    0 <= i && i + |w| <= |lines| && lines[i..i + |w|] == w
  }

  lemma RouteIsClean()
    ensures Lacks(NEWLINE, Server.POST) && Lacks(NEWLINE, Server.GET) && Lacks(NEWLINE, Server.RPC_PATH)
  {
  }

  /** A message that fits the query has the window after its sender's lines. */
  lemma FittingLines(x: SignedMessage, q: Query)
    requires Fits(x, q) && CleanQuery(q)
    ensures Middle(x) == Split(NEWLINE, x.sender) + Window(q) + Split(NEWLINE, x.nonce)
  {
    RouteIsClean();
    FlatSix(x.sender, x.kind, x.verb, x.path, x.replyTo, x.nonce);
    SplitClean(NEWLINE, x.kind);
    SplitClean(NEWLINE, x.verb);
    SplitClean(NEWLINE, x.path);
    SplitClean(NEWLINE, x.replyTo);
    hide Split, Lacks, EndsAsResponse;
    assert [x.kind] + [x.verb] + [x.path] + [x.replyTo] == Window(q);
  }

  lemma CleanLines(s: SignedMessage)
    requires CleanButReplyTo(s)
    ensures Middle(s) == [s.sender, s.kind, s.verb, s.path] + Split(NEWLINE, s.replyTo) + [s.nonce]
  {
    FlatSix(s.sender, s.kind, s.verb, s.path, s.replyTo, s.nonce);
    SplitClean(NEWLINE, s.sender);
    SplitClean(NEWLINE, s.kind);
    SplitClean(NEWLINE, s.verb);
    SplitClean(NEWLINE, s.path);
    SplitClean(NEWLINE, s.nonce);
    hide Split, Lacks;
  }

  // ---- Reading one message as another --------------------------------------------------------

  /** `s` reads as a response to the query: some complete message that fits the query has its signing bytes. */
  ghost predicate ReadsAs(s: SignedMessage, q: Query, enc: Encoders) {
    exists x :: Reading(x, s, q, enc)
  }

  ghost predicate Reading(x: SignedMessage, s: SignedMessage, q: Query, enc: Encoders) {
    Complete(x) && Fits(x, q) && MessageBytes(x, enc) == MessageBytes(s, enc)
  }

  /** The window is among the middle lines of `s`, after at least one line and before at least one. */
  ghost predicate WindowIn(s: SignedMessage, q: Query) {
    exists i: nat :: 1 <= i < |Middle(s)| - 4 && Holds(Middle(s), i, Window(q))
  }

  lemma ReadingHasWindow(x: SignedMessage, s: SignedMessage, q: Query, enc: Encoders)
    requires Sound(enc) && CleanButReplyTo(s) && CleanQuery(q) && Reading(x, s, q, enc)
    ensures s.project == q.project && WindowIn(s, q) && x.timestamp == s.timestamp && enc.digest(x.payload) == enc.digest(s.payload)
  {
    MessageLines(x, enc);
    MessageLines(s, enc);
    FittingLines(x, q);
    var (a, b) := ([HEAD, x.project] + Middle(x) + [enc.time(x.timestamp), enc.digest(x.payload)],
                   [HEAD, s.project] + Middle(s) + [enc.time(s.timestamp), enc.digest(s.payload)]);
    hide Middle, Split, MessageBytes, Fits, CleanQuery, CleanButReplyTo, Complete;
    assert |a| == |b| && a[1] == b[1] && a[|a| - 2] == b[|b| - 2] && a[|a| - 1] == b[|b| - 1];
    assert Middle(x) == a[2..|a| - 2] == b[2..|b| - 2] == Middle(s);
    var i := |Split(NEWLINE, x.sender)|;
    assert Middle(s)[i..i + 4] == Window(q);
    assert Holds(Middle(s), i, Window(q));
  }

  lemma JoinNotEmpty(lines: seq<string>)
    requires |lines| > 0 && (lines[0] != "" || lines[|lines| - 1] != "")
    ensures Join(NEWLINE, lines) != ""
  {
    if |lines| > 1 {
      JoinSnoc(NEWLINE, lines);
    }
  }

  lemma LinesAreClean(s: SignedMessage)
    requires CleanButReplyTo(s)
    ensures forall line :: line in Middle(s) ==> Lacks(NEWLINE, line)
  {
    CleanLines(s);
    SplitClean(NEWLINE, s.replyTo);
    hide Split, Middle;
  }

  /** The message that the window makes of `s`: what stands before it is the sender, what stands after it the nonce. */
  function Reread(s: SignedMessage, q: Query, i: nat): SignedMessage
    requires 1 <= i < |Middle(s)| - 4
  {
    SignedMessage(SCHEMA_VERSION, q.project, Join(NEWLINE, Middle(s)[..i]), q.kind, Server.POST, Server.RPC_PATH, q.nonce,
                  Join(NEWLINE, Middle(s)[i + 4..]), s.timestamp, s.payload)
  }

  lemma MiddleEnds(s: SignedMessage)
    requires CleanButReplyTo(s)
    ensures |Middle(s)| > 5 && Middle(s)[0] == s.sender && Middle(s)[|Middle(s)| - 1] == s.nonce
  {
    CleanLines(s);
    hide Middle, Split;
  }

  lemma RereadEnds(s: SignedMessage, q: Query, i: nat)
    requires CleanButReplyTo(s) && 1 <= i < |Middle(s)| - 4
    ensures Split(NEWLINE, Reread(s, q, i).sender) == Middle(s)[..i] && Split(NEWLINE, Reread(s, q, i).nonce) == Middle(s)[i + 4..]
    ensures Reread(s, q, i).sender != "" && Reread(s, q, i).nonce != ""
  {
    MiddleEnds(s);
    LinesAreClean(s);
    hide Middle, Split, Join, Lacks;
    JoinNotEmpty(Middle(s)[..i]);
    JoinNotEmpty(Middle(s)[i + 4..]);
    SplitOfLines(NEWLINE, Middle(s)[..i]);
    SplitOfLines(NEWLINE, Middle(s)[i + 4..]);
  }

  lemma RereadLines(s: SignedMessage, q: Query, i: nat)
    requires CleanButReplyTo(s) && CleanQuery(q) && 1 <= i < |Middle(s)| - 4 && Holds(Middle(s), i, Window(q))
    ensures Middle(Reread(s, q, i)) == Middle(s)
    ensures Reread(s, q, i).sender != "" && Reread(s, q, i).nonce != ""
  {
    RereadEnds(s, q, i);
    FittingLines(Reread(s, q, i), q);
    hide Middle, Split, Window, CleanQuery, CleanButReplyTo;
    var middle := Middle(s);
    assert middle == middle[..i] + middle[i..i + 4] + middle[i + 4..];
  }

  lemma SameLines(x: SignedMessage, s: SignedMessage, enc: Encoders)
    requires Sound(enc) && Lacks(NEWLINE, s.project) && x.project == s.project && Middle(x) == Middle(s)
    requires x.timestamp == s.timestamp && x.payload == s.payload
    ensures MessageBytes(x, enc) == MessageBytes(s, enc)
  {
    hide Middle, Split, Join, MessageBytes;
    MessageLines(x, enc);
    MessageLines(s, enc);
    JoinSplit(NEWLINE, MessageBytes(x, enc));
    JoinSplit(NEWLINE, MessageBytes(s, enc));
  }

  lemma WindowGivesReading(s: SignedMessage, q: Query, i: nat, enc: Encoders)
    requires Sound(enc) && CleanButReplyTo(s) && CleanQuery(q) && s.project == q.project
    requires 1 <= i < |Middle(s)| - 4 && Holds(Middle(s), i, Window(q))
    ensures Reading(Reread(s, q, i), s, q, enc)
  {
    RereadLines(s, q, i);
    SameLines(Reread(s, q, i), s, enc);
    hide Middle, Split, Join, MessageBytes;
  }

  // ---- The exact condition -------------------------------------------------------------------

  /** The lines of ReplyTo hold the window of the query. */
  ghost predicate Echoed(replyTo: string, q: Query) {
    exists j: nat :: Holds(Split(NEWLINE, replyTo), j, Window(q))
  }

  /** A response to the RPC, by its kind and route. */
  predicate RespondsTo(s: SignedMessage, q: Query) {
    s.kind == q.kind && s.verb == Server.POST && s.path == Server.RPC_PATH
  }

  predicate PlainRoute(s: SignedMessage) {
    !EndsAsResponse(s.verb) && !EndsAsResponse(s.path)
  }

  lemma HoldsFour(lines: seq<string>, i: int, q: Query)
    ensures Holds(lines, i, Window(q)) <==>
      0 <= i <= |lines| - 4 && lines[i] == q.kind && lines[i + 1] == Server.POST && lines[i + 2] == Server.RPC_PATH && lines[i + 3] == q.nonce
  {
    if 0 <= i <= |lines| - 4 {
      assert lines[i..i + 4] == [lines[i], lines[i + 1], lines[i + 2], lines[i + 3]];
    }
  }

  lemma MiddleAt(s: SignedMessage)
    requires CleanButReplyTo(s)
    ensures var (lines, middle) := (Split(NEWLINE, s.replyTo), Middle(s));
      && |middle| == |lines| + 5 && middle[1] == s.kind && middle[2] == s.verb && middle[3] == s.path
      && forall k :: 0 <= k < |lines| ==> middle[k + 4] == lines[k]
  {
    CleanLines(s);
    hide Middle, Split;
  }

  /** Where the window can be: at the message's own kind, or inside ReplyTo. */
  lemma WindowPlaces(s: SignedMessage, q: Query, i: int)
    requires CleanButReplyTo(s) && CleanQuery(q) && PlainRoute(s)
    ensures 1 <= i < |Middle(s)| - 4 && Holds(Middle(s), i, Window(q)) <==>
      || (i == 1 && RespondsTo(s, q) && Split(NEWLINE, s.replyTo)[0] == q.nonce)
      || (i >= 4 && Holds(Split(NEWLINE, s.replyTo), i - 4, Window(q)))
  {
    MiddleAt(s);
    var (lines, middle) := (Split(NEWLINE, s.replyTo), Middle(s));
    HoldsFour(middle, i, q);
    HoldsFour(lines, i - 4, q);
    hide Split, Middle, EndsAsResponse, Lacks, Holds, Window;
    if 4 <= i <= |lines| {
      assert middle[(i - 4) + 4] == lines[i - 4] && middle[(i - 3) + 4] == lines[i - 3] && middle[(i - 2) + 4] == lines[i - 2]
          && middle[(i - 1) + 4] == lines[i - 1];
    }
    if i == 1 {
      assert middle[0 + 4] == lines[0];
    }
  }

  /** Exactly which signed messages read as a response to the query. */
  lemma ReadsAsExactly(s: SignedMessage, q: Query, enc: Encoders)
    requires Sound(enc) && CleanButReplyTo(s) && CleanQuery(q) && PlainRoute(s)
    ensures ReadsAs(s, q, enc) <==>
      s.project == q.project && ((RespondsTo(s, q) && Split(NEWLINE, s.replyTo)[0] == q.nonce) || Echoed(s.replyTo, q))
  {
    hide Middle, Split, Sound, CleanQuery, CleanButReplyTo, PlainRoute, MessageBytes;
    forall i: int ensures 1 <= i < |Middle(s)| - 4 && Holds(Middle(s), i, Window(q)) <==>
      || (i == 1 && RespondsTo(s, q) && Split(NEWLINE, s.replyTo)[0] == q.nonce)
      || (i >= 4 && Holds(Split(NEWLINE, s.replyTo), i - 4, Window(q)))
    {
      WindowPlaces(s, q, i);
    }
    if ReadsAs(s, q, enc) {
      var x :| Reading(x, s, q, enc);
      ReadingHasWindow(x, s, q, enc);
      var i: nat :| 1 <= i < |Middle(s)| - 4 && Holds(Middle(s), i, Window(q));
      if i >= 4 {
        assert Holds(Split(NEWLINE, s.replyTo), i - 4, Window(q));
      }
    }
    if s.project == q.project && RespondsTo(s, q) && Split(NEWLINE, s.replyTo)[0] == q.nonce {
      WindowPlaces(s, q, 1);
      WindowGivesReading(s, q, 1, enc);
    }
    if s.project == q.project && Echoed(s.replyTo, q) {
      var j: nat :| Holds(Split(NEWLINE, s.replyTo), j, Window(q));
      WindowPlaces(s, q, j + 4);
      WindowGivesReading(s, q, j + 4, enc);
    }
    hide Holds, Reading;
  }

  /** The host's own response to the message of the query. */
  predicate Own(s: SignedMessage, q: Query) {
    s.project == q.project && RespondsTo(s, q) && s.replyTo == q.nonce
  }

  /** It reads as a response to the query and is none: its ReplyTo goes on after the nonce, or holds the window. */
  ghost predicate Astray(s: SignedMessage, q: Query) {
    && s.project == q.project
    && ((RespondsTo(s, q) && Split(NEWLINE, s.replyTo)[0] == q.nonce && s.replyTo != q.nonce) || Echoed(s.replyTo, q))
  }

  lemma OwnOrAstray(s: SignedMessage, q: Query, enc: Encoders)
    requires Sound(enc) && CleanButReplyTo(s) && CleanQuery(q) && PlainRoute(s)
    ensures ReadsAs(s, q, enc) <==> Own(s, q) || Astray(s, q)
    ensures !(Own(s, q) && Astray(s, q))
  {
    ReadsAsExactly(s, q, enc);
    SplitClean(NEWLINE, s.replyTo);
    hide Split, EndsAsResponse, ReadsAs;
    if s.replyTo == q.nonce {
      assert Split(NEWLINE, s.replyTo) == [s.replyTo];
    }
  }

  /** Without a newline in ReplyTo nothing goes astray, whatever the query. */
  lemma NewlineFreeStays(s: SignedMessage, q: Query)
    requires Lacks(NEWLINE, s.replyTo)
    ensures !Astray(s, q)
  {
    SplitClean(NEWLINE, s.replyTo);
    hide Split;
  }

  // ---- All that a host signs -----------------------------------------------------------------

  /** The ok results that a host signs are newline-free but for ReplyTo, and have nonces of their own. */
  ghost predicate SignsCleanly(signed: set<SignedMessage>, ok: Bytes -> bool) {
    && (forall s :: s in signed && ok(s.payload) ==> CleanButReplyTo(s) && PlainRoute(s))
    && (forall s, t :: s in signed && t in signed && ok(s.payload) && ok(t.payload) && s.nonce == t.nonce ==> s == t)
  }

  ghost predicate Collisionless(enc: Encoders) {
    Sound(enc) && forall a, b :: enc.digest(a) == enc.digest(b) ==> a == b
  }

  /** Only the host has the host's key. */
  ghost predicate OnlyHostSigns(signed: set<SignedMessage>, sig: Signature, hostKey: Bytes, enc: Encoders) {
    sig.signer == hostKey ==> exists s :: s in signed && sig.over == MessageBytes(s, enc)
  }

  /** The client takes `x` for the response to its message. */
  predicate Taken(x: SignedMessage, sig: Signature, q: Query, hostKey: Bytes, now: int, enc: Encoders) {
    Verify(x, sig, hostKey, now, SIGNATURE_MAX_AGE, enc).None? && Fits(x, q)
  }

  /** Every ok result that is taken for the response to the query is the host's response to it. */
  ghost predicate AllGenuine(signed: set<SignedMessage>, ok: Bytes -> bool, q: Query, hostKey: Bytes, enc: Encoders) {
    forall x, sig, now :: Taken(x, sig, q, hostKey, now, enc) && OnlyHostSigns(signed, sig, hostKey, enc) && ok(x.payload) ==>
      exists s :: GenuineFor(s, x, sig, signed, q, enc)
  }

  ghost predicate GenuineFor(s: SignedMessage, x: SignedMessage, sig: Signature, signed: set<SignedMessage>, q: Query, enc: Encoders) {
    s in signed && Own(s, q) && s.payload == x.payload && sig.over == MessageBytes(s, enc)
  }

  lemma SamePayload(x: SignedMessage, s: SignedMessage, enc: Encoders)
    requires Collisionless(enc) && MessageBytes(x, enc) == MessageBytes(s, enc)
    ensures x.payload == s.payload
  {
    var (xs, ss) := (MessageFields(x, enc), MessageFields(s, enc));
    JoinSnoc(NEWLINE, xs);
    JoinSnoc(NEWLINE, ss);
    TailsAgree(NEWLINE, xs[9], ss[9], Join(NEWLINE, xs[..9]), Join(NEWLINE, ss[..9]));
  }

  lemma TakenIsGenuine(signed: set<SignedMessage>, ok: Bytes -> bool, x: SignedMessage, sig: Signature, q: Query, hostKey: Bytes, now: int,
                       enc: Encoders) returns (s: SignedMessage)
    requires Collisionless(enc) && SignsCleanly(signed, ok) && CleanQuery(q)
    requires Taken(x, sig, q, hostKey, now, enc) && OnlyHostSigns(signed, sig, hostKey, enc) && ok(x.payload)
    requires forall s :: s in signed && ok(s.payload) ==> !Astray(s, q)
    ensures GenuineFor(s, x, sig, signed, q, enc)
  {
    s :| s in signed && sig.over == MessageBytes(s, enc);
    SamePayload(x, s, enc);
    hide MessageBytes;
    assert Reading(x, s, q, enc);
    OwnOrAstray(s, q, enc);
    hide Own, Astray;
  }

  lemma SameNonce(s: SignedMessage, t: SignedMessage, enc: Encoders)
    requires Sound(enc) && CleanButReplyTo(s) && CleanButReplyTo(t) && MessageBytes(s, enc) == MessageBytes(t, enc)
    ensures s.nonce == t.nonce
  {
    MessageLines(s, enc);
    MessageLines(t, enc);
    CleanLines(s);
    CleanLines(t);
    var a := [HEAD, s.project] + Middle(s) + [enc.time(s.timestamp), enc.digest(s.payload)];
    var b := [HEAD, t.project] + Middle(t) + [enc.time(t.timestamp), enc.digest(t.payload)];
    hide Middle, Split, MessageBytes;
    assert a[|a| - 3] == s.nonce && b[|b| - 3] == t.nonce;
  }

  lemma AstrayIsTaken(signed: set<SignedMessage>, ok: Bytes -> bool, s: SignedMessage, q: Query, hostKey: Bytes, enc: Encoders)
    requires Collisionless(enc) && SignsCleanly(signed, ok) && CleanQuery(q) && |hostKey| == KEY_SIZE
    requires s in signed && ok(s.payload) && Astray(s, q)
    ensures !AllGenuine(signed, ok, q, hostKey, enc)
  {
    OwnOrAstray(s, q, enc);
    var x :| Reading(x, s, q, enc);
    var sig := Signature(hostKey, MessageBytes(s, enc));
    SamePayload(x, s, enc);
    hide Own, Astray, CleanQuery;
    assert Taken(x, sig, q, hostKey, x.timestamp, enc) && OnlyHostSigns(signed, sig, hostKey, enc);
    if AllGenuine(signed, ok, q, hostKey, enc) {
      var t :| GenuineFor(t, x, sig, signed, q, enc);
      SameNonce(s, t, enc);
      assert false;
    }
  }

  /**
   * Exactly when the client's checks are enough: every ok result it takes for the response to its message is the
   * host's own response to that message, if and only if no ok result that the host signed goes astray for it.
   */
  lemma AllGenuineExactly(signed: set<SignedMessage>, ok: Bytes -> bool, q: Query, hostKey: Bytes, enc: Encoders)
    requires Collisionless(enc) && SignsCleanly(signed, ok) && CleanQuery(q) && |hostKey| == KEY_SIZE
    ensures AllGenuine(signed, ok, q, hostKey, enc) <==> forall s :: s in signed && ok(s.payload) ==> !Astray(s, q)
  {
    hide Astray, Taken, OnlyHostSigns, GenuineFor, SignsCleanly, CleanQuery;
    if s :| s in signed && ok(s.payload) && Astray(s, q) {
      AstrayIsTaken(signed, ok, s, q, hostKey, enc);
    } else {
      forall x, sig, now | Taken(x, sig, q, hostKey, now, enc) && OnlyHostSigns(signed, sig, hostKey, enc) && ok(x.payload)
        ensures exists s :: GenuineFor(s, x, sig, signed, q, enc)
      {
        var s := TakenIsGenuine(signed, ok, x, sig, q, hostKey, now, enc);
      }
    }
  }
}
