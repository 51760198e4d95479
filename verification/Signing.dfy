/** The bytes that are signed, and why no other message has the same bytes. */
module Signing {
  import opened Base

  /** Fields with one separator between neighbours (the %s\n%s format strings, and the NUL-joined map keys). */
  function Join(sep: char, fields: seq<string>): string
    requires |fields| > 0
  {
    if |fields| == 1 then fields[0] else fields[0] + [sep] + Join(sep, fields[1..])
  }

  function Count(sep: char, s: string): nat {
    if s == "" then 0 else (if s[0] == sep then 1 else 0) + Count(sep, s[1..])
  }

  lemma {:induction false} CountConcat(sep: char, a: string, b: string)
    ensures Count(sep, a + b) == Count(sep, a) + Count(sep, b)
  {
    if a == "" {
      assert a + b == b;
    } else {
      assert (a + b)[1..] == a[1..] + b;
      CountConcat(sep, a[1..], b);
    }
  }

  lemma {:induction false} CountZero(sep: char, s: string)
    ensures Count(sep, s) == 0 <==> Lacks(sep, s)
  {
    if s != "" {
      CountZero(sep, s[1..]);
      assert s == [s[0]] + s[1..];
    }
  }

  lemma {:induction false} CountJoin(sep: char, fields: seq<string>)
    requires |fields| > 0
    ensures Count(sep, Join(sep, fields)) >= |fields| - 1
    ensures Count(sep, Join(sep, fields)) == |fields| - 1 <==> forall i :: 0 <= i < |fields| ==> Lacks(sep, fields[i])
  {
    CountZero(sep, fields[0]);
    if |fields| > 1 {
      var rest := Join(sep, fields[1..]);
      CountJoin(sep, fields[1..]);
      CountConcat(sep, fields[0] + [sep], rest);
      CountConcat(sep, fields[0], [sep]);
      assert Count(sep, [sep]) == 1;
      assert forall i :: 1 <= i < |fields| ==> fields[i] == fields[1..][i - 1];
      assert forall i :: 0 <= i < |fields| - 1 ==> fields[1..][i] == fields[i + 1];
    }
  }

  /** Two separator-free heads followed by a separator are equal when the whole texts are. */
  lemma HeadsAgree(sep: char, x: string, y: string, xs: string, ys: string)
    requires Lacks(sep, x) && Lacks(sep, y)
    requires x + [sep] + xs == y + [sep] + ys
    ensures x == y && xs == ys
  {
    var s := x + [sep] + xs;
    assert s[|x|] == sep && s[|y|] == sep;
    assert forall i :: 0 <= i < |x| ==> s[i] == x[i];
    assert forall i :: 0 <= i < |y| ==> s[i] == y[i];
    assert x == s[..|x|] && y == s[..|y|];
    assert xs == s[|x| + 1..] && ys == s[|y| + 1..];
  }

  lemma TailsAgree(sep: char, x: string, y: string, xs: string, ys: string)
    requires Lacks(sep, x) && Lacks(sep, y)
    requires xs + [sep] + x == ys + [sep] + y
    ensures x == y && xs == ys
  {
    var s := xs + [sep] + x;
    assert s[|xs|] == sep && s[|ys|] == sep;
    assert forall i :: |xs| < i < |s| ==> s[i] == x[i - |xs| - 1];
    assert forall i :: |ys| < i < |s| ==> s[i] == y[i - |ys| - 1];
    assert xs == s[..|xs|] && ys == s[..|ys|];
    assert x == s[|xs| + 1..] && y == s[|ys| + 1..];
  }

  lemma {:induction false} JoinSnoc(sep: char, fields: seq<string>)
    requires |fields| > 1
    ensures Join(sep, fields) == Join(sep, fields[..|fields| - 1]) + [sep] + fields[|fields| - 1]
  {
    if |fields| > 2 {
      JoinSnoc(sep, fields[1..]);
      assert fields[1..][..|fields| - 2] == fields[..|fields| - 1][1..];
    } else {
      assert fields[1..] == [fields[1]];
    }
  }

  /** Join, unrolled once at field `k`. */
  lemma JoinStep(sep: char, fields: seq<string>, k: nat)
    requires k < |fields|
    ensures Join(sep, fields[k..]) == if k == |fields| - 1 then fields[k] else fields[k] + [sep] + Join(sep, fields[k + 1..])
  {
    if k < |fields| - 1 {
      assert fields[k..][1..] == fields[k + 1..];
    }
  }

  /** One field may hold anything, at a known position; every other field is separator-free. */
  lemma {:induction false} JoinExcept(sep: char, xs: seq<string>, ys: seq<string>, k: nat)
    requires |xs| == |ys| && k < |xs|
    requires forall i :: 0 <= i < |xs| && i != k ==> Lacks(sep, xs[i]) && Lacks(sep, ys[i])
    requires Join(sep, xs) == Join(sep, ys)
    ensures xs == ys
    decreases |xs|
  {
    var n := |xs|;
    if n == 1 {
      assert xs == [xs[0]] && ys == [ys[0]];
    } else if k > 0 {
      HeadsAgree(sep, xs[0], ys[0], Join(sep, xs[1..]), Join(sep, ys[1..]));
      JoinExcept(sep, xs[1..], ys[1..], k - 1);
      assert xs == [xs[0]] + xs[1..] && ys == [ys[0]] + ys[1..];
    } else {
      JoinSnoc(sep, xs);
      JoinSnoc(sep, ys);
      TailsAgree(sep, xs[n - 1], ys[n - 1], Join(sep, xs[..n - 1]), Join(sep, ys[..n - 1]));
      JoinExcept(sep, xs[..n - 1], ys[..n - 1], 0);
      assert xs == xs[..n - 1] + [xs[n - 1]] && ys == ys[..n - 1] + [ys[n - 1]];
    }
  }

  /** A text joined from separator-free fields is joined from no other field list, separator-free or not. */
  lemma CleanJoinIsUnique(sep: char, xs: seq<string>, ys: seq<string>)
    requires |xs| == |ys| > 0
    requires forall i :: 0 <= i < |xs| ==> Lacks(sep, xs[i])
    requires Join(sep, xs) == Join(sep, ys)
    ensures xs == ys
  {
    CountJoin(sep, xs);
    CountJoin(sep, ys);
    JoinExcept(sep, xs, ys, 0);
  }

  // ---- Lines ---------------------------------------------------------------------------------

  /** One character more in front of the first line. */
  function Onto(sep: char, c: char, lines: seq<string>): seq<string>
    requires |lines| > 0
  {
    if c == sep then [""] + lines else [[c] + lines[0]] + lines[1..]
  }

  /** The pieces between separators. */
  function Split(sep: char, s: string): (lines: seq<string>)
    ensures |lines| > 0
  {
    if s == "" then [""] else Onto(sep, s[0], Split(sep, s[1..]))
  }

  lemma {:induction false} JoinSplit(sep: char, s: string)
    ensures Join(sep, Split(sep, s)) == s
  {
    if s != "" {
      JoinSplit(sep, s[1..]);
      var rest := Split(sep, s[1..]);
      if s[0] == sep {
        assert ([""] + rest)[1..] == rest;
      } else {
        assert ([[s[0]] + rest[0]] + rest[1..])[1..] == rest[1..];
      }
    }
  }

  lemma SplitFirst(sep: char, s: string)
    requires s != ""
    ensures Split(sep, s) == Onto(sep, s[0], Split(sep, s[1..]))
  {
  }

  lemma OntoConcat(sep: char, c: char, lines: seq<string>, tail: seq<string>)
    requires |lines| > 0
    ensures Onto(sep, c, lines + tail) == Onto(sep, c, lines) + tail
  {
    assert (lines + tail)[1..] == lines[1..] + tail;
  }

  lemma {:induction false} SplitAcross(sep: char, a: string, b: string)
    ensures Split(sep, a + [sep] + b) == Split(sep, a) + Split(sep, b)
  {
    var s := a + [sep] + b;
    if a == "" {
      assert s == [sep] + b && s[1..] == b;
    } else {
      hide Split, Onto;
      assert s[0] == a[0] && s[1..] == a[1..] + [sep] + b;
      SplitFirst(sep, s);
      SplitFirst(sep, a);
      SplitAcross(sep, a[1..], b);
      OntoConcat(sep, a[0], Split(sep, a[1..]), Split(sep, b));
    }
  }

  lemma {:induction false} SplitClean(sep: char, s: string)
    ensures Split(sep, s) == [s] <==> Lacks(sep, s)
    ensures forall line :: line in Split(sep, s) ==> Lacks(sep, line)
  {
    if s != "" {
      SplitClean(sep, s[1..]);
      assert s == [s[0]] + s[1..];
      var rest := Split(sep, s[1..]);
      assert rest[0] in rest;
      assert forall line :: line in rest[1..] ==> line in rest;
      if Split(sep, s) == [s] && s[0] != sep {
        assert rest[1..] == [] && rest == [rest[0]];
        assert Split(sep, s)[0] == s && rest[0] == s[1..];
      }
    }
  }

  /** Joined lines come apart into the same lines. */
  lemma {:induction false} SplitOfLines(sep: char, lines: seq<string>)
    requires |lines| > 0 && forall line :: line in lines ==> Lacks(sep, line)
    ensures Split(sep, Join(sep, lines)) == lines
  {
    SplitClean(sep, lines[0]);
    if |lines| > 1 {
      SplitAcross(sep, lines[0], Join(sep, lines[1..]));
      SplitOfLines(sep, lines[1..]);
      assert lines == [lines[0]] + lines[1..];
    } else {
      assert lines == [lines[0]];
    }
  }

  function Flat(sep: char, fields: seq<string>): seq<string> {
    if fields == [] then [] else Split(sep, fields[0]) + Flat(sep, fields[1..])
  }

  lemma {:induction false} SplitJoin(sep: char, fields: seq<string>)
    requires |fields| > 0
    ensures Split(sep, Join(sep, fields)) == Flat(sep, fields)
  {
    if |fields| == 1 {
      assert Flat(sep, fields[1..]) == [];
    } else {
      SplitJoin(sep, fields[1..]);
      SplitAcross(sep, fields[0], Join(sep, fields[1..]));
    }
  }

  lemma {:induction false} FlatConcat(sep: char, a: seq<string>, b: seq<string>)
    ensures Flat(sep, a + b) == Flat(sep, a) + Flat(sep, b)
  {
    if a == [] {
      assert a + b == b;
    } else {
      assert (a + b)[1..] == a[1..] + b;
      FlatConcat(sep, a[1..], b);
    }
  }

  lemma {:induction false} FlatClean(sep: char, fields: seq<string>)
    requires forall f :: f in fields ==> Lacks(sep, f)
    ensures Flat(sep, fields) == fields
  {
    if fields != [] {
      SplitClean(sep, fields[0]);
      FlatClean(sep, fields[1..]);
      assert fields == [fields[0]] + fields[1..];
    }
  }

  ghost predicate Unambiguous(sep: char, n: nat, free: set<nat>)
    requires n > 0
  {
    forall xs: seq<string>, ys: seq<string> ::
      && |xs| == |ys| == n
      && (forall i :: 0 <= i < n && i !in free ==> Lacks(sep, xs[i]) && Lacks(sep, ys[i]))
      && Join(sep, xs) == Join(sep, ys)
      ==> xs == ys
  }

  ghost function Blank(n: nat): (r: seq<string>)
    ensures |r| == n
  {
    seq(n, _ => "")
  }

  lemma {:induction false} JoinOneSeparator(sep: char, n: nat, i: nat)
    requires i < n
    ensures Join(sep, Blank(n)[i := [sep]]) == seq(n, _ => sep)
    decreases n
  {
    var fields := Blank(n)[i := [sep]];
    if n > 1 {
      if i > 0 {
        assert fields[1..] == Blank(n - 1)[i - 1 := [sep]];
        JoinOneSeparator(sep, n - 1, i - 1);
      } else {
        assert fields[1..] == Blank(n - 1);
        JoinBlank(sep, n - 1);
      }
    }
  }

  lemma {:induction false} JoinBlank(sep: char, n: nat)
    requires n > 0
    ensures Join(sep, Blank(n)) == seq(n - 1, _ => sep)
    decreases n
  {
    if n > 1 {
      assert Blank(n)[1..] == Blank(n - 1);
      JoinBlank(sep, n - 1);
    }
  }

  /** A separator-joined format is unambiguous exactly when at most one field may contain the separator. */
  lemma UnambiguousExactly(sep: char, n: nat, free: set<nat>)
    requires n > 0 && forall i :: i in free ==> i < n
    ensures Unambiguous(sep, n, free) <==> |free| <= 1
  {
    if |free| <= 1 {
      var k: nat := if free == {} then 0 else var k :| k in free; k;
      assert free <= {k} by {
        if free != {} {
          assert |free - {k}| == 0;
        }
      }
      forall xs: seq<string>, ys: seq<string> |
        && |xs| == |ys| == n
        && (forall i :: 0 <= i < n && i !in free ==> Lacks(sep, xs[i]) && Lacks(sep, ys[i]))
        && Join(sep, xs) == Join(sep, ys)
        ensures xs == ys
      {
        JoinExcept(sep, xs, ys, k);
      }
    } else {
      var i :| i in free;
      assert |free - {i}| > 0;
      var j :| j in free - {i};
      var xs, ys := Blank(n)[i := [sep]], Blank(n)[j := [sep]];
      JoinOneSeparator(sep, n, i);
      JoinOneSeparator(sep, n, j);
      assert xs[i] != ys[i];
    }
  }

  // ---- Map keys ------------------------------------------------------------------------------

  function ProviderKey(project: string, agent: string): string {
    Join(NUL, [project, agent])
  }

  function GuardKey(project: string, sender: string, nonce: string): string {
    Join(NUL, [project, sender, nonce])
  }

  lemma ProviderKeyInjective(p: string, a: string, q: string, b: string)
    requires Lacks(NUL, p) && Lacks(NUL, q)
    requires ProviderKey(p, a) == ProviderKey(q, b)
    ensures p == q && a == b
  {
    JoinExcept(NUL, [p, a], [q, b], 1);
    assert [p, a][0] == [q, b][0] && [p, a][1] == [q, b][1];
  }

  lemma GuardKeyInjective(p: string, s: string, n: string, q: string, t: string, m: string)
    requires Lacks(NUL, p) && Lacks(NUL, q) && Lacks(NUL, s) && Lacks(NUL, t)
    requires GuardKey(p, s, n) == GuardKey(q, t, m)
    ensures p == q && s == t && n == m
  {
    var xs, ys := [p, s, n], [q, t, m];
    JoinExcept(NUL, xs, ys, 2);
    assert xs[0] == ys[0] && xs[1] == ys[1] && xs[2] == ys[2];
  }

  // ---- Signed messages -----------------------------------------------------------------------

  /** Text encodings the code takes from libraries: RFC 3339 time, base64url key, hex digest. */
  datatype Encoders = Encoders(time: int -> string, key: Bytes -> string, digest: Bytes -> string)

  ghost predicate Sound(enc: Encoders) {
    && (forall t :: Lacks(NEWLINE, enc.time(t)))
    && (forall t, u :: enc.time(t) == enc.time(u) ==> t == u)
    && (forall k :: Lacks(NEWLINE, enc.key(k)))
    && (forall k, l :: enc.key(k) == enc.key(l) ==> k == l)
    && (forall b :: Lacks(NEWLINE, enc.digest(b)))
  }

  datatype SignedMessage = SignedMessage(schema: int, project: string, sender: string, kind: string, verb: string,
                                         path: string, replyTo: string, nonce: string, timestamp: int, payload: Bytes)

  datatype JoinRequest = JoinRequest(schema: int, project: string, inviteId: string, memberName: string,
                                     memberKey: Bytes, verb: string, path: string, nonce: string, timestamp: int)

  function MessageFields(m: SignedMessage, enc: Encoders): (r: seq<string>)
    ensures |r| == 10
  {
    ["peerctx-message-v2", m.project, m.sender, m.kind, m.verb, m.path, m.replyTo, m.nonce,
     enc.time(m.timestamp), enc.digest(m.payload)]
  }

  function JoinFields(j: JoinRequest, enc: Encoders): (r: seq<string>)
    ensures |r| == 9
  {
    ["peerctx-join-v2", j.project, j.inviteId, j.memberName, enc.key(j.memberKey), j.verb, j.path, j.nonce,
     enc.time(j.timestamp)]
  }

  function MessageBytes(m: SignedMessage, enc: Encoders): string {
    Join(NEWLINE, MessageFields(m, enc))
  }

  function JoinBytes(j: JoinRequest, enc: Encoders): string {
    Join(NEWLINE, JoinFields(j, enc))
  }

  predicate CleanMessage(m: SignedMessage) {
    && Lacks(NEWLINE, m.project) && Lacks(NEWLINE, m.sender) && Lacks(NEWLINE, m.kind) && Lacks(NEWLINE, m.verb)
    && Lacks(NEWLINE, m.path) && Lacks(NEWLINE, m.replyTo) && Lacks(NEWLINE, m.nonce)
  }

  // Every field but the member name.
  predicate CleanJoin(j: JoinRequest) {
    && Lacks(NEWLINE, j.project) && Lacks(NEWLINE, j.inviteId) && Lacks(NEWLINE, j.verb)
    && Lacks(NEWLINE, j.path) && Lacks(NEWLINE, j.nonce)
  }

  /** Equal in everything a signature covers: all fields but the schema version, and the payload's digest. */
  predicate SameSignedFields(m: SignedMessage, n: SignedMessage, enc: Encoders) {
    && m.project == n.project && m.sender == n.sender && m.kind == n.kind && m.verb == n.verb && m.path == n.path
    && m.replyTo == n.replyTo && m.nonce == n.nonce && m.timestamp == n.timestamp
    && enc.digest(m.payload) == enc.digest(n.payload)
  }

  /** Only `m` need be newline-free: nothing else, however crafted, has its signing bytes. */
  lemma MessageBytesUnambiguous(m: SignedMessage, n: SignedMessage, enc: Encoders)
    requires Sound(enc) && CleanMessage(m)
    ensures MessageBytes(m, enc) == MessageBytes(n, enc) <==> SameSignedFields(m, n, enc)
  {
    var xs, ys := MessageFields(m, enc), MessageFields(n, enc);
    if Join(NEWLINE, xs) == Join(NEWLINE, ys) {
      CleanJoinIsUnique(NEWLINE, xs, ys);
      assert xs[1] == ys[1] && xs[2] == ys[2] && xs[3] == ys[3] && xs[4] == ys[4] && xs[5] == ys[5];
      assert xs[6] == ys[6] && xs[7] == ys[7] && xs[8] == ys[8] && xs[9] == ys[9];
    }
  }

  /** The member name is free text, and it is the only field that may be. */
  lemma JoinBytesUnambiguous(j: JoinRequest, k: JoinRequest, enc: Encoders)
    requires Sound(enc) && CleanJoin(j) && CleanJoin(k)
    ensures JoinBytes(j, enc) == JoinBytes(k, enc) <==> j.(schema := 0) == k.(schema := 0)
  {
    var xs, ys := JoinFields(j, enc), JoinFields(k, enc);
    if Join(NEWLINE, xs) == Join(NEWLINE, ys) {
      JoinExcept(NEWLINE, xs, ys, 3);
      assert xs[1] == ys[1] && xs[2] == ys[2] && xs[3] == ys[3] && xs[4] == ys[4];
      assert xs[5] == ys[5] && xs[6] == ys[6] && xs[7] == ys[7] && xs[8] == ys[8];
    }
  }

  /** A signature over one kind of message never serves for the other, whatever the fields hold. */
  lemma KindsNeverCoincide(m: SignedMessage, j: JoinRequest, enc: Encoders)
    ensures MessageBytes(m, enc) != JoinBytes(j, enc)
  {
    assert MessageBytes(m, enc)[8] == 'm';
    assert JoinBytes(j, enc)[8] == 'j';
  }

  // ---- Verification --------------------------------------------------------------------------

  /** Ed25519 is not interpreted: a signature is the signer's public key and the bytes it was made over. */
  datatype Signature = Signature(signer: Bytes, over: string)

  datatype VerifyError = Incomplete | BadKey | ClockSkew | SignatureInvalid

  function Verify(m: SignedMessage, sig: Signature, key: Bytes, now: int, maxAge: int, enc: Encoders): Option<VerifyError> {
    if m.schema != SCHEMA_VERSION || m.project == "" || m.sender == "" || m.kind == "" || m.verb == ""
       || m.path == "" || m.nonce == "" then Some(Incomplete)
    else if |key| != KEY_SIZE then Some(BadKey)
    else if now - m.timestamp > maxAge || now - m.timestamp < -maxAge then Some(ClockSkew)
    else if sig != Signature(key, MessageBytes(m, enc)) then Some(SignatureInvalid)
    else None
  }

  /** JoinRequest.Verify. */
  function VerifyJoin(j: JoinRequest, sig: Signature, key: Bytes, now: int, maxAge: int, enc: Encoders): Option<VerifyError> {
    if j.schema != SCHEMA_VERSION || j.project == "" || j.inviteId == "" || IsBlank(j.memberName) || j.verb == "" || j.path == "" || j.nonce == ""
    then Some(Incomplete)
    else if |j.memberKey| != KEY_SIZE then Some(BadKey)
    else if now - j.timestamp > maxAge || now - j.timestamp < -maxAge then Some(ClockSkew)
    else if sig != Signature(key, JoinBytes(j, enc)) then Some(SignatureInvalid)
    else None
  }

  /** Which error a message gets: the first check that it fails, in this order. */
  lemma VerifyErrors(m: SignedMessage, sig: Signature, key: Bytes, now: int, maxAge: int, enc: Encoders)
    ensures var error := Verify(m, sig, key, now, maxAge, enc);
      var complete := m.schema == 2 && "" !in [m.project, m.sender, m.kind, m.verb, m.path, m.nonce];
      var (keyed, timely) := (|key| == 32, -maxAge <= now - m.timestamp <= maxAge);
      && (error == Some(Incomplete) <==> !complete)
      && (error == Some(BadKey) <==> complete && !keyed)
      && (error == Some(ClockSkew) <==> complete && keyed && !timely)
      && (error == Some(SignatureInvalid) <==> complete && keyed && timely && !(sig.signer == key && sig.over == MessageBytes(m, enc)))
      && (error == None <==> complete && keyed && timely && sig.signer == key && sig.over == MessageBytes(m, enc))
  {
  }

  /** Likewise for a join, whose own key has to have the right size. */
  lemma VerifyJoinErrors(j: JoinRequest, sig: Signature, key: Bytes, now: int, maxAge: int, enc: Encoders)
    ensures var error := VerifyJoin(j, sig, key, now, maxAge, enc);
      var complete := j.schema == 2 && "" !in [j.project, j.inviteId, j.verb, j.path, j.nonce] && TrimSpace(j.memberName) != "";
      var (keyed, timely) := (|j.memberKey| == 32, -maxAge <= now - j.timestamp <= maxAge);
      && (error == Some(Incomplete) <==> !complete)
      && (error == Some(BadKey) <==> complete && !keyed)
      && (error == Some(ClockSkew) <==> complete && keyed && !timely)
      && (error == Some(SignatureInvalid) <==> complete && keyed && timely && !(sig.signer == key && sig.over == JoinBytes(j, enc)))
      && (error == None <==> complete && keyed && timely && sig.signer == key && sig.over == JoinBytes(j, enc))
  {
    BlankIsTrimmed(j.memberName);
    hide TrimSpace, IsBlank, JoinBytes;
  }

  /** The texts that are signed, and the map keys, spelled out. */
  lemma MessageFormat(m: SignedMessage, enc: Encoders)
    ensures MessageBytes(m, enc) ==
      "peerctx-message-v2" + "\n" + (m.project + "\n" + (m.sender + "\n" + (m.kind + "\n" + (m.verb + "\n" + (m.path + "\n"
      + (m.replyTo + "\n" + (m.nonce + "\n" + (enc.time(m.timestamp) + "\n" + enc.digest(m.payload)))))))))
  {
    var fields := MessageFields(m, enc);
    assert fields[0..] == fields;
    hide Join;
    JoinStep(NEWLINE, fields, 0);
    JoinStep(NEWLINE, fields, 1);
    JoinStep(NEWLINE, fields, 2);
    JoinStep(NEWLINE, fields, 3);
    JoinStep(NEWLINE, fields, 4);
    JoinStep(NEWLINE, fields, 5);
    JoinStep(NEWLINE, fields, 6);
    JoinStep(NEWLINE, fields, 7);
    JoinStep(NEWLINE, fields, 8);
    JoinStep(NEWLINE, fields, 9);
  }

  lemma JoinFormat(j: JoinRequest, enc: Encoders)
    ensures JoinBytes(j, enc) ==
      "peerctx-join-v2" + "\n" + (j.project + "\n" + (j.inviteId + "\n" + (j.memberName + "\n" + (enc.key(j.memberKey) + "\n"
      + (j.verb + "\n" + (j.path + "\n" + (j.nonce + "\n" + enc.time(j.timestamp))))))))
  {
    var fields := JoinFields(j, enc);
    assert fields[0..] == fields;
    hide Join;
    JoinStep(NEWLINE, fields, 0);
    JoinStep(NEWLINE, fields, 1);
    JoinStep(NEWLINE, fields, 2);
    JoinStep(NEWLINE, fields, 3);
    JoinStep(NEWLINE, fields, 4);
    JoinStep(NEWLINE, fields, 5);
    JoinStep(NEWLINE, fields, 6);
    JoinStep(NEWLINE, fields, 7);
    JoinStep(NEWLINE, fields, 8);
  }

  lemma KeyFormats(p: string, a: string, n: string)
    ensures ProviderKey(p, a) == p + "\0" + a && GuardKey(p, a, n) == p + "\0" + (a + "\0" + n)
  {
    hide Join;
    assert [p, a][0..] == [p, a] && [p, a, n][0..] == [p, a, n];
    JoinStep(NUL, [p, a], 0);
    JoinStep(NUL, [p, a], 1);
    JoinStep(NUL, [p, a, n], 0);
    JoinStep(NUL, [p, a, n], 1);
    JoinStep(NUL, [p, a, n], 2);
  }

  /** A signature made over clean message `m` verifies `n` exactly when `n` is `m` up to an equal payload digest. */
  lemma VerifiesOnlyWhatWasSigned(m: SignedMessage, n: SignedMessage, signer: Bytes, key: Bytes, now: int, maxAge: int,
                                  enc: Encoders)
    requires Sound(enc) && CleanMessage(m)
    requires m.project != "" && m.sender != "" && m.kind != "" && m.verb != "" && m.path != "" && m.nonce != ""
    ensures Verify(n, Signature(signer, MessageBytes(m, enc)), key, now, maxAge, enc) == None
       <==> && SameSignedFields(m, n, enc) && n.schema == SCHEMA_VERSION
            && key == signer && |key| == KEY_SIZE
            && -maxAge <= now - m.timestamp <= maxAge
  {
    MessageBytesUnambiguous(m, n, enc);
  }
}
