/** Creating, encoding and decoding invitations. */
module Invitations {
  import opened Base
  import opened Tables
  import StoreInvariants

  const INT64: int := 0x1_0000_0000_0000_0000

  /** int64 arithmetic: the value congruent modulo 2^64 in [-2^63, 2^63). */
  function Wrap(x: int): (w: int)
    ensures -INT64 / 2 <= w < INT64 / 2 && (w - x) % INT64 == 0
  {
    (x + INT64 / 2) % INT64 - INT64 / 2
  }

  /** time.Duration(TTLSeconds) * time.Second */
  function Asked(ttlSeconds: int): int {
    Wrap(ttlSeconds * SECOND)
  }

  function Ttl(ttlSeconds: int): int {
    if ttlSeconds > 0 && Asked(ttlSeconds) <= HOUR then Asked(ttlSeconds) else DEFAULT_INVITE_TTL
  }

  lemma WrapIsIdentity(x: int)
    requires -INT64 / 2 <= x < INT64 / 2
    ensures Wrap(x) == x
  {
  }

  /** The largest number of seconds whose nanoseconds fit an int64. */
  const MAX_SECONDS: int := 9_223_372_036

  /**
   * Whatever number is sent, an invitation lasts at most one hour. From one second to one hour it lasts what was asked,
   * and otherwise ten minutes, as long as the product does not wrap.
   */
  lemma TtlAtMostOneHour(ttlSeconds: int)
    ensures Ttl(ttlSeconds) <= 3_600_000_000_000
    ensures 1 <= ttlSeconds <= 3600 ==> Ttl(ttlSeconds) == ttlSeconds * 1_000_000_000
    ensures ttlSeconds <= 0 || 3600 < ttlSeconds <= MAX_SECONDS ==> Ttl(ttlSeconds) == 600_000_000_000
  {
    if 1 <= ttlSeconds <= MAX_SECONDS {
      WrapIsIdentity(ttlSeconds * SECOND);
    }
  }

  /** What the two branches are meant to say: the time asked for, when that is at most an hour, and ten minutes otherwise. */
  function Meant(ttlSeconds: int): int {
    if 1 <= ttlSeconds && ttlSeconds * SECOND <= HOUR then ttlSeconds * SECOND else DEFAULT_INVITE_TTL
  }

  /** That is what an invitation gets exactly when the product passes the test as what it is, or comes to ten minutes by chance. */
  lemma TtlAsMeantExactly(ttlSeconds: int)
    requires -INT64 / 2 <= ttlSeconds < INT64 / 2
    ensures Ttl(ttlSeconds) == Meant(ttlSeconds) <==>
      ttlSeconds <= MAX_SECONDS || Asked(ttlSeconds) > HOUR || Asked(ttlSeconds) == DEFAULT_INVITE_TTL
  {
    if 0 <= ttlSeconds <= MAX_SECONDS {
      WrapIsIdentity(ttlSeconds * SECOND);
    }
  }

  /** The product does wrap: this many seconds make an invitation that has expired before it is sent. */
  lemma TtlMayWrap()
    ensures 0 < 9_223_372_037 < INT64 / 2 && Ttl(9_223_372_037) < 0
  {
    assert 9_223_372_037 * SECOND == 9_223_372_037_000_000_000;
    assert Asked(9_223_372_037) == 9_223_372_037_000_000_000 - INT64;
  }

  /** createInvitation stores its invitations with this expiry. */
  predicate CreatedAt(op: Op, t: int, ttlSeconds: int) {
    op.AddInvitationOp? && op.expiresAt == t + Ttl(ttlSeconds)
  }

  /**
   * When every invitation was stored by createInvitation, `times` and `ttls` being its clock readings and inputs,
   * whoever is admitted is admitted less than an hour after the invitation was created.
   */
  lemma AdmittedWithinTheHour(ops: seq<Op>, times: seq<int>, ttls: seq<int>, join: Join, now: int) returns (i: nat)
    requires |times| == |ttls| == |ops|
    requires forall k :: 0 <= k < |ops| && ops[k].AddInvitationOp? ==> CreatedAt(ops[k], times[k], ttls[k])
    requires ConsumeInvitation(Run(ops), join, now).1.None?
    ensures i < |ops| && ops[i].AddInvitationOp? && ops[i].p == join.request.project && ops[i].inv == join.request.inviteId
    ensures now < times[i] + Ttl(ttls[i]) <= times[i] + 3_600_000_000_000
  {
    i := StoreInvariants.AdmittedBeforeExpiry(ops, join, now);
    TtlAtMostOneHour(ttls[i]);
  }

  // ---- The invitation text -------------------------------------------------------------------

  datatype Invitation = Invitation(schema: int, protocol: string, project: string, projectName: string, endpoints: seq<string>,
                                   hostKey: Bytes, inviteId: string, privateKey: Bytes, expiresAt: int)

  datatype InviteError = UnsupportedVersion | Incomplete | NoEndpoint | BadKeys | Expired | BadPrefix | BadText

  const PREFIX: string := "peerctx2_"
  const PRIVATE_KEY_SIZE: nat := 64

  function Validate(i: Invitation, now: int): Option<InviteError> {
    if i.schema != SCHEMA_VERSION || i.protocol != "v2" then Some(UnsupportedVersion)
    else if i.project == "" || IsBlank(i.projectName) || i.inviteId == "" then Some(Incomplete)
    else if |i.endpoints| == 0 then Some(NoEndpoint)
    else if |i.hostKey| != KEY_SIZE || |i.privateKey| != PRIVATE_KEY_SIZE then Some(BadKeys)
    else if i.expiresAt <= now then Some(InviteError.Expired)
    else None
  }

  /** Which error an invitation gets: the first check that it fails, in this order. */
  lemma ValidateExactly(i: Invitation, now: int)
    ensures var error := Validate(i, now);
      var current := i.schema == 2 && i.protocol == "v2";
      var named := i.project != "" && TrimSpace(i.projectName) != "" && i.inviteId != "";
      var (reachable, keyed) := (i.endpoints != [], |i.hostKey| == 32 && |i.privateKey| == 64);
      && (error == Some(UnsupportedVersion) <==> !current)
      && (error == Some(InviteError.Incomplete) <==> current && !named)
      && (error == Some(NoEndpoint) <==> current && named && !reachable)
      && (error == Some(BadKeys) <==> current && named && reachable && !keyed)
      && (error == Some(InviteError.Expired) <==> current && named && reachable && keyed && i.expiresAt <= now)
      && (error == None <==> current && named && reachable && keyed && now < i.expiresAt)
  {
    BlankIsTrimmed(i.projectName);
    hide TrimSpace, IsBlank;
  }

  datatype Result<T> = Ok(value: T) | Err(error: InviteError)

  /** JSON and base64url, taken together, are a text for an invitation and a partial parser of texts. */
  datatype Codec = Codec(text: Invitation -> string, parse: string -> Option<Invitation>)

  ghost predicate Faithful(codec: Codec) {
    forall i :: codec.parse(codec.text(i)) == Some(i)
  }

  function EncodeInvitation(i: Invitation, now: int, codec: Codec): Result<string> {
    match Validate(i, now)
    case Some(e) => Err(e)
    case None => Ok(PREFIX + codec.text(i))
  }

  function DecodeInvitation(value: string, now: int, codec: Codec): Result<Invitation> {
    if !(PREFIX <= value) then Err(BadPrefix)
    else match codec.parse(value[|PREFIX|..])
         case None => Err(BadText)
         case Some(i) => match Validate(i, now) case Some(e) => Err(e) case None => Ok(i)
  }

  /** What decodes, and what does not and why: the prefix, then the text, then the invitation in it. */
  lemma DecodesExactly(value: string, now: int, codec: Codec)
    ensures var result := DecodeInvitation(value, now, codec);
      var tail := if "peerctx2_" <= value then codec.parse(value[9..]) else None;
      && (result == Err(BadPrefix) <==> !("peerctx2_" <= value))
      && (result == Err(BadText) <==> "peerctx2_" <= value && tail == None)
      && (forall i :: result == Ok(i) <==> tail == Some(i) && Validate(i, now) == None)
      && (tail.Some? && Validate(tail.value, now).Some? ==> result == Err(Validate(tail.value, now).value))
  {
    ValidateNever(value, now, codec);
    hide Validate;
  }

  lemma ValidateNever(value: string, now: int, codec: Codec)
    ensures forall i :: Validate(i, now) != Some(BadPrefix) && Validate(i, now) != Some(BadText)
  {
  }

  /** An invitation encodes exactly when it is valid, and then as the prefix and its text. */
  lemma EncodesExactly(i: Invitation, now: int, codec: Codec)
    ensures EncodeInvitation(i, now, codec) ==
      if Validate(i, now) == None then Ok("peerctx2_" + codec.text(i)) else Err(Validate(i, now).value)
  {
  }

  /** What one device encodes another decodes unchanged, until the invitation expires and not after. */
  lemma InvitationRoundTrip(i: Invitation, sent: int, received: int, codec: Codec)
    requires Faithful(codec) && EncodeInvitation(i, sent, codec).Ok?
    ensures DecodeInvitation(EncodeInvitation(i, sent, codec).value, received, codec)
         == if received < i.expiresAt then Ok(i) else Err(InviteError.Expired)
  {
    var value := PREFIX + codec.text(i);
    assert value[|PREFIX|..] == codec.text(i);
  }
}
