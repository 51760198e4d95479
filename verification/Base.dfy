/** Shared value types and the protocol's constants. */
module Base {
  datatype Option<+T> = None | Some(value: T)

  newtype byte = x: int | 0 <= x < 256
  type Bytes = seq<byte>

  // Times and durations are integer nanoseconds.
  const SECOND: int := 1_000_000_000
  const MINUTE: int := 60 * SECOND
  const HOUR: int := 60 * MINUTE

  const SCHEMA_VERSION: int := 2
  const KEY_SIZE: nat := 32
  const MAX_REQUEST_BODY: nat := 256 * 1024
  const MAX_RESPONSE_BODY: nat := 2 * 1024 * 1024
  const MAX_WIRE_MESSAGE: nat := 8 * 1024 * 1024
  const SIGNATURE_MAX_AGE: int := 2 * MINUTE
  const DEFAULT_INVITE_TTL: int := 10 * MINUTE
  const DEFAULT_REQUEST_TIMEOUT: int := 5 * MINUTE

  const NUL: char := '\0'
  const NEWLINE: char := '\n'

  predicate Lacks(sep: char, s: string) {
    sep !in s
  }

  // ---- Blank text ----------------------------------------------------------------------------

  /** unicode.IsSpace */
  predicate IsSpace(c: char) {
    var n := c as int;
    9 <= n <= 13 || n == 0x20 || n == 0x85 || n == 0xA0 || n == 0x1680 || 0x2000 <= n <= 0x200A
    || n == 0x2028 || n == 0x2029 || n == 0x202F || n == 0x205F || n == 0x3000
  }

  lemma SpaceCodes(c: char)
    ensures IsSpace(c) <==> c as int in {
      9, 10, 11, 12, 13, 0x20, 0x85, 0xA0, 0x1680, 0x2000, 0x2001, 0x2002, 0x2003, 0x2004, 0x2005, 0x2006, 0x2007, 0x2008, 0x2009, 0x200A,
      0x2028, 0x2029, 0x202F, 0x205F, 0x3000}
  {
  }

  predicate IsBlank(s: string) {
    forall i :: 0 <= i < |s| ==> IsSpace(s[i])
  }

  /** strings.TrimSpace */
  function TrimSpace(s: string): string {
    if s == "" then ""
    else if IsSpace(s[0]) then TrimSpace(s[1..])
    else if IsSpace(s[|s| - 1]) then TrimSpace(s[..|s| - 1])
    else s
  }

  /** A text is blank exactly when nothing is left of it after trimming. */
  lemma {:induction false} BlankIsTrimmed(s: string)
    ensures IsBlank(s) <==> TrimSpace(s) == ""
  {
    if s == "" {
    } else if IsSpace(s[0]) {
      BlankIsTrimmed(s[1..]);
      assert s == [s[0]] + s[1..];
      BlankConcat([s[0]], s[1..]);
    } else if IsSpace(s[|s| - 1]) {
      assert s[..|s| - 1][0] == s[0];
      BlankIsTrimmed(s[..|s| - 1]);
    }
  }

  lemma BlankConcat(s: string, t: string)
    ensures IsBlank(s + t) <==> IsBlank(s) && IsBlank(t)
  {
    if IsBlank(s + t) {
      forall i | 0 <= i < |s| ensures IsSpace(s[i]) {
        assert s[i] == (s + t)[i];
      }
      forall i | 0 <= i < |t| ensures IsSpace(t[i]) {
        assert t[i] == (s + t)[|s| + i];
      }
    }
  }

  /** SHA-256 is not interpreted: a digest is named by what it was taken of. */
  datatype Digest = Digest(of: Bytes)

  datatype Request = Request(schema: int, id: string, project: string, requester: string, agent: string,
                             body: Bytes, bodyDigest: Digest, createdAt: int)

  // Request.Validate; the zero time is represented by 0.
  predicate ValidRequest(q: Request) {
    && q.schema == SCHEMA_VERSION
    && q.id != "" && q.project != "" && q.requester != "" && q.agent != ""
    && |q.body| <= MAX_REQUEST_BODY
    && q.bodyDigest == Digest(q.body)
    && q.createdAt != 0
  }

  datatype Response = Response(requestId: string, answer: Bytes)
  datatype Failure = Failure(requestId: string, code: string)
  datatype PayloadType = ResponseType | FailureType | OtherType

  /** What a provider sends back over its socket. */
  datatype Payload = Payload(kind: PayloadType, agent: string, requestId: string,
                             response: Option<Response>, failure: Option<Failure>)
}
