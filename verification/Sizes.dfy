/** Wire sizes: how often a body is base64-encoded on its way, and what fits under the limits. */
module Sizes {
  import opened Base

  /** Padded base64 of n bytes: section 4 of RFC 4648. */
  function Base64(n: nat): nat {
    4 * ((n + 2) / 3)
  }

  /** A JSON object: `meta` bytes of its own and one byte-string field. */
  function Wrap(n: nat, meta: nat): nat {
    Base64(n) + meta
  }

  /** n bytes inside one object inside another, and so on; metas from the inside out. */
  function Nested(n: nat, metas: seq<nat>): nat
    decreases |metas|
  {
    if metas == [] then n else Nested(Wrap(n, metas[0]), metas[1..])
  }

  /** The largest n with Base64(n) <= limit. */
  function Base64Capacity(limit: nat): nat {
    3 * (limit / 4)
  }

  lemma Base64Fits(n: nat, limit: nat)
    ensures Base64(n) <= limit <==> n <= Base64Capacity(limit)
  {
  }

  /** The largest n that fits, or None when the wrappers alone are too big. */
  function Capacity(limit: nat, metas: seq<nat>): Option<nat>
    decreases |metas|
  {
    if metas == [] then Some(limit)
    else match Capacity(limit, metas[1..])
         case None => None
         case Some(inner) => if inner < metas[0] then None else Some(Base64Capacity(inner - metas[0]))
  }

  /** Exactly which sizes fit under a limit, for any nesting. */
  lemma {:induction false} NestedFitsExactly(n: nat, metas: seq<nat>, limit: nat)
    ensures Nested(n, metas) <= limit <==> Capacity(limit, metas).Some? && n <= Capacity(limit, metas).value
    decreases |metas|
  {
    if metas == [] {
    } else {
      NestedFitsExactly(Wrap(n, metas[0]), metas[1..], limit);
      var inner := Capacity(limit, metas[1..]);
      if inner.Some? && inner.value >= metas[0] {
        Base64Fits(n, inner.value - metas[0]);
      }
    }
  }

  lemma {:induction false} NestedGrows(n: nat, m: nat, metas: seq<nat>, more: seq<nat>)
    requires n <= m && |metas| == |more| && forall i :: 0 <= i < |metas| ==> metas[i] <= more[i]
    ensures Nested(n, metas) <= Nested(m, more)
    decreases |metas|
  {
    if metas == [] {
    } else {
      assert (n + 2) / 3 <= (m + 2) / 3;
      NestedGrows(Wrap(n, metas[0]), Wrap(m, more[0]), metas[1..], more[1..]);
    }
  }

  lemma NestedTwo(n: nat, a: nat, b: nat)
    ensures Nested(n, [a, b]) == Wrap(Wrap(n, a), b)
  {
    var metas := [a, b];
    assert metas[1..] == [b] && [b][1..] == [];
    assert Nested(n, metas) == Nested(Wrap(n, metas[0]), metas[1..]);
    assert Nested(Wrap(n, a), [b]) == Nested(Wrap(Wrap(n, a), [b][0]), [b][1..]);
  }

  lemma NestedThree(n: nat, a: nat, b: nat, c: nat)
    ensures Nested(n, [a, b, c]) == Wrap(Wrap(Wrap(n, a), b), c)
  {
    var metas := [a, b, c];
    assert metas[1..] == [b, c];
    assert Nested(n, metas) == Nested(Wrap(n, metas[0]), metas[1..]);
    NestedTwo(Wrap(n, a), b, c);
  }

  // ---- The paths -----------------------------------------------------------------------------

  // Each wrapper's own JSON is far below this.
  const META: nat := 256 * 1024
  const CONTROL_LIMIT: nat := MAX_REQUEST_BODY + 128 * 1024

  /** Request in SignedMessage, requester to host; Request in ProviderPayload in SignedMessage, host to provider. */
  lemma BodyFitsOnTheWire(n: nat, metas: seq<nat>)
    requires n <= MAX_REQUEST_BODY && |metas| == 2 && forall i :: 0 <= i < 2 ==> metas[i] <= META
    ensures Nested(n, metas) <= MAX_WIRE_MESSAGE
  {
    NestedTwo(MAX_REQUEST_BODY, META, META);
    NestedGrows(n, MAX_REQUEST_BODY, metas, [META, META]);
  }

  /** Two layers from provider to host, and three (ProviderPayload, RPCResult, SignedMessage) from host to requester. */
  lemma AnswerFitsOnTheWire(n: nat, metas: seq<nat>)
    requires n <= MAX_RESPONSE_BODY && 2 <= |metas| <= 3 && forall i :: 0 <= i < |metas| ==> metas[i] <= META
    ensures Nested(n, metas) <= MAX_WIRE_MESSAGE
  {
    if |metas| == 2 {
      NestedTwo(MAX_RESPONSE_BODY, META, META);
      NestedGrows(n, MAX_RESPONSE_BODY, metas, [META, META]);
    } else {
      NestedThree(MAX_RESPONSE_BODY, META, META, META);
      NestedGrows(n, MAX_RESPONSE_BODY, metas, [META, META, META]);
    }
  }

  /**
   * On the control socket a body is encoded twice, in AskInput and in Command. Which sizes fit depends on the two
   * wrappers as stated.
   */
  lemma ControlSocketFitsExactly(n: nat, inner: nat, outer: nat)
    ensures Nested(n, [inner, outer]) <= CONTROL_LIMIT
       <==> && outer <= CONTROL_LIMIT && inner <= 3 * ((CONTROL_LIMIT - outer) / 4)
            && n <= 3 * ((3 * ((CONTROL_LIMIT - outer) / 4) - inner) / 4)
  {
    NestedTwo(n, inner, outer);
    if outer <= CONTROL_LIMIT {
      Base64Fits(Wrap(n, inner), CONTROL_LIMIT - outer);
      if inner <= Base64Capacity(CONTROL_LIMIT - outer) {
        Base64Fits(n, Base64Capacity(CONTROL_LIMIT - outer) - inner);
      }
    }
  }

  /** 221184 bytes (216 KiB) is the most that fits under any wrappers. */
  lemma ControlSocketLimit(n: nat)
    ensures (exists a: nat, b: nat :: Nested(n, [a, b]) <= CONTROL_LIMIT) <==> n <= 221_184
  {
    ControlSocketFitsExactly(n, 0, 0);
    forall a: nat, b: nat ensures Nested(n, [0, 0]) <= Nested(n, [a, b]) {
      NestedGrows(n, n, [0, 0], [a, b]);
    }
    hide Nested;
  }

  /** So the largest legal body never gets through the local control socket. */
  lemma FullBodyNeverFitsControl(inner: nat, outer: nat)
    ensures Nested(MAX_REQUEST_BODY, [inner, outer]) > CONTROL_LIMIT
  {
    NestedTwo(MAX_REQUEST_BODY, inner, outer);
  }
}
