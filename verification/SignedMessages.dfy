/** The byte strings that are hashed and signed: user intents, nonce replay keys, trigger terms and trigger
    cancellations (src/intents.ts, src/triggerOrders.ts). Hashes and signatures themselves are not modelled. */
module SignedMessages {
  import opened Limits
  import opened Results
  import opened RuntimeFlags
  import opened WireCodec

  /** A SHA-256 digest. */
  type Hash = h: seq<byte> | |h| == 32 witness seq(32, _ => 0)

  datatype TriggerTerms = TriggerTerms(
    kind: int,
    direction: int,
    triggerPriceLots: int,
    ocoGroup: int,
    expiryTs: int,
    salt: int)

  const STOP_LOSS := 0
  const TAKE_PROFIT := 1
  const AT_OR_ABOVE := 0
  const AT_OR_BELOW := 1

  datatype CancelScope = Ids | OcoGroup | All

  /** Everything that is ever hashed for signing. Options are the parameters a caller may leave out. */
  datatype Message =
    | IntentV2(group: Pubkey, account: Pubkey, owner: Pubkey, kind: Option<int>, market: int, payloadHash: Hash)
    | IntentV3(group: Pubkey, account: Pubkey, owner: Pubkey, kind: Option<int>, market: int, payloadHash: Hash,
               accountsHash: seq<byte>, minExecuteSlot: Option<int>, expiresAtSlot: Option<int>, clientOrderId: int)
    | UserNonce(group: Pubkey, account: Pubkey, owner: Pubkey, nonceKind: int, market: int, nonce: int)
    | DirectIntent(group: Pubkey, account: Pubkey, owner: Pubkey, directKind: int, market: int,
                   directPayloadHash: seq<byte>, accountsHash: seq<byte>, directExpiresAtSlot: int, nonce: int)
    | Terms(group: Pubkey, account: Pubkey, market: int, terms: TriggerTerms)
    | Cancel(group: Pubkey, account: Pubkey, signer: Pubkey, issuedAtMs: int, scope: CancelScope,
             ids: Option<seq<int>>, ocoGroup: Option<int>, cancelMarket: Option<int>)

  function Domain(m: Message): string {
    match m
    case IntentV2(_, _, _, _, _, _) => "mango-v4-user-intent-v2"
    case IntentV3(_, _, _, _, _, _, _, _, _, _) => "mango-v5-user-intent-v2"
    case UserNonce(_, _, _, _, _, _) => "mango-v5-user-nonce-v1"
    case DirectIntent(_, _, _, _, _, _, _, _, _) => "mango-v5-direct-intent-v1"
    case Terms(_, _, _, _) => "fermi-trigger-terms-v1"
    case Cancel(_, _, _, _, _, _, _, _) => "fermi-trigger-cancel-v1"
  }

  /** UTF-8 of text in the ASCII range. */
  function Utf8(s: string): (bytes: seq<byte>)
    ensures |bytes| == |s|
  {
    seq(|s|, i requires 0 <= i < |s| => if s[i] as int < 128 then s[i] as int else 0)
  }

  function ScopeByte(s: CancelScope): byte {
    match s case Ids => 0 case OcoGroup => 1 case All => 2
  }

  function Or(value: Option<int>, default: int): int {
    if value.Some? then value.value else default
  }

  function CheckMarketIndex(market: int): Result<int, Error> {
    if 0 <= market < U16_MAX then Ok(market) else Err(BadMarketIndex)
  }

  function InRange(value: int, low: int, high: int): Result<int, Error> {
    if low <= value <= high then Ok(value) else Err(OutOfRange)
  }

  function U64s(values: seq<int>): Result<seq<seq<byte>>, Error> {
    if values == [] then Ok([])
    else
      var first :- U64(values[0]);
      var rest :- U64s(values[1..]);
      Ok([first] + rest)
  }

  const TARGET_PERP_MARKET: byte := 0

  /** The fields after the domain, in order; all but a cancellation's ids have a fixed width. */
  function Fields(m: Message): Result<seq<seq<byte>>, Error> {
    match m
    case IntentV2(group, account, owner, kind, market, payloadHash) =>
      var k :- U8(Or(kind, 0));
      var mk :- U16(market);
      Ok([group, account, owner, k, [TARGET_PERP_MARKET], mk, payloadHash])
    case IntentV3(group, account, owner, kind, market, payloadHash, accountsHash, minSlot, expires, clientOrderId) =>
      if |accountsHash| != 32 then Err(BadHashLength)
      else
        var k :- U8(Or(kind, 0));
        var mk :- U16(market);
        var lo :- U64(Or(minSlot, 0));
        var hi :- U64(Or(expires, 0));
        var id :- U64(clientOrderId);
        Ok([group, account, owner, k, [TARGET_PERP_MARKET], mk, payloadHash, accountsHash, lo, hi, id])
    case UserNonce(group, account, owner, kind, market, nonce) =>
      var k :- U8(kind);
      var mk :- U16(market);
      var n :- U64(nonce);
      Ok([group, account, owner, k, [TARGET_PERP_MARKET], mk, n])
    case DirectIntent(group, account, owner, kind, market, payloadHash, accountsHash, expires, nonce) =>
      if |payloadHash| != 32 || |accountsHash| != 32 then Err(BadHashLength)
      else
        var k :- U8(kind);
        var mk :- U16(market);
        var e :- U64(expires);
        var n :- U64(nonce);
        Ok([group, account, owner, k, [TARGET_PERP_MARKET], mk, payloadHash, accountsHash, e, n])
    case Terms(group, account, market, t) =>
      var _ :- CheckMarketIndex(market);
      if t.kind !in {STOP_LOSS, TAKE_PROFIT} || t.direction !in {AT_OR_ABOVE, AT_OR_BELOW} then Err(BadTriggerKind)
      else
        var _ :- InRange(t.triggerPriceLots, 1, I64_MAX);
        var price :- I64(t.triggerPriceLots);
        var _ :- InRange(t.expiryTs, 1, U64_MAX);
        var mk :- U16(market);
        var oco :- U64(t.ocoGroup);
        var expiry :- U64(t.expiryTs);
        var salt :- U64(t.salt);
        Ok([group, account, mk, [1, t.kind, t.direction, 0, 0], price, oco, expiry, salt])
    case Cancel(group, account, signer, issuedAtMs, scope, maybeIds, ocoGroup, market) =>
      var ids := if maybeIds.Some? then maybeIds.value else [];
      if |ids| > U16_MAX || (scope == Ids && ids == []) then Err(BadCancelScope)
      else if scope == OcoGroup && Or(ocoGroup, 0) == 0 then Err(BadCancelScope)
      else
        var _ :- CheckMarketIndex(Or(market, 0));
        var issued :- U64(issuedAtMs);
        var mk :- U16(Or(market, U16_MAX));
        var oco :- U64(Or(ocoGroup, 0));
        var count :- U16(|ids|);
        var tail :- U64s(ids);
        Ok([group, account, signer, issued, [ScopeByte(scope)], mk, oco, count] + tail)
  }

  /** The bytes that are hashed. */
  function Preimage(m: Message): Result<seq<byte>, Error> {
    var fields :- Fields(m);
    Ok(Utf8(Domain(m)) + Flatten(fields))
  }

  /** A message with its defaults filled in; two messages that only differ in this respect are the same message. */
  function Normal(m: Message): Message {
    match m
    case IntentV2(g, a, o, kind, market, payload) => IntentV2(g, a, o, Some(Or(kind, 0)), market, payload)
    case IntentV3(g, a, o, kind, market, payload, accounts, lo, hi, id) =>
      IntentV3(g, a, o, Some(Or(kind, 0)), market, payload, accounts, Some(Or(lo, 0)), Some(Or(hi, 0)), id)
    case Cancel(g, a, s, issued, scope, ids, oco, market) =>
      Cancel(g, a, s, issued, scope, Some(if ids.Some? then ids.value else []), Some(Or(oco, 0)),
            Some(Or(market, U16_MAX)))
    case _ => m
  }

  predicate SameKind(a: Message, b: Message) {
    || (a.IntentV2? && b.IntentV2?) || (a.IntentV3? && b.IntentV3?) || (a.UserNonce? && b.UserNonce?)
    || (a.DirectIntent? && b.DirectIntent?) || (a.Terms? && b.Terms?) || (a.Cancel? && b.Cancel?)
  }

  // ---- Different kinds never collide ----

  /** No domain is a prefix of another kind's. */
  lemma DomainsPrefixFree(a: Message, b: Message)
    requires !SameKind(a, b)
    ensures exists i | 0 <= i < |Domain(a)| && i < |Domain(b)| :: Domain(a)[i] != Domain(b)[i]
  {
    var s, t := Domain(a), Domain(b);
    assert s[0] != t[0] || s[7] != t[7] || s[9] != t[9] || s[14] != t[14];
  }

  lemma KindsNeverCollide(a: Message, b: Message)
    requires Preimage(a).Ok? && Preimage(b).Ok? && !SameKind(a, b)
    ensures Preimage(a) != Preimage(b)
  {
    DomainsPrefixFree(a, b);
    var i :| 0 <= i < |Domain(a)| && i < |Domain(b)| && Domain(a)[i] != Domain(b)[i];
    DomainIsAscii(a, i);
    DomainIsAscii(b, i);
    assert Preimage(a).value[i] == Domain(a)[i] as int && Preimage(b).value[i] == Domain(b)[i] as int;
  }

  lemma DomainIsAscii(m: Message, i: nat)
    requires i < |Domain(m)|
    ensures Domain(m)[i] as int < 128
  {
    IntentDomainsAscii(i);
    OtherDomainsAscii(i);
  }

  lemma IntentDomainsAscii(i: nat)
    ensures i < |"mango-v4-user-intent-v2"| ==> "mango-v4-user-intent-v2"[i] as int < 128
    ensures i < |"mango-v5-user-intent-v2"| ==> "mango-v5-user-intent-v2"[i] as int < 128
    ensures i < |"mango-v5-direct-intent-v1"| ==> "mango-v5-direct-intent-v1"[i] as int < 128
  {
  }

  lemma OtherDomainsAscii(i: nat)
    ensures i < |"mango-v5-user-nonce-v1"| ==> "mango-v5-user-nonce-v1"[i] as int < 128
    ensures i < |"fermi-trigger-terms-v1"| ==> "fermi-trigger-terms-v1"[i] as int < 128
    ensures i < |"fermi-trigger-cancel-v1"| ==> "fermi-trigger-cancel-v1"[i] as int < 128
  {
  }

  // ---- Within a kind, the bytes determine the fields ----

  lemma EncodersInjective(v: int, w: int)
    ensures U8(v).Ok? && U8(v) == U8(w) ==> v == w
    ensures U16(v).Ok? && U16(v) == U16(w) ==> v == w
    ensures U64(v).Ok? && U64(v) == U64(w) ==> v == w
    ensures I64(v).Ok? && I64(v) == I64(w) ==> v == w
  {
    EncodersReadBack(v);
    EncodersReadBack(w);
  }

  lemma {:induction false} U64sInjective(v: seq<int>, w: seq<int>)
    requires U64s(v).Ok? && U64s(v) == U64s(w)
    ensures v == w
  {
    assert |v| == |w| by {
      U64sLength(v);
      U64sLength(w);
    }
    if v != [] {
      var x, y := U64s(v).value, U64s(w).value;
      assert U64(v[0]).value == x[0] && U64(w[0]).value == y[0];
      assert U64s(v[1..]).value == x[1..] && U64s(w[1..]).value == y[1..];
      EncodersInjective(v[0], w[0]);
      U64sInjective(v[1..], w[1..]);
      assert v == [v[0]] + v[1..] && w == [w[0]] + w[1..];
    }
  }

  lemma {:induction false} U64sLength(v: seq<int>)
    requires U64s(v).Ok?
    ensures |U64s(v).value| == |v|
    ensures forall i | 0 <= i < |v| :: |U64s(v).value[i]| == 8
  {
    if v != [] {
      U64sLength(v[1..]);
    }
  }

  const CANCEL_HEAD := 8

  lemma IntentShape(a: Message, b: Message)
    requires SameKind(a, b) && (a.IntentV2? || a.IntentV3?) && Fields(a).Ok? && Fields(b).Ok?
    ensures SameShape(Fields(a).value, Fields(b).value)
  {
  }

  lemma DirectShape(a: Message, b: Message)
    requires SameKind(a, b) && (a.UserNonce? || a.DirectIntent?) && Fields(a).Ok? && Fields(b).Ok?
    ensures SameShape(Fields(a).value, Fields(b).value)
  {
  }

  lemma TermsShape(a: Message, b: Message)
    requires a.Terms? && b.Terms? && Fields(a).Ok? && Fields(b).Ok?
    ensures SameShape(Fields(a).value, Fields(b).value)
  {
  }

  /** Of a cancellation only the fields before the ids have fixed widths. */
  lemma CancelShape(a: Message, b: Message)
    requires a.Cancel? && b.Cancel? && Fields(a).Ok? && Fields(b).Ok?
    ensures |Fields(a).value| >= CANCEL_HEAD && |Fields(b).value| >= CANCEL_HEAD
    ensures SameShape(Fields(a).value[..CANCEL_HEAD], Fields(b).value[..CANCEL_HEAD])
  {
  }

  /** Fields of the same kind, unless they are a cancellation's, have the same widths. */
  lemma SameKindSameShape(a: Message, b: Message)
    requires SameKind(a, b) && !a.Cancel? && Fields(a).Ok? && Fields(b).Ok?
    ensures SameShape(Fields(a).value, Fields(b).value)
  {
    if a.IntentV2? || a.IntentV3? {
      IntentShape(a, b);
    } else if a.Terms? {
      TermsShape(a, b);
    } else {
      DirectShape(a, b);
    }
  }

  lemma IntentFieldsInjective(a: Message, b: Message)
    requires SameKind(a, b) && (a.IntentV2? || a.IntentV3?)
    requires Fields(a).Ok? && Fields(a) == Fields(b)
    ensures Normal(a) == Normal(b)
  {
    EncodersInjective(Or(a.kind, 0), Or(b.kind, 0));
    EncodersInjective(a.market, b.market);
    var x, y := Fields(a).value, Fields(b).value;
    assert x[0] == y[0] && x[1] == y[1] && x[2] == y[2] && x[3] == y[3] && x[5] == y[5] && x[6] == y[6];
    if a.IntentV3? {
      assert x[7] == y[7] && x[8] == y[8] && x[9] == y[9] && x[10] == y[10];
      EncodersInjective(Or(a.minExecuteSlot, 0), Or(b.minExecuteSlot, 0));
      EncodersInjective(Or(a.expiresAtSlot, 0), Or(b.expiresAtSlot, 0));
      EncodersInjective(a.clientOrderId, b.clientOrderId);
    }
  }

  lemma DirectFieldsInjective(a: Message, b: Message)
    requires SameKind(a, b) && (a.UserNonce? || a.DirectIntent?)
    requires Fields(a).Ok? && Fields(a) == Fields(b)
    ensures Normal(a) == Normal(b)
  {
    EncodersInjective(a.market, b.market);
    EncodersInjective(a.nonce, b.nonce);
    var x, y := Fields(a).value, Fields(b).value;
    assert x[0] == y[0] && x[1] == y[1] && x[2] == y[2] && x[3] == y[3] && x[5] == y[5] && x[6] == y[6];
    if a.UserNonce? {
      EncodersInjective(a.nonceKind, b.nonceKind);
    } else {
      assert x[7] == y[7] && x[8] == y[8] && x[9] == y[9];
      EncodersInjective(a.directKind, b.directKind);
      EncodersInjective(a.directExpiresAtSlot, b.directExpiresAtSlot);
    }
  }

  lemma TermsFieldsInjective(a: Message, b: Message)
    requires a.Terms? && b.Terms? && Fields(a).Ok? && Fields(a) == Fields(b)
    ensures a == b
  {
    var x, y := Fields(a).value, Fields(b).value;
    var t, u := a.terms, b.terms;
    assert x[0] == y[0] && x[1] == y[1] && x[2] == y[2] && x[3] == y[3] && x[4] == y[4];
    assert x[5] == y[5] && x[6] == y[6] && x[7] == y[7];
    assert x[3][1] == t.kind && y[3][1] == u.kind && x[3][2] == t.direction && y[3][2] == u.direction;
    EncodersInjective(a.market, b.market);
    EncodersInjective(t.triggerPriceLots, u.triggerPriceLots);
    EncodersInjective(t.ocoGroup, u.ocoGroup);
    EncodersInjective(t.expiryTs, u.expiryTs);
    EncodersInjective(t.salt, u.salt);
  }

  function IdsOf(m: Message): seq<int>
    requires m.Cancel?
  {
    if m.ids.Some? then m.ids.value else []
  }

  /** A cancellation's fields are eight fixed ones and the ids. */
  lemma CancelFields(m: Message)
    requires m.Cancel? && Fields(m).Ok?
    ensures U64s(IdsOf(m)).Ok? && |Fields(m).value| == CANCEL_HEAD + |IdsOf(m)|
    ensures Fields(m).value[CANCEL_HEAD..] == U64s(IdsOf(m)).value
    ensures var x := Fields(m).value;
            && x[0] == m.group && x[1] == m.account && x[2] == m.signer && U64(m.issuedAtMs) == Ok(x[3])
            && x[4] == [ScopeByte(m.scope)] && U16(Or(m.cancelMarket, U16_MAX)) == Ok(x[5])
            && U64(Or(m.ocoGroup, 0)) == Ok(x[6]) && U16(|IdsOf(m)|) == Ok(x[7])
  {
    U64sLength(IdsOf(m));
  }

  lemma CancelHeadInjective(a: Message, b: Message)
    requires a.Cancel? && b.Cancel? && Fields(a).Ok? && Fields(b).Ok?
    requires |Fields(a).value| >= CANCEL_HEAD && |Fields(b).value| >= CANCEL_HEAD
    requires forall i | 0 <= i < CANCEL_HEAD :: Fields(a).value[i] == Fields(b).value[i]
    ensures |IdsOf(a)| == |IdsOf(b)| && (IdsOf(a) == IdsOf(b) ==> Normal(a) == Normal(b))
  {
    CancelFields(a);
    CancelFields(b);
    EncodersInjective(a.issuedAtMs, b.issuedAtMs);
    EncodersInjective(Or(a.cancelMarket, U16_MAX), Or(b.cancelMarket, U16_MAX));
    EncodersInjective(Or(a.ocoGroup, 0), Or(b.ocoGroup, 0));
    EncodersInjective(|IdsOf(a)|, |IdsOf(b)|);
    assert [ScopeByte(a.scope)][0] == [ScopeByte(b.scope)][0];
  }

  /** The head of a cancellation tells how many ids follow, so the bytes split in one way only. */
  lemma CancelInjective(a: Message, b: Message)
    requires a.Cancel? && b.Cancel? && Fields(a).Ok? && Fields(b).Ok?
    requires Flatten(Fields(a).value) == Flatten(Fields(b).value)
    ensures Normal(a) == Normal(b)
  {
    var x, y := Fields(a).value, Fields(b).value;
    CancelShape(a, b);
    CancelFields(a);
    CancelFields(b);
    FlattenSplit(x, CANCEL_HEAD);
    FlattenSplit(y, CANCEL_HEAD);
    FlattenInjective(x[..CANCEL_HEAD], y[..CANCEL_HEAD], Flatten(x[CANCEL_HEAD..]), Flatten(y[CANCEL_HEAD..]));
    assert forall i | 0 <= i < CANCEL_HEAD :: x[i] == x[..CANCEL_HEAD][i] && y[i] == y[..CANCEL_HEAD][i];
    CancelHeadInjective(a, b);
    U64sLength(IdsOf(a));
    U64sLength(IdsOf(b));
    FlattenInjective(x[CANCEL_HEAD..], y[CANCEL_HEAD..], [], []);
    U64sInjective(IdsOf(a), IdsOf(b));
  }

  lemma {:induction false} FlattenSplit(parts: seq<seq<byte>>, n: nat)
    requires n <= |parts|
    ensures Flatten(parts) == Flatten(parts[..n]) + Flatten(parts[n..])
  {
    if n == 0 {
      assert parts[..0] == [] && parts[0..] == parts;
    } else {
      FlattenSplit(parts[1..], n - 1);
      assert parts[..n][1..] == parts[1..][..n - 1] && parts[1..][n - 1..] == parts[n..];
    }
  }

  lemma SameDomain(a: Message, b: Message)
    requires SameKind(a, b) && Preimage(a).Ok? && Preimage(a) == Preimage(b)
    ensures Fields(a).Ok? && Fields(b).Ok? && Flatten(Fields(a).value) == Flatten(Fields(b).value)
  {
    var n := |Domain(a)|;
    assert Preimage(a).value[n..] == Flatten(Fields(a).value);
    assert Preimage(b).value[n..] == Flatten(Fields(b).value);
  }

  /** Equal preimages mean equal messages, up to the defaults of parameters left out: what is signed for one
      message, of any kind and with any fields, is never what is signed for another. */
  lemma PreimagesInjective(a: Message, b: Message)
    requires Preimage(a).Ok? && Preimage(a) == Preimage(b)
    ensures Normal(a) == Normal(b)
  {
    if !SameKind(a, b) {
      KindsNeverCollide(a, b);
    } else {
      SameDomain(a, b);
      if a.Cancel? {
        CancelInjective(a, b);
      } else {
        SameKindSameShape(a, b);
        FlattenInjective(Fields(a).value, Fields(b).value, [], []);
        if a.IntentV2? || a.IntentV3? {
          IntentFieldsInjective(a, b);
        } else if a.Terms? {
          TermsFieldsInjective(a, b);
        } else {
          DirectFieldsInjective(a, b);
        }
      }
    }
  }

  /** The converse: parameters left out are signed as their defaults. */
  lemma DefaultsAreSigned(a: Message, b: Message)
    requires Normal(a) == Normal(b) && Preimage(a).Ok? && Preimage(b).Ok?
    ensures Preimage(a) == Preimage(b)
  {
  }
}
