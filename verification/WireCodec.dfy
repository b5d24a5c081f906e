/** Fixed-width little-endian fields and the queue payloads made of them (src/intents.ts). */
module WireCodec {
  import opened Limits
  import opened Results
  import opened RuntimeFlags

  const U16_MAX := 0xFFFF
  const I64_MIN := -0x8000_0000_0000_0000
  const I64_MAX := 0x7FFF_FFFF_FFFF_FFFF
  const TWO_64 := 0x1_0000_0000_0000_0000

  /** What the encoders throw, and what the message and leg builders that use them throw besides. */
  datatype Error =
    | OutOfRange
    | BadHashLength
    | BadMarketIndex
    | BadTriggerKind
    | BadCancelScope
    | BadSlippage
    | AlreadyMet
    | NotMarketable
    | NothingWanted
    | TermsChanged
    | AccountsChanged
    | OutOfDraws

  // ---- Little-endian integers ----

  function Power256(n: nat): (p: nat)
    ensures p >= 1
  {
    if n == 0 then 1 else 256 * Power256(n - 1)
  }

  lemma Powers()
    ensures Power256(1) == 0x100 && Power256(2) == U16_MAX + 1 && Power256(8) == TWO_64
  {
    assert Power256(2) == 0x1_0000;
    assert Power256(4) == 0x1_0000_0000;
    assert Power256(6) == 0x1_0000_0000_0000;
  }

  function ToLe(n: nat, v: nat): (bytes: seq<byte>)
    ensures |bytes| == n
  {
    if n == 0 then [] else [v % 256] + ToLe(n - 1, v / 256)
  }

  function ReadLe(bytes: seq<byte>): (v: nat) {
    if bytes == [] then 0 else bytes[0] + 256 * ReadLe(bytes[1..])
  }

  lemma {:induction false} ReadToLe(n: nat, v: nat)
    requires v < Power256(n)
    ensures ReadLe(ToLe(n, v)) == v
  {
    if n > 0 {
      ReadToLe(n - 1, v / 256);
    }
  }

  lemma {:induction false} ToReadLe(bytes: seq<byte>)
    ensures ReadLe(bytes) < Power256(|bytes|) && ToLe(|bytes|, ReadLe(bytes)) == bytes
  {
    if bytes != [] {
      ToReadLe(bytes[1..]);
      var rest := ReadLe(bytes[1..]);
      assert (bytes[0] + 256 * rest) / 256 == rest && (bytes[0] + 256 * rest) % 256 == bytes[0];
    }
  }

  function U8(v: int): Result<seq<byte>, Error> {
    if 0 <= v <= 0xFF then Ok([v]) else Err(OutOfRange)
  }

  function U16(v: int): Result<seq<byte>, Error> {
    if 0 <= v <= U16_MAX then Ok(ToLe(2, v)) else Err(OutOfRange)
  }

  function U64(v: int): Result<seq<byte>, Error> {
    if 0 <= v <= U64_MAX then Ok(ToLe(8, v)) else Err(OutOfRange)
  }

  /** Two's complement. */
  function I64(v: int): Result<seq<byte>, Error> {
    if I64_MIN <= v <= I64_MAX then Ok(ToLe(8, if v < 0 then v + TWO_64 else v)) else Err(OutOfRange)
  }

  function ReadI64(bytes: seq<byte>): int {
    var v := ReadLe(bytes);
    if v > I64_MAX then v - TWO_64 else v
  }

  /** Each encoder accepts exactly its range, and its bytes read back. */
  lemma EncodersReadBack(v: int)
    ensures U8(v).Ok? <==> 0 <= v <= 0xFF
    ensures U8(v).Ok? ==> |U8(v).value| == 1 && U8(v).value[0] == v
    ensures U16(v).Ok? <==> 0 <= v <= U16_MAX
    ensures U16(v).Ok? ==> |U16(v).value| == 2 && ReadLe(U16(v).value) == v
    ensures U64(v).Ok? <==> 0 <= v <= U64_MAX
    ensures U64(v).Ok? ==> |U64(v).value| == 8 && ReadLe(U64(v).value) == v
    ensures I64(v).Ok? <==> I64_MIN <= v <= I64_MAX
    ensures I64(v).Ok? ==> |I64(v).value| == 8 && ReadI64(I64(v).value) == v
  {
    Powers();
    if 0 <= v <= U16_MAX {
      ReadToLe(2, v);
    }
    if 0 <= v <= U64_MAX {
      ReadToLe(8, v);
    }
    if I64_MIN <= v < 0 {
      ReadToLe(8, v + TWO_64);
    }
  }

  // ---- Concatenation of fields ----

  function Flatten(parts: seq<seq<byte>>): seq<byte> {
    if parts == [] then [] else parts[0] + Flatten(parts[1..])
  }

  predicate SameShape(a: seq<seq<byte>>, b: seq<seq<byte>>) {
    |a| == |b| && forall i | 0 <= i < |a| :: |a[i]| == |b[i]|
  }

  /** Two lists of fields with the same lengths that start the same byte string are the same list. */
  lemma {:induction false} FlattenInjective(a: seq<seq<byte>>, b: seq<seq<byte>>, s: seq<byte>, t: seq<byte>)
    requires SameShape(a, b) && Flatten(a) + s == Flatten(b) + t
    ensures a == b && s == t
  {
    if a == [] {
      assert Flatten(a) + s == s && Flatten(b) + t == t;
    } else {
      var x, y := Flatten(a) + s, Flatten(b) + t;
      var n := |a[0]|;
      assert a[0] == x[..n] && b[0] == y[..n];
      assert Flatten(a[1..]) + s == x[n..] && Flatten(b[1..]) + t == y[n..];
      assert SameShape(a[1..], b[1..]) by {
        assert forall i | 0 <= i < |a[1..]| :: a[1..][i] == a[i + 1] && b[1..][i] == b[i + 1];
      }
      FlattenInjective(a[1..], b[1..], s, t);
      assert a == [a[0]] + a[1..] && b == [b[0]] + b[1..];
    }
  }

  /** Where the i-th field starts. */
  function Offset(parts: seq<seq<byte>>, i: nat): nat
    requires i <= |parts|
  {
    if i == 0 then 0 else |parts[0]| + Offset(parts[1..], i - 1)
  }

  lemma {:induction false} FieldAt(parts: seq<seq<byte>>, i: nat)
    requires i < |parts|
    ensures Offset(parts, i) + |parts[i]| <= |Flatten(parts)|
    ensures Flatten(parts)[Offset(parts, i)..Offset(parts, i) + |parts[i]|] == parts[i]
  {
    if i > 0 {
      FieldAt(parts[1..], i - 1);
    }
  }

  // ---- Place-order payload ----

  datatype Side = Bid | Ask

  datatype OrderType = Limit | ImmediateOrCancel | PostOnly | Market | PostOnlySlide

  datatype SelfTrade = DecrementTake | CancelProvide | AbortTransaction

  datatype PlaceOrder = PlaceOrder(
    side: Side,
    priceLots: int,
    maxBaseLots: int,
    maxQuoteLots: int,
    clientOrderId: int,
    orderType: OrderType,
    selfTrade: SelfTrade,
    reduceOnly: bool,
    expiryTimestamp: int,
    limit: int)

  const PAYLOAD_VERSION: byte := 1
  const PLACE_ORDER_V2: byte := 0
  const PLACE_ORDER_BYTES := 49

  function SideByte(s: Side): byte {
    match s case Bid => 0 case Ask => 1
  }

  function OrderTypeByte(t: OrderType): byte {
    match t case Limit => 0 case ImmediateOrCancel => 1 case PostOnly => 2 case Market => 3 case PostOnlySlide => 4
  }

  function SelfTradeByte(s: SelfTrade): byte {
    match s case DecrementTake => 0 case CancelProvide => 1 case AbortTransaction => 2
  }

  function PlaceOrderParts(o: PlaceOrder): Result<seq<seq<byte>>, Error> {
    var price :- I64(o.priceLots);
    var maxBase :- I64(o.maxBaseLots);
    var maxQuote :- I64(o.maxQuoteLots);
    var clientOrderId :- U64(o.clientOrderId);
    var expiry :- U64(o.expiryTimestamp);
    var limit :- U8(o.limit);
    Ok([[PAYLOAD_VERSION, PLACE_ORDER_V2], ToLe(2, 0),
        [SideByte(o.side)], price, maxBase, maxQuote, clientOrderId,
        [OrderTypeByte(o.orderType)], [SelfTradeByte(o.selfTrade)], [if o.reduceOnly then 1 else 0],
        expiry, limit])
  }

  function EncodePlaceOrder(o: PlaceOrder): Result<seq<byte>, Error> {
    var parts :- PlaceOrderParts(o);
    Ok(Flatten(parts))
  }

  /** A reader of the fixed layout; it accepts only the values the encoder writes. */
  function ReadPlaceOrder(p: seq<byte>): Option<PlaceOrder> {
    if |p| != PLACE_ORDER_BYTES || p[0] != PAYLOAD_VERSION || p[1] != PLACE_ORDER_V2 || p[2] != 0 || p[3] != 0
       || p[4] > 1 || p[37] > 4 || p[38] > 2 || p[39] > 1
    then None
    else Some(PlaceOrder(
      if p[4] == 0 then Bid else Ask,
      ReadI64(p[5..13]), ReadI64(p[13..21]), ReadI64(p[21..29]), ReadLe(p[29..37]),
      match p[37] case 0 => Limit case 1 => ImmediateOrCancel case 2 => PostOnly case 3 => Market
                  case _ => PostOnlySlide,
      match p[38] case 0 => DecrementTake case 1 => CancelProvide case _ => AbortTransaction,
      p[39] == 1,
      ReadLe(p[40..48]),
      p[48]))
  }

  predicate OrderInRange(o: PlaceOrder) {
    && I64_MIN <= o.priceLots <= I64_MAX
    && I64_MIN <= o.maxBaseLots <= I64_MAX
    && I64_MIN <= o.maxQuoteLots <= I64_MAX
    && 0 <= o.clientOrderId <= U64_MAX
    && 0 <= o.expiryTimestamp <= U64_MAX
    && 0 <= o.limit <= 0xFF
  }

  /** The layout: where each field lies, and that it is all there is. */
  lemma {:induction false} Layout(parts: seq<seq<byte>>, n: nat)
    requires n <= |parts|
    ensures forall i | 0 <= i < n ::
              && Offset(parts, i + 1) == Offset(parts, i) + |parts[i]| <= |Flatten(parts)|
              && Flatten(parts)[Offset(parts, i)..Offset(parts, i + 1)] == parts[i]
    ensures n == |parts| ==> |Flatten(parts)| == Offset(parts, n)
  {
    if n > 0 {
      Layout(parts, n - 1);
      FieldAt(parts, n - 1);
      OffsetStep(parts, n - 1);
    }
    if n == |parts| {
      OffsetIsLength(parts);
    }
  }

  lemma {:induction false} OffsetStep(parts: seq<seq<byte>>, i: nat)
    requires i < |parts|
    ensures Offset(parts, i + 1) == Offset(parts, i) + |parts[i]|
  {
    if i > 0 {
      OffsetStep(parts[1..], i - 1);
    }
  }

  lemma {:induction false} OffsetIsLength(parts: seq<seq<byte>>)
    ensures Offset(parts, |parts|) == |Flatten(parts)|
  {
    if parts != [] {
      OffsetIsLength(parts[1..]);
    }
  }

  predicate PlaceOrderShape(parts: seq<seq<byte>>) {
    && |parts| == 12
    && |parts[0]| == 2 && |parts[1]| == 2 && |parts[2]| == 1
    && |parts[3]| == 8 && |parts[4]| == 8 && |parts[5]| == 8 && |parts[6]| == 8
    && |parts[7]| == 1 && |parts[8]| == 1 && |parts[9]| == 1
    && |parts[10]| == 8 && |parts[11]| == 1
  }

  lemma PlaceOrderLayout(parts: seq<seq<byte>>)
    requires PlaceOrderShape(parts)
    ensures var p := Flatten(parts);
            && |p| == PLACE_ORDER_BYTES
            && p[0..2] == parts[0] && p[2..4] == parts[1] && p[4..5] == parts[2]
            && p[5..13] == parts[3] && p[13..21] == parts[4] && p[21..29] == parts[5] && p[29..37] == parts[6]
            && p[37..38] == parts[7] && p[38..39] == parts[8] && p[39..40] == parts[9]
            && p[40..48] == parts[10] && p[48..49] == parts[11]
  {
    Layout(parts, 12);
    assert Offset(parts, 1) == 2;
    assert Offset(parts, 2) == 4;
    assert Offset(parts, 3) == 5;
    assert Offset(parts, 4) == 13;
    assert Offset(parts, 5) == 21;
    assert Offset(parts, 6) == 29;
    assert Offset(parts, 7) == 37;
    assert Offset(parts, 8) == 38;
    assert Offset(parts, 9) == 39;
    assert Offset(parts, 10) == 40;
    assert Offset(parts, 11) == 48;
  }

  lemma PlaceOrderAccepts(o: PlaceOrder)
    ensures PlaceOrderParts(o).Ok? <==> OrderInRange(o)
    ensures PlaceOrderParts(o).Ok? ==> PlaceOrderShape(PlaceOrderParts(o).value)
  {
  }

  /** The numeric fields of the parts are those of the order. */
  lemma PlaceOrderNumbers(o: PlaceOrder)
    requires OrderInRange(o)
    ensures PlaceOrderParts(o).Ok?
    ensures var parts := PlaceOrderParts(o).value;
            && |parts| == 12
            && ReadI64(parts[3]) == o.priceLots && ReadI64(parts[4]) == o.maxBaseLots
                  && ReadI64(parts[5]) == o.maxQuoteLots
            && ReadLe(parts[6]) == o.clientOrderId && ReadLe(parts[10]) == o.expiryTimestamp
  {
    EncodersReadBack(o.priceLots);
    EncodersReadBack(o.maxBaseLots);
    EncodersReadBack(o.maxQuoteLots);
    EncodersReadBack(o.clientOrderId);
    EncodersReadBack(o.expiryTimestamp);
  }

  /** The bytes at the fixed offsets are the order's. */
  ghost predicate Spells(p: seq<byte>, o: PlaceOrder) {
    && |p| == PLACE_ORDER_BYTES
    && p[0] == PAYLOAD_VERSION && p[1] == PLACE_ORDER_V2 && p[2] == 0 && p[3] == 0
    && p[4] == SideByte(o.side)
    && ReadI64(p[5..13]) == o.priceLots && ReadI64(p[13..21]) == o.maxBaseLots && ReadI64(p[21..29]) == o.maxQuoteLots
    && ReadLe(p[29..37]) == o.clientOrderId
    && p[37] == OrderTypeByte(o.orderType) && p[38] == SelfTradeByte(o.selfTrade)
    && p[39] == (if o.reduceOnly then 1 else 0)
    && ReadLe(p[40..48]) == o.expiryTimestamp && p[48] == o.limit
  }

  lemma SpelledOrderReads(p: seq<byte>, o: PlaceOrder)
    ensures Spells(p, o) ==> ReadPlaceOrder(p) == Some(o)
    ensures ReadPlaceOrder(p) == Some(o) ==> Spells(p, o)
  {
  }

  lemma ReadableHeader(p: seq<byte>)
    requires |p| == PLACE_ORDER_BYTES && p[37] == 1 && p[39] == 1
    ensures ReadPlaceOrder(p).Some? <==> p[..4] == [PAYLOAD_VERSION, PLACE_ORDER_V2, 0, 0] && p[4] <= 1 && p[38] <= 2
  {
    var header := p[..4];
    assert header[0] == p[0] && header[1] == p[1] && header[2] == p[2] && header[3] == p[3];
  }

  lemma EncodedOrderIsSpelled(o: PlaceOrder)
    requires OrderInRange(o)
    ensures EncodePlaceOrder(o).Ok? && Spells(EncodePlaceOrder(o).value, o)
  {
    PlaceOrderAccepts(o);
    PlaceOrderNumbers(o);
    var parts := PlaceOrderParts(o).value;
    PlaceOrderLayout(parts);
    var p := Flatten(parts);
    assert parts[1] == [0, 0];
    assert p[0] == p[0..2][0] && p[1] == p[0..2][1] && p[2] == p[2..4][0] && p[3] == p[2..4][1];
    assert p[4] == p[4..5][0] && p[37] == p[37..38][0] && p[38] == p[38..39][0];
    assert p[39] == p[39..40][0] && p[48] == p[48..49][0];
  }

  /** Exactly the in-range orders encode, always into 49 bytes, and a reader at fixed offsets recovers every field. */
  lemma PlaceOrderReadsBack(o: PlaceOrder)
    ensures EncodePlaceOrder(o).Ok? <==> OrderInRange(o)
    ensures EncodePlaceOrder(o).Ok? ==>
              |EncodePlaceOrder(o).value| == PLACE_ORDER_BYTES && ReadPlaceOrder(EncodePlaceOrder(o).value) == Some(o)
  {
    PlaceOrderAccepts(o);
    if OrderInRange(o) {
      EncodedOrderIsSpelled(o);
      SpelledOrderReads(EncodePlaceOrder(o).value, o);
    }
  }

  lemma ReadBytesEncode(bytes: seq<byte>)
    requires |bytes| == 8
    ensures U64(ReadLe(bytes)) == Ok(bytes) && I64(ReadI64(bytes)) == Ok(bytes)
  {
    Powers();
    ToReadLe(bytes);
  }

  lemma SpelledOrderEncodes(p: seq<byte>, o: PlaceOrder)
    requires Spells(p, o)
    ensures OrderInRange(o) && PlaceOrderParts(o).Ok?
    ensures var parts := PlaceOrderParts(o).value;
            && PlaceOrderShape(parts)
            && parts[0] == p[0..2] && parts[1] == p[2..4] && parts[2] == p[4..5]
            && parts[3] == p[5..13] && parts[4] == p[13..21] && parts[5] == p[21..29] && parts[6] == p[29..37]
            && parts[7] == p[37..38] && parts[8] == p[38..39] && parts[9] == p[39..40]
            && parts[10] == p[40..48] && parts[11] == p[48..49]
  {
    ReadBytesEncode(p[5..13]);
    ReadBytesEncode(p[13..21]);
    ReadBytesEncode(p[21..29]);
    ReadBytesEncode(p[29..37]);
    ReadBytesEncode(p[40..48]);
    assert ToLe(2, 0) == [0, 0];
  }

  /** The payload is canonical: whatever the reader accepts is exactly what the encoder writes for what it read. */
  lemma ReadPayloadIsCanonical(p: seq<byte>)
    requires ReadPlaceOrder(p).Some?
    ensures EncodePlaceOrder(ReadPlaceOrder(p).value) == Ok(p)
  {
    var o := ReadPlaceOrder(p).value;
    SpelledOrderReads(p, o);
    SpelledOrderEncodes(p, o);
    var q := Flatten(PlaceOrderParts(o).value);
    PlaceOrderLayout(PlaceOrderParts(o).value);
    SlicesDetermine(p, q);
  }

  lemma SlicesDetermine(p: seq<byte>, q: seq<byte>)
    requires |p| == |q| == PLACE_ORDER_BYTES
    requires p[0..2] == q[0..2] && p[2..4] == q[2..4] && p[4..5] == q[4..5]
    requires p[5..13] == q[5..13] && p[13..21] == q[13..21] && p[21..29] == q[21..29] && p[29..37] == q[29..37]
    requires p[37..38] == q[37..38] && p[38..39] == q[38..39] && p[39..40] == q[39..40]
    requires p[40..48] == q[40..48] && p[48..49] == q[48..49]
    ensures p == q
  {
    ExtendEqual(p, q, 0, 2);
    ExtendEqual(p, q, 2, 4);
    ExtendEqual(p, q, 4, 5);
    ExtendEqual(p, q, 5, 13);
    ExtendEqual(p, q, 13, 21);
    ExtendEqual(p, q, 21, 29);
    ExtendEqual(p, q, 29, 37);
    ExtendEqual(p, q, 37, 38);
    ExtendEqual(p, q, 38, 39);
    ExtendEqual(p, q, 39, 40);
    ExtendEqual(p, q, 40, 48);
    ExtendEqual(p, q, 48, 49);
    assert p == p[..49] && q == q[..49];
  }

  lemma ExtendEqual(p: seq<byte>, q: seq<byte>, i: nat, j: nat)
    requires i <= j <= |p| == |q| && p[..i] == q[..i] && p[i..j] == q[i..j]
    ensures p[..j] == q[..j]
  {
    assert p[..j] == p[..i] + p[i..j] && q[..j] == q[..i] + q[i..j];
  }

  // ---- The queue payloads together ----

  datatype Payload = Place(order: PlaceOrder) | CancelById(clientOrderId: int) | CancelAll(limit: int)

  const CANCEL_BY_CLIENT_ORDER_ID: byte := 2
  const CANCEL_ALL_ORDERS: byte := 3

  function Envelope(variant: byte, body: seq<byte>): seq<byte> {
    [PAYLOAD_VERSION, variant] + ToLe(2, 0) + body
  }

  function EncodePayload(p: Payload): Result<seq<byte>, Error> {
    match p
    case Place(order) => EncodePlaceOrder(order)
    case CancelById(id) =>
      var body :- U64(id);
      Ok(Envelope(CANCEL_BY_CLIENT_ORDER_ID, body))
    case CancelAll(limit) =>
      var body :- U8(limit);
      Ok(Envelope(CANCEL_ALL_ORDERS, body))
  }

  function ReadPayload(bytes: seq<byte>): Option<Payload> {
    if |bytes| < 4 || bytes[0] != PAYLOAD_VERSION || bytes[2] != 0 || bytes[3] != 0 then None
    else if bytes[1] == PLACE_ORDER_V2 then
      var order := ReadPlaceOrder(bytes);
      if order.Some? then Some(Place(order.value)) else None
    else if bytes[1] == CANCEL_BY_CLIENT_ORDER_ID && |bytes| == 12 then Some(CancelById(ReadLe(bytes[4..])))
    else if bytes[1] == CANCEL_ALL_ORDERS && |bytes| == 5 then Some(CancelAll(bytes[4]))
    else None
  }

  lemma EnvelopeLayout(variant: byte, body: seq<byte>)
    ensures var e := Envelope(variant, body);
            |e| == 4 + |body| && e[0] == PAYLOAD_VERSION && e[1] == variant && e[2] == 0 && e[3] == 0 && e[4..] == body
  {
    assert ToLe(2, 0) == [0, 0];
  }

  /** One reader tells the three kinds of payload apart and recovers each; so no payload is another's bytes. */
  lemma PayloadReadsBack(p: Payload)
    requires EncodePayload(p).Ok?
    ensures ReadPayload(EncodePayload(p).value) == Some(p)
  {
    match p
    case Place(order) =>
      PlaceOrderReadsBack(order);
    case CancelById(id) =>
      EncodersReadBack(id);
      EnvelopeLayout(CANCEL_BY_CLIENT_ORDER_ID, U64(id).value);
    case CancelAll(limit) =>
      EncodersReadBack(limit);
      EnvelopeLayout(CANCEL_ALL_ORDERS, U8(limit).value);
  }

  lemma EnvelopeRebuilt(bytes: seq<byte>)
    requires |bytes| >= 4 && bytes[0] == PAYLOAD_VERSION && bytes[2] == 0 && bytes[3] == 0
    ensures Envelope(bytes[1], bytes[4..]) == bytes
  {
    assert ToLe(2, 0) == [0, 0];
  }

  /** Of every kind, whatever the reader accepts is exactly what is written for what it read. */
  lemma PayloadIsCanonical(bytes: seq<byte>)
    requires ReadPayload(bytes).Some?
    ensures EncodePayload(ReadPayload(bytes).value) == Ok(bytes)
  {
    EnvelopeRebuilt(bytes);
    match ReadPayload(bytes).value
    case Place(_) => ReadPayloadIsCanonical(bytes);
    case CancelById(_) => ReadBytesEncode(bytes[4..]);
    case CancelAll(_) => assert bytes[4..] == [bytes[4]];
  }
}
