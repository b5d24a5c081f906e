/** The strict sanitizer of one trigger leg (src/triggerOrderViews.ts), and how it relates to the lenient whitelist. */
module LegSanitizer {
  import opened Limits
  import opened Results
  import opened Redaction

  const MAX_REASON_CHARS := 200
  const MAX_MARKET_INDEX := 0xFFFF

  datatype Armed = Armed(slot: nat, tsMs: nat, positionLots: string)

  datatype LastFire = LastFire(attempt: nat, sequence: Option<string>, tsMs: nat, outcome: Option<string>)

  /** A leg as the harness serves it. */
  datatype View = View(
    id: string, mangoAccount: string, accountOwner: string, marketIndex: nat, clientOrderId: string,
    kind: string, direction: string, side: string,
    triggerPriceLots: string, limitPriceLots: string, maxBaseLots: string, reduceOnly: bool,
    ocoGroup: string, expiryTs: string, state: string,
    stateReason: Option<string>, waitReason: Option<string>, resignRequired: bool,
    createdMs: nat, updatedMs: nat, armed: Option<Armed>, lastFire: Option<LastFire>)

  // ---- Character classes ----

  predicate IsDigit(c: char) {
    '0' <= c <= '9'
  }

  predicate IsBase58Char(c: char) {
    || '1' <= c <= '9' || 'A' <= c <= 'H' || 'J' <= c <= 'N' || 'P' <= c <= 'Z'
    || 'a' <= c <= 'k' || 'm' <= c <= 'z'
  }

  predicate IsIdChar(c: char) {
    IsDigit(c) || 'A' <= c <= 'Z' || 'a' <= c <= 'z' || c == '_' || c == '.' || c == ':' || c == '-'
  }

  predicate UnsignedDecimal(s: string) {
    1 <= |s| <= 20 && forall i | 0 <= i < |s| :: IsDigit(s[i])
  }

  predicate SignedDecimal(s: string) {
    UnsignedDecimal(s) || (s != "" && s[0] == '-' && UnsignedDecimal(s[1..]))
  }

  predicate IsPubkeyText(s: string) {
    32 <= |s| <= 44 && forall i | 0 <= i < |s| :: IsBase58Char(s[i])
  }

  predicate IsLegId(s: string) {
    1 <= |s| <= 128 && (forall i | 0 <= i < |s| :: IsIdChar(s[i])) && s != "." && s != ".."
  }

  predicate IsStateName(s: string) {
    1 <= |s| <= 48 && forall i | 0 <= i < |s| :: 'a' <= s[i] <= 'z' || s[i] == '_'
  }

  // ---- Scalars ----

  /** The value under a key; a missing one is undefined. */
  function At(fields: map<string, Json>, key: string): Option<Json> {
    if key in fields then Some(fields[key]) else None
  }

  predicate IsSafeInteger(x: real) {
    x.Floor as real == x && -MAX_SAFE_INTEGER <= x.Floor <= MAX_SAFE_INTEGER
  }

  function DigitsOf(n: nat): (s: string)
    ensures s != "" && forall i | 0 <= i < |s| :: IsDigit(s[i])
    decreases n
  {
    var low := ['0' + (n % 10) as char];
    if n < 10 then low else DigitsOf(n / 10) + low
  }

  function IntText(n: int): string {
    if n < 0 then ['-'] + DigitsOf(-n) else DigitsOf(n)
  }

  function ParseDigits(s: string): int
    requires forall i | 0 <= i < |s| :: IsDigit(s[i])
  {
    if s == "" then 0 else ParseDigits(s[..|s| - 1]) * 10 + (s[|s| - 1] as int - '0' as int)
  }

  /** A decimal string, or a safe integer turned into one. */
  function DecimalString(v: Option<Json>, signed: bool): Option<string> {
    match v
    case Some(Str(s)) => if (if signed then SignedDecimal(s) else UnsignedDecimal(s)) then Some(s) else None
    case Some(Num(x)) => if IsSafeInteger(x) && (signed || x >= 0.0) then Some(IntText(x.Floor)) else None
    case _ => None
  }

  function NonNegativeSafeInteger(v: Option<Json>): Option<nat> {
    match v
    case Some(Num(x)) => if IsSafeInteger(x) && x >= 0.0 then Some(x.Floor) else None
    case Some(Str(s)) =>
      if UnsignedDecimal(s) && 0 <= ParseDigits(s) <= MAX_SAFE_INTEGER then Some(ParseDigits(s)) else None
    case _ => None
  }

  /** No reason, a reason cut to its maximum length, or (outer None) something that is no reason at all. */
  function ReasonString(v: Option<Json>): Option<Option<string>> {
    match v
    case None => Some(None)
    case Some(Null) => Some(None)
    case Some(Str(s)) => Some(Some(if |s| > MAX_REASON_CHARS then s[..MAX_REASON_CHARS] else s))
    case _ => None
  }

  function SanitizeArmed(v: Option<Json>): Option<Armed> {
    if v == None || !v.value.Obj? then None
    else
      var f := v.value.fields;
      var slot, tsMs := NonNegativeSafeInteger(At(f, "slot")), NonNegativeSafeInteger(At(f, "ts_ms"));
      var positionLots := DecimalString(At(f, "position_lots"), true);
      if slot == None || tsMs == None || positionLots == None then None
      else Some(Armed(slot.value, tsMs.value, positionLots.value))
  }

  predicate Absent(v: Option<Json>) {
    v == None || v == Some(Null)
  }

  function SanitizeLastFire(v: Option<Json>): Option<LastFire> {
    if v == None || !v.value.Obj? then None
    else
      var f := v.value.fields;
      var attempt, tsMs := NonNegativeSafeInteger(At(f, "attempt")), NonNegativeSafeInteger(At(f, "ts_ms"));
      var sequence := if Absent(At(f, "sequence")) then None else DecimalString(At(f, "sequence"), false);
      var outcome := ReasonString(At(f, "outcome"));
      if || attempt == None || tsMs == None || outcome == None
         || (sequence == None && !Absent(At(f, "sequence")))
      then None
      else Some(LastFire(attempt.value, sequence, tsMs.value, outcome.value))
  }

  function TextOf(v: Option<Json>): Option<string> {
    match v case Some(Str(s)) => Some(s) case _ => None
  }

  predicate TextIn(v: Option<Json>, allowed: set<string>) {
    TextOf(v).Some? && TextOf(v).value in allowed
  }

  predicate IsBool(v: Option<Json>) {
    v.Some? && v.value.Bool?
  }

  // The fields a client needs, in four groups; each must be exactly as specified.

  predicate IdentityAccepted(f: map<string, Json>) {
    && TextOf(At(f, "id")).Some? && IsLegId(TextOf(At(f, "id")).value)
    && TextOf(At(f, "mango_account")).Some? && IsPubkeyText(TextOf(At(f, "mango_account")).value)
    && TextOf(At(f, "account_owner")).Some? && IsPubkeyText(TextOf(At(f, "account_owner")).value)
    && NonNegativeSafeInteger(At(f, "market_index")).Some?
    && NonNegativeSafeInteger(At(f, "market_index")).value <= MAX_MARKET_INDEX
    && DecimalString(At(f, "client_order_id"), false).Some?
    && TextIn(At(f, "kind"), {"stop_loss", "take_profit"})
  }

  predicate PricesAccepted(f: map<string, Json>) {
    && TextIn(At(f, "direction"), {"at_or_below", "at_or_above"})
    && TextIn(At(f, "side"), {"bid", "ask"})
    && DecimalString(At(f, "trigger_price_lots"), false).Some?
    && DecimalString(At(f, "limit_price_lots"), false).Some?
    && DecimalString(At(f, "max_base_lots"), false).Some?
    && IsBool(At(f, "reduce_only"))
  }

  predicate StateAccepted(f: map<string, Json>) {
    && DecimalString(At(f, "oco_group"), false).Some?
    && DecimalString(At(f, "expiry_ts"), false).Some?
    && TextOf(At(f, "state")).Some? && IsStateName(TextOf(At(f, "state")).value)
    && ReasonString(At(f, "state_reason")).Some?
    && ReasonString(At(f, "wait_reason")).Some?
  }

  predicate TimesAccepted(f: map<string, Json>) {
    && IsBool(At(f, "resign_required"))
    && NonNegativeSafeInteger(At(f, "created_ms")).Some?
    && NonNegativeSafeInteger(At(f, "updated_ms")).Some?
  }

  /** A leg with all needed fields in order becomes a view; `armed` and `last_fire` are dropped when malformed. */
  function Sanitize(raw: Json): Option<View> {
    if raw.Obj? && IdentityAccepted(raw.fields) && PricesAccepted(raw.fields) && StateAccepted(raw.fields)
          && TimesAccepted(raw.fields)
    then Some(ViewOf(raw.fields))
    else None
  }

  function ViewOf(f: map<string, Json>): View
    requires IdentityAccepted(f) && PricesAccepted(f) && StateAccepted(f) && TimesAccepted(f)
  {
    View(
      TextOf(At(f, "id")).value, TextOf(At(f, "mango_account")).value, TextOf(At(f, "account_owner")).value,
      NonNegativeSafeInteger(At(f, "market_index")).value, DecimalString(At(f, "client_order_id"), false).value,
      TextOf(At(f, "kind")).value, TextOf(At(f, "direction")).value, TextOf(At(f, "side")).value,
      DecimalString(At(f, "trigger_price_lots"), false).value, DecimalString(At(f, "limit_price_lots"), false).value,
      DecimalString(At(f, "max_base_lots"), false).value, f["reduce_only"].b,
      DecimalString(At(f, "oco_group"), false).value, DecimalString(At(f, "expiry_ts"), false).value,
      TextOf(At(f, "state")).value, ReasonString(At(f, "state_reason")).value, ReasonString(At(f, "wait_reason")).value,
      f["resign_required"].b,
      NonNegativeSafeInteger(At(f, "created_ms")).value, NonNegativeSafeInteger(At(f, "updated_ms")).value,
      SanitizeArmed(At(f, "armed")), SanitizeLastFire(At(f, "last_fire")))
  }

  // ---- The view as JSON ----

  function TextOrNull(s: Option<string>): Json {
    if s.Some? then Str(s.value) else Null
  }

  function ArmedJson(a: Option<Armed>): Json {
    if a == None then Null
    else Obj(map["slot" := Num(a.value.slot as real), "ts_ms" := Num(a.value.tsMs as real),
                 "position_lots" := Str(a.value.positionLots)])
  }

  function LastFireJson(l: Option<LastFire>): Json {
    if l == None then Null
    else Obj(map["attempt" := Num(l.value.attempt as real), "sequence" := TextOrNull(l.value.sequence),
                 "ts_ms" := Num(l.value.tsMs as real), "outcome" := TextOrNull(l.value.outcome)])
  }

  /** The view's values, in the order of its fields. */
  function Values(v: View): (values: seq<Json>)
    ensures |values| == |VIEW_FIELDS| == 22
  {
    [Str(v.id), Str(v.mangoAccount), Str(v.accountOwner), Num(v.marketIndex as real), Str(v.clientOrderId), Str(v.kind),
     Str(v.direction), Str(v.side), Str(v.triggerPriceLots), Str(v.limitPriceLots), Str(v.maxBaseLots),
     Bool(v.reduceOnly), Str(v.ocoGroup), Str(v.expiryTs), Str(v.state), TextOrNull(v.stateReason),
     TextOrNull(v.waitReason), Bool(v.resignRequired), Num(v.createdMs as real), Num(v.updatedMs as real),
     ArmedJson(v.armed), LastFireJson(v.lastFire)]
  }

  /** The object with those keys and values. */
  function Zip(keys: seq<string>, values: seq<Json>): (fields: map<string, Json>)
    requires |keys| == |values|
    ensures forall k :: k in fields <==> k in keys
  {
    if keys == [] then map[]
    else
      var n := |keys| - 1;
      assert keys == keys[..n] + [keys[n]];
      Zip(keys[..n], values[..n])[keys[n] := values[n]]
  }

  function ViewFields(v: View): map<string, Json> {
    Zip(VIEW_FIELDS, Values(v))
  }

  predicate AllDiffer(keys: seq<string>) {
    forall i, j | 0 <= i < j < |keys| :: keys[i] != keys[j]
  }

  lemma AllDifferPrefix(keys: seq<string>, n: nat)
    requires AllDiffer(keys) && n <= |keys|
    ensures AllDiffer(keys[..n])
  {
  }

  lemma {:induction false} ZipAt(keys: seq<string>, values: seq<Json>, i: nat)
    requires |keys| == |values| && i < |keys| && AllDiffer(keys)
    ensures At(Zip(keys, values), keys[i]) == Some(values[i])
  {
    var n := |keys| - 1;
    if i < n {
      AllDifferPrefix(keys, n);
      ZipAt(keys[..n], values[..n], i);
      assert keys[..n][i] == keys[i] && values[..n][i] == values[i] && keys[i] != keys[n];
    }
  }

  // ---- Numbers written out ----

  lemma {:induction false} DigitsBound(n: nat, k: nat)
    requires 1 <= k && n < Power10(k)
    ensures |DigitsOf(n)| <= k
  {
    if n >= 10 {
      assert k >= 2;
      DigitsBound(n / 10, k - 1);
    }
  }

  function Power10(k: nat): nat {
    if k == 0 then 1 else 10 * Power10(k - 1)
  }

  lemma SafeIntegerText(n: int)
    requires -MAX_SAFE_INTEGER <= n <= MAX_SAFE_INTEGER
    ensures n >= 0 ==> UnsignedDecimal(IntText(n))
    ensures SignedDecimal(IntText(n))
  {
    assert Power10(4) == 10_000;
    assert Power10(8) == 100_000_000;
    assert Power10(12) == 1_000_000_000_000;
    assert Power10(16) == 10_000_000_000_000_000;
    DigitsBound(if n < 0 then -n else n, 16);
    if n < 0 {
      assert IntText(n)[1..] == DigitsOf(-n);
    }
  }

  /** The views that are well formed in every field. */
  ghost predicate WellFormed(v: View) {
    FormedIdentity(v) && FormedPrices(v) && FormedState(v) && FormedArmed(v.armed) && FormedLastFire(v.lastFire)
  }

  ghost predicate FormedIdentity(v: View) {
    && IsLegId(v.id) && IsPubkeyText(v.mangoAccount) && IsPubkeyText(v.accountOwner)
    && v.marketIndex <= MAX_MARKET_INDEX
    && UnsignedDecimal(v.clientOrderId)
    && v.kind in {"stop_loss", "take_profit"}
  }

  ghost predicate FormedPrices(v: View) {
    && v.direction in {"at_or_below", "at_or_above"} && v.side in {"bid", "ask"}
    && UnsignedDecimal(v.triggerPriceLots) && UnsignedDecimal(v.limitPriceLots) && UnsignedDecimal(v.maxBaseLots)
  }

  ghost predicate FormedState(v: View) {
    && UnsignedDecimal(v.ocoGroup) && UnsignedDecimal(v.expiryTs)
    && IsStateName(v.state)
    && ShortReason(v.stateReason) && ShortReason(v.waitReason)
    && v.createdMs <= MAX_SAFE_INTEGER && v.updatedMs <= MAX_SAFE_INTEGER
  }

  ghost predicate FormedArmed(a: Option<Armed>) {
    a.Some? ==>
      && a.value.slot <= MAX_SAFE_INTEGER && a.value.tsMs <= MAX_SAFE_INTEGER
      && SignedDecimal(a.value.positionLots)
  }

  ghost predicate FormedLastFire(l: Option<LastFire>) {
    l.Some? ==>
      && l.value.attempt <= MAX_SAFE_INTEGER && l.value.tsMs <= MAX_SAFE_INTEGER
      && (l.value.sequence.Some? ==> UnsignedDecimal(l.value.sequence.value))
      && ShortReason(l.value.outcome)
  }

  predicate ShortReason(s: Option<string>) {
    s.Some? ==> |s.value| <= MAX_REASON_CHARS
  }

  lemma DecimalFormed(v: Option<Json>, signed: bool)
    ensures var d := DecimalString(v, signed);
            d.Some? ==> SignedDecimal(d.value) && (!signed ==> UnsignedDecimal(d.value))
  {
    match v
    case Some(Num(x)) =>
      if IsSafeInteger(x) {
        SafeIntegerText(x.Floor);
      }
    case _ =>
  }

  lemma IdentityFormed(raw: Json)
    ensures Sanitize(raw).Some? ==> FormedIdentity(Sanitize(raw).value)
  {
    if Sanitize(raw).Some? {
      DecimalFormed(At(raw.fields, "client_order_id"), false);
    }
  }

  lemma PricesFormed(raw: Json)
    ensures Sanitize(raw).Some? ==> FormedPrices(Sanitize(raw).value)
  {
    if Sanitize(raw).Some? {
      DecimalFormed(At(raw.fields, "trigger_price_lots"), false);
      DecimalFormed(At(raw.fields, "limit_price_lots"), false);
      DecimalFormed(At(raw.fields, "max_base_lots"), false);
    }
  }

  lemma StateFormed(raw: Json)
    ensures Sanitize(raw).Some? ==> FormedState(Sanitize(raw).value)
  {
    if Sanitize(raw).Some? {
      DecimalFormed(At(raw.fields, "oco_group"), false);
      DecimalFormed(At(raw.fields, "expiry_ts"), false);
    }
  }

  lemma ArmedFormed(v: Option<Json>)
    ensures FormedArmed(SanitizeArmed(v))
  {
    if SanitizeArmed(v).Some? {
      DecimalFormed(At(v.value.fields, "position_lots"), true);
    }
  }

  lemma LastFireFormed(v: Option<Json>)
    ensures FormedLastFire(SanitizeLastFire(v))
  {
    if SanitizeLastFire(v).Some? {
      DecimalFormed(At(v.value.fields, "sequence"), false);
    }
  }

  /** Only well-formed views come out, whatever goes in. */
  lemma SanitizedIsWellFormed(raw: Json)
    requires Sanitize(raw).Some?
    ensures WellFormed(Sanitize(raw).value)
  {
    IdentityFormed(raw);
    PricesFormed(raw);
    StateFormed(raw);
    ArmedFormed(At(raw.fields, "armed"));
    LastFireFormed(At(raw.fields, "last_fire"));
  }

  /** The object has the view's value under every key. */
  ghost predicate Carries(f: map<string, Json>, v: View) {
    CarriesIds(f, v) && CarriesIdentity(f, v) && CarriesPrices(f, v) && CarriesState(f, v) && CarriesDetail(f, v)
  }

  ghost predicate CarriesIds(f: map<string, Json>, v: View) {
    && At(f, "id") == Some(Str(v.id)) && At(f, "mango_account") == Some(Str(v.mangoAccount))
    && At(f, "account_owner") == Some(Str(v.accountOwner))
  }

  ghost predicate CarriesIdentity(f: map<string, Json>, v: View) {
    && At(f, "market_index") == Some(Num(v.marketIndex as real))
    && At(f, "client_order_id") == Some(Str(v.clientOrderId)) && At(f, "kind") == Some(Str(v.kind))
  }

  ghost predicate CarriesPrices(f: map<string, Json>, v: View) {
    && At(f, "direction") == Some(Str(v.direction)) && At(f, "side") == Some(Str(v.side))
    && At(f, "trigger_price_lots") == Some(Str(v.triggerPriceLots))
    && At(f, "limit_price_lots") == Some(Str(v.limitPriceLots))
    && At(f, "max_base_lots") == Some(Str(v.maxBaseLots)) && At(f, "reduce_only") == Some(Bool(v.reduceOnly))
  }

  ghost predicate CarriesState(f: map<string, Json>, v: View) {
    && At(f, "oco_group") == Some(Str(v.ocoGroup)) && At(f, "expiry_ts") == Some(Str(v.expiryTs))
    && At(f, "state") == Some(Str(v.state)) && At(f, "state_reason") == Some(TextOrNull(v.stateReason))
    && At(f, "wait_reason") == Some(TextOrNull(v.waitReason))
  }

  ghost predicate CarriesDetail(f: map<string, Json>, v: View) {
    && At(f, "resign_required") == Some(Bool(v.resignRequired))
    && At(f, "created_ms") == Some(Num(v.createdMs as real)) && At(f, "updated_ms") == Some(Num(v.updatedMs as real))
    && At(f, "armed") == Some(ArmedJson(v.armed)) && At(f, "last_fire") == Some(LastFireJson(v.lastFire))
  }

  lemma ViewKeysDiffer()
    ensures AllDiffer(VIEW_FIELDS)
  {
  }

  /** The object has every value of the view under its key. */
  ghost predicate Holds(f: map<string, Json>, v: View) {
    forall i | 0 <= i < |VIEW_FIELDS| :: At(f, VIEW_FIELDS[i]) == Some(Values(v)[i])
  }

  lemma ViewHolds(v: View)
    ensures Holds(ViewFields(v), v)
  {
    ViewKeysDiffer();
    forall i | 0 <= i < |VIEW_FIELDS| ensures At(ViewFields(v), VIEW_FIELDS[i]) == Some(Values(v)[i]) {
      ZipAt(VIEW_FIELDS, Values(v), i);
    }
  }

  lemma HeldIds(f: map<string, Json>, v: View)
    requires Holds(f, v)
    ensures CarriesIds(f, v)
  {
    assert At(f, VIEW_FIELDS[0]) == Some(Values(v)[0]);
    assert At(f, VIEW_FIELDS[1]) == Some(Values(v)[1]);
    assert At(f, VIEW_FIELDS[2]) == Some(Values(v)[2]);
  }

  lemma HeldIdentity(f: map<string, Json>, v: View)
    requires Holds(f, v)
    ensures CarriesIdentity(f, v)
  {
    assert At(f, VIEW_FIELDS[3]) == Some(Values(v)[3]);
    assert At(f, VIEW_FIELDS[4]) == Some(Values(v)[4]);
    assert At(f, VIEW_FIELDS[5]) == Some(Values(v)[5]);
  }

  lemma HeldPrices(f: map<string, Json>, v: View)
    requires Holds(f, v)
    ensures CarriesPrices(f, v)
  {
    assert At(f, VIEW_FIELDS[6]) == Some(Values(v)[6]);
    assert At(f, VIEW_FIELDS[7]) == Some(Values(v)[7]);
    assert At(f, VIEW_FIELDS[8]) == Some(Values(v)[8]);
    assert At(f, VIEW_FIELDS[9]) == Some(Values(v)[9]);
    assert At(f, VIEW_FIELDS[10]) == Some(Values(v)[10]);
    assert At(f, VIEW_FIELDS[11]) == Some(Values(v)[11]);
  }

  lemma HeldState(f: map<string, Json>, v: View)
    requires Holds(f, v)
    ensures CarriesState(f, v)
  {
    assert At(f, VIEW_FIELDS[12]) == Some(Values(v)[12]);
    assert At(f, VIEW_FIELDS[13]) == Some(Values(v)[13]);
    assert At(f, VIEW_FIELDS[14]) == Some(Values(v)[14]);
    assert At(f, VIEW_FIELDS[15]) == Some(Values(v)[15]);
    assert At(f, VIEW_FIELDS[16]) == Some(Values(v)[16]);
  }

  lemma HeldDetail(f: map<string, Json>, v: View)
    requires Holds(f, v)
    ensures CarriesDetail(f, v)
  {
    assert At(f, VIEW_FIELDS[17]) == Some(Values(v)[17]);
    assert At(f, VIEW_FIELDS[18]) == Some(Values(v)[18]);
    assert At(f, VIEW_FIELDS[19]) == Some(Values(v)[19]);
    assert At(f, VIEW_FIELDS[20]) == Some(Values(v)[20]);
    assert At(f, VIEW_FIELDS[21]) == Some(Values(v)[21]);
  }

  lemma HoldingCarries(f: map<string, Json>, v: View)
    requires Holds(f, v)
    ensures Carries(f, v)
  {
    HeldIds(f, v);
    HeldIdentity(f, v);
    HeldPrices(f, v);
    HeldState(f, v);
    HeldDetail(f, v);
  }

  lemma IdentityCarried(f: map<string, Json>, v: View)
    requires CarriesIds(f, v) && CarriesIdentity(f, v) && WellFormed(v)
    ensures IdentityAccepted(f)
    ensures NonNegativeSafeInteger(At(f, "market_index")).value == v.marketIndex
    ensures DecimalString(At(f, "client_order_id"), false).value == v.clientOrderId
  {
    assert (v.marketIndex as real).Floor == v.marketIndex;
  }

  lemma PricesCarried(f: map<string, Json>, v: View)
    requires CarriesPrices(f, v) && WellFormed(v)
    ensures PricesAccepted(f)
    ensures DecimalString(At(f, "trigger_price_lots"), false).value == v.triggerPriceLots
    ensures DecimalString(At(f, "limit_price_lots"), false).value == v.limitPriceLots
    ensures DecimalString(At(f, "max_base_lots"), false).value == v.maxBaseLots
  {
  }

  lemma StateCarried(f: map<string, Json>, v: View)
    requires CarriesState(f, v) && WellFormed(v)
    ensures StateAccepted(f)
    ensures DecimalString(At(f, "oco_group"), false).value == v.ocoGroup
    ensures DecimalString(At(f, "expiry_ts"), false).value == v.expiryTs
    ensures ReasonString(At(f, "state_reason")).value == v.stateReason
    ensures ReasonString(At(f, "wait_reason")).value == v.waitReason
  {
  }

  lemma TimesCarried(f: map<string, Json>, v: View)
    requires CarriesDetail(f, v) && WellFormed(v)
    ensures TimesAccepted(f)
    ensures NonNegativeSafeInteger(At(f, "created_ms")).value == v.createdMs
    ensures NonNegativeSafeInteger(At(f, "updated_ms")).value == v.updatedMs
  {
    assert (v.createdMs as real).Floor == v.createdMs;
    assert (v.updatedMs as real).Floor == v.updatedMs;
  }

  lemma ArmedCarried(a: Option<Armed>)
    requires FormedArmed(a)
    ensures SanitizeArmed(Some(ArmedJson(a))) == a
  {
    if a.Some? {
      assert (a.value.slot as real).Floor == a.value.slot;
      assert (a.value.tsMs as real).Floor == a.value.tsMs;
    }
  }

  lemma LastFireCarried(l: Option<LastFire>)
    requires FormedLastFire(l)
    ensures SanitizeLastFire(Some(LastFireJson(l))) == l
  {
    if l.Some? {
      assert (l.value.attempt as real).Floor == l.value.attempt;
      assert (l.value.tsMs as real).Floor == l.value.tsMs;
    }
  }

  lemma CarriedSanitizes(f: map<string, Json>, v: View)
    requires Carries(f, v) && WellFormed(v)
    ensures Sanitize(Obj(f)) == Some(v)
  {
    IdentityCarried(f, v);
    PricesCarried(f, v);
    StateCarried(f, v);
    TimesCarried(f, v);
    ArmedCarried(v.armed);
    LastFireCarried(v.lastFire);
  }

  /** The sanitizer leaves a view alone exactly when it is well formed; and only well-formed views come out of it,
      whatever goes in, so sanitizing twice is sanitizing once. */
  lemma SanitizeFixesWellFormed(v: View)
    ensures Sanitize(Obj(ViewFields(v))) == Some(v) <==> WellFormed(v)
  {
    if Sanitize(Obj(ViewFields(v))) == Some(v) {
      SanitizedIsWellFormed(Obj(ViewFields(v)));
    }
    if WellFormed(v) {
      ViewHolds(v);
      HoldingCarries(ViewFields(v), v);
      CarriedSanitizes(ViewFields(v), v);
    }
  }

  lemma ScalarValues(v: View, i: nat)
    requires i < 20
    ensures IsScalar(Values(v)[i])
  {
  }

  lemma DetailValues(v: View)
    ensures IsDetail(Values(v)[20], ARMED_FIELDS) && IsDetail(Values(v)[21], LAST_FIRE_FIELDS)
    ensures VIEW_FIELDS[20] == "armed" && VIEW_FIELDS[21] == "last_fire"
  {
    assert ARMED_FIELDS[0] == "slot" && ARMED_FIELDS[1] == "ts_ms" && ARMED_FIELDS[2] == "position_lots";
    assert LAST_FIRE_FIELDS[0] == "attempt" && LAST_FIRE_FIELDS[1] == "sequence";
    assert LAST_FIRE_FIELDS[2] == "ts_ms" && LAST_FIRE_FIELDS[3] == "outcome";
  }

  lemma ViewIsLegView(v: View)
    ensures IsLegView(Obj(ViewFields(v)))
  {
    var f := ViewFields(v);
    ViewHolds(v);
    ViewKeysDiffer();
    DetailValues(v);
    forall k | k in f
      ensures if k == "armed" then IsDetail(f[k], ARMED_FIELDS)
              else if k == "last_fire" then IsDetail(f[k], LAST_FIRE_FIELDS)
              else IsScalar(f[k])
    {
      var i :| 0 <= i < |VIEW_FIELDS| && VIEW_FIELDS[i] == k;
      assert At(f, VIEW_FIELDS[i]) == Some(Values(v)[i]);
      if i < 20 {
        ScalarValues(v, i);
      }
    }
  }

  lemma WhitelistKeepsViews(v: View)
    ensures Whitelist(Obj(ViewFields(v))) == Obj(ViewFields(v))
  {
    ViewIsLegView(v);
    WhitelistFixes(Obj(ViewFields(v)));
  }

  /** What the strict sanitizer returns for a leg it accepts, it accepts again unchanged, and the lenient whitelist
      is the identity on it. */
  lemma SanitizedLegsAreStable(raw: Json)
    requires Sanitize(raw).Some?
    ensures var leg := Obj(ViewFields(Sanitize(raw).value));
            Sanitize(leg) == Sanitize(raw) && Whitelist(leg) == leg
  {
    SanitizedIsWellFormed(raw);
    SanitizeFixesWellFormed(Sanitize(raw).value);
    WhitelistKeepsViews(Sanitize(raw).value);
  }
}
