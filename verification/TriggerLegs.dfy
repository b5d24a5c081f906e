/** Stop-loss and take-profit legs: the builder and the check that guards submission (src/triggerOrders.ts). The
    digest function is a parameter; signatures are left out. */
module TriggerLegs {
  import opened Limits
  import opened Results
  import opened RuntimeFlags
  import opened WireCodec
  import opened SignedMessages

  datatype Position = Long | Short

  datatype Size = WholePosition | Lots(lots: int)

  datatype Params = Params(
    group: Pubkey,
    executionQueue: Pubkey,
    sysvar: Pubkey,
    marketIndex: int,
    fermiAccount: Pubkey,
    signer: Pubkey,
    remainingAccounts: seq<AccountMeta>,
    position: Position,
    size: Size,
    stopLossPriceLots: Option<int>,
    takeProfitPriceLots: Option<int>,
    slippageBps: int,
    expiryTs: int,
    oraclePriceLots: Option<int>)

  datatype LegOptions = LegOptions(ocoGroup: Option<int>, salt: Option<int>, limitPriceLots: Option<int>)

  datatype Leg = Leg(
    kind: int,
    terms: TriggerTerms,
    clientOrderId: int,
    payload: seq<byte>,
    intentHash: Hash,
    params: Params)

  // ---- Prices ----

  function TriggerAlreadyMet(direction: int, trigger: int, oracle: int): bool {
    if direction == AT_OR_BELOW then oracle <= trigger else oracle >= trigger
  }

  function DirectionOf(position: Position, kind: int): int {
    if position.Long? == (kind == STOP_LOSS) then AT_OR_BELOW else AT_OR_ABOVE
  }

  /** A long position is closed by an ask, rounded down; a short one by a bid, rounded up. */
  function DefaultLimit(position: Position, trigger: int, slippageBps: int): int {
    if position.Long? then trigger * (BPS - slippageBps) / BPS
    else (trigger * (BPS + slippageBps) + (BPS - 1)) / BPS
  }

  function LimitOf(p: Params, trigger: int, options: LegOptions): int {
    Or(options.limitPriceLots, DefaultLimit(p.position, trigger, p.slippageBps))
  }

  /** All the checks before the terms are committed to. */
  function CheckLeg(p: Params, kind: int, trigger: int, options: LegOptions): Result<int, Error> {
    var _ :- CheckMarketIndex(p.marketIndex);
    var _ :- (if p.size.Lots? then InRange(p.size.lots, 1, I64_MAX) else Ok(0));
    if p.slippageBps < 0 || p.slippageBps >= BPS then Err(BadSlippage)
    else
      var _ :- InRange(trigger, 1, I64_MAX);
      var _ :- (if p.oraclePriceLots.Some? then InRange(p.oraclePriceLots.value, 1, I64_MAX) else Ok(0));
      if p.oraclePriceLots.Some? && TriggerAlreadyMet(DirectionOf(p.position, kind), trigger, p.oraclePriceLots.value)
      then Err(Error.AlreadyMet)
      else
        var limit :- InRange(LimitOf(p, trigger, options), 1, I64_MAX);
        if (if p.position.Long? then limit > trigger else limit < trigger) then Err(NotMarketable)
        else Ok(limit)
  }

  /** Exactly which legs pass: in-range inputs, a trigger the oracle has not reached, and a limit that is in range
      and would execute at the trigger. */
  lemma LegAcceptedIff(p: Params, kind: int, trigger: int, options: LegOptions)
    ensures CheckLeg(p, kind, trigger, options).Ok? <==>
              && 0 <= p.marketIndex < U16_MAX
              && (p.size.Lots? ==> 1 <= p.size.lots <= I64_MAX)
              && 0 <= p.slippageBps < BPS
              && 1 <= trigger <= I64_MAX
              && (p.oraclePriceLots.Some? ==>
                    var oracle := p.oraclePriceLots.value;
                    && 1 <= oracle <= I64_MAX
                    && (if p.position.Long? == (kind == STOP_LOSS) then trigger < oracle else oracle < trigger))
              && var limit := LimitOf(p, trigger, options);
                 && 1 <= limit <= I64_MAX
                 && (if p.position.Long? then limit <= trigger else trigger <= limit)
  {
  }

  // ---- Commitment, payload, intent ----

  type Digest = seq<byte> -> Hash

  /** The first eight bytes of the digest of the terms. */
  function Commitment(digest: Digest, p: Params, terms: TriggerTerms): Result<int, Error> {
    var bytes :- Preimage(Terms(p.group, p.fermiAccount, p.marketIndex, terms));
    Ok(ReadLe(digest(bytes)[..8]))
  }

  function IntentHash(digest: Digest, p: Params, payload: seq<byte>, clientOrderId: int): Result<Hash, Error> {
    var accounts := digest(CtmAccountBytes(p.group, p.executionQueue, p.sysvar, p.remainingAccounts));
    var bytes :- Preimage(IntentV3(p.group, p.fermiAccount, p.signer, None, p.marketIndex, digest(payload), accounts,
                                   Some(0), Some(0), clientOrderId));
    Ok(digest(bytes))
  }

  /** The order a leg fires: a reduce-only immediate-or-cancel order carrying the commitment as its id. */
  function LegOrder(p: Params, limit: int, clientOrderId: int): PlaceOrder {
    PlaceOrder(
      if p.position.Long? then Ask else Bid,
      limit,
      if p.size.Lots? then p.size.lots else I64_MAX,
      I64_MAX,
      clientOrderId,
      ImmediateOrCancel,
      DecrementTake,
      true,
      p.expiryTs,
      10)
  }

  function TermsOf(p: Params, kind: int, trigger: int, options: LegOptions, salt: int): TriggerTerms {
    TriggerTerms(kind, DirectionOf(p.position, kind), trigger, Or(options.ocoGroup, 0), p.expiryTs, salt)
  }

  /** The first salt whose commitment is not zero, with that commitment. */
  function FirstSalt(digest: Digest, p: Params, terms: TriggerTerms, salts: seq<int>): Result<(int, int), Error> {
    if salts == [] then Err(OutOfDraws)
    else
      var c :- Commitment(digest, p, terms.(salt := salts[0]));
      if c != 0 then Ok((salts[0], c)) else FirstSalt(digest, p, terms, salts[1..])
  }

  function AssembleLeg(digest: Digest, p: Params, kind: int, limit: int, terms: TriggerTerms,
        clientOrderId: int): Result<Leg, Error> {
    var _ :- InRange(p.expiryTs, 1, MAX_SAFE_INTEGER);
    var payload :- EncodePlaceOrder(LegOrder(p, limit, clientOrderId));
    var intentHash :- IntentHash(digest, p, payload, clientOrderId);
    Ok(Leg(kind, terms, clientOrderId, payload, intentHash, p))
  }

  /** The salts tried: the caller's, if any, then random draws. */
  function Salts(options: LegOptions, draws: seq<int>): seq<int> {
    if options.salt.Some? then [options.salt.value] + draws else draws
  }

  function BuiltLeg(digest: Digest, p: Params, kind: int, trigger: int, options: LegOptions,
        draws: seq<int>): Result<Leg, Error> {
    var limit :- CheckLeg(p, kind, trigger, options);
    var found :- FirstSalt(digest, p, TermsOf(p, kind, trigger, options, 0), Salts(options, draws));
    AssembleLeg(digest, p, kind, limit, TermsOf(p, kind, trigger, options, found.0), found.1)
  }

  /** Builds a leg, drawing a new salt as long as the commitment is zero. */
  method BuildTriggerOrderLeg(digest: Digest, p: Params, kind: int, trigger: int, options: LegOptions, draws: seq<int>)
    returns (r: Result<Leg, Error>)
    ensures r == BuiltLeg(digest, p, kind, trigger, options, draws)
  {
    var checked := CheckLeg(p, kind, trigger, options);
    if checked.Err? {
      return Err(checked.error);
    }
    var salts := Salts(options, draws);
    if salts == [] {
      return Err(OutOfDraws);
    }
    var next := 1;
    var terms := TermsOf(p, kind, trigger, options, salts[0]);
    ghost var base := terms.(salt := 0);
    var committed := Commitment(digest, p, terms);
    while committed == Ok(0)
      invariant 1 <= next <= |salts| && terms == base.(salt := salts[next - 1])
      invariant committed == Commitment(digest, p, terms)
      invariant FirstSalt(digest, p, base, salts) == FirstSalt(digest, p, base, salts[next - 1..])
      decreases |salts| - next
    {
      assert salts[next - 1..][1..] == salts[next..];
      if next == |salts| {
        return Err(OutOfDraws);
      }
      terms := terms.(salt := salts[next]);
      next := next + 1;
      committed := Commitment(digest, p, terms);
    }
    if committed.Err? {
      return Err(committed.error);
    }
    r := AssembleLeg(digest, p, kind, checked.value, terms, committed.value);
  }

  /** Position i is the first draw whose commitment is not zero, and no draw up to it is out of range. */
  ghost predicate FirstNonZero(digest: Digest, p: Params, terms: TriggerTerms, salts: seq<int>, i: nat) {
    && i < |salts|
    && (forall j | 0 <= j < i :: Commitment(digest, p, terms.(salt := salts[j])) == Ok(0))
    && Commitment(digest, p, terms.(salt := salts[i])).Ok?
    && Commitment(digest, p, terms.(salt := salts[i])) != Ok(0)
  }

  lemma FirstNonZeroLater(digest: Digest, p: Params, terms: TriggerTerms, salts: seq<int>, i: nat)
    requires salts != []
    ensures FirstNonZero(digest, p, terms, salts, i + 1) <==>
              Commitment(digest, p, terms.(salt := salts[0])) == Ok(0) && FirstNonZero(digest, p, terms, salts[1..], i)
  {
    assert forall j | 0 <= j < |salts[1..]| :: salts[1..][j] == salts[j + 1];
    if Commitment(digest, p, terms.(salt := salts[0])) == Ok(0) && FirstNonZero(digest, p, terms, salts[1..], i) {
      forall j | 0 <= j < i + 1 ensures Commitment(digest, p, terms.(salt := salts[j])) == Ok(0) {
        assert j > 0 ==> salts[j] == salts[1..][j - 1];
      }
    }
    if FirstNonZero(digest, p, terms, salts, i + 1) {
      forall j | 0 <= j < i ensures Commitment(digest, p, terms.(salt := salts[1..][j])) == Ok(0) {
        assert salts[1..][j] == salts[j + 1];
      }
    }
  }

  lemma {:induction false} FirstSaltFound(digest: Digest, p: Params, terms: TriggerTerms, salts: seq<int>, i: nat)
    requires FirstNonZero(digest, p, terms, salts, i)
    ensures FirstSalt(digest, p, terms, salts).Ok?
  {
    if i > 0 {
      FirstNonZeroLater(digest, p, terms, salts, i - 1);
      FirstSaltFound(digest, p, terms, salts[1..], i - 1);
    }
  }

  lemma {:induction false} FirstSaltPosition(digest: Digest, p: Params, terms: TriggerTerms,
        salts: seq<int>) returns (i: nat)
    requires FirstSalt(digest, p, terms, salts).Ok?
    ensures FirstNonZero(digest, p, terms, salts, i)
  {
    if Commitment(digest, p, terms.(salt := salts[0])) == Ok(0) {
      i := FirstSaltPosition(digest, p, terms, salts[1..]);
      FirstNonZeroLater(digest, p, terms, salts, i);
      i := i + 1;
    } else {
      i := 0;
    }
  }

  lemma {:induction false} FirstSaltCommits(digest: Digest, p: Params, terms: TriggerTerms, salts: seq<int>)
    requires FirstSalt(digest, p, terms, salts).Ok?
    ensures var (salt, c) := FirstSalt(digest, p, terms, salts).value;
            && salt in salts && c != 0
            && Commitment(digest, p, terms.(salt := salt)) == Ok(c)
  {
    var c := Commitment(digest, p, terms.(salt := salts[0]));
    if c == Ok(0) {
      FirstSaltCommits(digest, p, terms, salts[1..]);
      assert forall s | s in salts[1..] :: s in salts;
    }
  }

  lemma CommitmentIsU64(digest: Digest, p: Params, terms: TriggerTerms)
    requires Commitment(digest, p, terms).Ok?
    ensures 0 <= Commitment(digest, p, terms).value <= U64_MAX
  {
    var bytes := Preimage(Terms(p.group, p.fermiAccount, p.marketIndex, terms)).value;
    ToReadLe(digest(bytes)[..8]);
    Powers();
  }

  lemma AssembleLegIff(digest: Digest, p: Params, kind: int, limit: int, terms: TriggerTerms, clientOrderId: int)
    requires 0 <= p.marketIndex < U16_MAX && (p.size.Lots? ==> 1 <= p.size.lots <= I64_MAX)
    requires 1 <= limit <= I64_MAX && 0 <= clientOrderId <= U64_MAX
    ensures AssembleLeg(digest, p, kind, limit, terms, clientOrderId).Ok? <==> 1 <= p.expiryTs <= MAX_SAFE_INTEGER
  {
    PlaceOrderReadsBack(LegOrder(p, limit, clientOrderId));
  }

  /** Exactly when a leg is built: it passes the checks, its expiry is a positive safe integer, and some salt that is
      tried before one fails has a commitment other than zero. */
  lemma LegBuildsIff(digest: Digest, p: Params, kind: int, trigger: int, options: LegOptions, draws: seq<int>)
    ensures BuiltLeg(digest, p, kind, trigger, options, draws).Ok? <==>
              && CheckLeg(p, kind, trigger, options).Ok?
              && 1 <= p.expiryTs <= MAX_SAFE_INTEGER
              && exists i :: FirstNonZero(digest, p, TermsOf(p, kind, trigger, options, 0), Salts(options, draws), i)
  {
    var terms := TermsOf(p, kind, trigger, options, 0);
    var found := FirstSalt(digest, p, terms, Salts(options, draws));
    if i :| FirstNonZero(digest, p, terms, Salts(options, draws), i) {
      FirstSaltFound(digest, p, terms, Salts(options, draws), i);
    }
    if found.Ok? {
      var i := FirstSaltPosition(digest, p, terms, Salts(options, draws));
    }
    if CheckLeg(p, kind, trigger, options).Ok? && found.Ok? {
      FirstSaltCommits(digest, p, terms, Salts(options, draws));
      CommitmentIsU64(digest, p, terms.(salt := found.value.0));
      LegAcceptedIff(p, kind, trigger, options);
      AssembleLegIff(digest, p, kind, CheckLeg(p, kind, trigger, options).value,
                     TermsOf(p, kind, trigger, options, found.value.0), found.value.1);
    }
  }

  // ---- The check before submission ----

  /** Every check of the submission but the signature's. */
  function CheckSubmission(digest: Digest, leg: Leg): Result<(), Error> {
    var commitment :- Commitment(digest, leg.params, leg.terms);
    if || commitment != leg.clientOrderId
       || |leg.payload| != 49
       || ReadLe(leg.payload[29..37]) != commitment
       || ReadLe(leg.payload[40..48]) != leg.terms.expiryTs
       || leg.payload[37] != 1
       || leg.payload[39] != 1
    then Err(TermsChanged)
    else
      var expected :- IntentHash(digest, leg.params, leg.payload, leg.clientOrderId);
      if expected != leg.intentHash then Err(AccountsChanged) else Ok(())
  }

  lemma CheckedLimit(p: Params, kind: int, trigger: int, options: LegOptions)
    requires CheckLeg(p, kind, trigger, options).Ok?
    ensures CheckLeg(p, kind, trigger, options) == Ok(LimitOf(p, trigger, options))
  {
  }

  lemma AssembledLegReads(digest: Digest, p: Params, kind: int, limit: int, terms: TriggerTerms, clientOrderId: int)
    requires AssembleLeg(digest, p, kind, limit, terms, clientOrderId).Ok?
    ensures var leg := AssembleLeg(digest, p, kind, limit, terms, clientOrderId).value;
            && leg.params == p && leg.kind == kind && leg.clientOrderId == clientOrderId && leg.terms == terms
            && ReadPlaceOrder(leg.payload) == Some(LegOrder(p, limit, clientOrderId))
            && IntentHash(digest, p, leg.payload, clientOrderId) == Ok(leg.intentHash)
  {
    PlaceOrderReadsBack(LegOrder(p, limit, clientOrderId));
  }

  /** A built leg's payload reads back as the reduce-only immediate-or-cancel order for its parameters. */
  lemma BuiltLegOrder(digest: Digest, p: Params, kind: int, trigger: int, options: LegOptions, draws: seq<int>)
    requires BuiltLeg(digest, p, kind, trigger, options, draws).Ok?
    ensures var leg := BuiltLeg(digest, p, kind, trigger, options, draws).value;
            && leg.params == p && leg.kind == kind && leg.clientOrderId != 0
            && leg.terms == TermsOf(p, kind, trigger, options, leg.terms.salt)
            && leg.terms.salt in Salts(options, draws)
            && Commitment(digest, p, leg.terms) == Ok(leg.clientOrderId)
            && ReadPlaceOrder(leg.payload) == Some(LegOrder(p, LimitOf(p, trigger, options), leg.clientOrderId))
            && IntentHash(digest, p, leg.payload, leg.clientOrderId) == Ok(leg.intentHash)
  {
    var terms := TermsOf(p, kind, trigger, options, 0);
    FirstSaltCommits(digest, p, terms, Salts(options, draws));
    var (salt, c) := FirstSalt(digest, p, terms, Salts(options, draws)).value;
    var limit := CheckLeg(p, kind, trigger, options).value;
    CheckedLimit(p, kind, trigger, options);
    AssembledLegReads(digest, p, kind, limit, TermsOf(p, kind, trigger, options, salt), c);
  }

  /** Whatever a leg was built from, it passes every check before submission. */
  lemma BuiltLegPasses(digest: Digest, p: Params, kind: int, trigger: int, options: LegOptions, draws: seq<int>)
    requires BuiltLeg(digest, p, kind, trigger, options, draws).Ok?
    ensures CheckSubmission(digest, BuiltLeg(digest, p, kind, trigger, options, draws).value) == Ok(())
  {
    BuiltLegOrder(digest, p, kind, trigger, options, draws);
    var leg := BuiltLeg(digest, p, kind, trigger, options, draws).value;
    SpelledOrderReads(leg.payload, LegOrder(p, LimitOf(p, trigger, options), leg.clientOrderId));
  }

  /** Whatever leg passes the checks, built here or not: if its payload is a place-order payload at all, which is a
      matter of its header, side and self-trade bytes, the order is immediate-or-cancel and reduce-only, its client
      order id is the commitment to the leg's terms, and it expires when the terms say; and the hash to be signed is
      the intent over exactly this payload. */
  lemma PassingLegIsBoundedOrder(digest: Digest, leg: Leg)
    requires CheckSubmission(digest, leg) == Ok(())
    ensures |leg.payload| == PLACE_ORDER_BYTES
    ensures ReadPlaceOrder(leg.payload).Some? <==>
              leg.payload[..4] == [PAYLOAD_VERSION, PLACE_ORDER_V2, 0, 0] && leg.payload[4] <= 1 && leg.payload[38] <= 2
    ensures forall o | ReadPlaceOrder(leg.payload) == Some(o) ::
              && o.orderType == ImmediateOrCancel && o.reduceOnly
              && Commitment(digest, leg.params, leg.terms) == Ok(o.clientOrderId)
              && o.clientOrderId == leg.clientOrderId
              && o.expiryTimestamp == leg.terms.expiryTs
    ensures IntentHash(digest, leg.params, leg.payload, leg.clientOrderId) == Ok(leg.intentHash)
  {
    ReadableHeader(leg.payload);
    forall o | ReadPlaceOrder(leg.payload) == Some(o)
      ensures o.orderType == ImmediateOrCancel && o.reduceOnly
      ensures o.clientOrderId == leg.clientOrderId && o.expiryTimestamp == leg.terms.expiryTs
    {
      SpelledOrderReads(leg.payload, o);
    }
  }

  /** The checks do not look at the header: any passing leg still passes with another version byte and the hash made
      anew, and then its payload is no place-order payload. */
  lemma HeaderIsNotChecked(digest: Digest, leg: Leg)
    requires CheckSubmission(digest, leg) == Ok(())
    ensures var payload := leg.payload[0 := 0];
            var intentHash := IntentHash(digest, leg.params, payload, leg.clientOrderId);
            && intentHash.Ok?
            && CheckSubmission(digest, leg.(payload := payload, intentHash := intentHash.value)) == Ok(())
            && ReadPlaceOrder(payload) == None
  {
    var payload := leg.payload[0 := 0];
    assert payload[29..37] == leg.payload[29..37] && payload[40..48] == leg.payload[40..48];
  }

  // ---- What a signed hash pins down ----

  /** The two byte strings are different and have one digest. */
  ghost predicate Collide(digest: Digest, a: seq<byte>, b: seq<byte>) {
    a != b && digest(a) == digest(b)
  }

  function AccountsOf(p: Params): seq<AccountMeta> {
    Merged(p.remainingAccounts, [AccountMeta(p.group, false, true), AccountMeta(p.executionQueue, false, true),
                                 AccountMeta(p.sysvar, false, false)])
  }

  function IntentOf(digest: Digest, p: Params, payload: seq<byte>, clientOrderId: int): Message {
    IntentV3(p.group, p.fermiAccount, p.signer, None, p.marketIndex, digest(payload),
             digest(AccountBytes(AccountsOf(p))), Some(0), Some(0), clientOrderId)
  }

  lemma IntentHashIsDigest(digest: Digest, p: Params, payload: seq<byte>, clientOrderId: int)
    requires IntentHash(digest, p, payload, clientOrderId).Ok?
    ensures var bytes := Preimage(IntentOf(digest, p, payload, clientOrderId));
            bytes.Ok? && IntentHash(digest, p, payload, clientOrderId).value == digest(bytes.value)
  {
  }

  lemma SameIntent(digest: Digest, p: Params, x: seq<byte>, i: int, q: Params, y: seq<byte>, j: int)
    requires Preimage(IntentOf(digest, p, x, i)).Ok?
    requires Preimage(IntentOf(digest, p, x, i)) == Preimage(IntentOf(digest, q, y, j))
    ensures digest(x) == digest(y) && i == j
    ensures digest(AccountBytes(AccountsOf(p))) == digest(AccountBytes(AccountsOf(q)))
    ensures p.group == q.group && p.fermiAccount == q.fermiAccount && p.signer == q.signer
    ensures p.marketIndex == q.marketIndex
  {
    PreimagesInjective(IntentOf(digest, p, x, i), IntentOf(digest, q, y, j));
    assert Normal(IntentOf(digest, p, x, i)).clientOrderId == i && Normal(IntentOf(digest, q, y, j)).clientOrderId == j;
  }

  /** The bytes whose digest is a leg's intent hash. */
  function SignedBytes(digest: Digest, leg: Leg): Result<seq<byte>, Error> {
    Preimage(IntentOf(digest, leg.params, leg.payload, leg.clientOrderId))
  }

  /** A signature on one leg's intent hash serves no other leg, unless one of three pairs of byte strings of theirs
      collides: two legs that pass the checks with the same hash have the same payload and id, group, account, signer,
      market and accounts with their flags, and commit to the same terms; or else their intents, their payloads or
      their account lists are different and share a digest. */
  lemma SameHashSameLeg(digest: Digest, a: Leg, b: Leg)
    requires CheckSubmission(digest, a) == Ok(()) && CheckSubmission(digest, b) == Ok(())
    requires a.intentHash == b.intentHash
    ensures SignedBytes(digest, a).Ok? && SignedBytes(digest, b).Ok?
    ensures
      || Collide(digest, SignedBytes(digest, a).value, SignedBytes(digest, b).value)
      || (&& a.clientOrderId == b.clientOrderId
          && a.params.group == b.params.group && a.params.fermiAccount == b.params.fermiAccount
          && a.params.signer == b.params.signer && a.params.marketIndex == b.params.marketIndex
          && Commitment(digest, a.params, a.terms) == Commitment(digest, b.params, b.terms) == Ok(a.clientOrderId)
          && (a.payload == b.payload || Collide(digest, a.payload, b.payload))
          && (|| AccountsOf(a.params) == AccountsOf(b.params)
              || Collide(digest, AccountBytes(AccountsOf(a.params)), AccountBytes(AccountsOf(b.params)))))
  {
    PassingLegIsBoundedOrder(digest, a);
    PassingLegIsBoundedOrder(digest, b);
    IntentHashIsDigest(digest, a.params, a.payload, a.clientOrderId);
    IntentHashIsDigest(digest, b.params, b.payload, b.clientOrderId);
    if SignedBytes(digest, a) == SignedBytes(digest, b) {
      SameIntent(digest, a.params, a.payload, a.clientOrderId, b.params, b.payload, b.clientOrderId);
      if AccountBytes(AccountsOf(a.params)) == AccountBytes(AccountsOf(b.params)) {
        AccountBytesInjective(AccountsOf(a.params), AccountsOf(b.params));
      }
    }
  }

  // ---- The default limit ----

  /** A default limit is always marketable at the trigger, and within the slippage of it up to less than one lot. */
  lemma DefaultLimitIsMarketable(position: Position, trigger: int, slippageBps: int)
    requires 1 <= trigger && 0 <= slippageBps < BPS
    ensures var limit := DefaultLimit(position, trigger, slippageBps);
            if position.Long? then
              && limit <= trigger
              && limit * BPS <= trigger * (BPS - slippageBps) < (limit + 1) * BPS
            else
              && limit >= trigger
              && (limit - 1) * BPS < trigger * (BPS + slippageBps) <= limit * BPS
  {
    assert trigger * (BPS - slippageBps) == trigger * BPS - trigger * slippageBps;
    assert trigger * (BPS + slippageBps) == trigger * BPS + trigger * slippageBps;
    assert trigger * slippageBps >= 0;
  }

  /** So without a limit of the caller's, the checks fail on the limit only when it rounds to zero or does not fit. */
  lemma DefaultLimitChecks(p: Params, kind: int, trigger: int, options: LegOptions)
    requires options.limitPriceLots == None
    requires CheckLeg(p, kind, trigger, options.(limitPriceLots := Some(trigger))).Ok?
    ensures CheckLeg(p, kind, trigger, options).Ok? <==>
              1 <= DefaultLimit(p.position, trigger, p.slippageBps) <= I64_MAX
    ensures CheckLeg(p, kind, trigger, options) != Err(NotMarketable)
  {
    DefaultLimitIsMarketable(p.position, trigger, p.slippageBps);
  }

  // ---- The pair ----

  /** Stop-loss first; both legs share the drawn group, a single leg has none. A zero draw becomes 1. */
  function BuildSlTpLegs(digest: Digest, p: Params, groupDraw: int, stopDraws: seq<int>,
        profitDraws: seq<int>): Result<seq<Leg>, Error> {
    if p.stopLossPriceLots == None && p.takeProfitPriceLots == None then Err(NothingWanted)
    else
      var both := p.stopLossPriceLots.Some? && p.takeProfitPriceLots.Some?;
      var oco := if both then (if groupDraw == 0 then 1 else groupDraw) else 0;
      var options := LegOptions(Some(oco), None, None);
      var stop :- OptionalLeg(digest, p, STOP_LOSS, p.stopLossPriceLots, options, stopDraws);
      var profit :- OptionalLeg(digest, p, TAKE_PROFIT, p.takeProfitPriceLots, options, profitDraws);
      Ok(stop + profit)
  }

  function OptionalLeg(digest: Digest, p: Params, kind: int, price: Option<int>, options: LegOptions,
        draws: seq<int>): Result<seq<Leg>, Error> {
    if price == None then Ok([])
    else
      var leg :- BuiltLeg(digest, p, kind, price.value, options, draws);
      Ok([leg])
  }

  lemma OneLeg(digest: Digest, p: Params, kind: int, price: int, options: LegOptions, draws: seq<int>)
    requires OptionalLeg(digest, p, kind, Some(price), options, draws).Ok?
    ensures var leg := BuiltLeg(digest, p, kind, price, options, draws);
            leg.Ok? && OptionalLeg(digest, p, kind, Some(price), options, draws).value == [leg.value]
  {
  }

  function Both(groupDraw: int): LegOptions {
    LegOptions(Some(if groupDraw == 0 then 1 else groupDraw), None, None)
  }

  lemma PairIsBoth(digest: Digest, p: Params, groupDraw: int, stopDraws: seq<int>, profitDraws: seq<int>)
    requires p.stopLossPriceLots.Some? && p.takeProfitPriceLots.Some?
    requires BuildSlTpLegs(digest, p, groupDraw, stopDraws, profitDraws).Ok?
    ensures var stop := OptionalLeg(digest, p, STOP_LOSS, p.stopLossPriceLots, Both(groupDraw), stopDraws);
            var profit := OptionalLeg(digest, p, TAKE_PROFIT, p.takeProfitPriceLots, Both(groupDraw), profitDraws);
            && stop.Ok? && profit.Ok?
            && BuildSlTpLegs(digest, p, groupDraw, stopDraws, profitDraws).value == stop.value + profit.value
  {
  }

  /** A built leg's trigger is the one asked for, and the oracle has not reached it. */
  lemma BuiltLegTerms(digest: Digest, p: Params, kind: int, trigger: int, options: LegOptions, draws: seq<int>)
    requires BuiltLeg(digest, p, kind, trigger, options, draws).Ok?
    ensures var terms := BuiltLeg(digest, p, kind, trigger, options, draws).value.terms;
            && terms.kind == kind && terms.direction == DirectionOf(p.position, kind)
            && terms.triggerPriceLots == trigger && terms.ocoGroup == Or(options.ocoGroup, 0)
            && (p.oraclePriceLots.Some? ==> !TriggerAlreadyMet(terms.direction, trigger, p.oraclePriceLots.value))
  {
    BuiltLegOrder(digest, p, kind, trigger, options, draws);
    LegAcceptedIff(p, kind, trigger, options);
  }

  /** When an oracle price is known and both legs build, stop-loss and take-profit lie strictly on opposite sides of
      it, no price meets both triggers, and both legs carry one and the same non-zero group. */
  lemma PairBracketsTheOracle(digest: Digest, p: Params, groupDraw: int, stopDraws: seq<int>, profitDraws: seq<int>)
    requires p.oraclePriceLots.Some? && p.stopLossPriceLots.Some? && p.takeProfitPriceLots.Some?
    requires BuildSlTpLegs(digest, p, groupDraw, stopDraws, profitDraws).Ok?
    ensures var legs := BuildSlTpLegs(digest, p, groupDraw, stopDraws, profitDraws).value;
            && |legs| == 2
            && var stop, profit, oracle := legs[0].terms, legs[1].terms, p.oraclePriceLots.value;
               && stop.kind == STOP_LOSS && profit.kind == TAKE_PROFIT
               && stop.ocoGroup == profit.ocoGroup != 0
               && (if p.position.Long?
                   then stop.triggerPriceLots < oracle < profit.triggerPriceLots
                   else profit.triggerPriceLots < oracle < stop.triggerPriceLots)
               && forall price: int ::
                    !(&& TriggerAlreadyMet(stop.direction, stop.triggerPriceLots, price)
                      && TriggerAlreadyMet(profit.direction, profit.triggerPriceLots, price))
  {
    PairIsBoth(digest, p, groupDraw, stopDraws, profitDraws);
    OneLeg(digest, p, STOP_LOSS, p.stopLossPriceLots.value, Both(groupDraw), stopDraws);
    OneLeg(digest, p, TAKE_PROFIT, p.takeProfitPriceLots.value, Both(groupDraw), profitDraws);
    BuiltLegTerms(digest, p, STOP_LOSS, p.stopLossPriceLots.value, Both(groupDraw), stopDraws);
    BuiltLegTerms(digest, p, TAKE_PROFIT, p.takeProfitPriceLots.value, Both(groupDraw), profitDraws);
  }

  /** A single leg stands alone: it carries group zero. */
  lemma SingleLegHasNoGroup(digest: Digest, p: Params, groupDraw: int, stopDraws: seq<int>, profitDraws: seq<int>)
    requires p.stopLossPriceLots.None? != p.takeProfitPriceLots.None?
    requires BuildSlTpLegs(digest, p, groupDraw, stopDraws, profitDraws).Ok?
    ensures var legs := BuildSlTpLegs(digest, p, groupDraw, stopDraws, profitDraws).value;
            |legs| == 1 && legs[0].terms.ocoGroup == 0
  {
    var options := LegOptions(Some(0), None, None);
    if p.stopLossPriceLots.Some? {
      BuiltLegOrder(digest, p, STOP_LOSS, p.stopLossPriceLots.value, options, stopDraws);
    } else {
      BuiltLegOrder(digest, p, TAKE_PROFIT, p.takeProfitPriceLots.value, options, profitDraws);
    }
  }

  lemma LegBuilds(digest: Digest, p: Params, kind: int, trigger: int, options: LegOptions, salt: int)
    requires forall bytes :: ReadLe(digest(bytes)[..8]) != 0
    requires CheckLeg(p, kind, trigger, options).Ok? && kind in {STOP_LOSS, TAKE_PROFIT}
    requires 1 <= p.expiryTs <= MAX_SAFE_INTEGER && 0 <= salt <= U64_MAX
    requires options.salt == None && 0 <= Or(options.ocoGroup, 0) <= U64_MAX
    ensures BuiltLeg(digest, p, kind, trigger, options, [salt]).Ok?
  {
    LegBuildsIff(digest, p, kind, trigger, options, [salt]);
    LegAcceptedIff(p, kind, trigger, options);
    assert FirstNonZero(digest, p, TermsOf(p, kind, trigger, options, 0), [salt], 0);
  }

  /** A pair builds when both legs pass the checks, given a digest that never starts with eight zero bytes. */
  lemma PairBuilds(digest: Digest, p: Params, groupDraw: int, stopSalt: int, profitSalt: int)
    requires forall bytes :: ReadLe(digest(bytes)[..8]) != 0
    requires p.stopLossPriceLots.Some? && p.takeProfitPriceLots.Some?
    requires CheckLeg(p, STOP_LOSS, p.stopLossPriceLots.value, Both(groupDraw)).Ok?
    requires CheckLeg(p, TAKE_PROFIT, p.takeProfitPriceLots.value, Both(groupDraw)).Ok?
    requires 1 <= p.expiryTs <= MAX_SAFE_INTEGER
    requires 0 <= groupDraw <= U64_MAX && 0 <= stopSalt <= U64_MAX && 0 <= profitSalt <= U64_MAX
    ensures BuildSlTpLegs(digest, p, groupDraw, [stopSalt], [profitSalt]).Ok?
  {
    LegBuilds(digest, p, STOP_LOSS, p.stopLossPriceLots.value, Both(groupDraw), stopSalt);
    LegBuilds(digest, p, TAKE_PROFIT, p.takeProfitPriceLots.value, Both(groupDraw), profitSalt);
  }

  /** For one: a long position with the oracle at 100, a stop at 90 and a target at 110. */
  lemma SomePairBuilds() returns (digest: Digest, p: Params)
    ensures p.oraclePriceLots.Some? && p.stopLossPriceLots.Some? && p.takeProfitPriceLots.Some?
    ensures BuildSlTpLegs(digest, p, 0, [0], [0]).Ok?
  {
    var ones: Hash := seq(32, _ => 1);
    var key: Pubkey := seq(32, _ => 0);
    digest := _ => ones;
    p := Params(key, key, key, 0, key, key, [], Long, WholePosition, Some(90), Some(110), 0, 1, Some(100));
    assert ones[..8][0] == 1 && ReadLe(ones[..8]) != 0;
    PairBuilds(digest, p, 0, 0, 0);
  }
}
