/** Share pricing and payout arithmetic of the FLP vault, in native integer units (src/flp/math.ts, src/flp/v4.ts). */
module FlpMath {
  import opened Limits
  import opened Results

  const VIRTUAL_ASSETS := 1_000_000
  const VIRTUAL_SHARES := 1_000_000
  const PRICE_SCALE := 1_000_000_000_000
  const U128_MAX := 0xFFFF_FFFF_FFFF_FFFF_FFFF_FFFF_FFFF_FFFF
  const I64_LIMIT := 0x8000_0000_0000_0000

  datatype Error =
    | ExpectedU64
    | ExpectedI64Nav
    | InvalidFeeBps
    | VaultInsolvent
    | InvalidRatio
    | NegativePayoutInput
    | RatioExceedsU128
    | PayoutExceedsU64

  datatype ShareRatio = ShareRatio(numerator: int, denominator: int)

  datatype DepositQuote = DepositQuote(amount: int, fee: int, net: int, shares: int)

  datatype Payout = Payout(shares: int, gross: int, fee: int, net: int)

  predicate IsU64(n: int) {
    0 <= n <= U64_MAX
  }

  predicate IsNav(n: int) {
    -I64_LIMIT <= n < I64_LIMIT
  }

  function U64(n: int): Result<int, Error> {
    if IsU64(n) then Ok(n) else Err(ExpectedU64)
  }

  function NavI64(n: int): Result<int, Error> {
    if IsNav(n) then Ok(n) else Err(ExpectedI64Nav)
  }

  function FeeRate(bps: int): Result<int, Error> {
    if 0 <= bps <= BPS then Ok(bps) else Err(InvalidFeeBps)
  }

  function DepositRatio(supply: int, navHigh: int): Result<ShareRatio, Error> {
    var _ :- U64(supply);
    var _ :- NavI64(navHigh);
    if (navHigh <= 0 && supply != 0) || navHigh + VIRTUAL_ASSETS <= 0 then
      Err(VaultInsolvent)
    else
      Ok(ShareRatio(supply + VIRTUAL_SHARES, navHigh + VIRTUAL_ASSETS))
  }

  function WithdrawRatio(supply: int, navLow: int): Result<ShareRatio, Error> {
    var _ :- U64(supply);
    var _ :- NavI64(navLow);
    Ok(ShareRatio(if navLow <= 0 then 0 else navLow + VIRTUAL_ASSETS, supply + VIRTUAL_SHARES))
  }

  /** Recovery prices real assets against real supply, without the virtual offsets. */
  function RecoveryWithdrawRatio(supply: int, navLow: int): Result<ShareRatio, Error> {
    var _ :- U64(supply);
    var _ :- NavI64(navLow);
    if supply == 0 || navLow < 0 then Err(VaultInsolvent) else Ok(ShareRatio(navLow, supply))
  }

  function ApplyRatioFloor(amount: int, ratio: ShareRatio): Result<int, Error> {
    var _ :- U64(amount);
    if || ratio.numerator < 0 || ratio.denominator <= 0
       || ratio.numerator > U128_MAX || ratio.denominator > U128_MAX
       || amount * ratio.numerator > U128_MAX
    then
      Err(InvalidRatio)
    else
      U64(amount * ratio.numerator / ratio.denominator)
  }

  function PriceE12(nav: int, supply: int): Result<int, Error> {
    var _ :- NavI64(nav);
    var _ :- U64(supply);
    var assets := nav + VIRTUAL_ASSETS;
    Ok(if assets <= 0 then 0 else assets * PRICE_SCALE / (supply + VIRTUAL_SHARES))
  }

  /** The deposit fee is rounded up before shares are minted. */
  function QuoteDeposit(amount: int, supply: int, navHigh: int, depositFeeBps: int): Result<DepositQuote, Error> {
    var _ :- U64(amount);
    var rate :- FeeRate(depositFeeBps);
    var fee := (amount * rate + (BPS - 1)) / BPS;
    var net := amount - fee;
    var ratio :- DepositRatio(supply, navHigh);
    var shares :- ApplyRatioFloor(net, ratio);
    Ok(DepositQuote(amount, fee, net, shares))
  }

  /** An individual claim rounds its fee up. */
  function ClaimPayout(shares: int, ratio: ShareRatio, withdrawFeeBps: int): Result<Payout, Error> {
    var gross :- ApplyRatioFloor(shares, ratio);
    var rate :- FeeRate(withdrawFeeBps);
    var fee := (gross * rate + (BPS - 1)) / BPS;
    Ok(Payout(shares, gross, fee, gross - fee))
  }

  /** Batch funding rounds its fee down. */
  function BatchPayout(shares: int, numerator: int, denominator: int, feeBps: int): Result<Payout, Error> {
    if shares < 0 || numerator < 0 || denominator < 0 then
      Err(NegativePayoutInput)
    else if denominator == 0 || feeBps < 0 || feeBps > BPS then
      Err(InvalidFeeBps)
    else if numerator > U128_MAX || denominator > U128_MAX || shares * numerator > U128_MAX then
      Err(RatioExceedsU128)
    else
      var gross := shares * numerator / denominator;
      if gross > U64_MAX || shares > U64_MAX then
        Err(PayoutExceedsU64)
      else
        var fee := gross * feeBps / BPS;
        Ok(Payout(shares, gross, fee, gross - fee))
  }

  // ---- What the numbers are ----

  /** q is the whole number of times d goes into a. */
  ghost predicate IsFloor(q: int, a: int, d: int) {
    q * d <= a < (q + 1) * d
  }

  /** q is the least whole number with q * d at least a. */
  ghost predicate IsCeiling(q: int, a: int, d: int) {
    (q - 1) * d < a <= q * d
  }

  lemma DivIsFloor(a: int, d: int)
    requires d > 0
    ensures IsFloor(a / d, a, d)
  {
    assert a == (a / d) * d + a % d;
  }

  lemma MulMono(a: int, b: int, c: int)
    requires a <= b && 0 <= c
    ensures a * c <= b * c
  {
  }

  lemma Distribute(a: int, b: int, c: int)
    ensures (a + b) * c == a * c + b * c
    ensures (a - b) * c == a * c - b * c
  {
  }

  /** Cancelling a positive factor. */
  lemma MulCancel(a: int, b: int, c: int)
    requires 0 < c && a * c < b * c
    ensures a < b
  {
    if b <= a {
      MulMono(b, a, c);
    }
  }

  lemma MulCancelLe(a: int, b: int, c: int)
    requires 0 < c && a * c <= b * c
    ensures a <= b
  {
    if b < a {
      MulMono(b + 1, a, c);
    }
  }

  lemma FloorIsMonotone(p: int, a: int, q: int, b: int, d: int)
    requires d > 0 && a <= b
    requires IsFloor(p, a, d) && IsFloor(q, b, d)
    ensures p <= q
  {
    MulCancel(p, q + 1, d);
  }

  lemma FloorAtMost(q: int, a: int, d: int, n: int)
    requires d > 0 && IsFloor(q, a, d)
    ensures q <= n <==> a < (n + 1) * d
  {
    if q <= n {
      MulMono(q + 1, n + 1, d);
    } else {
      MulMono(n + 1, q, d);
    }
  }

  /** Rounding a fee up leaves the depositor the floor of the untaxed part. */
  lemma FeeRoundedUp(amount: int, bps: int)
    requires 0 <= amount && 0 <= bps <= BPS
    ensures var fee := (amount * bps + (BPS - 1)) / BPS;
            && 0 <= fee <= amount
            && IsCeiling(fee, amount * bps, BPS)
            && IsFloor(amount - fee, amount * (BPS - bps), BPS)
  {
    MulMono(bps, BPS, amount);
    assert amount * (BPS - bps) == amount * BPS - amount * bps;
  }

  /** Rounding a fee down leaves the ceiling of the untaxed part. */
  lemma FeeRoundedDown(gross: int, bps: int)
    requires 0 <= gross && 0 <= bps <= BPS
    ensures var fee := gross * bps / BPS;
            && 0 <= fee <= gross
            && IsFloor(fee, gross * bps, BPS)
            && IsCeiling(gross - fee, gross * (BPS - bps), BPS)
  {
    MulMono(bps, BPS, gross);
    assert gross * (BPS - bps) == gross * BPS - gross * bps;
  }

  /** A ratio application succeeds exactly on in-range inputs, and its result is the floor of the exact quotient. */
  lemma ApplyRatioExact(amount: int, ratio: ShareRatio)
    ensures ApplyRatioFloor(amount, ratio).Ok? <==>
              && IsU64(amount) && 0 <= ratio.numerator <= U128_MAX && 0 < ratio.denominator <= U128_MAX
              && amount * ratio.numerator <= U128_MAX
              && amount * ratio.numerator < (U64_MAX + 1) * ratio.denominator
    ensures var r := ApplyRatioFloor(amount, ratio);
            r.Ok? ==> IsU64(r.value) && IsFloor(r.value, amount * ratio.numerator, ratio.denominator)
  {
    if IsU64(amount) && 0 <= ratio.numerator && 0 < ratio.denominator {
      var a, d := amount * ratio.numerator, ratio.denominator;
      assert 0 <= a by { MulMono(0, amount, ratio.numerator); }
      DivIsFloor(a, d);
      var q := a / d;
      if q <= U64_MAX {
        MulMono(q + 1, U64_MAX + 1, d);
      } else {
        MulMono(U64_MAX + 1, q, d);
      }
      if q < 0 {
        MulMono(q + 1, 0, d);
      }
    }
  }

  /** Which deposits are quoted, and what the quote holds. */
  lemma QuoteDepositExact(amount: int, supply: int, navHigh: int, bps: int)
    ensures var q := QuoteDeposit(amount, supply, navHigh, bps);
            q.Ok? ==>
              && q.value.amount == amount == q.value.fee + q.value.net
              && IsCeiling(q.value.fee, amount * bps, BPS)
              && 0 <= q.value.net
              && IsU64(q.value.shares)
              && navHigh + VIRTUAL_ASSETS > 0
              && IsFloor(q.value.shares, q.value.net * (supply + VIRTUAL_SHARES), navHigh + VIRTUAL_ASSETS)
    ensures QuoteDeposit(amount, supply, navHigh, bps).Ok? <==>
              && IsU64(amount) && IsU64(supply) && IsNav(navHigh) && 0 <= bps <= BPS
              && (navHigh > 0 || (supply == 0 && navHigh > -VIRTUAL_ASSETS))
              && var net := amount * (BPS - bps) / BPS;
                 && net * (supply + VIRTUAL_SHARES) <= U128_MAX
                 && net * (supply + VIRTUAL_SHARES) < (U64_MAX + 1) * (navHigh + VIRTUAL_ASSETS)
  {
    if IsU64(amount) && 0 <= bps <= BPS {
      FeeRoundedUp(amount, bps);
      var net := amount - (amount * bps + (BPS - 1)) / BPS;
      DivIsFloor(amount * (BPS - bps), BPS);
      FloorIsMonotone(net, amount * (BPS - bps), amount * (BPS - bps) / BPS, amount * (BPS - bps), BPS);
      FloorIsMonotone(amount * (BPS - bps) / BPS, amount * (BPS - bps), net, amount * (BPS - bps), BPS);
      ApplyRatioExact(net, ShareRatio(supply + VIRTUAL_SHARES, navHigh + VIRTUAL_ASSETS));
    }
  }

  /** Which claims are paid, and what the payout holds: the claimant's net is rounded down twice. */
  lemma ClaimPayoutExact(shares: int, ratio: ShareRatio, bps: int)
    ensures ClaimPayout(shares, ratio, bps).Ok? <==>
              && 0 <= bps <= BPS
              && IsU64(shares) && 0 <= ratio.numerator <= U128_MAX && 0 < ratio.denominator <= U128_MAX
              && shares * ratio.numerator <= U128_MAX
              && shares * ratio.numerator < (U64_MAX + 1) * ratio.denominator
    ensures var p := ClaimPayout(shares, ratio, bps);
            p.Ok? ==>
              && p.value.shares == shares
              && p.value.gross == p.value.fee + p.value.net
              && 0 <= p.value.net <= p.value.gross
              && IsFloor(p.value.gross, shares * ratio.numerator, ratio.denominator)
              && IsCeiling(p.value.fee, p.value.gross * bps, BPS)
              && IsFloor(p.value.net, p.value.gross * (BPS - bps), BPS)
  {
    ApplyRatioExact(shares, ratio);
    var g := ApplyRatioFloor(shares, ratio);
    if g.Ok? && 0 <= bps <= BPS {
      FeeRoundedUp(g.value, bps);
    }
  }

  /** Which batches are funded: the same inputs as a claim of the whole batch, with the fee rounded the other way. */
  lemma BatchPayoutExact(shares: int, numerator: int, denominator: int, bps: int)
    ensures BatchPayout(shares, numerator, denominator, bps).Ok? <==>
              ClaimPayout(shares, ShareRatio(numerator, denominator), bps).Ok?
    ensures var b := BatchPayout(shares, numerator, denominator, bps);
            b.Ok? ==>
              && b.value.shares == shares
              && b.value.gross == b.value.fee + b.value.net
              && IsFloor(b.value.gross, shares * numerator, denominator)
              && IsFloor(b.value.fee, b.value.gross * bps, BPS)
              && IsCeiling(b.value.net, b.value.gross * (BPS - bps), BPS)
  {
    ClaimPayoutExact(shares, ShareRatio(numerator, denominator), bps);
    if 0 <= shares && 0 <= numerator && 0 < denominator && 0 <= bps <= BPS {
      MulMono(0, shares, numerator);
      DivIsFloor(shares * numerator, denominator);
      var gross := shares * numerator / denominator;
      if gross < 0 {
        MulMono(gross + 1, 0, denominator);
      }
      if gross <= U64_MAX {
        MulMono(gross + 1, U64_MAX + 1, denominator);
      } else {
        MulMono(U64_MAX + 1, gross, denominator);
      }
      FeeRoundedDown(gross, bps);
    }
  }
}
