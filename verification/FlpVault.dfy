/** Whole runs of an FLP vault: what deposits, withdrawals, batch claims and recovery redemptions conserve. */
module FlpVault {
  import opened Limits
  import opened Results
  import opened FlpMath

  /** Share supply and true net asset value, with the quote participants have paid in and taken out so far. */
  datatype Vault = Vault(supply: int, nav: int, paidIn: int, paidOut: int)

  /** One operation. `navHigh` and `navLow` are the valuations it is priced at; `moved` is by how much the true
      NAV rises (deposit) or falls (withdrawal), which depends on where the fee goes. */
  datatype Step =
    | Deposit(amount: int, feeBps: int, navHigh: int, moved: int)
    | Withdraw(shares: int, feeBps: int, navLow: int, moved: int)

  function ClaimAtPrice(shares: int, supply: int, navLow: int, feeBps: int): Result<Payout, Error> {
    var ratio :- WithdrawRatio(supply, navLow);
    ClaimPayout(shares, ratio, feeBps)
  }

  /** Deposits are priced no lower than the truth and add at least their net to the NAV; withdrawals are priced no
      higher, take at most their gross, and redeem only shares that exist. */
  predicate Honest(v: Vault, s: Step) {
    match s
    case Deposit(amount, bps, navHigh, moved) =>
      var q := QuoteDeposit(amount, v.supply, navHigh, bps);
      navHigh >= v.nav && (q.Ok? ==> q.value.net <= moved)
    case Withdraw(shares, bps, navLow, moved) =>
      var p := ClaimAtPrice(shares, v.supply, navLow, bps);
      navLow <= v.nav && shares <= v.supply && (p.Ok? ==> moved <= p.value.gross)
  }

  /** The NAV changes by participants' quote alone, less what fees take out of the vault: no deposit adds more than
      was paid in, and no withdrawal takes less than was paid out. */
  predicate SelfFunded(v: Vault, s: Step) {
    match s
    case Deposit(amount, bps, navHigh, moved) =>
      QuoteDeposit(amount, v.supply, navHigh, bps).Ok? ==> moved <= amount
    case Withdraw(shares, bps, navLow, moved) =>
      var p := ClaimAtPrice(shares, v.supply, navLow, bps);
      p.Ok? ==> p.value.net <= moved
  }

  /** A step that throws leaves the vault as it was. */
  function Apply(v: Vault, s: Step): Vault {
    match s
    case Deposit(amount, bps, navHigh, moved) => (
      match QuoteDeposit(amount, v.supply, navHigh, bps)
      case Err(_) => v
      case Ok(q) => Vault(v.supply + q.shares, v.nav + moved, v.paidIn + q.amount, v.paidOut))
    case Withdraw(shares, bps, navLow, moved) => (
      match ClaimAtPrice(shares, v.supply, navLow, bps)
      case Err(_) => v
      case Ok(p) => Vault(v.supply - p.shares, v.nav - moved, v.paidIn, v.paidOut + p.net))
  }

  function Run(v: Vault, steps: seq<Step>): Vault
    decreases |steps|
  {
    if steps == [] then v else Run(Apply(v, steps[0]), steps[1..])
  }

  predicate HonestRun(v: Vault, steps: seq<Step>)
    decreases |steps|
  {
    steps == [] || (Honest(v, steps[0]) && HonestRun(Apply(v, steps[0]), steps[1..]))
  }

  predicate SelfFundedRun(v: Vault, steps: seq<Step>)
    decreases |steps|
  {
    steps == [] || (SelfFunded(v, steps[0]) && SelfFundedRun(Apply(v, steps[0]), steps[1..]))
  }

  predicate Solvent(v: Vault) {
    0 <= v.supply && 0 < v.nav + VIRTUAL_ASSETS
  }

  /** The virtual-offset share price of b is at least that of a, cross-multiplied. */
  predicate PriceAtLeast(b: Vault, a: Vault) {
    (b.nav + VIRTUAL_ASSETS) * (a.supply + VIRTUAL_SHARES) >= (a.nav + VIRTUAL_ASSETS) * (b.supply + VIRTUAL_SHARES)
  }

  /** Buying shares at a price of at least a per t cannot lower that price. */
  lemma BuyingKeepsPrice(a: int, t: int, high: int, net: int, shares: int, moved: int)
    requires 0 < a <= high && 0 < t && 0 <= shares && shares * high <= net * t && net <= moved
    ensures (a + moved) * t >= a * (t + shares)
  {
    MulMono(a, high, shares);
    MulMono(net, moved, t);
    assert (a + moved) * t == a * t + moved * t;
    assert a * (t + shares) == a * t + shares * a;
  }

  /** Selling shares at a price of at most a per t cannot lower that price, nor empty the vault. */
  lemma SellingKeepsPrice(a: int, t: int, low: int, shares: int, gross: int, moved: int)
    requires 0 < a && low <= a && 0 <= shares < t && gross * t <= shares * low && moved <= gross
    ensures (a - moved) * t >= a * (t - shares)
    ensures 0 < a - moved
  {
    MulMono(low, a, shares);
    MulMono(moved, gross, t);
    assert (a - moved) * t == a * t - moved * t;
    assert a * (t - shares) == a * t - shares * a;
    MulMono(1, t - shares, a);
    MulCancel(0, a - moved, t);
  }

  lemma DepositKeepsPrice(v: Vault, s: Step)
    requires Solvent(v) && s.Deposit? && Honest(v, s)
    ensures var w := Apply(v, s);
            Solvent(w) && PriceAtLeast(w, v)
  {
    QuoteDepositExact(s.amount, v.supply, s.navHigh, s.feeBps);
    var q := QuoteDeposit(s.amount, v.supply, s.navHigh, s.feeBps);
    if q.Ok? {
      BuyingKeepsPrice(v.nav + VIRTUAL_ASSETS, v.supply + VIRTUAL_SHARES, s.navHigh + VIRTUAL_ASSETS,
                       q.value.net, q.value.shares, s.moved);
    }
  }

  lemma WithdrawalKeepsPrice(v: Vault, s: Step)
    requires Solvent(v) && s.Withdraw? && Honest(v, s)
    ensures var w := Apply(v, s);
            Solvent(w) && PriceAtLeast(w, v)
  {
    var ratio := WithdrawRatio(v.supply, s.navLow);
    var p := ClaimAtPrice(s.shares, v.supply, s.navLow, s.feeBps);
    if p.Ok? {
      ClaimPayoutExact(s.shares, ratio.value, s.feeBps);
      SellingKeepsPrice(v.nav + VIRTUAL_ASSETS, v.supply + VIRTUAL_SHARES, ratio.value.numerator,
                        s.shares, p.value.gross, s.moved);
    }
  }

  /** b per t is at least a per s, and c per u at least b per t, so c per u is at least a per s. */
  lemma PerShareTransitive(a: int, s: int, b: int, t: int, c: int, u: int)
    requires 0 < s && 0 < t && 0 <= u
    requires b * s >= a * t && c * t >= b * u
    ensures c * s >= a * u
  {
    MulMono(a * t, b * s, u);
    MulMono(b * u, c * t, s);
    assert (a * t) * u == (a * u) * t;
    assert (b * s) * u == (b * u) * s;
    assert (c * t) * s == (c * s) * t;
    MulCancelLe(a * u, c * s, t);
  }

  lemma PriceAtLeastTransitive(a: Vault, b: Vault, c: Vault)
    requires Solvent(a) && Solvent(b) && Solvent(c)
    requires PriceAtLeast(b, a) && PriceAtLeast(c, b)
    ensures PriceAtLeast(c, a)
  {
    PerShareTransitive(a.nav + VIRTUAL_ASSETS, a.supply + VIRTUAL_SHARES, b.nav + VIRTUAL_ASSETS,
                       b.supply + VIRTUAL_SHARES, c.nav + VIRTUAL_ASSETS, c.supply + VIRTUAL_SHARES);
  }

  /** Over every run the vault stays solvent and its share price never falls. */
  lemma {:induction false} PriceNeverFalls(v: Vault, steps: seq<Step>)
    requires Solvent(v) && HonestRun(v, steps)
    ensures Solvent(Run(v, steps)) && PriceAtLeast(Run(v, steps), v)
    decreases |steps|
  {
    if steps != [] {
      var u := Apply(v, steps[0]);
      if steps[0].Deposit? {
        DepositKeepsPrice(v, steps[0]);
      } else {
        WithdrawalKeepsPrice(v, steps[0]);
      }
      PriceNeverFalls(u, steps[1..]);
      PriceAtLeastTransitive(v, u, Run(u, steps[1..]));
    }
  }

  /** The published fixed-point price follows: it never falls along a run either. */
  lemma PublishedPriceNeverFalls(v: Vault, steps: seq<Step>)
    requires Solvent(v) && HonestRun(v, steps)
    ensures var w := Run(v, steps);
            var before, after := PriceE12(v.nav, v.supply), PriceE12(w.nav, w.supply);
            before.Ok? && after.Ok? ==> 0 <= before.value <= after.value
  {
    PriceNeverFalls(v, steps);
    var w := Run(v, steps);
    ScaledFloorMonotone(v.nav + VIRTUAL_ASSETS, v.supply + VIRTUAL_SHARES, w.nav + VIRTUAL_ASSETS,
          w.supply + VIRTUAL_SHARES);
  }

  lemma ScaledFloorMonotone(a: int, s: int, b: int, t: int)
    requires 0 < s && 0 < t && 0 < a && b * s >= a * t
    ensures 0 <= a * PRICE_SCALE / s <= b * PRICE_SCALE / t
  {
    var p := a * PRICE_SCALE / s;
    DivIsFloor(a * PRICE_SCALE, s);
    DivIsFloor(b * PRICE_SCALE, t);
    // p per 1 is at most a * K per s, which is at most b * K per t.
    MulMono(a * t, b * s, PRICE_SCALE);
    assert (a * t) * PRICE_SCALE == (a * PRICE_SCALE) * t;
    assert (b * s) * PRICE_SCALE == (b * PRICE_SCALE) * s;
    PerShareTransitive(p, 1, a * PRICE_SCALE, s, b * PRICE_SCALE, t);
    MulCancel(p, b * PRICE_SCALE / t + 1, t);
    MulCancel(0, p + 1, s);
  }

  lemma {:induction false} NavWithinCash(v: Vault, steps: seq<Step>)
    requires SelfFundedRun(v, steps)
    ensures var w := Run(v, steps);
            w.nav - v.nav <= (w.paidIn - v.paidIn) - (w.paidOut - v.paidOut)
    decreases |steps|
  {
    if steps != [] {
      NavWithinCash(Apply(v, steps[0]), steps[1..]);
    }
  }

  /** A run that ends with the supply it started from leaves the NAV no lower, so if the NAV moved by the
      participants' quote alone, together they took out no more of it than they paid in. */
  lemma RoundTripNeverProfits(v: Vault, steps: seq<Step>)
    requires Solvent(v) && HonestRun(v, steps)
    requires Run(v, steps).supply == v.supply
    ensures Run(v, steps).nav >= v.nav
    ensures var w := Run(v, steps);
            SelfFundedRun(v, steps) ==> w.paidOut - v.paidOut <= w.paidIn - v.paidIn
  {
    PriceNeverFalls(v, steps);
    if SelfFundedRun(v, steps) {
      NavWithinCash(v, steps);
    }
    var w := Run(v, steps);
    MulCancelLe(v.nav + VIRTUAL_ASSETS, w.nav + VIRTUAL_ASSETS, v.supply + VIRTUAL_SHARES);
  }

  // ---- A funded batch and the claims made on it ----

  function Sum(tickets: seq<int>): int {
    if tickets == [] then 0 else tickets[0] + Sum(tickets[1..])
  }

  function SumNet(tickets: seq<int>, ratio: ShareRatio, bps: int): int {
    if tickets == [] then 0
    else
      var p := ClaimPayout(tickets[0], ratio, bps);
      (if p.Ok? then p.value.net else 0) + SumNet(tickets[1..], ratio, bps)
  }

  function SumGross(tickets: seq<int>, ratio: ShareRatio, bps: int): int {
    if tickets == [] then 0
    else
      var p := ClaimPayout(tickets[0], ratio, bps);
      (if p.Ok? then p.value.gross else 0) + SumGross(tickets[1..], ratio, bps)
  }

  predicate AllShares(tickets: seq<int>) {
    forall i | 0 <= i < |tickets| :: 0 <= tickets[i]
  }

  lemma {:induction false} TicketsWithinSum(tickets: seq<int>)
    requires AllShares(tickets)
    ensures 0 <= Sum(tickets)
    ensures forall i | 0 <= i < |tickets| :: tickets[i] <= Sum(tickets)
  {
    if tickets != [] {
      TicketsWithinSum(tickets[1..]);
      forall i | 0 <= i < |tickets|
        ensures tickets[i] <= Sum(tickets)
      {
        if i > 0 {
          assert tickets[i] == tickets[1..][i - 1];
        }
      }
    }
  }

  /** A claim of part of an acceptable amount is acceptable. */
  lemma SmallerClaimAccepted(part: int, whole: int, ratio: ShareRatio, bps: int)
    requires 0 <= part <= whole && ClaimPayout(whole, ratio, bps).Ok?
    ensures ClaimPayout(part, ratio, bps).Ok?
  {
    ClaimPayoutExact(whole, ratio, bps);
    ClaimPayoutExact(part, ratio, bps);
    MulMono(part, whole, ratio.numerator);
  }

  /** Rounding loses less than one unit a ticket, once in the gross amounts and once in the nets. */
  lemma {:induction false} TicketRounding(tickets: seq<int>, ratio: ShareRatio, bps: int)
    requires AllShares(tickets)
    requires forall i | 0 <= i < |tickets| :: ClaimPayout(tickets[i], ratio, bps).Ok?
    ensures var k, n, d := |tickets|, ratio.numerator, ratio.denominator;
            var gross, net := SumGross(tickets, ratio, bps), SumNet(tickets, ratio, bps);
            && gross * d <= Sum(tickets) * n <= gross * d + k * (d - 1)
            && net * BPS <= gross * (BPS - bps) <= net * BPS + k * (BPS - 1)
  {
    if tickets != [] {
      var rest := tickets[1..];
      forall i | 0 <= i < |rest|
        ensures 0 <= rest[i] && ClaimPayout(rest[i], ratio, bps).Ok?
      {
        assert rest[i] == tickets[i + 1];
      }
      TicketRounding(rest, ratio, bps);
      assert ClaimPayout(tickets[0], ratio, bps).Ok?;
      ClaimPayoutExact(tickets[0], ratio, bps);
      var p := ClaimPayout(tickets[0], ratio, bps).value;
      TicketRoundingStep(tickets[0], Sum(rest), p.gross, SumGross(rest, ratio, bps), ratio.numerator,
            ratio.denominator, |rest|);
      TicketRoundingStep(p.gross, SumGross(rest, ratio, bps), p.net, SumNet(rest, ratio, bps), BPS - bps, BPS, |rest|);
    }
  }

  lemma TicketRoundingStep(x: int, xs: int, q: int, qs: int, n: int, d: int, k: int)
    requires IsFloor(q, x * n, d) && qs * d <= xs * n <= qs * d + k * (d - 1)
    ensures (q + qs) * d <= (x + xs) * n <= (q + qs) * d + (k + 1) * (d - 1)
  {
    assert (x + xs) * n == x * n + xs * n;
    assert (q + qs) * d == q * d + qs * d;
    assert (q + 1) * d == q * d + d;
    assert (k + 1) * (d - 1) == k * (d - 1) + (d - 1);
  }

  /** However a funded batch is split into tickets, no claim on it throws, the claims never take more than the
      batch was funded with, and less than two native units a ticket are left over. */
  lemma BatchCoversItsClaims(tickets: seq<int>, ratio: ShareRatio, bps: int)
    requires AllShares(tickets) && tickets != []
    requires BatchPayout(Sum(tickets), ratio.numerator, ratio.denominator, bps).Ok?
    ensures forall i | 0 <= i < |tickets| :: ClaimPayout(tickets[i], ratio, bps).Ok?
    ensures var b := BatchPayout(Sum(tickets), ratio.numerator, ratio.denominator, bps).value;
            SumNet(tickets, ratio, bps) <= b.net < SumNet(tickets, ratio, bps) + 2 * |tickets|
  {
    var whole, n, d, k := Sum(tickets), ratio.numerator, ratio.denominator, |tickets|;
    BatchPayoutExact(whole, n, d, bps);
    ClaimPayoutExact(whole, ratio, bps);
    TicketsWithinSum(tickets);
    forall i | 0 <= i < |tickets|
      ensures ClaimPayout(tickets[i], ratio, bps).Ok?
    {
      SmallerClaimAccepted(tickets[i], whole, ratio, bps);
    }
    TicketRounding(tickets, ratio, bps);
    var b := BatchPayout(whole, n, d, bps).value;
    GrossWithin(SumGross(tickets, ratio, bps), b.gross, whole * n, d, k);
    NetWithin(SumGross(tickets, ratio, bps), b.gross, SumNet(tickets, ratio, bps), b.net, BPS - bps, k);
  }

  lemma NetWithin(gross: int, batchGross: int, net: int, batchNet: int, keep: int, k: int)
    requires 0 <= keep <= BPS && 0 < k
    requires gross <= batchGross <= gross + k - 1
    requires net * BPS <= gross * keep <= net * BPS + k * (BPS - 1)
    requires IsCeiling(batchNet, batchGross * keep, BPS)
    ensures net <= batchNet < net + 2 * k
  {
    MulMono(gross, batchGross, keep);
    MulMono(batchGross, gross + (k - 1), keep);
    Distribute(gross, k - 1, keep);
    MulMono(keep, BPS, k - 1);
    NetBounds(gross * keep, batchGross * keep, net, batchNet, k);
  }

  lemma NetBounds(kept: int, batchKept: int, net: int, batchNet: int, k: int)
    requires kept <= batchKept <= kept + (k - 1) * BPS
    requires net * BPS <= kept <= net * BPS + k * (BPS - 1)
    requires (batchNet - 1) * BPS < batchKept <= batchNet * BPS && 0 < k
    ensures net <= batchNet < net + 2 * k
  {
  }

  lemma GrossWithin(parts: int, whole: int, a: int, d: int, k: int)
    requires d > 0 && k > 0
    requires parts * d <= a <= parts * d + k * (d - 1)
    requires IsFloor(whole, a, d)
    ensures parts <= whole <= parts + k - 1
  {
    MulCancel(parts, whole + 1, d);
    assert (parts + k) * d == parts * d + k * d;
    assert k * (d - 1) == k * d - k;
    MulCancel(whole, parts + k, d);
  }

  // ---- Recovery redemption ----

  /** Remaining supply and assets, and the total paid, after redeeming tickets one after the other, each at the
      recovery price of what remains. Any throw ends the redemption. */
  datatype Recovery = Recovery(supply: int, nav: int, paid: int)

  function Redeem(r: Recovery, shares: int): Result<Recovery, Error> {
    var ratio :- RecoveryWithdrawRatio(r.supply, r.nav);
    var gross :- ApplyRatioFloor(shares, ratio);
    Ok(Recovery(r.supply - shares, r.nav - gross, r.paid + gross))
  }

  function RedeemAll(r: Recovery, tickets: seq<int>): Result<Recovery, Error>
    decreases |tickets|
  {
    if tickets == [] then Ok(r)
    else
      var next :- Redeem(r, tickets[0]);
      RedeemAll(next, tickets[1..])
  }

  lemma RedemptionAccepted(r: Recovery, shares: int)
    requires 0 <= shares <= r.supply && 0 < r.supply && IsU64(r.supply) && 0 <= r.nav && IsNav(r.nav)
    ensures RecoveryWithdrawRatio(r.supply, r.nav) == Ok(ShareRatio(r.nav, r.supply))
    ensures var g := ApplyRatioFloor(shares, ShareRatio(r.nav, r.supply));
            g.Ok? && IsFloor(g.value, shares * r.nav, r.supply)
  {
    ApplyRatioExact(shares, ShareRatio(r.nav, r.supply));
    MulMono(shares, r.supply, r.nav);
    MulMono(r.supply, U64_MAX, r.nav);
    MulMono(r.nav, U64_MAX, r.supply);
  }

  /** Redeeming part of the supply at the recovery price pays no more than there is, all of it for the whole supply,
      and leaves at least as much per share. */
  lemma RecoveryGross(supply: int, nav: int, shares: int, gross: int)
    requires 0 <= shares <= supply && 0 < supply && 0 <= nav && IsFloor(gross, shares * nav, supply)
    ensures 0 <= gross <= nav
    ensures (nav - gross) * supply >= nav * (supply - shares)
    ensures shares == supply ==> gross == nav
  {
    MulMono(shares, supply, nav);
    MulCancelLe(gross, nav, supply);
    MulMono(0, shares, nav);
    MulCancel(0, gross + 1, supply);
    Distribute(nav, gross, supply);
    Distribute(supply, shares, nav);
    if shares == supply {
      MulCancel(nav, gross + 1, supply);
    }
  }

  /** Which redemptions of shares that exist are paid, and what they leave. */
  lemma RedeemExact(r: Recovery, shares: int)
    requires shares <= r.supply && IsU64(r.supply) && IsNav(r.nav)
    ensures Redeem(r, shares).Ok? <==> 0 <= shares && 0 < r.supply && 0 <= r.nav
    ensures var n := Redeem(r, shares);
            n.Ok? ==>
              && n.value.supply == r.supply - shares
              && n.value.nav + n.value.paid == r.nav + r.paid
              && 0 <= n.value.nav <= r.nav
              && n.value.nav * r.supply >= r.nav * n.value.supply
              && (n.value.supply == 0 ==> n.value.nav == 0)
  {
    if 0 <= shares && 0 < r.supply && 0 <= r.nav {
      RedemptionAccepted(r, shares);
      RecoveryGross(r.supply, r.nav, shares, ApplyRatioFloor(shares, ShareRatio(r.nav, r.supply)).value);
    }
  }

  /** Shares are left whenever a ticket comes up; only tickets of no shares can come up after the last one. */
  predicate SupplyLasts(supply: int, tickets: seq<int>)
    decreases |tickets|
  {
    tickets == [] || (0 < supply && SupplyLasts(supply - tickets[0], tickets[1..]))
  }

  lemma {:induction false} RealTicketsLast(supply: int, tickets: seq<int>)
    requires forall i | 0 <= i < |tickets| :: 0 < tickets[i]
    requires Sum(tickets) <= supply
    ensures SupplyLasts(supply, tickets)
    decreases |tickets|
  {
    if tickets != [] {
      assert forall i | 0 <= i < |tickets[1..]| :: tickets[1..][i] == tickets[i + 1];
      TicketsWithinSum(tickets[1..]);
      RealTicketsLast(supply - tickets[0], tickets[1..]);
    }
  }

  /** Redeeming tickets in any order and any split throws only when a ticket comes up after the last share, and never
      creates or loses a unit; assets per share never fall; and once the whole supply is redeemed exactly the starting
      NAV has been paid. */
  lemma {:induction false} RecoveryConserves(r: Recovery, tickets: seq<int>)
    requires IsU64(r.supply) && 0 <= r.nav && IsNav(r.nav)
    requires AllShares(tickets) && Sum(tickets) <= r.supply
    ensures RedeemAll(r, tickets).Ok? <==> SupplyLasts(r.supply, tickets)
    ensures (forall i | 0 <= i < |tickets| :: 0 < tickets[i]) ==> RedeemAll(r, tickets).Ok?
    ensures var n := RedeemAll(r, tickets);
            n.Ok? ==>
              && n.value.supply == r.supply - Sum(tickets)
              && n.value.nav + n.value.paid == r.nav + r.paid
              && 0 <= n.value.nav
              && (0 < r.supply ==> n.value.nav * r.supply >= r.nav * n.value.supply)
              && (n.value.supply == 0 && 0 < r.supply ==> n.value.nav == 0 && n.value.paid == r.nav + r.paid)
    decreases |tickets|
  {
    if forall i | 0 <= i < |tickets| :: 0 < tickets[i] {
      RealTicketsLast(r.supply, tickets);
    }
    if tickets != [] {
      var rest := tickets[1..];
      assert forall i | 0 <= i < |rest| :: rest[i] == tickets[i + 1];
      TicketsWithinSum(tickets);
      TicketsWithinSum(rest);
      RedeemExact(r, tickets[0]);
      if 0 < r.supply {
        var m := Redeem(r, tickets[0]).value;
        RecoveryConserves(m, rest);
        var n := RedeemAll(m, rest);
        if n.Ok? && m.supply > 0 {
          PerShareTransitive(r.nav, r.supply, m.nav, m.supply, n.value.nav, n.value.supply);
        }
      }
    }
  }

  /** Redeeming everything at the virtual-offset price instead stays within a positive NAV exactly when the supply does
      not exceed it by too much, in particular while the supply is at most the NAV; at a NAV of zero or below nothing
      is paid. */
  lemma VirtualOffsetPayoutWithinNav(supply: int, nav: int, bps: int)
    requires ClaimAtPrice(supply, supply, nav, bps).Ok?
    ensures var gross := ClaimAtPrice(supply, supply, nav, bps).value.gross;
            && (nav > 0 ==> (gross <= nav <==> (supply - nav) * VIRTUAL_ASSETS < supply + VIRTUAL_SHARES))
            && (0 < nav && supply <= nav ==> gross <= nav)
            && (nav <= 0 ==> gross == 0)
  {
    var ratio := WithdrawRatio(supply, nav).value;
    ClaimPayoutExact(supply, ratio, bps);
    var gross := ClaimPayout(supply, ratio, bps).value.gross;
    if nav > 0 {
      FloorAtMost(gross, supply * ratio.numerator, ratio.denominator, nav);
      OffsetProducts(supply, nav);
    } else {
      FloorAtMost(gross, 0, ratio.denominator, 0);
      FloorAtMost(gross, 0, ratio.denominator, -1);
    }
  }

  lemma OffsetProducts(supply: int, nav: int)
    ensures supply * (nav + VIRTUAL_ASSETS) < (nav + 1) * (supply + VIRTUAL_SHARES)
            <==> (supply - nav) * VIRTUAL_ASSETS < supply + VIRTUAL_SHARES
  {
    Distribute(nav, VIRTUAL_ASSETS, supply);
    Distribute(supply, VIRTUAL_SHARES, nav + 1);
    Distribute(nav, 1, supply);
  }

  /** Three shares against one unit of NAV already redeem for two. */
  lemma VirtualOffsetCanOverpay()
    ensures ClaimAtPrice(3, 3, 1, 0) == Ok(Payout(3, 2, 0, 2))
  {
    assert 3 * (1 + VIRTUAL_ASSETS) / (3 + VIRTUAL_SHARES) == 2;
  }
}
