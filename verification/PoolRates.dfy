/** The borrow rate curve and the path of the index between two ledgers. */
module PoolRates {
  import opened Host
  import opened Lists
  import opened LendingPool
  import opened PoolRuns
  import opened Totals
  import opened Token
  import Shares = PoolShares

  /** Configurations whose products stay in 32 bits. */
  predicate Sensible(cfg: Config) {
    && cfg.slope1 * 10_000 < TWO32
    && cfg.slope2 * 10_000 < TWO32
    && cfg.baseRate + cfg.slope1 + cfg.slope2 < TWO32
  }

  lemma SlopeShare(slope: nat, part: nat, whole: nat)
    requires part <= whole && whole > 0
    ensures 0 <= slope * part <= slope * whole && 0 <= Quot(slope * part, whole) <= slope
  {
    MulMono(0, part, slope);
    MulMono(part, whole, slope);
    QuotMono(slope * part, slope * whole, whole);
    QuotUnique(slope * whole, whole, slope);
    QuotBounds(slope * part, whole);
  }

  /** Up to the kink the rate stays in [base, base + slope1]. */
  lemma RateBelowKink(cfg: Config, u: nat)
    requires Sensible(cfg) && u <= 10_000 && u <= cfg.kink
    ensures RateAt(cfg, u).Ok? && cfg.baseRate <= RateAt(cfg, u).value <= cfg.baseRate + cfg.slope1
    ensures 0 <= cfg.slope1 * u
    ensures RateAt(cfg, u).value == cfg.baseRate + Quot(cfg.slope1 * u, Max(cfg.kink, 1))
  {
    MulMono(0, u, cfg.slope1);
    MulMono(u, 10_000, cfg.slope1);
    SlopeShare(cfg.slope1, u, Max(cfg.kink, 1));
  }

  /** Past the kink it stays in [base + slope1, base + slope1 + slope2]. */
  lemma RateAboveKink(cfg: Config, u: nat)
    requires Sensible(cfg) && cfg.kink < u <= 10_000
    ensures RateAt(cfg, u).Ok?
    ensures cfg.baseRate + cfg.slope1 <= RateAt(cfg, u).value <= cfg.baseRate + cfg.slope1 + cfg.slope2
    ensures 0 <= cfg.slope2 * (u - cfg.kink)
    ensures RateAt(cfg, u).value == cfg.baseRate + cfg.slope1 + Quot(cfg.slope2 * (u - cfg.kink), 10_000 - cfg.kink)
  {
    MulMono(0, u - cfg.kink, cfg.slope2);
    MulMono(u - cfg.kink, 10_000, cfg.slope2);
    SlopeShare(cfg.slope2, u - cfg.kink, 10_000 - cfg.kink);
  }

  /** The curve is bounded and rises with utilization, also across the kink. */
  lemma RateCurveRises(cfg: Config, u: nat, v: nat)
    requires Sensible(cfg) && u <= v <= 10_000
    ensures RateAt(cfg, u).Ok? && RateAt(cfg, v).Ok?
    ensures cfg.baseRate <= RateAt(cfg, u).value <= RateAt(cfg, v).value <= cfg.baseRate + cfg.slope1 + cfg.slope2
  {
    if v <= cfg.kink {
      RateBelowKink(cfg, u);
      RateBelowKink(cfg, v);
      MulMono(u, v, cfg.slope1);
      QuotMono(cfg.slope1 * u, cfg.slope1 * v, Max(cfg.kink, 1));
    } else if u <= cfg.kink {
      RateBelowKink(cfg, u);
      RateAboveKink(cfg, v);
    } else {
      RateAboveKink(cfg, u);
      RateAboveKink(cfg, v);
      MulMono(u - cfg.kink, v - cfg.kink, cfg.slope2);
      QuotMono(cfg.slope2 * (u - cfg.kink), cfg.slope2 * (v - cfg.kink), 10_000 - cfg.kink);
    }
  }

  predicate InRange(x: int) {
    0 <= x && x * 10_000 < TWO64
  }

  lemma UtilizationIsTheRatio(deposits: int, borrows: int)
    requires 0 < deposits && InRange(deposits) && 0 <= borrows < TWO64
    ensures Utilization(deposits, borrows) == Ok(Quot(Min(borrows, deposits) * 10_000, deposits))
  {
  }

  lemma CrossQuotients(a: int, b: int, c: int, d: int)
    requires a >= 0 && c >= 0 && b > 0 && d > 0 && a * d <= c * b
    ensures Quot(a, b) <= Quot(c, d)
  {
    QuotBounds(a, b);
    QuotBounds(c, d);
    var p, q := Quot(a, b), Quot(c, d);
    if p > q {
      MulMono(q + 1, p, b);
      CrossContradiction(a, b, c, d, q);
    }
  }

  lemma CrossContradiction(a: int, b: int, c: int, d: int, q: int)
    requires b > 0 && d > 0 && a * d <= c * b && (q + 1) * b <= a
    ensures c >= (q + 1) * d
  {
    MulMono((q + 1) * b, a, d);
    assert (q + 1) * b * d == (q + 1) * d * b;
    MulCancel((q + 1) * d, c, b);
  }

  lemma UsedSharesCross(d0: int, b0: int, d1: int, b1: int)
    requires 0 < d1 <= d0 && 0 <= b0 <= b1
    ensures Min(b0, d0) * d1 <= Min(b1, d1) * d0
  {
    var x, y := Min(b0, d0), Min(b1, d1);
    if y == d1 {
      MulMono(x, d0, d1);
    } else {
      MulMono(x, y, d1);
      MulMono(d1, d0, y);
    }
  }

  /** More borrowed, or less but some deposited, never lowers the utilization. */
  lemma UtilizationMonotone(d0: int, b0: int, d1: int, b1: int)
    requires 0 < d1 <= d0 && InRange(d0) && 0 <= b0 <= b1 < TWO64
    ensures Utilization(d0, b0).Ok? && Utilization(d1, b1).Ok?
    ensures Utilization(d0, b0).value <= Utilization(d1, b1).value
  {
    UtilizationIsTheRatio(d0, b0);
    UtilizationIsTheRatio(d1, b1);
    UsedSharesCross(d0, b0, d1, b1);
    var x, y := Min(b0, d0), Min(b1, d1);
    ScaleCross(x, d1, y, d0);
    CrossQuotients(x * 10_000, d0, y * 10_000, d1);
  }

  lemma ScaleCross(x: int, d: int, y: int, e: int)
    requires x * d <= y * e
    ensures x * 10_000 * d <= y * 10_000 * e
  {
    assert x * 10_000 * d == 10_000 * (x * d);
    assert y * 10_000 * e == 10_000 * (y * e);
  }

  /** The rate rises in borrows and falls in deposits, and stays between base and base + slope1 + slope2. */
  lemma BorrowRateSound(m: Market, n: Market)
    requires Sensible(m.cfg) && n.cfg == m.cfg
    requires 0 < n.deposits <= m.deposits && InRange(m.deposits) && 0 <= m.borrows <= n.borrows < TWO64
    ensures BorrowApy(m).Ok? && BorrowApy(n).Ok?
    ensures m.cfg.baseRate <= BorrowApy(m).value <= BorrowApy(n).value <= m.cfg.baseRate + m.cfg.slope1 + m.cfg.slope2
  {
    UtilizationMonotone(m.deposits, m.borrows, n.deposits, n.borrows);
    RateCurveRises(m.cfg, Utilization(m.deposits, m.borrows).value, Utilization(n.deposits, n.borrows).value);
  }

  /**
   * A market without deposits reads as idle, whatever is borrowed: the one place where
   * fewer deposits lower the rate.
   */
  lemma EmptyMarketReadsIdle(cfg: Config, borrows: int)
    requires Sensible(cfg) && 0 < cfg.kink
    ensures forall m: Market ::
              m.cfg == cfg && m.deposits == 0 && m.borrows == borrows ==> BorrowApy(m) == Ok(cfg.baseRate)
  {
    RateBelowKink(cfg, 0);
    QuotUnique(0, Max(cfg.kink, 1), 0);
  }

  /**
   * A negative `total_borrow`, which over-collected interest leaves behind, is cast to
   * a huge unsigned number: the market reads as fully used.
   */
  lemma NegativeBorrowsReadAsFull(deposits: int, borrows: int)
    requires 0 < deposits && InRange(deposits) && -TWO64 / 2 <= borrows < 0
    ensures Utilization(deposits, borrows) == Ok(10_000)
  {
    assert AsU64(borrows) == borrows + TWO64;
    QuotUnique(deposits * 10_000, deposits, 10_000);
  }

  /** A market at 100% a year whose whole deposit of `n` is lent to `b`, up to date at ledger 0. */
  function FullyLent(a: Address, b: Address, n: int): Market {
    Added(DOUBLING, 0, map[User(a) := 0, User(b) := 2 * n, Pool := 0])
      .(deposits := n, totalShares := n, shares := map[a := n], borrows := n, loans := map[b := Loan(n, SCALE)])
  }

  const DOUBLING := Config(10_000, 0, 0, 10_000, 7_500)
  /** A year in ledgers of five seconds. */
  const YEAR_LEDGERS: nat := 6_307_200

  lemma FullyLentIsReached(a: Address, b: Address, n: int)
    requires a != b && 0 < n && InRange(n)
    ensures var w := Start(DOUBLING, 0, map[User(a) := n, User(b) := n]);
            Step(Step(w, Supply(a, n)), BorrowRaw(b, n)) == World(FullyLent(a, b, n), 0, 0, 0)
  {
    var w := Start(DOUBLING, 0, map[User(a) := n, User(b) := n]);
    Shares.SupplyAtPar(w.market, a, n);
    var w1 := Step(w, Supply(a, n));
    assert Accrued(w1.market, 0) == Ok(w1.market);
    assert w1.market.tokens == map[User(a) := 0, User(b) := n, Pool := n];
    var w2 := Step(w1, BorrowRaw(b, n));
    assert w2.market.tokens == map[User(a) := 0, User(b) := 2 * n, Pool := 0];
  }

  /** In a year the index doubles, and so does the debt. */
  lemma DebtDoubles(a: Address, b: Address, n: int)
    requires a != b && 0 < n && InRange(n)
    ensures var m := FullyLent(a, b, n);
            && Accrued(m, YEAR_LEDGERS) == Ok(m.(index := 2 * SCALE, lastAccrual := YEAR_LEDGERS))
            && DebtOf(m.(index := 2 * SCALE, lastAccrual := YEAR_LEDGERS), b) == Ok(2 * n)
  {
    var m := FullyLent(a, b, n);
    UtilizationIsTheRatio(n, n);
    QuotUnique(n * 10_000, n, 10_000);
    assert RateAt(DOUBLING, 10_000) == Ok(10_000) by {
      RateBelowKink(DOUBLING, 10_000);
      QuotUnique(0, 10_000, 0);
    }
    assert Growth(YEAR_LEDGERS, 10_000) == Ok(SCALE);
    QuotUnique(n * (2 * SCALE), SCALE, 2 * n);
  }

  lemma RepaidInFull(a: Address, b: Address, n: int)
    requires a != b && 0 < n && InRange(n)
    ensures var r := Repaid(FullyLent(a, b, n), b, b, 2 * n, YEAR_LEDGERS);
            r.Ok? && r.value.0.borrows == -n && r.value.0.deposits == n
  {
    hide Accrued, DebtOf;
    DebtDoubles(a, b, n);
  }

  /**
   * Such a total is reached: a repayment takes the interest off a total that never
   * had it added. One deposit, lent in full for a year at 100% and repaid in full,
   * leaves `total_borrow` at minus the deposit, and the idle market fully used.
   */
  lemma {:induction false} RepaidInterestMakesBorrowsNegative(a: Address, b: Address, n: int)
    requires a != b && 0 < n && InRange(n)
    ensures var w := Run(Start(DOUBLING, 0, map[User(a) := n, User(b) := n]),
                         [Supply(a, n), BorrowRaw(b, n), Wait(YEAR_LEDGERS), Repay(b, b, 2 * n)]);
            w.market.borrows == -n && Utilization(w.market.deposits, w.market.borrows) == Ok(10_000)
  {
    hide Repaid, FullyLent, Utilization;
    var w := Start(DOUBLING, 0, map[User(a) := n, User(b) := n]);
    FullyLentIsReached(a, b, n);
    RepaidInFull(a, b, n);
    var w2 := Step(Step(w, Supply(a, n)), BorrowRaw(b, n));
    var w3 := Step(w2, Wait(YEAR_LEDGERS));
    RunOfFour(w, Supply(a, n), BorrowRaw(b, n), Wait(YEAR_LEDGERS), Repay(b, b, 2 * n));
    NegativeBorrowsReadAsFull(n, -n);
  }

  /** Half of a deposit of `2 * n` lent to `b`, up to date at ledger 0. */
  function HalfLent(a: Address, b: Address, n: int): Market {
    Added(DOUBLING, 0, map[User(a) := 0, User(b) := n, Pool := n])
      .(deposits := 2 * n, totalShares := 2 * n, shares := map[a := 2 * n], borrows := n,
        loans := map[b := Loan(n, SCALE)])
  }

  lemma HalfLentIsReached(a: Address, b: Address, n: int)
    requires a != b && 0 < n && InRange(2 * n)
    ensures var w := Start(DOUBLING, 0, map[User(a) := 2 * n, User(b) := 0]);
            Step(Step(w, Supply(a, 2 * n)), BorrowRaw(b, n)) == World(HalfLent(a, b, n), 0, 0, 0)
  {
    var w := Start(DOUBLING, 0, map[User(a) := 2 * n, User(b) := 0]);
    Shares.SupplyAtPar(w.market, a, 2 * n);
    var w1 := Step(w, Supply(a, 2 * n));
    assert Accrued(w1.market, 0) == Ok(w1.market);
    assert w1.market.tokens == map[User(a) := 0, User(b) := 0, Pool := 2 * n];
    var w2 := Step(w1, BorrowRaw(b, n));
    assert w2.market.tokens == map[User(a) := 0, User(b) := n, Pool := n];
  }

  lemma HalfLentDoubles(a: Address, b: Address, n: int)
    requires a != b && 0 < n && InRange(2 * n)
    ensures var m := HalfLent(a, b, n);
            var m' := m.(index := 2 * SCALE, lastAccrual := YEAR_LEDGERS);
            Accrued(m, YEAR_LEDGERS) == Ok(m') && DebtOf(m', b) == Ok(2 * n)
  {
    UtilizationIsTheRatio(2 * n, n);
    QuotUnique(n * 10_000, 2 * n, 5_000);
    assert RateAt(DOUBLING, 5_000) == Ok(10_000) by {
      RateBelowKink(DOUBLING, 5_000);
      QuotUnique(0, 10_000, 0);
    }
    assert Growth(YEAR_LEDGERS, 10_000) == Ok(SCALE);
    QuotUnique(n * (2 * SCALE), SCALE, 2 * n);
  }

  lemma SecondBorrowWrites(a: Address, b: Address, n: int)
    requires a != b && 0 < n && InRange(2 * n)
    ensures var r := Borrowed(HalfLent(a, b, n), b, n, false, YEAR_LEDGERS);
            r.Ok? && DebtOf(r.value.0, b) == Ok(2 * n)
  {
    hide Accrued;
    HalfLentDoubles(a, b, n);
    QuotUnique(2 * n * (2 * SCALE), 2 * SCALE, 2 * n);
  }

  /**
   * A second borrow that drops interest is reached: a loan of any size `n`, left
   * for a year at 100%, stands at `2 * n`; after borrowing `n` more the debt is
   * still `2 * n`.
   */
  lemma {:induction false} SecondBorrowDropsInterest(a: Address, b: Address, n: int)
    requires a != b && 0 < n && InRange(2 * n)
    ensures var w := Run(Start(DOUBLING, 0, map[User(a) := 2 * n, User(b) := 0]),
                         [Supply(a, 2 * n), BorrowRaw(b, n), Wait(YEAR_LEDGERS)]);
            var w' := Step(w, BorrowRaw(b, n));
            && Accrued(w.market, w.now).Ok? && DebtOf(Accrued(w.market, w.now).value, b) == Ok(2 * n)
            && Borrowed(w.market, b, n, false, w.now).Ok? && DebtOf(w'.market, b) == Ok(2 * n)
  {
    hide Borrowed, HalfLent, Accrued, DebtOf;
    var w := Start(DOUBLING, 0, map[User(a) := 2 * n, User(b) := 0]);
    HalfLentIsReached(a, b, n);
    Shares.RunThree(w, Supply(a, 2 * n), BorrowRaw(b, n), Wait(YEAR_LEDGERS));
    HalfLentDoubles(a, b, n);
    SecondBorrowWrites(a, b, n);
  }

  lemma {:induction false} RunOfFour(w: World, c0: Call, c1: Call, c2: Call, c3: Call)
    ensures Run(w, [c0, c1, c2, c3]) == Step(Step(Step(Step(w, c0), c1), c2), c3)
  {
    hide Step;
    assert [c0, c1, c2, c3][1..] == [c1, c2, c3];
    Shares.RunThree(Step(w, c0), c1, c2, c3);
  }

  // ---------------------------------------------------------------- path of the index

  /** Accruals at each of the given ledgers, with nothing else in between. */
  function AccruedAt(m: Market, ledgers: seq<nat>): Result<Market>
    decreases ledgers
  {
    if ledgers == [] then Ok(m)
    else
      var a :- Accrued(m, ledgers[0]);
      AccruedAt(a, ledgers[1..])
  }

  lemma GrowthSplits(x: nat, y: nat, apy: nat)
    requires Growth(x + y, apy).Ok?
    ensures Growth(x, apy).Ok? && Growth(y, apy).Ok?
    ensures Growth(x, apy).value >= 0 && Growth(y, apy).value >= 0
    ensures Growth(x, apy).value + Growth(y, apy).value <= Growth(x + y, apy).value
    ensures Growth(x + y, apy).value <= Growth(x, apy).value + Growth(y, apy).value + 1
  {
    var r := apy * 5;
    MulMono(0, x, r);
    MulMono(0, y, r);
    assert (x + y) * r == x * r + y * r;
    QuotSplit(x * r * SCALE, y * r * SCALE, YEAR);
    QuotBounds(x * r * SCALE, YEAR);
    QuotBounds(y * r * SCALE, YEAR);
  }

  lemma OneStopLosesAtMostOne(m: Market, mid: nat, now: nat)
    requires m.borrows != 0 && m.lastAccrual <= mid <= now && m.index >= 0
    requires Accrued(m, now).Ok?
    ensures Accrued(m, mid).Ok? && Accrued(Accrued(m, mid).value, now).Ok?
    ensures var split := Accrued(Accrued(m, mid).value, now).value.index;
            split <= Accrued(m, now).value.index <= split + 1
  {
    if m.lastAccrual < mid < now {
      GrowthSplits(mid - m.lastAccrual, now - mid, BorrowApy(m).value);
    }
  }

  /**
   * Interest does not depend on how often it is accrued, up to rounding: `k`
   * extra accruals leave the index at most `k` below a single one, never above.
   */
  lemma {:induction false} AccrualPathIndependent(m: Market, ledgers: seq<nat>, now: nat)
    requires m.borrows != 0 && m.index >= 0 && Ascending(m.lastAccrual, ledgers, now)
    requires Accrued(m, now).Ok?
    ensures AccruedAt(m, ledgers).Ok? && Accrued(AccruedAt(m, ledgers).value, now).Ok?
    ensures var split := Accrued(AccruedAt(m, ledgers).value, now).value.index;
            split <= Accrued(m, now).value.index <= split + |ledgers|
    decreases ledgers
  {
    if ledgers != [] {
      AscendingEnds(ledgers[0], ledgers[1..], now);
      OneStopLosesAtMostOne(m, ledgers[0], now);
      AccrualOnlyRaisesIndex(m, ledgers[0]);
      AccrualPathIndependent(Accrued(m, ledgers[0]).value, ledgers[1..], now);
    }
  }

  /**
   * An idle market does not move its clock, so its first borrower pays for the
   * idle time: the borrow itself accrues nothing, and the next accrual, even in
   * the same ledger, charges everything since the last accrual before it. It
   * adds nothing exactly when that growth floors to zero or no time had passed.
   */
  lemma FirstBorrowerPaysIdleTime(m: Market, user: Address, amount: int, checked: bool, now: nat)
    requires m.borrows == 0 && Borrowed(m, user, amount, checked, now).Ok?
    requires Accrued(Borrowed(m, user, amount, checked, now).value.0, now).Ok?
    ensures var m' := Borrowed(m, user, amount, checked, now).value.0;
            && m'.lastAccrual == m.lastAccrual && m'.index == m.index
            && (now > m.lastAccrual ==>
                  && BorrowApy(m').Ok? && Growth(now - m.lastAccrual, BorrowApy(m').value).Ok?
                  && Accrued(m', now).value.index == m.index + Growth(now - m.lastAccrual, BorrowApy(m').value).value)
            && (now <= m.lastAccrual ==> Accrued(m', now).value == m')
  {
    hide BorrowApy, Growth;
    BorrowWrites(m, user, amount, checked, now);
  }

  /** Per ledger the index gains five seconds' worth of the yearly rate, rounded down by less than one in all. */
  lemma InterestFollowsTheRate(m: Market, now: nat)
    requires m.borrows != 0 && now > m.lastAccrual && Accrued(m, now).Ok?
    ensures BorrowApy(m).Ok?
    ensures var gain, due := Accrued(m, now).value.index - m.index,
            (now - m.lastAccrual) * (BorrowApy(m).value * 5) * SCALE;
            gain * YEAR <= due < (gain + 1) * YEAR
  {
    hide BorrowApy;
    var n, r := now - m.lastAccrual, BorrowApy(m).value * 5;
    MulMono(0, n, r);
    QuotBounds(n * r * SCALE, YEAR);
  }

  /** `rate` is the line through base and base + slope1 up to the kink, or one of slope2 over the rest, rounded down. */
  predicate OnTheCurve(cfg: Config, u: nat, rate: nat) {
    if u <= cfg.kink then
      var above := rate - cfg.baseRate;
      above * cfg.kink <= cfg.slope1 * u < (above + 1) * cfg.kink
    else
      var above, rest := rate - cfg.baseRate - cfg.slope1, 10_000 - cfg.kink;
      above * rest <= cfg.slope2 * (u - cfg.kink) < (above + 1) * rest
  }

  lemma RateIsInterpolated(cfg: Config, u: nat)
    requires Sensible(cfg) && 0 < cfg.kink && u <= 10_000
    ensures RateAt(cfg, u).Ok? && OnTheCurve(cfg, u, RateAt(cfg, u).value)
  {
    if u <= cfg.kink {
      RateBelowKink(cfg, u);
      QuotBounds(cfg.slope1 * u, cfg.kink);
      hide RateAt, Quot;
      assert (Quot(cfg.slope1 * u, cfg.kink) + 1) * cfg.kink == Quot(cfg.slope1 * u, cfg.kink) * cfg.kink + cfg.kink;
    } else {
      RateAboveKink(cfg, u);
      var rest, x := 10_000 - cfg.kink, cfg.slope2 * (u - cfg.kink);
      QuotBounds(x, rest);
      hide RateAt, Quot;
      assert (Quot(x, rest) + 1) * rest == Quot(x, rest) * rest + rest;
    }
  }

  /** The borrow rate is the curve at the utilization: the borrowed share of the deposits in basis points. */
  lemma BorrowRateIsTheCurve(m: Market)
    requires Sensible(m.cfg) && 0 < m.deposits && InRange(m.deposits) && 0 <= m.borrows < TWO64 && 0 < m.cfg.kink
    ensures Utilization(m.deposits, m.borrows).Ok? && BorrowApy(m).Ok?
    ensures var u := Utilization(m.deposits, m.borrows).value;
            && u * m.deposits <= Min(m.borrows, m.deposits) * 10_000 < (u + 1) * m.deposits
            && OnTheCurve(m.cfg, u, BorrowApy(m).value)
  {
    UtilizationIsTheRatio(m.deposits, m.borrows);
    var used := Min(m.borrows, m.deposits) * 10_000;
    QuotBounds(used, m.deposits);
    hide Utilization, RateAt, OnTheCurve, Quot;
    assert (Quot(used, m.deposits) + 1) * m.deposits == Quot(used, m.deposits) * m.deposits + m.deposits;
    RateIsInterpolated(m.cfg, Utilization(m.deposits, m.borrows).value);
  }

  /** The curve meets its three named rates: base when idle, base + slope1 at the kink, and slope2 more at full use. */
  lemma CurveEndpoints(cfg: Config)
    requires Sensible(cfg) && 0 < cfg.kink < 10_000
    ensures RateAt(cfg, 0) == Ok(cfg.baseRate)
    ensures RateAt(cfg, cfg.kink) == Ok(cfg.baseRate + cfg.slope1)
    ensures RateAt(cfg, 10_000) == Ok(cfg.baseRate + cfg.slope1 + cfg.slope2)
  {
    RateBelowKink(cfg, 0);
    RateBelowKink(cfg, cfg.kink);
    RateAboveKink(cfg, 10_000);
    QuotUnique(0, cfg.kink, 0);
    QuotUnique(cfg.slope1 * cfg.kink, cfg.kink, cfg.slope1);
    QuotUnique(cfg.slope2 * (10_000 - cfg.kink), 10_000 - cfg.kink, cfg.slope2);
  }
}
