/**
 * A run in which a borrow from an idle market is liquidated in its own ledger,
 * at unchanged prices: the idle year is charged by the next call of the pool.
 */
module ProtocolIdle {
  import opened Host
  import opened Totals
  import opened Token
  import opened Oracle
  import opened Protocol
  import opened ProtocolRuns
  import opened ProtocolExample
  import Pool = LendingPool
  import Market = PoolRuns
  import Vault = CollateralVault
  import Safety = ProtocolSafety
  import Sync = ProtocolLedger

  /** A market at 100% a year. */
  const DOUBLING := Pool.Config(10_000, 0, 0, 10_000, 7_500)
  /** A year in ledgers of five seconds. */
  const YEAR: nat := 6_307_200

  /** Nothing is borrowed for a year; then the same borrow as in the other run. */
  function IdleCalls(): seq<Call> {
    Opening(DOUBLING) + [Wait(YEAR), NewFeeds(Prices(UNIT, UNIT, YEAR)), BORROW]
  }

  /** Somebody supplies one unit. */
  const NUDGE := InPool(USDC, Market.Supply(LIQUIDATOR, 1))

  function Charged(): Pool.Market {
    LentMarket(DOUBLING).(index := 2 * Pool.SCALE, lastAccrual := YEAR)
  }

  lemma YearIsCharged()
    ensures Pool.Accrued(LentMarket(DOUBLING), YEAR) == Ok(Charged())
    ensures Pool.DebtOf(Charged(), BORROWER) == Ok(100)
  {
    var m := LentMarket(DOUBLING);
    assert Pool.Utilization(m.deposits, m.borrows) == Ok(500);
    assert Pool.RateAt(DOUBLING, 500) == Ok(10_000) by {
      QuotUnique(0, 10_000, 0);
    }
    assert Pool.Growth(YEAR, 10_000) == Ok(Pool.SCALE);
    QuotUnique(50 * (2 * Pool.SCALE), Pool.SCALE, 100);
  }

  lemma NudgeGoesThrough()
    ensures var r := Pool.Supplied(LentMarket(DOUBLING), LIQUIDATOR, 1, YEAR);
            && r.Ok?
            && r.value.0 == Charged().(tokens := r.value.0.tokens, shares := r.value.0.shares,
                                       totalShares := r.value.0.totalShares, deposits := r.value.0.deposits)
            && Get(r.value.0.tokens, User(LIQUIDATOR)) == 499
  {
    YearIsCharged();
    hide Pool.Accrued;
    assert Pool.MintedShares(Charged(), 1) == Ok(1);
  }

  /** The borrower's pair after the nudge: 100 XLM against a debt of 100 USDC. */
  predicate Nudged(s: System) {
    && s.feeds == Prices(UNIT, UNIT, YEAR) && s.now == YEAR && s.liquidation == LIQUIDATION
    && XLM in s.desks && USDC in s.desks
    && s.desks[XLM].market.cfg == RATES && Get(s.desks[XLM].market.tokens, Holder.Vault) == 100
    && s.desks[XLM].book == Vault.Book(map[BORROWER := 100], 100)
    && s.desks[USDC].market.index == 2 * Pool.SCALE && s.desks[USDC].market.lastAccrual == YEAR
    && s.desks[USDC].market.loans == map[BORROWER := Pool.Loan(50, Pool.SCALE)]
    && s.desks[USDC].market.borrows == 50
    && Get(s.desks[USDC].market.tokens, User(LIQUIDATOR)) == 499
  }

  lemma NudgeCharges(w: World)
    requires Lent(w.system, DOUBLING, YEAR)
    ensures Nudged(Step(w, NUDGE).system)
  {
    hide Prices, Pool.Supplied;
    NudgeGoesThrough();
  }

  lemma NudgedIsAssessed(s: System)
    requires Nudged(s)
    ensures Assessed(s, BORROWER, USDC, XLM, 50) == Ok(Split(52, 0))
  {
    hide Value, GetPrice, Prices;
    LonePublisher(UNIT, UNIT, YEAR);
    ValueAt(s, XLM, 100, UNIT);
    ValueAt(s, USDC, 100, UNIT);
    ValueAt(s, USDC, 50, UNIT);
    QuotUnique(50 * (2 * Pool.SCALE), Pool.SCALE, 100);
    assert DebtOf(s, BORROWER, USDC) == Ok(100) && Position(s, BORROWER, XLM) == 100;
    assert Value(s, XLM, 100) == Ok(100) && Value(s, USDC, 100) == Ok(100) && Value(s, USDC, 50) == Ok(50);
    assert Unhealthy(s, BORROWER, USDC, XLM) == Ok(100);
    assert SeizureOf(s.liquidation, 50, UNIT) == Ok(Split(52, 0));
  }

  lemma NudgedRepays(s: System)
    requires Nudged(s)
    ensures PoolRepay(s, LIQUIDATOR, BORROWER, USDC, 50).Ok?
    ensures var s1 := PoolRepay(s, LIQUIDATOR, BORROWER, USDC, 50).value.0;
            XLM in s1.desks && s1.desks[XLM] == s.desks[XLM]
  {
    var m := s.desks[USDC].market;
    assert Pool.Accrued(m, YEAR) == Ok(m);
    QuotUnique(50 * (2 * Pool.SCALE), Pool.SCALE, 100);
    assert Pool.DebtOf(m, BORROWER) == Ok(100);
  }

  lemma NudgedIsLiquidated(s: System)
    requires Nudged(s)
    ensures Liquidate(s, LIQUIDATOR, BORROWER, USDC, XLM, 50).Ok?
  {
    hide Assessed, PoolRepay, Prices;
    NudgedIsAssessed(s);
    NudgedRepays(s);
    var s1 := PoolRepay(s, LIQUIDATOR, BORROWER, USDC, 50).value.0;
    var d := s1.desks[XLM];
    assert Vault.Seized(d.book, d.market.tokens, BORROWER, LIQUIDATOR, 52).Ok?;
  }

  lemma YearPasses(w: World)
    requires w.system == Before(DOUBLING, 0)
    ensures Step(Step(w, Wait(YEAR)), NewFeeds(Prices(UNIT, UNIT, YEAR))).system == Before(DOUBLING, YEAR)
  {
    hide Prices;
  }

  lemma BorrowStep(w: World)
    requires w.system == Before(DOUBLING, YEAR)
    ensures Lent(Step(w, BORROW).system, DOUBLING, YEAR)
    ensures Borrow(w.system, BORROWER, XLM, 100, USDC, 50).Ok?
    ensures Step(w, BORROW) == World(Borrow(w.system, BORROWER, XLM, 100, USDC, 50).value, w.donated)
  {
    hide Borrow, Before, Lent;
    BorrowGoesThrough(DOUBLING, YEAR);
  }

  /** The run up to the borrow, step by step. */
  function AtBorrow(): World {
    var w3 := Step(Step(Step(Start(Prices(UNIT, UNIT, 0), LIQUIDATION), Opening(DOUBLING)[0]), Opening(DOUBLING)[1]),
                   Opening(DOUBLING)[2]);
    Step(Step(w3, Wait(YEAR)), NewFeeds(Prices(UNIT, UNIT, YEAR)))
  }

  lemma {:induction false} RunOfSix(w: World, a: Call, b: Call, c: Call, d: Call, e: Call, f: Call)
    ensures Run(w, [a, b, c, d, e, f]) == Step(Step(Step(Step(Step(Step(w, a), b), c), d), e), f)
  {
    hide Step;
    assert [a, b, c, d, e, f][1..] == [b, c, d, e, f] && [b, c, d, e, f][1..] == [c, d, e, f];
    assert [c, d, e, f][1..] == [d, e, f] && [d, e, f][1..] == [e, f];
    RunOfTwo(Step(Step(Step(Step(w, a), b), c), d), e, f);
    assert Run(Step(Step(Step(w, a), b), c), [d, e, f]) == Run(Step(Step(Step(Step(w, a), b), c), d), [e, f]);
    assert Run(Step(Step(w, a), b), [c, d, e, f]) == Run(Step(Step(Step(w, a), b), c), [d, e, f]);
    assert Run(Step(w, a), [b, c, d, e, f]) == Run(Step(Step(w, a), b), [c, d, e, f]);
  }

  lemma AtBorrowIsReached()
    ensures Run(Start(Prices(UNIT, UNIT, 0), LIQUIDATION), IdleCalls()) == Step(AtBorrow(), BORROW)
    ensures AtBorrow().system == Before(DOUBLING, YEAR)
  {
    hide Step, Prices, Before;
    var w, o := Start(Prices(UNIT, UNIT, 0), LIQUIDATION), Opening(DOUBLING);
    assert IdleCalls() == [o[0], o[1], o[2], Wait(YEAR), NewFeeds(Prices(UNIT, UNIT, YEAR)), BORROW];
    RunOfSix(w, o[0], o[1], o[2], Wait(YEAR), NewFeeds(Prices(UNIT, UNIT, YEAR)), BORROW);
    BeforeIsReached(DOUBLING);
    YearPasses(Step(Step(Step(w, o[0]), o[1]), o[2]));
  }

  lemma {:induction false} AtBorrowIsSound()
    ensures SystemOk(AtBorrow())
  {
    hide *;
    var w0, o := Start(Prices(UNIT, UNIT, 0), LIQUIDATION), Opening(DOUBLING);
    StartIsSound();
    StepKeepsSystem(w0, o[0]);
    StepKeepsSystem(Step(w0, o[0]), o[1]);
    StepKeepsSystem(Step(Step(w0, o[0]), o[1]), o[2]);
    var w3 := Step(Step(Step(w0, o[0]), o[1]), o[2]);
    StepKeepsSystem(w3, Wait(YEAR));
    StepKeepsSystem(Step(w3, Wait(YEAR)), NewFeeds(Prices(UNIT, UNIT, YEAR)));
    AtBorrowUnfolds();
  }

  lemma StartIsSound()
    ensures SystemOk(Start(Prices(UNIT, UNIT, 0), LIQUIDATION)) && |Opening(DOUBLING)| == 3
  {
    hide Prices;
  }

  lemma AtBorrowUnfolds()
    ensures |Opening(DOUBLING)| == 3
    ensures var w0, o := Start(Prices(UNIT, UNIT, 0), LIQUIDATION), Opening(DOUBLING);
            AtBorrow() == Step(Step(Step(Step(Step(w0, o[0]), o[1]), o[2]), Wait(YEAR)),
                               NewFeeds(Prices(UNIT, UNIT, YEAR)))
  {
    hide Step, Prices;
  }

  /**
   * The condition on the clock matters. From an empty deployment, after a market
   * was idle for a year: the borrow goes through and nobody can liquidate it; one
   * unit supplied by anybody in the same ledger charges it the idle year, and half
   * of it is liquidated at unchanged prices.
   */
  lemma {:induction false} IdleBorrowIsLiquidatedInItsLedger()
    ensures var w := Run(Start(Prices(UNIT, UNIT, 0), LIQUIDATION), IdleCalls());
            && !Sync.ClockIsKept(AtBorrow().system, USDC)
            && Sync.Bystanding(NUDGE, Sync.Pair(BORROWER, XLM, USDC))
            && Liquidate(w.system, LIQUIDATOR, BORROWER, USDC, XLM, 50) == Revert(PositionHealthy)
            && Liquidate(Step(w, NUDGE).system, LIQUIDATOR, BORROWER, USDC, XLM, 50).Ok?
  {
    hide Step, Liquidate, Borrow, AtBorrow, IdleCalls, Run, Prices, Lent, Nudged, SystemOk;
    AtBorrowIsReached();
    AtBorrowIsSound();
    var w := AtBorrow();
    BorrowStep(w);
    Safety.BorrowIsNotLiquidatable(w, BORROWER, XLM, 100, USDC, 50, LIQUIDATOR, 50);
    LentOwes(Step(w, BORROW).system);
    NudgeCharges(Step(w, BORROW));
    NudgedIsLiquidated(Step(Step(w, BORROW), NUDGE).system);
  }

  lemma LentOwes(s: System)
    requires Lent(s, DOUBLING, YEAR)
    ensures DebtOf(s, BORROWER, USDC).Ok?
  {
  }
}
