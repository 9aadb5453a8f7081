/**
 * One run of the whole system, from an empty deployment: deposits, a borrow and
 * a liquidation that go through, and a liquidation that leaves the position worse.
 */
module ProtocolExample {
  import opened Host
  import opened Totals
  import opened Token
  import opened Medians
  import opened Oracle
  import opened Protocol
  import opened ProtocolRuns
  import Pool = LendingPool
  import Market = PoolRuns
  import Vault = CollateralVault

  const BORROWER: Address := 1
  const LIQUIDATOR: Address := 2
  const LENDER: Address := 3
  const PUBLISHER: Address := 9
  const XLM: Asset := 0
  const USDC: Asset := 1

  const RATES := Pool.Config(0, 500, 5_000, 8_000, 7_500)

  /** Both prices, reported at ledger `at` by the only publisher. */
  function Prices(xlm: int, usdc: int, at: nat): Feeds {
    Feeds([PUBLISHER], {PUBLISHER}, map[XLM := Config(300, 1), USDC := Config(300, 1)],
          map[(XLM, PUBLISHER) := xlm, (USDC, PUBLISHER) := usdc],
          map[(XLM, PUBLISHER) := at, (USDC, PUBLISHER) := at])
  }

  lemma LonePublisher(xlm: int, usdc: int, at: nat)
    requires xlm > 0 && usdc > 0
    ensures GetPrice(Prices(xlm, usdc, at), XLM, at) == Ok(xlm)
    ensures GetPrice(Prices(xlm, usdc, at), USDC, at) == Ok(usdc)
  {
    hide GetPrice, Reports, LowerMedian;
    var o := Prices(xlm, usdc, at);
    LonePublisherSetsThePrice(o, XLM, PUBLISHER, at);
    LonePublisherSetsThePrice(o, USDC, PUBLISHER, at);
  }

  lemma ValueAt(s: System, asset: Asset, amount: int, price: int)
    requires GetPrice(s.feeds, asset, s.now) == Ok(price) && 0 <= amount <= 1_000_000 && 0 < price <= 1_000_000_000
    ensures Value(s, asset, amount) == Ok(Quot(amount * price, UNIT))
  {
    hide GetPrice;
    MulMono(amount, 1_000_000, price);
    MulMono(0, amount, price);
  }

  const LIQUIDATION := LiquidationConfig(500, 200, 5_000, 7)
  const XLM_TOKENS: Ledger := map[User(BORROWER) := 100]
  const USDC_TOKENS: Ledger := map[User(LENDER) := 1_000, User(LIQUIDATOR) := 500]

  const USDC_AFTER: Ledger := map[User(LENDER) := 0, Holder.Pool := 1_000, User(LIQUIDATOR) := 500]

  /** At ledger `now`: a borrower with 100 XLM in the wallet, and a USDC market with 1000 deposited at ledger 0. */
  function Before(cfg: Pool.Config, now: nat): System {
    var xlm := Pool.Added(RATES, 0, XLM_TOKENS);
    var usdc := Pool.Added(cfg, 0, USDC_AFTER).(deposits := 1_000, totalShares := 1_000,
                                                shares := map[LENDER := 1_000]);
    System(map[XLM := Desk(xlm, Vault.Empty), USDC := Desk(usdc, Vault.Empty)], [XLM, USDC],
           Prices(UNIT, UNIT, now), LIQUIDATION, now)
  }

  function Opening(cfg: Pool.Config): seq<Call> {
    [AddAsset(XLM, RATES, XLM_TOKENS), AddAsset(USDC, cfg, USDC_TOKENS), InPool(USDC, Market.Supply(LENDER, 1_000))]
  }

  const BORROW := BorrowAgainst(BORROWER, XLM, 100, USDC, 50)

  /** The calls of the run, up to the liquidation. */
  function Calls(): seq<Call> {
    Opening(RATES) + [BORROW, NewFeeds(Prices(UNIT / 2, UNIT, 0))]
  }

  lemma SupplyGoesThrough(cfg: Pool.Config)
    ensures var m := Pool.Added(cfg, 0, USDC_TOKENS);
            Pool.Supplied(m, LENDER, 1_000, 0) == Ok((Before(cfg, 0).desks[USDC].market, 1_000))
  {
    var m := Pool.Added(cfg, 0, USDC_TOKENS);
    assert Pool.MintedShares(m, 1_000) == Ok(1_000);
    LenderPays();
    hide Pool.MintedShares, Transfer;
    assert Pool.Accrued(m, 0) == Ok(m);
  }

  lemma LenderPays()
    ensures Transfer(USDC_TOKENS, User(LENDER), Holder.Pool, 1_000) == Ok(USDC_AFTER)
  {
    var debited := USDC_TOKENS[User(LENDER) := 0];
    assert Get(USDC_TOKENS, User(LENDER)) == 1_000 && Get(debited, Holder.Pool) == 0;
    assert debited[Holder.Pool := 1_000] == USDC_AFTER;
  }

  /** Before the borrow, as three calls from an empty deployment. */
  lemma BeforeIsReached(cfg: Pool.Config)
    ensures var w := Start(Prices(UNIT, UNIT, 0), LIQUIDATION);
            var w3 := Step(Step(Step(w, Opening(cfg)[0]), Opening(cfg)[1]), Opening(cfg)[2]);
            w3.system == Before(cfg, 0)
  {
    hide Prices, Pool.Supplied, Step;
    var w := Start(Prices(UNIT, UNIT, 0), LIQUIDATION);
    AssetsAreAdded(w, cfg);
    LenderSupplies(Step(Step(w, Opening(cfg)[0]), Opening(cfg)[1]), cfg);
  }

  function Listed(cfg: Pool.Config, feeds: Feeds): World {
    World(System(map[XLM := Desk(Pool.Added(RATES, 0, XLM_TOKENS), Vault.Empty),
                     USDC := Desk(Pool.Added(cfg, 0, USDC_TOKENS), Vault.Empty)],
                 [XLM, USDC], feeds, LIQUIDATION, 0),
          map[XLM := 0, USDC := 0])
  }

  lemma AssetsAreAdded(w: World, cfg: Pool.Config)
    requires w == Start(w.system.feeds, LIQUIDATION)
    ensures Step(Step(w, Opening(cfg)[0]), Opening(cfg)[1]) == Listed(cfg, w.system.feeds)
  {
    var w1 := Step(w, AddAsset(XLM, RATES, XLM_TOKENS));
    assert Fresh(XLM_TOKENS) && Fresh(USDC_TOKENS);
    var desks := map[XLM := Desk(Pool.Added(RATES, 0, XLM_TOKENS), Vault.Empty)];
    assert w1 == World(System(desks, [XLM], w.system.feeds, LIQUIDATION, 0), map[XLM := 0]);
  }

  lemma LenderSupplies(w: World, cfg: Pool.Config)
    requires w == Listed(cfg, Prices(UNIT, UNIT, 0))
    ensures Step(w, Opening(cfg)[2]).system == Before(cfg, 0)
  {
    hide Prices, Pool.Supplied;
    SupplyGoesThrough(cfg);
    assert Step(w, Opening(cfg)[2]).system.desks == Before(cfg, 0).desks;
  }

  lemma BorrowCheckPasses(cfg: Pool.Config, now: nat)
    ensures BorrowAllowed(Before(cfg, now), BORROWER, XLM, 100, USDC, 50).Ok?
  {
    hide Value, GetPrice;
    var s := Before(cfg, now);
    LonePublisher(UNIT, UNIT, now);
    assert Position(s, BORROWER, XLM) == 0 && DebtOf(s, BORROWER, USDC) == Ok(0) && EffectiveLtv(s, XLM) == Ok(7_500);
    ValueAt(s, XLM, 100, UNIT);
    ValueAt(s, USDC, 50, UNIT);
    assert Value(s, XLM, 100) == Ok(100) && Value(s, USDC, 50) == Ok(50);
  }

  /** The USDC market once 50 are lent; an idle market did not move its clock. */
  function LentMarket(cfg: Pool.Config): Pool.Market {
    Before(cfg, 0).desks[USDC].market
      .(borrows := 50, loans := map[BORROWER := Pool.Loan(50, Pool.SCALE)],
        tokens := map[User(LENDER) := 0, Holder.Pool := 950, User(LIQUIDATOR) := 500, User(BORROWER) := 50])
  }

  /** The borrower has 100 XLM in the vault and owes 50 USDC, nothing else having changed. */
  predicate Lent(s: System, cfg: Pool.Config, now: nat) {
    && s == Before(cfg, now).(desks := s.desks)
    && XLM in s.desks && USDC in s.desks
    && Position(s, BORROWER, XLM) == 100 && DebtOf(s, BORROWER, USDC) == Ok(50)
    && s.desks[XLM].market.cfg == RATES
    && Get(s.desks[XLM].market.tokens, Holder.Vault) == 100
    && s.desks[XLM].book == Vault.Book(map[BORROWER := 100], 100)
    && s.desks[USDC].market == LentMarket(cfg)
    && s.desks[USDC].book == Vault.Empty
  }

  /** The borrow of 50 USDC against 100 XLM at equal prices succeeds. */
  lemma BorrowGoesThrough(cfg: Pool.Config, now: nat)
    ensures Borrow(Before(cfg, now), BORROWER, XLM, 100, USDC, 50).Ok?
    ensures Lent(Borrow(Before(cfg, now), BORROWER, XLM, 100, USDC, 50).value, cfg, now)
  {
    hide BorrowAllowed, Value;
    BorrowCheckPasses(cfg, now);
    var s := Before(cfg, now);
    var s1 := VaultDeposit(s, BORROWER, XLM, 100);
    assert s1.Ok?;
    assert s1.value.desks[USDC] == s.desks[USDC];
    MarketLends(cfg, now);
    QuotUnique(50 * Pool.SCALE, Pool.SCALE, 50);
    assert Pool.DebtOf(LentMarket(cfg), BORROWER) == Ok(50);
  }

  lemma MarketLends(cfg: Pool.Config, now: nat)
    ensures Pool.Borrowed(Before(cfg, now).desks[USDC].market, BORROWER, 50, false, now) == Ok((LentMarket(cfg), 0))
  {
    var m := Before(cfg, now).desks[USDC].market;
    assert Pool.Accrued(m, now) == Ok(m);
    assert Transfer(m.tokens, Holder.Pool, User(BORROWER), 50) == Ok(LentMarket(cfg).tokens) by {
      var debited := m.tokens[Holder.Pool := 950];
      assert debited[User(BORROWER) := 50] == LentMarket(cfg).tokens;
    }
  }

  /** The same position after XLM has lost half its value. */
  function After(): System {
    BorrowGoesThrough(RATES, 0);
    Borrow(Before(RATES, 0), BORROWER, XLM, 100, USDC, 50).value.(feeds := Prices(UNIT / 2, UNIT, 0))
  }

  lemma AssessmentPasses()
    ensures Assessed(After(), BORROWER, USDC, XLM, 25) == Ok(Split(52, 0))
  {
    hide Borrow, Value, GetPrice;
    BorrowGoesThrough(RATES, 0);
    var s := After();
    LonePublisher(UNIT / 2, UNIT, 0);
    assert DebtOf(s, BORROWER, USDC)
      == DebtOf(Borrow(Before(RATES, 0), BORROWER, XLM, 100, USDC, 50).value, BORROWER, USDC);
    ValueAt(s, XLM, 100, UNIT / 2);
    ValueAt(s, USDC, 50, UNIT);
    ValueAt(s, USDC, 25, UNIT);
    assert Value(s, XLM, 100) == Ok(50) && Value(s, USDC, 50) == Ok(50) && Value(s, USDC, 25) == Ok(25);
    assert Unhealthy(s, BORROWER, USDC, XLM) == Ok(50);
    assert SeizureOf(s.liquidation, 25, UNIT / 2) == Ok(Split(52, 0));
  }

  lemma {:induction false} AfterIsReached()
    ensures Run(Start(Prices(UNIT, UNIT, 0), LIQUIDATION), Calls()).system == After()
  {
    hide Borrow, Before, Step;
    var w, cs := Start(Prices(UNIT, UNIT, 0), LIQUIDATION), Calls();
    BeforeIsReached(RATES);
    BorrowGoesThrough(RATES, 0);
    var w3 := Step(Step(Step(w, cs[0]), cs[1]), cs[2]);
    LastTwoCalls(w3);
    assert cs[0] == Opening(RATES)[0] && cs[1] == Opening(RATES)[1] && cs[2] == Opening(RATES)[2];
    assert cs[1..][1..][1..] == [cs[3], cs[4]];
    RunOfTwo(w3, cs[3], cs[4]);
    assert Run(w, cs) == Run(Step(w, cs[0]), cs[1..]);
    assert Run(Step(w, cs[0]), cs[1..]) == Run(Step(Step(w, cs[0]), cs[1]), cs[1..][1..]);
  }

  lemma {:induction false} RunOfTwo(w: World, a: Call, b: Call)
    ensures Run(w, [a, b]) == Step(Step(w, a), b)
  {
    hide Step;
    assert [a, b][1..] == [b] && [b][1..] == [];
    assert Run(Step(w, a), [b]) == Run(Step(Step(w, a), b), []);
  }

  lemma LastTwoCalls(w: World)
    requires w.system == Before(RATES, 0) && Borrow(Before(RATES, 0), BORROWER, XLM, 100, USDC, 50).Ok?
    ensures Step(Step(w, BORROW), NewFeeds(Prices(UNIT / 2, UNIT, 0))).system == After()
  {
    hide Borrow, Before, Prices;
  }

  /** The borrower's debt after the repayment, at the same ledger. */
  lemma RepaymentGoesThrough(s: System)
    requires Lent(s.(feeds := Before(RATES, 0).feeds), RATES, 0)
    ensures PoolRepay(s, LIQUIDATOR, BORROWER, USDC, 25).Ok?
    ensures var s1 := PoolRepay(s, LIQUIDATOR, BORROWER, USDC, 25).value.0;
            s1 == s.(desks := s1.desks) && XLM in s1.desks && s1.desks[XLM] == s.desks[XLM]
              && DebtOf(s1, BORROWER, USDC) == Ok(25)
  {
    var m := s.desks[USDC].market;
    assert Pool.Accrued(m, 0) == Ok(m);
    var m' := Pool.Repaid(m, LIQUIDATOR, BORROWER, 25, 0).value.0;
    assert Pool.LoanOf(m', BORROWER) == Pool.Loan(25, m.index);
    QuotUnique(25 * m.index, Max(m.index, 1), 25);
  }

  /** Now half of the debt can be liquidated, for 52 of the 100 XLM. */
  lemma LiquidationGoesThrough()
    ensures Liquidate(After(), LIQUIDATOR, BORROWER, USDC, XLM, 25).Ok?
    ensures Liquidate(After(), LIQUIDATOR, BORROWER, USDC, XLM, 25).value.1 == 52
    ensures var s' := Liquidate(After(), LIQUIDATOR, BORROWER, USDC, XLM, 25).value.0;
            Position(s', BORROWER, XLM) == 48 && DebtOf(s', BORROWER, USDC) == Ok(25)
  {
    hide Borrow, Assessed, PoolRepay;
    BorrowGoesThrough(RATES, 0);
    AssessmentPasses();
    var s := After();
    RepaymentGoesThrough(s);
    var s1 := PoolRepay(s, LIQUIDATOR, BORROWER, USDC, 25).value.0;
    var d := s1.desks[XLM];
    assert Vault.Seized(d.book, d.market.tokens, BORROWER, LIQUIDATOR, 52).Ok?;
    var s2 := VaultSeize(s1, BORROWER, LIQUIDATOR, XLM, 52).value;
    assert s2.desks[USDC] == s1.desks[USDC];
  }

  /**
   * Without the cover a liquidation can leave a position worse: in this run it
   * had 100 units of collateral for a debt of 50 and ends with 48 for 25.
   */
  lemma UncoveredPositionCanWorsen()
    ensures var s := Run(Start(Prices(UNIT, UNIT, 0), LIQUIDATION), Calls()).system;
            var r := Liquidate(s, LIQUIDATOR, BORROWER, USDC, XLM, 25);
            && r.Ok? && DebtOf(s, BORROWER, USDC).Ok? && DebtOf(r.value.0, BORROWER, USDC).Ok?
            && Position(r.value.0, BORROWER, XLM) * DebtOf(s, BORROWER, USDC).value
               < Position(s, BORROWER, XLM) * DebtOf(r.value.0, BORROWER, USDC).value
  {
    hide Borrow, Liquidate, Run;
    AfterIsReached();
    BorrowGoesThrough(RATES, 0);
    LiquidationGoesThrough();
    AfterOwes();
  }

  lemma AfterOwes()
    ensures Position(After(), BORROWER, XLM) == 100 && DebtOf(After(), BORROWER, USDC) == Ok(50)
  {
    hide Borrow;
    BorrowGoesThrough(RATES, 0);
    var s := Borrow(Before(RATES, 0), BORROWER, XLM, 100, USDC, 50).value;
    assert DebtOf(After(), BORROWER, USDC) == DebtOf(s, BORROWER, USDC);
  }
}
