/**
 * How long a fresh borrow stays safe. A controller borrow is tested with the
 * interest accrued so far; what anybody does later in the same ledger can only
 * hurt it through an accrual that the borrow itself left undone.
 */
module ProtocolLedger {
  import opened Host
  import opened Totals
  import opened Token
  import opened Oracle
  import opened Protocol
  import opened ProtocolRuns
  import opened ProtocolSafety
  import Pool = LendingPool
  import Market = PoolRuns
  import Vault = CollateralVault

  /** A borrower with one collateral asset and one debt asset. */
  datatype Pair = Pair(user: Address, coll: Asset, debt: Asset)

  /** Calls of the same ledger at unchanged prices that neither take from the pair's collateral nor add to its debt. */
  predicate Bystanding(c: Call, p: Pair) {
    match c
    case AddAsset(_, _, _) => true
    case InPool(asset, call) => asset == p.debt && (call.Borrow? || call.BorrowRaw?) ==> call.user != p.user
    case OperatorDeposit(_, _, _) => true
    case OperatorWithdraw(user, asset, _) => asset == p.coll ==> user != p.user
    case OperatorSeize(user, _, asset, _) => asset == p.coll ==> user != p.user
    case SupplyCollateral(_, _, _) => true
    case BorrowAgainst(user, _, _, debt, _) => debt == p.debt ==> user != p.user
    case TakeCollateral(user, coll, _) => coll == p.coll ==> user != p.user
    case Liquidation(_, borrower, debt, coll, _) => coll == p.coll && borrower == p.user ==> debt == p.debt
    case NewFeeds(_) => false
    case NewConfig(_) => true
    case Wait(ledgers) => ledgers == 0
  }

  /** What the pair had right after the borrow. */
  datatype Snapshot = Snapshot(position: int, owed: int, ltv: nat, feeds: Feeds, now: nat)

  ghost predicate OwesAtMost(m: Pool.Market, user: Address, owed: int) {
    var d := Pool.DebtOf(m, user);
    d.Ok? ==> 0 <= d.value <= owed
  }

  /** The debt's clock is current, the collateral no less, the debt no more, at the same prices. */
  ghost predicate Calm(w: World, p: Pair, b: Snapshot) {
    var s := w.system;
    && SystemOk(w) && s.feeds == b.feeds && s.now == b.now
    && p.coll in s.desks && p.debt in s.desks
    && s.desks[p.coll].market.cfg.ltv == b.ltv
    && b.now <= s.desks[p.debt].market.lastAccrual
    && b.position <= Position(s, p.user, p.coll)
    && OwesAtMost(s.desks[p.debt].market, p.user, b.owed)
  }

  ghost predicate Covered(p: Pair, b: Snapshot) {
    var c, d := ValueOf(b.feeds, p.coll, b.position, b.now), ValueOf(b.feeds, p.debt, b.owed, b.now);
    && b.position >= 0 && c.Ok? && d.Ok? && d.value * BPS <= c.value * Min(b.ltv, MAX_LTV_BPS)
  }

  // ---------------------------------------------------------------- one desk

  /** What a write to the desk of `a` must not do to the pair. */
  ghost predicate DeskHarmless(d: Desk, d': Desk, a: Asset, p: Pair, b: Snapshot) {
    && d'.market.cfg == d.market.cfg
    && (a == p.coll ==> Get(d.book.position, p.user) <= Get(d'.book.position, p.user))
    && (a == p.debt ==> b.now <= d'.market.lastAccrual && OwesAtMost(d'.market, p.user, b.owed))
  }

  lemma DeskWriteStaysCalm(w: World, w': World, a: Asset, d: Desk, p: Pair, b: Snapshot)
    requires Calm(w, p, b) && SystemOk(w') && a in w.system.desks
    requires w'.system == w.system.(desks := w.system.desks[a := d])
    requires DeskHarmless(w.system.desks[a], d, a, p, b)
    ensures Calm(w', p, b)
  {
    hide SystemOk, OwesAtMost;
  }

  lemma SameLoansOwe(m: Pool.Market, m': Pool.Market, user: Address, owed: int)
    requires m'.loans == m.loans && m'.index == m.index && OwesAtMost(m, user, owed)
    ensures OwesAtMost(m', user, owed)
  {
    assert Pool.LoanOf(m', user) == Pool.LoanOf(m, user);
  }

  /** A vault call moves tokens and positions of one asset. */
  lemma VaultWriteIsHarmless(w: World, a: Asset, d: Desk, p: Pair, b: Snapshot)
    requires Calm(w, p, b) && a in w.system.desks
    requires var m := w.system.desks[a].market; d.market == m.(tokens := d.market.tokens)
    requires a == p.coll ==> Get(w.system.desks[a].book.position, p.user) <= Get(d.book.position, p.user)
    ensures DeskHarmless(w.system.desks[a], d, a, p, b)
  {
    hide SystemOk;
    if a == p.debt {
      SameLoansOwe(w.system.desks[a].market, d.market, p.user, b.owed);
    }
  }

  /** `s'` differs from `s` in the tokens and the book of one desk. */
  ghost predicate VaultWrote(s: System, s': System, a: Asset) {
    && a in s.desks && a in s'.desks
    && s' == s.(desks := s.desks[a := s'.desks[a]])
    && s'.desks[a].market == s.desks[a].market.(tokens := s'.desks[a].market.tokens)
  }

  lemma VaultWriteStaysCalm(w: World, s': System, a: Asset, p: Pair, b: Snapshot)
    requires Calm(w, p, b) && SystemOk(World(s', w.donated)) && VaultWrote(w.system, s', a)
    requires a == p.coll ==> Position(w.system, p.user, a) <= Position(s', p.user, a)
    ensures Calm(World(s', w.donated), p, b)
  {
    hide SystemOk, Calm;
    VaultWriteIsHarmless(w, a, s'.desks[a], p, b);
    DeskWriteStaysCalm(w, World(s', w.donated), a, s'.desks[a], p, b);
  }

  lemma DepositWrote(s: System, user: Address, asset: Asset, amount: int, other: Address)
    requires VaultDeposit(s, user, asset, amount).Ok?
    ensures var s' := VaultDeposit(s, user, asset, amount).value;
            VaultWrote(s, s', asset) && Position(s, other, asset) <= Position(s', other, asset)
  {
  }

  lemma VaultDepositStaysCalm(w: World, user: Address, asset: Asset, amount: int, p: Pair, b: Snapshot)
    requires Calm(w, p, b) && VaultDeposit(w.system, user, asset, amount).Ok?
    ensures Calm(World(VaultDeposit(w.system, user, asset, amount).value, w.donated), p, b)
  {
    CalmIsSound(w, p, b);
    hide VaultDeposit, Calm, SystemOk;
    VaultDepositKeeps(w, user, asset, amount);
    DepositWrote(w.system, user, asset, amount, p.user);
    VaultWriteStaysCalm(w, VaultDeposit(w.system, user, asset, amount).value, asset, p, b);
  }

  lemma CalmIsSound(w: World, p: Pair, b: Snapshot)
    requires Calm(w, p, b)
    ensures SystemOk(w)
  {
  }

  lemma WithdrawWrote(s: System, user: Address, asset: Asset, amount: int, other: Address)
    requires VaultWithdraw(s, user, asset, amount).Ok?
    ensures var s' := VaultWithdraw(s, user, asset, amount).value;
            VaultWrote(s, s', asset) && (other != user ==> Position(s, other, asset) == Position(s', other, asset))
  {
  }

  lemma VaultWithdrawStaysCalm(w: World, user: Address, asset: Asset, amount: int, p: Pair, b: Snapshot)
    requires Calm(w, p, b) && VaultWithdraw(w.system, user, asset, amount).Ok? && (asset == p.coll ==> user != p.user)
    ensures Calm(World(VaultWithdraw(w.system, user, asset, amount).value, w.donated), p, b)
  {
    CalmIsSound(w, p, b);
    hide VaultWithdraw, Calm, SystemOk;
    VaultWithdrawKeeps(w, user, asset, amount);
    WithdrawWrote(w.system, user, asset, amount, p.user);
    VaultWriteStaysCalm(w, VaultWithdraw(w.system, user, asset, amount).value, asset, p, b);
  }

  lemma SeizeWrote(s: System, owner: Address, to: Address, asset: Asset, amount: int, other: Address)
    requires VaultSeize(s, owner, to, asset, amount).Ok?
    ensures var s' := VaultSeize(s, owner, to, asset, amount).value;
            VaultWrote(s, s', asset) && (other != owner ==> Position(s, other, asset) <= Position(s', other, asset))
  {
  }

  lemma VaultSeizeStaysCalm(w: World, owner: Address, to: Address, asset: Asset, amount: int, p: Pair, b: Snapshot)
    requires Calm(w, p, b) && VaultSeize(w.system, owner, to, asset, amount).Ok?
    requires asset == p.coll ==> owner != p.user
    ensures Calm(World(VaultSeize(w.system, owner, to, asset, amount).value, w.donated), p, b)
  {
    CalmIsSound(w, p, b);
    hide VaultSeize, Calm, SystemOk;
    VaultSeizeKeeps(w, owner, to, asset, amount);
    SeizeWrote(w.system, owner, to, asset, amount, p.user);
    VaultWriteStaysCalm(w, VaultSeize(w.system, owner, to, asset, amount).value, asset, p, b);
  }

  // ---------------------------------------------------------------- pool calls at a current clock

  /** With a current clock no call of this ledger moves index or clock. */
  lemma IndexStands(m: Pool.Market, c: Market.Call, now: nat)
    requires now <= m.lastAccrual && !c.Wait? && Market.Apply(m, c, now).Ok?
    ensures var m' := Market.Apply(m, c, now).value.0;
            m'.index == m.index && m'.lastAccrual == m.lastAccrual && m'.cfg == m.cfg
  {
    assert Pool.Accrued(m, now) == Ok(m);
  }

  lemma PoolCallOwesNoMore(m: Pool.Market, c: Market.Call, now: nat, user: Address, owed: int)
    requires Market.DebtsOk(m) && m.index >= Pool.SCALE && now <= m.lastAccrual
    requires !c.Wait? && Market.Apply(m, c, now).Ok? && (c.Borrow? || c.BorrowRaw? ==> c.user != user)
    requires OwesAtMost(m, user, owed)
    ensures OwesAtMost(Market.Apply(m, c, now).value.0, user, owed)
  {
    var m' := Market.Apply(m, c, now).value.0;
    IndexStands(m, c, now);
    if c.Repay? && c.borrower == user {
      assert Pool.Accrued(m, now) == Ok(m);
      Market.RepayWrites(m, c.payer, user, c.amount, now);
      Market.RepaidNonNegative(m, c.payer, user, c.amount, now);
      Market.FreshLoanOwesPrincipal(m', user);
    } else {
      Market.UntouchedLoanStays(Market.World(m, now, 0, 0), c, user);
      assert Pool.DebtOf(m', user) == Pool.DebtOf(m, user);
    }
  }

  lemma PoolCallStaysCalm(w: World, asset: Asset, c: Market.Call, p: Pair, b: Snapshot)
    requires Calm(w, p, b) && !c.Wait? && (asset == p.debt && (c.Borrow? || c.BorrowRaw?) ==> c.user != p.user)
    ensures Calm(PoolCall(w, asset, c), p, b)
  {
    PoolCallKeeps(w, asset, c);
    if asset in w.system.desks && Market.Apply(w.system.desks[asset].market, c, w.system.now).Ok? {
      var d := w.system.desks[asset];
      var m' := Market.Apply(d.market, c, w.system.now).value.0;
      CallKeepsConfig(d.market, c, w.system.now);
      if asset == p.debt {
        assert DeskOk(d, Get(w.donated, asset));
        IndexStands(d.market, c, w.system.now);
        PoolCallOwesNoMore(d.market, c, w.system.now, p.user, b.owed);
      }
      DeskWriteStaysCalm(w, PoolCall(w, asset, c), asset, d.(market := m'), p, b);
    }
  }

  lemma CallKeepsConfig(m: Pool.Market, c: Market.Call, now: nat)
    requires !c.Wait? && Market.Apply(m, c, now).Ok?
    ensures Market.Apply(m, c, now).value.0.cfg == m.cfg
  {
    if Pool.Accrued(m, now).Ok? {
      Market.AccrualOnlyRaisesIndex(m, now);
    }
    hide Pool.Accrued;
  }

  lemma PoolBorrowStaysCalm(w: World, user: Address, asset: Asset, amount: int, p: Pair, b: Snapshot)
    requires Calm(w, p, b) && PoolBorrow(w.system, user, asset, amount).Ok? && (asset == p.debt ==> user != p.user)
    ensures Calm(World(PoolBorrow(w.system, user, asset, amount).value, w.donated), p, b)
  {
    hide Calm, PoolBorrow, PoolCall;
    PoolCallStaysCalm(w, asset, Market.BorrowRaw(user, amount), p, b);
    BorrowIsPoolCall(w, user, asset, amount);
  }

  lemma BorrowIsPoolCall(w: World, user: Address, asset: Asset, amount: int)
    requires PoolBorrow(w.system, user, asset, amount).Ok?
    ensures PoolCall(w, asset, Market.BorrowRaw(user, amount))
            == World(PoolBorrow(w.system, user, asset, amount).value, w.donated)
  {
    hide Pool.Borrowed;
  }

  lemma RepayIsPoolCall(w: World, payer: Address, borrower: Address, asset: Asset, amount: int)
    requires PoolRepay(w.system, payer, borrower, asset, amount).Ok?
    ensures PoolCall(w, asset, Market.Repay(payer, borrower, amount))
            == World(PoolRepay(w.system, payer, borrower, asset, amount).value.0, w.donated)
  {
    hide Pool.Repaid;
  }

  lemma PoolRepayStaysCalm(w: World, payer: Address, borrower: Address, asset: Asset, amount: int, p: Pair, b: Snapshot)
    requires Calm(w, p, b) && PoolRepay(w.system, payer, borrower, asset, amount).Ok?
    ensures Calm(World(PoolRepay(w.system, payer, borrower, asset, amount).value.0, w.donated), p, b)
  {
    hide Calm, PoolRepay, PoolCall;
    PoolCallStaysCalm(w, asset, Market.Repay(payer, borrower, amount), p, b);
    RepayIsPoolCall(w, payer, borrower, asset, amount);
  }

  // ---------------------------------------------------------------- the refusal

  /** A calm, covered pair is refused: as healthy, or because a value no longer fits 128 bits. */
  lemma CalmIsRefused(w: World, p: Pair, b: Snapshot, liquidator: Address, repay: int)
    requires Calm(w, p, b) && Covered(p, b) && repay > 0
    ensures Liquidate(w.system, liquidator, p.user, p.debt, p.coll, repay)
            in {Revert(PositionHealthy), Revert(Overflow)}
  {
    hide Liquidate, SystemOk, ValueOf;
    var s := w.system;
    var d, c := DebtOf(s, p.user, p.debt), Position(s, p.user, p.coll);
    if d.Revert? {
      DebtRevertsForOverflow(s, p.user, p.debt);
      UnreadableDebtIsRefused(s, liquidator, p.user, p.debt, p.coll, repay);
    } else {
      ValueMonotone(s, p.debt, d.value, b.owed);
      ValueFloors(s, p.coll, b.position);
      LargerValueFailsForOverflow(s, p.coll, b.position, c);
      if Value(s, p.coll, c).Ok? {
        ValueMonotone(s, p.coll, b.position, c);
      }
      RefusedUnlessWorse(s, liquidator, p, repay, Value(s, p.coll, b.position).value, Value(s, p.debt, b.owed).value);
    }
  }

  lemma DebtRevertsForOverflow(s: System, user: Address, debt: Asset)
    requires DebtOf(s, user, debt).Revert?
    ensures DebtOf(s, user, debt).why == Overflow
  {
  }

  lemma LargerValueFailsForOverflow(s: System, asset: Asset, x: int, y: int)
    requires Value(s, asset, x).Ok?
    ensures Value(s, asset, y).Ok? || Value(s, asset, y) == Revert(Overflow)
  {
  }

  lemma RefusedUnlessWorse(s: System, liquidator: Address, p: Pair, repay: int, c0: int, d0: int)
    requires repay > 0 && DebtOf(s, p.user, p.debt).Ok? && EffectiveLtv(s, p.coll).Ok?
    requires Value(s, p.debt, DebtOf(s, p.user, p.debt).value).Ok?
    requires 0 <= Value(s, p.debt, DebtOf(s, p.user, p.debt).value).value <= d0
    requires var c := Value(s, p.coll, Position(s, p.user, p.coll));
             if c.Ok? then 0 <= c0 <= c.value else c == Revert(Overflow)
    requires d0 * BPS <= c0 * EffectiveLtv(s, p.coll).value
    ensures Liquidate(s, liquidator, p.user, p.debt, p.coll, repay) in {Revert(PositionHealthy), Revert(Overflow)}
  {
    hide Value, DebtOf;
    var c, d := Value(s, p.coll, Position(s, p.user, p.coll)), Value(s, p.debt, DebtOf(s, p.user, p.debt).value).value;
    var ltv := EffectiveLtv(s, p.coll).value;
    if c.Ok? {
      MulMono(c0, c.value, ltv);
      MulMono(0, c.value, ltv);
      QuotBounds(c.value * ltv, BPS);
      if Fits(c.value * ltv) {
        HealthTestsAgreeAt(d, c.value, ltv);
      }
    }
    assert Unhealthy(s, p.user, p.debt, p.coll) in {Revert(PositionHealthy), Revert(Overflow)};
  }

  lemma HealthTestsAgreeAt(d: int, c: int, ltv: nat)
    requires d * BPS <= c * ltv && c * ltv >= 0
    ensures d <= Quot(c * ltv, BPS)
  {
    QuotBounds(c * ltv, BPS);
  }

  // ---------------------------------------------------------------- runs within the ledger

  lemma LiquidationStaysCalm(w: World, liquidator: Address, borrower: Address, debt: Asset, coll: Asset, repay: int,
                             p: Pair, b: Snapshot)
    requires Calm(w, p, b) && Liquidate(w.system, liquidator, borrower, debt, coll, repay).Ok?
    requires coll == p.coll ==> borrower != p.user
    ensures Calm(World(Liquidate(w.system, liquidator, borrower, debt, coll, repay).value.0, w.donated), p, b)
  {
    hide Calm, Assessed, PoolRepay, VaultSeize;
    var s := w.system;
    LiquidationParts(s, liquidator, borrower, debt, coll, repay);
    var split := Assessed(s, borrower, debt, coll, repay).value;
    var w1 := World(PoolRepay(s, liquidator, borrower, debt, repay).value.0, w.donated);
    PoolRepayStaysCalm(w, liquidator, borrower, debt, repay, p, b);
    var w2 := World(VaultSeize(w1.system, borrower, liquidator, coll, split.ToLiquidator()).value, w.donated);
    VaultSeizeStaysCalm(w1, borrower, liquidator, coll, split.ToLiquidator(), p, b);
    if split.fee > 0 {
      VaultSeizeStaysCalm(w2, borrower, s.liquidation.treasury, coll, split.fee, p, b);
    }
  }

  lemma SupplyCollateralStaysCalm(w: World, user: Address, asset: Asset, amount: int, p: Pair, b: Snapshot)
    requires Calm(w, p, b)
    ensures Calm(Step(w, SupplyCollateral(user, asset, amount)), p, b)
  {
    hide Calm, VaultDeposit, PoolCall;
    if VaultDeposit(w.system, user, asset, amount).Ok? {
      VaultDepositStaysCalm(w, user, asset, amount, p, b);
      PoolCallStaysCalm(World(VaultDeposit(w.system, user, asset, amount).value, w.donated), asset,
                        Market.PostCollateral(user, amount), p, b);
    }
  }

  lemma BorrowStaysCalm(w: World, user: Address, coll: Asset, collAmount: int, debt: Asset, amount: int, p: Pair,
                        b: Snapshot)
    requires Calm(w, p, b) && Borrow(w.system, user, coll, collAmount, debt, amount).Ok?
    requires debt == p.debt ==> user != p.user
    ensures Calm(World(Borrow(w.system, user, coll, collAmount, debt, amount).value, w.donated), p, b)
  {
    hide Calm, VaultDeposit, PoolBorrow, BorrowAllowed;
    VaultDepositStaysCalm(w, user, coll, collAmount, p, b);
    PoolBorrowStaysCalm(World(VaultDeposit(w.system, user, coll, collAmount).value, w.donated), user, debt, amount, p,
                        b);
  }

  lemma AddAssetStaysCalm(w: World, asset: Asset, cfg: Pool.Config, tokens: Ledger, p: Pair, b: Snapshot)
    requires Calm(w, p, b)
    ensures Calm(Step(w, AddAsset(asset, cfg, tokens)), p, b)
  {
    StepKeepsSystem(w, AddAsset(asset, cfg, tokens));
    hide SystemOk, OwesAtMost;
  }

  lemma SettingsStayCalm(w: World, c: Call, p: Pair, b: Snapshot)
    requires Calm(w, p, b) && (c.NewConfig? || c == Wait(0))
    ensures Calm(Step(w, c), p, b)
  {
    StepKeepsSystem(w, c);
    hide SystemOk, OwesAtMost;
  }

  lemma StepStaysCalm(w: World, c: Call, p: Pair, b: Snapshot)
    requires Calm(w, p, b) && Covered(p, b) && Bystanding(c, p)
    ensures Calm(Step(w, c), p, b)
  {
    hide Calm, Covered, VaultDeposit, VaultWithdraw, VaultSeize, PoolCall, Borrow, WithdrawAllowed, Liquidate;
    var s := w.system;
    match c {
      case AddAsset(asset, cfg, tokens) => AddAssetStaysCalm(w, asset, cfg, tokens, p, b);
      case InPool(asset, call) =>
        if !call.Wait? {
          PoolCallStaysCalm(w, asset, call, p, b);
        }
      case OperatorDeposit(user, asset, amount) =>
        if VaultDeposit(s, user, asset, amount).Ok? {
          VaultDepositStaysCalm(w, user, asset, amount, p, b);
        }
      case OperatorWithdraw(user, asset, amount) =>
        if VaultWithdraw(s, user, asset, amount).Ok? {
          VaultWithdrawStaysCalm(w, user, asset, amount, p, b);
        }
      case OperatorSeize(user, to, asset, amount) =>
        if VaultSeize(s, user, to, asset, amount).Ok? {
          VaultSeizeStaysCalm(w, user, to, asset, amount, p, b);
        }
      case SupplyCollateral(user, asset, amount) => SupplyCollateralStaysCalm(w, user, asset, amount, p, b);
      case BorrowAgainst(user, coll, collAmount, debt, amount) =>
        if Borrow(s, user, coll, collAmount, debt, amount).Ok? {
          BorrowStaysCalm(w, user, coll, collAmount, debt, amount, p, b);
        }
      case TakeCollateral(user, coll, amount) =>
        if WithdrawCollateral(s, user, coll, amount).Ok? {
          VaultWithdrawStaysCalm(w, user, coll, amount, p, b);
        }
      case Liquidation(liquidator, borrower, debt, coll, repay) =>
        if Liquidate(s, liquidator, borrower, debt, coll, repay).Ok? {
          LiquidationRepaysSomething(s, liquidator, borrower, debt, coll, repay);
          if borrower == p.user && coll == p.coll {
            CalmIsRefused(w, p, b, liquidator, repay);
          } else {
            LiquidationStaysCalm(w, liquidator, borrower, debt, coll, repay, p, b);
          }
        }
      case NewConfig(_) => SettingsStayCalm(w, c, p, b);
      case Wait(_) => SettingsStayCalm(w, c, p, b);
    }
  }

  lemma LiquidationRepaysSomething(s: System, liquidator: Address, borrower: Address, debt: Asset, coll: Asset,
                                   repay: int)
    requires Liquidate(s, liquidator, borrower, debt, coll, repay).Ok?
    ensures repay > 0
  {
    hide PoolRepay, VaultSeize, Unhealthy;
  }

  lemma RunUnfolds(w: World, cs: seq<Call>)
    ensures Run(w, cs) == if cs == [] then w else Run(Step(w, cs[0]), cs[1..])
  {
    hide Step;
  }

  lemma {:induction false} RunStaysCalm(w: World, cs: seq<Call>, p: Pair, b: Snapshot)
    requires Calm(w, p, b) && Covered(p, b) && forall i :: 0 <= i < |cs| ==> Bystanding(cs[i], p)
    ensures Calm(Run(w, cs), p, b)
    decreases cs
  {
    hide *;
    RunUnfolds(w, cs);
    if cs != [] {
      assert forall i :: 0 <= i < |cs[1..]| ==> cs[1..][i] == cs[i + 1];
      StepStaysCalm(w, cs[0], p, b);
      RunStaysCalm(Step(w, cs[0]), cs[1..], p, b);
    }
  }

  // ---------------------------------------------------------------- the theorem

  /** The clock of the debt's market is current, or the borrow makes it so. */
  predicate ClockIsKept(s: System, debt: Asset) {
    debt in s.desks && (s.desks[debt].market.borrows != 0 || s.now <= s.desks[debt].market.lastAccrual)
  }

  lemma BorrowKeepsClock(m: Pool.Market, user: Address, amount: int, now: nat)
    requires Pool.Borrowed(m, user, amount, false, now).Ok?
    ensures m.borrows != 0 || now <= m.lastAccrual
            <==> now <= Pool.Borrowed(m, user, amount, false, now).value.0.lastAccrual
  {
    Market.BorrowWrites(m, user, amount, false, now);
  }

  lemma BorrowedDesks(s: System, user: Address, coll: Asset, collAmount: int, debt: Asset, amount: int)
    requires Borrow(s, user, coll, collAmount, debt, amount).Ok?
    ensures coll in s.desks && debt in s.desks
    ensures var s' := Borrow(s, user, coll, collAmount, debt, amount).value;
            && coll in s'.desks && debt in s'.desks
            && s'.desks[coll].market.cfg == s.desks[coll].market.cfg
            && (ClockIsKept(s, debt) <==> s'.now <= s'.desks[debt].market.lastAccrual)
  {
    hide BorrowAllowed, Value;
    var s1 := VaultDeposit(s, user, coll, collAmount).value;
    DepositRaisesPosition(s, user, coll, collAmount);
    var m1 := s1.desks[debt].market;
    BorrowKeepsClock(m1, user, amount, s.now);
    Market.BorrowWrites(m1, user, amount, false, s.now);
    Market.AccrualOnlyRaisesIndex(m1, s.now);
  }

  lemma FreshBorrowIsCalm(w: World, user: Address, coll: Asset, collAmount: int, debt: Asset, amount: int)
    requires SystemOk(w) && Borrow(w.system, user, coll, collAmount, debt, amount).Ok? && ClockIsKept(w.system, debt)
    requires amount > 0 && DebtOf(w.system, user, debt).Ok? && coll in w.system.desks
    ensures var s := w.system;
            var b := Snapshot(Position(s, user, coll) + collAmount, DebtOf(s, user, debt).value + amount,
                              s.desks[coll].market.cfg.ltv, s.feeds, s.now);
            Calm(World(Borrow(s, user, coll, collAmount, debt, amount).value, w.donated), Pair(user, coll, debt), b)
  {
    hide SystemOk;
    BorrowKeeps(w, user, coll, collAmount, debt, amount);
    AfterBorrow(w, user, coll, collAmount, debt, amount);
    BorrowedDesks(w.system, user, coll, collAmount, debt, amount);
    hide Borrow;
  }

  lemma FreshBorrowIsCovered(w: World, user: Address, coll: Asset, collAmount: int, debt: Asset, amount: int)
    requires SystemOk(w) && Borrow(w.system, user, coll, collAmount, debt, amount).Ok?
    ensures amount > 0 && DebtOf(w.system, user, debt).Ok? && coll in w.system.desks
    ensures var s := w.system;
            var b := Snapshot(Position(s, user, coll) + collAmount, DebtOf(s, user, debt).value + amount,
                              s.desks[coll].market.cfg.ltv, s.feeds, s.now);
            Covered(Pair(user, coll, debt), b)
  {
    hide ValueOf, VaultDeposit, PoolBorrow, BorrowAllowed;
    BorrowCheckFacts(w.system, user, coll, collAmount, debt, amount);
    assert DeskOk(w.system.desks[coll], Get(w.donated, coll));
    assert Get(w.system.desks[coll].book.position, user) >= 0;
  }

  /**
   * A controller borrow from a market that was not idle, or whose clock was
   * current, stays safe through its ledger: after any calls by anybody that leave
   * prices alone and neither take from that collateral nor add to that debt,
   * nobody can liquidate the pair.
   */
  lemma {:induction false} BorrowSafeThroughTheLedger(w: World, user: Address, coll: Asset, collAmount: int,
                                                      debt: Asset, amount: int, cs: seq<Call>, liquidator: Address,
                                                      repay: int)
    requires SystemOk(w) && repay > 0
    requires Borrow(w.system, user, coll, collAmount, debt, amount).Ok? && ClockIsKept(w.system, debt)
    requires forall i :: 0 <= i < |cs| ==> Bystanding(cs[i], Pair(user, coll, debt))
    ensures var w1 := World(Borrow(w.system, user, coll, collAmount, debt, amount).value, w.donated);
            Liquidate(Run(w1, cs).system, liquidator, user, debt, coll, repay)
              in {Revert(PositionHealthy), Revert(Overflow)}
  {
    hide Borrow, Liquidate, Calm, Covered, SystemOk, Run, Bystanding, ClockIsKept;
    var s, p := w.system, Pair(user, coll, debt);
    FreshBorrowIsCovered(w, user, coll, collAmount, debt, amount);
    FreshBorrowIsCalm(w, user, coll, collAmount, debt, amount);
    var b := Snapshot(Position(s, user, coll) + collAmount, DebtOf(s, user, debt).value + amount,
                      s.desks[coll].market.cfg.ltv, s.feeds, s.now);
    var w1 := World(Borrow(s, user, coll, collAmount, debt, amount).value, w.donated);
    RunStaysCalm(w1, cs, p, b);
    CalmIsRefused(Run(w1, cs), p, b, liquidator, repay);
  }
}
