/** Health across contracts: the controller's tests against the liquidation engine's. */
module ProtocolSafety {
  import opened Host
  import opened Totals
  import opened Token
  import opened Oracle
  import opened Protocol
  import opened ProtocolRuns
  import Pool = LendingPool
  import Market = PoolRuns
  import Vault = CollateralVault
  import Effects = ProtocolEffects
  import Calls = PoolEffects

  // ---------------------------------------------------------------- valuation

  /** A smaller amount of the same asset is worth no more, and can be valued whenever the larger can. */
  lemma ValueMonotone(s: System, asset: Asset, x: int, y: int)
    requires 0 <= x <= y && Value(s, asset, y).Ok?
    ensures Value(s, asset, x).Ok? && 0 <= Value(s, asset, x).value <= Value(s, asset, y).value
  {
    var price := GetPrice(s.feeds, asset, s.now).value;
    MulMono(x, y, price);
    MulMono(0, x, price);
  }

  lemma PriceDecidesValue(s: System, asset: Asset)
    ensures Value(s, asset, 0).Ok? <==> GetPrice(s.feeds, asset, s.now).Ok?
    ensures Value(s, asset, 0).Ok? ==> Value(s, asset, 0).value == 0
  {
  }

  /**
   * The two health tests are exact complements under floor division: the
   * controller refuses exactly the values at which the engine would liquidate.
   */
  lemma HealthTestsAgree(debtValue: int, collValue: int, ltv: nat)
    requires Fits(debtValue * BPS) && Fits(collValue * ltv) && collValue >= 0
    ensures WithinLtv(debtValue, collValue, ltv).Ok? <==> debtValue <= Quot(collValue * ltv, BPS)
  {
    MulMono(0, collValue, ltv);
  }

  /** A position whose values pass the controller's test, at prices that exist, is refused by the engine as healthy. */
  lemma HealthyIsRefused(s: System, liquidator: Address, borrower: Address, debt: Asset, coll: Asset, repay: int)
    requires repay > 0
    requires DebtOf(s, borrower, debt).Ok?
    requires Value(s, coll, Position(s, borrower, coll)).Ok? && Value(s, debt, DebtOf(s, borrower, debt).value).Ok?
    requires EffectiveLtv(s, coll).Ok?
    requires var c, d := Value(s, coll, Position(s, borrower, coll)).value,
             Value(s, debt, DebtOf(s, borrower, debt).value).value;
             var ltv := EffectiveLtv(s, coll).value;
             c >= 0 && Fits(c * ltv) && d * BPS <= c * ltv
    ensures Liquidate(s, liquidator, borrower, debt, coll, repay) == Revert(PositionHealthy)
  {
    hide Value;
    var c := Value(s, coll, Position(s, borrower, coll)).value;
    MulMono(0, c, EffectiveLtv(s, coll).value);
    assert Unhealthy(s, borrower, debt, coll) == Revert(PositionHealthy);
  }

  // ---------------------------------------------------------------- borrowing

  lemma DepositRaisesPosition(s: System, user: Address, coll: Asset, amount: int)
    requires VaultDeposit(s, user, coll, amount).Ok?
    ensures var s1 := VaultDeposit(s, user, coll, amount).value;
            && s1 == s.(desks := s1.desks) && s1.desks.Keys == s.desks.Keys
            && Position(s1, user, coll) == Position(s, user, coll) + amount
            && (forall a ::
                  a in s.desks ==> s1.desks[a].market == s.desks[a].market.(tokens := s1.desks[a].market.tokens))
  {
  }

  /** After a borrow the debt is the old principal plus the amount, and nothing else of other contracts moved. */
  lemma BorrowWritesDebt(s: System, user: Address, debt: Asset, amount: int)
    requires PoolBorrow(s, user, debt, amount).Ok?
    requires s.desks[debt].market.index >= Pool.SCALE && Market.DebtsOk(s.desks[debt].market)
    ensures var s1, m := PoolBorrow(s, user, debt, amount).value, s.desks[debt].market;
            && s1 == s.(desks := s1.desks) && s1.desks.Keys == s.desks.Keys
            && (forall a ::
                  a in s.desks ==>
                    s1.desks[a].book == s.desks[a].book && s1.desks[a].market.cfg == s.desks[a].market.cfg)
            && amount > 0 && Pool.LoanOf(m, user).principal >= 0
            && (DebtOf(s1, user, debt).Ok? ==> DebtOf(s1, user, debt).value == Pool.LoanOf(m, user).principal + amount)
            && (DebtOf(s1, user, debt).Revert? ==> DebtOf(s1, user, debt) == Revert(Overflow))
  {
    var m := s.desks[debt].market;
    Market.BorrowWrites(m, user, amount, false, s.now);
    Market.AccrualOnlyRaisesIndex(m, s.now);
    assert Market.LoanOk(m, user);
    Market.FreshLoanOwesPrincipal(Pool.Borrowed(m, user, amount, false, s.now).value.0, user);
  }

  lemma SameValue(s: System, s': System, asset: Asset, amount: int)
    requires s'.feeds == s.feeds && s'.now == s.now
    ensures Value(s', asset, amount) == Value(s, asset, amount)
  {
  }

  /** What a successful controller borrow leaves behind, whether or not the two assets are the same. */
  lemma AfterBorrow(w: World, user: Address, coll: Asset, collAmount: int, debt: Asset, amount: int)
    requires SystemOk(w) && Borrow(w.system, user, coll, collAmount, debt, amount).Ok?
    requires amount > 0 && DebtOf(w.system, user, debt).Ok?
    ensures var s, s' := w.system, Borrow(w.system, user, coll, collAmount, debt, amount).value;
            && s'.feeds == s.feeds && s'.now == s.now
            && Position(s', user, coll) == Position(s, user, coll) + collAmount
            && Position(s, user, coll) >= 0
            && EffectiveLtv(s', coll) == EffectiveLtv(s, coll)
            && (if DebtOf(s', user, debt).Ok?
                then 0 <= DebtOf(s', user, debt).value <= DebtOf(s, user, debt).value + amount
                else DebtOf(s', user, debt).why == Overflow)
  {
    hide BorrowAllowed, Value;
    var s := w.system;
    var s1 := VaultDeposit(s, user, coll, collAmount).value;
    DepositRaisesPosition(s, user, coll, collAmount);
    var m := s.desks[debt].market;
    assert DeskOk(s.desks[debt], Get(w.donated, debt)) && DeskOk(s.desks[coll], Get(w.donated, coll));
    Market.SameLoans(m, s1.desks[debt].market);
    BorrowWritesDebt(s1, user, debt, amount);
    assert Market.LoanOk(m, user);
    Market.DebtAtLeastPrincipal(m, user);
    assert Get(s.desks[coll].book.position, user) >= 0;
  }

  /**
   * Right after a controller borrow, at unchanged prices, nobody can liquidate
   * that position: the engine calls it healthy. (If the new debt no longer fits
   * 128 bits together with the index, it cannot even be read.)
   */
  lemma BorrowIsNotLiquidatable(w: World, user: Address, coll: Asset, collAmount: int, debt: Asset, amount: int,
                                liquidator: Address, repay: int)
    requires SystemOk(w) && repay > 0
    requires Borrow(w.system, user, coll, collAmount, debt, amount).Ok?
    ensures var s' := Borrow(w.system, user, coll, collAmount, debt, amount).value;
            Liquidate(s', liquidator, user, debt, coll, repay)
            == Revert(if DebtOf(s', user, debt).Ok? then PositionHealthy else Overflow)
  {
    hide Value, Liquidate, BorrowAllowed, DebtOf, Position, EffectiveLtv, SystemOk, VaultDeposit, PoolBorrow;
    var s, s' := w.system, Borrow(w.system, user, coll, collAmount, debt, amount).value;
    BorrowCheckFacts(s, user, coll, collAmount, debt, amount);
    AfterBorrow(w, user, coll, collAmount, debt, amount);
    if DebtOf(s', user, debt).Ok? {
      var c, d := Position(s', user, coll), DebtOf(s', user, debt).value;
      ValueMonotone(s, debt, d, DebtOf(s, user, debt).value + amount);
      ValueMonotone(s, coll, c, c);
      SameValue(s, s', coll, c);
      SameValue(s, s', debt, d);
      HealthyIsRefused(s', liquidator, user, debt, coll, repay);
    } else {
      UnreadableDebtIsRefused(s', liquidator, user, debt, coll, repay);
    }
  }

  lemma UnreadableDebtIsRefused(s: System, liquidator: Address, borrower: Address, debt: Asset, coll: Asset, repay: int)
    requires repay > 0 && DebtOf(s, borrower, debt).Revert?
    ensures Liquidate(s, liquidator, borrower, debt, coll, repay) == Revert(DebtOf(s, borrower, debt).why)
  {
    assert Unhealthy(s, borrower, debt, coll) == Revert(DebtOf(s, borrower, debt).why);
  }

  // ---------------------------------------------------------------- withdrawing collateral

  /** Every positive debt on the list is valued, and no single one exceeds the total. */
  lemma {:induction false} TotalBoundsEach(w: World, user: Address, assets: seq<Asset>, asset: Asset)
    requires SystemOk(w) && TotalDebtValue(w.system, user, assets).Ok? && asset in assets
    ensures TotalDebtValue(w.system, user, assets).value >= 0
    ensures DebtOf(w.system, user, asset).Ok? && DebtOf(w.system, user, asset).value >= 0
    ensures DebtOf(w.system, user, asset).value > 0 ==>
              var v := Value(w.system, asset, DebtOf(w.system, user, asset).value);
              v.Ok? && 0 <= v.value <= TotalDebtValue(w.system, user, assets).value
    decreases assets
  {
    var s, front, last := w.system, assets[..|assets| - 1], assets[|assets| - 1];
    assert assets == front + [last];
    Effects.OwedNotNegative(w, user, last);
    if DebtOf(s, user, last).value > 0 {
      ValueFloors(s, last, DebtOf(s, user, last).value);
    }
    TotalNotNegative(w, user, front);
    if asset != last {
      TotalBoundsEach(w, user, front, asset);
    }
  }

  lemma {:induction false} TotalNotNegative(w: World, user: Address, assets: seq<Asset>)
    requires SystemOk(w) && TotalDebtValue(w.system, user, assets).Ok?
    ensures TotalDebtValue(w.system, user, assets).value >= 0
    decreases assets
  {
    if assets != [] {
      var s, last := w.system, assets[|assets| - 1];
      Effects.OwedNotNegative(w, user, last);
      if DebtOf(s, user, last).value > 0 {
        ValueFloors(s, last, DebtOf(s, user, last).value);
      }
      TotalNotNegative(w, user, assets[..|assets| - 1]);
    }
  }

  lemma WithdrawCheckFacts(s: System, user: Address, coll: Asset, amount: int)
    requires WithdrawAllowed(s, user, coll, amount).Ok?
    ensures 0 < amount <= Position(s, user, coll) && EffectiveLtv(s, coll).Ok?
    ensures Value(s, coll, Position(s, user, coll) - amount).Ok? && TotalDebtValue(s, user, s.assets).Ok?
    ensures var c := Value(s, coll, Position(s, user, coll) - amount).value;
            && Fits(c * EffectiveLtv(s, coll).value)
            && TotalDebtValue(s, user, s.assets).value * BPS <= c * EffectiveLtv(s, coll).value
  {
    hide Value;
  }

  lemma WithdrawLowersPosition(s: System, user: Address, coll: Asset, amount: int)
    requires VaultWithdraw(s, user, coll, amount).Ok?
    ensures var s1 := VaultWithdraw(s, user, coll, amount).value;
            && s1 == s.(desks := s1.desks) && s1.desks.Keys == s.desks.Keys
            && Position(s1, user, coll) == Position(s, user, coll) - amount
            && (forall a ::
                  a in s.desks ==> s1.desks[a].market == s.desks[a].market.(tokens := s1.desks[a].market.tokens))
  {
  }

  /**
   * After a controller withdrawal the remaining collateral carries every single
   * debt of the user: for each asset the engine refuses to liquidate that pair,
   * as healthy whenever the debt asset has a price.
   */
  lemma WithdrawalKeepsEveryDebtSafe(w: World, user: Address, coll: Asset, amount: int,
                                     debt: Asset, liquidator: Address, repay: int)
    requires SystemOk(w) && repay > 0
    requires WithdrawCollateral(w.system, user, coll, amount).Ok?
    ensures var s', r := WithdrawCollateral(w.system, user, coll, amount).value,
                         Liquidate(WithdrawCollateral(w.system, user, coll, amount).value, liquidator, user, debt,
                                   coll, repay);
            && r.Revert?
            && (GetPrice(s'.feeds, debt, s'.now).Ok? ==> r == Revert(PositionHealthy))
  {
    hide Value, Liquidate, WithdrawAllowed, TotalDebtValue, GetPrice;
    var s, s' := w.system, WithdrawCollateral(w.system, user, coll, amount).value;
    WithdrawCheckFacts(s, user, coll, amount);
    WithdrawLowersPosition(s, user, coll, amount);
    TotalNotNegative(w, user, s.assets);
    if debt in s.desks {
      TotalBoundsEach(w, user, s.assets, debt);
    }
    SameDebt(s, s', user, debt);
    ValueFloors(s, coll, Position(s', user, coll));
    var d := DebtOf(s, user, debt).value;
    SameValue(s, s', debt, d);
    SameValue(s, s', coll, Position(s', user, coll));
    if d == 0 {
      PriceDecidesValue(s, debt);
    }
    if Value(s', debt, d).Ok? {
      HealthyIsRefused(s', liquidator, user, debt, coll, repay);
    } else {
      UnpricedDebtIsRefused(s', liquidator, user, debt, coll, repay);
    }
  }

  lemma SameDebt(s: System, s': System, user: Address, asset: Asset)
    requires s'.desks.Keys == s.desks.Keys
    requires forall a :: a in s.desks ==> s'.desks[a].market == s.desks[a].market.(tokens := s'.desks[a].market.tokens)
    ensures DebtOf(s', user, asset) == DebtOf(s, user, asset)
    ensures EffectiveLtv(s', asset) == EffectiveLtv(s, asset)
  {
  }

  lemma UnpricedDebtIsRefused(s: System, liquidator: Address, borrower: Address, debt: Asset, coll: Asset, repay: int)
    requires repay > 0 && DebtOf(s, borrower, debt).Ok? && Value(s, debt, DebtOf(s, borrower, debt).value).Revert?
    ensures Liquidate(s, liquidator, borrower, debt, coll, repay).Revert?
  {
    assert Unhealthy(s, borrower, debt, coll).Revert?;
  }

  // ---------------------------------------------------------------- liquidating

  /** The facts a passing assessment establishes. */
  lemma AssessmentFacts(s: System, borrower: Address, debt: Asset, coll: Asset, repay: int)
    requires Assessed(s, borrower, debt, coll, repay).Ok?
    ensures repay > 0 && DebtOf(s, borrower, debt).Ok?
    ensures repay <= Quot(DebtOf(s, borrower, debt).value * s.liquidation.closeFactor, BPS)
    ensures Value(s, debt, repay).Ok? && GetPrice(s.feeds, coll, s.now).Ok?
    ensures var split := Assessed(s, borrower, debt, coll, repay).value;
            && SeizureOf(s.liquidation, Value(s, debt, repay).value, GetPrice(s.feeds, coll, s.now).value) == Ok(split)
            && split.ToLiquidator() > 0
            && split.total <= Position(s, borrower, coll)
  {
    hide Value, GetPrice, SeizureOf;
  }

  /**
   * What a liquidation takes, for a fee and a close factor of at most 100%: the
   * two seizures add up to the total, which the borrower has; the total is worth
   * at most the repaid debt with the bonus; the liquidator gets at least the
   * repaid value; and the repayment is within the close factor, hence within
   * what is owed.
   */
  lemma SeizureIsBounded(w: World, borrower: Address, debt: Asset, coll: Asset, repay: int)
    requires SystemOk(w) && w.system.liquidation.fee <= BPS && w.system.liquidation.closeFactor <= BPS
    requires Assessed(w.system, borrower, debt, coll, repay).Ok?
    ensures var s := w.system;
            var split := Assessed(s, borrower, debt, coll, repay).value;
            && 0 <= split.fee && 0 < split.ToLiquidator()
            && split.ToLiquidator() + split.fee == split.total <= Position(s, borrower, coll)
            && GetPrice(s.feeds, coll, s.now).Ok? && GetPrice(s.feeds, debt, s.now).Ok? && Value(s, debt, repay).Ok?
            && DebtOf(s, borrower, debt).Ok?
            && split.total * GetPrice(s.feeds, coll, s.now).value * BPS
               <= repay * GetPrice(s.feeds, debt, s.now).value * (BPS + s.liquidation.bonus)
            && split.ToLiquidator() >= Quot(Value(s, debt, repay).value * UNIT, GetPrice(s.feeds, coll, s.now).value)
            && 0 < repay <= DebtOf(s, borrower, debt).value
  {
    hide Value, Assessed, SeizureOf, GetPrice;
    var s := w.system;
    AssessmentFacts(s, borrower, debt, coll, repay);
    ValueFloors(s, debt, repay);
    var p, price := Value(s, debt, repay).value, GetPrice(s.feeds, coll, s.now).value;
    SeizureFloors(s.liquidation, p, price);
    var split := Assessed(s, borrower, debt, coll, repay).value;
    TakenWithinRepaid(split.total, price, p, repay, GetPrice(s.feeds, debt, s.now).value, BPS + s.liquidation.bonus);
    var owed := DebtOf(s, borrower, debt).value;
    Effects.OwedNotNegative(w, borrower, debt);
    MulMono(s.liquidation.closeFactor, BPS, owed);
    MulMono(0, s.liquidation.closeFactor, owed);
  }

  /** The debt of `borrower` with interest up to the current ledger, which is what the repayment works on. */
  function OwedNow(s: System, borrower: Address, debt: Asset): Result<int> {
    if debt !in s.desks then Ok(0)
    else
      var a :- Pool.Accrued(s.desks[debt].market, s.now);
      Pool.DebtOf(a, borrower)
  }

  /** The repayment inside a liquidation is taken in full. */
  lemma RepaymentIsTakenInFull(w: World, liquidator: Address, borrower: Address, debt: Asset, repay: int)
    requires SystemOk(w) && PoolRepay(w.system, liquidator, borrower, debt, repay).Ok?
    requires DebtOf(w.system, borrower, debt).Ok? && 0 < repay <= DebtOf(w.system, borrower, debt).value
    ensures var s, r := w.system, PoolRepay(w.system, liquidator, borrower, debt, repay).value;
            && OwedNow(s, borrower, debt).Ok? && repay <= OwedNow(s, borrower, debt).value
            && r.1 == repay
            && (DebtOf(r.0, borrower, debt).Ok?
                ==> DebtOf(r.0, borrower, debt).value == OwedNow(s, borrower, debt).value - repay)
            && r.0 == s.(desks := r.0.desks) && r.0.desks.Keys == s.desks.Keys
            && (forall a :: a in s.desks ==> r.0.desks[a].book == s.desks[a].book)
  {
    var s := w.system;
    var m := s.desks[debt].market;
    assert DeskOk(s.desks[debt], Get(w.donated, debt));
    Market.RepayWrites(m, liquidator, borrower, repay, s.now);
    Market.AccrualOnlyRaisesIndex(m, s.now);
    assert Market.LoanOk(m, borrower);
    var a := Pool.Accrued(m, s.now).value;
    Market.DebtGrowsWithIndex(m, a, borrower);
    Market.FreshLoanOwesPrincipal(Pool.Repaid(m, liquidator, borrower, repay, s.now).value.0, borrower);
  }

  /** How `Liquidate` runs once it succeeds. */
  lemma LiquidationParts(s: System, liquidator: Address, borrower: Address, debt: Asset, coll: Asset, repay: int)
    requires Liquidate(s, liquidator, borrower, debt, coll, repay).Ok?
    ensures Assessed(s, borrower, debt, coll, repay).Ok? && PoolRepay(s, liquidator, borrower, debt, repay).Ok?
    ensures var split, s1 := Assessed(s, borrower, debt, coll, repay).value,
            PoolRepay(s, liquidator, borrower, debt, repay).value.0;
            && VaultSeize(s1, borrower, liquidator, coll, split.ToLiquidator()).Ok?
            && var s2 := VaultSeize(s1, borrower, liquidator, coll, split.ToLiquidator()).value;
               && (split.fee > 0 ==> VaultSeize(s2, borrower, s.liquidation.treasury, coll, split.fee).Ok?)
               && Liquidate(s, liquidator, borrower, debt, coll, repay).value
                  == (if split.fee > 0 then
                        VaultSeize(s2, borrower, s.liquidation.treasury, coll, split.fee).value
                      else s2,
                      split.ToLiquidator())
  {
    hide Assessed, VaultSeize, PoolRepay;
  }

  /** One seizure seen from the system. */
  lemma SeizeMoves(w: World, owner: Address, to: Address, asset: Asset, amount: int)
    requires SystemOk(w) && VaultSeize(w.system, owner, to, asset, amount).Ok?
    ensures var s, s' := w.system, VaultSeize(w.system, owner, to, asset, amount).value;
            && s' == s.(desks := s'.desks) && s'.desks.Keys == s.desks.Keys && asset in s.desks
            && s'.desks[asset].book.total == s.desks[asset].book.total
            && (forall u ::
                  Position(s', u, asset)
                    == Position(s, u, asset) - (if u == owner then amount else 0) + (if u == to then amount else 0))
            && (forall a :: a in s.desks && a != asset ==> s'.desks[a] == s.desks[a])
            && (forall a ::
                  a in s.desks ==> s'.desks[a].market == s.desks[a].market.(tokens := s'.desks[a].market.tokens))
  {
    var d := w.system.desks[asset];
    assert DeskOk(d, Get(w.donated, asset));
    Vault.SeizureMovesPositions(d.book, d.market.tokens, owner, to, amount);
    var v' := Vault.Seized(d.book, d.market.tokens, owner, to, amount).value.0;
    var s' := VaultSeize(w.system, owner, to, asset, amount).value;
    forall u ensures Position(s', u, asset)
      == Position(w.system, u, asset) - (if u == owner then amount else 0) + (if u == to then amount else 0)
    {
      assert Position(s', u, asset) == Get(v'.position, u);
    }
  }

  /**
   * The wallets after a liquidation of `repay` that took `split`: the liquidator
   * paid the pool, and the vault paid the liquidator and the treasury, whoever and
   * whichever asset coincides.
   */
  ghost predicate LiquidationPaid(s: System, s': System, liquidator: Address, debt: Asset, coll: Asset, repay: int,
                                  split: Split)
  {
    forall a, h :: Effects.Wallet(s', a, h) == Effects.Wallet(s, a, h)
      + (if a == debt then Effects.Gain(h, User(liquidator), Holder.Pool, repay) else 0)
      + (if a == coll then Effects.Gain(h, Holder.Vault, User(liquidator), split.ToLiquidator()) else 0)
      + (if a == coll then Effects.Gain(h, Holder.Vault, User(s.liquidation.treasury), split.fee) else 0)
  }

  lemma LiquidationPays(w: World, liquidator: Address, borrower: Address, debt: Asset, coll: Asset, repay: int)
    requires SystemOk(w) && Liquidate(w.system, liquidator, borrower, debt, coll, repay).Ok?
    requires Assessed(w.system, borrower, debt, coll, repay).Ok?
    requires Assessed(w.system, borrower, debt, coll, repay).value.fee >= 0
    requires PoolRepay(w.system, liquidator, borrower, debt, repay).Ok?
    requires PoolRepay(w.system, liquidator, borrower, debt, repay).value.1 == repay
    ensures LiquidationPaid(w.system, Liquidate(w.system, liquidator, borrower, debt, coll, repay).value.0, liquidator,
                            debt, coll, repay, Assessed(w.system, borrower, debt, coll, repay).value)
  {
    hide Assessed, Liquidate, VaultSeize, PoolRepay, SystemOk, Effects.Wallet;
    var s, treasury := w.system, w.system.liquidation.treasury;
    var split := Assessed(s, borrower, debt, coll, repay).value;
    LiquidationParts(s, liquidator, borrower, debt, coll, repay);
    Effects.RepayPays(w, liquidator, borrower, debt, repay);
    var s1 := PoolRepay(s, liquidator, borrower, debt, repay).value.0;
    Effects.SeizePays(s1, borrower, liquidator, coll, split.ToLiquidator());
    if split.fee > 0 {
      var s2 := VaultSeize(s1, borrower, liquidator, coll, split.ToLiquidator()).value;
      Effects.SeizePays(s2, borrower, treasury, coll, split.fee);
    }
  }

  /**
   * What a successful liquidation does, whoever coincides with whom: the debt with
   * interest falls by exactly the repayment, which the liquidator pays; the
   * collateral taken goes to the liquidator and the treasury, as positions and as
   * tokens, and to nobody else; the recorded total of the vault and every other
   * asset's positions do not move.
   */
  lemma LiquidationEffects(w: World, liquidator: Address, borrower: Address, debt: Asset, coll: Asset, repay: int)
    requires SystemOk(w) && w.system.liquidation.fee <= BPS && w.system.liquidation.closeFactor <= BPS
    requires Liquidate(w.system, liquidator, borrower, debt, coll, repay).Ok?
    ensures Assessed(w.system, borrower, debt, coll, repay).Ok? && OwedNow(w.system, borrower, debt).Ok?
    ensures var s, s' := w.system, Liquidate(w.system, liquidator, borrower, debt, coll, repay).value.0;
            var split, treasury := Assessed(s, borrower, debt, coll, repay).value, s.liquidation.treasury;
            && (DebtOf(s', borrower, debt).Ok?
                ==> DebtOf(s', borrower, debt).value == OwedNow(s, borrower, debt).value - repay)
            && (forall u :: Position(s', u, coll) == Position(s, u, coll)
                              - (if u == borrower then split.total else 0)
                              + (if u == liquidator then split.ToLiquidator() else 0)
                              + (if u == treasury then split.fee else 0))
            && coll in s.desks && s'.desks.Keys == s.desks.Keys
            && s'.desks[coll].book.total == s.desks[coll].book.total == Sum(s'.desks[coll].book.position)
            && (forall a :: a in s.desks && a != coll ==> s'.desks[a].book == s.desks[a].book)
            && LiquidationPaid(s, s', liquidator, debt, coll, repay, split)
  {
    hide Assessed, Liquidate, Value, GetPrice, LiquidationPaid;
    var s, treasury := w.system, w.system.liquidation.treasury;
    LiquidationParts(s, liquidator, borrower, debt, coll, repay);
    SeizureIsBounded(w, borrower, debt, coll, repay);
    RepaymentIsTakenInFull(w, liquidator, borrower, debt, repay);
    LiquidationPays(w, liquidator, borrower, debt, coll, repay);
    var split := Assessed(s, borrower, debt, coll, repay).value;
    var w1 := World(PoolRepay(s, liquidator, borrower, debt, repay).value.0, w.donated);
    PoolRepayKeeps(w, liquidator, borrower, debt, repay);
    var w2 := World(VaultSeize(w1.system, borrower, liquidator, coll, split.ToLiquidator()).value, w.donated);
    VaultSeizeKeeps(w1, borrower, liquidator, coll, split.ToLiquidator());
    SeizeMoves(w1, borrower, liquidator, coll, split.ToLiquidator());
    SameDebt(w1.system, w2.system, borrower, debt);
    SamePositions(s, w1.system, coll);
    if split.fee > 0 {
      var w3 := World(VaultSeize(w2.system, borrower, treasury, coll, split.fee).value, w.donated);
      VaultSeizeKeeps(w2, borrower, treasury, coll, split.fee);
      SeizeMoves(w2, borrower, treasury, coll, split.fee);
      SameDebt(w2.system, w3.system, borrower, debt);
      assert DeskOk(w3.system.desks[coll], Get(w.donated, coll));
    } else {
      assert DeskOk(w2.system.desks[coll], Get(w.donated, coll));
    }
  }

  /** The second seizure of a liquidation is left enough by the first. */
  lemma FeeIsLeft(w: World, borrower: Address, liquidator: Address, coll: Asset, first: int, fee: int)
    requires SystemOk(w) && coll in w.system.desks && w.system.desks[coll].book.total <= I128_MAX
    requires 0 < first && 0 < fee && first + fee <= Position(w.system, borrower, coll)
    requires VaultSeize(w.system, borrower, liquidator, coll, first).Ok?
    ensures var s2 := VaultSeize(w.system, borrower, liquidator, coll, first).value;
            forall to :: VaultSeize(s2, borrower, to, coll, fee).Ok?
                         <==> first + fee <= Effects.Wallet(w.system, coll, Holder.Vault)
  {
    var w2 := World(VaultSeize(w.system, borrower, liquidator, coll, first).value, w.donated);
    VaultSeizeKeeps(w, borrower, liquidator, coll, first);
    SeizeMoves(w, borrower, liquidator, coll, first);
    Effects.SeizePays(w.system, borrower, liquidator, coll, first);
    hide VaultSeize, SystemOk, Effects.Wallet, Position;
    forall to
      ensures VaultSeize(w2.system, borrower, to, coll, fee).Ok?
              <==> first + fee <= Effects.Wallet(w.system, coll, Holder.Vault)
    {
      Effects.SeizeSucceedsIff(w2, borrower, to, coll, fee);
    }
  }

  lemma SeizuresSucceedIff(w: World, borrower: Address, liquidator: Address, treasury: Address, coll: Asset,
                           split: Split)
    requires SystemOk(w) && coll in w.system.desks && w.system.desks[coll].book.total <= I128_MAX
    requires 0 < split.ToLiquidator() && 0 <= split.fee && split.total <= Position(w.system, borrower, coll)
    ensures var first := VaultSeize(w.system, borrower, liquidator, coll, split.ToLiquidator());
            (first.Ok? && (split.fee > 0 ==> VaultSeize(first.value, borrower, treasury, coll, split.fee).Ok?))
            <==> split.total <= Effects.Wallet(w.system, coll, Holder.Vault)
  {
    hide VaultSeize, SystemOk, Effects.Wallet, Position;
    Effects.SeizeSucceedsIff(w, borrower, liquidator, coll, split.ToLiquidator());
    if VaultSeize(w.system, borrower, liquidator, coll, split.ToLiquidator()).Ok? && split.fee > 0 {
      FeeIsLeft(w, borrower, liquidator, coll, split.ToLiquidator(), split.fee);
    }
  }

  /**
   * Once a position was assessed, a liquidation goes through exactly when the
   * liquidator can pay the repayment and the vault holds what is taken.
   */
  lemma LiquidationGoesThroughIff(w: World, liquidator: Address, borrower: Address, debt: Asset, coll: Asset,
                                  repay: int)
    requires SystemOk(w) && w.system.liquidation.fee <= BPS && w.system.liquidation.closeFactor <= BPS
    requires Assessed(w.system, borrower, debt, coll, repay).Ok? && OwedNow(w.system, borrower, debt).Ok?
    requires debt in w.system.desks && coll in w.system.desks && w.system.desks[coll].book.total <= I128_MAX
    ensures var split := Assessed(w.system, borrower, debt, coll, repay).value;
            Liquidate(w.system, liquidator, borrower, debt, coll, repay).Ok?
            <==> && repay <= Effects.Wallet(w.system, debt, User(liquidator))
                 && Fits(w.system.desks[debt].market.borrows - repay)
                 && split.total <= Effects.Wallet(w.system, coll, Holder.Vault)
  {
    var s, treasury := w.system, w.system.liquidation.treasury;
    var split := Assessed(s, borrower, debt, coll, repay).value;
    SeizureIsBounded(w, borrower, debt, coll, repay);
    RepaySucceedsIff(w, liquidator, borrower, debt, repay);
    LiquidationInSteps(s, liquidator, borrower, debt, coll, repay);
    hide Liquidate, Assessed, PoolRepay, VaultSeize, SystemOk, Effects.Wallet, Position, OwedNow, Value, GetPrice;
    if PoolRepay(s, liquidator, borrower, debt, repay).Ok? {
      PoolRepayKeeps(w, liquidator, borrower, debt, repay);
      RepaymentIsTakenInFull(w, liquidator, borrower, debt, repay);
      Effects.RepayPays(w, liquidator, borrower, debt, repay);
      var w1 := World(PoolRepay(s, liquidator, borrower, debt, repay).value.0, w.donated);
      SamePositions(s, w1.system, coll);
      SeizuresSucceedIff(w1, borrower, liquidator, treasury, coll, split);
    }
  }

  lemma LiquidationInSteps(s: System, liquidator: Address, borrower: Address, debt: Asset, coll: Asset, repay: int)
    requires Assessed(s, borrower, debt, coll, repay).Ok?
    ensures var split, paid := Assessed(s, borrower, debt, coll, repay).value,
                               PoolRepay(s, liquidator, borrower, debt, repay);
            Liquidate(s, liquidator, borrower, debt, coll, repay).Ok?
            <==> && paid.Ok?
                 && var first := VaultSeize(paid.value.0, borrower, liquidator, coll, split.ToLiquidator());
                    && first.Ok?
                    && (split.fee > 0 ==>
                          VaultSeize(first.value, borrower, s.liquidation.treasury, coll, split.fee).Ok?)
  {
    hide Assessed, PoolRepay, VaultSeize;
  }

  lemma RepaySucceedsIff(w: World, payer: Address, borrower: Address, debt: Asset, repay: int)
    requires SystemOk(w) && debt in w.system.desks && OwedNow(w.system, borrower, debt).Ok?
    requires DebtOf(w.system, borrower, debt).Ok? && 0 < repay <= DebtOf(w.system, borrower, debt).value
    ensures PoolRepay(w.system, payer, borrower, debt, repay).Ok?
            <==> repay <= Effects.Wallet(w.system, debt, User(payer))
                 && Fits(w.system.desks[debt].market.borrows - repay)
  {
    var m, now := w.system.desks[debt].market, w.system.now;
    assert DeskOk(w.system.desks[debt], Get(w.donated, debt));
    hide SystemOk;
    Market.AccrualOnlyRaisesIndex(m, now);
    assert Market.LoanOk(m, borrower);
    Market.DebtGrowsWithIndex(m, Pool.Accrued(m, now).value, borrower);
    Calls.RepayRefusedIff(m, payer, borrower, repay, now);
    hide Pool.Accrued, Pool.DebtOf, Pool.Repaid;
  }

  lemma SamePositions(s: System, s': System, asset: Asset)
    requires s'.desks.Keys == s.desks.Keys && forall a :: a in s.desks ==> s'.desks[a].book == s.desks[a].book
    ensures forall u :: Position(s', u, asset) == Position(s, u, asset)
  {
  }

  /**
   * A liquidation never lowers collateral per debt of a position that is still
   * covered with the bonus: with collateral C, accrued debt D, seized total T
   * and repayment R, (C - T) * D >= C * (D - R).
   */
  lemma LiquidationKeepsCoverage(w: World, liquidator: Address, borrower: Address, debt: Asset, coll: Asset, repay: int)
    requires SystemOk(w) && w.system.liquidation.fee <= BPS && w.system.liquidation.closeFactor <= BPS
    requires Liquidate(w.system, liquidator, borrower, debt, coll, repay).Ok?
    ensures Assessed(w.system, borrower, debt, coll, repay).Ok? && OwedNow(w.system, borrower, debt).Ok?
    ensures GetPrice(w.system.feeds, coll, w.system.now).Ok? && GetPrice(w.system.feeds, debt, w.system.now).Ok?
    ensures var s := w.system;
            var c, d := Position(s, borrower, coll), OwedNow(s, borrower, debt).value;
            var collPrice, debtPrice := GetPrice(s.feeds, coll, s.now).value, GetPrice(s.feeds, debt, s.now).value;
            d * debtPrice * (BPS + s.liquidation.bonus) <= c * collPrice * BPS
            ==> (c - Assessed(s, borrower, debt, coll, repay).value.total) * d >= c * (d - repay)
  {
    hide *;
    var s := w.system;
    LiquidationParts(s, liquidator, borrower, debt, coll, repay);
    SeizureIsBounded(w, borrower, debt, coll, repay);
    RepaymentIsTakenInFull(w, liquidator, borrower, debt, repay);
    var c, d := Position(s, borrower, coll), OwedNow(s, borrower, debt).value;
    var collPrice, debtPrice := GetPrice(s.feeds, coll, s.now).value, GetPrice(s.feeds, debt, s.now).value;
    if d * debtPrice * (BPS + s.liquidation.bonus) <= c * collPrice * BPS {
      CoverageNotLowered(c, d, Assessed(s, borrower, debt, coll, repay).value.total, repay, collPrice, debtPrice,
                         BPS + s.liquidation.bonus);
    }
  }

  /** From below, the three nested floors lose less than a fixed amount of value. */
  lemma SeizureFromBelow(s: System, debt: Asset, repay: int, price: int)
    requires repay >= 0 && price > 0 && Value(s, debt, repay).Ok?
    requires SeizureOf(s.liquidation, Value(s, debt, repay).value, price).Ok?
    ensures GetPrice(s.feeds, debt, s.now).Ok?
    ensures var total, mult := SeizureOf(s.liquidation, Value(s, debt, repay).value, price).value.total,
            BPS + s.liquidation.bonus;
            total * (price * BPS) > repay * GetPrice(s.feeds, debt, s.now).value * mult - Slack(price, mult)
  {
    hide SeizureOf, GetPrice;
    var cfg, p, debtPrice := s.liquidation, Value(s, debt, repay).value, GetPrice(s.feeds, debt, s.now).value;
    ValueFloors(s, debt, repay);
    MulMono(0, repay, debtPrice);
    QuotBounds(repay * debtPrice, UNIT);
    FeeIsTheBonusShare(cfg, p, price);
    BonusSplitsOff(p, cfg.bonus);
    QuotBounds(p * cfg.bonus, BPS);
    FromBelow(SeizureOf(cfg, p, price).value.total, price, p + Quot(p * cfg.bonus, BPS), p, BPS + cfg.bonus,
              repay * debtPrice);
  }

  /** What the floors can cost, in the units of the coverage inequality. */
  function Slack(price: int, mult: int): int {
    UNIT * (mult + BPS) + price * BPS
  }

  lemma FromBelow(total: int, price: int, boosted: int, p: int, mult: nat, value: int)
    requires value < (p + 1) * UNIT && p * mult < (boosted + 1) * BPS && boosted * UNIT < (total + 1) * price
    ensures total * (price * BPS) > value * mult - Slack(price, mult)
  {
    MulMono(value, p * UNIT + UNIT, mult);
    assert (p * UNIT + UNIT) * mult == p * mult * UNIT + UNIT * mult;
    assert total * (price * BPS) == total * price * BPS;
  }

  /** Taking more than the repaid share of the collateral lowers collateral per debt. */
  lemma CoverageLowered(c: int, d: int, total: int, repay: int, k: int, taken: int, slack: int)
    requires k > 0 && d > 0 && total * k > taken - slack
    requires repay * (c * k) + d * slack <= taken * d
    ensures (c - total) * d < c * (d - repay)
  {
    MulMono(taken - slack + 1, total * k, d);
    assert (taken - slack + 1) * d == taken * d - d * slack + d;
    assert total * k * d == (total * d) * k && repay * (c * k) == (c * repay) * k;
    if total * d <= c * repay {
      MulMono(total * d, c * repay, k);
    }
    assert (c - total) * d == c * d - total * d && c * (d - repay) == c * d - c * repay;
  }

  /**
   * The other direction, up to the floors: once a position is short of the cover
   * by more than the three floors can cost, every liquidation of it lowers its
   * collateral per debt. The shortfall D * debtPrice * (BPS + bonus) - C * collPrice * BPS
   * counts once per repaid unit, the floors once per unit of debt.
   */
  lemma LiquidationWorsensUncovered(w: World, liquidator: Address, borrower: Address, debt: Asset, coll: Asset,
                                    repay: int)
    requires SystemOk(w) && w.system.liquidation.fee <= BPS && w.system.liquidation.closeFactor <= BPS
    requires Liquidate(w.system, liquidator, borrower, debt, coll, repay).Ok?
    ensures Assessed(w.system, borrower, debt, coll, repay).Ok? && OwedNow(w.system, borrower, debt).Ok?
    ensures GetPrice(w.system.feeds, coll, w.system.now).Ok? && GetPrice(w.system.feeds, debt, w.system.now).Ok?
    ensures var s := w.system;
            var c, d := Position(s, borrower, coll), OwedNow(s, borrower, debt).value;
            var collPrice, debtPrice := GetPrice(s.feeds, coll, s.now).value, GetPrice(s.feeds, debt, s.now).value;
            var mult := BPS + s.liquidation.bonus;
            repay * (d * debtPrice * mult - c * collPrice * BPS) >= d * Slack(collPrice, mult)
            ==> (c - Assessed(s, borrower, debt, coll, repay).value.total) * d < c * (d - repay)
  {
    hide *;
    var s := w.system;
    LiquidationParts(s, liquidator, borrower, debt, coll, repay);
    SeizureIsBounded(w, borrower, debt, coll, repay);
    AssessmentFacts(s, borrower, debt, coll, repay);
    RepaymentIsTakenInFull(w, liquidator, borrower, debt, repay);
    var c, d := Position(s, borrower, coll), OwedNow(s, borrower, debt).value;
    var collPrice, debtPrice := GetPrice(s.feeds, coll, s.now).value, GetPrice(s.feeds, debt, s.now).value;
    Effects.PricePositive(s, coll);
    SeizureFromBelow(s, debt, repay, collPrice);
    WorsensWhenShort(c, d, Assessed(s, borrower, debt, coll, repay).value.total, repay, collPrice, debtPrice,
                     BPS + s.liquidation.bonus);
  }

  lemma WorsensWhenShort(c: int, d: int, total: int, repay: int, collPrice: int, debtPrice: int, mult: int)
    requires collPrice > 0 && d > 0
    requires total * (collPrice * BPS) > repay * debtPrice * mult - Slack(collPrice, mult)
    ensures repay * (d * debtPrice * mult - c * collPrice * BPS) >= d * Slack(collPrice, mult)
            ==> (c - total) * d < c * (d - repay)
  {
    hide Slack;
    var k, slack, taken := collPrice * BPS, Slack(collPrice, mult), repay * debtPrice * mult;
    assert repay * (d * debtPrice * mult - c * collPrice * BPS) == taken * d - repay * (c * k) by {
      ShortfallExpands(c, d, repay, debtPrice * mult, k);
      assert d * debtPrice * mult == d * (debtPrice * mult) && c * collPrice * BPS == c * k;
      assert taken == repay * (debtPrice * mult);
    }
    if taken * d - repay * (c * k) >= d * slack {
      CoverageLowered(c, d, total, repay, k, taken, slack);
    }
  }

  lemma ShortfallExpands(c: int, d: int, repay: int, x: int, k: int)
    ensures repay * (d * x - c * k) == repay * x * d - repay * (c * k)
  {
  }

  // ---------------------------------------------------------------- in every run

  /** The safety of a fresh borrow in every run of the whole system. */
  lemma {:induction false} BorrowSafeInEveryRun(w: World, cs: seq<Call>, user: Address, coll: Asset, collAmount: int,
                                                debt: Asset, amount: int, liquidator: Address, repay: int)
    requires Undeployed(w) && repay > 0
    requires Borrow(Run(w, cs).system, user, coll, collAmount, debt, amount).Ok?
    ensures var s' := Borrow(Run(w, cs).system, user, coll, collAmount, debt, amount).value;
            Liquidate(s', liquidator, user, debt, coll, repay)
            == Revert(if DebtOf(s', user, debt).Ok? then PositionHealthy else Overflow)
  {
    SystemInvariant(w, cs);
    BorrowIsNotLiquidatable(Run(w, cs), user, coll, collAmount, debt, amount, liquidator, repay);
  }

  /** The safety of a withdrawal in every run of the whole system. */
  lemma {:induction false} WithdrawalSafeInEveryRun(w: World, cs: seq<Call>, user: Address, coll: Asset, amount: int,
                                                    debt: Asset, liquidator: Address, repay: int)
    requires Undeployed(w) && repay > 0
    requires WithdrawCollateral(Run(w, cs).system, user, coll, amount).Ok?
    ensures var s' := WithdrawCollateral(Run(w, cs).system, user, coll, amount).value;
            var r := Liquidate(s', liquidator, user, debt, coll, repay);
            && r.Revert?
            && (GetPrice(s'.feeds, debt, s'.now).Ok? ==> r == Revert(PositionHealthy))
  {
    hide *;
    SystemInvariant(w, cs);
    WithdrawalKeepsEveryDebtSafe(Run(w, cs), user, coll, amount, debt, liquidator, repay);
  }
}
