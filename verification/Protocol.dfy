/**
 * The money market as one system: a pool market and a vault book per configured
 * asset, the oracle, the lending controller and the liquidation engine, which
 * reach the others by cross-contract calls inside one transaction.
 */
module Protocol {
  import opened Host
  import opened Totals
  import opened Token
  import opened Oracle
  import Pool = LendingPool
  import Vault = CollateralVault

  /** Both the controller and the liquidation engine cap the asset's LTV here. */
  const MAX_LTV_BPS: nat := 7_500
  const BPS: int := 10_000

  datatype LiquidationConfig = LiquidationConfig(bonus: nat, fee: nat, closeFactor: nat, treasury: Address)

  /** One asset: its pool market, which holds the token ledger, and its vault book. */
  datatype Desk = Desk(market: Pool.Market, book: Vault.Book)

  datatype System = System(
    desks: map<Asset, Desk>,
    assets: seq<Asset>,
    feeds: Feeds,
    liquidation: LiquidationConfig,
    now: nat)

  // ---------------------------------------------------------------- views across contracts

  function DebtOf(s: System, user: Address, asset: Asset): Result<int> {
    if asset in s.desks then Pool.DebtOf(s.desks[asset].market, user) else Ok(0)
  }

  function Position(s: System, user: Address, asset: Asset): int {
    if asset in s.desks then Get(s.desks[asset].book.position, user) else 0
  }

  function Value(s: System, asset: Asset, amount: int): Result<int> {
    ValueOf(s.feeds, asset, amount, s.now)
  }

  function EffectiveLtv(s: System, asset: Asset): (r: Result<nat>)
    ensures r.Ok? ==> r.value <= MAX_LTV_BPS
  {
    if asset !in s.desks then Revert(AssetNotConfigured)
    else Ok(Min(s.desks[asset].market.cfg.ltv, MAX_LTV_BPS))
  }

  // ---------------------------------------------------------------- calls across contracts

  function VaultDeposit(s: System, user: Address, asset: Asset, amount: int): Result<System> {
    if asset !in s.desks then Revert(AssetNotConfigured)
    else
      var d := s.desks[asset];
      var r :- Vault.Deposited(d.book, d.market.tokens, user, amount);
      Ok(s.(desks := s.desks[asset := Desk(d.market.(tokens := r.1), r.0)]))
  }

  function VaultWithdraw(s: System, user: Address, asset: Asset, amount: int): Result<System> {
    if asset !in s.desks then Revert(AssetNotConfigured)
    else
      var d := s.desks[asset];
      var r :- Vault.Withdrawn(d.book, d.market.tokens, user, amount);
      Ok(s.(desks := s.desks[asset := Desk(d.market.(tokens := r.1), r.0)]))
  }

  function VaultSeize(s: System, owner: Address, to: Address, asset: Asset, amount: int): Result<System> {
    if asset !in s.desks then Revert(AssetNotConfigured)
    else
      var d := s.desks[asset];
      var r :- Vault.Seized(d.book, d.market.tokens, owner, to, amount);
      Ok(s.(desks := s.desks[asset := Desk(d.market.(tokens := r.1), r.0)]))
  }

  function PoolBorrow(s: System, user: Address, asset: Asset, amount: int): Result<System> {
    if asset !in s.desks then Revert(AssetNotConfigured)
    else
      var d := s.desks[asset];
      var r :- Pool.Borrowed(d.market, user, amount, false, s.now);
      Ok(s.(desks := s.desks[asset := d.(market := r.0)]))
  }

  function PoolRepay(s: System, payer: Address, borrower: Address, asset: Asset, amount: int): Result<(System, int)> {
    if asset !in s.desks then Revert(AssetNotConfigured)
    else
      var d := s.desks[asset];
      var r :- Pool.Repaid(d.market, payer, borrower, amount, s.now);
      Ok((s.(desks := s.desks[asset := d.(market := r.0)]), r.1))
  }

  // ---------------------------------------------------------------- controller

  /** The LTV test of the controller: panics unless debt value * 10_000 <= collateral value * ltv. */
  function WithinLtv(debtValue: int, collValue: int, ltv: nat): Result<bool> {
    var left :- Checked(debtValue * BPS);
    var right :- Checked(collValue * ltv);
    if left > right then Revert(HealthFactorTooLow) else Ok(true)
  }

  /** Everything `controller.borrow` checks before it calls the vault and the pool. */
  function BorrowAllowed(s: System, user: Address, coll: Asset, collAmount: int, debt: Asset,
                         amount: int): Result<bool>
  {
    if amount <= 0 || collAmount <= 0 then Revert(AmountNotPositive)
    else
      var totalColl :- Checked(Position(s, user, coll) + collAmount);
      var collValue :- Value(s, coll, totalColl);
      var existing :- DebtOf(s, user, debt);
      var totalDebt :- Checked(existing + amount);
      var debtValue :- Value(s, debt, totalDebt);
      var ltv :- EffectiveLtv(s, coll);
      WithinLtv(debtValue, collValue, ltv)
  }

  /** `controller.borrow` */
  function Borrow(s: System, user: Address, coll: Asset, collAmount: int, debt: Asset, amount: int): Result<System> {
    var allowed :- BorrowAllowed(s, user, coll, collAmount, debt, amount);
    var s1 :- VaultDeposit(s, user, coll, collAmount);
    PoolBorrow(s1, user, debt, amount)
  }

  /** `total_debt_value` over a list of assets; a debt that is not positive is not priced. */
  function TotalDebtValue(s: System, user: Address, assets: seq<Asset>): Result<int> {
    if assets == [] then Ok(0)
    else
      var front :- TotalDebtValue(s, user, assets[..|assets| - 1]);
      var debt :- DebtOf(s, user, assets[|assets| - 1]);
      if debt > 0 then
        var value :- Value(s, assets[|assets| - 1], debt);
        Checked(front + value)
      else Ok(front)
  }

  /** Steps 1 to 4 of `controller.withdraw_collateral`: everything checked before the vault is called. */
  function WithdrawAllowed(s: System, user: Address, coll: Asset, amount: int): Result<bool> {
    if amount <= 0 then Revert(AmountNotPositive)
    else if Position(s, user, coll) < amount then Revert(InsufficientCollateral)
    else
      var remaining :- Checked(Position(s, user, coll) - amount);
      var ltv :- EffectiveLtv(s, coll);
      var remainingValue :- Value(s, coll, remaining);
      var debtValue :- TotalDebtValue(s, user, s.assets);
      WithinLtv(debtValue, remainingValue, ltv)
  }

  /** `controller.withdraw_collateral` */
  function WithdrawCollateral(s: System, user: Address, coll: Asset, amount: int): Result<System> {
    var allowed :- WithdrawAllowed(s, user, coll, amount);
    VaultWithdraw(s, user, coll, amount)
  }

  lemma ValueFloors(s: System, asset: Asset, x: int)
    requires x >= 0 && Value(s, asset, x).Ok?
    ensures GetPrice(s.feeds, asset, s.now).Ok? && GetPrice(s.feeds, asset, s.now).value > 0
    ensures Value(s, asset, x).value >= 0
    ensures Value(s, asset, x).value * UNIT <= x * GetPrice(s.feeds, asset, s.now).value
  {
    MulMono(0, x, GetPrice(s.feeds, asset, s.now).value);
  }

  /** The facts a passing borrow check establishes. */
  lemma BorrowCheckFacts(s: System, user: Address, coll: Asset, collAmount: int, debt: Asset, amount: int)
    requires BorrowAllowed(s, user, coll, collAmount, debt, amount).Ok?
    ensures amount > 0 && collAmount > 0 && DebtOf(s, user, debt).Ok? && EffectiveLtv(s, coll).Ok?
    ensures Value(s, coll, Position(s, user, coll) + collAmount).Ok?
    ensures Value(s, debt, DebtOf(s, user, debt).value + amount).Ok?
    ensures var c := Value(s, coll, Position(s, user, coll) + collAmount).value;
            var d := Value(s, debt, DebtOf(s, user, debt).value + amount).value;
            Fits(c * EffectiveLtv(s, coll).value) && d * BPS <= c * EffectiveLtv(s, coll).value
  {
    hide Value;
  }

  /**
   * Right after the borrow check, debt is worth at most three quarters of the
   * collateral, however high the asset's own LTV.
   */
  lemma BorrowWithinThreeQuarters(s: System, user: Address, coll: Asset, collAmount: int, debt: Asset, amount: int)
    requires BorrowAllowed(s, user, coll, collAmount, debt, amount).Ok? && Position(s, user, coll) >= 0
    ensures DebtOf(s, user, debt).Ok?
    ensures var c := Value(s, coll, Position(s, user, coll) + collAmount);
            var d := Value(s, debt, DebtOf(s, user, debt).value + amount);
            c.Ok? && d.Ok? && d.value * BPS <= c.value * MAX_LTV_BPS
  {
    hide Value, BorrowAllowed;
    BorrowCheckFacts(s, user, coll, collAmount, debt, amount);
    ValueFloors(s, coll, Position(s, user, coll) + collAmount);
    MulMono(EffectiveLtv(s, coll).value, MAX_LTV_BPS, Value(s, coll, Position(s, user, coll) + collAmount).value);
  }

  // ---------------------------------------------------------------- liquidation

  /** Sizes of a seizure: everything taken, and the part of it that is the fee. */
  datatype Split = Split(total: int, fee: int) {
    function ToLiquidator(): int { total - fee }
  }

  /** Steps 1 to 4 of `liquidate`: answers the outstanding debt of a position that may be liquidated. */
  function Unhealthy(s: System, borrower: Address, debt: Asset, coll: Asset): Result<int> {
    var outstanding :- DebtOf(s, borrower, debt);
    var collValue :- Value(s, coll, Position(s, borrower, coll));
    var debtValue :- Value(s, debt, outstanding);
    if debtValue <= 0 then Revert(PositionHealthy)
    else
      var ltv :- EffectiveLtv(s, coll);
      var product :- Checked(collValue * ltv);
      if debtValue <= Quot(product, BPS) then Revert(PositionHealthy) else Ok(outstanding)
  }

  /** Step 6: the three nested floors of the seizure and of the fee. */
  function SeizureOf(cfg: LiquidationConfig, repayValue: int, price: int): Result<Split>
    requires price > 0
  {
    var boosted :- Checked(repayValue * (BPS + cfg.bonus));
    var units :- Checked(Quot(boosted, BPS) * UNIT);
    var bonus :- Checked(repayValue * cfg.bonus);
    var fee :- Checked(Quot(bonus, BPS) * cfg.fee);
    var feeUnits :- Checked(Quot(fee, BPS) * UNIT);
    Ok(Split(Quot(units, price), Quot(feeUnits, price)))
  }

  /** Everything `liquidate` checks before it moves anything. */
  function Assessed(s: System, borrower: Address, debt: Asset, coll: Asset, repay: int): Result<Split> {
    if repay <= 0 then Revert(AmountNotPositive)
    else
      var outstanding :- Unhealthy(s, borrower, debt, coll);
      var limit :- Checked(outstanding * s.liquidation.closeFactor);
      if repay > Quot(limit, BPS) then Revert(ExceedsCloseFactor)
      else
        var repayValue :- Value(s, debt, repay);
        var price :- GetPrice(s.feeds, coll, s.now);
        var split :- SeizureOf(s.liquidation, repayValue, price);
        if split.ToLiquidator() <= 0 then Revert(InsufficientToSeize)
        else if split.total > Position(s, borrower, coll) then Revert(InsufficientToSeize)
        else Ok(split)
  }

  /** `liquidate`: repay, seize for the liquidator, seize the fee for the treasury. */
  function Liquidate(s: System, liquidator: Address, borrower: Address, debt: Asset, coll: Asset,
                     repay: int): Result<(System, int)>
  {
    var split :- Assessed(s, borrower, debt, coll, repay);
    var s1 :- PoolRepay(s, liquidator, borrower, debt, repay);
    var s2 :- VaultSeize(s1.0, borrower, liquidator, coll, split.ToLiquidator());
    var s3 :- if split.fee > 0 then VaultSeize(s2, borrower, s.liquidation.treasury, coll, split.fee) else Ok(s2);
    Ok((s3, split.ToLiquidator()))
  }

  // ---------------------------------------------------------------- the contracts

  class MoneyMarket {
    var desks: map<Asset, Desk>
    var assets: seq<Asset>
    var feeds: Feeds
    var liquidation: LiquidationConfig
    var now: nat

    constructor (feeds: Feeds, liquidation: LiquidationConfig, now: nat)
      ensures Storage() == System(map[], [], feeds, liquidation, now)
    {
      desks, assets, this.feeds, this.liquidation, this.now := map[], [], feeds, liquidation, now;
    }

    function Storage(): System
      reads this
    {
      System(desks, assets, feeds, liquidation, now)
    }

    /** The loop of `total_debt_value`. */
    method SumDebts(user: Address) returns (r: Result<int>)
      ensures r == TotalDebtValue(Storage(), user, assets)
    {
      hide Value, DebtOf;
      var total := 0;
      for i := 0 to |assets|
        invariant TotalDebtValue(Storage(), user, assets[..i]) == Ok(total)
      {
        assert assets[..i + 1][..i] == assets[..i];
        var debt := DebtOf(Storage(), user, assets[i]);
        if debt.Revert? {
          DebtValueFailsEarly(Storage(), user, assets, i + 1);
          return debt;
        }
        if debt.value > 0 {
          var value := Value(Storage(), assets[i], debt.value);
          if value.Revert? || !Fits(total + value.value) {
            DebtValueFailsEarly(Storage(), user, assets, i + 1);
            return if value.Revert? then value else Revert(Overflow);
          }
          total := total + value.value;
        }
      }
      assert assets[..|assets|] == assets;
      return Ok(total);
    }

    method CheckBorrow(user: Address, coll: Asset, collAmount: int, debt: Asset, amount: int) returns (r: Result<bool>)
      ensures r == BorrowAllowed(Storage(), user, coll, collAmount, debt, amount)
      ensures r.Ok? && Position(Storage(), user, coll) >= 0 ==>
                var c := Value(Storage(), coll, Position(Storage(), user, coll) + collAmount);
                && amount > 0 && collAmount > 0 && DebtOf(Storage(), user, debt).Ok?
                && var d := Value(Storage(), debt, DebtOf(Storage(), user, debt).value + amount);
                   c.Ok? && d.Ok? && d.value * BPS <= c.value * MAX_LTV_BPS
    {
      hide Value;
      if BorrowAllowed(Storage(), user, coll, collAmount, debt, amount).Ok? {
        BorrowCheckFacts(Storage(), user, coll, collAmount, debt, amount);
        if Position(Storage(), user, coll) >= 0 {
          BorrowWithinThreeQuarters(Storage(), user, coll, collAmount, debt, amount);
        }
      }
      if amount <= 0 || collAmount <= 0 {
        return Revert(AmountNotPositive);
      }
      var totalColl :- Checked(Position(Storage(), user, coll) + collAmount);
      var collValue :- Value(Storage(), coll, totalColl);
      var existing :- DebtOf(Storage(), user, debt);
      var totalDebt :- Checked(existing + amount);
      var debtValue :- Value(Storage(), debt, totalDebt);
      var ltv :- EffectiveLtv(Storage(), coll);
      return WithinLtv(debtValue, collValue, ltv);
    }

    method ControllerBorrow(user: Address, coll: Asset, collAmount: int, debt: Asset, amount: int)
      returns (r: Result<int>)
      modifies this
      ensures var t := Borrow(old(Storage()), user, coll, collAmount, debt, amount);
              && r == (if t.Ok? then Ok(0) else Revert(t.why))
              && Storage() == if t.Ok? then t.value else old(Storage())
    {
      var allowed := CheckBorrow(user, coll, collAmount, debt, amount);
      if allowed.Revert? {
        return Revert(allowed.why);
      }
      var before := desks;
      var deposited :- VaultDeposit(Storage(), user, coll, collAmount);
      desks := deposited.desks;
      var lent := PoolBorrow(Storage(), user, debt, amount);
      if lent.Revert? {
        desks := before;
        return Revert(lent.why);
      }
      desks := lent.value.desks;
      return Ok(0);
    }

    method CheckWithdrawal(user: Address, coll: Asset, amount: int) returns (r: Result<bool>)
      ensures r == WithdrawAllowed(Storage(), user, coll, amount)
    {
      hide Value;
      if amount <= 0 {
        return Revert(AmountNotPositive);
      }
      var existing := Position(Storage(), user, coll);
      if existing < amount {
        return Revert(InsufficientCollateral);
      }
      var remaining :- Checked(existing - amount);
      var ltv := Min(desks[coll].market.cfg.ltv, MAX_LTV_BPS);
      var remainingValue :- Value(Storage(), coll, remaining);
      var debtValue := SumDebts(user);
      if debtValue.Revert? {
        return Revert(debtValue.why);
      }
      return WithinLtv(debtValue.value, remainingValue, ltv);
    }

    method ControllerWithdraw(user: Address, coll: Asset, amount: int) returns (r: Result<int>)
      modifies this
      ensures var t := WithdrawCollateral(old(Storage()), user, coll, amount);
              && r == (if t.Ok? then Ok(amount) else Revert(t.why))
              && Storage() == if t.Ok? then t.value else old(Storage())
    {
      var allowed := CheckWithdrawal(user, coll, amount);
      if allowed.Revert? {
        return Revert(allowed.why);
      }
      var withdrawn :- VaultWithdraw(Storage(), user, coll, amount);
      desks := withdrawn.desks;
      return Ok(amount);
    }

    method LiquidatePosition(liquidator: Address, borrower: Address, debt: Asset, coll: Asset, repay: int)
      returns (r: Result<int>)
      modifies this
      ensures var t := Liquidate(old(Storage()), liquidator, borrower, debt, coll, repay);
              && r == (if t.Ok? then Ok(t.value.1) else Revert(t.why))
              && Storage() == if t.Ok? then t.value.0 else old(Storage())
    {
      var split :- Assessed(Storage(), borrower, debt, coll, repay);
      var before := desks;
      var repaid :- PoolRepay(Storage(), liquidator, borrower, debt, repay);
      desks := repaid.0.desks;
      var seized := VaultSeize(Storage(), borrower, liquidator, coll, split.ToLiquidator());
      if seized.Revert? {
        desks := before;
        return Revert(seized.why);
      }
      desks := seized.value.desks;
      if split.fee > 0 {
        var fee := VaultSeize(Storage(), borrower, liquidation.treasury, coll, split.fee);
        if fee.Revert? {
          desks := before;
          return Revert(fee.why);
        }
        desks := fee.value.desks;
      }
      return Ok(split.ToLiquidator());
    }
  }

  /** Once a prefix of the asset list cannot be valued, neither can the list, for the same reason. */
  lemma {:induction false} DebtValueFailsEarly(s: System, user: Address, assets: seq<Asset>, n: nat)
    requires n <= |assets| && TotalDebtValue(s, user, assets[..n]).Revert?
    ensures TotalDebtValue(s, user, assets) == TotalDebtValue(s, user, assets[..n])
    decreases |assets|
  {
    if n == |assets| {
      assert assets[..n] == assets;
    } else {
      var front := assets[..|assets| - 1];
      assert front[..n] == assets[..n];
      DebtValueFailsEarly(s, user, front, n);
    }
  }
}
