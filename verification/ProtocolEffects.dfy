/**
 * Who pays whom when contracts call each other, and exactly which of the staged
 * checks refuses a borrow, a withdrawal or a liquidation.
 */
module ProtocolEffects {
  import opened Host
  import opened Lists
  import opened Totals
  import opened Token
  import opened Oracle
  import opened Protocol
  import opened ProtocolRuns
  import Pool = LendingPool
  import Market = PoolRuns
  import Calls = PoolEffects
  import Vault = CollateralVault

  // ---------------------------------------------------------------- wallets

  /** What `holder` has of the token of `asset`. */
  function Wallet(s: System, asset: Asset, holder: Holder): int {
    if asset in s.desks then Get(s.desks[asset].market.tokens, holder) else 0
  }

  /** What `holder` gains when `amount` goes from one holder to another. */
  function Gain(holder: Holder, from: Holder, to: Holder, amount: int): int {
    (if holder == to then amount else 0) - (if holder == from then amount else 0)
  }

  /** `amount` of `asset` went from one holder to another; no other wallet of any asset moved. */
  ghost predicate Paid(s: System, s': System, asset: Asset, from: Holder, to: Holder, amount: int) {
    && s'.desks.Keys == s.desks.Keys
    && forall a, h :: Wallet(s', a, h) == Wallet(s, a, h) + if a == asset then Gain(h, from, to, amount) else 0
  }

  lemma DepositPays(s: System, user: Address, asset: Asset, amount: int)
    requires VaultDeposit(s, user, asset, amount).Ok?
    ensures Paid(s, VaultDeposit(s, user, asset, amount).value, asset, User(user), Holder.Vault, amount)
    ensures forall u, a :: Position(VaultDeposit(s, user, asset, amount).value, u, a)
                           == Position(s, u, a) + if u == user && a == asset then amount else 0
  {
    Vault.DepositEffects(s.desks[asset].book, s.desks[asset].market.tokens, user, amount);
    hide Vault.Deposited;
  }

  lemma WithdrawPays(s: System, user: Address, asset: Asset, amount: int)
    requires VaultWithdraw(s, user, asset, amount).Ok?
    ensures Paid(s, VaultWithdraw(s, user, asset, amount).value, asset, Holder.Vault, User(user), amount)
    ensures forall u, a :: Position(VaultWithdraw(s, user, asset, amount).value, u, a)
                           == Position(s, u, a) - if u == user && a == asset then amount else 0
  {
    Vault.WithdrawEffects(s.desks[asset].book, s.desks[asset].market.tokens, user, amount);
    hide Vault.Withdrawn;
  }

  lemma SeizePays(s: System, owner: Address, to: Address, asset: Asset, amount: int)
    requires VaultSeize(s, owner, to, asset, amount).Ok?
    ensures Paid(s, VaultSeize(s, owner, to, asset, amount).value, asset, Holder.Vault, User(to), amount)
  {
    Vault.SeizeEffects(s.desks[asset].book, s.desks[asset].market.tokens, owner, to, amount);
    hide Vault.Seized;
  }

  lemma BorrowPays(s: System, user: Address, asset: Asset, amount: int)
    requires PoolBorrow(s, user, asset, amount).Ok?
    ensures Paid(s, PoolBorrow(s, user, asset, amount).value, asset, Holder.Pool, User(user), amount)
    ensures forall u, a :: Position(PoolBorrow(s, user, asset, amount).value, u, a) == Position(s, u, a)
  {
    Calls.BorrowEffects(s.desks[asset].market, user, amount, false, s.now);
    hide Pool.Borrowed;
  }

  lemma DebtsAreOk(w: World, asset: Asset)
    requires SystemOk(w) && asset in w.system.desks
    ensures Market.DebtsOk(w.system.desks[asset].market)
  {
    assert DeskOk(w.system.desks[asset], Get(w.donated, asset));
  }

  lemma RepayPays(w: World, payer: Address, borrower: Address, asset: Asset, amount: int)
    requires SystemOk(w) && PoolRepay(w.system, payer, borrower, asset, amount).Ok?
    ensures var (s', repaid) := PoolRepay(w.system, payer, borrower, asset, amount).value;
            Paid(w.system, s', asset, User(payer), Holder.Pool, repaid)
  {
    DebtsAreOk(w, asset);
    hide SystemOk;
    Calls.RepayEffects(w.system.desks[asset].market, payer, borrower, amount, w.system.now);
    hide Pool.Repaid;
  }

  // ---------------------------------------------------------------- the controller

  /**
   * A controller borrow: the user pays the collateral to the vault and is paid the
   * loan by the pool, in one wallet when the two assets are the same; only the
   * user's position and loan move.
   */
  lemma BorrowEffects(s: System, user: Address, coll: Asset, collAmount: int, debt: Asset, amount: int)
    requires Borrow(s, user, coll, collAmount, debt, amount).Ok?
    ensures var s' := Borrow(s, user, coll, collAmount, debt, amount).value;
            && s' == s.(desks := s'.desks) && s'.desks.Keys == s.desks.Keys
            && (forall a, h :: Wallet(s', a, h) == Wallet(s, a, h)
                  + (if a == coll then Gain(h, User(user), Holder.Vault, collAmount) else 0)
                  + (if a == debt then Gain(h, Holder.Pool, User(user), amount) else 0))
            && (forall u, a ::
                  Position(s', u, a) == Position(s, u, a) + if u == user && a == coll then collAmount else 0)
            && (forall u, a :: a in s.desks && (u != user || a != debt) ==>
                  Pool.LoanOf(s'.desks[a].market, u) == Pool.LoanOf(s.desks[a].market, u))
            && debt in s.desks
            && Pool.LoanOf(s'.desks[debt].market, user)
               == Pool.Loan(Pool.LoanOf(s.desks[debt].market, user).principal + amount, s'.desks[debt].market.index)
  {
    hide BorrowAllowed;
    var s1 := VaultDeposit(s, user, coll, collAmount).value;
    DepositPays(s, user, coll, collAmount);
    BorrowPays(s1, user, debt, amount);
    Calls.BorrowEffects(s1.desks[debt].market, user, amount, false, s.now);
    hide Pool.Borrowed, Vault.Deposited, Wallet, Position, Gain;
    var s' := Borrow(s, user, coll, collAmount, debt, amount).value;
    forall u, a | a in s.desks ensures Pool.LoanOf(s1.desks[a].market, u) == Pool.LoanOf(s.desks[a].market, u) {
    }
  }

  /** A controller withdrawal: the vault pays the user, whose position falls by as much, and nothing else moves. */
  lemma WithdrawEffects(s: System, user: Address, coll: Asset, amount: int)
    requires WithdrawCollateral(s, user, coll, amount).Ok?
    ensures var s' := WithdrawCollateral(s, user, coll, amount).value;
            && s' == s.(desks := s'.desks) && Paid(s, s', coll, Holder.Vault, User(user), amount)
            && (forall u, a ::
                  Position(s', u, a) == Position(s, u, a) - if u == user && a == coll then amount else 0)
            && (forall a ::
                  a in s.desks ==> s'.desks[a].market == s.desks[a].market.(tokens := s'.desks[a].market.tokens))
  {
    hide WithdrawAllowed;
    WithdrawPays(s, user, coll, amount);
  }

  /**
   * `controller.supply_collateral` moves the tokens once, into the vault, and
   * records them twice: as a position and as pool shares.
   */
  lemma SupplyCollateralEffects(w: World, user: Address, asset: Asset, amount: int)
    requires Step(w, SupplyCollateral(user, asset, amount)) != w
    ensures var s, w' := w.system, Step(w, SupplyCollateral(user, asset, amount));
            && amount > 0 && asset in s.desks && w'.donated == w.donated
            && Paid(s, w'.system, asset, User(user), Holder.Vault, amount)
            && (forall u, a ::
                  Position(w'.system, u, a) == Position(s, u, a) + if u == user && a == asset then amount else 0)
            && (forall a :: a in s.desks && a != asset ==> w'.system.desks[a] == s.desks[a])
            && var m, m' := s.desks[asset].market, w'.system.desks[asset].market;
               && m' == m.(tokens := m'.tokens, shares := m'.shares)
               && forall u :: Get(m'.shares, u) == Get(m.shares, u) + if u == user then amount else 0
  {
    DepositPays(w.system, user, asset, amount);
    hide Vault.Deposited;
  }

  // ---------------------------------------------------------------- when a transaction goes through

  lemma DepositSucceedsIff(s: System, user: Address, asset: Asset, amount: int)
    requires asset in s.desks && amount > 0
    ensures VaultDeposit(s, user, asset, amount).Ok?
            <==> amount <= Wallet(s, asset, User(user)) && Fits(Position(s, user, asset) + amount)
                 && Fits(s.desks[asset].book.total + amount)
  {
    Vault.DepositEffects(s.desks[asset].book, s.desks[asset].market.tokens, user, amount);
    hide Vault.Deposited;
  }

  /** A vault deposit leaves the pool market of every asset alone but for the wallets, and the pool's own too. */
  lemma DepositLeavesPools(s: System, user: Address, asset: Asset, amount: int, a: Asset)
    requires VaultDeposit(s, user, asset, amount).Ok? && a in s.desks
    ensures var s1 := VaultDeposit(s, user, asset, amount).value;
            && a in s1.desks && s1.now == s.now
            && s1.desks[a].market == s.desks[a].market.(tokens := s1.desks[a].market.tokens)
            && Get(s1.desks[a].market.tokens, Holder.Pool) == Get(s.desks[a].market.tokens, Holder.Pool)
  {
    Vault.DepositEffects(s.desks[asset].book, s.desks[asset].market.tokens, user, amount);
    hide Vault.Deposited;
  }

  /** Once its test has passed, a borrow needs the collateral in the user's wallet and the loan in the pool. */
  lemma BorrowGoesThroughIff(s: System, user: Address, coll: Asset, collAmount: int, debt: Asset, amount: int)
    requires BorrowAllowed(s, user, coll, collAmount, debt, amount).Ok?
    requires debt in s.desks && Market.DebtsOk(s.desks[debt].market) && Pool.Accrued(s.desks[debt].market, s.now).Ok?
    ensures amount > 0 && collAmount > 0 && coll in s.desks
    ensures Borrow(s, user, coll, collAmount, debt, amount).Ok?
            <==> && collAmount <= Wallet(s, coll, User(user)) && amount <= Wallet(s, debt, Holder.Pool)
                 && Fits(Position(s, user, coll) + collAmount) && Fits(s.desks[coll].book.total + collAmount)
                 && Pool.LoanOf(s.desks[debt].market, user).principal + amount <= I128_MAX
                 && Fits(s.desks[debt].market.borrows + amount)
  {
    BorrowCheckFacts(s, user, coll, collAmount, debt, amount);
    hide BorrowAllowed, Value, DebtOf, VaultDeposit;
    DepositSucceedsIff(s, user, coll, collAmount);
    if VaultDeposit(s, user, coll, collAmount).Ok? {
      var s1 := VaultDeposit(s, user, coll, collAmount).value;
      DepositLeavesPools(s, user, coll, collAmount, debt);
      SameLoanBook(s.desks[debt].market, s1.desks[debt].market, s.now);
      UncheckedBorrowSucceedsIff(s1.desks[debt].market, user, amount, s.now);
      hide Pool.Borrowed, Pool.Accrued, Market.DebtsOk;
    }
  }

  lemma SameLoanBook(m: Pool.Market, m1: Pool.Market, now: nat)
    requires Market.DebtsOk(m) && Pool.Accrued(m, now).Ok? && m1 == m.(tokens := m1.tokens)
    ensures Market.DebtsOk(m1) && Pool.Accrued(m1, now).Ok?
  {
    Market.SameLoans(m, m1);
  }

  lemma UncheckedBorrowSucceedsIff(m: Pool.Market, user: Address, amount: int, now: nat)
    requires Market.DebtsOk(m) && Pool.Accrued(m, now).Ok? && amount > 0
    ensures Pool.Borrowed(m, user, amount, false, now).Ok?
            <==> amount <= Get(m.tokens, Holder.Pool) && Pool.LoanOf(m, user).principal + amount <= I128_MAX
                 && Fits(m.borrows + amount)
  {
    Market.AccrualOnlyRaisesIndex(m, now);
    assert Market.LoanOk(m, user);
    TransferSucceedsIff(m.tokens, Holder.Pool, User(user), amount);
    hide Pool.Accrued, Transfer;
  }

  /** Supplying collateral needs it in the user's wallet, and is otherwise refused for overflow alone. */
  lemma SupplyCollateralGoesThroughIff(w: World, user: Address, asset: Asset, amount: int)
    requires asset in w.system.desks && amount > 0
    ensures var s, w' := w.system, Step(w, SupplyCollateral(user, asset, amount));
            w' != w <==> && amount <= Wallet(s, asset, User(user)) && Fits(Position(s, user, asset) + amount)
                         && Fits(s.desks[asset].book.total + amount)
                         && Fits(Get(s.desks[asset].market.shares, user) + amount)
  {
    var s := w.system;
    DepositSucceedsIff(s, user, asset, amount);
    if VaultDeposit(s, user, asset, amount).Ok? {
      DepositPays(s, user, asset, amount);
      DepositLeavesPools(s, user, asset, amount, asset);
      var s1 := VaultDeposit(s, user, asset, amount).value;
      assert Position(s1, user, asset) == Position(s, user, asset) + amount;
    }
    hide VaultDeposit;
  }

  /** Once its test has passed, a withdrawal needs the tokens in the vault. */
  lemma WithdrawGoesThroughIff(s: System, user: Address, coll: Asset, amount: int)
    requires WithdrawAllowed(s, user, coll, amount).Ok?
    ensures coll in s.desks
    ensures WithdrawCollateral(s, user, coll, amount).Ok?
            <==> amount <= Wallet(s, coll, Holder.Vault) && Fits(s.desks[coll].book.total - amount)
  {
    assert coll in s.desks && 0 < amount <= Position(s, user, coll) by {
      hide Value, TotalDebtValue;
    }
    hide WithdrawAllowed;
    Vault.WithdrawEffects(s.desks[coll].book, s.desks[coll].market.tokens, user, amount);
  }

  /** Positions that fit 128 bits together leave room for a seizure between any of them. */
  lemma SeizeSucceedsIff(w: World, owner: Address, to: Address, asset: Asset, amount: int)
    requires SystemOk(w) && asset in w.system.desks && w.system.desks[asset].book.total <= I128_MAX
    requires 0 < amount <= Position(w.system, owner, asset)
    ensures VaultSeize(w.system, owner, to, asset, amount).Ok? <==> amount <= Wallet(w.system, asset, Holder.Vault)
  {
    var v, t := w.system.desks[asset].book, w.system.desks[asset].market.tokens;
    assert DeskOk(w.system.desks[asset], Get(w.donated, asset));
    hide SystemOk, DeskOk;
    Vault.SeizeEffects(v, t, owner, to, amount);
    var rest := v.position[owner := Get(v.position, owner) - amount];
    SumSet(v.position, owner, Get(v.position, owner) - amount);
    forall u ensures Get(rest, u) >= 0 {
      assert Get(v.position, u) >= 0;
    }
    EntryAtMostSum(rest, to);
    EntryAtMostSum(v.position, to);
    hide Vault.Seized;
  }

  // ---------------------------------------------------------------- valuation

  /** A value is the amount at the price, rounded down to whole units; it fails for want of a price or for overflow. */
  lemma ValueIsFloored(s: System, asset: Asset, amount: int)
    requires amount >= 0
    ensures var v, price := Value(s, asset, amount), GetPrice(s.feeds, asset, s.now);
            && (price.Revert? ==> v == Revert(price.why))
            && (price.Ok? ==>
                  && (v.Revert? <==> amount * price.value > I128_MAX)
                  && (if v.Revert? then v.why == Overflow
                      else v.value * UNIT <= amount * price.value < (v.value + 1) * UNIT))
  {
    hide GetPrice;
    var price := GetPrice(s.feeds, asset, s.now);
    if price.Ok? {
      PricePositive(s, asset);
      MulMono(0, amount, price.value);
      QuotBounds(amount * price.value, UNIT);
    }
  }

  lemma PricePositive(s: System, asset: Asset)
    requires GetPrice(s.feeds, asset, s.now).Ok?
    ensures GetPrice(s.feeds, asset, s.now).value > 0
  {
  }

  /** What one asset adds to the debt of `user`: the value of a positive debt. */
  function DebtValueIn(s: System, user: Address, asset: Asset): int {
    var debt := DebtOf(s, user, asset);
    if debt.Ok? && debt.value > 0 && Value(s, asset, debt.value).Ok? then Value(s, asset, debt.value).value else 0
  }

  function DebtValues(s: System, user: Address, assets: set<Asset>): map<Asset, int> {
    map a | a in assets :: DebtValueIn(s, user, a)
  }

  /** Over a list of different assets, the total debt is the sum of its parts, each asset counted once. */
  lemma {:induction false} TotalDebtIsTheSum(s: System, user: Address, assets: seq<Asset>)
    requires Distinct(assets) && TotalDebtValue(s, user, assets).Ok?
    ensures TotalDebtValue(s, user, assets).value == Sum(DebtValues(s, user, Elements(assets)))
    decreases assets
  {
    hide DebtOf, Value;
    if assets == [] {
      assert DebtValues(s, user, {}) == map[];
      assert Elements(assets) == {};
      assert SumOver<Asset>({}, map[]) == 0;
    } else {
      var n := |assets| - 1;
      var front, last := assets[..n], assets[n];
      TotalDebtIsTheSum(s, user, front);
      assert Elements(assets) == Elements(front) + {last};
      assert last !in Elements(front);
      SumSet(DebtValues(s, user, Elements(front)), last, DebtValueIn(s, user, last));
      assert DebtValues(s, user, Elements(assets))
          == DebtValues(s, user, Elements(front))[last := DebtValueIn(s, user, last)];
    }
  }

  // ---------------------------------------------------------------- the checks

  /** The LTV the controller and the engine apply: the asset's own, capped at three quarters. */
  predicate IsEffectiveLtv(s: System, asset: Asset, ltv: nat) {
    && asset in s.desks && ltv <= s.desks[asset].market.cfg.ltv && ltv <= 7_500
    && (ltv == s.desks[asset].market.cfg.ltv || ltv == 7_500)
  }

  /**
   * The test of a borrow, exactly: with both sides valued, it passes if and only if
   * the debt with the new amount, at 10 000 basis points, is within the collateral
   * with the new deposit at the effective LTV, and is refused for health otherwise.
   */
  lemma BorrowAllowedIff(s: System, user: Address, coll: Asset, collAmount: int, debt: Asset, amount: int, ltv: nat)
    requires amount > 0 && collAmount > 0 && IsEffectiveLtv(s, coll, ltv) && DebtOf(s, user, debt).Ok?
    requires Fits(Position(s, user, coll) + collAmount) && Fits(DebtOf(s, user, debt).value + amount)
    requires Value(s, coll, Position(s, user, coll) + collAmount).Ok?
    requires Value(s, debt, DebtOf(s, user, debt).value + amount).Ok?
    ensures var c := Value(s, coll, Position(s, user, coll) + collAmount).value;
            var d := Value(s, debt, DebtOf(s, user, debt).value + amount).value;
            Fits(d * 10_000) && Fits(c * ltv) ==>
              BorrowAllowed(s, user, coll, collAmount, debt, amount)
              == if d * 10_000 <= c * ltv then Ok(true) else Revert(HealthFactorTooLow)
  {
    hide Value, DebtOf;
  }

  /** The test of a withdrawal, exactly: what remains against the total debt. */
  lemma WithdrawAllowedIff(s: System, user: Address, coll: Asset, amount: int, ltv: nat)
    requires IsEffectiveLtv(s, coll, ltv) && Fits(Position(s, user, coll) - amount)
    requires Value(s, coll, Position(s, user, coll) - amount).Ok? && TotalDebtValue(s, user, s.assets).Ok?
    ensures var r := WithdrawAllowed(s, user, coll, amount);
            var c, d := Value(s, coll, Position(s, user, coll) - amount).value,
                        TotalDebtValue(s, user, s.assets).value;
            && (r == Revert(AmountNotPositive) <==> amount <= 0)
            && (r == Revert(InsufficientCollateral) <==> amount > 0 && Position(s, user, coll) < amount)
            && (0 < amount <= Position(s, user, coll) && Fits(d * 10_000) && Fits(c * ltv) ==>
                  r == if d * 10_000 <= c * ltv then Ok(true) else Revert(HealthFactorTooLow))
  {
    hide Value, DebtOf, TotalDebtValue;
  }

  /** The engine's health test, exactly: a position is healthy with no debt of value, or within the effective LTV. */
  lemma UnhealthyIff(w: World, borrower: Address, debt: Asset, coll: Asset, ltv: nat)
    requires SystemOk(w) && IsEffectiveLtv(w.system, coll, ltv) && DebtOf(w.system, borrower, debt).Ok?
    requires Value(w.system, coll, Position(w.system, borrower, coll)).Ok?
    requires Value(w.system, debt, DebtOf(w.system, borrower, debt).value).Ok?
    requires Fits(Value(w.system, coll, Position(w.system, borrower, coll)).value * ltv)
    ensures var s, owed := w.system, DebtOf(w.system, borrower, debt);
            var c, d := Value(s, coll, Position(s, borrower, coll)).value, Value(s, debt, owed.value).value;
            Unhealthy(s, borrower, debt, coll)
            == if d <= 0 || d * 10_000 <= c * ltv then Revert(PositionHealthy) else owed
  {
    var s := w.system;
    PositionNotNegative(w, borrower, coll);
    hide Value, DebtOf, GetPrice, SystemOk, Position;
    var c := Value(s, coll, Position(s, borrower, coll)).value;
    ValueFloors(s, coll, Position(s, borrower, coll));
    MulMono(0, c, ltv);
    AtMostFloor(Value(s, debt, DebtOf(s, borrower, debt).value).value, c * ltv);
    hide Quot;
  }

  /**
   * What the liquidation engine asks of a position, exactly, with everything it
   * reads valued and every product within 128 bits: it is not healthy, the
   * repayment is within the close factor, and the seizure is not empty and within
   * the position.
   */
  lemma AssessedIff(w: World, borrower: Address, debt: Asset, coll: Asset, repay: int, price: int)
    requires SystemOk(w) && repay > 0 && DebtOf(w.system, borrower, debt).Ok? && Value(w.system, debt, repay).Ok?
    requires GetPrice(w.system.feeds, coll, w.system.now) == Ok(price) && price > 0
    requires SeizureOf(w.system.liquidation, Value(w.system, debt, repay).value, price).Ok?
    requires Fits(DebtOf(w.system, borrower, debt).value * w.system.liquidation.closeFactor)
    ensures var s := w.system;
            var r, health := Assessed(s, borrower, debt, coll, repay), Unhealthy(s, borrower, debt, coll);
            var split := SeizureOf(s.liquidation, Value(s, debt, repay).value, price).value;
            r == if health.Revert? then Revert(health.why)
                 else if repay * 10_000 > DebtOf(s, borrower, debt).value * s.liquidation.closeFactor
                 then Revert(ExceedsCloseFactor)
                 else if split.fee >= split.total || split.total > Position(s, borrower, coll)
                 then Revert(InsufficientToSeize)
                 else Ok(split)
  {
    var s := w.system;
    OwedNotNegative(w, borrower, debt);
    if Unhealthy(s, borrower, debt, coll).Ok? {
      UnhealthyAnswersTheDebt(s, borrower, debt, coll);
    }
    hide Value, DebtOf, SeizureOf, GetPrice, SystemOk, Position, Unhealthy;
    var limit := DebtOf(s, borrower, debt).value * s.liquidation.closeFactor;
    MulMono(0, DebtOf(s, borrower, debt).value, s.liquidation.closeFactor);
    AtMostFloor(repay, limit);
    hide Quot;
  }

  lemma UnhealthyAnswersTheDebt(s: System, borrower: Address, debt: Asset, coll: Asset)
    requires Unhealthy(s, borrower, debt, coll).Ok?
    ensures Unhealthy(s, borrower, debt, coll) == DebtOf(s, borrower, debt)
  {
    hide Value, DebtOf;
  }

  lemma AtMostFloor(x: int, a: int)
    requires a >= 0
    ensures x <= Quot(a, BPS) <==> x * 10_000 <= a
  {
    QuotBounds(a, BPS);
  }

  lemma PositionNotNegative(w: World, user: Address, asset: Asset)
    requires SystemOk(w)
    ensures Position(w.system, user, asset) >= 0
  {
    if asset in w.system.desks {
      assert DeskOk(w.system.desks[asset], Get(w.donated, asset));
      assert Get(w.system.desks[asset].book.position, user) >= 0;
    }
  }

  lemma OwedNotNegative(w: World, user: Address, asset: Asset)
    requires SystemOk(w) && DebtOf(w.system, user, asset).Ok?
    ensures DebtOf(w.system, user, asset).value >= 0
  {
    if asset in w.system.desks {
      assert DeskOk(w.system.desks[asset], Get(w.donated, asset));
      assert Market.LoanOk(w.system.desks[asset].market, user);
      Market.DebtAtLeastPrincipal(w.system.desks[asset].market, user);
    }
  }
}
