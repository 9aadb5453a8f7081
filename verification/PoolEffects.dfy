/**
 * What each call of a pool market does to wallets, shares and loans, who pays
 * whom, and when it is refused.
 */
module PoolEffects {
  import opened Host
  import opened Totals
  import opened Token
  import opened LendingPool
  import opened PoolRuns
  import opened PoolShares

  /** Nobody but `user` holds other shares. */
  ghost predicate SharesOfOthersStay(m: Market, m': Market, user: Address) {
    forall v :: v != user ==> Get(m'.shares, v) == Get(m.shares, v)
  }

  ghost predicate LoansOfOthersStay(m: Market, m': Market, user: Address) {
    forall v :: v != user ==> LoanOf(m', v) == LoanOf(m, v)
  }

  /** The index and the clock of `m` are those after accrual; the configuration stays. */
  ghost predicate AccruedFirst(m: Market, m': Market, now: nat) {
    && Accrued(m, now).Ok? && m'.cfg == m.cfg
    && m'.index == Accrued(m, now).value.index && m'.lastAccrual == Accrued(m, now).value.lastAccrual
  }

  /**
   * Accrual does nothing without borrows or without elapsed ledgers. Otherwise it
   * brings the clock to `now` and adds five seconds of the yearly rate per ledger
   * to the index, rounded down, and nothing else changes.
   */
  lemma AccrualEffects(m: Market, now: nat)
    ensures m.borrows == 0 || now <= m.lastAccrual ==> Accrued(m, now) == Ok(m)
    ensures m.borrows != 0 && now > m.lastAccrual && Accrued(m, now).Ok? ==>
              && BorrowApy(m).Ok?
              && var a, due := Accrued(m, now).value, (now - m.lastAccrual) * (BorrowApy(m).value * 5) * SCALE;
              && a == m.(index := a.index, lastAccrual := now)
              && (a.index - m.index) * (10_000 * 31_536_000) <= due < (a.index - m.index + 1) * (10_000 * 31_536_000)
  {
    hide BorrowApy;
    if m.borrows != 0 && now > m.lastAccrual && Accrued(m, now).Ok? {
      var n, r := now - m.lastAccrual, BorrowApy(m).value * 5;
      MulMono(0, n, r);
      QuotBounds(n * r * SCALE, YEAR);
    }
  }

  /** With a rate to charge, accrual fails only where a number leaves 128 bits. */
  lemma AccrualSucceedsIff(m: Market, now: nat)
    requires m.borrows != 0 && now > m.lastAccrual && m.index >= 0 && BorrowApy(m).Ok?
    ensures var due := (now - m.lastAccrual) * (BorrowApy(m).value * 5);
            && (Accrued(m, now).Ok? <==> due * SCALE <= I128_MAX && m.index + due * SCALE / YEAR <= I128_MAX)
            && (Accrued(m, now).Revert? ==> Accrued(m, now).why == Overflow)
  {
    hide BorrowApy;
    var n, r := now - m.lastAccrual, BorrowApy(m).value * 5;
    MulMono(0, n, r);
    QuotBounds(n * r * SCALE, YEAR);
    DivBounds(n * r * SCALE, YEAR);
  }

  /** A new market owes and holds nothing, and interest counts from the ledger it was added in. */
  lemma NewMarketStartsNow(cfg: Config, at: nat, tokens: Ledger, borrows: int, now: nat)
    requires borrows != 0
    ensures var m := Added(cfg, at, tokens);
            && m.deposits == m.borrows == m.totalShares == 0 && m.tokens == tokens && m.cfg == cfg
            && (forall u :: Get(m.shares, u) == 0 && DebtOf(m, u) == Ok(0))
            && var lent := m.(borrows := borrows);
               && (now <= at ==> Accrued(lent, now) == Ok(lent))
               && (now > at && Accrued(lent, now).Ok? ==>
                     && BorrowApy(lent).Ok?
                     && var gain, due := Accrued(lent, now).value.index - 1_000_000_000_000_000_000,
                                         (now - at) * (BorrowApy(lent).value * 5) * SCALE;
                     gain * (10_000 * 31_536_000) <= due < (gain + 1) * (10_000 * 31_536_000))
  {
    AccrualEffects(Added(cfg, at, tokens).(borrows := borrows), now);
    hide Accrued, BorrowApy;
  }

  /** The supplier pays the pool and gets the shares. */
  lemma SupplyEffects(m: Market, user: Address, amount: int, now: nat)
    requires Supplied(m, user, amount, now).Ok?
    ensures var (m', minted) := Supplied(m, user, amount, now).value;
            && amount > 0 && AccruedFirst(m, m', now)
            && Moved(m.tokens, m'.tokens, User(user), Pool, amount)
            && Get(m'.shares, user) == Get(m.shares, user) + minted && SharesOfOthersStay(m, m', user)
            && m'.totalShares == m.totalShares + minted && m'.deposits == m.deposits + amount
            && m'.loans == m.loans && m'.borrows == m.borrows
            && (m.deposits >= 0 && m.totalShares >= 0 ==>
                  && minted * (m.deposits + VIRTUAL) <= amount * (m.totalShares + VIRTUAL)
                  && amount * (m.totalShares + VIRTUAL) < (minted + 1) * (m.deposits + VIRTUAL))
  {
    SupplyWrites(m, user, amount, now);
    AccrualOnlyRaisesIndex(m, now);
    hide Accrued, MintedShares;
    TransferConserves(m.tokens, User(user), Pool, amount);
    if m.deposits >= 0 && m.totalShares >= 0 {
      MintFloors(Accrued(m, now).value, amount);
    }
  }

  /** The pool pays the holder, who gives up the shares. */
  lemma WithdrawEffects(m: Market, user: Address, burned: int, now: nat)
    requires Withdrawn(m, user, burned, now).Ok?
    ensures var (m', paid) := Withdrawn(m, user, burned, now).value;
            && 0 < burned <= Get(m.shares, user) && AccruedFirst(m, m', now)
            && Moved(m.tokens, m'.tokens, Pool, User(user), paid)
            && Get(m'.shares, user) == Get(m.shares, user) - burned && SharesOfOthersStay(m, m', user)
            && m'.totalShares == m.totalShares && m'.deposits == m.deposits - paid
            && m'.loans == m.loans && m'.borrows == m.borrows
            && (m.deposits >= 0 && m.totalShares >= 0 ==>
                  && paid * (m.totalShares + VIRTUAL) <= burned * (m.deposits + VIRTUAL)
                  && burned * (m.deposits + VIRTUAL) < (paid + 1) * (m.totalShares + VIRTUAL))
  {
    WithdrawWrites(m, user, burned, now);
    AccrualOnlyRaisesIndex(m, now);
    hide Accrued, RedeemedAmount;
    TransferConserves(m.tokens, Pool, User(user), Withdrawn(m, user, burned, now).value.1);
    if m.deposits >= 0 && m.totalShares >= 0 {
      RedemptionFloors(Accrued(m, now).value, burned);
    }
  }

  /** The pool pays the borrower, whose loan is written anew; nobody's shares move. */
  lemma BorrowEffects(m: Market, user: Address, amount: int, checked: bool, now: nat)
    requires Borrowed(m, user, amount, checked, now).Ok?
    ensures var m' := Borrowed(m, user, amount, checked, now).value.0;
            && amount > 0 && AccruedFirst(m, m', now)
            && Moved(m.tokens, m'.tokens, Pool, User(user), amount)
            && LoanOf(m', user) == Loan(LoanOf(m, user).principal + amount, m'.index) && LoansOfOthersStay(m, m', user)
            && m'.borrows == m.borrows + amount
            && m'.shares == m.shares && m'.totalShares == m.totalShares && m'.deposits == m.deposits
  {
    BorrowWrites(m, user, amount, checked, now);
    AccrualOnlyRaisesIndex(m, now);
    TransferConserves(m.tokens, Pool, User(user), amount);
  }

  /**
   * The payer, who need not be the borrower, pays the pool exactly what is repaid:
   * the amount, or all that is owed with interest if that is less.
   */
  lemma RepayEffects(m: Market, payer: Address, borrower: Address, amount: int, now: nat)
    requires DebtsOk(m) && Repaid(m, payer, borrower, amount, now).Ok?
    ensures var (m', repaid) := Repaid(m, payer, borrower, amount, now).value;
            && amount > 0 && AccruedFirst(m, m', now) && DebtOf(Accrued(m, now).value, borrower).Ok?
            && var owed := DebtOf(Accrued(m, now).value, borrower).value;
            && 0 <= repaid <= amount && repaid <= owed && (repaid == amount || repaid == owed)
            && Moved(m.tokens, m'.tokens, User(payer), Pool, repaid)
            && LoanOf(m', borrower) == Loan(owed - repaid, m'.index) && LoansOfOthersStay(m, m', borrower)
            && m'.borrows == m.borrows - repaid
            && m'.shares == m.shares && m'.totalShares == m.totalShares && m'.deposits == m.deposits
  {
    RepayWrites(m, payer, borrower, amount, now);
    RepaidNonNegative(m, payer, borrower, amount, now);
    AccrualOnlyRaisesIndex(m, now);
    hide Accrued, DebtOf;
    var repaid := Repaid(m, payer, borrower, amount, now).value.1;
    if repaid > 0 {
      TransferConserves(m.tokens, User(payer), Pool, repaid);
    }
  }

  /** The pool's own collateral calls write one user's shares and nothing else. */
  lemma CollateralEffects(m: Market, user: Address, amount: int)
    ensures PostedCollateral(m, user, amount)
            == (if amount <= 0 then Revert(AmountNotPositive)
                else if !Fits(Get(m.shares, user) + amount) then Revert(Overflow)
                else Ok((m.(shares := m.shares[user := Get(m.shares, user) + amount]), 0)))
    ensures TookCollateral(m, user, amount)
            == (if amount <= 0 then Revert(AmountNotPositive)
                else if Get(m.shares, user) < amount then Revert(InsufficientCollateral)
                else Ok((m.(shares := m.shares[user := Get(m.shares, user) - amount]), amount)))
  {
  }

  // ---------------------------------------------------------------- refusals

  /** A supply is refused for its amount, for want of it in the supplier's wallet, or for overflow. */
  lemma SupplyRefusedIff(m: Market, user: Address, amount: int, now: nat)
    requires Accrued(m, now).Ok? && m.deposits >= 0 && m.totalShares >= 0
    ensures var r := Supplied(m, user, amount, now);
            && (r == Revert(AmountNotPositive) <==> amount <= 0)
            && (r == Revert(InsufficientBalance) <==> amount > 0 && Get(m.tokens, User(user)) < amount)
            && (r.Revert? ==> r.why in {AmountNotPositive, InsufficientBalance, Overflow})
            && (r.Ok? <==>
                  && 0 < amount <= Get(m.tokens, User(user))
                  && m.totalShares + VIRTUAL <= I128_MAX && amount * (m.totalShares + VIRTUAL) <= I128_MAX
                  && m.deposits + VIRTUAL <= I128_MAX
                  && var minted := amount * (m.totalShares + VIRTUAL) / (m.deposits + VIRTUAL);
                     && Fits(Get(m.shares, user) + minted) && m.totalShares + minted <= I128_MAX
                     && m.deposits + amount <= I128_MAX)
  {
    AccrualOnlyRaisesIndex(m, now);
    hide Accrued;
    if amount > 0 {
      TransferSucceedsIff(m.tokens, User(user), Pool, amount);
      MintIsQuotient(Accrued(m, now).value, amount);
      hide MintedShares, Transfer;
    }
  }

  lemma MintIsQuotient(m: Market, amount: int)
    requires amount > 0 && m.deposits >= 0 && m.totalShares >= 0
    ensures MintedShares(m, amount)
            == if m.totalShares + VIRTUAL <= I128_MAX && amount * (m.totalShares + VIRTUAL) <= I128_MAX
                  && m.deposits + VIRTUAL <= I128_MAX
               then Ok(amount * (m.totalShares + VIRTUAL) / (m.deposits + VIRTUAL)) else Revert(Overflow)
    ensures amount * (m.totalShares + VIRTUAL) / (m.deposits + VIRTUAL) >= 0
  {
    MulMono(0, amount, m.totalShares + VIRTUAL);
    QuotBounds(amount * (m.totalShares + VIRTUAL), m.deposits + VIRTUAL);
  }

  lemma RedemptionIsQuotient(m: Market, burned: int)
    requires burned > 0 && m.deposits >= 0 && m.totalShares >= 0
    ensures RedeemedAmount(m, burned)
            == if m.deposits + VIRTUAL <= I128_MAX && burned * (m.deposits + VIRTUAL) <= I128_MAX
                  && m.totalShares + VIRTUAL <= I128_MAX
               then Ok(burned * (m.deposits + VIRTUAL) / (m.totalShares + VIRTUAL)) else Revert(Overflow)
    ensures burned * (m.deposits + VIRTUAL) / (m.totalShares + VIRTUAL) >= 0
  {
    MulMono(0, burned, m.deposits + VIRTUAL);
    QuotBounds(burned * (m.deposits + VIRTUAL), m.totalShares + VIRTUAL);
  }

  /** A withdrawal is refused for its amount, for want of shares, for want of cash, or for overflow. */
  lemma WithdrawRefusedIff(m: Market, user: Address, burned: int, now: nat)
    requires Accrued(m, now).Ok? && 0 <= m.deposits <= I128_MAX && m.totalShares >= 0
    ensures var r := Withdrawn(m, user, burned, now);
            && (r == Revert(AmountNotPositive) <==> burned <= 0)
            && (r == Revert(InsufficientShares) <==> burned > 0 && Get(m.shares, user) < burned)
            && (r.Revert? ==> r.why in {AmountNotPositive, InsufficientShares, InsufficientBalance, Overflow})
            && (r.Ok? <==>
                  && 0 < burned <= Get(m.shares, user)
                  && m.deposits + VIRTUAL <= I128_MAX && burned * (m.deposits + VIRTUAL) <= I128_MAX
                  && m.totalShares + VIRTUAL <= I128_MAX
                  && var paid := burned * (m.deposits + VIRTUAL) / (m.totalShares + VIRTUAL);
                     paid <= Get(m.tokens, Pool) && Fits(m.deposits - paid))
  {
    AccrualOnlyRaisesIndex(m, now);
    hide Accrued;
    if burned > 0 {
      var a := Accrued(m, now).value;
      RedemptionIsQuotient(a, burned);
      if RedeemedAmount(a, burned).Ok? {
        TransferSucceedsIff(m.tokens, Pool, User(user), RedeemedAmount(a, burned).value);
      }
      hide RedeemedAmount, Transfer;
    }
  }

  /**
   * A borrow is refused for its amount, for shares that do not cover the debt with
   * it, for want of cash in the pool, or for overflow.
   */
  lemma BorrowRefusedIff(m: Market, user: Address, amount: int, checked: bool, now: nat)
    requires DebtsOk(m) && Accrued(m, now).Ok? && DebtOf(Accrued(m, now).value, user).Ok?
    ensures var r, debt := Borrowed(m, user, amount, checked, now), DebtOf(Accrued(m, now).value, user).value + amount;
            && (r == Revert(AmountNotPositive) <==> amount <= 0)
            && (r == Revert(HealthFactorTooLow)
                <==> amount > 0 && checked && debt <= I128_MAX && Get(m.shares, user) < debt)
            && (r.Revert? ==> r.why in {AmountNotPositive, HealthFactorTooLow, InsufficientBalance, Overflow})
            && (r.Ok? <==>
                  && 0 < amount <= Get(m.tokens, Pool)
                  && (checked ==> debt <= I128_MAX && debt <= Get(m.shares, user))
                  && LoanOf(m, user).principal + amount <= I128_MAX && Fits(m.borrows + amount))
  {
    AccrualOnlyRaisesIndex(m, now);
    AccrualKeepsDebts(m, now);
    var a := Accrued(m, now).value;
    assert LoanOk(a, user);
    DebtAtLeastPrincipal(a, user);
    hide Accrued, DebtOf;
    if amount > 0 {
      TransferSucceedsIff(m.tokens, Pool, User(user), amount);
      hide Transfer;
    }
  }

  /** A repayment is refused for its amount, for want of what it takes in the payer's wallet, or for overflow. */
  lemma RepayRefusedIff(m: Market, payer: Address, borrower: Address, amount: int, now: nat)
    requires DebtsOk(m) && Accrued(m, now).Ok? && DebtOf(Accrued(m, now).value, borrower).Ok?
    requires NoOverdraft(m.tokens)
    ensures var r, repaid := Repaid(m, payer, borrower, amount, now),
                             Min(amount, DebtOf(Accrued(m, now).value, borrower).value);
            && (r == Revert(AmountNotPositive) <==> amount <= 0)
            && (r == Revert(InsufficientBalance) <==> amount > 0 && Get(m.tokens, User(payer)) < repaid)
            && (r.Revert? ==> r.why in {AmountNotPositive, InsufficientBalance, Overflow})
            && (r.Ok? <==> amount > 0 && repaid <= Get(m.tokens, User(payer)) && Fits(m.borrows - repaid))
  {
    AccrualOnlyRaisesIndex(m, now);
    AccrualKeepsDebts(m, now);
    var a := Accrued(m, now).value;
    assert LoanOk(a, borrower);
    DebtAtLeastPrincipal(a, borrower);
    hide Accrued, DebtOf;
    var repaid := Min(amount, DebtOf(a, borrower).value);
    TransferSucceedsIff(m.tokens, User(payer), Pool, repaid);
    assert Get(m.tokens, User(payer)) >= 0;
    hide Transfer;
  }
}
