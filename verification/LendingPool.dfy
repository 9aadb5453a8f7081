/**
 * The lending pool for one configured asset, with token transfers on. Every
 * storage key but the asset list carries the asset, so a pool is one `Market`
 * per asset; the ledger of the asset's token travels with it.
 */
module LendingPool {
  import opened Host
  import opened Totals
  import opened Token

  const SCALE: int := 1_000_000_000_000_000_000
  /** VIRTUAL_SHARES and VIRTUAL_DEPOSIT, which are equal. */
  const VIRTUAL: int := 1_000_000
  /** 10_000 basis points times the seconds of a year. */
  const YEAR: int := 10_000 * 31_536_000
  const TWO32: int := 0x1_0000_0000
  const TWO64: int := 0x1_0000_0000_0000_0000

  datatype Config = Config(baseRate: nat, slope1: nat, slope2: nat, kink: nat, ltv: nat)

  datatype Loan = Loan(principal: int, index: int)

  datatype Market = Market(
    cfg: Config,
    deposits: int,
    borrows: int,
    index: int,
    lastAccrual: nat,
    shares: map<Address, int>,
    totalShares: int,
    loans: map<Address, Loan>,
    tokens: Ledger)

  /** `add_asset` for an asset not seen before. */
  function Added(cfg: Config, now: nat, tokens: Ledger): Market {
    Market(cfg, 0, 0, SCALE, now, map[], 0, map[], tokens)
  }

  // ---------------------------------------------------------------- interest

  function U32(x: nat): Result<nat> {
    if x < TWO32 then Ok(x) else Revert(Overflow)
  }

  /** `x as u64` keeps the low 64 bits, also of a negative number. */
  function AsU64(x: int): nat {
    x % TWO64
  }

  function Utilization(deposits: int, borrows: int): (r: Result<nat>)
    ensures r.Ok? ==> r.value <= 10_000
  {
    if deposits == 0 then Ok(0)
    else
      var b, d := AsU64(borrows), AsU64(deposits);
      if Min(b, d) * 10_000 >= TWO64 then Revert(Overflow)
      else if d == 0 then Revert(DivisionByZero)
      else
        QuotBounds(Min(b, d) * 10_000, d);
        MulCancel(Quot(Min(b, d) * 10_000, d), 10_000, d);
        Ok(Quot(Min(b, d) * 10_000, d))
  }

  /** `borrow_apy_bps` as a function of the utilization. */
  function RateAt(cfg: Config, u: nat): (r: Result<nat>)
    requires u <= 10_000
  {
    if u <= cfg.kink then
      var slope :- U32(cfg.slope1 * u);
      QuotBounds(slope, Max(cfg.kink, 1));
      U32(cfg.baseRate + Quot(slope, Max(cfg.kink, 1)))
    else
      var knee :- U32(cfg.baseRate + cfg.slope1);
      var slope :- U32(Steep(cfg, u));
      QuotBounds(slope, Max(10_000 - cfg.kink, 1));
      U32(knee + Quot(slope, Max(10_000 - cfg.kink, 1)))
  }

  function Steep(cfg: Config, u: nat): nat
    requires u > cfg.kink
  {
    MulMono(0, u - cfg.kink, cfg.slope2);
    cfg.slope2 * (u - cfg.kink)
  }

  function BorrowApy(m: Market): Result<nat> {
    var u :- Utilization(m.deposits, m.borrows);
    RateAt(m.cfg, u)
  }

  /** Growth of the index over `ledgers` at `apy` basis points. */
  function Growth(ledgers: nat, apy: nat): Result<int> {
    var raw :- Checked(ledgers * (apy * 5));
    var scaled :- Checked(raw * SCALE);
    Ok(Quot(scaled, YEAR))
  }

  /** `accrue_interest` */
  function Accrued(m: Market, now: nat): Result<Market> {
    if m.borrows == 0 || now <= m.lastAccrual then Ok(m)
    else
      var apy :- BorrowApy(m);
      var growth :- Growth(now - m.lastAccrual, apy);
      var index :- Checked(m.index + growth);
      Ok(m.(index := index, lastAccrual := now))
  }

  function LoanOf(m: Market, user: Address): Loan {
    if user in m.loans then m.loans[user] else Loan(0, SCALE)
  }

  function DebtOf(m: Market, user: Address): Result<int> {
    var loan := LoanOf(m, user);
    if loan.principal == 0 then Ok(0)
    else
      var grown :- Checked(loan.principal * m.index);
      Ok(Quot(grown, Max(loan.index, 1)))
  }

  // ---------------------------------------------------------------- entry points

  function MintedShares(m: Market, amount: int): Result<int> {
    var s :- Checked(m.totalShares + VIRTUAL);
    var raw :- Checked(amount * s);
    var d :- Checked(m.deposits + VIRTUAL);
    Ok(Quot(raw, Max(d, 1)))
  }

  function RedeemedAmount(m: Market, shares: int): Result<int> {
    var d :- Checked(m.deposits + VIRTUAL);
    var raw :- Checked(shares * d);
    var s :- Checked(m.totalShares + VIRTUAL);
    Ok(Quot(raw, Max(s, 1)))
  }

  function Supplied(m: Market, user: Address, amount: int, now: nat): Result<(Market, int)> {
    if amount <= 0 then Revert(AmountNotPositive)
    else
      var a :- Accrued(m, now);
      var tokens :- Transfer(a.tokens, User(user), Pool, amount);
      var minted :- MintedShares(a, amount);
      var held :- Checked(Get(a.shares, user) + minted);
      var total :- Checked(a.totalShares + minted);
      var deposits :- Checked(a.deposits + amount);
      Ok((a.(tokens := tokens, shares := a.shares[user := held], totalShares := total, deposits := deposits), minted))
  }

  function Withdrawn(m: Market, user: Address, shares: int, now: nat): Result<(Market, int)> {
    if shares <= 0 then Revert(AmountNotPositive)
    else
      var a :- Accrued(m, now);
      if Get(a.shares, user) < shares then Revert(InsufficientShares)
      else
        var amount :- RedeemedAmount(a, shares);
        var tokens :- Transfer(a.tokens, Pool, User(user), amount);
        var deposits :- Checked(a.deposits - amount);
        Ok((a.(tokens := tokens, shares := a.shares[user := Get(a.shares, user) - shares], deposits := deposits),
            amount))
  }

  /** The pool's own `supply_collateral`, which writes the share key. */
  function PostedCollateral(m: Market, user: Address, amount: int): Result<(Market, int)> {
    if amount <= 0 then Revert(AmountNotPositive)
    else
      var held :- Checked(Get(m.shares, user) + amount);
      Ok((m.(shares := m.shares[user := held]), 0))
  }

  /** The pool's own `withdraw_collateral`. */
  function TookCollateral(m: Market, user: Address, amount: int): Result<(Market, int)> {
    if amount <= 0 then Revert(AmountNotPositive)
    else if Get(m.shares, user) < amount then Revert(InsufficientCollateral)
    else Ok((m.(shares := m.shares[user := Get(m.shares, user) - amount]), amount))
  }

  /** `borrow_internal`; `checked` is its `check_hf`. */
  function Borrowed(m: Market, user: Address, amount: int, checked: bool, now: nat): Result<(Market, int)> {
    if amount <= 0 then Revert(AmountNotPositive)
    else
      var a :- Accrued(m, now);
      var allowed :- BorrowAllowed(a, user, amount, checked);
      if !allowed then Revert(HealthFactorTooLow)
      else
        var tokens :- Transfer(a.tokens, Pool, User(user), amount);
        var principal :- Checked(LoanOf(a, user).principal + amount);
        var borrows :- Checked(a.borrows + amount);
        Ok((a.(tokens := tokens, loans := a.loans[user := Loan(principal, a.index)], borrows := borrows), 0))
  }

  function BorrowAllowed(a: Market, user: Address, amount: int, checked: bool): Result<bool> {
    if !checked then Ok(true)
    else
      var debt :- DebtOf(a, user);
      var total :- Checked(debt + amount);
      Ok(!(total > 0 && Get(a.shares, user) < total))
  }

  /** `repay_internal` */
  function Repaid(m: Market, payer: Address, borrower: Address, amount: int, now: nat): Result<(Market, int)> {
    if amount <= 0 then Revert(AmountNotPositive)
    else
      var a :- Accrued(m, now);
      var owed :- DebtOf(a, borrower);
      var repaid := if amount >= owed then owed else amount;
      var tokens :- if repaid > 0 then Transfer(a.tokens, User(payer), Pool, repaid) else Ok(a.tokens);
      var borrows :- Checked(a.borrows - repaid);
      Ok((a.(tokens := tokens, loans := a.loans[borrower := Loan(owed - repaid, a.index)], borrows := borrows), repaid))
  }

  function After(m: Market, r: Result<(Market, int)>): Market {
    if r.Ok? then r.value.0 else m
  }

  function Answer(r: Result<(Market, int)>): Result<int> {
    if r.Ok? then Ok(r.value.1) else Revert(r.why)
  }

  class LendingPoolContract {
    const cfg: Config
    var deposits: int
    var borrows: int
    var index: int
    var lastAccrual: nat
    var shares: map<Address, int>
    var totalShares: int
    var loans: map<Address, Loan>
    var tokens: Ledger

    constructor (cfg: Config, now: nat, tokens: Ledger)
      ensures Storage() == Added(cfg, now, tokens)
    {
      this.cfg, this.tokens := cfg, tokens;
      deposits, borrows, index, lastAccrual := 0, 0, SCALE, now;
      shares, totalShares, loans := map[], 0, map[];
    }

    function Storage(): Market
      reads this
    {
      Market(cfg, deposits, borrows, index, lastAccrual, shares, totalShares, loans, tokens)
    }

    method Undo(m: Market)
      requires m.cfg == cfg
      modifies this
      ensures Storage() == m
    {
      deposits, borrows, index, lastAccrual := m.deposits, m.borrows, m.index, m.lastAccrual;
      shares, totalShares, loans, tokens := m.shares, m.totalShares, m.loans, m.tokens;
    }

    method AccrueInterest(now: nat) returns (r: Result<int>)
      modifies this
      ensures r == (if Accrued(old(Storage()), now).Ok? then Ok(0) else Revert(Accrued(old(Storage()), now).why))
      ensures Storage() == if r.Ok? then Accrued(old(Storage()), now).value else old(Storage())
    {
      if borrows == 0 {
        return Ok(0);
      }
      if now <= lastAccrual {
        return Ok(0);
      }
      var ledgers := now - lastAccrual;
      var apy :- BorrowApy(Storage());
      var growth :- Growth(ledgers, apy);
      var next :- Checked(index + growth);
      index := next;
      lastAccrual := now;
      return Ok(0);
    }

    method Supply(user: Address, amount: int, now: nat) returns (r: Result<int>)
      modifies this
      ensures r == Answer(Supplied(old(Storage()), user, amount, now))
      ensures Storage() == After(old(Storage()), Supplied(old(Storage()), user, amount, now))
    {
      hide Accrued;
      var before := Storage();
      if amount <= 0 {
        return Revert(AmountNotPositive);
      }
      var accrual :- AccrueInterest(now);
      var paid := Transfer(tokens, User(user), Pool, amount);
      if paid.Revert? {
        Undo(before);
        return Revert(paid.why);
      }
      tokens := paid.value;
      var totalD, total := deposits, totalShares;
      var minted := MintedShares(Storage(), amount);
      if minted.Revert? {
        Undo(before);
        return minted;
      }
      if !Fits(Get(shares, user) + minted.value) || !Fits(total + minted.value) || !Fits(totalD + amount) {
        Undo(before);
        return Revert(Overflow);
      }
      shares := shares[user := Get(shares, user) + minted.value];
      totalShares := total + minted.value;
      deposits := totalD + amount;
      return minted;
    }

    method Withdraw(user: Address, burned: int, now: nat) returns (r: Result<int>)
      modifies this
      ensures r == Answer(Withdrawn(old(Storage()), user, burned, now))
      ensures Storage() == After(old(Storage()), Withdrawn(old(Storage()), user, burned, now))
    {
      var before := Storage();
      if burned <= 0 {
        return Revert(AmountNotPositive);
      }
      var accrual :- AccrueInterest(now);
      var held := Get(shares, user);
      if held < burned {
        Undo(before);
        return Revert(InsufficientShares);
      }
      var totalD := deposits;
      var amount := RedeemedAmount(Storage(), burned);
      if amount.Revert? {
        Undo(before);
        return amount;
      }
      var paid := Transfer(tokens, Pool, User(user), amount.value);
      if paid.Revert? {
        Undo(before);
        return Revert(paid.why);
      }
      tokens := paid.value;
      if !Fits(totalD - amount.value) {
        Undo(before);
        return Revert(Overflow);
      }
      shares := shares[user := held - burned];
      deposits := totalD - amount.value;
      return amount;
    }

    method Borrow(user: Address, amount: int, checkHf: bool, now: nat) returns (r: Result<int>)
      modifies this
      ensures r == Answer(Borrowed(old(Storage()), user, amount, checkHf, now))
      ensures Storage() == After(old(Storage()), Borrowed(old(Storage()), user, amount, checkHf, now))
    {
      hide BorrowAllowed, Accrued;
      var before := Storage();
      if amount <= 0 {
        return Revert(AmountNotPositive);
      }
      var accrual :- AccrueInterest(now);
      var allowed := BorrowAllowed(Storage(), user, amount, checkHf);
      if allowed.Revert? || !allowed.value {
        Undo(before);
        return Revert(if allowed.Revert? then allowed.why else HealthFactorTooLow);
      }
      var paid := Transfer(tokens, Pool, User(user), amount);
      if paid.Revert? {
        Undo(before);
        return Revert(paid.why);
      }
      tokens := paid.value;
      var snap := if user in loans then loans[user] else Loan(0, index);
      if !Fits(snap.principal + amount) || !Fits(borrows + amount) {
        Undo(before);
        return Revert(Overflow);
      }
      loans := loans[user := Loan(snap.principal + amount, index)];
      borrows := borrows + amount;
      return Ok(0);
    }

    method Repay(payer: Address, borrower: Address, amount: int, now: nat) returns (r: Result<int>)
      modifies this
      ensures r == Answer(Repaid(old(Storage()), payer, borrower, amount, now))
      ensures Storage() == After(old(Storage()), Repaid(old(Storage()), payer, borrower, amount, now))
    {
      var before := Storage();
      if amount <= 0 {
        return Revert(AmountNotPositive);
      }
      var accrual :- AccrueInterest(now);
      var owed := DebtOf(Storage(), borrower);
      if owed.Revert? {
        Undo(before);
        return owed;
      }
      var repaid := if amount >= owed.value then owed.value else amount;
      if repaid > 0 {
        var paid := Transfer(tokens, User(payer), Pool, repaid);
        if paid.Revert? {
          Undo(before);
          return Revert(paid.why);
        }
        tokens := paid.value;
      }
      loans := loans[borrower := Loan(owed.value - repaid, index)];
      if !Fits(borrows - repaid) {
        Undo(before);
        return Revert(Overflow);
      }
      borrows := borrows - repaid;
      return Ok(repaid);
    }

    method PostCollateral(user: Address, amount: int) returns (r: Result<int>)
      modifies this
      ensures r == Answer(PostedCollateral(old(Storage()), user, amount))
      ensures Storage() == After(old(Storage()), PostedCollateral(old(Storage()), user, amount))
    {
      if amount <= 0 {
        return Revert(AmountNotPositive);
      }
      var held :- Checked(Get(shares, user) + amount);
      shares := shares[user := held];
      return Ok(0);
    }

    method TakeCollateral(user: Address, amount: int) returns (r: Result<int>)
      modifies this
      ensures r == Answer(TookCollateral(old(Storage()), user, amount))
      ensures Storage() == After(old(Storage()), TookCollateral(old(Storage()), user, amount))
    {
      if amount <= 0 {
        return Revert(AmountNotPositive);
      }
      var held := Get(shares, user);
      if held < amount {
        return Revert(InsufficientCollateral);
      }
      shares := shares[user := held - amount];
      return Ok(amount);
    }
  }
}
