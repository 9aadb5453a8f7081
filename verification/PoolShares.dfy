/** Deposit shares of one pool market, over runs without the pool's own collateral calls. */
module PoolShares {
  import opened Host
  import opened Totals
  import opened Token
  import opened LendingPool
  import opened PoolRuns

  /**
   * With `o` outstanding shares: no more than the recorded total, and together
   * redeemable from the recorded deposits at the virtual-offset price.
   */
  predicate Backed(o: int, m: Market) {
    0 <= o <= m.totalShares && 0 <= m.deposits && o * (m.deposits + VIRTUAL) <= m.deposits * (m.totalShares + VIRTUAL)
  }

  ghost predicate SharesOk(m: Market) {
    Backed(Sum(m.shares), m) && forall u :: Get(m.shares, u) >= 0
  }

  lemma NewSharesExpand(o: int, d: int, t: int, a: int, m: int, v: int, d0: int)
    requires d == d0 + v
    ensures (o * a + v * m) * d == (o * d) * a + v * (m * d)
    ensures a * t * d == (d0 * t) * a + v * (a * t)
  {
  }

  /** New claims on old deposits, and the virtual part of the new shares, fit in the new deposit. */
  lemma NewSharesFit(o: int, d0: int, t: int, a: int, m: int, v: int)
    requires v > 0 && a > 0 && d0 >= 0
    requires o * (d0 + v) <= d0 * t && m * (d0 + v) <= a * t
    ensures o * a + v * m <= a * t
  {
    var d := d0 + v;
    MulMono(o * d, d0 * t, a);
    MulMono(m * d, a * t, v);
    NewSharesExpand(o, d, t, a, m, v, d0);
    MulCancel(o * a + v * m, a * t, d);
  }

  lemma SupplyCross(o: int, d0: int, t: int, a: int, m: int, v: int)
    requires o * (d0 + v) <= d0 * t && o * a + v * m <= a * t
    ensures (o + m) * (d0 + a + v) <= (d0 + a) * (t + m)
  {
    assert (o + m) * (d0 + a + v) == o * (d0 + v) + (o * a + v * m) + m * (d0 + a);
    assert (d0 + a) * (t + m) == d0 * t + a * t + m * (d0 + a);
  }

  lemma SupplyStaysBacked(o: int, m: Market, amount: int, minted: int, m': Market)
    requires Backed(o, m) && amount > 0 && minted >= 0
    requires minted * (m.deposits + VIRTUAL) <= amount * (m.totalShares + VIRTUAL)
    requires m'.deposits == m.deposits + amount && m'.totalShares == m.totalShares + minted
    ensures Backed(o + minted, m')
  {
    NewSharesFit(o, m.deposits, m.totalShares + VIRTUAL, amount, minted, VIRTUAL);
    SupplyCross(o, m.deposits, m.totalShares + VIRTUAL, amount, minted, VIRTUAL);
  }

  lemma WithdrawStaysBacked(o: int, m: Market, burned: int, amount: int, m': Market)
    requires Backed(o, m) && 0 <= burned <= o && amount >= 0
    requires amount * (m.totalShares + VIRTUAL) <= burned * (m.deposits + VIRTUAL)
    requires m'.deposits == m.deposits - amount && m'.totalShares == m.totalShares
    ensures amount <= m.deposits && Backed(o - burned, m')
  {
    var d, t := m.deposits + VIRTUAL, m.totalShares + VIRTUAL;
    MulMono(burned, o, d);
    MulCancel(amount, m.deposits, t);
    MulMono(0, amount, o - burned);
    assert (o - burned) * (d - amount) == o * d - burned * d - (o - burned) * amount;
    assert m'.deposits * t == m.deposits * t - amount * t;
  }

  /** Minted shares are the deposit at the virtual-offset price, rounded down by less than one share. */
  lemma MintFloors(m: Market, amount: int)
    requires amount > 0 && m.deposits >= 0 && m.totalShares >= 0 && MintedShares(m, amount).Ok?
    ensures var minted := MintedShares(m, amount).value;
            && minted >= 0 && minted * (m.deposits + VIRTUAL) <= amount * (m.totalShares + VIRTUAL)
            && amount * (m.totalShares + VIRTUAL) < (minted + 1) * (m.deposits + VIRTUAL)
  {
    MulMono(0, amount, m.totalShares + VIRTUAL);
    QuotBounds(amount * (m.totalShares + VIRTUAL), m.deposits + VIRTUAL);
  }

  /** A redemption is the shares at the virtual-offset price, rounded down by less than one unit. */
  lemma RedemptionFloors(m: Market, burned: int)
    requires burned > 0 && m.deposits >= 0 && m.totalShares >= 0 && RedeemedAmount(m, burned).Ok?
    ensures var amount := RedeemedAmount(m, burned).value;
            && amount >= 0 && amount * (m.totalShares + VIRTUAL) <= burned * (m.deposits + VIRTUAL)
            && burned * (m.deposits + VIRTUAL) < (amount + 1) * (m.totalShares + VIRTUAL)
  {
    MulMono(0, burned, m.deposits + VIRTUAL);
    QuotBounds(burned * (m.deposits + VIRTUAL), m.totalShares + VIRTUAL);
  }

  predicate SharesOnly(c: Call) {
    !c.PostCollateral? && !c.TakeCollateral?
  }

  lemma SupplyWrites(m: Market, user: Address, amount: int, now: nat)
    requires Supplied(m, user, amount, now).Ok?
    ensures amount > 0 && Accrued(m, now).Ok?
    ensures var a, r := Accrued(m, now).value, Supplied(m, user, amount, now).value;
            && MintedShares(a, amount) == Ok(r.1)
            && r.0 == a.(tokens := r.0.tokens, shares := a.shares[user := Get(a.shares, user) + r.1],
                         totalShares := a.totalShares + r.1, deposits := a.deposits + amount)
  {
  }

  lemma WithdrawWrites(m: Market, user: Address, burned: int, now: nat)
    requires Withdrawn(m, user, burned, now).Ok?
    ensures Accrued(m, now).Ok? && 0 < burned <= Get(Accrued(m, now).value.shares, user)
    ensures var a, r := Accrued(m, now).value, Withdrawn(m, user, burned, now).value;
            && RedeemedAmount(a, burned) == Ok(r.1)
            && r.0 == a.(tokens := r.0.tokens, shares := a.shares[user := Get(a.shares, user) - burned],
                         deposits := a.deposits - r.1)
  {
  }

  lemma ShareWriteKeepsSign(shares: map<Address, int>, user: Address, held: int)
    requires held >= 0 && forall u :: Get(shares, u) >= 0
    ensures var shares' := shares[user := held];
            (forall u :: Get(shares', u) >= 0) && Sum(shares') == Sum(shares) - Get(shares, user) + held
  {
    SumSet(shares, user, held);
    var shares' := shares[user := held];
    forall u ensures Get(shares', u) >= 0 {
      assert Get(shares, u) >= 0;
    }
  }

  lemma SupplyKeepsShares(m: Market, user: Address, amount: int, now: nat)
    requires SharesOk(m) && Supplied(m, user, amount, now).Ok?
    ensures SharesOk(Supplied(m, user, amount, now).value.0)
  {
    var r := Supplied(m, user, amount, now).value;
    SupplyWrites(m, user, amount, now);
    AccrualOnlyRaisesIndex(m, now);
    var a := Accrued(m, now).value;
    MintFloors(a, amount);
    SupplyStaysBacked(Sum(m.shares), a, amount, r.1, r.0);
    ShareWriteKeepsSign(m.shares, user, Get(m.shares, user) + r.1);
  }

  lemma WithdrawKeepsShares(m: Market, user: Address, burned: int, now: nat)
    requires SharesOk(m) && Withdrawn(m, user, burned, now).Ok?
    ensures SharesOk(Withdrawn(m, user, burned, now).value.0)
  {
    var r := Withdrawn(m, user, burned, now).value;
    WithdrawWrites(m, user, burned, now);
    AccrualOnlyRaisesIndex(m, now);
    var a := Accrued(m, now).value;
    RedemptionFloors(a, burned);
    EntryAtMostSum(m.shares, user);
    WithdrawStaysBacked(Sum(m.shares), a, burned, r.1, r.0);
    ShareWriteKeepsSign(m.shares, user, Get(m.shares, user) - burned);
  }

  /** Everything but supplying and withdrawing leaves the share book alone. */
  lemma OtherCallsKeepShares(m: Market, c: Call, now: nat)
    requires SharesOnly(c) && !c.Wait? && !c.Supply? && !c.Withdraw? && Apply(m, c, now).Ok?
    ensures var m' := Apply(m, c, now).value.0;
            m'.shares == m.shares && m'.totalShares == m.totalShares && m'.deposits == m.deposits
  {
    if !c.Donate? {
      AccrualOnlyRaisesIndex(m, now);
    }
    if c.Borrow? || c.BorrowRaw? {
      BorrowWrites(m, c.user, c.amount, c.Borrow?, now);
    } else if c.Repay? {
      RepayWrites(m, c.payer, c.borrower, c.amount, now);
    }
  }

  lemma StepKeepsShares(w: World, c: Call)
    requires SharesOk(w.market) && SharesOnly(c)
    ensures SharesOk(Step(w, c).market)
  {
    if !c.Wait? && Apply(w.market, c, w.now).Ok? {
      if c.Supply? {
        SupplyKeepsShares(w.market, c.user, c.amount, w.now);
      } else if c.Withdraw? {
        WithdrawKeepsShares(w.market, c.user, c.burned, w.now);
      } else {
        OtherCallsKeepShares(w.market, c, w.now);
      }
    }
  }

  lemma {:induction false} RunKeepsShares(w: World, cs: seq<Call>)
    requires SharesOk(w.market) && forall i :: 0 <= i < |cs| ==> SharesOnly(cs[i])
    ensures SharesOk(Run(w, cs).market)
    decreases cs
  {
    if cs != [] {
      StepKeepsShares(w, cs[0]);
      assert forall i :: 0 <= i < |cs[1..]| ==> cs[1..][i] == cs[i + 1];
      RunKeepsShares(Step(w, cs[0]), cs[1..]);
    }
  }

  /** In every run the outstanding shares stay redeemable together and deposits never go negative. */
  lemma {:induction false} ShareSolvency(cfg: Config, at: nat, tokens: Ledger, cs: seq<Call>)
    requires forall i :: 0 <= i < |cs| ==> SharesOnly(cs[i])
    ensures var m := Run(Start(cfg, at, tokens), cs).market;
            && 0 <= Sum(m.shares) <= m.totalShares
            && 0 <= m.deposits
            && Sum(m.shares) * (m.deposits + VIRTUAL) <= m.deposits * (m.totalShares + VIRTUAL)
  {
    RunKeepsShares(Start(cfg, at, tokens), cs);
  }

  /**
   * In a reachable state a holder who redeems no more than they hold is refused
   * only by arithmetic limits or for lack of cash, and for lack of cash exactly
   * when the redemption exceeds what is deposited and not lent out.
   */
  lemma {:induction false} RedemptionNeedsOnlyCash(cfg: Config, at: nat, tokens: Ledger, cs: seq<Call>, user: Address,
                                                   burned: int)
    requires Clean(tokens) && forall i :: 0 <= i < |cs| ==> SharesOnly(cs[i])
    requires 0 < burned <= Get(Run(Start(cfg, at, tokens), cs).market.shares, user)
    ensures var w := Run(Start(cfg, at, tokens), cs);
            var r := Withdrawn(w.market, user, burned, w.now);
            && (r.Ok? || r.why in {Overflow, DivisionByZero, InsufficientBalance})
            && (Accrued(w.market, w.now).Ok? && RedeemedAmount(Accrued(w.market, w.now).value, burned).Ok? ==>
                  var amount := RedeemedAmount(Accrued(w.market, w.now).value, burned).value;
                  && amount <= w.market.deposits
                  && (r == Revert(InsufficientBalance) <==> amount > w.market.deposits - w.market.borrows + w.donated))
  {
    var w := Run(Start(cfg, at, tokens), cs);
    Reachable(cfg, at, tokens, cs);
    RunKeepsShares(Start(cfg, at, tokens), cs);
    var acc := Accrued(w.market, w.now);
    if acc.Ok? {
      AccrualOnlyRaisesIndex(w.market, w.now);
      var a := acc.value;
      if RedeemedAmount(a, burned).Ok? {
        RedemptionFloors(a, burned);
        EntryAtMostSum(a.shares, user);
        WithdrawStaysBacked(Sum(a.shares), a, burned, RedeemedAmount(a, burned).value,
                            a.(deposits := a.deposits - RedeemedAmount(a, burned).value));
      }
    }
  }

  /**
   * A withdrawal does not lower the recorded total of shares, so it lowers the
   * price of everybody else's: strictly, exactly when the shares are worth a
   * whole unit. Prices are compared by cross-multiplying deposits over total
   * shares.
   */
  lemma WithdrawalLowersThePrice(m: Market, user: Address, burned: int, now: nat)
    requires m.deposits >= 0 && m.totalShares >= 0 && Withdrawn(m, user, burned, now).Ok?
    ensures var r := Withdrawn(m, user, burned, now).value;
            && (r.0.deposits + VIRTUAL) * (m.totalShares + VIRTUAL)
               <= (m.deposits + VIRTUAL) * (r.0.totalShares + VIRTUAL)
            && ((r.0.deposits + VIRTUAL) * (m.totalShares + VIRTUAL)
                < (m.deposits + VIRTUAL) * (r.0.totalShares + VIRTUAL)
                <==> burned * (m.deposits + VIRTUAL) >= m.totalShares + VIRTUAL)
  {
    var r := Withdrawn(m, user, burned, now).value;
    WithdrawWrites(m, user, burned, now);
    AccrualOnlyRaisesIndex(m, now);
    RedemptionFloors(Accrued(m, now).value, burned);
    var t := m.totalShares + VIRTUAL;
    assert (m.deposits - r.1 + VIRTUAL) * t == (m.deposits + VIRTUAL) * t - r.1 * t;
    if r.1 > 0 {
      MulMono(1, r.1, t);
    } else {
      assert r.1 == 0;
    }
  }

  /** While nothing is lent and nobody has withdrawn, shares mint one for one. */
  lemma SupplyAtPar(m: Market, user: Address, amount: int)
    requires m.borrows == 0 && 0 <= m.deposits == m.totalShares && Get(m.shares, user) >= 0
    requires 0 < amount <= Get(m.tokens, User(user)) && amount * (m.deposits + VIRTUAL) <= I128_MAX
    requires m.deposits + amount + VIRTUAL <= I128_MAX && Get(m.shares, user) + amount <= I128_MAX
    requires Transfer(m.tokens, User(user), Pool, amount).Ok?
    ensures var r := Supplied(m, user, amount, 0);
            && r.Ok? && r.value.1 == amount
            && r.value.0.borrows == 0
            && r.value.0.deposits == r.value.0.totalShares == m.deposits + amount
            && r.value.0.shares == m.shares[user := Get(m.shares, user) + amount]
            && r.value.0.tokens == Transfer(m.tokens, User(user), Pool, amount).value
            && r.value.0.cfg == m.cfg && r.value.0.index == m.index && r.value.0.lastAccrual == m.lastAccrual
               && r.value.0.loans == m.loans
  {
    var s := m.deposits + VIRTUAL;
    MulMono(0, amount, s);
    QuotUnique(amount * s, s, amount);
    assert MintedShares(m, amount) == Ok(amount);
  }

  lemma WithdrawAtPar(m: Market, user: Address, burned: int)
    requires m.borrows == 0 && 0 <= m.deposits == m.totalShares
    requires 0 < burned <= m.deposits && burned <= Get(m.shares, user) && burned * (m.deposits + VIRTUAL) <= I128_MAX
    requires m.deposits + VIRTUAL <= I128_MAX && Transfer(m.tokens, Pool, User(user), burned).Ok?
    ensures var r := Withdrawn(m, user, burned, 0);
            && r.Ok? && r.value.1 == burned
            && r.value.0 == m.(tokens := Transfer(m.tokens, Pool, User(user), burned).value,
                               shares := m.shares[user := Get(m.shares, user) - burned],
                               deposits := m.deposits - burned)
  {
    var s := m.deposits + VIRTUAL;
    MulMono(0, burned, s);
    QuotUnique(burned * s, s, burned);
    assert RedeemedAmount(m, burned) == Ok(burned);
  }

  /** Two depositors of `n` units each, before anybody leaves. */
  function TwoDepositors(cfg: Config, a: Address, b: Address, n: int): Market {
    Added(cfg, 0, map[User(a) := 0, User(b) := 0, Pool := 2 * n])
      .(deposits := 2 * n, totalShares := 2 * n, shares := map[a := n, b := n])
  }

  /** The same after `a` has left. */
  function OneLeft(cfg: Config, a: Address, b: Address, n: int): Market {
    Added(cfg, 0, map[User(a) := n, User(b) := 0, Pool := n])
      .(deposits := n, totalShares := 2 * n, shares := map[a := 0, b := n])
  }

  lemma RunThree(w: World, c0: Call, c1: Call, c2: Call)
    ensures Run(w, [c0, c1, c2]) == Step(Step(Step(w, c0), c1), c2)
  {
    hide Step;
    var cs := [c0, c1, c2];
    assert cs[1..] == [c1, c2] && [c1, c2][1..] == [c2] && [c2][1..] == [];
    assert Run(Step(Step(w, c0), c1), [c2]) == Run(Step(Step(Step(w, c0), c1), c2), []);
    assert Run(Step(w, c0), [c1, c2]) == Run(Step(Step(w, c0), c1), [c2]);
  }

  lemma TwoFit(n: int)
    requires 0 < n && n * (2 * n + VIRTUAL) <= I128_MAX
    ensures n * VIRTUAL <= I128_MAX && n * (n + VIRTUAL) <= I128_MAX && 2 * n + VIRTUAL <= I128_MAX
  {
    MulMono(VIRTUAL, n + VIRTUAL, n);
    MulMono(n + VIRTUAL, 2 * n + VIRTUAL, n);
    MulMono(1, n, 2 * n + VIRTUAL);
  }

  lemma TwoDepositorsAreReached(cfg: Config, a: Address, b: Address, n: int)
    requires a != b && 0 < n && n * (2 * n + VIRTUAL) <= I128_MAX
    ensures var tokens: Ledger := map[User(a) := n, User(b) := n];
            Step(Step(Start(cfg, 0, tokens), Supply(a, n)), Supply(b, n)) == World(TwoDepositors(cfg, a, b, n), 0, 0, 0)
  {
    hide Supplied;
    var tokens: Ledger := map[User(a) := n, User(b) := n];
    var w0 := Start(cfg, 0, tokens);
    TwoFit(n);
    SupplyAtPar(w0.market, a, n);
    var w1 := Step(w0, Supply(a, n));
    SupplyAtPar(w1.market, b, n);
    var w2 := Step(w1, Supply(b, n));
    assert w2.market.tokens == map[User(a) := 0, User(b) := 0, Pool := 2 * n];
    assert w2.market.shares == map[a := n, b := n];
  }

  lemma FirstLeaves(cfg: Config, a: Address, b: Address, n: int)
    requires a != b && 0 < n && n * (2 * n + VIRTUAL) <= I128_MAX
    ensures Withdrawn(TwoDepositors(cfg, a, b, n), a, n, 0) == Ok((OneLeft(cfg, a, b, n), n))
  {
    MulMono(1, n, 2 * n + VIRTUAL);
    var m := TwoDepositors(cfg, a, b, n);
    WithdrawAtPar(m, a, n);
    assert Transfer(m.tokens, Pool, User(a), n).value == map[User(a) := n, User(b) := 0, Pool := n];
    assert m.shares[a := 0] == map[a := 0, b := n];
  }

  lemma SecondLeaves(cfg: Config, a: Address, b: Address, n: int)
    requires a != b && 0 < n && n * (2 * n + VIRTUAL) <= I128_MAX
    ensures var r := Withdrawn(OneLeft(cfg, a, b, n), b, n, 0);
            r.Ok? && r.value.1 == Quot(n * (n + VIRTUAL), 2 * n + VIRTUAL)
              && r.value.1 * (2 * n + VIRTUAL) <= n * (n + VIRTUAL)
  {
    var m, back := OneLeft(cfg, a, b, n), Quot(n * (n + VIRTUAL), 2 * n + VIRTUAL);
    MulMono(0, n, n + VIRTUAL);
    MulMono(n + VIRTUAL, 2 * n + VIRTUAL, n);
    MulMono(1, n, 2 * n + VIRTUAL);
    QuotBounds(n * (n + VIRTUAL), 2 * n + VIRTUAL);
    MulCancel(back, n, 2 * n + VIRTUAL);
    assert RedeemedAmount(m, n) == Ok(back);
    assert Get(m.tokens, Pool) == n && Get(m.tokens, User(b)) == 0;
  }

  lemma LessThanPutIn(n: int, back: int)
    requires 0 < n && back * (2 * n + VIRTUAL) <= n * (n + VIRTUAL)
    ensures back < n
  {
    MulMono(1, n, n);
    assert n * (2 * n + VIRTUAL) == n * (n + VIRTUAL) + n * n;
    if back >= n {
      MulMono(n, back, 2 * n + VIRTUAL);
    }
  }

  lemma {:induction false} OneLeftIsReached(cfg: Config, a: Address, b: Address, n: int)
    requires a != b && 0 < n && n * (2 * n + VIRTUAL) <= I128_MAX
    ensures Run(Start(cfg, 0, map[User(a) := n, User(b) := n]), [Supply(a, n), Supply(b, n), Withdraw(a, n)])
            == World(OneLeft(cfg, a, b, n), 0, 0, 0)
  {
    hide Withdrawn, Supplied, Run;
    RunThree(Start(cfg, 0, map[User(a) := n, User(b) := n]), Supply(a, n), Supply(b, n), Withdraw(a, n));
    TwoDepositorsAreReached(cfg, a, b, n);
    FirstLeaves(cfg, a, b, n);
  }

  /**
   * Two depositors of any equal amount, nobody ever borrowing: the first to leave
   * gets everything back; the second, redeeming as many shares, gets the amount
   * times (n + VIRTUAL) / (2n + VIRTUAL), which is less.
   */
  lemma {:induction false} SecondToLeaveLoses(cfg: Config, a: Address, b: Address, n: int)
    requires a != b && 0 < n && n * (2 * n + VIRTUAL) <= I128_MAX
    ensures var w0 := Start(cfg, 0, map[User(a) := n, User(b) := n]);
            var w := Run(w0, [Supply(a, n), Supply(b, n), Withdraw(a, n)]);
            && Get(w.market.tokens, User(a)) == n && Get(w.market.shares, b) == n
            && var r := Withdrawn(w.market, b, n, w.now);
               r.Ok? && r.value.1 == Quot(n * (n + VIRTUAL), 2 * n + VIRTUAL) && r.value.1 < n
  {
    hide Withdrawn, Run, Start;
    OneLeftIsReached(cfg, a, b, n);
    SecondLeaves(cfg, a, b, n);
    LessThanPutIn(n, Withdrawn(OneLeft(cfg, a, b, n), b, n, 0).value.1);
  }
}
