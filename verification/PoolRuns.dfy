/** Runs of one pool market: any calls by any users in any order, donations, and time passing. */
module PoolRuns {
  import opened Host
  import opened Totals
  import opened Token
  import opened LendingPool

  datatype Call =
    | Supply(user: Address, amount: int)
    | Withdraw(user: Address, burned: int)
    | Borrow(user: Address, amount: int)
    | BorrowRaw(user: Address, amount: int)
    | Repay(payer: Address, borrower: Address, amount: int)
    | PostCollateral(user: Address, amount: int)
    | TakeCollateral(user: Address, amount: int)
    | Donate(user: Address, amount: int)
    | Wait(ledgers: nat)

  /**
   * `donated`: tokens sent to the pool outside its entry points. `capitalised`:
   * interest that repayments turned into principal or cash.
   */
  datatype World = World(market: Market, now: nat, donated: int, capitalised: int)

  function Start(cfg: Config, now: nat, tokens: Ledger): World {
    World(Added(cfg, now, tokens), now, 0, 0)
  }

  function Apply(m: Market, c: Call, now: nat): Result<(Market, int)>
    requires !c.Wait?
  {
    match c
    case Supply(user, amount) => Supplied(m, user, amount, now)
    case Withdraw(user, burned) => Withdrawn(m, user, burned, now)
    case Borrow(user, amount) => Borrowed(m, user, amount, true, now)
    case BorrowRaw(user, amount) => Borrowed(m, user, amount, false, now)
    case Repay(payer, borrower, amount) => Repaid(m, payer, borrower, amount, now)
    case PostCollateral(user, amount) => PostedCollateral(m, user, amount)
    case TakeCollateral(user, amount) => TookCollateral(m, user, amount)
    case Donate(user, amount) =>
      var tokens :- Transfer(m.tokens, User(user), Pool, amount);
      Ok((m.(tokens := tokens), 0))
  }

  /** Interest on `borrower` at `now` that is not yet part of the stored principal. */
  function Interest(m: Market, borrower: Address, now: nat): int {
    var a := Accrued(m, now);
    if a.Ok? && DebtOf(a.value, borrower).Ok? then DebtOf(a.value, borrower).value - LoanOf(m, borrower).principal
    else 0
  }

  function Step(w: World, c: Call): World {
    if c.Wait? then w.(now := w.now + c.ledgers)
    else
      var r := Apply(w.market, c, w.now);
      if r.Revert? then w
      else
        w.(market := r.value.0,
           donated := if c.Donate? then w.donated + c.amount else w.donated,
           capitalised := if c.Repay? then w.capitalised + Interest(w.market, c.borrower, w.now) else w.capitalised)
  }

  function Run(w: World, cs: seq<Call>): World
    decreases cs
  {
    if cs == [] then w else Run(Step(w, cs[0]), cs[1..])
  }

  // ---------------------------------------------------------------- accrual

  lemma GrowthNonNegative(ledgers: nat, apy: nat)
    requires Growth(ledgers, apy).Ok?
    ensures Growth(ledgers, apy).value >= 0
  {
    MulMono(0, ledgers, apy * 5);
    QuotBounds(ledgers * (apy * 5) * SCALE, YEAR);
  }

  /** Accrual moves the index up and the clock forward and touches nothing else. */
  lemma AccrualOnlyRaisesIndex(m: Market, now: nat)
    requires Accrued(m, now).Ok?
    ensures var a := Accrued(m, now).value;
            && a == m.(index := a.index, lastAccrual := a.lastAccrual)
            && a.index >= m.index
            && a.lastAccrual >= m.lastAccrual
  {
    if m.borrows != 0 && now > m.lastAccrual {
      GrowthNonNegative(now - m.lastAccrual, BorrowApy(m).value);
    }
  }

  // ---------------------------------------------------------------- books

  /** The pool's token balance against its books. */
  ghost predicate BooksOk(m: Market, donated: int) {
    && Get(m.tokens, Pool) == m.deposits - m.borrows + donated
    && NoOverdraft(m.tokens)
    && donated >= 0
  }

  // ---------------------------------------------------------------- debts

  ghost predicate LoanOk(m: Market, user: Address) {
    var loan := LoanOf(m, user);
    loan.principal >= 0 && SCALE <= loan.index <= m.index
  }

  ghost predicate DebtsOk(m: Market) {
    forall u {:trigger LoanOk(m, u)} {:trigger LoanOf(m, u)} :: LoanOk(m, u)
  }

  lemma DebtAtLeastPrincipal(m: Market, user: Address)
    requires LoanOk(m, user) && DebtOf(m, user).Ok?
    ensures DebtOf(m, user).value >= LoanOf(m, user).principal >= 0
  {
    var loan := LoanOf(m, user);
    if loan.principal > 0 {
      MulMono(loan.index, m.index, loan.principal);
      MulMono(0, loan.principal, loan.index);
      QuotMono(loan.principal * loan.index, loan.principal * m.index, loan.index);
      QuotUnique(loan.principal * loan.index, loan.index, loan.principal);
    }
  }

  lemma DebtGrowsWithIndex(m: Market, m': Market, user: Address)
    requires LoanOk(m, user) && LoanOf(m', user) == LoanOf(m, user) && m.index <= m'.index
    requires DebtOf(m', user).Ok?
    ensures DebtOf(m, user).Ok? && DebtOf(m, user).value <= DebtOf(m', user).value
  {
    var loan := LoanOf(m, user);
    if loan.principal > 0 {
      MulMono(m.index, m'.index, loan.principal);
      MulMono(0, m.index, loan.principal);
      QuotMono(loan.principal * m.index, loan.principal * m'.index, loan.index);
    }
  }

  /** A loan written at the current index is owed exactly as written. */
  lemma FreshLoanOwesPrincipal(m: Market, user: Address)
    requires m.index >= 1 && LoanOf(m, user).principal >= 0 && LoanOf(m, user).index == m.index
    ensures DebtOf(m, user).Ok? ==> DebtOf(m, user).value == LoanOf(m, user).principal
  {
    var p := LoanOf(m, user).principal;
    MulMono(0, p, m.index);
    QuotUnique(p * m.index, m.index, p);
  }

  lemma AccrualKeepsDebts(m: Market, now: nat)
    requires DebtsOk(m) && Accrued(m, now).Ok?
    ensures DebtsOk(Accrued(m, now).value)
  {
    AccrualOnlyRaisesIndex(m, now);
    var a := Accrued(m, now).value;
    forall u ensures LoanOk(a, u) {
      assert LoanOk(m, u);
    }
  }

  lemma LoanWriteKeepsDebts(a: Market, m': Market, user: Address, principal: int)
    requires DebtsOk(a) && principal >= 0
    requires m'.index == a.index && m'.loans == a.loans[user := Loan(principal, a.index)]
    ensures DebtsOk(m')
  {
    assert LoanOk(a, user);
    forall u ensures LoanOk(m', u) {
      assert LoanOk(a, u);
    }
  }

  /** What a successful borrow writes. */
  lemma BorrowWrites(m: Market, user: Address, amount: int, checked: bool, now: nat)
    requires Borrowed(m, user, amount, checked, now).Ok?
    ensures Accrued(m, now).Ok? && amount > 0
    ensures var a, m' := Accrued(m, now).value, Borrowed(m, user, amount, checked, now).value.0;
            && Transfer(a.tokens, Pool, User(user), amount).Ok?
            && m' == a.(tokens := Transfer(a.tokens, Pool, User(user), amount).value,
                        loans := a.loans[user := Loan(LoanOf(a, user).principal + amount, a.index)],
                        borrows := a.borrows + amount)
            && (checked ==> DebtOf(a, user).Ok?
                            && (DebtOf(a, user).value + amount <= Get(a.shares, user)
                                || DebtOf(a, user).value + amount <= 0))
  {
  }

  /** What a successful repayment writes. */
  lemma RepayWrites(m: Market, payer: Address, borrower: Address, amount: int, now: nat)
    requires Repaid(m, payer, borrower, amount, now).Ok?
    ensures Accrued(m, now).Ok? && DebtOf(Accrued(m, now).value, borrower).Ok? && amount > 0
    ensures var a, r := Accrued(m, now).value, Repaid(m, payer, borrower, amount, now).value;
            var owed := DebtOf(a, borrower).value;
            && r.1 == Min(amount, owed)
            && r.0 == a.(tokens := r.0.tokens,
                         loans := a.loans[borrower := Loan(owed - r.1, a.index)],
                         borrows := a.borrows - r.1)
  {
  }

  lemma RepaidNonNegative(m: Market, payer: Address, borrower: Address, amount: int, now: nat)
    requires DebtsOk(m) && Repaid(m, payer, borrower, amount, now).Ok?
    ensures 0 <= Repaid(m, payer, borrower, amount, now).value.1 <= DebtOf(Accrued(m, now).value, borrower).value
  {
    RepayWrites(m, payer, borrower, amount, now);
    AccrualKeepsDebts(m, now);
    assert LoanOk(Accrued(m, now).value, borrower);
    DebtAtLeastPrincipal(Accrued(m, now).value, borrower);
  }

  // ---------------------------------------------------------------- books, call by call

  lemma CallKeepsBooks(m: Market, c: Call, now: nat, donated: int)
    requires BooksOk(m, donated) && DebtsOk(m) && !c.Wait? && Apply(m, c, now).Ok?
    ensures BooksOk(Apply(m, c, now).value.0, if c.Donate? then donated + c.amount else donated)
    ensures Sum(Apply(m, c, now).value.0.tokens) == Sum(m.tokens)
  {
    hide Supplied, Withdrawn, Borrowed, Repaid;
    match c {
      case Supply(_, _) => DepositsKeepBooks(m, c, now, donated);
      case Withdraw(_, _) => DepositsKeepBooks(m, c, now, donated);
      case Borrow(_, _) => BorrowKeepsBooks(m, c, now, donated);
      case BorrowRaw(_, _) => BorrowKeepsBooks(m, c, now, donated);
      case Repay(payer, borrower, amount) =>
        RepaidNonNegative(m, payer, borrower, amount, now);
        RepayKeepsBooks(m, c, now, donated);
      case Donate(user, amount) => TransferConserves(m.tokens, User(user), Pool, amount);
      case PostCollateral(_, _) =>
      case TakeCollateral(_, _) =>
    }
  }

  lemma DepositsKeepBooks(m: Market, c: Call, now: nat, donated: int)
    requires BooksOk(m, donated) && (c.Supply? || c.Withdraw?) && Apply(m, c, now).Ok?
    ensures BooksOk(Apply(m, c, now).value.0, donated)
    ensures Sum(Apply(m, c, now).value.0.tokens) == Sum(m.tokens)
  {
    AccrualOnlyRaisesIndex(m, now);
    hide Accrued, MintedShares, RedeemedAmount;
    if c.Supply? {
      TransferConserves(m.tokens, User(c.user), Pool, c.amount);
    } else {
      TransferConserves(m.tokens, Pool, User(c.user), Apply(m, c, now).value.1);
    }
  }

  lemma BorrowKeepsBooks(m: Market, c: Call, now: nat, donated: int)
    requires BooksOk(m, donated) && (c.Borrow? || c.BorrowRaw?) && Apply(m, c, now).Ok?
    ensures BooksOk(Apply(m, c, now).value.0, donated)
    ensures Sum(Apply(m, c, now).value.0.tokens) == Sum(m.tokens)
  {
    hide Borrowed, Accrued;
    BorrowWrites(m, c.user, c.amount, c.Borrow?, now);
    AccrualOnlyRaisesIndex(m, now);
    TransferConserves(m.tokens, Pool, User(c.user), c.amount);
  }

  lemma RepayKeepsBooks(m: Market, c: Call, now: nat, donated: int)
    requires BooksOk(m, donated) && c.Repay? && Apply(m, c, now).Ok?
    requires 0 <= Apply(m, c, now).value.1
    ensures BooksOk(Apply(m, c, now).value.0, donated)
    ensures Sum(Apply(m, c, now).value.0.tokens) == Sum(m.tokens)
  {
    var r := Apply(m, c, now).value;
    AccrualOnlyRaisesIndex(m, now);
    if r.1 > 0 {
      TransferConserves(m.tokens, User(c.payer), Pool, r.1);
    }
  }

  // ---------------------------------------------------------------- principals

  ghost function Principals(m: Market): (p: map<Address, int>)
    ensures forall u :: Get(p, u) == LoanOf(m, u).principal
  {
    map u | u in m.loans :: m.loans[u].principal
  }

  lemma LoanWriteMovesPrincipals(a: Market, m': Market, user: Address, principal: int)
    requires m'.loans == a.loans[user := Loan(principal, a.index)]
    ensures Sum(Principals(m')) == Sum(Principals(a)) - LoanOf(a, user).principal + principal
  {
    SumSet(Principals(a), user, principal);
    assert Principals(m') == Principals(a)[user := principal];
  }

  // ---------------------------------------------------------------- invariant of all calls

  ghost predicate Inv(w: World) {
    && BooksOk(w.market, w.donated)
    && w.market.index >= SCALE
    && DebtsOk(w.market)
    && w.market.borrows == Sum(Principals(w.market)) - w.capitalised
    && w.capitalised >= 0
  }

  lemma SameLoans(m: Market, m': Market)
    requires m'.loans == m.loans && m'.index >= m.index && DebtsOk(m)
    ensures DebtsOk(m') && Principals(m') == Principals(m)
  {
    forall u ensures LoanOk(m', u) {
      assert LoanOk(m, u);
    }
  }

  lemma BorrowKeepsLoans(w: World, user: Address, amount: int, checked: bool)
    requires Inv(w) && Borrowed(w.market, user, amount, checked, w.now).Ok?
    ensures var m' := Borrowed(w.market, user, amount, checked, w.now).value.0;
            && DebtsOk(m') && m'.index >= SCALE
            && m'.borrows == Sum(Principals(m')) - w.capitalised
  {
    BorrowWrites(w.market, user, amount, checked, w.now);
    AccrualOnlyRaisesIndex(w.market, w.now);
    var a, m' := Accrued(w.market, w.now).value, Borrowed(w.market, user, amount, checked, w.now).value.0;
    SameLoans(w.market, a);
    assert LoanOk(a, user);
    LoanWriteKeepsDebts(a, m', user, LoanOf(a, user).principal + amount);
    LoanWriteMovesPrincipals(a, m', user, LoanOf(a, user).principal + amount);
  }

  lemma RepayKeepsLoans(w: World, payer: Address, borrower: Address, amount: int)
    requires Inv(w) && Repaid(w.market, payer, borrower, amount, w.now).Ok?
    ensures var m', interest := Repaid(w.market, payer, borrower, amount, w.now).value.0,
            Interest(w.market, borrower, w.now);
            && DebtsOk(m') && m'.index >= SCALE
            && interest >= 0
            && m'.borrows == Sum(Principals(m')) - (w.capitalised + interest)
  {
    RepayWrites(w.market, payer, borrower, amount, w.now);
    RepaidNonNegative(w.market, payer, borrower, amount, w.now);
    AccrualOnlyRaisesIndex(w.market, w.now);
    var a, r := Accrued(w.market, w.now).value, Repaid(w.market, payer, borrower, amount, w.now).value;
    SameLoans(w.market, a);
    assert LoanOk(a, borrower);
    DebtAtLeastPrincipal(a, borrower);
    LoanWriteKeepsDebts(a, r.0, borrower, DebtOf(a, borrower).value - r.1);
    LoanWriteMovesPrincipals(a, r.0, borrower, DebtOf(a, borrower).value - r.1);
  }

  /** Calls that neither borrow nor repay leave every loan as it is. */
  lemma OtherCallsKeepLoans(m: Market, c: Call, now: nat)
    requires !c.Wait? && !c.Borrow? && !c.BorrowRaw? && !c.Repay? && Apply(m, c, now).Ok?
    ensures var m' := Apply(m, c, now).value.0;
            m'.loans == m.loans && m'.index >= m.index && m'.borrows == m.borrows
  {
    if c.Supply? || c.Withdraw? {
      AccrualOnlyRaisesIndex(m, now);
    }
  }

  /** The part of the invariant that does not need the whole history. */
  lemma CallKeepsDebts(m: Market, c: Call, now: nat)
    requires DebtsOk(m) && m.index >= SCALE && !c.Wait? && Apply(m, c, now).Ok?
    ensures DebtsOk(Apply(m, c, now).value.0) && Apply(m, c, now).value.0.index >= SCALE
  {
    var m' := Apply(m, c, now).value.0;
    if c.Borrow? || c.BorrowRaw? {
      BorrowWrites(m, c.user, c.amount, c.Borrow?, now);
      AccrualOnlyRaisesIndex(m, now);
      AccrualKeepsDebts(m, now);
      var a := Accrued(m, now).value;
      assert LoanOk(a, c.user);
      LoanWriteKeepsDebts(a, m', c.user, LoanOf(a, c.user).principal + c.amount);
    } else if c.Repay? {
      RepayWrites(m, c.payer, c.borrower, c.amount, now);
      RepaidNonNegative(m, c.payer, c.borrower, c.amount, now);
      AccrualOnlyRaisesIndex(m, now);
      AccrualKeepsDebts(m, now);
      var a := Accrued(m, now).value;
      LoanWriteKeepsDebts(a, m', c.borrower, DebtOf(a, c.borrower).value - Apply(m, c, now).value.1);
    } else {
      OtherCallsKeepLoans(m, c, now);
      SameLoans(m, m');
    }
  }

  lemma StepKeepsInv(w: World, c: Call)
    requires Inv(w)
    ensures Inv(Step(w, c))
    ensures Sum(Step(w, c).market.tokens) == Sum(w.market.tokens)
  {
    if !c.Wait? && Apply(w.market, c, w.now).Ok? {
      CallKeepsBooks(w.market, c, w.now, w.donated);
      if c.Borrow? {
        BorrowKeepsLoans(w, c.user, c.amount, true);
      } else if c.BorrowRaw? {
        BorrowKeepsLoans(w, c.user, c.amount, false);
      } else if c.Repay? {
        RepayKeepsLoans(w, c.payer, c.borrower, c.amount);
      } else {
        OtherCallsKeepLoans(w.market, c, w.now);
        SameLoans(w.market, Apply(w.market, c, w.now).value.0);
      }
    }
  }

  lemma {:induction false} RunKeepsInv(w: World, cs: seq<Call>)
    requires Inv(w)
    ensures Inv(Run(w, cs))
    ensures Sum(Run(w, cs).market.tokens) == Sum(w.market.tokens)
    decreases cs
  {
    if cs != [] {
      StepKeepsInv(w, cs[0]);
      RunKeepsInv(Step(w, cs[0]), cs[1..]);
    }
  }

  /** The token state in which an asset is added: nobody overdrawn, nothing in the pool. */
  ghost predicate Clean(tokens: Ledger) {
    NoOverdraft(tokens) && Get(tokens, Pool) == 0
  }

  lemma {:induction false} Reachable(cfg: Config, at: nat, tokens: Ledger, cs: seq<Call>)
    requires Clean(tokens)
    ensures Inv(Run(Start(cfg, at, tokens), cs))
    ensures Sum(Run(Start(cfg, at, tokens), cs).market.tokens) == Sum(tokens)
  {
    var w := Start(cfg, at, tokens);
    forall u ensures LoanOk(w.market, u) {
    }
    assert Principals(w.market) == map[];
    RunKeepsInv(w, cs);
  }

  // ---------------------------------------------------------------- theorems about books

  /**
   * In every reachable state the pool holds exactly deposits minus borrows plus
   * donations, and no call creates or destroys a token. Without donations the
   * books therefore never show more borrowed than deposited, though no line of
   * the contract checks it.
   */
  lemma {:induction false} BooksBalance(cfg: Config, at: nat, tokens: Ledger, cs: seq<Call>)
    requires Clean(tokens)
    ensures var w := Run(Start(cfg, at, tokens), cs);
            && Get(w.market.tokens, Pool) == w.market.deposits - w.market.borrows + w.donated
            && Sum(w.market.tokens) == Sum(tokens)
            && (w.donated == 0 ==> w.market.borrows <= w.market.deposits)
  {
    Reachable(cfg, at, tokens, cs);
    var w := Run(Start(cfg, at, tokens), cs);
    assert Get(w.market.tokens, Pool) >= 0;
  }

  /**
   * `total_borrow` is the sum of all principals less the interest that
   * repayments have capitalised: interest enters `total_borrow` only by being
   * subtracted when it is repaid.
   */
  lemma {:induction false} TotalBorrowMissesInterest(cfg: Config, at: nat, tokens: Ledger, cs: seq<Call>)
    requires Clean(tokens)
    ensures var w := Run(Start(cfg, at, tokens), cs);
            && w.market.borrows == Sum(Principals(w.market)) - w.capitalised
            && (w.market.borrows == Sum(Principals(w.market)) <==> w.capitalised == 0)
            && w.market.borrows <= Sum(Principals(w.market))
  {
    Reachable(cfg, at, tokens, cs);
  }

  // ---------------------------------------------------------------- theorems about debts

  lemma {:induction false} IndexNeverFalls(w: World, cs: seq<Call>)
    requires Inv(w)
    ensures Run(w, cs).market.index >= w.market.index
    decreases cs
  {
    if cs != [] {
      StepKeepsInv(w, cs[0]);
      StepRaisesIndex(w, cs[0]);
      IndexNeverFalls(Step(w, cs[0]), cs[1..]);
    }
  }

  lemma StepRaisesIndex(w: World, c: Call)
    ensures Step(w, c).market.index >= w.market.index
  {
    if !c.Wait? && Apply(w.market, c, w.now).Ok? && !c.PostCollateral? && !c.TakeCollateral? && !c.Donate? {
      AccrualOnlyRaisesIndex(w.market, w.now);
    }
  }

  /**
   * In every reachable state each snapshot lies between the initial and the current
   * index, and no debt is below its principal.
   */
  lemma {:induction false} DebtSafety(cfg: Config, at: nat, tokens: Ledger, cs: seq<Call>, user: Address)
    requires Clean(tokens)
    ensures var m := Run(Start(cfg, at, tokens), cs).market;
            && SCALE <= LoanOf(m, user).index <= m.index
            && 0 <= LoanOf(m, user).principal
            && (DebtOf(m, user).Ok? ==> LoanOf(m, user).principal <= DebtOf(m, user).value)
  {
    Reachable(cfg, at, tokens, cs);
    var m := Run(Start(cfg, at, tokens), cs).market;
    assert LoanOk(m, user);
    if DebtOf(m, user).Ok? {
      DebtAtLeastPrincipal(m, user);
    }
  }

  predicate TouchesLoan(c: Call, user: Address) {
    (c.Borrow? && c.user == user) || (c.BorrowRaw? && c.user == user) || (c.Repay? && c.borrower == user)
  }

  /** Only a repayment of the loan, or a new borrow by its owner, can lower a debt. */
  lemma {:induction false} DebtFallsOnlyByTouching(w: World, cs: seq<Call>, user: Address)
    requires Inv(w) && forall i :: 0 <= i < |cs| ==> !TouchesLoan(cs[i], user)
    requires DebtOf(Run(w, cs).market, user).Ok?
    ensures DebtOf(w.market, user).Ok? && DebtOf(w.market, user).value <= DebtOf(Run(w, cs).market, user).value
    decreases cs
  {
    if cs != [] {
      var v := Step(w, cs[0]);
      StepKeepsInv(w, cs[0]);
      assert forall i :: 0 <= i < |cs[1..]| ==> cs[1..][i] == cs[i + 1];
      DebtFallsOnlyByTouching(v, cs[1..], user);
      StepRaisesIndex(w, cs[0]);
      UntouchedLoanStays(w, cs[0], user);
      assert LoanOk(w.market, user);
      DebtGrowsWithIndex(w.market, v.market, user);
    }
  }

  lemma UntouchedLoanStays(w: World, c: Call, user: Address)
    requires !TouchesLoan(c, user)
    ensures LoanOf(Step(w, c).market, user) == LoanOf(w.market, user)
  {
    if !c.Wait? && Apply(w.market, c, w.now).Ok? {
      if c.Borrow? || c.BorrowRaw? {
        BorrowWrites(w.market, c.user, c.amount, c.Borrow?, w.now);
        AccrualOnlyRaisesIndex(w.market, w.now);
      } else if c.Repay? {
        RepayWrites(w.market, c.payer, c.borrower, c.amount, w.now);
        AccrualOnlyRaisesIndex(w.market, w.now);
      } else {
        OtherCallsKeepLoans(w.market, c, w.now);
      }
    }
  }

  /** A repayment takes `min(amount, owed)` and leaves exactly the rest, with interest up to now included. */
  lemma RepayLeavesTheRest(w: World, payer: Address, borrower: Address, amount: int)
    requires Inv(w) && Repaid(w.market, payer, borrower, amount, w.now).Ok?
    ensures var r, owed := Repaid(w.market, payer, borrower, amount, w.now).value,
            DebtOf(Accrued(w.market, w.now).value, borrower).value;
            && r.1 == Min(amount, owed)
            && (DebtOf(r.0, borrower).Ok? ==> DebtOf(r.0, borrower).value == owed - Min(amount, owed))
            && Get(r.0.tokens, Pool) == Get(w.market.tokens, Pool) + r.1
  {
    var r := Repaid(w.market, payer, borrower, amount, w.now).value;
    RepayWrites(w.market, payer, borrower, amount, w.now);
    RepaidNonNegative(w.market, payer, borrower, amount, w.now);
    AccrualOnlyRaisesIndex(w.market, w.now);
    FreshLoanOwesPrincipal(r.0, borrower);
    CallKeepsBooks(w.market, Repay(payer, borrower, amount), w.now, w.donated);
  }

  /**
   * What a borrow does to a debt. The new debt is the old principal plus the
   * amount: interest pending on the old loan is dropped, so the debt rises by
   * the amount exactly when no interest was pending, and otherwise by less. A
   * checked borrow ends with the debt covered by the borrower's shares.
   */
  lemma BorrowRestartsInterest(w: World, user: Address, amount: int, checked: bool)
    requires Inv(w) && Borrowed(w.market, user, amount, checked, w.now).Ok?
    requires DebtOf(Accrued(w.market, w.now).value, user).Ok?
    requires DebtOf(Borrowed(w.market, user, amount, checked, w.now).value.0, user).Ok?
    ensures var m' := Borrowed(w.market, user, amount, checked, w.now).value.0;
            var before, debt := DebtOf(Accrued(w.market, w.now).value, user).value, DebtOf(m', user).value;
            && debt == LoanOf(w.market, user).principal + amount
            && debt <= before + amount
            && (debt == before + amount <==> Interest(w.market, user, w.now) == 0)
            && (checked ==> debt <= Get(m'.shares, user))
  {
    var a, m' := Accrued(w.market, w.now).value, Borrowed(w.market, user, amount, checked, w.now).value.0;
    BorrowWrites(w.market, user, amount, checked, w.now);
    AccrualOnlyRaisesIndex(w.market, w.now);
    SameLoans(w.market, a);
    assert LoanOk(a, user);
    DebtAtLeastPrincipal(a, user);
    FreshLoanOwesPrincipal(m', user);
  }

  /** A debt is the principal grown by the index since its snapshot, rounded down by less than one unit. */
  lemma DebtIsGrownPrincipal(m: Market, user: Address)
    requires LoanOk(m, user) && DebtOf(m, user).Ok?
    ensures var loan, debt := LoanOf(m, user), DebtOf(m, user).value;
            debt * loan.index <= loan.principal * m.index < (debt + 1) * loan.index
  {
    var loan := LoanOf(m, user);
    MulMono(0, loan.principal, m.index);
    QuotBounds(loan.principal * m.index, loan.index);
  }
}
