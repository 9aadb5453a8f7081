/** Runs of the rewards contract: any calls by any users, in any order, with time passing between them. */
module RewardsRuns {
  import opened Host
  import opened Lists
  import opened Totals
  import opened Rewards

  datatype Call =
    | Notify(amount: int)
    | Stake(user: Address, amount: int)
    | Unstake(user: Address, amount: int)
    | Claim(user: Address)
    | Query(user: Address)
    | Wait(ledgers: nat)

  /**
   * An outside record of a run. `emitted` is the emission due while someone was
   * staked, by the auditor's own clock `called`, the ledger of the last call that
   * went through; `entitled` is what a model that pays every staker at every
   * update has paid. Both are scaled by `SCALE`.
   */
  datatype Audit = Audit(
    notified: int,
    paidOut: map<Address, int>,
    emitted: int,
    entitled: map<Address, int>,
    dust: int,
    settlements: map<Address, int>,
    lastNotice: int,
    charged: int,
    longest: int,
    called: Option<nat>)

  datatype World = World(book: Book, now: nat, audit: Audit)

  const Start := World(Empty, 0, Audit(0, map[], 0, map[], 0, map[], 0, 0, 0, None))

  function Apply(b: Book, c: Call, now: nat): Result<(Book, int)>
    requires !c.Wait?
  {
    match c
    case Notify(amount) => Notified(b, amount, now)
    case Stake(user, amount) => Staked(b, user, amount, now)
    case Unstake(user, amount) => Unstaked(b, user, amount, now)
    case Claim(user) => Claimed(b, user, now)
    case Query(user) => View(b, user, now)
  }

  /** Ledgers since the last call for which somebody was staked at a rate. */
  function Due(a: Audit, b: Book, now: nat): nat {
    if a.called.Some? && a.called.value < now && b.totalStaked != 0 && b.rate != 0 then now - a.called.value else 0
  }

  /** What the update at the head of every call means to the auditor. */
  function Accrual(a: Audit, b: Book, u: Book, now: nat): Audit {
    var n := Due(a, b, now);
    a.(emitted := a.emitted + n * b.rate,
       entitled := AddScaled(a.entitled, b.stake, u.rpt - b.rpt),
       dust := if n == 0 then a.dust else a.dust + b.totalStaked,
       charged := a.charged + n,
       longest := Max(a.longest, a.charged + n),
       called := Some(now))
  }

  /** What the rest of a successful call means to the auditor. */
  function Booked(a: Audit, c: Call, answer: int): Audit
    requires !c.Wait?
  {
    match c
    case Notify(amount) => a.(notified := a.notified + amount, lastNotice := amount, charged := 0)
    case Stake(user, _) => a.(settlements := AddOne(a.settlements, user))
    case Unstake(user, _) => a.(settlements := AddOne(a.settlements, user))
    case Claim(user) =>
      if answer == 0 then a
      else a.(paidOut := a.paidOut[user := Get(a.paidOut, user) + answer],
              settlements := AddOne(a.settlements, user))
    case Query(_) => a
  }

  function AddOne(m: map<Address, int>, user: Address): map<Address, int> {
    m[user := Get(m, user) + 1]
  }

  function Step(w: World, c: Call): World {
    if c.Wait? then w.(now := w.now + c.ledgers)
    else
      var r := Apply(w.book, c, w.now);
      if r.Revert? then w
      else
        var ticked := Accrual(w.audit, w.book, Updated(w.book, w.now).value, w.now);
        World(r.value.0, w.now, Booked(ticked, c, r.value.1))
  }

  function Run(w: World, cs: seq<Call>): World
    decreases cs
  {
    if cs == [] then w else Run(Step(w, cs[0]), cs[1..])
  }

  // ---------------------------------------------------------------- invariant

  ghost predicate BookOk(b: Book, now: nat) {
    && b.totalStaked == Sum(b.stake)
    && b.rate >= 0
    && 0 <= b.rpt <= I128_MAX
    && 0 <= b.pool <= I128_MAX
    && (b.rate != 0 ==> b.lastUpdate.Some?)
    && (b.lastUpdate.Some? ==> b.lastUpdate.value <= now)
    && (forall u {:trigger UserOk(b, u)} {:trigger Get(b.stake, u)} :: UserOk(b, u))
  }

  ghost predicate UserOk(b: Book, user: Address) {
    && Get(b.stake, user) >= 0
    && 0 <= Get(b.accrued, user) <= I128_MAX
    && (Get(b.stake, user) > 0 ==> 0 <= Get(b.paid, user) <= b.rpt)
  }

  /** Scaled: what `user` has been paid and is owed by the index scheme. */
  function Lazy(b: Book, a: Audit, user: Address): int {
    SCALE * (Get(a.paidOut, user) + Get(b.accrued, user)) + Get(b.stake, user) * (b.rpt - Get(b.paid, user))
  }

  ghost predicate Tracks(b: Book, a: Audit, user: Address) {
    && Get(a.paidOut, user) >= 0
    && Get(a.settlements, user) >= 0
    && Lazy(b, a, user) <= Get(a.entitled, user) <= Lazy(b, a, user) + (SCALE - 1) * Get(a.settlements, user)
  }

  ghost predicate AuditOk(b: Book, a: Audit) {
    && b.pool == a.notified - Sum(a.paidOut)
    && Sum(a.entitled) <= a.emitted <= Sum(a.entitled) + a.dust
    && (forall u :: Tracks(b, a, u))
  }

  /** While no rate was charged beyond its window, all emission is covered by notices. */
  ghost predicate FundedOk(b: Book, a: Audit) {
    && 0 <= a.charged <= a.longest
    && b.rate * WINDOW <= SCALE * a.lastNotice
    && (a.longest <= WINDOW ==> a.emitted <= b.rate * a.charged + SCALE * (a.notified - a.lastNotice))
  }

  /** The contract's clock is the auditor's. */
  predicate InStep(b: Book, a: Audit) {
    b.lastUpdate == a.called
  }

  ghost predicate Inv(w: World) {
    BookOk(w.book, w.now) && AuditOk(w.book, w.audit) && FundedOk(w.book, w.audit) && InStep(w.book, w.audit)
  }

  // ---------------------------------------------------------------- one update

  lemma UpdateFloors(b: Book, now: nat)
    requires BookOk(b, now) && Updated(b, now).Ok?
    ensures var d, n := Updated(b, now).value.rpt - b.rpt, Charged(b, now);
            && d >= 0
            && d * b.totalStaked <= n * b.rate
            && (if n == 0 then d == 0 && n * b.rate == 0 else n * b.rate <= d * b.totalStaked + b.totalStaked)
  {
    var n := Charged(b, now);
    if n > 0 {
      SumOverNonNegative(b.stake.Keys, b.stake);
      MulMono(0, n, b.rate);
      QuotBounds(n * b.rate, b.totalStaked);
    }
  }

  lemma UpdateKeepsBook(b: Book, now: nat)
    requires BookOk(b, now) && Updated(b, now).Ok?
    ensures BookOk(Updated(b, now).value, now)
  {
    UpdateFloors(b, now);
    var u := Updated(b, now).value;
    forall v ensures UserOk(u, v) {
      assert UserOk(b, v);
    }
  }

  lemma GrowthTracks(b: Book, u: Book, a: Audit, a': Audit, user: Address)
    requires Tracks(b, a, user)
    requires u.stake == b.stake && u.paid == b.paid && u.accrued == b.accrued
    requires a'.paidOut == a.paidOut && a'.settlements == a.settlements
    requires Get(a'.entitled, user) == Get(a.entitled, user) + (u.rpt - b.rpt) * Get(b.stake, user)
    ensures Tracks(u, a', user)
  {
    var s, d, x := Get(b.stake, user), u.rpt - b.rpt, b.rpt - Get(b.paid, user);
    Distribute(s, x, d);
    assert Lazy(u, a', user) == Lazy(b, a, user) + d * s by {
      assert u.rpt - Get(u.paid, user) == x + d;
    }
  }

  lemma Distribute(s: int, x: int, d: int)
    ensures s * (x + d) == s * x + d * s
  {
  }

  /** An update moves the index and the clock and nothing else. */
  lemma UpdateKeepsFrame(b: Book, now: nat)
    requires Updated(b, now).Ok?
    ensures var u := Updated(b, now).value;
            u == b.(rpt := u.rpt, lastUpdate := Some(now))
  {
  }

  lemma UpdateTracks(b: Book, u: Book, a: Audit, now: nat)
    requires u == b.(rpt := u.rpt, lastUpdate := Some(now)) && forall user :: Tracks(b, a, user)
    ensures forall user :: Tracks(u, Accrual(a, b, u, now), user)
  {
    forall user ensures Tracks(u, Accrual(a, b, u, now), user) {
      assert Tracks(b, a, user);
      GrowthTracks(b, u, a, Accrual(a, b, u, now), user);
    }
  }

  lemma DueIsCharged(b: Book, a: Audit, now: nat)
    requires InStep(b, a)
    ensures Due(a, b, now) == Charged(b, now)
  {
  }

  lemma UpdateKeepsAudit(b: Book, a: Audit, now: nat)
    requires BookOk(b, now) && Updated(b, now).Ok?
    requires AuditOk(b, a) && InStep(b, a)
    ensures var u := Updated(b, now).value; AuditOk(u, Accrual(a, b, u, now)) && InStep(u, Accrual(a, b, u, now))
  {
    DueIsCharged(b, a, now);
    hide Updated, Charged, Due;
    var u := Updated(b, now).value;
    UpdateKeepsFrame(b, now);
    UpdateTracks(b, u, a, now);
    SumAddScaled(a.entitled, b.stake, u.rpt - b.rpt);
    UpdateFloors(b, now);
  }

  lemma UpdateKeepsFunded(b: Book, a: Audit, now: nat)
    requires BookOk(b, now) && Updated(b, now).Ok?
    requires FundedOk(b, a) && InStep(b, a)
    ensures FundedOk(Updated(b, now).value, Accrual(a, b, Updated(b, now).value, now))
  {
    DueIsCharged(b, a, now);
    assert b.rate * (a.charged + Charged(b, now)) == b.rate * a.charged + Charged(b, now) * b.rate;
  }

  // ---------------------------------------------------------------- one settlement

  /** A settlement drops a fraction of one unit and nothing else. */
  lemma OwingFloors(b: Book, now: nat, user: Address)
    requires BookOk(b, now) && Owing(b, user).Ok?
    ensures var x := Get(b.stake, user) * (b.rpt - Get(b.paid, user));
            && x >= 0
            && Owing(b, user).value >= Get(b.accrued, user)
            && SCALE * (Owing(b, user).value - Get(b.accrued, user)) <= x
            && x <= SCALE * (Owing(b, user).value - Get(b.accrued, user)) + SCALE - 1
  {
    var s, p := Get(b.stake, user), b.rpt - Get(b.paid, user);
    if s > 0 {
      MulMono(0, p, s);
      QuotBounds(s * p, SCALE);
    }
  }

  lemma SettleTracks(b: Book, a: Audit, now: nat, user: Address, b': Book, a': Audit)
    requires BookOk(b, now) && Owing(b, user).Ok?
    requires Tracks(b, a, user)
    requires b'.rpt == b.rpt && Get(b'.paid, user) == b.rpt
    requires Get(a'.paidOut, user) + Get(b'.accrued, user) == Get(a.paidOut, user) + Owing(b, user).value
    requires Get(a'.paidOut, user) >= Get(a.paidOut, user)
    requires Get(a'.settlements, user) == Get(a.settlements, user) + 1
    requires a'.entitled == a.entitled
    ensures Tracks(b', a', user)
  {
    hide Owing, BookOk;
    OwingFloors(b, now, user);
    assert Get(b'.stake, user) * (b'.rpt - Get(b'.paid, user)) == 0;
  }

  lemma Untouched(b: Book, a: Audit, user: Address, b': Book, a': Audit)
    requires Tracks(b, a, user)
    requires b'.rpt == b.rpt && a'.entitled == a.entitled
    requires Get(b'.stake, user) == Get(b.stake, user) && Get(b'.paid, user) == Get(b.paid, user)
    requires Get(b'.accrued, user) == Get(b.accrued, user) && Get(a'.paidOut, user) == Get(a.paidOut, user)
    requires Get(a'.settlements, user) == Get(a.settlements, user)
    ensures Tracks(b', a', user)
  {
  }

  // ---------------------------------------------------------------- one call

  /** Storage after a settlement of `user` that leaves them with the given stake and accrual. */
  function Put(u: Book, user: Address, accrued: int, stake: int, pool: int): Book {
    u.(accrued := u.accrued[user := accrued], paid := u.paid[user := u.rpt],
       stake := u.stake[user := stake], totalStaked := u.totalStaked - Get(u.stake, user) + stake, pool := pool)
  }

  lemma PutKeepsBook(u: Book, now: nat, user: Address, accrued: int, stake: int, pool: int)
    requires BookOk(u, now) && 0 <= accrued <= I128_MAX && stake >= 0 && 0 <= pool <= I128_MAX
    ensures BookOk(Put(u, user, accrued, stake, pool), now)
  {
    SumSet(u.stake, user, stake);
    var b := Put(u, user, accrued, stake, pool);
    forall v ensures UserOk(b, v) {
      assert UserOk(u, v);
    }
  }

  lemma PutKeepsAudit(u: Book, t: Audit, now: nat, user: Address, accrued: int, stake: int, paid: int)
    requires BookOk(u, now) && AuditOk(u, t)
    requires Owing(u, user).Ok? && Owing(u, user).value == accrued + paid && paid >= 0
    ensures AuditOk(Put(u, user, accrued, stake, u.pool - paid),
                    t.(paidOut := t.paidOut[user := Get(t.paidOut, user) + paid],
                       settlements := AddOne(t.settlements, user)))
  {
    var b' := Put(u, user, accrued, stake, u.pool - paid);
    var a' := t.(paidOut := t.paidOut[user := Get(t.paidOut, user) + paid],
                 settlements := AddOne(t.settlements, user));
    forall v ensures Tracks(b', a', v) {
      assert Tracks(u, t, v);
      if v == user {
        SettleTracks(u, t, now, v, b', a');
      } else {
        Untouched(u, t, v, b', a');
      }
    }
    SumSet(t.paidOut, user, Get(t.paidOut, user) + paid);
  }

  /** Writing back the value a missing or present key already reads as changes no sum and no reading. */
  lemma AuditReadsAlike(b: Book, a: Audit, b': Book, a': Audit)
    requires AuditOk(b, a)
    requires b'.rpt == b.rpt && b'.pool == b.pool
    requires a'.entitled == a.entitled && a'.emitted == a.emitted && a'.dust == a.dust && a'.notified == a.notified
    requires forall u :: Get(b'.stake, u) == Get(b.stake, u)
    requires forall u :: Get(b'.paid, u) == Get(b.paid, u)
    requires forall u :: Get(b'.accrued, u) == Get(b.accrued, u)
    requires forall u :: Get(a'.paidOut, u) == Get(a.paidOut, u)
    requires forall u :: Get(a'.settlements, u) == Get(a.settlements, u)
    requires Sum(a'.paidOut) == Sum(a.paidOut)
    ensures AuditOk(b', a')
  {
    forall u ensures Tracks(b', a', u) {
      Untouched(b, a, u, b', a');
    }
  }

  lemma StakeKeepsAudit(u: Book, t: Audit, now: nat, user: Address, stake: int)
    requires BookOk(u, now) && AuditOk(u, t) && Owing(u, user).Ok?
    ensures AuditOk(Put(u, user, Owing(u, user).value, stake, u.pool), t.(settlements := AddOne(t.settlements, user)))
  {
    var b' := Put(u, user, Owing(u, user).value, stake, u.pool);
    var a' := t.(settlements := AddOne(t.settlements, user));
    PutKeepsAudit(u, t, now, user, Owing(u, user).value, stake, 0);
    SumSet(t.paidOut, user, Get(t.paidOut, user));
    AuditReadsAlike(b', a'.(paidOut := t.paidOut[user := Get(t.paidOut, user) + 0]), b', a');
  }

  lemma ClaimKeepsAudit(u: Book, t: Audit, now: nat, user: Address)
    requires BookOk(u, now) && AuditOk(u, t) && Owing(u, user).Ok?
    ensures var owing := Owing(u, user).value;
            AuditOk(Settled(u, user, 0).(pool := u.pool - owing),
                    t.(paidOut := t.paidOut[user := Get(t.paidOut, user) + owing],
                       settlements := AddOne(t.settlements, user)))
  {
    var owing := Owing(u, user).value;
    OwingFloors(u, now, user);
    var b' := Put(u, user, 0, Get(u.stake, user), u.pool - owing);
    var a' := t.(paidOut := t.paidOut[user := Get(t.paidOut, user) + owing],
                 settlements := AddOne(t.settlements, user));
    PutKeepsAudit(u, t, now, user, 0, Get(u.stake, user), owing);
    AuditReadsAlike(b', a', Settled(u, user, 0).(pool := u.pool - owing), a');
  }

  ghost predicate Kept(b: Book, a: Audit, now: nat) {
    BookOk(b, now) && AuditOk(b, a) && InStep(b, a)
  }

  lemma NotifyKeeps(u: Book, t: Audit, now: nat, pool: int, amount: int)
    requires Kept(u, t, now) && u.lastUpdate == Some(now) && pool == u.pool + amount <= I128_MAX && amount > 0
    ensures Kept(u.(pool := pool, rate := Quot(amount * SCALE, WINDOW), lastUpdate := Some(now)),
                 t.(notified := t.notified + amount, lastNotice := amount, charged := 0), now)
  {
    var b := u.(pool := pool, rate := Quot(amount * SCALE, WINDOW), lastUpdate := Some(now));
    var a := t.(notified := t.notified + amount, lastNotice := amount, charged := 0);
    QuotBounds(amount * SCALE, WINDOW);
    forall v ensures UserOk(b, v) && Tracks(b, a, v) {
      assert UserOk(u, v) && Tracks(u, t, v);
      Untouched(u, t, v, b, a);
    }
  }

  lemma StakeKeeps(u: Book, t: Audit, now: nat, user: Address, stake: int)
    requires Kept(u, t, now) && Owing(u, user).Ok? && stake >= 0
    ensures Kept(Put(u, user, Owing(u, user).value, stake, u.pool), t.(settlements := AddOne(t.settlements, user)), now)
  {
    OwingFloors(u, now, user);
    PutKeepsBook(u, now, user, Owing(u, user).value, stake, u.pool);
    StakeKeepsAudit(u, t, now, user, stake);
  }

  lemma ClaimKeeps(u: Book, t: Audit, now: nat, user: Address)
    requires Kept(u, t, now) && Owing(u, user).Ok? && Owing(u, user).value <= u.pool
    ensures var owing := Owing(u, user).value;
            Kept(Settled(u, user, 0).(pool := u.pool - owing),
                 t.(paidOut := t.paidOut[user := Get(t.paidOut, user) + owing],
                    settlements := AddOne(t.settlements, user)), now)
  {
    OwingFloors(u, now, user);
    ClaimKeepsAudit(u, t, now, user);
    var b := Settled(u, user, 0).(pool := u.pool - Owing(u, user).value);
    forall v ensures UserOk(b, v) {
      assert UserOk(u, v);
    }
  }

  /** What a successful call does to the storage once the update is done. */
  ghost predicate Acts(u: Book, c: Call, now: nat, b: Book, answer: int) {
    match c
    case Notify(amount) =>
      amount > 0 && Fits(u.pool + amount)
        && b == u.(pool := u.pool + amount, rate := Quot(amount * SCALE, WINDOW), lastUpdate := Some(now))
    case Stake(user, amount) =>
      && amount > 0 && Owing(u, user).Ok?
      && b == Put(u, user, Owing(u, user).value, Get(u.stake, user) + amount, u.pool)
    case Unstake(user, amount) =>
      && 0 < amount <= Get(u.stake, user) && Owing(u, user).Ok?
      && b == Put(u, user, Owing(u, user).value, Get(u.stake, user) - amount, u.pool)
    case Claim(user) =>
      && Owing(u, user) == Ok(answer)
      && (answer != 0 ==> answer <= u.pool)
      && b == (if answer == 0 then u else Settled(u, user, 0).(pool := u.pool - answer))
    case Query(_) => b == u
    case Wait(_) => false
  }

  lemma CallActs(b: Book, c: Call, now: nat)
    requires !c.Wait? && Apply(b, c, now).Ok?
    ensures Updated(b, now).Ok?
    ensures Acts(Updated(b, now).value, c, now, Apply(b, c, now).value.0, Apply(b, c, now).value.1)
  {
    hide Updated, Owing;
  }

  lemma CallKeeps(b: Book, a: Audit, c: Call, now: nat)
    requires Kept(b, a, now) && !c.Wait? && Apply(b, c, now).Ok?
    ensures Updated(b, now).Ok?
    ensures Kept(Apply(b, c, now).value.0,
                 Booked(Accrual(a, b, Updated(b, now).value, now), c, Apply(b, c, now).value.1), now)
  {
    CallActs(b, c, now);
    var u, r := Updated(b, now).value, Apply(b, c, now).value;
    UpdateKeepsBook(b, now);
    UpdateKeepsAudit(b, a, now);
    UpdateKeepsFrame(b, now);
    AfterUpdateKeeps(u, Accrual(a, b, u, now), c, now, r.0, r.1);
  }

  lemma StakeNonNegative(u: Book, t: Audit, now: nat, user: Address)
    requires Kept(u, t, now)
    ensures Get(u.stake, user) >= 0
  {
    assert UserOk(u, user);
  }

  lemma AfterUpdateKeeps(u: Book, t: Audit, c: Call, now: nat, b': Book, answer: int)
    requires Kept(u, t, now) && u.lastUpdate == Some(now) && Acts(u, c, now, b', answer)
    ensures Kept(b', Booked(t, c, answer), now)
  {
    hide Kept, Owing, Put, Settled;
    match c {
      case Notify(amount) =>
        NotifyKeeps(u, t, now, u.pool + amount, amount);
      case Stake(user, amount) =>
        StakeNonNegative(u, t, now, user);
        StakeKeeps(u, t, now, user, Get(u.stake, user) + amount);
      case Unstake(user, amount) =>
        StakeKeeps(u, t, now, user, Get(u.stake, user) - amount);
      case Claim(user) =>
        if answer != 0 {
          ClaimKeeps(u, t, now, user);
        }
      case Query(_) =>
    }
  }

  lemma CallKeepsFunded(b: Book, a: Audit, c: Call, now: nat)
    requires BookOk(b, now) && !c.Wait? && Apply(b, c, now).Ok?
    requires FundedOk(b, a) && InStep(b, a)
    ensures Updated(b, now).Ok?
    ensures FundedOk(Apply(b, c, now).value.0,
                     Booked(Accrual(a, b, Updated(b, now).value, now), c, Apply(b, c, now).value.1))
  {
    CallActs(b, c, now);
    var u := Updated(b, now).value;
    var t := Accrual(a, b, u, now);
    UpdateKeepsBook(b, now);
    UpdateKeepsFunded(b, a, now);
    if c.Notify? {
      NoticeKeepsFunded(u, t, c.amount, Quot(c.amount * SCALE, WINDOW));
    }
  }

  lemma NoticeKeepsFunded(u: Book, t: Audit, amount: int, rate: int)
    requires FundedOk(u, t) && u.rate >= 0 && amount > 0 && rate == Quot(amount * SCALE, WINDOW)
    ensures forall pool, last ::
              FundedOk(u.(pool := pool, rate := rate, lastUpdate := last),
                       t.(notified := t.notified + amount, lastNotice := amount, charged := 0))
  {
    QuotBounds(amount * SCALE, WINDOW);
    if t.longest <= WINDOW {
      MulMono(t.charged, WINDOW, u.rate);
    }
    assert rate * 0 == 0;
  }

  lemma StepKeepsInv(w: World, c: Call)
    requires Inv(w)
    ensures Inv(Step(w, c))
  {
    if !c.Wait? && Apply(w.book, c, w.now).Ok? {
      CallKeeps(w.book, w.audit, c, w.now);
      CallKeepsFunded(w.book, w.audit, c, w.now);
    }
  }

  lemma {:induction false} RunKeepsInv(w: World, cs: seq<Call>)
    requires Inv(w)
    ensures Inv(Run(w, cs))
    decreases cs
  {
    if cs != [] {
      StepKeepsInv(w, cs[0]);
      RunKeepsInv(Step(w, cs[0]), cs[1..]);
    }
  }

  lemma StartInv()
    ensures Inv(Start)
  {
    assert forall u :: Tracks(Start.book, Start.audit, u);
  }

  lemma {:induction false} Reachable(cs: seq<Call>)
    ensures Inv(Run(Start, cs))
  {
    StartInv();
    RunKeepsInv(Start, cs);
  }

  // ---------------------------------------------------------------- theorems

  /** Scaled unpaid claim of `user`: accrued plus the part not yet settled. */
  function Liability(b: Book, user: Address): int {
    SCALE * Get(b.accrued, user) + Get(b.stake, user) * (b.rpt - Get(b.paid, user))
  }

  ghost function Liabilities(b: Book): (m: map<Address, int>)
    ensures forall u :: Get(m, u) == Liability(b, u)
  {
    map u | u in b.stake.Keys + b.accrued.Keys :: Liability(b, u)
  }

  lemma PaidAndOwedWithinEmission(b: Book, a: Audit)
    requires AuditOk(b, a)
    ensures SCALE * Sum(a.paidOut) + Sum(Liabilities(b)) <= a.emitted
  {
    var l := Liabilities(b);
    var ks := l.Keys + a.paidOut.Keys + a.entitled.Keys;
    var all := AddScaled(l, a.paidOut, SCALE);
    SumAddScaled(l, a.paidOut, SCALE);
    SumExtra(ks, all);
    SumExtra(ks, a.entitled);
    forall u | u in ks ensures Get(all, u) <= Get(a.entitled, u) {
      assert Tracks(b, a, u);
    }
    SumMono(ks, all, a.entitled);
  }

  /** Conservation: in every run, everything paid and owed fits in the emission charged so far. */
  lemma {:induction false} RewardConservation(cs: seq<Call>)
    ensures var w := Run(Start, cs);
            && SCALE * Sum(w.audit.paidOut) + Sum(Liabilities(w.book)) <= w.audit.emitted
            && w.book.totalStaked == Sum(w.book.stake)
            && w.book.pool == w.audit.notified - Sum(w.audit.paidOut)
  {
    Reachable(cs);
    PaidAndOwedWithinEmission(Run(Start, cs).book, Run(Start, cs).audit);
  }

  /**
   * The index scheme against paying every staker at every update: no user is
   * ever ahead of it, and each falls behind by less than one unit per settlement
   * of their own. The eager model itself loses at most one index step, that is
   * `totalStaked`, per update.
   */
  lemma {:induction false} LazyRefinesEager(cs: seq<Call>, user: Address)
    ensures var w := Run(Start, cs);
            && Lazy(w.book, w.audit, user) <= Get(w.audit.entitled, user)
            && Get(w.audit.entitled, user) <= Lazy(w.book, w.audit, user) + (SCALE - 1) * Get(w.audit.settlements, user)
            && Sum(w.audit.entitled) <= w.audit.emitted <= Sum(w.audit.entitled) + w.audit.dust
  {
    Reachable(cs);
    assert Tracks(Run(Start, cs).book, Run(Start, cs).audit, user);
  }

  lemma LiabilityNonNegative(b: Book, now: nat, user: Address)
    requires BookOk(b, now)
    ensures Liability(b, user) >= 0
  {
    if Get(b.stake, user) > 0 {
      MulMono(0, b.rpt - Get(b.paid, user), Get(b.stake, user));
    }
  }

  lemma FundedClaimIsPaid(b: Book, a: Audit, now: nat, user: Address)
    requires BookOk(b, now) && AuditOk(b, a) && Owing(b, user).Ok?
    requires a.emitted <= SCALE * a.notified
    ensures Owing(b, user).value <= b.pool
  {
    PaidAndOwedWithinEmission(b, a);
    forall u ensures Get(Liabilities(b), u) >= 0 {
      LiabilityNonNegative(b, now, u);
    }
    EntryAtMostSum(Liabilities(b), user);
    OwingFloors(b, now, user);
  }

  lemma FundedWorldPays(w: World, user: Address)
    requires Inv(w) && w.audit.emitted + Due(w.audit, w.book, w.now) * w.book.rate <= SCALE * w.audit.notified
    ensures Claimed(w.book, user, w.now) != Revert(InsufficientRewardPool)
  {
    var r := Updated(w.book, w.now);
    if r.Ok? && Owing(r.value, user).Ok? {
      var t := Accrual(w.audit, w.book, r.value, w.now);
      UpdateKeepsBook(w.book, w.now);
      UpdateKeepsAudit(w.book, w.audit, w.now);
      FundedClaimIsPaid(r.value, t, w.now, user);
    }
  }

  /**
   * Solvency: while the emission charged so far, counting the update the claim
   * itself performs, is within what was notified, no claim by anybody finds the
   * reward pool too small.
   */
  lemma {:induction false} NoClaimFindsThePoolShort(cs: seq<Call>, user: Address)
    ensures var w := Run(Start, cs);
            w.audit.emitted + Due(w.audit, w.book, w.now) * w.book.rate <= SCALE * w.audit.notified
            ==> Claimed(w.book, user, w.now) != Revert(InsufficientRewardPool)
  {
    hide *;
    Reachable(cs);
    var w := Run(Start, cs);
    if w.audit.emitted + Due(w.audit, w.book, w.now) * w.book.rate <= SCALE * w.audit.notified {
      FundedWorldPays(w, user);
    }
  }

  /** A week per rate is one way to stay within the notices. */
  lemma {:induction false} ClaimsWithinTheWeekArePaid(cs: seq<Call>, user: Address)
    ensures var w := Run(Start, cs);
            Max(w.audit.longest, w.audit.charged + Due(w.audit, w.book, w.now)) <= WINDOW
            ==> Claimed(w.book, user, w.now) != Revert(InsufficientRewardPool)
  {
    hide Run, Due, Claimed, BookOk, AuditOk, FundedOk;
    Reachable(cs);
    var w := Run(Start, cs);
    NoClaimFindsThePoolShort(cs, user);
    RateNonNegative(w.book, w.now);
    WeekCoversEmission(w.book, w.audit, Due(w.audit, w.book, w.now));
  }

  lemma RateNonNegative(b: Book, now: nat)
    requires BookOk(b, now)
    ensures b.rate >= 0
  {
  }

  lemma WeekCoversEmission(b: Book, a: Audit, n: nat)
    requires FundedOk(b, a) && b.rate >= 0
    ensures Max(a.longest, a.charged + n) <= WINDOW ==> a.emitted + n * b.rate <= SCALE * a.notified
  {
    assert b.rate * (a.charged + n) == b.rate * a.charged + n * b.rate;
    if a.charged + n <= WINDOW {
      MulMono(a.charged + n, WINDOW, b.rate);
    }
  }

  // ---------------------------------------------------------------- emission beyond the notices

  ghost predicate AllOwingsFit(b: Book) {
    forall u :: Owing(b, u).Ok?
  }

  /** What every user would be paid by a claim. */
  ghost function Owings(b: Book): (m: map<Address, int>)
    requires AllOwingsFit(b)
    ensures forall u :: Get(m, u) == Owing(b, u).value
  {
    map u | u in b.stake.Keys + b.accrued.Keys :: Owing(b, u).value
  }

  /** The settlements of a user, counting the one their next claim performs. */
  ghost function Settling(b: Book, a: Audit): (m: map<Address, int>)
    ensures forall u :: Get(m, u) == Get(a.settlements, u) + (if u in b.stake then 1 else 0)
  {
    map u | u in a.settlements.Keys + b.stake.Keys :: Get(a.settlements, u) + (if u in b.stake then 1 else 0)
  }

  ghost function Ones(ks: set<Address>): (m: map<Address, int>)
    ensures m.Keys == ks && forall u :: Get(m, u) == (if u in ks then 1 else 0)
  {
    map u | u in ks :: 1
  }

  lemma {:induction false} SumOfOnes(ks: set<Address>)
    ensures Sum(Ones(ks)) == |ks|
    decreases ks
  {
    if k :| k in ks {
      SumOfOnes(ks - {k});
      SumExtra(ks - {k}, Ones(ks - {k}));
      SumPick(ks, Ones(ks), k);
      SumSame(ks - {k}, Ones(ks), Ones(ks - {k}));
    }
  }

  lemma SettlingCounts(b: Book, a: Audit)
    ensures Sum(Settling(b, a)) == Sum(a.settlements) + |b.stake.Keys|
  {
    var ks := a.settlements.Keys + b.stake.Keys;
    var ones := Ones(b.stake.Keys);
    SumOfOnes(b.stake.Keys);
    SumExtra(ks, Settling(b, a));
    SumExtra(ks, a.settlements);
    SumExtra(ks, ones);
    SumLinear(ks, a.settlements, ones, Settling(b, a), 1);
  }

  /** The eager entitlement of one user, from what they were paid, are owed and lost in fractions. */
  lemma EntitledWithinFractions(b: Book, a: Audit, now: nat, user: Address)
    requires BookOk(b, now) && Tracks(b, a, user) && Owing(b, user).Ok?
    ensures Get(a.entitled, user)
            <= SCALE * (Get(a.paidOut, user) + Owing(b, user).value)
               + (SCALE - 1) * (Get(a.settlements, user) + (if user in b.stake then 1 else 0))
  {
    OwingFloors(b, now, user);
  }

  /** The most each user can be entitled to: what was paid, is owed and was lost in fractions. */
  function Budget(paid: map<Address, int>, owed: map<Address, int>, settled: map<Address, int>): (m: map<Address, int>)
    ensures forall u :: Get(m, u) == SCALE * (Get(paid, u) + Get(owed, u)) + (SCALE - 1) * Get(settled, u)
  {
    map u | u in paid.Keys + owed.Keys + settled.Keys ::
      SCALE * (Get(paid, u) + Get(owed, u)) + (SCALE - 1) * Get(settled, u)
  }

  lemma {:induction false} SumBudgetOver(ks: set<Address>, paid: map<Address, int>, owed: map<Address, int>,
                                         settled: map<Address, int>, all: map<Address, int>)
    requires forall u :: Get(all, u) == SCALE * (Get(paid, u) + Get(owed, u)) + (SCALE - 1) * Get(settled, u)
    ensures SumOver(ks, all) == SCALE * (SumOver(ks, paid) + SumOver(ks, owed)) + (SCALE - 1) * SumOver(ks, settled)
    decreases ks
  {
    if k :| k in ks {
      SumPick(ks, paid, k);
      SumPick(ks, owed, k);
      SumPick(ks, settled, k);
      SumPick(ks, all, k);
      SumBudgetOver(ks - {k}, paid, owed, settled, all);
    }
  }

  lemma SumBudget(paid: map<Address, int>, owed: map<Address, int>, settled: map<Address, int>)
    ensures Sum(Budget(paid, owed, settled)) == SCALE * (Sum(paid) + Sum(owed)) + (SCALE - 1) * Sum(settled)
  {
    var ks := paid.Keys + owed.Keys + settled.Keys;
    SumExtra(ks, paid);
    SumExtra(ks, owed);
    SumExtra(ks, settled);
    SumExtra(ks, Budget(paid, owed, settled));
    SumBudgetOver(ks, paid, owed, settled, Budget(paid, owed, settled));
  }

  lemma EntitledWithinBudget(b: Book, a: Audit, now: nat)
    requires BookOk(b, now) && AuditOk(b, a) && AllOwingsFit(b)
    ensures Sum(a.entitled) <= Sum(Budget(a.paidOut, Owings(b), Settling(b, a)))
  {
    hide Owing;
    var all := Budget(a.paidOut, Owings(b), Settling(b, a));
    var ks := all.Keys + a.entitled.Keys;
    SumExtra(ks, all);
    SumExtra(ks, a.entitled);
    forall u | u in ks ensures Get(a.entitled, u) <= Get(all, u) {
      assert Tracks(b, a, u) && Owing(b, u).Ok?;
      EntitledWithinFractions(b, a, now, u);
    }
    SumMono(ks, a.entitled, all);
  }

  lemma EmissionWithinFractions(b: Book, a: Audit, now: nat)
    requires BookOk(b, now) && AuditOk(b, a) && AllOwingsFit(b)
    ensures a.emitted <= SCALE * (Sum(a.paidOut) + Sum(Owings(b))) + a.dust
                         + (SCALE - 1) * (Sum(a.settlements) + |b.stake.Keys|)
  {
    hide Owing, BookOk, Tracks;
    EntitledWithinBudget(b, a, now);
    SumBudget(a.paidOut, Owings(b), Settling(b, a));
    SettlingCounts(b, a);
  }

  /**
   * The converse, up to fractions: once the emission exceeds the notices by more
   * than the dropped fractions (one index step per update, less than one unit per
   * settlement, and less than one unit for each staker's next settlement), the
   * pool is smaller than what its users are owed together.
   */
  lemma {:induction false} EmissionBeyondNoticesCannotBePaid(cs: seq<Call>)
    requires Updated(Run(Start, cs).book, Run(Start, cs).now).Ok?
    ensures var w := Run(Start, cs);
            var u := Updated(w.book, w.now).value;
            var a := Accrual(w.audit, w.book, u, w.now);
            AllOwingsFit(u) && a.emitted > SCALE * a.notified + a.dust
                                           + (SCALE - 1) * (Sum(a.settlements) + |u.stake.Keys|)
            ==> Sum(Owings(u)) > u.pool
  {
    Reachable(cs);
    var w := Run(Start, cs);
    var u := Updated(w.book, w.now).value;
    var a := Accrual(w.audit, w.book, u, w.now);
    UpdateKeepsBook(w.book, w.now);
    UpdateKeepsAudit(w.book, w.audit, w.now);
    if AllOwingsFit(u) {
      EmissionWithinFractions(u, a, w.now);
      PoolIsNoticesLessPaid(u, a);
    }
  }

  lemma PoolIsNoticesLessPaid(b: Book, a: Audit)
    requires AuditOk(b, a)
    ensures b.pool == a.notified - Sum(a.paidOut)
  {
  }

  /** One unit staked at ledger 0 against a rate of `k` units per ledger. */
  function LoneStaker(k: int, user: Address): Book {
    Book(1, WINDOW * k, k * SCALE, Some(0), 0, map[user := 1], map[user := 0], map[user := 0])
  }

  lemma RunThree(w: World, c0: Call, c1: Call, c2: Call)
    ensures Run(w, [c0, c1, c2]) == Step(Step(Step(w, c0), c1), c2)
  {
    var cs := [c0, c1, c2];
    assert cs[1..] == [c1, c2] && [c1, c2][1..] == [c2] && [c2][1..] == [];
    assert Run(Step(Step(w, c0), c1), [c2]) == Step(Step(Step(w, c0), c1), c2);
    assert Run(Step(w, c0), [c1, c2]) == Run(Step(Step(w, c0), c1), [c2]);
  }

  lemma FirstNotice(k: int)
    requires 0 < k && WINDOW * k * SCALE <= I128_MAX
    ensures Notified(Empty, WINDOW * k, 0)
            == Ok((Empty.(pool := WINDOW * k, rate := k * SCALE, lastUpdate := Some(0)), 0))
  {
    assert Quot(WINDOW * k * SCALE, WINDOW) == k * SCALE;
  }

  lemma FirstStake(k: int, user: Address)
    requires 0 < k && WINDOW * k * SCALE <= I128_MAX
    ensures Staked(Empty.(pool := WINDOW * k, rate := k * SCALE, lastUpdate := Some(0)), user, 1, 0)
            == Ok((LoneStaker(k, user), 0))
  {
    var b := Empty.(pool := WINDOW * k, rate := k * SCALE, lastUpdate := Some(0));
    assert Updated(b, 0) == Ok(b) && Owing(b, user) == Ok(0);
  }

  lemma LoneStakerIsReached(k: int, n: nat, user: Address)
    requires 0 < k && WINDOW * k * SCALE <= I128_MAX
    ensures var w := Run(Start, [Notify(WINDOW * k), Stake(user, 1), Wait(n)]);
            w.book == LoneStaker(k, user) && w.now == n
  {
    hide Notified, Staked, Updated, Accrual, LoneStaker, Run;
    FirstNotice(k);
    FirstStake(k, user);
    RunThree(Start, Notify(WINDOW * k), Stake(user, 1), Wait(n));
    var w1 := Step(Start, Notify(WINDOW * k));
    assert w1.book == Empty.(pool := WINDOW * k, rate := k * SCALE, lastUpdate := Some(0)) && w1.now == 0;
    var w2 := Step(w1, Stake(user, 1));
    assert w2.book == LoneStaker(k, user) && w2.now == 0;
  }

  lemma LoneStakerOwing(k: int, n: nat, user: Address)
    requires 0 < k && n * k * SCALE <= I128_MAX
    ensures var b := LoneStaker(k, user);
            && Updated(b, n) == Ok(b.(rpt := n * k * SCALE, lastUpdate := Some(n)))
            && Owing(Updated(b, n).value, user) == Ok(n * k)
  {
    var b, e := LoneStaker(k, user), n * k * SCALE;
    assert n * (k * SCALE) == e;
    MulMono(0, n, k);
    if n > 0 {
      assert Charged(b, n) == n by {
        MulMono(1, k, SCALE);
      }
      QuotUnique(e, 1, e);
    }
    var u := b.(rpt := e, lastUpdate := Some(n));
    assert Updated(b, n) == Ok(u);
    assert Get(u.stake, user) * (u.rpt - Get(u.paid, user)) == e;
    QuotUnique(e, SCALE, n * k);
    assert Pending(u, user) == Ok(n * k);
  }

  lemma LoneStakerClaims(k: int, n: nat, user: Address)
    requires 0 < k && WINDOW * k * SCALE <= I128_MAX && n * k * SCALE <= I128_MAX
    ensures Claimed(LoneStaker(k, user), user, n) == Revert(InsufficientRewardPool) <==> n > WINDOW
  {
    LoneStakerOwing(k, n, user);
    if n > WINDOW {
      MulMono(WINDOW + 1, n, k);
    } else {
      MulMono(n, WINDOW, k);
      MulMono(0, n, k);
    }
  }

  /**
   * The week is exact. With one unit staked and `k` units notified per ledger of
   * the window, a claim `n` ledgers later fails for want of funds exactly when
   * `n` exceeds the window: nothing in the contract stops the rate.
   */
  lemma RateOutlivesItsFunding(k: int, n: nat, user: Address)
    requires 0 < k && WINDOW * k * SCALE <= I128_MAX && n * k * SCALE <= I128_MAX
    ensures var w := Run(Start, [Notify(WINDOW * k), Stake(user, 1), Wait(n)]);
            Claimed(w.book, user, w.now) == Revert(InsufficientRewardPool) <==> n > WINDOW
  {
    LoneStakerIsReached(k, n, user);
    LoneStakerClaims(k, n, user);
  }
}
