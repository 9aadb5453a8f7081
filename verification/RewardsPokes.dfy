/**
 * `earned` updates the index and may be called by anybody at any time. A run is
 * compared with the same run into which extra calls of `earned` were put, at
 * any places and by any users.
 */
module RewardsPokes {
  import opened Host
  import opened Lists
  import opened Totals
  import opened Rewards
  import opened RewardsRuns

  datatype Item = Own(call: Call) | Extra(caller: Address)

  /** The run without the extra calls. */
  function Plain(items: seq<Item>): seq<Call> {
    if items == [] then []
    else if items[0].Own? then [items[0].call] + Plain(items[1..])
    else Plain(items[1..])
  }

  function CallOf(item: Item): Call {
    match item
    case Own(c) => c
    case Extra(caller) => Query(caller)
  }

  /** The run with them. */
  function Padded(items: seq<Item>): seq<Call> {
    if items == [] then [] else [CallOf(items[0])] + Padded(items[1..])
  }

  predicate Succeeds(w: World, c: Call) {
    c.Wait? || Apply(w.book, c, w.now).Ok?
  }

  predicate AllSucceed(w: World, cs: seq<Call>)
    decreases cs
  {
    cs == [] || (Succeeds(w, cs[0]) && AllSucceed(Step(w, cs[0]), cs[1..]))
  }

  /** In the padded run from `v`, no call of the plain run fails; extra calls may. */
  predicate OwnSucceed(v: World, items: seq<Item>)
    decreases items
  {
    items == [] ||
    ((items[0].Own? ==> Succeeds(v, items[0].call)) && OwnSucceed(Step(v, CallOf(items[0])), items[1..]))
  }

  /** The index after an update at `t`. */
  function IndexAt(b: Book, t: nat): int {
    b.rpt + Share(Charged(b, t) * b.rate, b.totalStaked)
  }

  /** What `user` is owed at `now` has a 128-bit value, and so has its scaled form. */
  predicate OwingFits(b: Book, user: Address, now: nat) {
    var raw := Get(b.stake, user) * (IndexAt(b, now) - Get(b.paid, user));
    raw <= I128_MAX && Get(b.accrued, user) + Quot(raw, SCALE) <= I128_MAX
  }

  /** The only guards at which the two runs can part: the numbers fit 128 bits. */
  predicate Representable(b: Book, c: Call, now: nat) {
    match c
    case Notify(amount) => b.pool + amount <= I128_MAX
    case Stake(user, _) => OwingFits(b, user, now)
    case Unstake(user, _) => OwingFits(b, user, now)
    case Claim(user) => OwingFits(b, user, now)
    case Query(user) => OwingFits(b, user, now)
    case Wait(_) => true
  }

  predicate AllRepresentable(v: World, items: seq<Item>)
    decreases items
  {
    items == [] ||
    ((items[0].Own? ==> Representable(v.book, items[0].call, v.now))
     && AllRepresentable(Step(v, CallOf(items[0])), items[1..]))
  }

  // ---------------------------------------------------------------- the simulation

  function Clock(b: Book): nat {
    if b.lastUpdate.Some? then b.lastUpdate.value else 0
  }

  predicate SameTerms(b: Book, c: Book) {
    c.totalStaked == b.totalStaked && c.rate == b.rate && c.stake == b.stake
  }

  predicate UpdatedEarlier(b: Book, c: Book) {
    b.lastUpdate.Some? ==> c.lastUpdate.Some? && b.lastUpdate.value <= c.lastUpdate.value
  }

  function LazyAt(b: Book, a: Audit, t: nat, user: Address): int {
    Lazy(b.(rpt := IndexAt(b, t)), a, user)
  }

  ghost predicate BehindFor(w: World, v: World, user: Address) {
    && Get(v.audit.paidOut, user) <= Get(w.audit.paidOut, user)
    && Lazy(v.book, v.audit, user) <= LazyAt(w.book, w.audit, Clock(v.book), user)
  }

  /**
   * The padded run `v` against the plain run `w`: nobody was paid more, and once
   * `w` is brought to the clock of `v`, nobody's total of payments and claims is
   * higher in `v`.
   */
  ghost predicate Behind(w: World, v: World) {
    && Inv(w) && Inv(v) && v.now == w.now
    && SameTerms(w.book, v.book)
    && v.audit.notified == w.audit.notified
    && UpdatedEarlier(w.book, v.book)
    && v.book.rpt <= IndexAt(w.book, Clock(v.book))
    && forall u :: BehindFor(w, v, u)
  }

  ghost predicate LevelFor(b: Book, a: Audit, c: Book, d: Audit, user: Address) {
    && Get(d.paidOut, user) <= Get(a.paidOut, user)
    && Lazy(c, d, user) <= Lazy(b, a, user)
  }

  /** The same with both clocks at the same ledger. */
  ghost predicate Level(b: Book, a: Audit, c: Book, d: Audit) {
    && b.lastUpdate == c.lastUpdate && b.lastUpdate.Some?
    && SameTerms(b, c)
    && d.notified == a.notified
    && c.rpt <= b.rpt
    && forall u :: LevelFor(b, a, c, d, u)
  }

  // ---------------------------------------------------------------- updates

  lemma ShareFacts(e: int, t: int)
    requires e >= 0 && t > 0
    ensures Share(e, t) == Quot(e, t) >= 0
    ensures e == 0 ==> Share(e, t) == 0
  {
    QuotBounds(e, t);
    if e == 0 {
      QuotUnique(0, t, 0);
    }
  }

  lemma IndexAfterUpdate(b: Book, now: nat)
    requires BookOk(b, now) && Updated(b, now).Ok?
    ensures Updated(b, now).value == b.(rpt := IndexAt(b, now), lastUpdate := Some(now))
  {
    IdleIndex(b, now);
  }

  lemma IdleIndex(b: Book, t: nat)
    ensures Charged(b, t) == 0 && b.totalStaked >= 0 ==> IndexAt(b, t) == b.rpt
    ensures BookOk(b, t) ==> b.totalStaked >= 0
  {
    if BookOk(b, t) {
      SumOverNonNegative(b.stake.Keys, b.stake);
    }
    if b.totalStaked > 0 {
      ShareFacts(0, b.totalStaked);
    }
  }

  /** Splitting the time at an extra update floors twice instead of once. */
  lemma IndexSplit(b: Book, c: Book, now: nat)
    requires BookOk(b, now) && BookOk(c, now) && SameTerms(b, c) && UpdatedEarlier(b, c)
    ensures Charged(c, now) <= Charged(b, now)
    ensures 0 <= IndexAt(c, now) - c.rpt <= IndexAt(b, now) - IndexAt(b, Clock(c))
  {
    IdleIndex(b, now);
    IdleIndex(c, now);
    IdleIndex(b, Clock(c));
    var r, t := b.rate, b.totalStaked;
    if r != 0 && t != 0 {
      var x, y := Clock(c) - Clock(b), now - Clock(c);
      assert Charged(b, Clock(c)) == x && Charged(c, now) == y && Charged(b, now) == x + y;
      FlooredTwice(x, y, r, t);
    }
  }

  lemma FlooredTwice(x: nat, y: nat, r: int, t: int)
    requires r >= 0 && t > 0
    ensures 0 <= Share(y * r, t) <= Share((x + y) * r, t) - Share(x * r, t)
  {
    MulMono(0, x, r);
    MulMono(0, y, r);
    assert x * r + y * r == (x + y) * r;
    QuotSplit(x * r, y * r, t);
    ShareFacts(x * r, t);
    ShareFacts(y * r, t);
    ShareFacts((x + y) * r, t);
  }

  lemma GrowLess(s: int, x: int, y: int, d: int, e: int)
    requires s >= 0 && d <= e
    ensures s * (x + d) - s * x <= s * (y + e) - s * y
  {
    MulMono(d, e, s);
    assert s * (x + d) - s * x == s * d && s * (y + e) - s * y == s * e;
  }

  lemma UpdateLevelsFor(w: World, v: World, user: Address)
    requires Behind(w, v)
    requires IndexAt(v.book, v.now) - v.book.rpt <= IndexAt(w.book, v.now) - IndexAt(w.book, Clock(v.book))
    ensures LazyAt(v.book, v.audit, v.now, user) <= LazyAt(w.book, w.audit, w.now, user)
  {
    assert BehindFor(w, v, user) && UserOk(w.book, user);
    var b, c := w.book, v.book;
    var s := Get(b.stake, user);
    var d, e := IndexAt(c, v.now) - c.rpt, IndexAt(b, v.now) - IndexAt(b, Clock(c));
    GrowLess(s, c.rpt - Get(c.paid, user), IndexAt(b, Clock(c)) - Get(b.paid, user), d, e);
  }

  lemma UpdatedLazy(b: Book, a: Audit, now: nat, a': Audit, user: Address)
    requires BookOk(b, now) && Updated(b, now).Ok? && a'.paidOut == a.paidOut
    ensures Lazy(Updated(b, now).value, a', user) == LazyAt(b, a, now, user)
  {
    IndexAfterUpdate(b, now);
  }

  lemma BehindMeans(w: World, v: World)
    requires Behind(w, v)
    ensures BookOk(w.book, w.now) && BookOk(v.book, v.now)
    ensures w.now == v.now && SameTerms(w.book, v.book) && UpdatedEarlier(w.book, v.book)
    ensures v.audit.notified == w.audit.notified && v.book.rpt <= IndexAt(w.book, Clock(v.book))
    ensures Charged(v.book, v.now) <= Charged(w.book, w.now)
    ensures v.book.rpt <= IndexAt(v.book, v.now) <= IndexAt(w.book, w.now)
    ensures IndexAt(v.book, v.now) - v.book.rpt <= IndexAt(w.book, v.now) - IndexAt(w.book, Clock(v.book))
  {
    IndexSplit(w.book, v.book, w.now);
  }

  /** If the plain run can update, so can the padded one, and then the clocks agree. */
  lemma BothUpdate(w: World, v: World)
    requires Behind(w, v) && Updated(w.book, w.now).Ok?
    ensures Updated(v.book, v.now).Ok?
    ensures var b, c := Updated(w.book, w.now).value, Updated(v.book, v.now).value;
            Level(b, Accrual(w.audit, w.book, b, w.now), c, Accrual(v.audit, v.book, c, v.now))
  {
    BehindMeans(w, v);
    PaddedUpdates(w, v);
    IndexAfterUpdate(w.book, w.now);
    IndexAfterUpdate(v.book, v.now);
    var b, c := Updated(w.book, w.now).value, Updated(v.book, v.now).value;
    var a, d := Accrual(w.audit, w.book, b, w.now), Accrual(v.audit, v.book, c, v.now);
    hide Lazy, LazyAt, BookOk, Updated, IndexAt, Charged, Behind, Inv;
    forall u ensures LevelFor(b, a, c, d, u) {
      PaidNoMore(w, v, u);
      UpdateLevelsFor(w, v, u);
      UpdatedLazy(w.book, w.audit, w.now, a, u);
      UpdatedLazy(v.book, v.audit, v.now, d, u);
    }
  }

  lemma PaidNoMore(w: World, v: World, user: Address)
    requires Behind(w, v)
    ensures BehindFor(w, v, user)
  {
  }

  lemma PaddedUpdates(w: World, v: World)
    requires Behind(w, v) && Updated(w.book, w.now).Ok?
    ensures Updated(v.book, v.now).Ok?
  {
    BehindMeans(w, v);
    hide Behind;
    IndexAfterUpdate(w.book, w.now);
    UpdateKeepsBook(w.book, w.now);
    MulMono(Charged(v.book, v.now), Charged(w.book, w.now), w.book.rate);
    MulMono(0, Charged(v.book, v.now), w.book.rate);
  }

  lemma LevelIsBehind(b: Book, a: Audit, c: Book, d: Audit, now: nat)
    requires Level(b, a, c, d) && Inv(World(b, now, a)) && Inv(World(c, now, d))
    ensures Behind(World(b, now, a), World(c, now, d))
  {
    var w, v := World(b, now, a), World(c, now, d);
    IdleIndex(b, Clock(c));
    IdleIndex(b, now);
    forall u ensures BehindFor(w, v, u) {
      assert LevelFor(b, a, c, d, u);
    }
  }

  lemma ViewUpdates(b: Book, caller: Address, now: nat)
    ensures View(b, caller, now).Ok? ==> Updated(b, now).Ok? && View(b, caller, now).value.0 == Updated(b, now).value
  {
  }

  lemma ExtraStep(v: World, caller: Address)
    requires View(v.book, caller, v.now).Ok?
    ensures var x := Step(v, Query(caller));
            && x == World(View(v.book, caller, v.now).value.0, v.now, x.audit)
            && x.audit.paidOut == v.audit.paidOut && x.audit.notified == v.audit.notified
  {
    hide View, Updated;
  }

  /** An extra call of `earned` keeps the padded run behind, whether it succeeds or not. */
  lemma ExtraKeepsBehind(w: World, v: World, caller: Address)
    requires Behind(w, v)
    ensures Behind(w, Step(v, Query(caller)))
  {
    StepKeepsInv(v, Query(caller));
    ViewUpdates(v.book, caller, v.now);
    if View(v.book, caller, v.now).Ok? {
      var x := Step(v, Query(caller));
      ExtraStep(v, caller);
      BehindMeans(w, v);
      IndexAfterUpdate(v.book, v.now);
      hide Lazy, LazyAt, BookOk, Updated, IndexAt, Charged, Inv, View, Step;
      forall u ensures BehindFor(w, x, u) {
        PaidNoMore(w, v, u);
        UpdateLevelsFor(w, v, u);
        UpdatedLazy(v.book, v.audit, v.now, x.audit, u);
      }
    } else {
      hide Inv, BehindFor, View;
      assert Step(v, Query(caller)) == v;
    }
  }

  // ---------------------------------------------------------------- settlements

  /** Paid plus owed is the floored total. */
  lemma PaidPlusOwing(b: Book, a: Audit, now: nat, user: Address)
    requires BookOk(b, now) && Owing(b, user).Ok?
    ensures Owing(b, user).value >= 0
    ensures SCALE * (Get(a.paidOut, user) + Owing(b, user).value) <= Lazy(b, a, user)
    ensures Lazy(b, a, user) <= SCALE * (Get(a.paidOut, user) + Owing(b, user).value) + SCALE - 1
  {
    OwingFloors(b, now, user);
  }

  lemma FloorsCompare(b: Book, a: Audit, c: Book, d: Audit, now: nat, user: Address)
    requires BookOk(b, now) && BookOk(c, now) && LevelFor(b, a, c, d, user)
    requires Owing(b, user).Ok? && Owing(c, user).Ok?
    ensures Get(d.paidOut, user) + Owing(c, user).value <= Get(a.paidOut, user) + Owing(b, user).value
  {
    PaidPlusOwing(b, a, now, user);
    PaidPlusOwing(c, d, now, user);
  }

  lemma SettledLazy(b: Book, a: Audit, user: Address)
    requires Get(b.paid, user) == b.rpt
    ensures Lazy(b, a, user) == SCALE * (Get(a.paidOut, user) + Get(b.accrued, user))
  {
  }

  lemma OthersLazy(b: Book, a: Audit, b': Book, a': Audit, v: Address)
    requires b'.rpt == b.rpt && Get(b'.stake, v) == Get(b.stake, v) && Get(b'.paid, v) == Get(b.paid, v)
    requires Get(b'.accrued, v) == Get(b.accrued, v) && Get(a'.paidOut, v) == Get(a.paidOut, v)
    ensures Lazy(b', a', v) == Lazy(b, a, v)
  {
  }

  /** What a settlement at a stake or an unstake leaves of everybody's total. */
  lemma StakeLazy(b: Book, a: Audit, user: Address, owing: int, stake: int, v: Address)
    ensures Lazy(Put(b, user, owing, stake, b.pool), a.(settlements := AddOne(a.settlements, user)), v)
            == if v == user then SCALE * (Get(a.paidOut, user) + owing) else Lazy(b, a, v)
  {
    var b', a' := Put(b, user, owing, stake, b.pool), a.(settlements := AddOne(a.settlements, user));
    if v == user {
      SettledLazy(b', a', user);
    } else {
      OthersLazy(b, a, b', a', v);
    }
  }

  function ClaimedBook(b: Book, user: Address, owing: int): Book {
    if owing == 0 then b else Settled(b, user, 0).(pool := b.pool - owing)
  }

  /** A claim settles where something is owed, and only there. */
  lemma ClaimLazy(b: Book, a: Audit, user: Address, owing: int, v: Address)
    ensures Get(Booked(a, Claim(user), owing).paidOut, v) == Get(a.paidOut, v) + (if v == user then owing else 0)
    ensures Lazy(ClaimedBook(b, user, owing), Booked(a, Claim(user), owing), v)
            == if v == user && owing != 0 then SCALE * (Get(a.paidOut, user) + owing) else Lazy(b, a, v)
  {
    if owing != 0 {
      var b', a' := ClaimedBook(b, user, owing), Booked(a, Claim(user), owing);
      if v == user {
        SettledLazy(b', a', user);
      } else {
        OthersLazy(b, a, b', a', v);
      }
    }
  }

  lemma StakeKeepsLevelFor(b: Book, a: Audit, c: Book, d: Audit, now: nat, user: Address, stake: int, v: Address)
    requires BookOk(b, now) && BookOk(c, now) && LevelFor(b, a, c, d, user) && LevelFor(b, a, c, d, v)
    requires Owing(b, user).Ok? && Owing(c, user).Ok?
    ensures LevelFor(Put(b, user, Owing(b, user).value, stake, b.pool), a.(settlements := AddOne(a.settlements, user)),
                     Put(c, user, Owing(c, user).value, stake, c.pool), d.(settlements := AddOne(d.settlements, user)),
                       v)
  {
    hide Owing, Lazy, Put, BookOk, AddOne;
    FloorsCompare(b, a, c, d, now, user);
    StakeLazy(b, a, user, Owing(b, user).value, stake, v);
    StakeLazy(c, d, user, Owing(c, user).value, stake, v);
  }

  lemma ClaimKeepsLevelFor(b: Book, a: Audit, c: Book, d: Audit, now: nat, user: Address, v: Address)
    requires BookOk(b, now) && BookOk(c, now) && LevelFor(b, a, c, d, user) && LevelFor(b, a, c, d, v)
    requires Owing(b, user).Ok? && Owing(c, user).Ok?
    ensures var o, p := Owing(b, user).value, Owing(c, user).value;
            LevelFor(ClaimedBook(b, user, o), Booked(a, Claim(user), o),
                     ClaimedBook(c, user, p), Booked(d, Claim(user), p), v)
  {
    hide Owing, Lazy, ClaimedBook, Booked, BookOk;
    var o, p := Owing(b, user).value, Owing(c, user).value;
    FloorsCompare(b, a, c, d, now, user);
    PaidPlusOwing(b, a, now, user);
    PaidPlusOwing(c, d, now, user);
    ClaimLazy(b, a, user, o, v);
    ClaimLazy(c, d, user, p, v);
  }

  lemma ActsLevelFor(b: Book, a: Audit, c: Book, d: Audit, now: nat, call: Call, b': Book, c': Book, o: int, p: int,
                     v: Address)
    requires BookOk(b, now) && BookOk(c, now) && SameTerms(b, c) && forall u :: LevelFor(b, a, c, d, u)
    requires Acts(b, call, now, b', o) && Acts(c, call, now, c', p)
    ensures LevelFor(b', Booked(a, call, o), c', Booked(d, call, p), v)
  {
    hide Owing, Lazy, BookOk;
    assert LevelFor(b, a, c, d, v);
    match call {
      case Notify(amount) =>
        OthersLazy(b, a, b', Booked(a, call, o), v);
        OthersLazy(c, d, c', Booked(d, call, p), v);
      case Stake(user, amount) =>
        assert LevelFor(b, a, c, d, user);
        StakeKeepsLevelFor(b, a, c, d, now, user, Get(b.stake, user) + amount, v);
      case Unstake(user, amount) =>
        assert LevelFor(b, a, c, d, user);
        StakeKeepsLevelFor(b, a, c, d, now, user, Get(b.stake, user) - amount, v);
      case Claim(user) =>
        assert LevelFor(b, a, c, d, user);
        ClaimKeepsLevelFor(b, a, c, d, now, user, v);
      case Query(_) =>
    }
  }

  lemma ActsKeepTerms(b: Book, c: Book, call: Call, now: nat, b': Book, c': Book, o: int, p: int)
    requires SameTerms(b, c) && b.lastUpdate == c.lastUpdate == Some(now) && c.rpt <= b.rpt
    requires Acts(b, call, now, b', o) && Acts(c, call, now, c', p)
    ensures SameTerms(b', c') && b'.lastUpdate == c'.lastUpdate == Some(now) && c'.rpt <= b'.rpt
  {
    hide Owing;
  }

  lemma ActsKeepLevel(b: Book, a: Audit, c: Book, d: Audit, now: nat, call: Call, b': Book, c': Book, o: int, p: int)
    requires BookOk(b, now) && BookOk(c, now) && Level(b, a, c, d) && b.lastUpdate == Some(now)
    requires Acts(b, call, now, b', o) && Acts(c, call, now, c', p)
    ensures Level(b', Booked(a, call, o), c', Booked(d, call, p))
  {
    hide LevelFor, BookOk, Owing;
    var a', d' := Booked(a, call, o), Booked(d, call, p);
    forall u ensures LevelFor(b', a', c', d', u) {
      ActsLevelFor(b, a, c, d, now, call, b', c', o, p, u);
    }
    ActsKeepTerms(b, c, call, now, b', c', o, p);
  }

  // ---------------------------------------------------------------- one call on both sides

  lemma StepActs(w: World, c: Call)
    requires Inv(w) && !c.Wait? && Apply(w.book, c, w.now).Ok?
    ensures Updated(w.book, w.now).Ok?
    ensures var u, r := Updated(w.book, w.now).value, Apply(w.book, c, w.now).value;
            var t := Accrual(w.audit, w.book, u, w.now);
            && BookOk(u, w.now) && u.lastUpdate == Some(w.now)
            && Acts(u, c, w.now, r.0, r.1)
            && Step(w, c) == World(r.0, w.now, Booked(t, c, r.1))
            && Inv(Step(w, c))
  {
    hide Apply, Acts, Accrual, Booked;
    CallActs(w.book, c, w.now);
    UpdateKeepsBook(w.book, w.now);
    UpdateKeepsFrame(w.book, w.now);
    StepKeepsInv(w, c);
  }

  /** A call that succeeds in both runs keeps the padded one behind. */
  lemma OwnKeepsBehind(w: World, v: World, c: Call)
    requires Behind(w, v) && Succeeds(w, c) && Succeeds(v, c)
    ensures Behind(Step(w, c), Step(v, c))
  {
    if c.Wait? {
      StepKeepsInv(w, c);
      StepKeepsInv(v, c);
      forall u ensures BehindFor(Step(w, c), Step(v, c), u) {
        assert BehindFor(w, v, u);
      }
    } else {
      hide Apply, Acts, Accrual, Booked, Updated, BehindFor, LevelFor, Inv, BookOk, Step;
      StepActs(w, c);
      StepActs(v, c);
      BothUpdate(w, v);
      var b, x := Updated(w.book, w.now).value, Apply(w.book, c, w.now).value;
      var d, y := Updated(v.book, v.now).value, Apply(v.book, c, v.now).value;
      var a, e := Accrual(w.audit, w.book, b, w.now), Accrual(v.audit, v.book, d, v.now);
      ActsKeepLevel(b, a, d, e, w.now, c, x.0, y.0, x.1, y.1);
      LevelIsBehind(x.0, Booked(a, c, x.1), y.0, Booked(e, c, y.1), w.now);
    }
  }

  /** After the update, what fits is exactly what can be settled. */
  lemma OwingFitsIffOk(b: Book, now: nat, user: Address)
    requires BookOk(b, now) && Updated(b, now).Ok?
    ensures OwingFits(b, user, now) <==> Owing(Updated(b, now).value, user).Ok?
    ensures OwingFits(b, user, now) ==> View(b, user, now).Ok?
    ensures View(b, user, now).Ok? ==> OwingFits(b, user, now)
  {
    IndexAfterUpdate(b, now);
    UpdateKeepsBook(b, now);
    var u := Updated(b, now).value;
    assert UserOk(u, user);
    var s, x := Get(u.stake, user), u.rpt - Get(u.paid, user);
    if s > 0 {
      MulMono(0, x, s);
      MulMono(1, s, x);
      QuotBounds(s * x, SCALE);
    } else {
      assert s * x == 0;
    }
  }

  /** What is left after paying `user` is no less in the padded run. */
  lemma PoolCoversClaim(b: Book, a: Audit, c: Book, d: Audit, now: nat, user: Address)
    requires BookOk(b, now) && BookOk(c, now) && AuditOk(b, a) && AuditOk(c, d) && Level(b, a, c, d)
    requires Owing(b, user).Ok? && Owing(c, user).Ok?
    ensures c.pool - Owing(c, user).value >= b.pool - Owing(b, user).value
  {
    hide Owing, BookOk, Tracks, Lazy;
    assert LevelFor(b, a, c, d, user);
    FloorsCompare(b, a, c, d, now, user);
    var p, q := Get(a.paidOut, user) + Owing(b, user).value, Get(d.paidOut, user) + Owing(c, user).value;
    var m, n := a.paidOut[user := p], d.paidOut[user := q];
    SumSet(a.paidOut, user, p);
    SumSet(d.paidOut, user, q);
    forall u ensures Get(n, u) <= Get(m, u) {
      assert LevelFor(b, a, c, d, u);
    }
    var ks := m.Keys + n.Keys;
    SumExtra(ks, m);
    SumExtra(ks, n);
    SumMono(ks, n, m);
  }

  /** The padded claim never finds the pool too small where the plain claim did not. */
  lemma ClaimSucceeds(w: World, v: World, user: Address)
    requires Behind(w, v) && Claimed(w.book, user, w.now).Ok? && OwingFits(v.book, user, v.now)
    ensures Claimed(v.book, user, v.now).Ok?
  {
    BothUpdate(w, v);
    var b, c := Updated(w.book, w.now).value, Updated(v.book, v.now).value;
    UpdateKeepsBook(w.book, w.now);
    UpdateKeepsBook(v.book, v.now);
    UpdateKeepsAudit(w.book, w.audit, w.now);
    UpdateKeepsAudit(v.book, v.audit, v.now);
    OwingFitsIffOk(v.book, v.now, user);
    hide Updated, Owing, OwingFits, Level, Inv, AuditOk, Accrual;
    PoolCoversClaim(b, Accrual(w.audit, w.book, b, w.now), c, Accrual(v.audit, v.book, c, v.now), w.now, user);
    OwingFloors(c, v.now, user);
    assert UserOk(c, user);
  }

  /** Which calls go through, once the update and, where there is one, the settlement do. */
  lemma WhenApplied(b: Book, c: Call, now: nat)
    requires !c.Wait? && Updated(b, now).Ok?
    ensures c.Notify? ==> (Apply(b, c, now).Ok? <==> c.amount > 0 && Fits(b.pool + c.amount) && Fits(c.amount * SCALE))
    ensures c.Stake? ==> (Apply(b, c, now).Ok? <==>
              c.amount > 0 && Owing(Updated(b, now).value, c.user).Ok?
              && Fits(Get(b.stake, c.user) + c.amount) && Fits(b.totalStaked + c.amount))
    ensures c.Unstake? ==> (Apply(b, c, now).Ok? <==>
              0 < c.amount <= Get(b.stake, c.user) && Owing(Updated(b, now).value, c.user).Ok?
                && Fits(b.totalStaked - c.amount))
    ensures c.Claim? && Apply(b, c, now).Ok? ==> Owing(Updated(b, now).value, c.user).Ok?
  {
    UpdateKeepsFrame(b, now);
    hide Updated, Owing;
  }

  lemma RepresentableIffSucceeds(w: World, v: World, c: Call)
    requires Behind(w, v) && Succeeds(w, c)
    ensures Succeeds(v, c) <==> Representable(v.book, c, v.now)
  {
    if !c.Wait? {
      BehindMeans(w, v);
      PlainUpdates(w, c);
      PaddedUpdates(w, v);
      PoolNotNegative(v.book, v.now);
      WhenApplied(w.book, c, w.now);
      WhenApplied(v.book, c, v.now);
      if !c.Notify? {
        OwingFitsIffOk(v.book, v.now, c.user);
      }
      if c.Claim? && OwingFits(v.book, c.user, v.now) {
        ClaimSucceeds(w, v, c.user);
      }
      hide Behind, Updated, Owing, OwingFits, View, Claimed, Staked, Unstaked, Notified, BookOk;
    }
  }

  lemma PlainUpdates(w: World, c: Call)
    requires Succeeds(w, c) && !c.Wait?
    ensures Updated(w.book, w.now).Ok?
  {
    hide Updated, Owing;
  }

  lemma PoolNotNegative(b: Book, now: nat)
    requires BookOk(b, now)
    ensures b.pool >= 0
  {
  }

  // ---------------------------------------------------------------- whole runs

  lemma {:induction false} PaddedStaysBehind(w: World, v: World, items: seq<Item>)
    requires Behind(w, v) && AllSucceed(w, Plain(items))
    ensures OwnSucceed(v, items) <==> AllRepresentable(v, items)
    ensures OwnSucceed(v, items) ==> Behind(Run(w, Plain(items)), Run(v, Padded(items)))
    decreases items
  {
    if items != [] {
      hide Behind, Succeeds, Representable;
      var i, rest := items[0], items[1..];
      assert Padded(items)[1..] == Padded(rest);
      if i.Extra? {
        ExtraKeepsBehind(w, v, i.caller);
        PaddedStaysBehind(w, Step(v, Query(i.caller)), rest);
      } else {
        var c := i.call;
        assert Plain(items)[0] == c && Plain(items)[1..] == Plain(rest);
        RepresentableIffSucceeds(w, v, c);
        if Succeeds(v, c) {
          OwnKeepsBehind(w, v, c);
          PaddedStaysBehind(Step(w, c), Step(v, c), rest);
        }
      }
    }
  }

  lemma RunIsBehindItself(w: World)
    requires Inv(w)
    ensures Behind(w, w)
  {
    hide Lazy, AuditOk, FundedOk;
    IdleIndex(w.book, w.now);
    IdleIndex(w.book, Clock(w.book));
    assert w.book.(rpt := IndexAt(w.book, Clock(w.book))) == w.book;
  }

  lemma PoolHoldsNoLess(w: World, v: World)
    requires Behind(w, v)
    ensures forall user :: Get(v.audit.paidOut, user) <= Get(w.audit.paidOut, user)
    ensures v.book.pool >= w.book.pool
  {
    hide Lazy, LazyAt, IndexAt, BookOk, Tracks;
    forall u ensures Get(v.audit.paidOut, u) <= Get(w.audit.paidOut, u) {
      assert BehindFor(w, v, u);
    }
    var ks := w.audit.paidOut.Keys + v.audit.paidOut.Keys;
    SumExtra(ks, w.audit.paidOut);
    SumExtra(ks, v.audit.paidOut);
    SumMono(ks, v.audit.paidOut, w.audit.paidOut);
  }

  // ---------------------------------------------------------------- when every number fits

  lemma StepGrowsAudit(w: World, c: Call)
    requires Inv(w)
    ensures Step(w, c).audit.emitted >= w.audit.emitted && Step(w, c).audit.notified >= w.audit.notified
  {
    if !c.Wait? && Apply(w.book, c, w.now).Ok? {
      MulMono(0, Charged(w.book, w.now), w.book.rate);
    }
  }

  lemma {:induction false} RunGrowsAudit(w: World, cs: seq<Call>)
    requires Inv(w)
    ensures Run(w, cs).audit.emitted >= w.audit.emitted && Run(w, cs).audit.notified >= w.audit.notified
    decreases cs
  {
    if cs != [] {
      hide Inv, Step;
      StepGrowsAudit(w, cs[0]);
      StepKeepsInv(w, cs[0]);
      RunGrowsAudit(Step(w, cs[0]), cs[1..]);
    }
  }

  lemma PoolWithinNotices(b: Book, a: Audit)
    requires AuditOk(b, a)
    ensures b.pool <= a.notified
  {
    forall u ensures Get(a.paidOut, u) >= 0 {
      assert Tracks(b, a, u);
    }
    SumOverNonNegative(a.paidOut.Keys, a.paidOut);
  }

  lemma LazyWithinEmission(b: Book, a: Audit, now: nat, user: Address)
    requires BookOk(b, now) && AuditOk(b, a)
    ensures Lazy(b, a, user) <= a.emitted
  {
    hide Lazy;
    forall u ensures Get(a.entitled, u) >= 0 {
      assert Tracks(b, a, u) && UserOk(b, u);
      LazyNonNegative(b, a, now, u);
    }
    EntryAtMostSum(a.entitled, user);
    assert Tracks(b, a, user);
  }

  lemma LazyNonNegative(b: Book, a: Audit, now: nat, user: Address)
    requires BookOk(b, now) && Tracks(b, a, user)
    ensures Lazy(b, a, user) >= 0
  {
    LiabilityNonNegative(b, now, user);
    assert Lazy(b, a, user) == SCALE * Get(a.paidOut, user) + Liability(b, user);
  }

  /** A total that fits 128 bits has parts that fit. */
  lemma LazyFits(b: Book, a: Audit, now: nat, user: Address)
    requires BookOk(b, now) && Updated(b, now).Ok? && AuditOk(b, a)
    requires Lazy(Updated(b, now).value, a, user) <= I128_MAX
    ensures OwingFits(b, user, now)
  {
    UpdateKeepsBook(b, now);
    IndexAfterUpdate(b, now);
    var u := Updated(b, now).value;
    assert UserOk(u, user) && Tracks(b, a, user);
    var s, x := Get(u.stake, user), u.rpt - Get(u.paid, user);
    if s > 0 {
      MulMono(0, x, s);
    }
    QuotBounds(s * x, SCALE);
  }

  lemma SameLazy(b: Book, a: Audit, a': Audit, user: Address)
    requires a'.paidOut == a.paidOut
    ensures Lazy(b, a', user) == Lazy(b, a, user)
  {
  }

  lemma SettlementFits(w: World, v: World, user: Address)
    requires Behind(w, v) && Updated(w.book, w.now).Ok?
    requires w.audit.emitted + Charged(w.book, w.now) * w.book.rate <= I128_MAX
    ensures OwingFits(v.book, user, v.now)
  {
    BothUpdate(w, v);
    var b, c := Updated(w.book, w.now).value, Updated(v.book, v.now).value;
    var a, d := Accrual(w.audit, w.book, b, w.now), Accrual(v.audit, v.book, c, v.now);
    UpdateKeepsBook(w.book, w.now);
    UpdateKeepsAudit(w.book, w.audit, w.now);
    hide BookOk, AuditOk, Updated, Charged, Lazy, OwingFits, BehindFor;
    assert LevelFor(b, a, c, d, user);
    LazyWithinEmission(b, a, w.now, user);
    SameLazy(c, v.audit, d, user);
    LazyFits(v.book, v.audit, v.now, user);
  }

  lemma CallFits(w: World, v: World, c: Call)
    requires Behind(w, v) && Succeeds(w, c)
    requires Step(w, c).audit.emitted <= I128_MAX && Step(w, c).audit.notified <= I128_MAX
    ensures Representable(v.book, c, v.now)
  {
    if c.Notify? {
      PoolWithinNotices(v.book, v.audit);
    } else if !c.Wait? {
      StepActs(w, c);
      SettlementFits(w, v, match c case Stake(u, _) => u case Unstake(u, _) => u case Claim(u) => u case Query(u) => u);
    }
  }

  /**
   * Where the plain run's emission and notices stay within 128 bits, every call of
   * it succeeds in the padded run.
   */
  lemma {:induction false} PaddedSucceeds(w: World, v: World, items: seq<Item>)
    requires Behind(w, v) && AllSucceed(w, Plain(items))
    requires Run(w, Plain(items)).audit.emitted <= I128_MAX && Run(w, Plain(items)).audit.notified <= I128_MAX
    ensures OwnSucceed(v, items)
    decreases items
  {
    if items != [] {
      hide Behind, Succeeds, Representable;
      var i, rest := items[0], items[1..];
      if i.Extra? {
        ExtraKeepsBehind(w, v, i.caller);
        PaddedSucceeds(w, Step(v, Query(i.caller)), rest);
      } else {
        var c := i.call;
        assert Plain(items)[0] == c && Plain(items)[1..] == Plain(rest);
        BehindIsSound(w, v);
        StepKeepsInv(w, c);
        RunGrowsAudit(Step(w, c), Plain(rest));
        CallFits(w, v, c);
        RepresentableIffSucceeds(w, v, c);
        OwnKeepsBehind(w, v, c);
        PaddedSucceeds(Step(w, c), Step(v, c), rest);
      }
    }
  }

  lemma BehindIsSound(w: World, v: World)
    requires Behind(w, v)
    ensures Inv(w) && Inv(v)
  {
  }

  /**
   * Extra calls of `earned`, by anybody, anywhere in a run and however often.
   * When the calls of the plain run succeed, they succeed in the padded run too
   * except exactly where a number no longer fits 128 bits, which cannot happen
   * while the plain run's own emission and notices fit. Nobody is then paid more,
   * and the pool holds no less.
   */
  lemma {:induction false} ExtraQueriesNeverPayMore(items: seq<Item>)
    requires AllSucceed(Start, Plain(items))
    ensures OwnSucceed(Start, items) <==> AllRepresentable(Start, items)
    ensures var w, v := Run(Start, Plain(items)), Run(Start, Padded(items));
            && (w.audit.emitted <= I128_MAX && w.audit.notified <= I128_MAX ==> OwnSucceed(Start, items))
            && (OwnSucceed(Start, items) ==>
                  && (forall user :: Get(v.audit.paidOut, user) <= Get(w.audit.paidOut, user))
                  && v.book.pool >= w.book.pool)
  {
    hide *;
    StartInv();
    RunIsBehindItself(Start);
    PaddedStaysBehind(Start, Start, items);
    var w := Run(Start, Plain(items));
    if w.audit.emitted <= I128_MAX && w.audit.notified <= I128_MAX {
      PaddedSucceeds(Start, Start, items);
    }
    if OwnSucceed(Start, items) {
      PoolHoldsNoLess(w, Run(Start, Padded(items)));
    }
  }

  // ---------------------------------------------------------------- where the runs part

  /** `k` notices of one window's length each, and then `tail`. */
  function Funded(k: nat, tail: seq<Item>): seq<Item> {
    if k == 0 then tail else [Own(Notify(WINDOW))] + Funded(k - 1, tail)
  }

  /** Nobody staked, `pool` notified at ledger 0, one unit emitted per ledger. */
  function Idle(pool: int): Book {
    Empty.(pool := pool, rate := SCALE, lastUpdate := Some(0))
  }

  /** A stake so large that one ledger's emission is floored to no index step, but two ledgers' is not. */
  function Tail(user: Address, caller: Address, last: int): seq<Item> {
    [Own(Stake(user, 2 * SCALE)), Own(Wait(1)), Extra(caller), Own(Wait(1)), Own(Claim(user)), Own(Notify(last))]
  }

  function Large(user: Address, pool: int, at: nat, rpt: int): Book {
    Book(2 * SCALE, pool, SCALE, Some(at), rpt, map[user := 2 * SCALE], map[user := rpt], map[user := 0])
  }

  lemma LargeStake(user: Address, pool: int)
    ensures Staked(Idle(pool), user, 2 * SCALE, 0) == Ok((Large(user, pool, 0, 0), 0))
  {
    assert Updated(Idle(pool), 0) == Ok(Idle(pool));
    assert Owing(Idle(pool), user) == Ok(0);
  }

  lemma LargeUpdates(user: Address, pool: int)
    ensures Updated(Large(user, pool, 0, 0), 1) == Ok(Large(user, pool, 1, 0))
    ensures Updated(Large(user, pool, 1, 0), 2) == Ok(Large(user, pool, 2, 0))
    ensures Updated(Large(user, pool, 0, 0), 2) == Ok(Large(user, pool, 0, 0).(rpt := 1, lastUpdate := Some(2)))
  {
    assert Share(SCALE, 2 * SCALE) == 0 && Share(2 * SCALE, 2 * SCALE) == 1;
  }

  lemma LargeClaims(user: Address, caller: Address, pool: int)
    requires 2 <= pool <= I128_MAX
    ensures View(Large(user, pool, 0, 0), caller, 1).Ok?
    ensures View(Large(user, pool, 0, 0), caller, 1).value.0 == Large(user, pool, 1, 0)
    ensures Claimed(Large(user, pool, 1, 0), user, 2) == Ok((Large(user, pool, 2, 0), 0))
    ensures Claimed(Large(user, pool, 0, 0), user, 2) == Ok((Large(user, pool - 2, 2, 1), 2))
  {
    LargeUpdates(user, pool);
    var u := Large(user, pool, 0, 0).(rpt := 1, lastUpdate := Some(2));
    assert Owing(u, user) == Ok(2);
    assert Settled(u, user, 0).(pool := pool - 2) == Large(user, pool - 2, 2, 1);
    assert Owing(Large(user, pool, 2, 0), user) == Ok(0);
    assert Get(Large(user, pool, 1, 0).stake, caller) * 0 == 0;
  }

  lemma LastNotice(user: Address, pool: int, last: int)
    requires 2 <= pool && pool + last == I128_MAX + 2 && 0 < last && last * SCALE <= I128_MAX
    ensures Notified(Large(user, pool - 2, 2, 1), last, 2).Ok?
    ensures Notified(Large(user, pool, 2, 0), last, 2) == Revert(Overflow)
  {
  }

  lemma TailParts(w: World, user: Address, caller: Address, pool: int, last: int)
    requires w.book == Idle(pool) && w.now == 0
    requires 2 <= pool <= I128_MAX && pool + last == I128_MAX + 2 && 0 < last && last * SCALE <= I128_MAX
    ensures AllSucceed(w, Plain(Tail(user, caller, last))) && !OwnSucceed(w, Tail(user, caller, last))
  {
    var items := Tail(user, caller, last);
    var w1 := Step(w, Stake(user, 2 * SCALE));
    LargeStake(user, pool);
    LargeClaims(user, caller, pool);
    LastNotice(user, pool, last);
    var w2 := Step(w1, Wait(1));
    PlainTail(w2, user, caller, pool, last);
    PaddedTail(w2, user, caller, pool, last);
    assert items[1..][1..] == items[2..];
    assert Plain(items) == [items[0].call] + Plain(items[1..]) && Plain(items[1..]) == [Wait(1)] + Plain(items[2..]);
    assert Plain(items)[1..] == Plain(items[1..]) && Plain(items[1..])[1..] == Plain(items[2..]);
  }

  lemma PlainTail(w: World, user: Address, caller: Address, pool: int, last: int)
    requires w.book == Large(user, pool, 0, 0) && w.now == 1
    requires 2 <= pool <= I128_MAX && pool + last == I128_MAX + 2 && 0 < last && last * SCALE <= I128_MAX
    ensures AllSucceed(w, Plain(Tail(user, caller, last)[2..]))
  {
    var items := Tail(user, caller, last)[2..];
    assert Plain(items[3..]) == [Notify(last)];
    assert items[2..][1..] == items[3..] && items[1..][1..] == items[2..];
    assert Plain(items[2..]) == [Claim(user)] + [Notify(last)];
    assert Plain(items) == Plain(items[1..]) == [Wait(1)] + Plain(items[2..]);
    var cs := Plain(items);
    assert cs == [Wait(1), Claim(user), Notify(last)];
    assert cs[1..][1..][1..] == [];
    LargeClaims(user, caller, pool);
    LastNotice(user, pool, last);
    var w1 := Step(w, Wait(1));
    var w2 := Step(w1, Claim(user));
    assert Succeeds(w2, Notify(last));
    assert AllSucceed(w2, cs[2..]);
    assert cs[1..][1..] == cs[2..];
    assert AllSucceed(w1, cs[1..]);
  }

  lemma OwnFirst(v: World, i: Item, rest: seq<Item>)
    ensures OwnSucceed(v, [i] + rest) <==> (i.Own? ==> Succeeds(v, i.call)) && OwnSucceed(Step(v, CallOf(i)), rest)
  {
    hide Step, Succeeds;
    assert ([i] + rest)[1..] == rest;
  }

  lemma PaddedWorlds(w: World, user: Address, caller: Address, pool: int)
    requires w.book == Large(user, pool, 0, 0) && w.now == 1 && 2 <= pool <= I128_MAX
    ensures var v := Step(Step(Step(w, Query(caller)), Wait(1)), Claim(user));
            v.book == Large(user, pool, 2, 0) && v.now == 2
  {
    hide View, Claimed, Updated, Accrual;
    LargeClaims(user, caller, pool);
    var w1 := Step(w, Query(caller));
    assert w1.book == Large(user, pool, 1, 0) && w1.now == 1;
    var w2 := Step(w1, Wait(1));
    assert w2.book == Large(user, pool, 1, 0) && w2.now == 2;
  }

  lemma PaddedTail(w: World, user: Address, caller: Address, pool: int, last: int)
    requires w.book == Large(user, pool, 0, 0) && w.now == 1
    requires 2 <= pool <= I128_MAX && pool + last == I128_MAX + 2 && 0 < last && last * SCALE <= I128_MAX
    ensures !OwnSucceed(w, Tail(user, caller, last)[2..])
  {
    hide Step, OwnSucceed;
    PaddedWorlds(w, user, caller, pool);
    var w1 := Step(w, Query(caller));
    var w2 := Step(w1, Wait(1));
    var w3 := Step(w2, Claim(user));
    LastNotice(user, pool, last);
    var claim := [Own(Claim(user))] + ([Own(Notify(last))] + []);
    assert Tail(user, caller, last)[2..] == [Extra(caller)] + ([Own(Wait(1))] + claim);
    OwnFirst(w3, Own(Notify(last)), []);
    OwnFirst(w2, Own(Claim(user)), [Own(Notify(last))] + []);
    OwnFirst(w1, Own(Wait(1)), claim);
    OwnFirst(w, Extra(caller), [Own(Wait(1))] + claim);
  }

  lemma NoticeAddsAWindow(w: World, pool: int)
    requires w.book == (if pool == 0 then Empty else Idle(pool)) && w.now == 0
    requires 0 <= pool && pool + WINDOW <= I128_MAX
    ensures Succeeds(w, Notify(WINDOW))
    ensures Step(w, Notify(WINDOW)).book == Idle(pool + WINDOW) && Step(w, Notify(WINDOW)).now == 0
  {
    assert Quot(WINDOW * SCALE, WINDOW) == SCALE;
    assert Notified(w.book, WINDOW, 0) == Ok((Idle(pool + WINDOW), 0));
  }

  function AfterNotices(w: World, k: nat): World
    decreases k
  {
    if k == 0 then w else AfterNotices(Step(w, Notify(WINDOW)), k - 1)
  }

  predicate NoticesSucceed(w: World, k: nat)
    decreases k
  {
    k == 0 || (Succeeds(w, Notify(WINDOW)) && NoticesSucceed(Step(w, Notify(WINDOW)), k - 1))
  }

  lemma {:induction false} NoticesFillThePool(w: World, k: nat, pool: int, full: int)
    requires w.book == (if pool == 0 then Empty else Idle(pool)) && w.now == 0
    requires 0 <= pool && full == pool + WINDOW * k && 0 < full <= I128_MAX
    ensures NoticesSucceed(w, k) && AfterNotices(w, k).book == Idle(full) && AfterNotices(w, k).now == 0
    decreases k
  {
    if k > 0 {
      hide Step, Succeeds, Idle;
      NoticeAddsAWindow(w, pool);
      NoticesFillThePool(Step(w, Notify(WINDOW)), k - 1, pool + WINDOW, full);
    }
  }

  /** Once the notices succeed, both runs depend on `tail` alone. */
  lemma {:induction false} FundingParts(w: World, k: nat, tail: seq<Item>)
    requires NoticesSucceed(w, k)
    ensures AllSucceed(w, Plain(Funded(k, tail))) <==> AllSucceed(AfterNotices(w, k), Plain(tail))
    ensures OwnSucceed(w, Funded(k, tail)) <==> OwnSucceed(AfterNotices(w, k), tail)
    decreases k
  {
    if k > 0 {
      hide Step, Succeeds, OwnSucceed, AllSucceed, Plain;
      var rest, c := Funded(k - 1, tail), Notify(WINDOW);
      FundingParts(Step(w, c), k - 1, tail);
      PlainFirst(w, c, rest);
      OwnFirst(w, Own(c), rest);
    }
  }

  lemma PlainFirst(w: World, c: Call, rest: seq<Item>)
    ensures AllSucceed(w, Plain([Own(c)] + rest)) <==> Succeeds(w, c) && AllSucceed(Step(w, c), Plain(rest))
  {
    hide Step, Succeeds;
    assert ([Own(c)] + rest)[1..] == rest;
    assert ([c] + Plain(rest))[1..] == Plain(rest);
  }

  /**
   * That the padded run can part from the plain one: with the pool filled to the
   * last unit, the claim that paid two units made room for one more notice, and
   * the extra call that floored those two units away left no room for it.
   */
  lemma ExtraQueryCanBlockANotice(user: Address, caller: Address)
    ensures var k := I128_MAX / WINDOW;
            var items := Funded(k, Tail(user, caller, I128_MAX + 2 - WINDOW * k));
            AllSucceed(Start, Plain(items)) && !OwnSucceed(Start, items)
  {
    hide OwnSucceed, AllSucceed, Plain, Funded, Tail, Idle, AfterNotices, NoticesSucceed;
    var k := I128_MAX / WINDOW;
    var pool := WINDOW * k;
    DivBounds(I128_MAX, WINDOW);
    NoticesFillThePool(Start, k, 0, pool);
    FundingParts(Start, k, Tail(user, caller, I128_MAX + 2 - pool));
    TailParts(AfterNotices(Start, k), user, caller, pool, I128_MAX + 2 - pool);
  }

  // ---------------------------------------------------------------- what extra calls cost

  /** The storage after `earned` was called at each of the given ledgers, by the given callers. */
  function Poked(b: Book, callers: seq<Address>, ledgers: seq<nat>): Book
    requires |callers| == |ledgers|
    decreases ledgers
  {
    if ledgers == [] then b
    else Poked(After(b, View(b, callers[0], ledgers[0])), callers[1..], ledgers[1..])
  }

  /** Only the index and the clock depend on how often the contract was updated. */
  predicate SameButIndex(b: Book, c: Book) {
    b.(rpt := c.rpt, lastUpdate := c.lastUpdate) == c
  }

  lemma OnePokeLosesAtMostOne(b: Book, mid: nat, now: nat)
    requires BookOk(b, now) && b.lastUpdate.Some? && b.lastUpdate.value <= mid <= now
    requires Updated(b, now).Ok?
    ensures Updated(b, mid).Ok? && Updated(Updated(b, mid).value, now).Ok?
    ensures var direct, split := Updated(b, now).value.rpt, Updated(Updated(b, mid).value, now).value.rpt;
            b.rpt <= split <= direct <= split + 1
  {
    var x, y, t := mid - b.lastUpdate.value, now - mid, b.totalStaked;
    if b.rate != 0 && t != 0 {
      SumOverNonNegative(b.stake.Keys, b.stake);
      MulMono(0, x, b.rate);
      MulMono(0, y, b.rate);
      assert x * b.rate + y * b.rate == (x + y) * b.rate;
      QuotSplit(x * b.rate, y * b.rate, t);
      ShareFacts(x * b.rate, t);
      ShareFacts(y * b.rate, t);
      ShareFacts((x + y) * b.rate, t);
    }
  }

  lemma {:induction false} PokesLoseAtMostOneEach(b: Book, callers: seq<Address>, ledgers: seq<nat>, now: nat)
    requires |callers| == |ledgers|
    requires BookOk(b, now) && b.lastUpdate.Some? && Ascending(b.lastUpdate.value, ledgers, now)
    requires Updated(b, now).Ok?
    ensures var p := Poked(b, callers, ledgers);
            && SameButIndex(b, p) && BookOk(p, now)
            && Updated(p, now).Ok?
            && Updated(p, now).value.rpt <= Updated(b, now).value.rpt <= Updated(p, now).value.rpt + |ledgers|
    decreases ledgers
  {
    if ledgers != [] {
      var at := ledgers[0];
      AscendingEnds(at, ledgers[1..], now);
      if View(b, callers[0], at).Ok? {
        BookOkAt(b, now, at);
        UpdateKeepsBook(b, at);
        OnePokeLosesAtMostOne(b, at, now);
        PokesLoseAtMostOneEach(View(b, callers[0], at).value.0, callers[1..], ledgers[1..], now);
      } else {
        assert Ascending(b.lastUpdate.value, ledgers[1..], now);
        PokesLoseAtMostOneEach(b, callers[1..], ledgers[1..], now);
      }
    }
  }

  lemma BookOkAt(b: Book, now: nat, at: nat)
    requires BookOk(b, now) && (b.lastUpdate.Some? ==> b.lastUpdate.value <= at)
    ensures BookOk(b, at)
  {
  }

  lemma ClaimPaysOwing(b: Book, user: Address, now: nat)
    ensures Claimed(b, user, now).Ok? ==>
              Updated(b, now).Ok? && Owing(Updated(b, now).value, user) == Ok(Claimed(b, user, now).value.1)
  {
    hide Updated, Owing;
  }

  /** A lower index owes no more, and at most one step of the stake less per unit of index. */
  lemma OwingGap(u: Book, v: Book, now: nat, user: Address, k: nat)
    requires BookOk(u, now) && BookOk(v, now) && u == v.(rpt := u.rpt)
    requires v.rpt <= u.rpt <= v.rpt + k
    requires Owing(u, user).Ok?
    ensures Owing(v, user).Ok?
    ensures var direct, poked := Owing(u, user).value, Owing(v, user).value;
            0 <= poked <= direct && SCALE * (direct - poked) < Get(u.stake, user) * k + SCALE
  {
    var s, d, x := Get(u.stake, user), u.rpt - v.rpt, v.rpt - Get(v.paid, user);
    MulMono(0, d, s);
    MulMono(d, k, s);
    assert s * (x + d) == s * x + s * d;
    assert u.rpt - Get(u.paid, user) == x + d;
    if s > 0 {
      MulMono(0, x, s);
      QuotMono(s * x, s * (x + d), SCALE);
    }
    OwingFloors(u, now, user);
    OwingFloors(v, now, user);
  }

  /**
   * What a block of extra calls of `earned` before a claim can cost: less than one
   * unit plus one index step of the claimant's stake for each call. The claim
   * still succeeds.
   */
  lemma ExtraUpdatesCostLittle(b: Book, callers: seq<Address>, ledgers: seq<nat>, now: nat, user: Address)
    requires |callers| == |ledgers|
    requires BookOk(b, now) && b.lastUpdate.Some? && Ascending(b.lastUpdate.value, ledgers, now)
    requires Claimed(b, user, now).Ok?
    ensures Claimed(Poked(b, callers, ledgers), user, now).Ok?
    ensures var direct := Claimed(b, user, now).value.1;
            var poked := Claimed(Poked(b, callers, ledgers), user, now).value.1;
            && poked <= direct
            && SCALE * (direct - poked) < Get(b.stake, user) * |ledgers| + SCALE
  {
    hide Owing, Updated;
    var p := Poked(b, callers, ledgers);
    ClaimPaysOwing(b, user, now);
    PokesLoseAtMostOneEach(b, callers, ledgers, now);
    UpdateKeepsBook(b, now);
    UpdateKeepsBook(p, now);
    UpdateKeepsFrame(b, now);
    UpdateKeepsFrame(p, now);
    OwingGap(Updated(b, now).value, Updated(p, now).value, now, user, |ledgers|);
    ClaimPaysOwing(p, user, now);
  }

  /** `earned` shows exactly what a claim at the same ledger pays. */
  lemma EarnedIsWhatClaimPays(b: Book, user: Address, now: nat)
    requires BookOk(b, now) && View(b, user, now).Ok? && Claimed(b, user, now).Ok?
    ensures View(b, user, now).value.1 == Claimed(b, user, now).value.1
  {
    UpdateKeepsBook(b, now);
    ClaimPaysOwing(b, user, now);
    assert UserOk(Updated(b, now).value, user);
  }
}
