/**
 * What each call of the rewards contract does to its storage and when it is
 * refused, in numbers: floored quotients stand as the inequalities that pin them.
 */
module RewardsEffects {
  import opened Host
  import opened Totals
  import opened Rewards
  import opened RewardsRuns

  // ---------------------------------------------------------------- the update

  /** Time has passed since the last update, and somebody is staked. */
  predicate Accrues(b: Book, now: nat) {
    b.totalStaked > 0 && b.lastUpdate.Some? && b.lastUpdate.value < now
  }

  /**
   * `u` is `b` after an update at `now`: the elapsed ledgers' emission per staked
   * unit, rounded down, is added to the index.
   */
  predicate IndexMoved(b: Book, u: Book, now: nat) {
    var step := u.rpt - b.rpt;
    if Accrues(b, now) then
      var emission := (now - b.lastUpdate.value) * b.rate;
      step * b.totalStaked <= emission < (step + 1) * b.totalStaked
    else step == 0
  }

  lemma UpdateSpreadsTheRate(b: Book, now: nat)
    requires b.totalStaked >= 0 && b.rate >= 0 && Updated(b, now).Ok?
    ensures var u := Updated(b, now).value;
            && u == b.(rpt := u.rpt, lastUpdate := Some(now))
            && IndexMoved(b, u, now)
  {
    var u := Updated(b, now).value;
    if Accrues(b, now) {
      var emission := (now - b.lastUpdate.value) * b.rate;
      MulMono(0, now - b.lastUpdate.value, b.rate);
      if b.rate == 0 {
        assert emission == 0;
      } else {
        QuotBounds(emission, b.totalStaked);
        assert (u.rpt - b.rpt + 1) * b.totalStaked == (u.rpt - b.rpt) * b.totalStaked + b.totalStaked;
      }
    }
  }

  /** The index an update would store, were every number to fit. */
  function NextIndex(b: Book, now: nat): int {
    if Accrues(b, now) then b.rpt + (now - b.lastUpdate.value) * b.rate / b.totalStaked else b.rpt
  }

  predicate UpdateFits(b: Book, now: nat) {
    Accrues(b, now) ==> (now - b.lastUpdate.value) * b.rate <= I128_MAX && NextIndex(b, now) <= I128_MAX
  }

  lemma NonNegativeTotal(b: Book, now: nat)
    requires BookOk(b, now)
    ensures b.totalStaked >= 0
  {
    SumOverNonNegative(b.stake.Keys, b.stake);
  }

  /** An update fails for overflow and for nothing else. */
  lemma UpdateSucceedsIff(b: Book, now: nat)
    requires BookOk(b, now)
    ensures Updated(b, now) == if UpdateFits(b, now) then Ok(b.(rpt := NextIndex(b, now), lastUpdate := Some(now)))
                               else Revert(Overflow)
  {
    NonNegativeTotal(b, now);
    if Accrues(b, now) {
      var emission := (now - b.lastUpdate.value) * b.rate;
      MulMono(0, now - b.lastUpdate.value, b.rate);
      DivBounds(emission, b.totalStaked);
      if b.rate == 0 {
        assert emission == 0;
      } else {
        QuotBounds(emission, b.totalStaked);
      }
    }
  }

  // ---------------------------------------------------------------- settlements

  /** `credit` is what the stake earned since the user's last settlement, rounded down to whole units. */
  predicate Credit(b: Book, u: Book, user: Address, credit: int) {
    var scaled := Get(b.stake, user) * (u.rpt - Get(b.paid, user));
    credit * SCALE <= scaled < (credit + 1) * SCALE
  }

  lemma OwingIsAccruedAndCredit(b: Book, u: Book, now: nat, user: Address)
    requires BookOk(u, now) && u.stake == b.stake && u.paid == b.paid && u.accrued == b.accrued
    requires Owing(u, user).Ok?
    ensures Owing(u, user).value >= Get(b.accrued, user) >= 0
    ensures Credit(b, u, user, Owing(u, user).value - Get(b.accrued, user))
  {
    assert UserOk(u, user);
    OwingFloors(u, now, user);
  }

  /** Nobody but `user` has another stake, another accrual or another snapshot. */
  ghost predicate OnlyTouches(b: Book, b': Book, user: Address) {
    forall v :: v != user ==>
      && Get(b'.stake, v) == Get(b.stake, v)
      && Get(b'.accrued, v) == Get(b.accrued, v)
      && Get(b'.paid, v) == Get(b.paid, v)
  }

  /** The facts about the update at the head of a call that went through. */
  lemma UpdatedFirst(b: Book, c: Call, now: nat)
    requires BookOk(b, now) && !c.Wait? && Apply(b, c, now).Ok?
    ensures Updated(b, now).Ok?
    ensures var u := Updated(b, now).value;
            && BookOk(u, now) && IndexMoved(b, u, now) && u == b.(rpt := u.rpt, lastUpdate := Some(now))
            && Acts(u, c, now, Apply(b, c, now).value.0, Apply(b, c, now).value.1)
  {
    hide Acts;
    CallActs(b, c, now);
    UpdateKeepsBook(b, now);
    NonNegativeTotal(b, now);
    UpdateSpreadsTheRate(b, now);
  }

  /** A notice fills the pool and sets the rate that spreads it over the week, rounded down. */
  lemma NotifyEffects(b: Book, amount: int, now: nat)
    requires BookOk(b, now) && Notified(b, amount, now).Ok?
    ensures var (b', answer) := Notified(b, amount, now).value;
            && amount > 0 && answer == 0
            && IndexMoved(b, b', now) && b'.lastUpdate == Some(now)
            && b'.pool == b.pool + amount
            && b'.rate * WINDOW <= amount * SCALE < (b'.rate + 1) * WINDOW
            && b'.totalStaked == b.totalStaked
            && b'.stake == b.stake && b'.accrued == b.accrued && b'.paid == b.paid
  {
    UpdatedFirst(b, Notify(amount), now);
    QuotBounds(amount * SCALE, WINDOW);
  }

  /** Staking settles the user at the old stake and raises the stake and the total by the amount. */
  lemma StakeEffects(b: Book, user: Address, amount: int, now: nat)
    requires BookOk(b, now) && Staked(b, user, amount, now).Ok?
    ensures var (b', answer) := Staked(b, user, amount, now).value;
            && amount > 0 && answer == 0
            && IndexMoved(b, b', now) && b'.lastUpdate == Some(now)
            && Credit(b, b', user, Get(b'.accrued, user) - Get(b.accrued, user)) && Get(b'.paid, user) == b'.rpt
            && Get(b'.stake, user) == Get(b.stake, user) + amount && b'.totalStaked == b.totalStaked + amount
            && OnlyTouches(b, b', user) && b'.pool == b.pool && b'.rate == b.rate
  {
    hide Owing, BookOk;
    UpdatedFirst(b, Stake(user, amount), now);
    OwingIsAccruedAndCredit(b, Updated(b, now).value, now, user);
    hide Updated;
  }

  /** Unstaking does the same and lowers them; it never takes more than the stake. */
  lemma UnstakeEffects(b: Book, user: Address, amount: int, now: nat)
    requires BookOk(b, now) && Unstaked(b, user, amount, now).Ok?
    ensures var (b', answer) := Unstaked(b, user, amount, now).value;
            && 0 < amount <= Get(b.stake, user) && answer == 0
            && IndexMoved(b, b', now) && b'.lastUpdate == Some(now)
            && Credit(b, b', user, Get(b'.accrued, user) - Get(b.accrued, user)) && Get(b'.paid, user) == b'.rpt
            && Get(b'.stake, user) == Get(b.stake, user) - amount && b'.totalStaked == b.totalStaked - amount
            && OnlyTouches(b, b', user) && b'.pool == b.pool && b'.rate == b.rate
  {
    hide Owing, BookOk;
    UpdatedFirst(b, Unstake(user, amount), now);
    OwingIsAccruedAndCredit(b, Updated(b, now).value, now, user);
    hide Updated;
  }

  /**
   * A claim pays accrued plus earned out of the pool and leaves nothing accrued;
   * the snapshot moves exactly when something was paid. Stakes stay.
   */
  lemma ClaimEffects(b: Book, user: Address, now: nat)
    requires BookOk(b, now) && Claimed(b, user, now).Ok?
    ensures var (b', paid) := Claimed(b, user, now).value;
            && IndexMoved(b, b', now) && b'.lastUpdate == Some(now)
            && Credit(b, b', user, paid - Get(b.accrued, user))
            && 0 <= paid <= b.pool && b'.pool == b.pool - paid
            && Get(b'.accrued, user) == 0
            && Get(b'.paid, user) == (if paid > 0 then b'.rpt else Get(b.paid, user))
            && b'.stake == b.stake && b'.totalStaked == b.totalStaked && b'.rate == b.rate
            && OnlyTouches(b, b', user)
  {
    UpdatedFirst(b, Claim(user), now);
    OwingIsAccruedAndCredit(b, Updated(b, now).value, now, user);
    hide Updated, Owing;
  }

  /** `earned` answers accrued plus earned and stores the update alone. */
  lemma EarnedEffects(b: Book, user: Address, now: nat)
    requires BookOk(b, now) && View(b, user, now).Ok?
    ensures var (b', answer) := View(b, user, now).value;
            && IndexMoved(b, b', now) && b' == b.(rpt := b'.rpt, lastUpdate := Some(now))
            && Credit(b, b', user, answer - Get(b.accrued, user))
  {
    UpdatedFirst(b, Query(user), now);
    var u := Updated(b, now).value;
    assert UserOk(u, user);
    var scaled := Get(b.stake, user) * (u.rpt - Get(b.paid, user));
    if Get(b.stake, user) > 0 {
      MulMono(0, u.rpt - Get(b.paid, user), Get(b.stake, user));
      QuotBounds(scaled, SCALE);
    }
  }

  // ---------------------------------------------------------------- refusals

  /** What `user` is owed at `now`. */
  function OwedAt(b: Book, user: Address, now: nat): int {
    Get(b.accrued, user) + Get(b.stake, user) * (NextIndex(b, now) - Get(b.paid, user)) / SCALE
  }

  predicate SettlementFits(b: Book, user: Address, now: nat) {
    && UpdateFits(b, now)
    && Get(b.stake, user) * (NextIndex(b, now) - Get(b.paid, user)) <= I128_MAX
    && OwedAt(b, user, now) <= I128_MAX
  }

  lemma SettlementSucceedsIff(b: Book, user: Address, now: nat)
    requires BookOk(b, now) && UpdateFits(b, now)
    ensures Updated(b, now).Ok?
    ensures Owing(Updated(b, now).value, user)
            == if SettlementFits(b, user, now) then Ok(OwedAt(b, user, now)) else Revert(Overflow)
    ensures OwedAt(b, user, now) >= Get(b.accrued, user) >= 0
  {
    UpdateSucceedsIff(b, now);
    UpdateKeepsBook(b, now);
    var u := Updated(b, now).value;
    assert UserOk(u, user);
    var s, x := Get(b.stake, user), u.rpt - Get(b.paid, user);
    if s > 0 {
      MulMono(0, x, s);
      MulMono(1, s, x);
      QuotBounds(s * x, SCALE);
    } else {
      assert s * x == 0;
    }
  }

  /** Why a call is refused, if it is; the first reason in the order of the contract. */
  function Refusal(b: Book, c: Call, now: nat): Option<Panic> {
    match c
    case Notify(amount) =>
      if amount <= 0 then Some(AmountNotPositive)
      else if UpdateFits(b, now) && b.pool + amount <= I128_MAX && amount * SCALE <= I128_MAX then None
      else Some(Overflow)
    case Stake(user, amount) =>
      if amount <= 0 then Some(AmountNotPositive)
      else if SettlementFits(b, user, now) && Get(b.stake, user) + amount <= I128_MAX
              && b.totalStaked + amount <= I128_MAX then None
      else Some(Overflow)
    case Unstake(user, amount) =>
      if amount <= 0 then Some(AmountNotPositive)
      else if !UpdateFits(b, now) then Some(Overflow)
      else if Get(b.stake, user) < amount then Some(InsufficientStake)
      else if SettlementFits(b, user, now) && b.totalStaked - amount <= I128_MAX then None
      else Some(Overflow)
    case Claim(user) =>
      if !SettlementFits(b, user, now) then Some(Overflow)
      else if OwedAt(b, user, now) > b.pool then Some(InsufficientRewardPool)
      else None
    case Query(user) => if SettlementFits(b, user, now) then None else Some(Overflow)
    case Wait(_) => None
  }

  lemma ClaimRefusedIff(b: Book, user: Address, now: nat)
    requires BookOk(b, now)
    ensures Claimed(b, user, now).Ok? <==> Refusal(b, Claim(user), now).None?
    ensures Claimed(b, user, now).Revert? ==> Refusal(b, Claim(user), now) == Some(Claimed(b, user, now).why)
  {
    UpdateSucceedsIff(b, now);
    if UpdateFits(b, now) {
      SettlementSucceedsIff(b, user, now);
      hide Updated, Owing, OwedAt, SettlementFits;
    }
  }

  lemma ViewRefusedIff(b: Book, user: Address, now: nat)
    requires BookOk(b, now)
    ensures View(b, user, now).Ok? <==> SettlementFits(b, user, now)
    ensures View(b, user, now).Revert? ==> View(b, user, now).why == Overflow
  {
    UpdateSucceedsIff(b, now);
    if UpdateFits(b, now) {
      SettlementSucceedsIff(b, user, now);
      UpdateKeepsBook(b, now);
      var u := Updated(b, now).value;
      assert UserOk(u, user) && UserOk(b, user);
      var s, x := Get(b.stake, user), u.rpt - Get(b.paid, user);
      if s > 0 {
        MulMono(0, x, s);
        QuotBounds(s * x, SCALE);
      } else {
        assert s * x == 0;
      }
    }
  }

  lemma StakesRefusedIff(b: Book, c: Call, now: nat)
    requires BookOk(b, now) && (c.Stake? || c.Unstake?)
    ensures Apply(b, c, now).Ok? <==> Refusal(b, c, now).None?
    ensures Apply(b, c, now).Revert? ==> Refusal(b, c, now) == Some(Apply(b, c, now).why)
  {
    UpdateSucceedsIff(b, now);
    NonNegativeTotal(b, now);
    assert UserOk(b, c.user);
    EntryAtMostTotal(b, now, c.user);
    if UpdateFits(b, now) {
      SettlementSucceedsIff(b, c.user, now);
      hide Updated, Owing, OwedAt, SettlementFits, BookOk;
    }
  }

  lemma EntryAtMostTotal(b: Book, now: nat, user: Address)
    requires BookOk(b, now)
    ensures 0 <= Get(b.stake, user) <= b.totalStaked
  {
    forall u ensures Get(b.stake, u) >= 0 {
      assert UserOk(b, u);
    }
    EntryAtMostSum(b.stake, user);
  }

  /** In every reachable state, each call goes through unless it is refused for exactly this reason. */
  lemma {:induction false} CallIsRefusedIff(cs: seq<Call>, c: Call)
    requires !c.Wait?
    ensures var w := Run(Start, cs);
            var r, why := Apply(w.book, c, w.now), Refusal(w.book, c, w.now);
            && (r.Ok? <==> why.None?)
            && (r.Revert? ==> why == Some(r.why))
  {
    Reachable(cs);
    var w := Run(Start, cs);
    hide Claimed, View, Staked, Unstaked, OwedAt, SettlementFits, Run;
    match c {
      case Notify(amount) => UpdateSucceedsIff(w.book, w.now);
      case Stake(_, _) => StakesRefusedIff(w.book, c, w.now);
      case Unstake(_, _) => StakesRefusedIff(w.book, c, w.now);
      case Claim(user) => ClaimRefusedIff(w.book, user, w.now);
      case Query(user) => ViewRefusedIff(w.book, user, w.now);
    }
  }
}
