/**
 * The rewards contract for one reward asset. Every storage key of the contract
 * carries the asset, so two assets never share state. `Book` is the storage,
 * each entry point is a function from a book to a new book or a panic, and the
 * class updates the storage keys in the order of the contract.
 */
module Rewards {
  import opened Host
  import opened Totals

  const SCALE: int := 1_000_000_000_000_000_000
  /** Ledgers of five seconds in seven days. */
  const WINDOW: int := 7 * 24 * 60 * 60 / 5

  datatype Book = Book(
    totalStaked: int,
    pool: int,
    rate: int,
    lastUpdate: Option<nat>,
    rpt: int,
    stake: map<Address, int>,
    paid: map<Address, int>,
    accrued: map<Address, int>)

  const Empty := Book(0, 0, 0, None, 0, map[], map[], map[])

  /** Ledgers for which the next update at `now` charges the current rate. */
  function Charged(b: Book, now: nat): nat {
    if b.lastUpdate.None? || now <= b.lastUpdate.value || b.totalStaked == 0 || b.rate == 0 then 0
    else now - b.lastUpdate.value
  }

  /** `update_reward` */
  function Updated(b: Book, now: nat): Result<Book> {
    var ledgers := Charged(b, now);
    if ledgers == 0 then Ok(b.(lastUpdate := Some(now)))
    else
      var emission :- Checked(ledgers * b.rate);
      var rpt :- Checked(b.rpt + Share(emission, b.totalStaked));
      Ok(b.(rpt := rpt, lastUpdate := Some(now)))
  }

  /** Emission per staked unit; only called with a nonzero total. */
  function Share(emission: int, total: int): int {
    if total > 0 then Quot(emission, total)
    else if total < 0 then -Quot(emission, -total)
    else 0
  }

  /** What `user` earned since the last settlement. */
  function Pending(b: Book, user: Address): Result<int> {
    if Get(b.stake, user) <= 0 then Ok(0)
    else
      var delta :- Checked(b.rpt - Get(b.paid, user));
      var raw :- Checked(Get(b.stake, user) * delta);
      Ok(Quot(raw, SCALE))
  }

  /** Accrued plus pending, as every settlement computes it. */
  function Owing(b: Book, user: Address): Result<int> {
    var pending :- Pending(b, user);
    Checked(Get(b.accrued, user) + pending)
  }

  function Notified(b: Book, amount: int, now: nat): Result<(Book, int)> {
    if amount <= 0 then Revert(AmountNotPositive)
    else
      var u :- Updated(b, now);
      var pool :- Checked(u.pool + amount);
      var scaled :- Checked(amount * SCALE);
      Ok((u.(pool := pool, rate := Quot(scaled, WINDOW), lastUpdate := Some(now)), 0))
  }

  function Settled(b: Book, user: Address, owing: int): Book {
    b.(accrued := b.accrued[user := owing], paid := b.paid[user := b.rpt])
  }

  function Staked(b: Book, user: Address, amount: int, now: nat): Result<(Book, int)> {
    if amount <= 0 then Revert(AmountNotPositive)
    else
      var u :- Updated(b, now);
      var owing :- Owing(u, user);
      var stake :- Checked(Get(u.stake, user) + amount);
      var total :- Checked(u.totalStaked + amount);
      Ok((Settled(u, user, owing).(stake := u.stake[user := stake], totalStaked := total), 0))
  }

  function Unstaked(b: Book, user: Address, amount: int, now: nat): Result<(Book, int)> {
    if amount <= 0 then Revert(AmountNotPositive)
    else
      var u :- Updated(b, now);
      if Get(u.stake, user) < amount then Revert(InsufficientStake)
      else
        var owing :- Owing(u, user);
        var total :- Checked(u.totalStaked - amount);
        Ok((Settled(u, user, owing).(stake := u.stake[user := Get(u.stake, user) - amount], totalStaked := total), 0))
  }

  function Claimed(b: Book, user: Address, now: nat): Result<(Book, int)> {
    var u :- Updated(b, now);
    var owing :- Owing(u, user);
    if owing == 0 then Ok((u, 0))
    else if u.pool < owing then Revert(InsufficientRewardPool)
    else
      var pool :- Checked(u.pool - owing);
      Ok((Settled(u, user, 0).(pool := pool), owing))
  }

  /** `earned` answers a number but also stores the update. */
  function View(b: Book, user: Address, now: nat): Result<(Book, int)> {
    var u :- Updated(b, now);
    if Get(u.stake, user) == 0 then Ok((u, Get(u.accrued, user)))
    else
      var delta := if Fits(u.rpt - Get(u.paid, user)) then u.rpt - Get(u.paid, user) else 0;
      var raw :- Checked(Get(u.stake, user) * delta);
      var value :- Checked(Get(u.accrued, user) + Quot(raw, SCALE));
      Ok((u, value))
  }

  /** The storage after a call that started from `b`: a panic writes nothing. */
  function After(b: Book, r: Result<(Book, int)>): Book {
    if r.Ok? then r.value.0 else b
  }

  function Answer(r: Result<(Book, int)>): Result<int> {
    if r.Ok? then Ok(r.value.1) else Revert(r.why)
  }

  class RewardsContract {
    var totalStaked: int
    var pool: int
    var rate: int
    var lastUpdate: Option<nat>
    var rpt: int
    var stake: map<Address, int>
    var paid: map<Address, int>
    var accrued: map<Address, int>

    constructor ()
      ensures Storage() == Empty
    {
      totalStaked, pool, rate, lastUpdate, rpt := 0, 0, 0, None, 0;
      stake, paid, accrued := map[], map[], map[];
    }

    function Storage(): Book
      reads this
    {
      Book(totalStaked, pool, rate, lastUpdate, rpt, stake, paid, accrued)
    }

    /** The host undoes the writes of a call that panicked. */
    method Undo(b: Book)
      modifies this
      ensures Storage() == b
    {
      totalStaked, pool, rate, lastUpdate, rpt := b.totalStaked, b.pool, b.rate, b.lastUpdate, b.rpt;
      stake, paid, accrued := b.stake, b.paid, b.accrued;
    }

    method UpdateReward(now: nat) returns (ok: bool)
      modifies this
      ensures ok == Updated(old(Storage()), now).Ok?
      ensures Storage() == if ok then Updated(old(Storage()), now).value else old(Storage())
    {
      var last := if lastUpdate.Some? then lastUpdate.value else now;
      if now <= last || totalStaked == 0 {
        lastUpdate := Some(now);
        return true;
      }
      if rate == 0 {
        lastUpdate := Some(now);
        return true;
      }
      var emission := (now - last) * rate;
      var rpt' := rpt + Share(emission, totalStaked);
      if !Fits(emission) || !Fits(rpt') {
        return false;
      }
      rpt := rpt';
      lastUpdate := Some(now);
      return true;
    }

    method NotifyReward(amount: int, now: nat) returns (r: Result<int>)
      modifies this
      ensures r == Answer(Notified(old(Storage()), amount, now))
      ensures Storage() == After(old(Storage()), Notified(old(Storage()), amount, now))
    {
      var before := Storage();
      if amount <= 0 {
        return Revert(AmountNotPositive);
      }
      var ok := UpdateReward(now);
      if !ok {
        return Revert(Overflow);
      }
      if !Fits(pool + amount) {
        Undo(before);
        return Revert(Overflow);
      }
      pool := pool + amount;
      if !Fits(amount * SCALE) {
        Undo(before);
        return Revert(Overflow);
      }
      rate := Quot(amount * SCALE, WINDOW);
      lastUpdate := Some(now);
      return Ok(0);
    }

    method Stake(user: Address, amount: int, now: nat) returns (r: Result<int>)
      modifies this
      ensures r == Answer(Staked(old(Storage()), user, amount, now))
      ensures Storage() == After(old(Storage()), Staked(old(Storage()), user, amount, now))
    {
      var before := Storage();
      if amount <= 0 {
        return Revert(AmountNotPositive);
      }
      var ok := UpdateReward(now);
      if !ok {
        return Revert(Overflow);
      }
      var curStake := Get(stake, user);
      var owing := Owing(Storage(), user);
      if owing.Revert? {
        Undo(before);
        return Revert(Overflow);
      }
      accrued := accrued[user := owing.value];
      if !Fits(curStake + amount) {
        Undo(before);
        return Revert(Overflow);
      }
      stake := stake[user := curStake + amount];
      paid := paid[user := rpt];
      if !Fits(totalStaked + amount) {
        Undo(before);
        return Revert(Overflow);
      }
      totalStaked := totalStaked + amount;
      return Ok(0);
    }

    method Unstake(user: Address, amount: int, now: nat) returns (r: Result<int>)
      modifies this
      ensures r == Answer(Unstaked(old(Storage()), user, amount, now))
      ensures Storage() == After(old(Storage()), Unstaked(old(Storage()), user, amount, now))
    {
      var before := Storage();
      if amount <= 0 {
        return Revert(AmountNotPositive);
      }
      var ok := UpdateReward(now);
      if !ok {
        return Revert(Overflow);
      }
      var curStake := Get(stake, user);
      if curStake < amount {
        Undo(before);
        return Revert(InsufficientStake);
      }
      var owing := Owing(Storage(), user);
      if owing.Revert? {
        Undo(before);
        return Revert(Overflow);
      }
      accrued := accrued[user := owing.value];
      stake := stake[user := curStake - amount];
      paid := paid[user := rpt];
      if !Fits(totalStaked - amount) {
        Undo(before);
        return Revert(Overflow);
      }
      totalStaked := totalStaked - amount;
      return Ok(0);
    }

    method Claim(user: Address, now: nat) returns (r: Result<int>)
      modifies this
      ensures r == Answer(Claimed(old(Storage()), user, now))
      ensures Storage() == After(old(Storage()), Claimed(old(Storage()), user, now))
    {
      var before := Storage();
      var ok := UpdateReward(now);
      if !ok {
        return Revert(Overflow);
      }
      var owing := Owing(Storage(), user);
      if owing.Revert? {
        Undo(before);
        return Revert(Overflow);
      }
      if owing.value == 0 {
        return Ok(0);
      }
      if pool < owing.value {
        Undo(before);
        return Revert(InsufficientRewardPool);
      }
      if !Fits(pool - owing.value) {
        Undo(before);
        return Revert(Overflow);
      }
      pool := pool - owing.value;
      accrued := accrued[user := 0];
      paid := paid[user := rpt];
      return Ok(owing.value);
    }

    method Earned(user: Address, now: nat) returns (r: Result<int>)
      modifies this
      ensures r == Answer(View(old(Storage()), user, now))
      ensures Storage() == After(old(Storage()), View(old(Storage()), user, now))
    {
      var before := Storage();
      var ok := UpdateReward(now);
      if !ok {
        return Revert(Overflow);
      }
      var staked := Get(stake, user);
      if staked == 0 {
        return Ok(Get(accrued, user));
      }
      var delta := rpt - Get(paid, user);
      if !Fits(delta) {
        delta := 0;
      }
      if !Fits(staked * delta) || !Fits(Get(accrued, user) + Quot(staked * delta, SCALE)) {
        Undo(before);
        return Revert(Overflow);
      }
      return Ok(Get(accrued, user) + Quot(staked * delta, SCALE));
    }
  }
}
