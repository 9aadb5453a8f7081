/** What a holding of shares is worth over a run, and what the pool's own collateral calls do to it. */
module PoolWorth {
  import opened Host
  import opened Totals
  import opened Token
  import opened LendingPool
  import opened PoolRuns
  import opened PoolShares

  // ---------------------------------------------------------------- par

  /** No share is worth more than the unit it was minted for at the start. */
  ghost predicate WithinPar(m: Market) {
    SharesOk(m) && m.deposits <= m.totalShares
  }

  lemma MintsAtLeastPar(m: Market, amount: int)
    requires amount > 0 && 0 <= m.deposits <= m.totalShares && MintedShares(m, amount).Ok?
    ensures MintedShares(m, amount).value >= amount
  {
    MintFloors(m, amount);
    MulMono(m.deposits + VIRTUAL, m.totalShares + VIRTUAL, amount);
    if MintedShares(m, amount).value + 1 <= amount {
      MulMono(MintedShares(m, amount).value + 1, amount, m.deposits + VIRTUAL);
    }
  }

  /** One successful supply, seen from its world. */
  lemma SupplyFacts(w: World, user: Address, amount: int)
    requires WithinPar(w.market) && Supplied(w.market, user, amount, w.now).Ok?
    ensures var m, m' := w.market, Step(w, Supply(user, amount)).market;
            var minted := Supplied(w.market, user, amount, w.now).value.1;
            && 0 <= m.deposits && minted >= amount > 0
            && m'.deposits == m.deposits + amount && m'.totalShares == m.totalShares + minted
            && minted * (m.deposits + VIRTUAL) <= amount * (m.totalShares + VIRTUAL)
            && amount * (m.totalShares + VIRTUAL) < (minted + 1) * (m.deposits + VIRTUAL)
  {
    SupplyWrites(w.market, user, amount, w.now);
    AccrualOnlyRaisesIndex(w.market, w.now);
    MintFloors(Accrued(w.market, w.now).value, amount);
    MintsAtLeastPar(Accrued(w.market, w.now).value, amount);
  }

  predicate SuppliesNow(w: World, c: Call) {
    c.Supply? && Supplied(w.market, c.user, c.amount, w.now).Ok?
  }

  /** Anything but a successful supply leaves the total of shares and raises no deposits. */
  lemma OtherStepFacts(w: World, c: Call)
    requires SharesOk(w.market) && SharesOnly(c) && !SuppliesNow(w, c)
    ensures Step(w, c).market.totalShares == w.market.totalShares
    ensures Step(w, c).market.deposits <= w.market.deposits
  {
    if !c.Wait? && Apply(w.market, c, w.now).Ok? {
      if c.Withdraw? {
        WithdrawWrites(w.market, c.user, c.burned, w.now);
        AccrualOnlyRaisesIndex(w.market, w.now);
        RedemptionFloors(Accrued(w.market, w.now).value, c.burned);
      } else {
        OtherCallsKeepShares(w.market, c, w.now);
      }
    }
  }

  lemma StepKeepsPar(w: World, c: Call)
    requires WithinPar(w.market) && SharesOnly(c)
    ensures WithinPar(Step(w, c).market) && Step(w, c).market.totalShares >= w.market.totalShares
  {
    hide SharesOk, Step, Supplied;
    StepKeepsShares(w, c);
    if SuppliesNow(w, c) {
      SupplyFacts(w, c.user, c.amount);
    } else {
      OtherStepFacts(w, c);
    }
  }

  lemma {:induction false} RunKeepsPar(w: World, cs: seq<Call>)
    requires WithinPar(w.market) && forall i :: 0 <= i < |cs| ==> SharesOnly(cs[i])
    ensures WithinPar(Run(w, cs).market)
    decreases cs
  {
    if cs != [] {
      hide WithinPar, Step;
      assert forall i :: 0 <= i < |cs[1..]| ==> cs[1..][i] == cs[i + 1];
      StepKeepsPar(w, cs[0]);
      RunKeepsPar(Step(w, cs[0]), cs[1..]);
    }
  }

  lemma RedeemedAtMostPar(m: Market, burned: int)
    requires burned > 0 && 0 <= m.deposits <= m.totalShares && RedeemedAmount(m, burned).Ok?
    ensures RedeemedAmount(m, burned).value <= burned
  {
    RedemptionFloors(m, burned);
    MulMono(m.deposits + VIRTUAL, m.totalShares + VIRTUAL, burned);
    MulCancel(RedeemedAmount(m, burned).value, burned, m.totalShares + VIRTUAL);
  }

  /**
   * Suppliers earn nothing: in every run the recorded deposits are within the
   * recorded shares, so no redemption by anybody pays more than one unit a share,
   * which is what the first suppliers paid for one, whatever interest was repaid.
   */
  lemma {:induction false} NoShareAbovePar(cfg: Config, at: nat, tokens: Ledger, cs: seq<Call>, user: Address,
                                           burned: int)
    requires forall i :: 0 <= i < |cs| ==> SharesOnly(cs[i])
    ensures var w := Run(Start(cfg, at, tokens), cs);
            var r := Withdrawn(w.market, user, burned, w.now);
            && 0 <= w.market.deposits <= w.market.totalShares
            && (r.Ok? ==> r.value.1 <= burned)
  {
    RunKeepsPar(Start(cfg, at, tokens), cs);
    var w := Run(Start(cfg, at, tokens), cs);
    if Withdrawn(w.market, user, burned, w.now).Ok? {
      WithdrawWrites(w.market, user, burned, w.now);
      AccrualOnlyRaisesIndex(w.market, w.now);
      RedeemedAtMostPar(Accrued(w.market, w.now).value, burned);
    }
  }

  // ---------------------------------------------------------------- worth

  /** What `held` shares would redeem for. */
  function Worth(m: Market, held: int): int
    requires m.totalShares >= 0
  {
    Quot(held * (m.deposits + VIRTUAL), m.totalShares + VIRTUAL)
  }

  /** `held` shares are worth less than `bound` units. */
  predicate WorthBelow(m: Market, held: int, bound: int) {
    held * (m.deposits + VIRTUAL) < bound * (m.totalShares + VIRTUAL)
  }

  /** The successful supplies of a run, by anybody. */
  function Supplies(w: World, cs: seq<Call>): nat
    decreases cs
  {
    if cs == [] then 0 else (if SuppliesNow(w, cs[0]) then 1 else 0) + Supplies(Step(w, cs[0]), cs[1..])
  }

  lemma HeldTimesSupply(h: int, d: int, t: int, a: int, m: int, c: int)
    requires 0 <= h && 0 < d && 0 < t && 0 <= m && h * d < c * t && a * t < (m + 1) * d
    ensures h * a < c * (m + 1)
  {
    if h > 0 {
      MulMono(a * t + 1, (m + 1) * d, h);
      MulMono(h * d + 1, c * t, m + 1);
      HeldExpands(h, d, t, a, m, c);
      if h * a >= c * (m + 1) {
        MulMono(c * (m + 1), h * a, t);
      }
    } else {
      PositiveFactor(c, t);
      MulMono(1, c, m + 1);
    }
  }

  lemma HeldExpands(h: int, d: int, t: int, a: int, m: int, c: int)
    ensures h * (a * t + 1) == h * a * t + h
    ensures h * ((m + 1) * d) == h * d * (m + 1)
    ensures (h * d + 1) * (m + 1) == h * d * (m + 1) + m + 1
    ensures c * t * (m + 1) == c * (m + 1) * t
  {
  }

  lemma PositiveFactor(c: int, t: int)
    requires 0 < c * t && t > 0
    ensures c >= 1
  {
    if c <= 0 {
      MulMono(c, 0, t);
    }
  }

  /** A floored mint raises the worth of any holding by less than one unit. */
  lemma SupplyRaisesWorth(h: int, d: int, t: int, a: int, m: int, c: int)
    requires 0 <= h <= t && 0 < d <= t && 0 < a <= m
    requires h * d < c * t && a * t < (m + 1) * d
    ensures h * (d + a) < (c + 1) * (t + m)
  {
    if c <= t + m {
      HeldTimesSupply(h, d, t, a, m, c);
      assert h * (d + a) == h * d + h * a;
      assert (c + 1) * (t + m) == c * t + c * (m + 1) - c + t + m;
    } else {
      MulMono(d + a, t + m, h);
      MulMono(h, c, t + m);
      assert (c + 1) * (t + m) == c * (t + m) + t + m;
    }
  }

  lemma LowerDepositsKeepWorth(h: int, d: int, d': int, t: int, c: int)
    requires 0 <= h && d' <= d && h * d < c * t
    ensures h * d' < c * t
  {
    MulMono(d', d, h);
  }

  lemma StepKeepsWorth(w: World, c: Call, held: int, bound: int)
    requires WithinPar(w.market) && SharesOnly(c) && 0 <= held <= w.market.totalShares
    requires WorthBelow(w.market, held, bound)
    ensures WorthBelow(Step(w, c).market, held, bound + if SuppliesNow(w, c) then 1 else 0)
  {
    hide Step, Supplied;
    var m, m' := w.market, Step(w, c).market;
    if SuppliesNow(w, c) {
      SupplyFacts(w, c.user, c.amount);
      SupplyRaisesWorth(held, m.deposits + VIRTUAL, m.totalShares + VIRTUAL, c.amount, m'.totalShares - m.totalShares,
                        bound);
    } else {
      OtherStepFacts(w, c);
      LowerDepositsKeepWorth(held, m.deposits + VIRTUAL, m'.deposits + VIRTUAL, m.totalShares + VIRTUAL, bound);
    }
  }

  lemma {:induction false} RunKeepsWorth(w: World, cs: seq<Call>, held: int, bound: int)
    requires WithinPar(w.market) && forall i :: 0 <= i < |cs| ==> SharesOnly(cs[i])
    requires 0 <= held <= w.market.totalShares && WorthBelow(w.market, held, bound)
    ensures WithinPar(Run(w, cs).market) && WorthBelow(Run(w, cs).market, held, bound + Supplies(w, cs))
    decreases cs
  {
    if cs != [] {
      hide WithinPar, Step, WorthBelow, SuppliesNow;
      assert forall i :: 0 <= i < |cs[1..]| ==> cs[1..][i] == cs[i + 1];
      StepKeepsPar(w, cs[0]);
      StepKeepsWorth(w, cs[0], held, bound);
      RunKeepsWorth(Step(w, cs[0]), cs[1..], held, bound + if SuppliesNow(w, cs[0]) then 1 else 0);
    }
  }

  lemma ParMeans(m: Market)
    requires WithinPar(m)
    ensures 0 <= m.deposits <= m.totalShares
  {
  }

  lemma WorthIsBelow(m: Market, held: int)
    requires 0 <= m.deposits && 0 <= m.totalShares && held >= 0
    ensures WorthBelow(m, held, Worth(m, held) + 1)
    ensures forall c :: WorthBelow(m, held, c) ==> Worth(m, held) < c
  {
    MulMono(0, held, m.deposits + VIRTUAL);
    QuotBounds(held * (m.deposits + VIRTUAL), m.totalShares + VIRTUAL);
    assert (Worth(m, held) + 1) * (m.totalShares + VIRTUAL)
      == Worth(m, held) * (m.totalShares + VIRTUAL) + m.totalShares + VIRTUAL;
    forall c | WorthBelow(m, held, c) ensures Worth(m, held) < c {
      if c <= Worth(m, held) {
        MulMono(c, Worth(m, held), m.totalShares + VIRTUAL);
      }
    }
  }

  /**
   * In every run, whatever is supplied, withdrawn, lent, repaid and donated: what
   * a holding would redeem for rises by at most one unit for each supply by
   * anybody, and by nothing else.
   */
  lemma {:induction false} WorthRisesByAtMostOnePerSupply(cfg: Config, at: nat, tokens: Ledger, before: seq<Call>,
                                                          between: seq<Call>, held: int)
    requires forall i :: 0 <= i < |before| ==> SharesOnly(before[i])
    requires forall i :: 0 <= i < |between| ==> SharesOnly(between[i])
    requires 0 <= held <= Run(Start(cfg, at, tokens), before).market.totalShares
    ensures var w := Run(Start(cfg, at, tokens), before);
            var v := Run(w, between);
            && 0 <= w.market.totalShares && 0 <= v.market.totalShares
            && Worth(v.market, held) <= Worth(w.market, held) + Supplies(w, between)
  {
    RunKeepsPar(Start(cfg, at, tokens), before);
    var w := Run(Start(cfg, at, tokens), before);
    hide Run, WithinPar, SharesOnly, Worth, WorthBelow, Supplies;
    ParMeans(w.market);
    WorthIsBelow(w.market, held);
    RunKeepsWorth(w, between, held, Worth(w.market, held) + 1);
    var v := Run(w, between);
    ParMeans(v.market);
    WorthIsBelow(v.market, held);
  }

  // ---------------------------------------------------------------- round trips

  lemma OwnSupplyIsWorthItsAmount(w: World, user: Address, amount: int)
    requires WithinPar(w.market) && Supplied(w.market, user, amount, w.now).Ok?
    ensures var w1, minted := Step(w, Supply(user, amount)), Supplied(w.market, user, amount, w.now).value.1;
            && 0 <= minted <= w1.market.totalShares && WorthBelow(w1.market, minted, amount + 1)
  {
    hide Step, Supplied;
    SupplyFacts(w, user, amount);
    var d, t := w.market.deposits + VIRTUAL, w.market.totalShares + VIRTUAL;
    var minted := Supplied(w.market, user, amount, w.now).value.1;
    assert minted * (d + amount) == minted * d + minted * amount;
    assert (amount + 1) * (t + minted) == amount * t + minted * amount + t + minted;
  }

  lemma RedeemedBelow(m: Market, user: Address, held: int, bound: int, now: nat)
    requires WithinPar(m) && WorthBelow(m, held, bound) && Withdrawn(m, user, held, now).Ok?
    ensures Withdrawn(m, user, held, now).value.1 < bound
  {
    WithdrawWrites(m, user, held, now);
    AccrualOnlyRaisesIndex(m, now);
    RedemptionFloors(Accrued(m, now).value, held);
    var back := Withdrawn(m, user, held, now).value.1;
    if bound <= back {
      MulMono(bound, back, m.totalShares + VIRTUAL);
    }
  }

  lemma StartWithinPar(cfg: Config, at: nat, tokens: Ledger)
    ensures WithinPar(Start(cfg, at, tokens).market)
  {
    assert SumOver<Address>({}, map[]) == 0;
  }

  lemma RoundTripFrom(w: World, between: seq<Call>, user: Address, amount: int)
    requires WithinPar(w.market) && forall i :: 0 <= i < |between| ==> SharesOnly(between[i])
    requires Supplied(w.market, user, amount, w.now).Ok?
    ensures var minted, w1 := Supplied(w.market, user, amount, w.now).value.1, Step(w, Supply(user, amount));
            var v := Run(w1, between);
            Withdrawn(v.market, user, minted, v.now).Ok?
            ==> Withdrawn(v.market, user, minted, v.now).value.1 <= amount + Supplies(w1, between)
  {
    hide Run, WithinPar, WorthBelow, Supplied, Withdrawn, Supplies, Step;
    var minted, w1 := Supplied(w.market, user, amount, w.now).value.1, Step(w, Supply(user, amount));
    StepKeepsPar(w, Supply(user, amount));
    OwnSupplyIsWorthItsAmount(w, user, amount);
    RunKeepsWorth(w1, between, minted, amount + 1);
    var v := Run(w1, between);
    if Withdrawn(v.market, user, minted, v.now).Ok? {
      RedeemedBelow(v.market, user, minted, amount + 1 + Supplies(w1, between), v.now);
    }
  }

  /**
   * In every run, supplying and later withdrawing the minted shares returns at
   * most what was put in and one unit more for each supply by anybody in between,
   * whatever else happens; with no supply in between, never more than was put in.
   */
  lemma {:induction false} RoundTripGainsOnePerSupply(cfg: Config, at: nat, tokens: Ledger, before: seq<Call>,
                                                      between: seq<Call>, user: Address, amount: int)
    requires forall i :: 0 <= i < |before| ==> SharesOnly(before[i])
    requires forall i :: 0 <= i < |between| ==> SharesOnly(between[i])
    requires var w := Run(Start(cfg, at, tokens), before); Supplied(w.market, user, amount, w.now).Ok?
    ensures var w := Run(Start(cfg, at, tokens), before);
            var minted := Supplied(w.market, user, amount, w.now).value.1;
            var w1 := Step(w, Supply(user, amount));
            var v := Run(w1, between);
            Withdrawn(v.market, user, minted, v.now).Ok?
            ==> Withdrawn(v.market, user, minted, v.now).value.1 <= amount + Supplies(w1, between)
  {
    hide *;
    StartWithinPar(cfg, at, tokens);
    RunKeepsPar(Start(cfg, at, tokens), before);
    RoundTripFrom(Run(Start(cfg, at, tokens), before), between, user, amount);
  }

  lemma {:induction false} NoSupplyCounted(w: World, cs: seq<Call>)
    requires forall i :: 0 <= i < |cs| ==> !cs[i].Supply?
    ensures Supplies(w, cs) == 0
    decreases cs
  {
    if cs != [] {
      assert forall i :: 0 <= i < |cs[1..]| ==> cs[1..][i] == cs[i + 1];
      NoSupplyCounted(Step(w, cs[0]), cs[1..]);
    }
  }

  /** With no supply in between, a round trip never returns more than was put in. */
  lemma {:induction false} RoundTripNeverProfits(cfg: Config, at: nat, tokens: Ledger, before: seq<Call>,
                                                 between: seq<Call>, user: Address, amount: int)
    requires forall i :: 0 <= i < |before| ==> SharesOnly(before[i])
    requires forall i :: 0 <= i < |between| ==> SharesOnly(between[i]) && !between[i].Supply?
    requires var w := Run(Start(cfg, at, tokens), before); Supplied(w.market, user, amount, w.now).Ok?
    ensures var w := Run(Start(cfg, at, tokens), before);
            var minted := Supplied(w.market, user, amount, w.now).value.1;
            var v := Run(Step(w, Supply(user, amount)), between);
            Withdrawn(v.market, user, minted, v.now).Ok? ==> Withdrawn(v.market, user, minted, v.now).value.1 <= amount
  {
    hide *;
    RoundTripGainsOnePerSupply(cfg, at, tokens, before, between, user, amount);
    NoSupplyCounted(Step(Run(Start(cfg, at, tokens), before), Supply(user, amount)), between);
  }

  const LEAVER: Address := 1
  const SAVER: Address := 2
  const OTHER: Address := 3

  /** A market in which only `SAVER`, with 1_900_000 shares, and `OTHER` hold shares, and nothing is lent. */
  predicate Holds(w: World, deposits: int, total: int, left: int) {
    && w.now == 0 && w.market.borrows == 0
    && w.market.deposits == deposits && w.market.totalShares == total
    && Get(w.market.shares, SAVER) == 1_900_000 && 0 <= Get(w.market.shares, OTHER) <= total
    && Get(w.market.tokens, Pool) == deposits && Get(w.market.tokens, User(OTHER)) == left
  }

  lemma OneUnitMore(w: World, n: nat, left: int)
    requires n < 5 && left > 0 && Holds(w, 1_000_000 + n, 2_800_000 + n, left)
    ensures Supplied(w.market, OTHER, 1, 0).Ok?
    ensures Holds(Step(w, Supply(OTHER, 1)), 1_000_000 + n + 1, 2_800_000 + n + 1, left - 1)
  {
    assert Accrued(w.market, 0) == Ok(w.market);
    QuotUnique(2_800_000 + n + VIRTUAL, 1_000_000 + n + VIRTUAL, 1);
    assert MintedShares(w.market, 1) == Ok(1);
  }

  lemma UnitSucceeds(w: World, n: nat, left: int)
    requires n < 5 && left > 0 && Holds(w, 1_000_000 + n, 2_800_000 + n, left)
    ensures SuppliesNow(w, Supply(OTHER, 1))
  {
    OneUnitMore(w, n, left);
  }

  /** `n` supplies of one unit each. */
  function Units(n: nat): seq<Call> {
    if n == 0 then [] else [Supply(OTHER, 1)] + Units(n - 1)
  }

  lemma {:induction false} UnitsAdded(w: World, n: nat, k: nat)
    requires n + k <= 5 && Holds(w, 1_000_000 + n, 2_800_000 + n, k)
    ensures Holds(Run(w, Units(k)), 1_000_000 + n + k, 2_800_000 + n + k, 0)
    ensures Supplies(w, Units(k)) == k
    decreases k
  {
    if k > 0 {
      hide Holds, Step, Supplied, SuppliesNow;
      UnitSucceeds(w, n, k);
      OneUnitMore(w, n, k);
      assert Units(k)[1..] == Units(k - 1);
      UnitsAdded(Step(w, Supply(OTHER, 1)), n + 1, k - 1);
    }
  }

  function Wallets(): Ledger {
    map[User(LEAVER) := 900_000, User(SAVER) := 1_000_000, User(OTHER) := 5]
  }

  /** The market after somebody came with 900_000 units and left again. */
  predicate LeftBehind(w: World) {
    && w.now == 0 && w.market.borrows == 0 && w.market.deposits == 0 && w.market.totalShares == 900_000
    && w.market.shares == map[LEAVER := 0] && Get(w.market.tokens, Pool) == 0
    && Get(w.market.tokens, User(SAVER)) == 1_000_000 && Get(w.market.tokens, User(OTHER)) == 5
  }

  lemma LeaverLeft(cfg: Config)
    ensures LeftBehind(Step(Step(Start(cfg, 0, Wallets()), Supply(LEAVER, 900_000)), Withdraw(LEAVER, 900_000)))
  {
    var w0 := Start(cfg, 0, Wallets());
    SupplyAtPar(w0.market, LEAVER, 900_000);
    var w1 := Step(w0, Supply(LEAVER, 900_000));
    WithdrawAtPar(w1.market, LEAVER, 900_000);
  }

  lemma SaverSupplies(w: World)
    requires LeftBehind(w)
    ensures w.now == 0
    ensures Supplied(w.market, SAVER, 1_000_000, 0).Ok? && Supplied(w.market, SAVER, 1_000_000, 0).value.1 == 1_900_000
    ensures Holds(Step(w, Supply(SAVER, 1_000_000)), 1_000_000, 2_800_000, 5)
  {
    assert MintedShares(w.market, 1_000_000) == Ok(1_900_000);
  }

  lemma SaverRedeems(w: World)
    requires Holds(w, 1_000_005, 2_800_005, 0)
    ensures w.now == 0
    ensures Withdrawn(w.market, SAVER, 1_900_000, 0).Ok?
    ensures Withdrawn(w.market, SAVER, 1_900_000, 0).value.1 == 1_000_001
  {
    assert Accrued(w.market, 0) == Ok(w.market);
    assert RedeemedAmount(w.market, 1_900_000) == Ok(1_000_001);
  }

  lemma {:induction false} LeaverRun(cfg: Config)
    ensures LeftBehind(Run(Start(cfg, 0, Wallets()), [Supply(LEAVER, 900_000), Withdraw(LEAVER, 900_000)]))
  {
    hide Step, LeftBehind;
    LeaverLeft(cfg);
    var w0, cs := Start(cfg, 0, Wallets()), [Supply(LEAVER, 900_000), Withdraw(LEAVER, 900_000)];
    assert cs[1..] == [cs[1]] && [cs[1]][1..] == [];
    assert Run(Step(w0, cs[0]), [cs[1]]) == Run(Step(Step(w0, cs[0]), cs[1]), []);
  }

  lemma GainFrom(w: World)
    requires LeftBehind(w)
    ensures Supplied(w.market, SAVER, 1_000_000, w.now).Ok?
    ensures Supplied(w.market, SAVER, 1_000_000, w.now).value.1 == 1_900_000
    ensures var v := Run(Step(w, Supply(SAVER, 1_000_000)), Units(5));
            Withdrawn(v.market, SAVER, 1_900_000, v.now).Ok?
              && Withdrawn(v.market, SAVER, 1_900_000, v.now).value.1 == 1_000_001
  {
    hide *;
    SaverSupplies(w);
    UnitsAdded(Step(w, Supply(SAVER, 1_000_000)), 0, 5);
    SaverRedeems(Run(Step(w, Supply(SAVER, 1_000_000)), Units(5)));
  }

  /**
   * Such a gain is reached: after somebody has come and left, a supply of a
   * million units and five supplies of one unit by somebody else, the million
   * redeems for a million and one.
   */
  lemma {:induction false} RoundTripCanGain(cfg: Config)
    ensures var w := Run(Start(cfg, 0, Wallets()), [Supply(LEAVER, 900_000), Withdraw(LEAVER, 900_000)]);
            var v := Run(Step(w, Supply(SAVER, 1_000_000)), Units(5));
            && Supplied(w.market, SAVER, 1_000_000, w.now).Ok?
            && Supplied(w.market, SAVER, 1_000_000, w.now).value.1 == 1_900_000
            && Withdrawn(v.market, SAVER, 1_900_000, v.now).Ok?
            && Withdrawn(v.market, SAVER, 1_900_000, v.now).value.1 == 1_000_001
  {
    hide *;
    LeaverRun(cfg);
    GainFrom(Run(Start(cfg, 0, Wallets()), [Supply(LEAVER, 900_000), Withdraw(LEAVER, 900_000)]));
  }

  // ---------------------------------------------------------------- the pool's own collateral calls

  /** Shares written by collateral calls that went through, less those taken back. */
  function Posted(w: World, cs: seq<Call>): int
    decreases cs
  {
    if cs == [] then 0
    else (match cs[0]
          case PostCollateral(_, amount) => if Apply(w.market, cs[0], w.now).Ok? then amount else 0
          case TakeCollateral(_, amount) => if Apply(w.market, cs[0], w.now).Ok? then -amount else 0
          case _ => 0) + Posted(Step(w, cs[0]), cs[1..])
  }

  /** Shares burned by withdrawals that went through. */
  function Burned(w: World, cs: seq<Call>): int
    decreases cs
  {
    if cs == [] then 0
    else (if cs[0].Withdraw? && Apply(w.market, cs[0], w.now).Ok? then cs[0].burned else 0)
         + Burned(Step(w, cs[0]), cs[1..])
  }

  lemma StepAccountsShares(w: World, c: Call)
    ensures Sum(Step(w, c).market.shares) - Step(w, c).market.totalShares
            == Sum(w.market.shares) - w.market.totalShares + Posted(w, [c]) - Burned(w, [c])
  {
    assert [c][1..] == [];
    if !c.Wait? && Apply(w.market, c, w.now).Ok? {
      match c {
        case Supply(user, amount) =>
          SupplyWrites(w.market, user, amount, w.now);
          AccrualOnlyRaisesIndex(w.market, w.now);
          SumSet(w.market.shares, user, Get(w.market.shares, user) + Supplied(w.market, user, amount, w.now).value.1);
        case Withdraw(user, burned) =>
          WithdrawWrites(w.market, user, burned, w.now);
          AccrualOnlyRaisesIndex(w.market, w.now);
          SumSet(w.market.shares, user, Get(w.market.shares, user) - burned);
        case PostCollateral(user, amount) =>
          SumSet(w.market.shares, user, Get(w.market.shares, user) + amount);
        case TakeCollateral(user, amount) =>
          SumSet(w.market.shares, user, Get(w.market.shares, user) - amount);
        case _ =>
          OtherCallsKeepShares(w.market, c, w.now);
      }
    }
  }

  lemma {:induction false} RunAccountsShares(w: World, cs: seq<Call>)
    ensures Sum(Run(w, cs).market.shares) - Run(w, cs).market.totalShares
            == Sum(w.market.shares) - w.market.totalShares + Posted(w, cs) - Burned(w, cs)
    decreases cs
  {
    if cs != [] {
      hide Step, Apply;
      StepAccountsShares(w, cs[0]);
      assert [cs[0]][1..] == [];
      RunAccountsShares(Step(w, cs[0]), cs[1..]);
    }
  }

  /**
   * In every run, the pool's collateral calls included: the outstanding shares are
   * the recorded total and what was posted as collateral less what withdrawals
   * burned, so they exceed the recorded total exactly when more was posted than
   * burned.
   */
  lemma {:induction false} SharesWithinTotalIff(cfg: Config, at: nat, tokens: Ledger, cs: seq<Call>)
    ensures var w0 := Start(cfg, at, tokens);
            var m := Run(w0, cs).market;
            && Sum(m.shares) == m.totalShares + Posted(w0, cs) - Burned(w0, cs)
            && (Sum(m.shares) <= m.totalShares <==> Posted(w0, cs) <= Burned(w0, cs))
  {
    RunAccountsShares(Start(cfg, at, tokens), cs);
    assert SumOver<Address>({}, map[]) == 0;
  }

  /**
   * What posting does: after a deposit of `n` by `a`, anybody posts `p` without
   * moving a token and can withdraw them as tokens if and only if `p` is within
   * the deposit. The depositor's shares stay, the tokens are gone.
   */
  lemma PostedCollateralTakesDeposits(cfg: Config, a: Address, b: Address, n: int, p: int)
    requires a != b && 0 < n && 0 < p && n * VIRTUAL <= I128_MAX && p * (n + VIRTUAL) <= I128_MAX
    requires n + VIRTUAL <= I128_MAX
    ensures var w := Step(Step(Start(cfg, 0, map[User(a) := n]), Supply(a, n)), PostCollateral(b, p));
            var r := Withdrawn(w.market, b, p, w.now);
            && Get(w.market.tokens, Pool) == n && Get(w.market.tokens, User(b)) == 0
            && (r.Ok? <==> p <= n)
            && (r.Ok? ==> r.value.1 == p && Get(r.value.0.shares, a) == n
                          && Get(r.value.0.tokens, Pool) == n - p && Get(r.value.0.tokens, User(b)) == p)
  {
    var w0 := Start(cfg, 0, map[User(a) := n]);
    SupplyAtPar(w0.market, a, n);
    var w1 := Step(w0, Supply(a, n));
    FitsAlone(n, p);
    assert PostedCollateral(w1.market, b, p).Ok?;
    var w := Step(w1, PostCollateral(b, p));
    if p <= n {
      WithdrawAtPar(w.market, b, p);
    } else {
      MulMono(0, p, n + VIRTUAL);
      QuotUnique(p * (n + VIRTUAL), n + VIRTUAL, p);
      assert RedeemedAmount(w.market, p) == Ok(p);
    }
  }

  lemma FitsAlone(n: int, p: int)
    requires 0 < n && 0 < p && p * (n + VIRTUAL) <= I128_MAX
    ensures p <= I128_MAX
  {
    MulMono(1, n + VIRTUAL, p);
  }
}
