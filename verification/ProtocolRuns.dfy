/** Properties that hold across the pool, the vault, the oracle, the controller and the liquidation engine. */
module ProtocolRuns {
  import opened Host
  import opened Lists
  import opened Totals
  import opened Token
  import opened Oracle
  import opened Protocol
  import Pool = LendingPool
  import Market = PoolRuns
  import Vault = CollateralVault

  // ---------------------------------------------------------------- seizure arithmetic

  lemma BonusSplitsOff(p: int, bonus: nat)
    requires p >= 0
    ensures Quot(p * (BPS + bonus), BPS) == p + Quot(p * bonus, BPS)
    ensures 0 <= Quot(p * bonus, BPS) && p * (BPS + bonus) >= 0 && p * bonus >= 0
  {
    MulMono(0, p, bonus);
    assert p * (BPS + bonus) == p * BPS + p * bonus;
    QuotBounds(p * bonus, BPS);
    QuotUnique(p * BPS + p * bonus, BPS, p + Quot(p * bonus, BPS));
  }

  /** `x` units at `price` are worth the remainder when a smaller value is taken from a larger. */
  lemma FlooredDifference(total: int, fee: int, x: int, price: int, s: int, f: int, p: int)
    requires price > 0 && p + f <= s
    requires s < total * price + price && fee * price <= f && x * price <= p
    ensures x + fee <= total
  {
    assert (x + fee) * price == x * price + fee * price;
    if total + 1 <= x + fee {
      MulMono(total + 1, x + fee, price);
    }
  }

  /**
   * The three nested floors. The liquidator's part and the fee are exactly what
   * is taken; what is taken is worth at most the repaid value with the bonus; and
   * the liquidator gets at least the repaid value back.
   */
  lemma SeizureFloors(cfg: LiquidationConfig, p: int, price: int)
    requires price > 0 && p >= 0 && cfg.fee <= BPS && SeizureOf(cfg, p, price).Ok?
    ensures var split := SeizureOf(cfg, p, price).value;
            && 0 <= split.fee <= split.total
            && split.total * price * BPS <= p * UNIT * (BPS + cfg.bonus)
            && split.ToLiquidator() >= Quot(p * UNIT, price)
  {
    var split := SeizureOf(cfg, p, price).value;
    var bonus := Quot(p * cfg.bonus, BPS);
    BonusSplitsOff(p, cfg.bonus);
    var s, f := p + bonus, Quot(bonus * cfg.fee, BPS);
    MulMono(cfg.fee, BPS, bonus);
    MulMono(0, cfg.fee, bonus);
    QuotBounds(bonus * cfg.fee, BPS);
    QuotBounds(s * UNIT, price);
    QuotBounds(f * UNIT, price);
    QuotBounds(p * UNIT, price);
    FlooredDifference(split.total, split.fee, Quot(p * UNIT, price), price, s * UNIT, f * UNIT, p * UNIT);
    QuotBounds(p * (BPS + cfg.bonus), BPS);
    TakenWithinBonus(split.total, price, s, p, BPS + cfg.bonus);
  }

  /** The seizure without its overflow checks. */
  lemma SeizureParts(cfg: LiquidationConfig, p: int, price: int)
    requires price > 0 && p >= 0 && SeizureOf(cfg, p, price).Ok?
    ensures var bonus := Quot(p * cfg.bonus, BPS);
            && bonus >= 0
            && SeizureOf(cfg, p, price).value
               == Split(Quot((p + bonus) * UNIT, price), Quot(Quot(bonus * cfg.fee, BPS) * UNIT, price))
  {
    BonusSplitsOff(p, cfg.bonus);
    hide Quot;
  }

  /** A floor to whole basis points and then to whole units, seen together. */
  lemma TwoFloors(share: int, f: int, taken: int, price: int)
    requires f * BPS <= share < f * BPS + BPS && taken <= f * UNIT < taken + price
    ensures taken * BPS <= share * UNIT < (taken + price) * BPS + BPS * UNIT
  {
  }

  lemma FeeFloors(bonus: int, fee: nat, price: int)
    requires bonus >= 0 && price > 0
    ensures var units := Quot(Quot(bonus * fee, BPS) * UNIT, price);
            && units * price * BPS <= bonus * fee * UNIT
            && bonus * fee * UNIT < (units + 1) * price * BPS + BPS * UNIT
  {
    MulMono(0, fee, bonus);
    QuotBounds(bonus * fee, BPS);
    var f := Quot(bonus * fee, BPS);
    QuotBounds(f * UNIT, price);
    hide Quot;
    var units := Quot(f * UNIT, price);
    TwoFloors(bonus * fee, f, units * price, price);
    assert (units + 1) * price == units * price + price;
  }

  /**
   * The fee is the configured share of the bonus, and the total is the repaid
   * value with the bonus, each converted at the price and rounded down.
   */
  lemma FeeIsTheBonusShare(cfg: LiquidationConfig, p: int, price: int)
    requires price > 0 && p >= 0 && SeizureOf(cfg, p, price).Ok?
    ensures var split, bonus := SeizureOf(cfg, p, price).value, Quot(p * cfg.bonus, BPS);
            && split.total * price <= (p + bonus) * UNIT < (split.total + 1) * price
            && split.fee * price * BPS <= bonus * cfg.fee * UNIT
            && bonus * cfg.fee * UNIT < (split.fee + 1) * price * BPS + BPS * UNIT
  {
    hide SeizureOf, Quot;
    SeizureParts(cfg, p, price);
    var bonus := Quot(p * cfg.bonus, BPS);
    FeeFloors(bonus, cfg.fee, price);
    QuotBounds((p + bonus) * UNIT, price);
    assert (SeizureOf(cfg, p, price).value.total + 1) * price == SeizureOf(cfg, p, price).value.total * price + price;
  }

  lemma TakenWithinBonus(total: int, price: int, s: int, p: int, mult: int)
    requires total * price <= s * UNIT && s * BPS <= p * mult
    ensures total * price * BPS <= p * UNIT * mult
  {
    assert p * UNIT * mult == p * mult * UNIT;
  }

  /** The same bound in terms of the repaid units and the two prices. */
  lemma TakenWithinRepaid(total: int, price: int, p: int, repay: int, debtPrice: int, mult: nat)
    requires total * price * BPS <= p * UNIT * mult && p * UNIT <= repay * debtPrice
    ensures total * price * BPS <= repay * debtPrice * mult
  {
    MulMono(p * UNIT, repay * debtPrice, mult);
  }

  /** Liquidating a still-covered position does not lower collateral per debt. */
  lemma CoverageNotLowered(c: int, d: int, total: int, repay: int, collPrice: int, debtPrice: int, mult: int)
    requires collPrice > 0 && repay >= 0 && d >= 0
    requires d * debtPrice * mult <= c * collPrice * BPS
    requires total * collPrice * BPS <= repay * debtPrice * mult
    ensures (c - total) * d >= c * (d - repay)
  {
    var k := collPrice * BPS;
    MulMono(total * k, repay * debtPrice * mult, d);
    MulMono(d * debtPrice * mult, c * k, repay);
    CommuteCover(total, d, k, repay, debtPrice, mult, c, collPrice);
    MulCancel(total * d, c * repay, k);
    assert (c - total) * d == c * d - total * d;
    assert c * (d - repay) == c * d - c * repay;
  }

  lemma CommuteCover(total: int, d: int, k: int, repay: int, debtPrice: int, mult: int, c: int, collPrice: int)
    requires k == collPrice * BPS
    ensures total * k * d == total * d * k
    ensures repay * debtPrice * mult * d == d * debtPrice * mult * repay
    ensures c * k * repay == c * repay * k
    ensures total * collPrice * BPS == total * k && c * collPrice * BPS == c * k
  {
  }

  // ---------------------------------------------------------------- system invariant

  ghost predicate DeskOk(d: Desk, donated: int) {
    && d.market.index >= Pool.SCALE
    && Market.DebtsOk(d.market)
    && Market.BooksOk(d.market, donated)
    && Vault.PositionsOk(d.book)
  }

  datatype World = World(system: System, donated: map<Asset, int>)

  ghost predicate SystemOk(w: World) {
    && (forall a :: a in w.system.desks ==> DeskOk(w.system.desks[a], Get(w.donated, a)))
    && (forall a :: a in w.system.assets <==> a in w.system.desks)
    && Distinct(w.system.assets)
  }

  /** The vault moves tokens between itself and users only. */
  lemma VaultMoveKeepsDesk(d: Desk, donated: int, from: Holder, to: Holder, amount: int, book: Vault.Book)
    requires DeskOk(d, donated) && Vault.PositionsOk(book) && from != Holder.Pool && to != Holder.Pool
    requires Transfer(d.market.tokens, from, to, amount).Ok?
    ensures DeskOk(Desk(d.market.(tokens := Transfer(d.market.tokens, from, to, amount).value), book), donated)
  {
    TransferConserves(d.market.tokens, from, to, amount);
    Market.SameLoans(d.market, d.market.(tokens := Transfer(d.market.tokens, from, to, amount).value));
  }

  lemma DeskWriteKeepsSystem(w: World, w': World, a: Asset, d: Desk)
    requires SystemOk(w) && a in w.system.desks && DeskOk(d, Get(w'.donated, a))
    requires w'.system.desks == w.system.desks[a := d] && w'.system.assets == w.system.assets
    requires forall b :: b != a ==> Get(w'.donated, b) == Get(w.donated, b)
    ensures SystemOk(w')
  {
    forall b | b in w'.system.desks ensures DeskOk(w'.system.desks[b], Get(w'.donated, b)) {
      if b != a {
        assert DeskOk(w.system.desks[b], Get(w.donated, b));
      }
    }
  }

  lemma VaultDepositKeeps(w: World, user: Address, asset: Asset, amount: int)
    requires SystemOk(w) && VaultDeposit(w.system, user, asset, amount).Ok?
    ensures SystemOk(World(VaultDeposit(w.system, user, asset, amount).value, w.donated))
  {
    var d := w.system.desks[asset];
    var r := Vault.Deposited(d.book, d.market.tokens, user, amount).value;
    Vault.DepositKeepsPositions(d.book, d.market.tokens, user, amount);
    VaultMoveKeepsDesk(d, Get(w.donated, asset), User(user), Holder.Vault, amount, r.0);
    DeskWriteKeepsSystem(w, World(VaultDeposit(w.system, user, asset, amount).value, w.donated), asset,
                         Desk(d.market.(tokens := r.1), r.0));
  }

  lemma VaultWithdrawKeeps(w: World, user: Address, asset: Asset, amount: int)
    requires SystemOk(w) && VaultWithdraw(w.system, user, asset, amount).Ok?
    ensures SystemOk(World(VaultWithdraw(w.system, user, asset, amount).value, w.donated))
  {
    var d := w.system.desks[asset];
    var r := Vault.Withdrawn(d.book, d.market.tokens, user, amount).value;
    Vault.WithdrawKeepsPositions(d.book, d.market.tokens, user, amount);
    VaultMoveKeepsDesk(d, Get(w.donated, asset), Holder.Vault, User(user), amount, r.0);
    DeskWriteKeepsSystem(w, World(VaultWithdraw(w.system, user, asset, amount).value, w.donated), asset,
                         Desk(d.market.(tokens := r.1), r.0));
  }

  lemma VaultSeizeKeeps(w: World, owner: Address, to: Address, asset: Asset, amount: int)
    requires SystemOk(w) && VaultSeize(w.system, owner, to, asset, amount).Ok?
    ensures SystemOk(World(VaultSeize(w.system, owner, to, asset, amount).value, w.donated))
  {
    var d := w.system.desks[asset];
    var r := Vault.Seized(d.book, d.market.tokens, owner, to, amount).value;
    Vault.SeizureMovesPositions(d.book, d.market.tokens, owner, to, amount);
    VaultMoveKeepsDesk(d, Get(w.donated, asset), Holder.Vault, User(to), amount, r.0);
    DeskWriteKeepsSystem(w, World(VaultSeize(w.system, owner, to, asset, amount).value, w.donated), asset,
                         Desk(d.market.(tokens := r.1), r.0));
  }

  /** Any pool call on one asset. */
  function PoolCall(w: World, asset: Asset, c: Market.Call): World
    requires !c.Wait?
  {
    if asset !in w.system.desks then w
    else
      var d := w.system.desks[asset];
      var r := Market.Apply(d.market, c, w.system.now);
      if r.Revert? then w
      else World(w.system.(desks := w.system.desks[asset := d.(market := r.value.0)]),
                 if c.Donate? then w.donated[asset := Get(w.donated, asset) + c.amount] else w.donated)
  }

  lemma PoolCallKeeps(w: World, asset: Asset, c: Market.Call)
    requires SystemOk(w) && !c.Wait?
    ensures SystemOk(PoolCall(w, asset, c))
  {
    if asset in w.system.desks && Market.Apply(w.system.desks[asset].market, c, w.system.now).Ok? {
      var d := w.system.desks[asset];
      var m := Market.Apply(d.market, c, w.system.now).value.0;
      MarketCallKeepsDesk(d, Get(w.donated, asset), c, w.system.now);
      DeskWriteKeepsSystem(w, PoolCall(w, asset, c), asset, d.(market := m));
    }
  }

  lemma MarketCallKeepsDesk(d: Desk, donated: int, c: Market.Call, now: nat)
    requires DeskOk(d, donated) && !c.Wait? && Market.Apply(d.market, c, now).Ok?
    ensures DeskOk(d.(market := Market.Apply(d.market, c, now).value.0),
                   if c.Donate? then donated + c.amount else donated)
  {
    Market.CallKeepsBooks(d.market, c, now, donated);
    Market.CallKeepsDebts(d.market, c, now);
  }

  lemma BorrowCall(m: Pool.Market, user: Address, amount: int, now: nat)
    ensures Market.Apply(m, Market.BorrowRaw(user, amount), now) == Pool.Borrowed(m, user, amount, false, now)
  {
  }

  lemma RepayCall(m: Pool.Market, payer: Address, borrower: Address, amount: int, now: nat)
    ensures Market.Apply(m, Market.Repay(payer, borrower, amount), now) == Pool.Repaid(m, payer, borrower, amount, now)
  {
  }

  lemma PoolBorrowKeeps(w: World, user: Address, asset: Asset, amount: int)
    requires SystemOk(w) && PoolBorrow(w.system, user, asset, amount).Ok?
    ensures SystemOk(World(PoolBorrow(w.system, user, asset, amount).value, w.donated))
  {
    var d := w.system.desks[asset];
    BorrowCall(d.market, user, amount, w.system.now);
    MarketCallKeepsDesk(d, Get(w.donated, asset), Market.BorrowRaw(user, amount), w.system.now);
    DeskWriteKeepsSystem(w, World(PoolBorrow(w.system, user, asset, amount).value, w.donated), asset,
                         d.(market := Pool.Borrowed(d.market, user, amount, false, w.system.now).value.0));
  }

  lemma PoolRepayKeeps(w: World, payer: Address, borrower: Address, asset: Asset, amount: int)
    requires SystemOk(w) && PoolRepay(w.system, payer, borrower, asset, amount).Ok?
    ensures SystemOk(World(PoolRepay(w.system, payer, borrower, asset, amount).value.0, w.donated))
  {
    var d := w.system.desks[asset];
    RepayCall(d.market, payer, borrower, amount, w.system.now);
    MarketCallKeepsDesk(d, Get(w.donated, asset), Market.Repay(payer, borrower, amount), w.system.now);
    DeskWriteKeepsSystem(w, World(PoolRepay(w.system, payer, borrower, asset, amount).value.0, w.donated), asset,
                         d.(market := Pool.Repaid(d.market, payer, borrower, amount, w.system.now).value.0));
  }

  // ---------------------------------------------------------------- runs

  datatype Call =
    | AddAsset(asset: Asset, cfg: Pool.Config, tokens: Ledger)
    | InPool(asset: Asset, call: Market.Call)
    | OperatorDeposit(user: Address, asset: Asset, amount: int)
    | OperatorWithdraw(user: Address, asset: Asset, amount: int)
    | OperatorSeize(user: Address, to: Address, asset: Asset, amount: int)
    | SupplyCollateral(user: Address, asset: Asset, amount: int)
    | BorrowAgainst(user: Address, coll: Asset, collAmount: int, debt: Asset, amount: int)
    | TakeCollateral(user: Address, coll: Asset, amount: int)
    | Liquidation(liquidator: Address, borrower: Address, debt: Asset, coll: Asset, repay: int)
    | NewFeeds(feeds: Feeds)
    | NewConfig(config: LiquidationConfig)
    | Wait(ledgers: nat)

  /** An asset is added once, with nothing yet in the pool. Prices and configuration may change to anything. */
  function Step(w: World, c: Call): World {
    var s := w.system;
    match c
    case AddAsset(asset, cfg, tokens) =>
      if asset in s.desks || !Fresh(tokens) then w
      else World(s.(desks := s.desks[asset := Desk(Pool.Added(cfg, s.now, tokens), Vault.Empty)],
                    assets := s.assets + [asset]),
                 w.donated[asset := 0])
    case InPool(asset, call) => if call.Wait? then w else PoolCall(w, asset, call)
    case OperatorDeposit(user, asset, amount) => Next(w, VaultDeposit(s, user, asset, amount))
    case OperatorWithdraw(user, asset, amount) => Next(w, VaultWithdraw(s, user, asset, amount))
    case OperatorSeize(user, to, asset, amount) => Next(w, VaultSeize(s, user, to, asset, amount))
    case SupplyCollateral(user, asset, amount) =>
      var r := VaultDeposit(s, user, asset, amount);
      if r.Ok? && asset in r.value.desks && Pool.PostedCollateral(r.value.desks[asset].market, user, amount).Ok?
      then PoolCall(World(r.value, w.donated), asset, Market.PostCollateral(user, amount)) else w
    case BorrowAgainst(user, coll, collAmount, debt, amount) => Next(w, Borrow(s, user, coll, collAmount, debt, amount))
    case TakeCollateral(user, coll, amount) => Next(w, WithdrawCollateral(s, user, coll, amount))
    case Liquidation(liquidator, borrower, debt, coll, repay) =>
      var r := Liquidate(s, liquidator, borrower, debt, coll, repay);
      if r.Ok? then w.(system := r.value.0) else w
    case NewFeeds(feeds) => w.(system := s.(feeds := feeds))
    case NewConfig(config) => w.(system := s.(liquidation := config))
    case Wait(ledgers) => w.(system := s.(now := s.now + ledgers))
  }

  function Next(w: World, r: Result<System>): World {
    if r.Ok? then w.(system := r.value) else w
  }

  /** No negative balance, and nothing in the pool. */
  predicate Fresh(tokens: Ledger) {
    (forall h <- tokens.Keys :: tokens[h] >= 0) && Get(tokens, Holder.Pool) == 0
  }

  function Run(w: World, cs: seq<Call>): World
    decreases cs
  {
    if cs == [] then w else Run(Step(w, cs[0]), cs[1..])
  }

  function Start(feeds: Feeds, config: LiquidationConfig): World {
    World(System(map[], [], feeds, config, 0), map[])
  }

  lemma NewDeskOk(cfg: Pool.Config, now: nat, tokens: Ledger)
    requires Fresh(tokens)
    ensures DeskOk(Desk(Pool.Added(cfg, now, tokens), Vault.Empty), 0)
  {
    assert SumOver<Address>({}, map[]) == 0;
    forall u ensures Market.LoanOk(Pool.Added(cfg, now, tokens), u) {
    }
  }

  lemma AddAssetKeeps(w: World, asset: Asset, cfg: Pool.Config, tokens: Ledger)
    requires SystemOk(w) && asset !in w.system.desks && Fresh(tokens)
    ensures SystemOk(Step(w, AddAsset(asset, cfg, tokens)))
  {
    var w' := Step(w, AddAsset(asset, cfg, tokens));
    NewDeskOk(cfg, w.system.now, tokens);
    forall a | a in w'.system.desks ensures DeskOk(w'.system.desks[a], Get(w'.donated, a)) {
      if a != asset {
        assert DeskOk(w.system.desks[a], Get(w.donated, a));
      }
    }
  }

  lemma LiquidateKeeps(w: World, liquidator: Address, borrower: Address, debt: Asset, coll: Asset, repay: int)
    requires SystemOk(w) && Liquidate(w.system, liquidator, borrower, debt, coll, repay).Ok?
    ensures SystemOk(World(Liquidate(w.system, liquidator, borrower, debt, coll, repay).value.0, w.donated))
  {
    var split := Assessed(w.system, borrower, debt, coll, repay).value;
    var s1 := PoolRepay(w.system, liquidator, borrower, debt, repay).value.0;
    PoolRepayKeeps(w, liquidator, borrower, debt, repay);
    var s2 := VaultSeize(s1, borrower, liquidator, coll, split.ToLiquidator()).value;
    VaultSeizeKeeps(World(s1, w.donated), borrower, liquidator, coll, split.ToLiquidator());
    if split.fee > 0 {
      VaultSeizeKeeps(World(s2, w.donated), borrower, w.system.liquidation.treasury, coll, split.fee);
    }
  }

  lemma BorrowKeeps(w: World, user: Address, coll: Asset, collAmount: int, debt: Asset, amount: int)
    requires SystemOk(w) && Borrow(w.system, user, coll, collAmount, debt, amount).Ok?
    ensures SystemOk(World(Borrow(w.system, user, coll, collAmount, debt, amount).value, w.donated))
  {
    VaultDepositKeeps(w, user, coll, collAmount);
    PoolBorrowKeeps(World(VaultDeposit(w.system, user, coll, collAmount).value, w.donated), user, debt, amount);
  }

  lemma WithdrawKeeps(w: World, user: Address, coll: Asset, amount: int)
    requires SystemOk(w) && WithdrawCollateral(w.system, user, coll, amount).Ok?
    ensures SystemOk(World(WithdrawCollateral(w.system, user, coll, amount).value, w.donated))
  {
    hide WithdrawAllowed, VaultWithdraw;
    VaultWithdrawKeeps(w, user, coll, amount);
  }

  lemma SameDesks(w: World, w': World)
    requires SystemOk(w) && w'.system.desks == w.system.desks && w'.system.assets == w.system.assets
    requires w'.donated == w.donated
    ensures SystemOk(w')
  {
  }

  lemma StepKeepsSystem(w: World, c: Call)
    requires SystemOk(w)
    ensures SystemOk(Step(w, c))
  {
    hide SystemOk, VaultDeposit, VaultWithdraw, VaultSeize, PoolCall, Borrow, WithdrawCollateral, Liquidate;
    var s := w.system;
    match c {
      case AddAsset(asset, cfg, tokens) =>
        if asset !in s.desks && Fresh(tokens) {
          AddAssetKeeps(w, asset, cfg, tokens);
        }
      case InPool(asset, call) =>
        if !call.Wait? {
          PoolCallKeeps(w, asset, call);
        }
      case OperatorDeposit(user, asset, amount) =>
        if VaultDeposit(s, user, asset, amount).Ok? {
          VaultDepositKeeps(w, user, asset, amount);
        }
      case OperatorWithdraw(user, asset, amount) =>
        if VaultWithdraw(s, user, asset, amount).Ok? {
          VaultWithdrawKeeps(w, user, asset, amount);
        }
      case OperatorSeize(user, to, asset, amount) =>
        if VaultSeize(s, user, to, asset, amount).Ok? {
          VaultSeizeKeeps(w, user, to, asset, amount);
        }
      case SupplyCollateral(user, asset, amount) =>
        if VaultDeposit(s, user, asset, amount).Ok? {
          VaultDepositKeeps(w, user, asset, amount);
          PoolCallKeeps(World(VaultDeposit(s, user, asset, amount).value, w.donated), asset,
                        Market.PostCollateral(user, amount));
        }
      case BorrowAgainst(user, coll, collAmount, debt, amount) =>
        if Borrow(s, user, coll, collAmount, debt, amount).Ok? {
          BorrowKeeps(w, user, coll, collAmount, debt, amount);
        }
      case TakeCollateral(user, coll, amount) =>
        if WithdrawCollateral(s, user, coll, amount).Ok? {
          WithdrawKeeps(w, user, coll, amount);
        }
      case Liquidation(liquidator, borrower, debt, coll, repay) =>
        if Liquidate(s, liquidator, borrower, debt, coll, repay).Ok? {
          LiquidateKeeps(w, liquidator, borrower, debt, coll, repay);
        }
      case NewFeeds(_) => SameDesks(w, Step(w, c));
      case NewConfig(_) => SameDesks(w, Step(w, c));
      case Wait(_) => SameDesks(w, Step(w, c));
    }
  }

  lemma {:induction false} RunKeepsSystem(w: World, cs: seq<Call>)
    requires SystemOk(w)
    ensures SystemOk(Run(w, cs))
    decreases cs
  {
    if cs != [] {
      StepKeepsSystem(w, cs[0]);
      RunKeepsSystem(Step(w, cs[0]), cs[1..]);
    }
  }

  /** A deployment that has configured no asset yet. */
  predicate Undeployed(w: World) {
    w.system.desks == map[] && w.system.assets == []
  }

  /**
   * In every run of the whole system, for every asset: vault positions add up to
   * the recorded total, the pool holds deposits less borrows plus donations, and
   * every loan snapshot lies between the initial and the current index.
   */
  lemma {:induction false} SystemInvariant(w: World, cs: seq<Call>)
    requires Undeployed(w)
    ensures SystemOk(Run(w, cs))
  {
    RunKeepsSystem(w, cs);
  }
}
