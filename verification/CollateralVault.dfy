/**
 * The collateral vault for one asset whose token address is set, called by
 * registered operators. Every storage key carries the asset.
 */
module CollateralVault {
  import opened Host
  import opened Totals
  import opened Token

  datatype Book = Book(position: map<Address, int>, total: int)

  const Empty := Book(map[], 0)

  function Deposited(v: Book, t: Ledger, user: Address, amount: int): Result<(Book, Ledger)> {
    if amount <= 0 then Revert(AmountNotPositive)
    else
      var paid :- Transfer(t, User(user), Vault, amount);
      var held :- Checked(Get(v.position, user) + amount);
      var total :- Checked(v.total + amount);
      Ok((Book(v.position[user := held], total), paid))
  }

  function Withdrawn(v: Book, t: Ledger, user: Address, amount: int): Result<(Book, Ledger)> {
    if amount <= 0 then Revert(AmountNotPositive)
    else if Get(v.position, user) < amount then Revert(InsufficientCollateral)
    else
      var paid :- Transfer(t, Vault, User(user), amount);
      var total :- Checked(v.total - amount);
      Ok((Book(v.position[user := Get(v.position, user) - amount], total), paid))
  }

  /** `seize` pays the recipient and also credits their position. */
  function Seized(v: Book, t: Ledger, owner: Address, to: Address, amount: int): Result<(Book, Ledger)> {
    if amount <= 0 then Revert(AmountNotPositive)
    else if Get(v.position, owner) < amount then Revert(InsufficientToSeize)
    else
      var paid :- Transfer(t, Vault, User(to), amount);
      var debited := v.position[owner := Get(v.position, owner) - amount];
      var received :- Checked(Get(debited, to) + amount);
      Ok((v.(position := debited[to := received]), paid))
  }

  class CollateralVaultContract {
    var position: map<Address, int>
    var total: int
    var tokens: Ledger

    constructor (tokens: Ledger)
      ensures Storage() == Empty && this.tokens == tokens
    {
      position, total, this.tokens := map[], 0, tokens;
    }

    function Storage(): Book
      reads this
    {
      Book(position, total)
    }

    method Deposit(user: Address, amount: int) returns (r: Result<int>)
      modifies this
      ensures var s := Deposited(old(Storage()), old(tokens), user, amount);
              && r == (if s.Ok? then Ok(0) else Revert(s.why))
              && (Storage(), tokens) == if s.Ok? then s.value else (old(Storage()), old(tokens))
    {
      if amount <= 0 {
        return Revert(AmountNotPositive);
      }
      var before := tokens;
      var paid :- Transfer(tokens, User(user), Vault, amount);
      tokens := paid;
      var pos := Get(position, user);
      if !Fits(pos + amount) || !Fits(total + amount) {
        tokens := before;
        return Revert(Overflow);
      }
      position := position[user := pos + amount];
      total := total + amount;
      return Ok(0);
    }

    method Withdraw(user: Address, amount: int) returns (r: Result<int>)
      modifies this
      ensures var s := Withdrawn(old(Storage()), old(tokens), user, amount);
              && r == (if s.Ok? then Ok(0) else Revert(s.why))
              && (Storage(), tokens) == if s.Ok? then s.value else (old(Storage()), old(tokens))
    {
      if amount <= 0 {
        return Revert(AmountNotPositive);
      }
      var pos := Get(position, user);
      if pos < amount {
        return Revert(InsufficientCollateral);
      }
      var before := tokens;
      var paid :- Transfer(tokens, Vault, User(user), amount);
      tokens := paid;
      if !Fits(total - amount) {
        tokens := before;
        return Revert(Overflow);
      }
      position := position[user := pos - amount];
      total := total - amount;
      return Ok(0);
    }

    method Seize(owner: Address, to: Address, amount: int) returns (r: Result<int>)
      modifies this
      ensures var s := Seized(old(Storage()), old(tokens), owner, to, amount);
              && r == (if s.Ok? then Ok(0) else Revert(s.why))
              && (Storage(), tokens) == if s.Ok? then s.value else (old(Storage()), old(tokens))
    {
      if amount <= 0 {
        return Revert(AmountNotPositive);
      }
      var pos := Get(position, owner);
      if pos < amount {
        return Revert(InsufficientToSeize);
      }
      var before, held := tokens, position;
      var paid :- Transfer(tokens, Vault, User(to), amount);
      tokens := paid;
      position := position[owner := pos - amount];
      var recv := Get(position, to);
      if !Fits(recv + amount) {
        tokens, position := before, held;
        return Revert(Overflow);
      }
      position := position[to := recv + amount];
      return Ok(0);
    }
  }

  // ---------------------------------------------------------------- positions

  ghost predicate PositionsOk(v: Book) {
    Sum(v.position) == v.total && forall u :: Get(v.position, u) >= 0
  }

  lemma PositionWrite(v: Book, v': Book, user: Address, held: int)
    requires PositionsOk(v) && held >= 0
    requires v'.position == v.position[user := held] && v'.total == v.total - Get(v.position, user) + held
    ensures PositionsOk(v')
  {
    SumSet(v.position, user, held);
    forall u ensures Get(v'.position, u) >= 0 {
      assert Get(v.position, u) >= 0;
    }
  }

  lemma DepositKeepsPositions(v: Book, t: Ledger, user: Address, amount: int)
    requires PositionsOk(v) && Deposited(v, t, user, amount).Ok?
    ensures PositionsOk(Deposited(v, t, user, amount).value.0)
  {
    assert Get(v.position, user) >= 0;
    PositionWrite(v, Deposited(v, t, user, amount).value.0, user, Get(v.position, user) + amount);
  }

  lemma WithdrawKeepsPositions(v: Book, t: Ledger, user: Address, amount: int)
    requires PositionsOk(v) && Withdrawn(v, t, user, amount).Ok?
    ensures PositionsOk(Withdrawn(v, t, user, amount).value.0)
  {
    PositionWrite(v, Withdrawn(v, t, user, amount).value.0, user, Get(v.position, user) - amount);
  }

  /**
   * A seizure moves exactly `amount` between positions, also when both are the same
   * account, and leaves the total alone.
   */
  lemma SeizureMovesPositions(v: Book, t: Ledger, owner: Address, to: Address, amount: int)
    requires PositionsOk(v) && Seized(v, t, owner, to, amount).Ok?
    ensures var v' := Seized(v, t, owner, to, amount).value.0;
            && PositionsOk(v') && v'.total == v.total
            && (forall u :: Get(v'.position, u) ==
                  Get(v.position, u) - (if u == owner then amount else 0) + (if u == to then amount else 0))
  {
    var v' := Seized(v, t, owner, to, amount).value.0;
    var debited := v.(position := v.position[owner := Get(v.position, owner) - amount], total := v.total - amount);
    PositionWrite(v, debited, owner, Get(v.position, owner) - amount);
    assert Get(debited.position, to) >= 0;
    PositionWrite(debited, v', to, Get(debited.position, to) + amount);
  }

  // ---------------------------------------------------------------- who pays whom

  /** `amount` was added to one position and no other moved. */
  ghost predicate PositionMoved(v: Book, v': Book, user: Address, amount: int) {
    forall u :: Get(v'.position, u) == Get(v.position, u) + (if u == user then amount else 0)
  }

  /** The depositor pays the vault and is credited; a deposit is refused for exactly these reasons. */
  lemma DepositEffects(v: Book, t: Ledger, user: Address, amount: int)
    ensures var r := Deposited(v, t, user, amount);
            && (r.Ok? <==> 0 < amount <= Get(t, User(user)) && Fits(Get(v.position, user) + amount)
                           && Fits(v.total + amount))
            && (r == Revert(AmountNotPositive) <==> amount <= 0)
            && (r == Revert(InsufficientBalance) <==> amount > 0 && Get(t, User(user)) < amount)
            && (r.Revert? ==> r.why in {AmountNotPositive, InsufficientBalance, Overflow})
            && (r.Ok? ==> && Moved(t, r.value.1, User(user), Vault, amount)
                          && PositionMoved(v, r.value.0, user, amount) && r.value.0.total == v.total + amount)
  {
    TransferSucceedsIff(t, User(user), Vault, amount);
    if Deposited(v, t, user, amount).Ok? {
      TransferConserves(t, User(user), Vault, amount);
    }
    hide Transfer;
  }

  /** The vault pays the owner of the position, which falls by as much. */
  lemma WithdrawEffects(v: Book, t: Ledger, user: Address, amount: int)
    ensures var r := Withdrawn(v, t, user, amount);
            && (r.Ok? <==> 0 < amount <= Get(v.position, user) && amount <= Get(t, Vault) && Fits(v.total - amount))
            && (r == Revert(AmountNotPositive) <==> amount <= 0)
            && (r == Revert(InsufficientCollateral) <==> amount > 0 && Get(v.position, user) < amount)
            && (r == Revert(InsufficientBalance) <==> 0 < amount <= Get(v.position, user) && Get(t, Vault) < amount)
            && (r.Revert? ==> r.why in {AmountNotPositive, InsufficientCollateral, InsufficientBalance, Overflow})
            && (r.Ok? ==> && Moved(t, r.value.1, Vault, User(user), amount)
                          && PositionMoved(v, r.value.0, user, -amount) && r.value.0.total == v.total - amount)
  {
    TransferSucceedsIff(t, Vault, User(user), amount);
    if Withdrawn(v, t, user, amount).Ok? {
      TransferConserves(t, Vault, User(user), amount);
    }
    hide Transfer;
  }

  /** The vault pays the recipient of a seizure, never the owner unless they are the same. */
  lemma SeizeEffects(v: Book, t: Ledger, owner: Address, to: Address, amount: int)
    ensures var r := Seized(v, t, owner, to, amount);
            && (r.Ok? <==> 0 < amount <= Get(v.position, owner) && amount <= Get(t, Vault)
                           && (to != owner ==> Fits(Get(v.position, to) + amount))
                           && (to == owner ==> Fits(Get(v.position, to))))
            && (r == Revert(AmountNotPositive) <==> amount <= 0)
            && (r == Revert(InsufficientToSeize) <==> amount > 0 && Get(v.position, owner) < amount)
            && (r == Revert(InsufficientBalance) <==> 0 < amount <= Get(v.position, owner) && Get(t, Vault) < amount)
            && (r.Revert? ==> r.why in {AmountNotPositive, InsufficientToSeize, InsufficientBalance, Overflow})
            && (r.Ok? ==> Moved(t, r.value.1, Vault, User(to), amount))
  {
    TransferSucceedsIff(t, Vault, User(to), amount);
    if Seized(v, t, owner, to, amount).Ok? {
      TransferConserves(t, Vault, User(to), amount);
    }
    hide Transfer;
  }

  // ---------------------------------------------------------------- runs

  datatype Call =
    | Deposit(user: Address, amount: int)
    | Withdraw(user: Address, amount: int)
    | Seize(owner: Address, to: Address, amount: int)
    | Donate(user: Address, amount: int)

  datatype World = World(book: Book, tokens: Ledger, seized: int, donated: int)

  function Step(w: World, c: Call): World {
    match c
    case Deposit(user, amount) =>
      var r := Deposited(w.book, w.tokens, user, amount);
      if r.Ok? then w.(book := r.value.0, tokens := r.value.1) else w
    case Withdraw(user, amount) =>
      var r := Withdrawn(w.book, w.tokens, user, amount);
      if r.Ok? then w.(book := r.value.0, tokens := r.value.1) else w
    case Seize(owner, to, amount) =>
      var r := Seized(w.book, w.tokens, owner, to, amount);
      if r.Ok? then w.(book := r.value.0, tokens := r.value.1, seized := w.seized + amount) else w
    case Donate(user, amount) =>
      var r := Transfer(w.tokens, User(user), Vault, amount);
      if r.Ok? then w.(tokens := r.value, donated := w.donated + amount) else w
  }

  function Run(w: World, cs: seq<Call>): World
    decreases cs
  {
    if cs == [] then w else Run(Step(w, cs[0]), cs[1..])
  }

  ghost predicate Inv(w: World) {
    PositionsOk(w.book) && Get(w.tokens, Vault) == w.book.total - w.seized + w.donated
  }

  lemma StepKeepsInv(w: World, c: Call)
    requires Inv(w)
    ensures Inv(Step(w, c)) && Sum(Step(w, c).tokens) == Sum(w.tokens)
  {
    match c {
      case Deposit(user, amount) =>
        if Deposited(w.book, w.tokens, user, amount).Ok? {
          DepositKeepsPositions(w.book, w.tokens, user, amount);
          TransferConserves(w.tokens, User(user), Vault, amount);
        }
      case Withdraw(user, amount) =>
        if Withdrawn(w.book, w.tokens, user, amount).Ok? {
          WithdrawKeepsPositions(w.book, w.tokens, user, amount);
          TransferConserves(w.tokens, Vault, User(user), amount);
        }
      case Seize(owner, to, amount) =>
        if Seized(w.book, w.tokens, owner, to, amount).Ok? {
          SeizureMovesPositions(w.book, w.tokens, owner, to, amount);
          TransferConserves(w.tokens, Vault, User(to), amount);
        }
      case Donate(user, amount) =>
        if Transfer(w.tokens, User(user), Vault, amount).Ok? {
          TransferConserves(w.tokens, User(user), Vault, amount);
        }
    }
  }

  lemma {:induction false} RunKeepsInv(w: World, cs: seq<Call>)
    requires Inv(w)
    ensures Inv(Run(w, cs)) && Sum(Run(w, cs).tokens) == Sum(w.tokens)
    decreases cs
  {
    if cs != [] {
      StepKeepsInv(w, cs[0]);
      RunKeepsInv(Step(w, cs[0]), cs[1..]);
    }
  }

  /** A vault nobody has used, on a token of which it holds nothing. */
  predicate Opening(w: World) {
    w.book == Empty && Get(w.tokens, Vault) == 0 && w.seized == 0 && w.donated == 0
  }

  lemma OpeningOk(w: World)
    requires Opening(w)
    ensures Inv(w)
  {
    assert SumOver<Address>({}, map[]) == 0;
  }

  /** The state of a vault that opened on the token ledger `opening`. */
  ghost predicate Accounted(opening: Ledger, w: World) {
    && Sum(w.book.position) == w.book.total
    && (forall u :: Get(w.book.position, u) >= 0)
    && Sum(w.tokens) == Sum(opening)
    && Get(w.tokens, Vault) == w.book.total - w.seized + w.donated
    && (Get(w.tokens, Vault) >= Sum(w.book.position) <==> w.seized <= w.donated)
  }

  lemma InvAccounts(opening: Ledger, w: World)
    requires Inv(w) && Sum(w.tokens) == Sum(opening)
    ensures Accounted(opening, w)
  {
  }

  /**
   * Conservation in every run: positions add up to the recorded total and none is
   * negative. Custody does not follow: the tokens in the vault are the total less
   * everything ever seized, so they cover all positions exactly while no more was
   * seized than was donated.
   */
  lemma {:induction false} PositionsAddUpCustodyDoesNot(w: World, cs: seq<Call>)
    requires Opening(w)
    ensures Accounted(w.tokens, Run(w, cs))
  {
    OpeningOk(w);
    RunKeepsInv(w, cs);
    InvAccounts(w.tokens, Run(w, cs));
  }

  /**
   * Where it stops: in a vault whose only deposit was seized in full, the seized
   * amount was paid out and credited, and the position it left cannot be withdrawn.
   */
  lemma {:induction false} SeizedPositionCannotBeWithdrawn(w: World, owner: Address, to: Address, n: int)
    requires Opening(w) && 0 < n <= Get(w.tokens, User(owner)) && n <= I128_MAX
    ensures var v := Run(w, [Deposit(owner, n), Seize(owner, to, n)]);
            && v.seized == n && v.donated == 0
            && Get(v.book.position, to) == n == Sum(v.book.position) && Get(v.tokens, Vault) == 0
            && Withdrawn(v.book, v.tokens, to, n) == Revert(InsufficientBalance)
  {
    var cs := [Deposit(owner, n), Seize(owner, to, n)];
    PositionsAddUpCustodyDoesNot(w, cs);
    assert cs[1..] == [cs[1]] && [cs[1]][1..] == [];
    var w1 := Step(w, cs[0]);
    assert Get(w1.book.position, owner) == n && Get(w1.tokens, Vault) == n && w1.book.total == n;
    var w2 := Step(w1, cs[1]);
    assert Run(w1, [cs[1]]) == Run(w2, []);
  }
}
