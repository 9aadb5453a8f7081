/** The Stellar side of the bridge: the wrapped asset and the controller's `wrap` and `unwrap`. */
module BridgeChain {
  import opened Host
  import opened Totals

  type Salt = nat
  /** A mint request of the bridge service, named by its source event. */
  type Request = nat

  /** Storage of the wrapped asset. */
  datatype Wrapped = Wrapped(balance: map<Address, int>, supply: int)

  function Minted(t: Wrapped, to: Address, amount: int): Result<Wrapped> {
    if amount <= 0 then Revert(AmountNotPositive)
    else
      var balance :- Checked(Get(t.balance, to) + amount);
      var supply :- Checked(t.supply + amount);
      Ok(Wrapped(t.balance[to := balance], supply))
  }

  function Burned(t: Wrapped, from: Address, amount: int): Result<Wrapped> {
    if amount <= 0 then Revert(AmountNotPositive)
    else if Get(t.balance, from) < amount then Revert(InsufficientBalance)
    else
      var supply :- Checked(t.supply - amount);
      Ok(Wrapped(t.balance[from := Get(t.balance, from) - amount], supply))
  }

  class WrappedAsset {
    var balance: map<Address, int>
    var supply: int

    constructor ()
      ensures Storage() == Wrapped(map[], 0)
    {
      balance, supply := map[], 0;
    }

    function Storage(): Wrapped
      reads this
    {
      Wrapped(balance, supply)
    }

    method Mint(to: Address, amount: int) returns (r: Result<int>)
      modifies this
      ensures var s := Minted(old(Storage()), to, amount);
              && r == (if s.Ok? then Ok(0) else Revert(s.why))
              && Storage() == if s.Ok? then s.value else old(Storage())
    {
      if amount <= 0 {
        return Revert(AmountNotPositive);
      }
      var before := balance;
      var bal :- Checked(Get(balance, to) + amount);
      balance := balance[to := bal];
      if !Fits(supply + amount) {
        balance := before;
        return Revert(Overflow);
      }
      supply := supply + amount;
      return Ok(0);
    }

    method Burn(from: Address, amount: int) returns (r: Result<int>)
      modifies this
      ensures var s := Burned(old(Storage()), from, amount);
              && r == (if s.Ok? then Ok(0) else Revert(s.why))
              && Storage() == if s.Ok? then s.value else old(Storage())
    {
      if amount <= 0 {
        return Revert(AmountNotPositive);
      }
      var bal := Get(balance, from);
      if bal < amount {
        return Revert(InsufficientBalance);
      }
      var before := balance;
      balance := balance[from := bal - amount];
      if !Fits(supply - amount) {
        balance := before;
        return Revert(Overflow);
      }
      supply := supply - amount;
      return Ok(0);
    }
  }

  /** One wrap that landed; `request` names the request it was submitted for, if it was one of the service's. */
  datatype Minting = Minting(to: Address, amount: int, request: Option<Request>)

  /**
   * The chain as the bridge sees it. The controller stores only that a salt was
   * used; `wraps` records, outside the program, the wrap that used it.
   */
  datatype Chain = Chain(token: Wrapped, wraps: map<Salt, Minting>, burned: int)

  const Genesis := Chain(Wrapped(map[], 0), map[], 0)

  /** `wrap` once its attestations have passed. */
  function Wrap(c: Chain, salt: Salt, m: Minting): Result<Chain> {
    if salt in c.wraps then Revert(SaltUsed)
    else
      var token :- Minted(c.token, m.to, m.amount);
      Ok(c.(token := token, wraps := c.wraps[salt := m]))
  }

  function Amounts(wraps: map<Salt, Minting>): map<Salt, int> {
    map s | s in wraps :: wraps[s].amount
  }

  function Unwrap(c: Chain, user: Address, amount: int): Result<Chain> {
    var token :- Burned(c.token, user, amount);
    Ok(c.(token := token, burned := c.burned + amount))
  }

  ghost predicate ChainOk(c: Chain) {
    && c.token.supply == Sum(c.token.balance) == Sum(Amounts(c.wraps)) - c.burned
    && (forall u :: Get(c.token.balance, u) >= 0)
    && (forall s :: s in c.wraps ==> c.wraps[s].amount > 0)
  }

  lemma BalanceWrite(balance: map<Address, int>, who: Address, v: int)
    requires v >= 0 && forall u :: Get(balance, u) >= 0
    ensures var balance' := balance[who := v];
            Sum(balance') == Sum(balance) - Get(balance, who) + v && forall u :: Get(balance', u) >= 0
  {
    SumSet(balance, who, v);
    var balance' := balance[who := v];
    forall u ensures Get(balance', u) >= 0 {
      assert Get(balance, u) >= 0;
    }
  }

  lemma WrapKeepsChain(c: Chain, salt: Salt, m: Minting)
    requires ChainOk(c) && Wrap(c, salt, m).Ok?
    ensures ChainOk(Wrap(c, salt, m).value) && m.amount > 0
  {
    assert Get(c.token.balance, m.to) >= 0;
    BalanceWrite(c.token.balance, m.to, Get(c.token.balance, m.to) + m.amount);
    SumSet(Amounts(c.wraps), salt, m.amount);
    assert Amounts(c.wraps[salt := m]) == Amounts(c.wraps)[salt := m.amount];
  }

  lemma UnwrapKeepsChain(c: Chain, user: Address, amount: int)
    requires ChainOk(c) && Unwrap(c, user, amount).Ok?
    ensures ChainOk(Unwrap(c, user, amount).value)
  {
    BalanceWrite(c.token.balance, user, Get(c.token.balance, user) - amount);
  }

  /** `amount` was added to one balance, and no other moved. */
  ghost predicate Credited(t: Wrapped, t': Wrapped, who: Address, amount: int) {
    forall u :: Get(t'.balance, u) == Get(t.balance, u) + if u == who then amount else 0
  }

  /**
   * `wrap` credits the recipient and nobody else and records its salt and no other;
   * it is refused for a used salt, for its amount or for overflow.
   */
  lemma WrapEffects(c: Chain, salt: Salt, m: Minting)
    ensures var r := Wrap(c, salt, m);
            && (r == Revert(SaltUsed) <==> salt in c.wraps)
            && (r == Revert(AmountNotPositive) <==> salt !in c.wraps && m.amount <= 0)
            && (r.Revert? ==> r.why in {SaltUsed, AmountNotPositive, Overflow})
            && (r.Ok? <==> salt !in c.wraps && m.amount > 0 && Fits(Get(c.token.balance, m.to) + m.amount)
                           && Fits(c.token.supply + m.amount))
            && (r.Ok? ==> && Credited(c.token, r.value.token, m.to, m.amount)
                          && r.value.token.supply == c.token.supply + m.amount
                          && r.value.wraps.Keys == c.wraps.Keys + {salt} && r.value.wraps[salt] == m
                          && (forall s :: s in c.wraps ==> r.value.wraps[s] == c.wraps[s])
                          && r.value.burned == c.burned)
  {
  }

  /** `unwrap` debits its caller and nobody else, and never more than they have. */
  lemma UnwrapEffects(c: Chain, user: Address, amount: int)
    ensures var r := Unwrap(c, user, amount);
            && (r == Revert(AmountNotPositive) <==> amount <= 0)
            && (r == Revert(InsufficientBalance) <==> amount > 0 && Get(c.token.balance, user) < amount)
            && (r.Revert? ==> r.why in {AmountNotPositive, InsufficientBalance, Overflow})
            && (r.Ok? <==> 0 < amount <= Get(c.token.balance, user) && Fits(c.token.supply - amount))
            && (r.Ok? ==> && Credited(c.token, r.value.token, user, -amount)
                          && r.value.token.supply == c.token.supply - amount
                          && r.value.wraps == c.wraps && r.value.burned == c.burned + amount)
  {
  }

  lemma GenesisOk()
    ensures ChainOk(Genesis)
  {
    assert SumOver<Address>({}, map[]) == 0;
    assert Amounts(Genesis.wraps) == map[];
    assert SumOver<Salt>({}, map[]) == 0;
  }
}
