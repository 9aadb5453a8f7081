/** The token of one asset as its own contract keeps it: balances that refuse overdrafts. */
module Token {
  import opened Host
  import opened Totals

  datatype Holder = Pool | Vault | User(who: Address)

  type Ledger = map<Holder, int>

  function Transfer(t: Ledger, from: Holder, to: Holder, amount: int): Result<Ledger> {
    if amount < 0 then Revert(AmountNotPositive)
    else if Get(t, from) < amount then Revert(InsufficientBalance)
    else
      var debited := t[from := Get(t, from) - amount];
      Ok(debited[to := Get(debited, to) + amount])
  }

  ghost predicate NoOverdraft(t: Ledger) {
    forall h :: Get(t, h) >= 0
  }

  /** `amount` went from one holder to another, who may be the same, and nobody else's balance moved. */
  ghost predicate Moved(t: Ledger, t': Ledger, from: Holder, to: Holder, amount: int) {
    forall h :: Get(t', h) == Get(t, h) - (if h == from then amount else 0) + (if h == to then amount else 0)
  }

  lemma TransferConserves(t: Ledger, from: Holder, to: Holder, amount: int)
    requires Transfer(t, from, to, amount).Ok?
    ensures var t' := Transfer(t, from, to, amount).value;
            && Sum(t') == Sum(t)
            && (NoOverdraft(t) ==> NoOverdraft(t'))
            && Moved(t, t', from, to, amount)
            && 0 <= amount <= Get(t, from)
  {
    var debited := t[from := Get(t, from) - amount];
    SumSet(t, from, Get(t, from) - amount);
    SumSet(debited, to, Get(debited, to) + amount);
    var t' := debited[to := Get(debited, to) + amount];
    forall h ensures Get(t', h) == Get(t, h) - (if h == from then amount else 0) + (if h == to then amount else 0) {
    }
    if NoOverdraft(t) {
      forall h ensures Get(t', h) >= 0 {
        assert Get(t, h) >= 0;
      }
    }
  }

  /** A transfer is refused for a negative amount or for want of it, and for nothing else. */
  lemma TransferSucceedsIff(t: Ledger, from: Holder, to: Holder, amount: int)
    ensures Transfer(t, from, to, amount).Ok? <==> 0 <= amount <= Get(t, from)
    ensures Transfer(t, from, to, amount).Revert? && amount >= 0
            ==> Transfer(t, from, to, amount) == Revert(InsufficientBalance)
  {
  }
}
