/** Whose wrap a minted request stands for: its own, another request's, or a foreign one. */
module MintOwners {
  import opened Host
  import opened Lists
  import opened Totals
  import opened Batches
  import opened BridgeChain
  import opened MintQueue
  import opened MintRuns

  /** The wrap under the request's salt was submitted for this request. */
  predicate Owns(q: Queue, k: Key)
    requires k in q.rows
  {
    q.rows[k].salt in q.chain.wraps && q.chain.wraps[q.rows[k].salt].request == Some(k)
  }

  predicate IsMinted(q: Queue, k: Key) {
    k in q.rows && q.rows[k].status.Done?
  }

  // ---------------------------------------------------------------- names on wraps

  /** A wrap that names a request minted what the request asks for, under its salt. */
  ghost predicate NameOk(m: Minting, salt: Salt, rows: map<Key, Row>) {
    m.request.Some? ==>
      && m.request.value in rows
      && rows[m.request.value].salt == salt
      && m == WrapOf(m.request.value, rows[m.request.value])
  }

  ghost predicate Named(q: Queue) {
    forall s :: s in q.chain.wraps ==> NameOk(q.chain.wraps[s], s, q.rows)
  }

  lemma LaterRowsKeepNames(q: Queue, q': Queue)
    requires Named(q) && Later(q, q')
    requires forall s :: s in q'.chain.wraps && s !in q.chain.wraps ==> NameOk(q'.chain.wraps[s], s, q'.rows)
    ensures Named(q')
  {
    forall s | s in q'.chain.wraps ensures NameOk(q'.chain.wraps[s], s, q'.rows) {
      if s in q.chain.wraps {
        var m := q.chain.wraps[s];
        assert NameOk(m, s, q.rows);
        if m.request.Some? {
          assert RowLater(q.rows[m.request.value], q'.rows[m.request.value]);
        }
      }
    }
  }

  lemma AttemptNames(q: Queue, k: Key, a: Attempt)
    requires Inv(q) && Named(q) && k in q.rows && q.rows[k].status.Pending?
    ensures Named(Attempted(q, k, q.rows[k], a).0)
  {
    var q' := Attempted(q, k, q.rows[k], a).0;
    AttemptKeeps(q, k, a);
    AttemptWrites(q, k, q.rows[k], a);
    SubmissionKeepsChain(q.chain, k, q.rows[k]);
    assert RowLater(q.rows[k], q'.rows[k]);
    LaterRowsKeepNames(q, q');
  }

  lemma {:induction false} BatchNames(q: Queue, batch: seq<Key>, read: map<Key, Row>, plan: seq<Attempt>,
                                      minted: nat, failed: nat)
    requires Inv(q) && AsRead(q, batch, read) && Named(q)
    ensures Named(Continued(q, batch, read, plan, minted, failed).queue)
    decreases batch
  {
    hide Attempted, Named, Inv;
    if batch != [] && plan != [] {
      var k := batch[0];
      AttemptKeeps(q, k, plan[0]);
      AttemptNames(q, k, plan[0]);
      var (q', p) := Attempted(q, k, read[k], plan[0]);
      if !p.Died? {
        RestAsRead(q, q', batch, read);
        var m, f := if p.Minted? then minted + 1 else minted, if p.Minted? then failed else failed + 1;
        BatchNames(q', batch[1..], read, plan[1..], m, f);
      }
    }
  }

  lemma StepNames(q: Queue, e: Event)
    requires Inv(q) && Named(q)
    ensures Named(Step(q, e))
  {
    StepKeeps(q, e);
    match e {
      case Tick(plan) =>
        BatchAsRead(q);
        BatchNames(q, BatchOf(q), q.rows, plan, 0, 0);
      case LateLanding(k) =>
        if k in q.rows {
          SubmissionKeepsChain(q.chain, k, q.rows[k]);
        }
        LaterRowsKeepNames(q, Step(q, e));
      case _ =>
        LaterRowsKeepNames(q, Step(q, e));
    }
  }

  lemma {:induction false} RunNames(q: Queue, es: seq<Event>)
    requires Inv(q) && Named(q)
    ensures Inv(Run(q, es)) && Named(Run(q, es))
    decreases es
  {
    hide Inv, Named, Step;
    if es != [] {
      StepKeeps(q, es[0]);
      StepNames(q, es[0]);
      RunNames(Step(q, es[0]), es[1..]);
    }
  }

  lemma {:induction false} ReachableNames(es: seq<Event>)
    ensures Inv(Run(Empty, es)) && Named(Run(Empty, es))
  {
    EmptyOk();
    RunNames(Empty, es);
  }

  // ---------------------------------------------------------------- one request

  /** An answer of the chain settles the row: success, or the salt is used already. */
  predicate Usable(q: Queue, k: Key)
    requires k in q.rows
  {
    && q.rows[k].status.Pending? && q.rows[k].attempts < MAX_MINT_ATTEMPTS
    && Landed(q.chain, k, q.rows[k])
  }

  /**
   * The exact condition for one request, in every reachable state: an answered
   * submission always ends as minted, and the request has a wrap of its own if
   * and only if its salt was free or used by a submission of its own. A wrap of
   * its own paid its own recipient its own amount.
   */
  lemma {:induction false} AnsweredSubmissionMintsItsOwnIff(es: seq<Event>, k: Key)
    requires k in Run(Empty, es).rows && Usable(Run(Empty, es), k)
    ensures var q := Run(Empty, es);
            var row, q' := q.rows[k], Attempted(q, k, q.rows[k], Submitted(Answered)).0;
            && q'.rows[k] == row.(status := Done)
            && (Owns(q', k) <==> row.salt !in q.chain.wraps || Owns(q, k))
            && (Owns(q', k) ==> q'.chain.wraps[row.salt] == WrapOf(k, row))
  {
    ReachableNames(es);
    var q := Run(Empty, es);
    SubmissionKeepsChain(q.chain, k, q.rows[k]);
    if q.rows[k].salt in q.chain.wraps {
      assert NameOk(q.chain.wraps[q.rows[k].salt], q.rows[k].salt, q.rows);
    }
  }

  /** Once a salt is used, whose it is never changes. */
  lemma UsedSaltDecides(q: Queue, es: seq<Event>, k: Key)
    requires Inv(q) && k in q.rows && q.rows[k].salt in q.chain.wraps
    ensures var q' := Run(q, es);
            && k in q'.rows && q'.rows[k].salt in q'.chain.wraps
            && (Owns(q', k) <==> Owns(q, k))
  {
    MintProtocolSafety(q, es);
    assert RowLater(q.rows[k], Run(q, es).rows[k]);
  }

  // ---------------------------------------------------------------- all minted requests

  /** The wrap under the salt of a minted request is foreign, or another's that did not end as minted. */
  ghost predicate TakenByStranger(q: Queue, k: Key)
    requires IsMinted(q, k) && q.rows[k].salt in q.chain.wraps
  {
    var m := q.chain.wraps[q.rows[k].salt];
    m.request.None? || !IsMinted(q, m.request.value)
  }

  ghost predicate AllOwn(q: Queue) {
    forall k :: IsMinted(q, k) ==> Owns(q, k)
  }

  ghost predicate NoStrangers(q: Queue) {
    forall k :: IsMinted(q, k) ==> q.rows[k].salt in q.chain.wraps && !TakenByStranger(q, k)
  }

  ghost predicate SaltsApart(q: Queue) {
    forall j, k :: IsMinted(q, j) && IsMinted(q, k) && j != k ==> q.rows[j].salt != q.rows[k].salt
  }

  lemma AllOwnIff(q: Queue)
    requires Named(q)
    ensures AllOwn(q) <==> SaltsApart(q) && NoStrangers(q)
  {
    if SaltsApart(q) && NoStrangers(q) {
      forall k | IsMinted(q, k) ensures Owns(q, k) {
        var salt := q.rows[k].salt;
        assert salt in q.chain.wraps && !TakenByStranger(q, k) && NameOk(q.chain.wraps[salt], salt, q.rows);
        assert IsMinted(q, q.chain.wraps[salt].request.value);
      }
    }
    if AllOwn(q) {
      forall k | IsMinted(q, k) ensures q.rows[k].salt in q.chain.wraps && !TakenByStranger(q, k) {
        assert Owns(q, k);
      }
      forall j, k | IsMinted(q, j) && IsMinted(q, k) && j != k ensures q.rows[j].salt != q.rows[k].salt {
        assert Owns(q, j) && Owns(q, k);
      }
    }
  }

  /**
   * In every run, with any repeated salts, lost and late submissions and foreign
   * wraps: each minted request has a wrap of its own if and only if no two minted
   * requests share a salt and no salt of theirs was used by a foreign wrap or for
   * a request that was not minted.
   */
  lemma {:induction false} MintedRowsOwnTheirWrapsIff(es: seq<Event>)
    ensures var q := Run(Empty, es);
            && (forall k :: IsMinted(q, k) ==> q.rows[k].salt in q.chain.wraps)
            && (AllOwn(q) <==> SaltsApart(q) && NoStrangers(q))
  {
    ReachableNames(es);
    var q := Run(Empty, es);
    AllOwnIff(q);
    forall k | IsMinted(q, k) ensures q.rows[k].salt in q.chain.wraps {
      assert RowOk(q.rows[k], q.chain.wraps);
    }
  }

  // ---------------------------------------------------------------- totals

  ghost function MintedKeys(q: Queue): set<Key> {
    set k | k in q.rows && q.rows[k].status.Done?
  }

  ghost function OwningKeys(q: Queue): set<Key> {
    set k | k in MintedKeys(q) && Owns(q, k)
  }

  function Asked(q: Queue): map<Key, int> {
    map k | k in q.rows :: q.rows[k].amount
  }

  /** The salts of minted requests. */
  ghost function MintedSalts(q: Queue): set<Salt> {
    set k | k in MintedKeys(q) :: q.rows[k].salt
  }

  /** What the minted requests ask for together, and what was wrapped under their salts. */
  ghost function MintedTotal(q: Queue): int {
    SumOver(MintedKeys(q), Asked(q))
  }

  ghost function WrappedTotal(q: Queue): int {
    SumOver(MintedSalts(q), Amounts(q.chain.wraps))
  }

  ghost predicate PositiveRequests(es: seq<Event>) {
    forall i :: 0 <= i < |es| && es[i].Enqueue? && es[i].valid ==> es[i].amount > 0
  }

  ghost predicate RowsPositive(q: Queue) {
    forall k :: k in q.rows && !q.rows[k].status.Failed? ==> q.rows[k].amount > 0
  }

  lemma StepPositive(q: Queue, e: Event)
    requires Inv(q) && RowsPositive(q) && (e.Enqueue? && e.valid ==> e.amount > 0)
    ensures RowsPositive(Step(q, e))
  {
    StepKeeps(q, e);
    StepKeepsRequests(q, e);
    var q' := Step(q, e);
    forall k | k in q'.rows && !q'.rows[k].status.Failed? ensures q'.rows[k].amount > 0 {
      if k in q.rows {
        assert RowLater(q.rows[k], q'.rows[k]);
      }
    }
  }

  lemma {:induction false} BatchKeepsKeys(q: Queue, batch: seq<Key>, read: map<Key, Row>, plan: seq<Attempt>,
                                          minted: nat, failed: nat)
    requires AsRead(q, batch, read)
    ensures Continued(q, batch, read, plan, minted, failed).queue.rows.Keys == q.rows.Keys
    decreases batch
  {
    BatchSpends(q, batch, read, plan, minted, failed);
  }

  /** New keys come from `Enqueue` alone. */
  lemma StepKeepsRequests(q: Queue, e: Event)
    requires Shape(q)
    ensures !e.Enqueue? ==> Step(q, e).rows.Keys == q.rows.Keys
    ensures e.Enqueue? ==> Step(q, e) == Enqueued(q, e.key, e.salt, e.to, e.amount, e.valid)
  {
    if e.Tick? {
      BatchAsRead(q);
      BatchKeepsKeys(q, BatchOf(q), q.rows, e.plan, 0, 0);
    }
  }

  lemma {:induction false} RunPositive(q: Queue, es: seq<Event>)
    requires Inv(q) && RowsPositive(q) && PositiveRequests(es)
    ensures RowsPositive(Run(q, es))
    decreases es
  {
    hide Inv, RowsPositive, Step;
    if es != [] {
      assert forall i :: 0 <= i < |es[1..]| ==> es[1..][i] == es[i + 1];
      StepKeeps(q, es[0]);
      StepPositive(q, es[0]);
      RunPositive(Step(q, es[0]), es[1..]);
    }
  }

  /** Summed over part of the keys, with nothing negative outside it. */
  lemma {:induction false} SumOfPart<K(!new)>(part: set<K>, all: set<K>, m: map<K, int>)
    requires part <= all && forall k :: k in all - part ==> Get(m, k) > 0
    ensures SumOver(part, m) <= SumOver(all, m)
    ensures SumOver(part, m) == SumOver(all, m) <==> part == all
    decreases all - part
  {
    if k :| k in all - part {
      SumPick(all, m, k);
      SumOfPart(part, all - {k}, m);
    } else {
      forall x | x in all ensures x in part {
        assert x !in all - part;
      }
      assert part == all;
    }
  }

  /** Summing wraps by salt is summing the requests they name. */
  lemma {:induction false} SumByRequest(salts: set<Salt>, keys: set<Key>, q: Queue)
    requires forall s :: s in salts ==> s in q.chain.wraps && q.chain.wraps[s].request.Some?
                                        && q.chain.wraps[s].request.value in keys
    requires forall k :: k in keys ==> k in q.rows && q.rows[k].salt in salts && Owns(q, k)
    requires Named(q)
    ensures SumOver(salts, Amounts(q.chain.wraps)) == SumOver(keys, Asked(q))
    decreases salts
  {
    if s :| s in salts {
      var k := q.chain.wraps[s].request.value;
      assert NameOk(q.chain.wraps[s], s, q.rows);
      SumPick(salts, Amounts(q.chain.wraps), s);
      SumPick(keys, Asked(q), k);
      forall t | t in salts - {s} ensures q.chain.wraps[t].request.value in keys - {k} {
        assert NameOk(q.chain.wraps[t], t, q.rows);
      }
      SumByRequest(salts - {s}, keys - {k}, q);
    } else {
      assert keys == {};
    }
  }

  lemma OwningTotal(q: Queue)
    requires Inv(q) && Named(q) && NoStrangers(q)
    ensures WrappedTotal(q) == SumOver(OwningKeys(q), Asked(q))
  {
    var salts, keys := MintedSalts(q), OwningKeys(q);
    forall s | s in salts
      ensures s in q.chain.wraps && q.chain.wraps[s].request.Some? && q.chain.wraps[s].request.value in keys
    {
      var k :| k in MintedKeys(q) && q.rows[k].salt == s;
      assert IsMinted(q, k) && !TakenByStranger(q, k) && NameOk(q.chain.wraps[s], s, q.rows);
    }
    SumByRequest(salts, keys, q);
  }

  /**
   * What repeated salts cost, in every run of positive requests: what was submitted
   * for minted requests themselves is within what all minted requests ask for,
   * and is all of it exactly when each has a wrap of its own. Where no stranger
   * took their salts, minted requests ask for no less than was wrapped under
   * them, and for exactly that if and only if no two of them share a salt.
   */
  lemma {:induction false} MintedIsWrappedIff(es: seq<Event>)
    requires PositiveRequests(es)
    ensures var q := Run(Empty, es);
            var own := SumOver(OwningKeys(q), Asked(q));
            && own <= MintedTotal(q) && (own == MintedTotal(q) <==> AllOwn(q))
            && (NoStrangers(q) ==>
                  && WrappedTotal(q) <= MintedTotal(q)
                  && (WrappedTotal(q) == MintedTotal(q) <==> SaltsApart(q)))
  {
    ReachableNames(es);
    EmptyOk();
    RunPositive(Empty, es);
    var q := Run(Empty, es);
    hide Inv, Named, RowsPositive, Run, NoStrangers, SaltsApart;
    AllOwnIff(q);
    OwningPart(q);
    if NoStrangers(q) {
      OwningTotal(q);
    }
  }

  lemma OwningPart(q: Queue)
    requires RowsPositive(q)
    ensures SumOver(OwningKeys(q), Asked(q)) <= MintedTotal(q)
    ensures SumOver(OwningKeys(q), Asked(q)) == MintedTotal(q) <==> AllOwn(q)
  {
    var part, all := OwningKeys(q), MintedKeys(q);
    SumOfPart(part, all, Asked(q));
    if part == all {
      forall k | IsMinted(q, k) ensures Owns(q, k) {
        assert k in all;
      }
    }
    if AllOwn(q) {
      forall k | k in all ensures k in part {
        assert IsMinted(q, k);
      }
    }
  }

  // ---------------------------------------------------------------- keeping requests apart

  /** No salt is shared by two requests, and the wrap under a request's salt, if any, is its own. */
  ghost predicate Apart(q: Queue) {
    && (forall j, k :: j in q.rows && k in q.rows && j != k ==> q.rows[j].salt != q.rows[k].salt)
    && (forall k :: k in q.rows && q.rows[k].salt in q.chain.wraps ==> Owns(q, k))
  }

  ghost predicate SaltUnknown(q: Queue, salt: Salt) {
    forall j :: j in q.rows ==> q.rows[j].salt != salt
  }

  /** A new request has a salt of its own that is still free; a foreign wrap takes no request's salt. */
  ghost predicate KeepsApart(q: Queue, e: Event) {
    match e
    case Enqueue(k, salt, _, _, _) => k in q.rows || (SaltUnknown(q, salt) && salt !in q.chain.wraps)
    case OtherWrap(salt, to, amount) => Wrap(q.chain, salt, Minting(to, amount, None)).Ok? ==> SaltUnknown(q, salt)
    case _ => true
  }

  ghost predicate ApartRun(q: Queue, es: seq<Event>)
    decreases es
  {
    es != [] ==> KeepsApart(q, es[0]) && ApartRun(Step(q, es[0]), es[1..])
  }

  /** Rows keep their salts, and a submission lands under its own row's salt. */
  lemma SameRowsStayApart(q: Queue, q': Queue, k: Key)
    requires Apart(q) && k in q.rows && q'.rows.Keys == q.rows.Keys && Later(q, q')
    requires q'.chain == q.chain || q'.chain == Submission(q.chain, k, q.rows[k])
    ensures Apart(q')
  {
    forall i, j | i in q'.rows && j in q'.rows && i != j ensures q'.rows[i].salt != q'.rows[j].salt {
      assert RowLater(q.rows[i], q'.rows[i]) && RowLater(q.rows[j], q'.rows[j]);
    }
    forall j | j in q'.rows && q'.rows[j].salt in q'.chain.wraps ensures Owns(q', j) {
      assert RowLater(q.rows[j], q'.rows[j]);
      if q.rows[j].salt in q.chain.wraps {
        assert Owns(q, j);
      }
    }
  }

  lemma {:induction false} BatchApart(q: Queue, batch: seq<Key>, read: map<Key, Row>, plan: seq<Attempt>,
                                      minted: nat, failed: nat)
    requires Inv(q) && AsRead(q, batch, read) && Apart(q)
    ensures Apart(Continued(q, batch, read, plan, minted, failed).queue)
    decreases batch
  {
    hide Attempted, Apart, Inv, Outcome;
    if batch != [] && plan != [] {
      var k := batch[0];
      AttemptKeeps(q, k, plan[0]);
      AttemptWrites(q, k, q.rows[k], plan[0]);
      var (q', p) := Attempted(q, k, read[k], plan[0]);
      SameRowsStayApart(q, q', k);
      if !p.Died? {
        RestAsRead(q, q', batch, read);
        var m, f := if p.Minted? then minted + 1 else minted, if p.Minted? then failed else failed + 1;
        BatchApart(q', batch[1..], read, plan[1..], m, f);
      }
    }
  }

  lemma EnqueueApartIff(q: Queue, k: Key, salt: Salt, to: Address, amount: int, valid: bool)
    requires Inv(q) && Named(q) && Apart(q) && k !in q.rows
    ensures Apart(Enqueued(q, k, salt, to, amount, valid)) <==> SaltUnknown(q, salt) && salt !in q.chain.wraps
  {
    var q' := Enqueued(q, k, salt, to, amount, valid);
    assert forall j :: j in q.rows ==> q'.rows[j] == q.rows[j];
    assert q'.rows[k].salt == salt;
    assert salt in q.chain.wraps ==> NameOk(q.chain.wraps[salt], salt, q.rows);
    if Apart(q') {
      forall j | j in q.rows ensures q.rows[j].salt != salt {
        assert q'.rows[j].salt != q'.rows[k].salt;
      }
      assert salt in q.chain.wraps ==> Owns(q', k);
    }
    if SaltUnknown(q, salt) && salt !in q.chain.wraps {
      forall j | j in q'.rows && q'.rows[j].salt in q'.chain.wraps ensures Owns(q', j) {
        assert Owns(q, j);
      }
    }
  }

  lemma OtherWrapApartIff(q: Queue, salt: Salt, m: Minting)
    requires Apart(q) && m.request.None? && Wrap(q.chain, salt, m).Ok?
    ensures Apart(q.(chain := Wrap(q.chain, salt, m).value)) <==> SaltUnknown(q, salt)
  {
    var q' := q.(chain := Wrap(q.chain, salt, m).value);
    if Apart(q') {
      forall j | j in q.rows ensures q.rows[j].salt != salt {
        assert q'.rows[j].salt in q'.chain.wraps ==> Owns(q', j);
      }
    }
    if SaltUnknown(q, salt) {
      forall j | j in q'.rows && q'.rows[j].salt in q'.chain.wraps ensures Owns(q', j) {
        assert Owns(q, j);
      }
    }
  }

  /**
   * Passes, burns and late landings keep requests apart; a new request or a foreign
   * wrap does exactly when it comes apart itself.
   */
  lemma StaysApartIff(q: Queue, e: Event)
    requires Inv(q) && Named(q) && Apart(q)
    ensures Apart(Step(q, e)) <==> KeepsApart(q, e)
  {
    var q' := Step(q, e);
    match e {
      case Enqueue(k, salt, to, amount, valid) =>
        if k !in q.rows {
          EnqueueApartIff(q, k, salt, to, amount, valid);
        }
      case Tick(plan) =>
        BatchAsRead(q);
        BatchApart(q, BatchOf(q), q.rows, plan, 0, 0);
      case OtherWrap(salt, to, amount) =>
        if Wrap(q.chain, salt, Minting(to, amount, None)).Ok? {
          OtherWrapApartIff(q, salt, Minting(to, amount, None));
        }
      case LateLanding(k) =>
        StepKeeps(q, e);
        if k in q.rows {
          SameRowsStayApart(q, q', k);
        }
      case Burn(_, _) =>
        forall j | j in q'.rows && q'.rows[j].salt in q'.chain.wraps ensures Owns(q', j) {
          assert Owns(q, j);
        }
    }
  }

  lemma {:induction false} RunStaysApart(q: Queue, es: seq<Event>)
    requires Inv(q) && Named(q) && Apart(q) && ApartRun(q, es)
    ensures Apart(Run(q, es))
    decreases es
  {
    hide Inv, Named, Apart, KeepsApart, Step;
    if es != [] {
      StepKeeps(q, es[0]);
      StepNames(q, es[0]);
      StaysApartIff(q, es[0]);
      RunStaysApart(Step(q, es[0]), es[1..]);
    }
  }

  /**
   * In every run whose new requests have salts of their own and whose foreign
   * wraps use none of them, each minted request has a wrap of its own, which paid
   * its recipient its amount; submissions may be lost and land late.
   */
  lemma {:induction false} MintedRowsMintedTheirOwn(es: seq<Event>, k: Key)
    requires ApartRun(Empty, es) && IsMinted(Run(Empty, es), k)
    ensures var q := Run(Empty, es);
            Owns(q, k) && q.chain.wraps[q.rows[k].salt] == WrapOf(k, q.rows[k])
  {
    EmptyOk();
    ReachableNames(es);
    RunStaysApart(Empty, es);
    var q := Run(Empty, es);
    assert RowOk(q.rows[k], q.chain.wraps);
    assert NameOk(q.chain.wraps[q.rows[k].salt], q.rows[k].salt, q.rows);
  }

  // ---------------------------------------------------------------- where it fails

  /** Two requests with one salt. */
  function TwoRequests(salt: Salt, a: Address, b: Address, first: int, second: int): seq<Event> {
    [Enqueue(0, salt, a, first, true), Enqueue(1, salt, b, second, true),
     Tick([Submitted(Answered), Submitted(Answered)])]
  }

  lemma TwoRows(salt: Salt, a: Address, b: Address, first: int, second: int)
    ensures var r0, r1 := Row(salt, a, first, Pending, 0), Row(salt, b, second, Pending, 0);
            var q := Step(Step(Empty, Enqueue(0, salt, a, first, true)), Enqueue(1, salt, b, second, true));
            && q == Queue(map[0 := r0, 1 := r1], [0, 1], Genesis)
            && BatchOf(q) == [0, 1]
  {
    var q1 := Step(Empty, Enqueue(0, salt, a, first, true));
    assert q1.rows == map[0 := Row(salt, a, first, Pending, 0)] && q1.order == [0];
    var q := Step(q1, Enqueue(1, salt, b, second, true));
    assert q.order == [0, 1] && [0, 1][1..] == [1] && [1][1..] == [];
    assert PendingKeys(q.rows) == {0, 1};
    assert Batch([1], {0, 1}, 24) == [1];
  }

  lemma TwoSubmissions(q: Queue, r0: Row, r1: Row)
    requires q == Queue(map[0 := r0, 1 := r1], [0, 1], Genesis)
    requires r0.salt == r1.salt && 0 < r0.amount <= I128_MAX
    requires r0.status.Pending? && r1.status.Pending? && r0.attempts == r1.attempts == 0
    ensures var q' := Continued(q, [0, 1], q.rows, [Submitted(Answered), Submitted(Answered)], 0, 0).queue;
            && q'.rows.Keys == {0, 1} && q'.rows[0] == r0.(status := Done) && q'.rows[1] == r1.(status := Done)
            && q'.chain == Chain(Wrapped(map[r0.to := r0.amount], r0.amount), map[r0.salt := WrapOf(0, r0)], 0)
  {
    var plan := [Submitted(Answered), Submitted(Answered)];
    var q1 := Attempted(q, 0, r0, plan[0]).0;
    assert q1.chain == Chain(Wrapped(map[r0.to := r0.amount], r0.amount), map[r0.salt := WrapOf(0, r0)], 0);
    var q2 := Attempted(q1, 1, r1, plan[1]).0;
    assert [0, 1][1..] == [1] && [1][1..] == [] && plan[1..] == [plan[1]] && [plan[1]][1..] == [];
    assert Continued(q1, [1], q.rows, plan[1..], 1, 0) == Continued(q2, [], q.rows, [], 2, 0);
  }

  /**
   * Two requests with one salt, for any recipients and any amounts, equal or not:
   * both end as minted, only the first was, and the second recipient has nothing
   * unless it is the first.
   */
  lemma {:induction false} SharedSaltLosesTheSecond(salt: Salt, a: Address, b: Address, first: int, second: int)
    requires 0 < first <= I128_MAX && 0 < second <= I128_MAX
    ensures var q := Run(Empty, TwoRequests(salt, a, b, first, second));
            && q.rows.Keys == {0, 1} && IsMinted(q, 0) && IsMinted(q, 1) && Owns(q, 0) && !Owns(q, 1)
            && q.chain.token.supply == first && MintedTotal(q) == first + second
            && Get(q.chain.token.balance, a) == first && (a != b ==> Get(q.chain.token.balance, b) == 0)
  {
    var es := TwoRequests(salt, a, b, first, second);
    TwoRows(salt, a, b, first, second);
    var q1 := Step(Empty, es[0]);
    var q2 := Step(q1, es[1]);
    TwoSubmissions(q2, q2.rows[0], q2.rows[1]);
    assert es[1..][0] == es[1] && es[1..][1..] == [es[2]] && [es[2]][1..] == [];
    assert Run(q2, [es[2]]) == Step(q2, es[2]);
    assert Run(Empty, es) == Run(q1, es[1..]) == Run(q2, [es[2]]);
    TwoAreAsked(Run(Empty, es), first, second);
  }

  lemma TwoAreAsked(q: Queue, first: int, second: int)
    requires q.rows.Keys == {0, 1} && IsMinted(q, 0) && IsMinted(q, 1)
    requires q.rows[0].amount == first && q.rows[1].amount == second
    ensures MintedTotal(q) == first + second
  {
    assert MintedKeys(q) == {0, 1};
    SumPick({0, 1}, Asked(q), 0);
    assert {0, 1} - {0} == {1};
    SumPick({1}, Asked(q), 1);
    assert {1} - {1} == {};
  }
}
