/** Runs of the mint queue against an adversarial environment. */
module MintRuns {
  import opened Host
  import opened Lists
  import opened Totals
  import opened Batches
  import opened BridgeChain
  import opened MintQueue

  datatype Event =
    | Enqueue(key: Key, salt: Salt, to: Address, amount: int, valid: bool)
    | Tick(plan: seq<Attempt>)
    | OtherWrap(salt: Salt, to: Address, amount: int)
    | LateLanding(key: Key)
    | Burn(user: Address, amount: int)

  /** A request recorded as invalid, which the first attempt marks, is never submitted. */
  predicate WasSubmitted(row: Row) {
    row.status.Failed? ==> row.attempts > MAX_MINT_ATTEMPTS
  }

  /**
   * Somebody else may wrap or burn between two events, and a submission whose
   * answer was lost may land at any later time.
   */
  function Step(q: Queue, e: Event): Queue {
    match e
    case Enqueue(k, salt, to, amount, valid) => Enqueued(q, k, salt, to, amount, valid)
    case Tick(plan) => Processed(q, plan).queue
    case OtherWrap(salt, to, amount) =>
      var r := Wrap(q.chain, salt, Minting(to, amount, None));
      if r.Ok? then q.(chain := r.value) else q
    case LateLanding(k) =>
      if k in q.rows && WasSubmitted(q.rows[k]) then q.(chain := Submission(q.chain, k, q.rows[k])) else q
    case Burn(user, amount) =>
      var r := Unwrap(q.chain, user, amount);
      if r.Ok? then q.(chain := r.value) else q
  }

  function Run(q: Queue, es: seq<Event>): Queue
    decreases es
  {
    if es == [] then q else Run(Step(q, es[0]), es[1..])
  }

  // ---------------------------------------------------------------- invariant

  ghost predicate RowOk(row: Row, wraps: map<Salt, Minting>) {
    && (row.status.Done? ==> row.salt in wraps)
    && (row.status.Pending? ==> row.attempts <= MAX_MINT_ATTEMPTS)
  }

  ghost predicate Inv(q: Queue) {
    && Shape(q)
    && ChainOk(q.chain)
    && (forall k :: k in q.rows ==> RowOk(q.rows[k], q.chain.wraps))
  }

  /** What no step ever undoes: rows keep their request, terminal rows keep everything, used salts keep their amount. */
  ghost predicate Later(q: Queue, q': Queue) {
    && (forall k :: k in q.rows ==> k in q'.rows && RowLater(q.rows[k], q'.rows[k]))
    && (forall s :: s in q.chain.wraps ==> s in q'.chain.wraps && q'.chain.wraps[s] == q.chain.wraps[s])
  }

  ghost predicate RowLater(r: Row, r': Row) {
    && r'.salt == r.salt && r'.to == r.to && r'.amount == r.amount
    && r.attempts <= r'.attempts
    && (!r.status.Pending? ==> r' == r)
  }

  lemma LaterTransitive(a: Queue, b: Queue, c: Queue)
    requires Later(a, b) && Later(b, c)
    ensures Later(a, c)
  {
    forall k | k in a.rows ensures k in c.rows && RowLater(a.rows[k], c.rows[k]) {
      assert RowLater(a.rows[k], b.rows[k]) && RowLater(b.rows[k], c.rows[k]);
    }
  }

  lemma SubmissionKeepsChain(c: Chain, k: Key, row: Row)
    requires ChainOk(c)
    ensures ChainOk(Submission(c, k, row))
    ensures forall s ::
              s in c.wraps ==> s in Submission(c, k, row).wraps && Submission(c, k, row).wraps[s] == c.wraps[s]
    ensures Landed(c, k, row) ==> row.salt in Submission(c, k, row).wraps
    ensures Submission(c, k, row) == c
            || (row.salt !in c.wraps && Submission(c, k, row).wraps == c.wraps[row.salt := WrapOf(k, row)])
  {
    if Wrap(c, row.salt, WrapOf(k, row)).Ok? {
      WrapKeepsChain(c, row.salt, WrapOf(k, row));
    }
  }

  /** The row an attempt leaves behind, for an attempt the worker survives. */
  lemma AttemptWrites(q: Queue, k: Key, row: Row, a: Attempt)
    ensures var (q', p) := Attempted(q, k, row, a);
            && q'.order == q.order
            && (q'.chain == q.chain || q'.chain == Submission(q.chain, k, row))
            && (if p.Died? then q'.rows == q.rows
                else exists r: Row :: q'.rows == q.rows[k := r] && Outcome(q, k, row, a, p, r, q'))
  {
    var (q', p) := Attempted(q, k, row, a);
    if !p.Died? {
      assert q'.rows == q.rows[k := q'.rows[k]];
      assert Outcome(q, k, row, a, p, q'.rows[k], q');
    }
  }

  ghost predicate Outcome(q: Queue, k: Key, row: Row, a: Attempt, p: Progress, r: Row, q': Queue) {
    || (p.Minted? && r == row.(status := Done) && Landed(q.chain, k, row) && q'.chain == Submission(q.chain, k, row))
    || (p.NotMinted? && r == row.(attempts := row.attempts + 1) && row.attempts < MAX_MINT_ATTEMPTS)
    || (p.NotMinted? && r == row.(status := Failed, attempts := row.attempts + 1) && row.attempts >= MAX_MINT_ATTEMPTS)
  }

  /** The answer says "landed" exactly for a used salt and for a wrap that goes through. */
  lemma LandedIff(c: Chain, k: Key, row: Row)
    ensures Landed(c, k, row)
            <==> || row.salt in c.wraps
                 || (row.amount > 0 && Fits(Get(c.token.balance, row.to) + row.amount)
                     && Fits(c.token.supply + row.amount))
  {
    WrapEffects(c, row.salt, WrapOf(k, row));
  }

  /**
   * What one attempt does, exactly. The wrap is submitted if and only if the
   * attempt gets that far; the row is minted if and only if an answer comes back
   * that says it landed; only a worker that survives writes the row, and then it
   * is minted, failed after its last attempt, or one attempt older.
   */
  lemma AttemptDecides(q: Queue, k: Key, row: Row, a: Attempt)
    ensures var (q', p) := Attempted(q, k, row, a);
            var submits := a.Submitted? && row.attempts < 10;
            && (p.Died? <==> a.DiedBefore? || (submits && a.fate.DiedAfter?))
            && (p.Minted? <==> submits && a.fate.Answered? && Landed(q.chain, k, row))
            && q'.order == q.order
            && q'.chain == (if submits then Submission(q.chain, k, row) else q.chain)
            && q'.rows == (if p.Died? then q.rows
                           else q.rows[k := if p.Minted? then row.(status := Done)
                                            else if row.attempts >= 10 then
                                              row.(status := Failed, attempts := row.attempts + 1)
                                            else row.(attempts := row.attempts + 1)])
  {
    hide Landed, Submission;
  }

  lemma AttemptKeeps(q: Queue, k: Key, a: Attempt)
    requires Inv(q) && k in q.rows && q.rows[k].status.Pending?
    ensures var q' := Attempted(q, k, q.rows[k], a).0;
            && Inv(q') && Later(q, q') && q'.rows.Keys == q.rows.Keys
            && forall j :: j in q.rows && j != k ==> q'.rows[j] == q.rows[j]
  {
    var (q', p) := Attempted(q, k, q.rows[k], a);
    AttemptWrites(q, k, q.rows[k], a);
    SubmissionKeepsChain(q.chain, k, q.rows[k]);
    forall j | j in q'.rows ensures RowOk(q'.rows[j], q'.chain.wraps) {
      assert RowOk(q.rows[j], q.chain.wraps);
    }
  }

  /** The rows still to be processed are as they were read. */
  ghost predicate AsRead(q: Queue, batch: seq<Key>, read: map<Key, Row>) {
    && Distinct(batch)
    && forall k :: k in batch ==> k in read && k in q.rows && q.rows[k] == read[k] && read[k].status.Pending?
  }

  lemma RestAsRead(q: Queue, q': Queue, batch: seq<Key>, read: map<Key, Row>)
    requires batch != [] && AsRead(q, batch, read) && q'.rows.Keys == q.rows.Keys
    requires forall j :: j in q.rows && j != batch[0] ==> q'.rows[j] == q.rows[j]
    ensures AsRead(q', batch[1..], read)
  {
    var rest := batch[1..];
    forall i, j | 0 <= i < j < |rest| ensures rest[i] != rest[j] {
      assert rest[i] == batch[i + 1] && rest[j] == batch[j + 1];
    }
    forall k | k in rest ensures k in batch && k != batch[0] {
      var i :| 0 <= i < |rest| && rest[i] == k;
      assert batch[i + 1] == k;
    }
  }

  lemma LaterReflexive(q: Queue)
    ensures Later(q, q)
  {
  }

  lemma {:induction false} BatchKeeps(q: Queue, batch: seq<Key>, read: map<Key, Row>, plan: seq<Attempt>, minted: nat,
                                      failed: nat)
    requires Inv(q) && AsRead(q, batch, read)
    ensures Inv(Continued(q, batch, read, plan, minted, failed).queue)
    ensures Later(q, Continued(q, batch, read, plan, minted, failed).queue)
    decreases batch
  {
    LaterReflexive(q);
    if batch != [] && plan != [] {
      var k := batch[0];
      AttemptKeeps(q, k, plan[0]);
      var (q', p) := Attempted(q, k, read[k], plan[0]);
      if !p.Died? {
        RestAsRead(q, q', batch, read);
        var m, f := if p.Minted? then minted + 1 else minted, if p.Minted? then failed else failed + 1;
        BatchKeeps(q', batch[1..], read, plan[1..], m, f);
        LaterTransitive(q, q', Continued(q', batch[1..], read, plan[1..], m, f).queue);
      }
    }
  }

  lemma BatchAsRead(q: Queue)
    requires Shape(q)
    ensures AsRead(q, BatchOf(q), q.rows)
  {
    BatchDistinct(q.order, PendingKeys(q.rows), BATCH);
  }

  lemma StepKeeps(q: Queue, e: Event)
    requires Inv(q)
    ensures Inv(Step(q, e)) && Later(q, Step(q, e))
  {
    match e {
      case Enqueue(k, salt, to, amount, valid) =>
      case Tick(plan) =>
        BatchAsRead(q);
        BatchKeeps(q, BatchOf(q), q.rows, plan, 0, 0);
      case OtherWrap(salt, to, amount) =>
        if Wrap(q.chain, salt, Minting(to, amount, None)).Ok? {
          WrapKeepsChain(q.chain, salt, Minting(to, amount, None));
        }
      case LateLanding(k) =>
        if k in q.rows {
          SubmissionKeepsChain(q.chain, k, q.rows[k]);
        }
      case Burn(user, amount) =>
        if Unwrap(q.chain, user, amount).Ok? {
          UnwrapKeepsChain(q.chain, user, amount);
        }
    }
  }

  /**
   * For every schedule of events, crashes and lost responses: a row is minted
   * only if the chain has used its salt; terminal rows never change; each salt
   * mints once and keeps its amount; and the wrapped supply is the sum of all
   * balances and of all wraps less all burns.
   */
  lemma {:induction false} MintProtocolSafety(q: Queue, es: seq<Event>)
    requires Inv(q)
    ensures Inv(Run(q, es)) && Later(q, Run(q, es))
    decreases es
  {
    LaterReflexive(q);
    if es != [] {
      StepKeeps(q, es[0]);
      MintProtocolSafety(Step(q, es[0]), es[1..]);
      LaterTransitive(q, Step(q, es[0]), Run(q, es));
    }
  }

  lemma EmptyOk()
    ensures Inv(Empty)
  {
    GenesisOk();
  }

  // ---------------------------------------------------------------- progress

  /** Attempts a pending row can still use up. */
  function Left(row: Row): int {
    if !row.status.Pending? then 0
    else if row.attempts >= MAX_MINT_ATTEMPTS then 1
    else MAX_MINT_ATTEMPTS + 1 - row.attempts
  }

  function Lefts(q: Queue): (m: map<Key, int>)
    ensures forall k :: Get(m, k) == if k in q.rows then Left(q.rows[k]) else 0
    ensures forall k :: Get(m, k) >= 0
  {
    map k | k in q.rows :: Left(q.rows[k])
  }

  /** No row gains attempts, and rows are only added. */
  ghost predicate NoneGains(q: Queue, q': Queue) {
    && q.order <= q'.order
    && (forall k :: k in q.rows ==> k in q'.rows && Left(q'.rows[k]) <= Left(q.rows[k]))
  }

  lemma AttemptSpends(q: Queue, k: Key, a: Attempt)
    requires k in q.rows && q.rows[k].status.Pending?
    ensures var (q', p) := Attempted(q, k, q.rows[k], a);
            && q'.order == q.order && q'.rows.Keys == q.rows.Keys && NoneGains(q, q')
            && (forall j :: j in q.rows && j != k ==> q'.rows[j] == q.rows[j])
            && (!p.Died? ==> Left(q'.rows[k]) < Left(q.rows[k]))
  {
    AttemptWrites(q, k, q.rows[k], a);
  }

  lemma {:induction false} BatchSpends(q: Queue, batch: seq<Key>, read: map<Key, Row>, plan: seq<Attempt>, minted: nat,
                                       failed: nat)
    requires AsRead(q, batch, read)
    ensures var p := Continued(q, batch, read, plan, minted, failed);
            && p.queue.order == q.order && p.queue.rows.Keys == q.rows.Keys && NoneGains(q, p.queue)
            && (p.alive ==> forall k :: k in batch ==> Left(p.queue.rows[k]) < Left(q.rows[k]))
    decreases batch
  {
    hide Attempted, Left;
    if batch != [] && plan != [] {
      var k := batch[0];
      AttemptSpends(q, k, plan[0]);
      var (q', p) := Attempted(q, k, read[k], plan[0]);
      if !p.Died? {
        RestAsRead(q, q', batch, read);
        var m, f := if p.Minted? then minted + 1 else minted, if p.Minted? then failed else failed + 1;
        BatchSpends(q', batch[1..], read, plan[1..], m, f);
        var r := Continued(q', batch[1..], read, plan[1..], m, f);
        forall j | r.alive && j in batch ensures Left(r.queue.rows[j]) < Left(q.rows[j]) {
          if j != k {
            assert j in batch[1..];
          }
        }
      }
    }
  }

  /** The keys of a batch whose row is minted. */
  function MintedIn(q: Queue, batch: seq<Key>): nat {
    if batch == [] then 0
    else (if batch[0] in q.rows && q.rows[batch[0]].status.Done? then 1 else 0) + MintedIn(q, batch[1..])
  }

  /** Rows outside the rest of a batch stay as they are. */
  lemma {:induction false} BatchLeavesOthers(q: Queue, batch: seq<Key>, read: map<Key, Row>, plan: seq<Attempt>,
                                             minted: nat, failed: nat, k: Key)
    requires AsRead(q, batch, read) && k in q.rows && k !in batch
    ensures var p := Continued(q, batch, read, plan, minted, failed);
            k in p.queue.rows && p.queue.rows[k] == q.rows[k]
    decreases batch
  {
    hide Attempted;
    if batch != [] && plan != [] {
      AttemptSpends(q, batch[0], plan[0]);
      var (q', p) := Attempted(q, batch[0], read[batch[0]], plan[0]);
      if !p.Died? {
        RestAsRead(q, q', batch, read);
        var m, f := if p.Minted? then minted + 1 else minted, if p.Minted? then failed else failed + 1;
        BatchLeavesOthers(q', batch[1..], read, plan[1..], m, f, k);
      }
    }
  }

  /**
   * The counters of a finished stretch of a batch: one count for each row, as minted
   * exactly where the row ends as minted.
   */
  lemma {:induction false} BatchIsCounted(q: Queue, batch: seq<Key>, read: map<Key, Row>, plan: seq<Attempt>,
                                          minted: nat, failed: nat)
    requires AsRead(q, batch, read)
    requires Continued(q, batch, read, plan, minted, failed).alive
    ensures var p := Continued(q, batch, read, plan, minted, failed);
            && p.minted == minted + MintedIn(p.queue, batch)
            && p.minted + p.failed == minted + failed + |batch|
    decreases batch
  {
    if batch != [] {
      hide Attempted, AsRead;
      var k := batch[0];
      FirstAsRead(q, batch, read);
      AttemptSpends(q, k, plan[0]);
      AttemptDecides(q, k, q.rows[k], plan[0]);
      var (q', p) := Attempted(q, k, read[k], plan[0]);
      RestAsRead(q, q', batch, read);
      var m, f := if p.Minted? then minted + 1 else minted, if p.Minted? then failed else failed + 1;
      BatchIsCounted(q', batch[1..], read, plan[1..], m, f);
      BatchLeavesOthers(q', batch[1..], read, plan[1..], m, f, k);
    }
  }

  lemma FirstAsRead(q: Queue, batch: seq<Key>, read: map<Key, Row>)
    requires batch != [] && AsRead(q, batch, read)
    ensures batch[0] in read && batch[0] in q.rows && q.rows[batch[0]] == read[batch[0]]
    ensures q.rows[batch[0]].status.Pending? && batch[0] !in batch[1..]
  {
    forall k | k in batch[1..] ensures k != batch[0] {
      var i :| 0 <= i < |batch| - 1 && batch[1..][i] == k;
    }
  }

  /** A finished pass counts every request of its batch, as minted exactly where it is minted now. */
  lemma PassIsCounted(q: Queue, plan: seq<Attempt>)
    requires Shape(q) && Processed(q, plan).alive
    ensures var p := Processed(q, plan);
            && p.minted == MintedIn(p.queue, BatchOf(q))
            && p.minted + p.failed == |BatchOf(q)|
  {
    BatchAsRead(q);
    BatchIsCounted(q, BatchOf(q), q.rows, plan, 0, 0);
  }

  /** The worker reached the end of its batch. */
  predicate Finishes(q: Queue, e: Event) {
    e.Tick? && Processed(q, e.plan).alive
  }

  /** No step gives a row attempts back, and a finished pass takes one from every row of its batch. */
  lemma StepSpends(q: Queue, e: Event)
    requires Shape(q)
    ensures Shape(Step(q, e)) && NoneGains(q, Step(q, e))
    ensures Finishes(q, e) ==> forall k :: k in BatchOf(q) ==> k in q.rows && Left(Step(q, e).rows[k]) < Left(q.rows[k])
  {
    if e.Tick? {
      BatchAsRead(q);
      BatchSpends(q, BatchOf(q), q.rows, e.plan, 0, 0);
    }
  }

  /** Finished passes of a run that had `k` in their batch. */
  function Visits(q: Queue, es: seq<Event>, k: Key): nat
    decreases es
  {
    if es == [] then 0
    else (if Finishes(q, es[0]) && k in BatchOf(q) then 1 else 0) + Visits(Step(q, es[0]), es[1..], k)
  }

  function FinishedPasses(q: Queue, es: seq<Event>): nat
    decreases es
  {
    if es == [] then 0 else (if Finishes(q, es[0]) then 1 else 0) + FinishedPasses(Step(q, es[0]), es[1..])
  }

  lemma {:induction false} VisitsSpend(q: Queue, es: seq<Event>, k: Key)
    requires Shape(q) && k in q.rows
    ensures var q' := Run(q, es);
            k in q'.rows && (Left(q'.rows[k]) == 0 || Left(q'.rows[k]) <= Left(q.rows[k]) - Visits(q, es, k))
    decreases es
  {
    hide Step, Shape, Finishes, Left;
    if es != [] {
      StepSpends(q, es[0]);
      LeftNonNegative(Step(q, es[0]).rows[k]);
      VisitsSpend(Step(q, es[0]), es[1..], k);
    }
  }

  lemma LeftNonNegative(row: Row)
    ensures 0 <= Left(row) <= MAX_MINT_ATTEMPTS + 1
    ensures Left(row) == 0 <==> !row.status.Pending?
  {
  }

  /**
   * Progress of one request: in every run, with anything enqueued meanwhile, with
   * crashes, and whatever the chain answers, the request is minted or failed once
   * eleven finished passes have had it in their batch.
   */
  lemma {:induction false} RequestEndsWithinItsAttempts(es: seq<Event>, more: seq<Event>, k: Key)
    requires k in Run(Empty, es).rows && Visits(Run(Empty, es), more, k) >= MAX_MINT_ATTEMPTS + 1
    ensures var q := Run(Run(Empty, es), more);
            k in q.rows && !q.rows[k].status.Pending?
  {
    var q := Run(Empty, es);
    EmptyOk();
    MintProtocolSafety(Empty, es);
    VisitsSpend(q, more, k);
    LeftNonNegative(q.rows[k]);
    LeftNonNegative(Run(q, more).rows[k]);
  }

  /** Attempts left in the queue up to and including position `i`. */
  function Outstanding(q: Queue, i: nat): int
    requires i < |q.order|
  {
    PrefixSum(q.order, Lefts(q), i + 1)
  }

  lemma LeftsFall(q: Queue, q': Queue)
    requires Shape(q) && NoneGains(q, q')
    ensures forall j :: 0 <= j < |q.order| ==> Get(Lefts(q'), q.order[j]) <= Get(Lefts(q), q.order[j])
  {
    hide Left;
    forall j | 0 <= j < |q.order| ensures Get(Lefts(q'), q.order[j]) <= Get(Lefts(q), q.order[j]) {
      assert q.order[j] in q.order && q.order[j] in q.rows;
    }
  }

  /** The oldest pending row is in the batch, and it is not behind position `i`. */
  lemma FinishedPassTakesOne(q: Queue, q': Queue, i: nat)
    requires Shape(q) && NoneGains(q, q') && i < |q.order| && q.order[i] in PendingKeys(q.rows)
    requires forall k :: k in BatchOf(q) ==> k in q.rows && Left(q'.rows[k]) < Left(q.rows[k])
    ensures PrefixSum(q'.order, Lefts(q'), i + 1) < PrefixSum(q.order, Lefts(q), i + 1)
  {
    hide Left, Batch, PrefixSum, Ahead;
    LeftsFall(q, q');
    assert PendingKeys(q.rows) - q.rows.Keys == {};
    NothingAhead(q.order, i);
    var h := SomeLiveKeyInBatch(q.order, PendingKeys(q.rows), q.rows.Keys, BATCH, i);
    var k := q.order[h];
    assert k in BatchOf(q);
    assert Get(Lefts(q'), k) < Get(Lefts(q), k);
    PrefixSumDrops(q.order, q'.order, Lefts(q), Lefts(q'), i + 1, h);
  }

  lemma StepOutstanding(q: Queue, e: Event, i: nat)
    requires Shape(q) && i < |q.order|
    ensures i < |Step(q, e).order| && Step(q, e).order[i] == q.order[i]
    ensures Outstanding(Step(q, e), i) <= Outstanding(q, i)
    ensures Finishes(q, e) && q.order[i] in PendingKeys(q.rows) ==> Outstanding(Step(q, e), i) < Outstanding(q, i)
  {
    hide Step, Left, Finishes, BatchOf, PrefixSum, PendingKeys, Shape;
    var q' := Step(q, e);
    StepSpends(q, e);
    LeftsFall(q, q');
    PrefixSumMono(q.order, q'.order, Lefts(q), Lefts(q'), i + 1);
    if Finishes(q, e) && q.order[i] in PendingKeys(q.rows) {
      FinishedPassTakesOne(q, q', i);
    }
  }

  /**
   * Progress without waiting for a turn: a request is minted or failed once the
   * worker has finished as many passes as there are attempts left in it and in the
   * requests before it. Nothing that is enqueued later delays it.
   */
  lemma {:induction false} EveryRequestEnds(q: Queue, es: seq<Event>, i: nat)
    requires Shape(q) && i < |q.order| && FinishedPasses(q, es) >= Outstanding(q, i)
    ensures var q' := Run(q, es);
            q.order[i] in q'.rows && !q'.rows[q.order[i]].status.Pending?
    decreases es
  {
    hide Step, Shape, Finishes, Left;
    var k := q.order[i];
    assert k in q.rows by {
      ShapeLists(q, i);
    }
    PrefixSumNonNegative(q.order, Lefts(q), i + 1);
    LeftNonNegative(q.rows[k]);
    if !q.rows[k].status.Pending? {
      VisitsSpend(q, es, k);
      LeftNonNegative(Run(q, es).rows[k]);
    } else {
      StepSpends(q, es[0]);
      StepOutstanding(q, es[0], i);
      EveryRequestEnds(Step(q, es[0]), es[1..], i);
    }
  }

  lemma ShapeLists(q: Queue, i: nat)
    requires Shape(q) && i < |q.order|
    ensures q.order[i] in q.rows
  {
  }

  /**
   * A request is fixed by the first event with its key: no later event, replay or
   * crash changes it, and an invalid one never mints.
   */
  lemma {:induction false} FirstRequestStands(q: Queue, k: Key, salt: Salt, to: Address, amount: int, valid: bool,
                                              es: seq<Event>)
    requires Inv(q) && k !in q.rows
    ensures var rows := Run(Enqueued(q, k, salt, to, amount, valid), es).rows;
            && k in rows && rows[k].salt == salt && rows[k].to == to && rows[k].amount == amount
            && (!valid ==> rows[k].status.Failed?)
  {
    StepKeeps(q, Enqueue(k, salt, to, amount, valid));
    var q1 := Enqueued(q, k, salt, to, amount, valid);
    MintProtocolSafety(q1, es);
    assert RowLater(q1.rows[k], Run(q1, es).rows[k]);
  }
}
