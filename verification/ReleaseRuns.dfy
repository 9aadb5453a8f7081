/** Runs of the release queue against an adversarial environment. */
module ReleaseRuns {
  import opened Host
  import opened Lists
  import opened Totals
  import opened Batches
  import opened ReleaseQueue

  datatype Event =
    | Unwrap(key: Key, row: Row)
    | Tick(plan: seq<Attempt>)
    | OtherRelease(slot: Slot, paid: Payment)

  /** A release by another party; each chain's replay guard admits one per Stellar transaction. */
  function Step(cfg: Config, q: Queue, e: Event): Queue {
    match e
    case Unwrap(k, row) => Saved(q, k, row)
    case Tick(plan) => Processed(cfg, q, plan).queue
    case OtherRelease(slot, paid) => if slot in q.released then q else q.(released := q.released[slot := paid])
  }

  function Run(cfg: Config, q: Queue, es: seq<Event>): Queue
    decreases es
  {
    if es == [] then q else Run(cfg, Step(cfg, q, es[0]), es[1..])
  }

  // ---------------------------------------------------------------- invariant

  ghost predicate Inv(q: Queue) {
    && Shape(q)
    && (forall k :: k in q.rows && q.rows[k].status.Released? ==> SlotOf(k, q.rows[k]) in q.released)
  }

  ghost predicate RowLater(r: Row, r': Row) {
    && r' == r.(status := r'.status, attempts := r'.attempts)
    && r.attempts <= r'.attempts
    && (!r.status.Pending? ==> r' == r)
  }

  /** What no step ever undoes. */
  ghost predicate Later(q: Queue, q': Queue) {
    && (forall k :: k in q.rows ==> k in q'.rows && RowLater(q.rows[k], q'.rows[k]))
    && (forall s :: s in q.released ==> s in q'.released && q'.released[s] == q.released[s])
  }

  lemma LaterTransitive(a: Queue, b: Queue, c: Queue)
    requires Later(a, b) && Later(b, c)
    ensures Later(a, c)
  {
    forall k | k in a.rows ensures k in c.rows && RowLater(a.rows[k], c.rows[k]) {
      assert RowLater(a.rows[k], b.rows[k]) && RowLater(b.rows[k], c.rows[k]);
    }
  }

  lemma LaterReflexive(q: Queue)
    ensures Later(q, q)
  {
  }

  /** Replay errors are told apart: a failing pre-check does not name the method it called. */
  predicate Faithful(a: Attempt) {
    a.PrecheckFailed? ==> !a.namesMethod
  }

  ghost predicate FaithfulPlan(plan: seq<Attempt>) {
    forall i :: 0 <= i < |plan| ==> Faithful(plan[i])
  }

  ghost predicate FaithfulRun(es: seq<Event>) {
    forall i :: 0 <= i < |es| && es[i].Tick? ==> FaithfulPlan(es[i].plan)
  }

  /** What one attempt may do to its row and to the replay guard. */
  ghost predicate Outcome(cfg: Config, q: Queue, k: Key, row: Row, a: Attempt, p: Progress, r: Row, q': Queue) {
    var slot := SlotOf(k, row);
    && (q'.released == q.released
        || (slot !in q.released && a.Submitted? && q'.released == q.released[slot := row.due])
        || (slot !in q.released && a.Raced? && q'.released == q.released[slot := a.paid]))
    && (row.chain !in cfg.enabled ==> p.Skipped? || p.Died?)
    && (match p
        case Paid => r == row.(status := Released) && (Faithful(a) ==> slot in q'.released)
        case GaveUp => r == row.(status := Failed) && row.attempts + 1 >= cfg.maxAttempts
        case Retry => r == row.(attempts := row.attempts + 1) && row.attempts + 1 < cfg.maxAttempts
        case Skipped => r == row && row.chain !in cfg.enabled && q'.released == q.released
        case Died => r == row)
  }

  lemma AttemptWrites(cfg: Config, q: Queue, k: Key, a: Attempt)
    requires k in q.rows
    ensures var (q', p) := Attempted(cfg, q, k, q.rows[k], a);
            && q'.order == q.order && q'.rows.Keys == q.rows.Keys
            && q'.rows == q.rows[k := q'.rows[k]]
            && Outcome(cfg, q, k, q.rows[k], a, p, q'.rows[k], q')
  {
  }

  /** The attempt gets as far as asking the replay guard and finds it free. */
  predicate GuardIsFree(cfg: Config, q: Queue, k: Key, row: Row, a: Attempt) {
    && row.chain in cfg.enabled && row.attempts < cfg.maxAttempts && row.wellFormed
    && !a.DiedBefore? && !a.PrecheckFailed? && SlotOf(k, row) !in q.released
  }

  /** The guard answered that the release is recorded, or the text of its failure was taken for that. */
  predicate ReadsAsReplay(cfg: Config, q: Queue, k: Key, row: Row, a: Attempt) {
    && row.chain in cfg.enabled && row.attempts < cfg.maxAttempts && row.wellFormed && !a.DiedBefore?
    && if a.PrecheckFailed? then a.namesMethod else SlotOf(k, row) in q.released
  }

  /**
   * What one attempt does, exactly. A payment reaches the chain if and only if a
   * submission or a race finds the guard free; the row is released if and only if
   * that is answered or reads as a replay; it is skipped for a disabled chain,
   * gives up with its last attempt, and is otherwise one attempt older.
   */
  lemma AttemptDecides(cfg: Config, q: Queue, k: Key, row: Row, a: Attempt)
    ensures var (q', p) := Attempted(cfg, q, k, row, a);
            var lands := GuardIsFree(cfg, q, k, row, a) && (a.Submitted? || a.Raced?);
            && q'.order == q.order
            && q'.released == (if !lands then q.released
                               else q.released[SlotOf(k, row) := if a.Submitted? then row.due else a.paid])
            && (p.Died? <==> a.DiedBefore? || (lands && a.fate.DiedAfter?))
            && (p.Skipped? <==> !a.DiedBefore? && row.chain !in cfg.enabled)
            && (p.Paid? <==> ReadsAsReplay(cfg, q, k, row, a) || (lands && a.fate.Answered?))
            && (p.GaveUp? ==> row.attempts + 1 >= cfg.maxAttempts)
            && (p.Retry? ==> row.attempts + 1 < cfg.maxAttempts)
            && q'.rows == (match p
                           case Died => q.rows
                           case Skipped => q.rows
                           case Paid => q.rows[k := row.(status := Released)]
                           case GaveUp => q.rows[k := row.(status := Failed)]
                           case Retry => q.rows[k := row.(attempts := row.attempts + 1)])
  {
  }

  lemma AttemptKeeps(cfg: Config, q: Queue, k: Key, a: Attempt)
    requires Inv(q) && k in q.rows && q.rows[k].status.Pending?
    ensures var q' := Attempted(cfg, q, k, q.rows[k], a).0;
            && Later(q, q') && q'.rows.Keys == q.rows.Keys
            && (Faithful(a) ==> Inv(q'))
            && (forall j :: j in q.rows && j != k ==> q'.rows[j] == q.rows[j])
  {
    AttemptWrites(cfg, q, k, a);
  }

  ghost predicate AsRead(q: Queue, batch: seq<Key>, read: map<Key, Row>) {
    && Distinct(batch)
    && forall k :: k in batch ==> k in read && k in q.rows && q.rows[k] == read[k] && read[k].status.Pending?
  }

  lemma RestAsRead(q: Queue, q': Queue, batch: seq<Key>, read: map<Key, Row>)
    requires batch != [] && AsRead(q, batch, read) && q'.rows.Keys == q.rows.Keys
    requires forall j :: j in q.rows && j != batch[0] ==> q'.rows[j] == q.rows[j]
    ensures AsRead(q', batch[1..], read)
  {
    var rest := batch[1..];
    forall i, j | 0 <= i < j < |rest| ensures rest[i] != rest[j] {
      assert rest[i] == batch[i + 1] && rest[j] == batch[j + 1];
    }
    forall k | k in rest ensures k in batch && k != batch[0] {
      var i :| 0 <= i < |rest| && rest[i] == k;
      assert batch[i + 1] == k;
    }
  }

  lemma {:induction false} BatchKeeps(cfg: Config, p: Pass, batch: seq<Key>, read: map<Key, Row>, plan: seq<Attempt>)
    requires Inv(p.queue) && AsRead(p.queue, batch, read) && FaithfulPlan(plan)
    ensures Inv(Continued(cfg, p, batch, read, plan).queue)
    ensures Later(p.queue, Continued(cfg, p, batch, read, plan).queue)
    decreases batch
  {
    hide Attempted, Inv, Later;
    LaterReflexive(p.queue);
    if batch != [] && p.alive && plan != [] {
      var k := batch[0];
      AttemptKeeps(cfg, p.queue, k, plan[0]);
      var (q', progress) := Attempted(cfg, p.queue, k, read[k], plan[0]);
      var p' := Counted(p.(queue := q'), progress);
      RestAsRead(p.queue, q', batch, read);
      assert forall i :: 0 <= i < |plan[1..]| ==> plan[1..][i] == plan[i + 1];
      BatchKeeps(cfg, p', batch[1..], read, plan[1..]);
      LaterTransitive(p.queue, q', Continued(cfg, p', batch[1..], read, plan[1..]).queue);
    }
  }

  lemma BatchAsRead(q: Queue)
    requires Shape(q)
    ensures AsRead(q, BatchOf(q), q.rows)
  {
    BatchDistinct(q.order, PendingKeys(q.rows), BATCH);
  }

  lemma StepKeeps(cfg: Config, q: Queue, e: Event)
    requires Inv(q) && (e.Tick? ==> FaithfulPlan(e.plan))
    ensures Inv(Step(cfg, q, e)) && Later(q, Step(cfg, q, e))
  {
    match e {
      case Unwrap(k, row) =>
      case Tick(plan) =>
        LaterReflexive(q);
        BatchAsRead(q);
        BatchKeeps(cfg, Pass(q, 0, 0, 0, true), BatchOf(q), q.rows, plan);
      case OtherRelease(_, _) =>
    }
  }

  /**
   * For every schedule of unwraps, crashes, lost responses and races, as long as
   * replay errors are told apart: a row is released only if its chain has
   * recorded the release of its Stellar transaction, terminal rows never change,
   * and a recorded release is never replaced.
   */
  lemma {:induction false} ReleaseProtocolSafety(cfg: Config, q: Queue, es: seq<Event>)
    requires Inv(q) && FaithfulRun(es)
    ensures Inv(Run(cfg, q, es)) && Later(q, Run(cfg, q, es))
    decreases es
  {
    LaterReflexive(q);
    if es != [] {
      StepKeeps(cfg, q, es[0]);
      assert forall i :: 0 <= i < |es[1..]| ==> es[1..][i] == es[i + 1];
      ReleaseProtocolSafety(cfg, Step(cfg, q, es[0]), es[1..]);
      LaterTransitive(q, Step(cfg, q, es[0]), Run(cfg, q, es));
    }
  }

  lemma EmptyOk()
    ensures Inv(Empty)
  {
  }

  lemma FirstTick(k: Key, row: Row, plan: seq<Attempt>, cfg: Config)
    requires cfg.enabled != {} && row.status.Pending? && |plan| == 1
    ensures var q := Queue(map[k := row], [k], map[]);
            && BatchOf(q) == [k]
            && Processed(cfg, q, plan).queue == Attempted(cfg, q, k, row, plan[0]).0
  {
    var q := Queue(map[k := row], [k], map[]);
    assert PendingKeys(q.rows) == {k} && [k][1..] == [];
    assert BatchOf(q) == [k] + Batch([], {k}, BATCH - 1);
    var (q', progress) := Attempted(cfg, q, k, row, plan[0]);
    var p := Counted(Pass(q', 0, 0, 0, true), progress);
    assert Continued(cfg, p, [], q.rows, plan[1..]) == p;
  }

  lemma {:induction false} RunTwo(cfg: Config, q: Queue, a: Event, b: Event)
    ensures Run(cfg, q, [a, b]) == Step(cfg, Step(cfg, q, a), b)
  {
    hide Step;
    assert [a, b][1..] == [b] && [b][1..] == [];
    assert Run(cfg, Step(cfg, q, a), [b]) == Run(cfg, Step(cfg, Step(cfg, q, a), b), []);
  }

  /** Every row that would be submitted: pending, enabled, well formed, with attempts left. */
  predicate Ready(cfg: Config, q: Queue, k: Key)
    requires k in q.rows
  {
    && q.rows[k].status.Pending? && q.rows[k].chain in cfg.enabled
    && q.rows[k].wellFormed && q.rows[k].attempts < cfg.maxAttempts
  }

  /**
   * The proviso matters, in every reachable state: a failed pre-check marks a
   * row that nobody has released as released exactly when the error names the
   * method it called, which the classifier takes for a replay.
   */
  lemma {:induction false} FailedPrecheckReadsAsReleasedIff(cfg: Config, es: seq<Event>, k: Key, names: bool)
    requires k in Run(cfg, Empty, es).rows && Ready(cfg, Run(cfg, Empty, es), k)
    requires SlotOf(k, Run(cfg, Empty, es).rows[k]) !in Run(cfg, Empty, es).released
    ensures var q := Run(cfg, Empty, es);
            var q' := Attempted(cfg, q, k, q.rows[k], PrecheckFailed(names)).0;
            && (q'.rows[k].status.Released? <==> names)
            && SlotOf(k, q'.rows[k]) !in q'.released
            && (names ==> !Inv(q'))
  {
    hide Run;
  }

  /**
   * From the empty queue: the classifier takes any error that names `releasedNonces`,
   * the method of the pre-check itself, for a replay.
   */
  lemma FailedPrecheckReadsAsReleased(cfg: Config, k: Key, row: Row, names: bool)
    requires row.chain in cfg.enabled && row.wellFormed && cfg.maxAttempts > 0
    ensures var q := Run(cfg, Empty, [Unwrap(k, row), Tick([PrecheckFailed(names)])]);
            && k in q.rows && SlotOf(k, q.rows[k]) !in q.released
            && (q.rows[k].status.Released? <==> names)
  {
    var saved := row.(status := Pending, attempts := 0);
    RunTwo(cfg, Empty, Unwrap(k, row), Tick([PrecheckFailed(names)]));
    FirstTick(k, saved, [PrecheckFailed(names)], cfg);
    assert Step(cfg, Empty, Unwrap(k, row)) == Queue(map[k := saved], [k], map[]);
  }

  // ---------------------------------------------------------------- every row pays out its own release

  ghost predicate SlotAgrees(q: Queue, slot: Slot, paid: Payment) {
    && (forall j :: j in q.rows && SlotOf(j, q.rows[j]) == slot ==> q.rows[j].due == paid)
    && (slot in q.released ==> q.released[slot] == paid)
  }

  /**
   * Rows of one transaction and chain are due one payment, and what the chain paid
   * under it, if anything, is that payment.
   */
  ghost predicate Agree(q: Queue) {
    forall k :: k in q.rows ==> SlotAgrees(q, SlotOf(k, q.rows[k]), q.rows[k].due)
  }

  /** Neither a new row nor somebody else's release contradicts what is known of its slot. */
  ghost predicate KeepsAgreement(q: Queue, e: Event) {
    match e
    case Unwrap(k, row) => k in q.rows || SlotAgrees(q, SlotOf(k, row), row.due)
    case Tick(plan) =>
      forall i :: 0 <= i < |plan| && i < |BatchOf(q)| && plan[i].Raced? ==> plan[i].paid == q.rows[BatchOf(q)[i]].due
    case OtherRelease(slot, paid) =>
      slot in q.released || forall k :: k in q.rows && SlotOf(k, q.rows[k]) == slot ==> q.rows[k].due == paid
  }

  ghost predicate AgreeingRun(cfg: Config, q: Queue, es: seq<Event>)
    decreases es
  {
    es != [] ==> KeepsAgreement(q, es[0]) && AgreeingRun(cfg, Step(cfg, q, es[0]), es[1..])
  }

  /**
   * The exact condition for one row: an answered submission always ends as
   * released, and its chain has paid the row's recipient its amount if and only
   * if the guard was free or already held that payment.
   */
  lemma {:induction false} AnsweredSubmissionPaysItsOwnIff(cfg: Config, es: seq<Event>, k: Key)
    requires FaithfulRun(es) && k in Run(cfg, Empty, es).rows && Ready(cfg, Run(cfg, Empty, es), k)
    ensures var q := Run(cfg, Empty, es);
            var slot, q' := SlotOf(k, q.rows[k]), Attempted(cfg, q, k, q.rows[k], Submitted(Answered)).0;
            && Inv(q) && Inv(q') && q'.rows[k].status.Released? && slot in q'.released
            && (q'.released[slot] == q.rows[k].due <==> slot !in q.released || q.released[slot] == q.rows[k].due)
  {
    EmptyOk();
    ReleaseProtocolSafety(cfg, Empty, es);
    AttemptKeeps(cfg, Run(cfg, Empty, es), k, Submitted(Answered));
  }

  lemma AttemptAgrees(cfg: Config, q: Queue, k: Key, a: Attempt)
    requires Agree(q) && k in q.rows && q.rows[k].status.Pending?
    requires a.Raced? ==> a.paid == q.rows[k].due
    ensures Agree(Attempted(cfg, q, k, q.rows[k], a).0)
  {
    hide Attempted;
    var q' := Attempted(cfg, q, k, q.rows[k], a).0;
    AttemptWrites(cfg, q, k, a);
    assert forall j :: j in q.rows ==> SlotOf(j, q'.rows[j]) == SlotOf(j, q.rows[j]) && q'.rows[j].due == q.rows[j].due;
    assert SlotAgrees(q, SlotOf(k, q.rows[k]), q.rows[k].due);
    forall j | j in q'.rows ensures SlotAgrees(q', SlotOf(j, q'.rows[j]), q'.rows[j].due) {
      assert SlotAgrees(q, SlotOf(j, q.rows[j]), q.rows[j].due);
    }
  }

  lemma {:induction false} BatchAgrees(cfg: Config, p: Pass, batch: seq<Key>, read: map<Key, Row>, plan: seq<Attempt>)
    requires AsRead(p.queue, batch, read) && Agree(p.queue)
    requires forall i :: 0 <= i < |plan| && i < |batch| && plan[i].Raced? ==> plan[i].paid == read[batch[i]].due
    ensures Agree(Continued(cfg, p, batch, read, plan).queue)
    decreases batch
  {
    hide Attempted, Agree;
    if batch != [] && p.alive && plan != [] {
      var k := batch[0];
      AttemptWrites(cfg, p.queue, k, plan[0]);
      AttemptAgrees(cfg, p.queue, k, plan[0]);
      var (q', progress) := Attempted(cfg, p.queue, k, read[k], plan[0]);
      RestAsRead(p.queue, q', batch, read);
      assert forall i :: 0 <= i < |plan[1..]| ==> plan[1..][i] == plan[i + 1];
      assert forall i :: 0 <= i < |batch[1..]| ==> batch[1..][i] == batch[i + 1];
      BatchAgrees(cfg, Counted(p.(queue := q'), progress), batch[1..], read, plan[1..]);
    }
  }

  lemma TickAgrees(cfg: Config, q: Queue, plan: seq<Attempt>)
    requires Shape(q) && Agree(q) && KeepsAgreement(q, Tick(plan))
    ensures Agree(Processed(cfg, q, plan).queue)
  {
    BatchAsRead(q);
    BatchAgrees(cfg, Pass(q, 0, 0, 0, true), BatchOf(q), q.rows, plan);
  }

  lemma SavedAgreesIff(q: Queue, k: Key, row: Row)
    requires Agree(q) && k !in q.rows
    ensures Agree(Saved(q, k, row)) <==> SlotAgrees(q, SlotOf(k, row), row.due)
  {
    var q' := Saved(q, k, row);
    assert forall j :: j in q.rows ==> q'.rows[j] == q.rows[j];
    if Agree(q') {
      assert SlotAgrees(q', SlotOf(k, q'.rows[k]), q'.rows[k].due);
    } else if SlotAgrees(q, SlotOf(k, row), row.due) {
      forall j | j in q'.rows ensures SlotAgrees(q', SlotOf(j, q'.rows[j]), q'.rows[j].due) {
        if j != k {
          assert SlotAgrees(q, SlotOf(j, q.rows[j]), q.rows[j].due);
        }
      }
    }
  }

  lemma OtherReleaseAgreesIff(q: Queue, slot: Slot, paid: Payment)
    requires Agree(q) && slot !in q.released
    ensures Agree(q.(released := q.released[slot := paid]))
            <==> forall k :: k in q.rows && SlotOf(k, q.rows[k]) == slot ==> q.rows[k].due == paid
  {
    var q' := q.(released := q.released[slot := paid]);
    if Agree(q') {
      forall k | k in q.rows && SlotOf(k, q.rows[k]) == slot ensures q.rows[k].due == paid {
        assert SlotAgrees(q', SlotOf(k, q'.rows[k]), q'.rows[k].due);
      }
    }
    if forall k :: k in q.rows && SlotOf(k, q.rows[k]) == slot ==> q.rows[k].due == paid {
      forall k | k in q'.rows ensures SlotAgrees(q', SlotOf(k, q'.rows[k]), q'.rows[k].due) {
        assert SlotAgrees(q, SlotOf(k, q.rows[k]), q.rows[k].due);
      }
    }
  }

  /**
   * A new unwrap or another's release keeps agreement exactly when it agrees itself; a
   * pass keeps it when its races pay what is due.
   */
  lemma AgreementIsKept(cfg: Config, q: Queue, e: Event)
    requires Shape(q) && Agree(q)
    ensures KeepsAgreement(q, e) ==> Agree(Step(cfg, q, e))
    ensures !e.Tick? && Agree(Step(cfg, q, e)) ==> KeepsAgreement(q, e)
  {
    match e {
      case Unwrap(k, row) =>
        if k !in q.rows {
          SavedAgreesIff(q, k, row);
        }
      case Tick(plan) =>
        if KeepsAgreement(q, e) {
          TickAgrees(cfg, q, plan);
        }
      case OtherRelease(slot, paid) =>
        if slot !in q.released {
          OtherReleaseAgreesIff(q, slot, paid);
        }
    }
  }

  /**
   * In every run whose new unwraps, races and foreign releases do not contradict
   * what is known of their transactions, a released row stands for a payment of
   * exactly its amount to its recipient, on its own chain.
   */
  lemma {:induction false} ReleasedRowsWerePaid(cfg: Config, q: Queue, es: seq<Event>, k: Key)
    requires Inv(q) && Agree(q) && FaithfulRun(es) && AgreeingRun(cfg, q, es)
    requires k in Run(cfg, q, es).rows && Run(cfg, q, es).rows[k].status.Released?
    ensures var q' := Run(cfg, q, es);
            var slot := SlotOf(k, q'.rows[k]);
            slot in q'.released && q'.released[slot] == q'.rows[k].due
    decreases es
  {
    if es != [] {
      hide Inv, Agree, KeepsAgreement, Step;
      StepKeeps(cfg, q, es[0]);
      InvHasShape(q);
      AgreementIsKept(cfg, q, es[0]);
      assert forall i :: 0 <= i < |es[1..]| ==> es[1..][i] == es[i + 1];
      ReleasedRowsWerePaid(cfg, Step(cfg, q, es[0]), es[1..], k);
    } else {
      assert SlotAgrees(q, SlotOf(k, q.rows[k]), q.rows[k].due);
    }
  }

  lemma InvHasShape(q: Queue)
    requires Inv(q)
    ensures Shape(q)
  {
  }

  /**
   * A recorded release is final, so a row that ends as released was paid what it is
   * due exactly when that payment is there.
   */
  lemma RecordedReleaseDecides(cfg: Config, q: Queue, es: seq<Event>, k: Key)
    requires Inv(q) && FaithfulRun(es) && k in q.rows && SlotOf(k, q.rows[k]) in q.released
    ensures var q' := Run(cfg, q, es);
            var slot := SlotOf(k, q.rows[k]);
            && k in q'.rows && SlotOf(k, q'.rows[k]) == slot && slot in q'.released
            && (q'.released[slot] == q'.rows[k].due <==> q.released[slot] == q.rows[k].due)
  {
    ReleaseProtocolSafety(cfg, q, es);
    assert RowLater(q.rows[k], Run(cfg, q, es).rows[k]);
  }

  // ---------------------------------------------------------------- what is saved of several unwraps

  function Amounts(rows: map<Key, Row>): map<Key, int> {
    map k | k in rows :: rows[k].due.amount
  }

  /** What the recorded rows ask for together. */
  ghost function Recorded(q: Queue): int {
    Sum(Amounts(q.rows))
  }

  /** What the unwraps of a run burned together. */
  function Unwrapped(es: seq<Event>): int {
    if es == [] then 0 else (if es[0].Unwrap? then es[0].row.due.amount else 0) + Unwrapped(es[1..])
  }

  function UnwrapKeys(es: seq<Event>): seq<Key> {
    if es == [] then []
    else if es[0].Unwrap? then [es[0].key] + UnwrapKeys(es[1..])
    else UnwrapKeys(es[1..])
  }

  ghost predicate PositiveUnwraps(es: seq<Event>) {
    forall i :: 0 <= i < |es| && es[i].Unwrap? ==> es[i].row.due.amount > 0
  }

  lemma TickKeepsAmounts(cfg: Config, q: Queue, plan: seq<Attempt>)
    requires Shape(q)
    ensures Amounts(Processed(cfg, q, plan).queue.rows) == Amounts(q.rows)
  {
    BatchAsRead(q);
    BatchKeepsAmounts(cfg, Pass(q, 0, 0, 0, true), BatchOf(q), q.rows, plan);
  }

  lemma {:induction false} BatchKeepsAmounts(cfg: Config, p: Pass, batch: seq<Key>, read: map<Key, Row>,
                                             plan: seq<Attempt>)
    requires AsRead(p.queue, batch, read)
    ensures Amounts(Continued(cfg, p, batch, read, plan).queue.rows) == Amounts(p.queue.rows)
    decreases batch
  {
    hide Attempted;
    if batch != [] && p.alive && plan != [] {
      AttemptWrites(cfg, p.queue, batch[0], plan[0]);
      var (q', progress) := Attempted(cfg, p.queue, batch[0], read[batch[0]], plan[0]);
      RestAsRead(p.queue, q', batch, read);
      assert Amounts(q'.rows) == Amounts(p.queue.rows);
      BatchKeepsAmounts(cfg, Counted(p.(queue := q'), progress), batch[1..], read, plan[1..]);
    }
  }

  /** Keys of the run's unwraps that nothing recorded before. */
  ghost predicate AllNew(keys: seq<Key>, rows: map<Key, Row>) {
    Distinct(keys) && forall k :: k in keys ==> k !in rows
  }

  lemma AllNewStep(k: Key, keys: seq<Key>, rows: map<Key, Row>, row: Row)
    ensures AllNew([k] + keys, rows) <==> k !in rows && AllNew(keys, rows[k := row])
  {
    var all := [k] + keys;
    assert forall i :: 0 <= i < |keys| ==> all[i + 1] == keys[i];
    if AllNew(all, rows) {
      assert all[0] == k;
      forall j | j in keys ensures j !in rows[k := row] {
        var i :| 0 <= i < |keys| && keys[i] == j;
        assert all[i + 1] == j;
      }
      forall i, j | 0 <= i < j < |keys| ensures keys[i] != keys[j] {
        assert all[i + 1] != all[j + 1];
      }
    }
    if k !in rows && AllNew(keys, rows[k := row]) {
      forall i, j | 0 <= i < j < |all| ensures all[i] != all[j] {
        assert all[j] == keys[j - 1] && all[j] in keys;
      }
    }
  }

  lemma StepShape(cfg: Config, q: Queue, e: Event)
    requires Shape(q)
    ensures Shape(Step(cfg, q, e))
    ensures !e.Unwrap? ==> Amounts(Step(cfg, q, e).rows) == Amounts(q.rows) && Step(cfg, q, e).rows.Keys == q.rows.Keys
  {
    if e.Tick? {
      StepSpends(cfg, q, e);
      TickKeepsAmounts(cfg, q, e.plan);
      var q' := Step(cfg, q, e);
      assert Amounts(q'.rows).Keys == q'.rows.Keys && Amounts(q.rows).Keys == q.rows.Keys;
    }
  }

  lemma UnwrapRecords(q: Queue, k: Key, row: Row)
    ensures Recorded(Saved(q, k, row)) == Recorded(q) + if k in q.rows then 0 else row.due.amount
  {
    if k !in q.rows {
      assert Amounts(Saved(q, k, row).rows) == Amounts(q.rows)[k := row.due.amount];
      SumSet(Amounts(q.rows), k, row.due.amount);
    }
  }

  lemma {:induction false} RunRecords(cfg: Config, q: Queue, es: seq<Event>)
    requires Shape(q) && PositiveUnwraps(es)
    ensures Recorded(Run(cfg, q, es)) <= Recorded(q) + Unwrapped(es)
    ensures Recorded(Run(cfg, q, es)) == Recorded(q) + Unwrapped(es) <==> AllNew(UnwrapKeys(es), q.rows)
    decreases es
  {
    hide Shape, AllNew, Step;
    if es != [] {
      var e, rest := es[0], es[1..];
      assert forall i :: 0 <= i < |rest| ==> rest[i] == es[i + 1];
      StepShape(cfg, q, e);
      RunRecords(cfg, Step(cfg, q, e), rest);
      StepRecords(cfg, q, e, rest);
    } else {
      NothingIsNew(q.rows);
    }
  }

  lemma NothingIsNew(rows: map<Key, Row>)
    ensures AllNew([], rows)
  {
  }

  lemma StepRecords(cfg: Config, q: Queue, e: Event, rest: seq<Event>)
    requires Shape(q)
    ensures e.Unwrap? ==>
              && Recorded(Step(cfg, q, e)) == Recorded(q) + (if e.key in q.rows then 0 else e.row.due.amount)
              && (AllNew([e.key] + UnwrapKeys(rest), q.rows)
                  <==> e.key !in q.rows && AllNew(UnwrapKeys(rest), Step(cfg, q, e).rows))
    ensures !e.Unwrap? ==>
              && Recorded(Step(cfg, q, e)) == Recorded(q)
              && (AllNew(UnwrapKeys(rest), q.rows) <==> AllNew(UnwrapKeys(rest), Step(cfg, q, e).rows))
  {
    if e.Unwrap? {
      UnwrapRecords(q, e.key, e.row);
      AllNewStep(e.key, UnwrapKeys(rest), q.rows, e.row.(status := Pending, attempts := 0));
    } else {
      StepShape(cfg, q, e);
      assert forall k :: k in Step(cfg, q, e).rows <==> k in Step(cfg, q, e).rows.Keys;
    }
  }

  /** Every unwrap carries the nonce of the one ledger that applied its transaction. */
  ghost predicate Stamped(es: seq<Event>, applied: TxHash -> Stamp) {
    forall i :: 0 <= i < |es| && es[i].Unwrap? ==> es[i].key.stamp == applied(es[i].key.tx)
  }

  function UnwrapTxs(es: seq<Event>): seq<TxHash> {
    if es == [] then []
    else if es[0].Unwrap? then [es[0].key.tx] + UnwrapTxs(es[1..])
    else UnwrapTxs(es[1..])
  }

  lemma {:induction false} KeysOfTxs(es: seq<Event>, applied: TxHash -> Stamp)
    requires Stamped(es, applied)
    ensures |UnwrapKeys(es)| == |UnwrapTxs(es)|
    ensures forall i ::
              0 <= i < |UnwrapKeys(es)| ==> UnwrapKeys(es)[i] == Key(UnwrapTxs(es)[i], applied(UnwrapTxs(es)[i]))
    decreases es
  {
    if es != [] {
      assert forall i :: 0 <= i < |es[1..]| ==> es[1..][i] == es[i + 1];
      KeysOfTxs(es[1..], applied);
    }
  }

  /**
   * What the nonce costs. It is the ledger's, not the call's, so unwraps of one
   * transaction share a row. In every run the rows ask for no more than was
   * burned, and for all of it if and only if no two unwraps share a transaction.
   */
  lemma {:induction false} AllBurnedIsRecordedIff(cfg: Config, es: seq<Event>, applied: TxHash -> Stamp)
    requires PositiveUnwraps(es) && Stamped(es, applied)
    ensures Recorded(Run(cfg, Empty, es)) <= Unwrapped(es)
    ensures Recorded(Run(cfg, Empty, es)) == Unwrapped(es) <==> Distinct(UnwrapTxs(es))
  {
    RunRecords(cfg, Empty, es);
    KeysOfTxs(es, applied);
    assert Recorded(Empty) == 0;
    var keys, txs := UnwrapKeys(es), UnwrapTxs(es);
    assert forall i :: 0 <= i < |keys| ==> keys[i].tx == txs[i];
    assert AllNew(keys, Empty.rows) <==> Distinct(keys);
    if Distinct(txs) {
      forall i, j | 0 <= i < j < |keys| ensures keys[i] != keys[j] {
        assert keys[i].tx == txs[i] && keys[j].tx == txs[j];
      }
    }
    if Distinct(keys) {
      forall i, j | 0 <= i < j < |txs| ensures txs[i] != txs[j] {
        assert keys[i] != keys[j];
      }
    }
  }

  ghost predicate KeysStamped(q: Queue, applied: TxHash -> Stamp) {
    forall k :: k in q.rows ==> k.stamp == applied(k.tx)
  }

  lemma {:induction false} RunKeysStamped(cfg: Config, q: Queue, es: seq<Event>, applied: TxHash -> Stamp)
    requires Shape(q) && KeysStamped(q, applied) && Stamped(es, applied)
    ensures KeysStamped(Run(cfg, q, es), applied)
    decreases es
  {
    if es != [] {
      hide Shape, Step;
      assert forall i :: 0 <= i < |es[1..]| ==> es[1..][i] == es[i + 1];
      StepSpends(cfg, q, es[0]);
      StepKeysStamped(cfg, q, es[0], applied);
      RunKeysStamped(cfg, Step(cfg, q, es[0]), es[1..], applied);
    }
  }

  lemma StepKeysStamped(cfg: Config, q: Queue, e: Event, applied: TxHash -> Stamp)
    requires Shape(q) && KeysStamped(q, applied) && (e.Unwrap? ==> e.key.stamp == applied(e.key.tx))
    ensures KeysStamped(Step(cfg, q, e), applied)
  {
    StepShape(cfg, q, e);
    forall k | k in Step(cfg, q, e).rows ensures k.stamp == applied(k.tx) {
      assert k in Step(cfg, q, e).rows.Keys;
      assert k in q.rows || (e.Unwrap? && k == e.key);
    }
  }

  /**
   * Because the nonce is the ledger's, no two rows share a transaction: in every
   * agreeing run each released row has a payment of its own, of its amount to
   * its recipient.
   */
  lemma {:induction false} ReleasedRowsHaveTheirOwnPayment(cfg: Config, es: seq<Event>, applied: TxHash -> Stamp,
                                                           j: Key, k: Key)
    requires FaithfulRun(es) && AgreeingRun(cfg, Empty, es) && Stamped(es, applied)
    requires k in Run(cfg, Empty, es).rows && Run(cfg, Empty, es).rows[k].status.Released?
    requires j in Run(cfg, Empty, es).rows && j != k
    ensures var q := Run(cfg, Empty, es);
            var slot := SlotOf(k, q.rows[k]);
            && slot in q.released && q.released[slot] == q.rows[k].due
            && SlotOf(j, q.rows[j]) != slot
  {
    EmptyOk();
    ReleasedRowsWerePaid(cfg, Empty, es, k);
    RunKeysStamped(cfg, Empty, es, applied);
  }

  /** Two unwraps of one transaction, in any amounts: one row, one payment, and the second amount is never released. */
  lemma SharedTransactionLosesTheSecond(cfg: Config, k: Key, first: Row, second: Row)
    requires first.chain in cfg.enabled && first.wellFormed && cfg.maxAttempts > 0
    ensures var q := Run(cfg, Empty, [Unwrap(k, first), Unwrap(k, second), Tick([Submitted(Answered)])]);
            && q.order == [k] && q.rows.Keys == {k} && q.rows[k].status.Released?
            && q.released == map[SlotOf(k, first) := first.due]
  {
    var es := [Unwrap(k, first), Unwrap(k, second), Tick([Submitted(Answered)])];
    var row := first.(status := Pending, attempts := 0);
    var q1 := Step(cfg, Empty, es[0]);
    assert q1 == Queue(map[k := row], [k], map[]);
    assert Step(cfg, q1, es[1]) == q1;
    FirstTick(k, row, [Submitted(Answered)], cfg);
    assert es[1..] == [es[1], es[2]];
    RunTwo(cfg, q1, es[1], es[2]);
  }

  // ---------------------------------------------------------------- progress

  /** Attempts an enabled pending row can still use up. */
  function Left(cfg: Config, row: Row): int {
    if !row.status.Pending? || row.chain !in cfg.enabled then 0
    else if row.attempts >= cfg.maxAttempts then 1
    else cfg.maxAttempts - row.attempts
  }

  function Lefts(cfg: Config, q: Queue): (m: map<Key, int>)
    ensures forall k :: Get(m, k) == if k in q.rows then Left(cfg, q.rows[k]) else 0
    ensures forall k :: Get(m, k) >= 0
  {
    map k | k in q.rows :: Left(cfg, q.rows[k])
  }

  lemma LeftFacts(cfg: Config, row: Row)
    ensures 0 <= Left(cfg, row) <= Max(1, cfg.maxAttempts)
    ensures Left(cfg, row) == 0 <==> !row.status.Pending? || row.chain !in cfg.enabled
  {
  }

  ghost predicate RowSpends(cfg: Config, r: Row, r': Row) {
    && r'.chain == r.chain && Left(cfg, r') <= Left(cfg, r)
    && (!r.status.Pending? || r.chain !in cfg.enabled ==> r' == r)
  }

  /** No row gains attempts, and rows are only added. */
  ghost predicate NoneGains(cfg: Config, q: Queue, q': Queue) {
    && q.order <= q'.order
    && (forall k :: k in q.rows ==> k in q'.rows && RowSpends(cfg, q.rows[k], q'.rows[k]))
  }

  ghost predicate Live(cfg: Config, q: Queue, k: Key) {
    k in q.rows && q.rows[k].chain in cfg.enabled
  }

  lemma AttemptSpends(cfg: Config, q: Queue, k: Key, a: Attempt)
    requires k in q.rows && q.rows[k].status.Pending?
    ensures var (q', p) := Attempted(cfg, q, k, q.rows[k], a);
            && q'.order == q.order && q'.rows.Keys == q.rows.Keys && NoneGains(cfg, q, q')
            && (forall j :: j in q.rows && j != k ==> q'.rows[j] == q.rows[j])
            && (!p.Died? && Live(cfg, q, k) ==> Left(cfg, q'.rows[k]) < Left(cfg, q.rows[k]))
  {
    hide Attempted;
    AttemptWrites(cfg, q, k, a);
    var (q', p) := Attempted(cfg, q, k, q.rows[k], a);
    assert Outcome(cfg, q, k, q.rows[k], a, p, q'.rows[k], q');
  }

  lemma {:induction false} AliveWasAlive(cfg: Config, p: Pass, batch: seq<Key>, read: map<Key, Row>, plan: seq<Attempt>)
    requires forall k :: k in batch ==> k in read
    ensures Continued(cfg, p, batch, read, plan).alive ==> p.alive
  {
  }

  lemma RowSpendsTransitive(cfg: Config, a: Queue, b: Queue, c: Queue)
    requires NoneGains(cfg, a, b) && NoneGains(cfg, b, c)
    ensures NoneGains(cfg, a, c)
  {
    hide Left;
    forall k | k in a.rows ensures k in c.rows && RowSpends(cfg, a.rows[k], c.rows[k]) {
      assert RowSpends(cfg, a.rows[k], b.rows[k]) && RowSpends(cfg, b.rows[k], c.rows[k]);
    }
  }

  lemma {:induction false} BatchSpends(cfg: Config, p: Pass, batch: seq<Key>, read: map<Key, Row>, plan: seq<Attempt>)
    requires AsRead(p.queue, batch, read)
    ensures var q, r := p.queue, Continued(cfg, p, batch, read, plan);
            && r.queue.order == q.order && r.queue.rows.Keys == q.rows.Keys && NoneGains(cfg, q, r.queue)
            && (forall j :: j in q.rows && j !in batch ==> r.queue.rows[j] == q.rows[j])
            && (r.alive ==> forall k ::
                              k in batch && Live(cfg, q, k) ==> Left(cfg, r.queue.rows[k]) < Left(cfg, q.rows[k]))
    decreases batch
  {
    hide Attempted, Left;
    if batch != [] && p.alive && plan != [] {
      var q, k := p.queue, batch[0];
      AttemptSpends(cfg, q, k, plan[0]);
      var (q', progress) := Attempted(cfg, q, k, read[k], plan[0]);
      var p' := Counted(p.(queue := q'), progress);
      RestAsRead(q, q', batch, read);
      BatchSpends(cfg, p', batch[1..], read, plan[1..]);
      AliveWasAlive(cfg, p', batch[1..], read, plan[1..]);
      var r := Continued(cfg, p', batch[1..], read, plan[1..]);
      RowSpendsTransitive(cfg, q, q', r.queue);
      forall j | r.alive && j in batch && Live(cfg, q, j) ensures Left(cfg, r.queue.rows[j]) < Left(cfg, q.rows[j]) {
        assert RowSpends(cfg, q'.rows[j], r.queue.rows[j]);
        if j != k {
          assert j in batch[1..];
        }
      }
      forall j | j in q.rows && j !in batch ensures r.queue.rows[j] == q.rows[j] {
        assert j !in batch[1..];
      }
    }
  }

  /** How many rows of a batch have a status. */
  function EndedAs(q: Queue, batch: seq<Key>, status: Status): nat {
    if batch == [] then 0
    else (if batch[0] in q.rows && q.rows[batch[0]].status == status then 1 else 0) + EndedAs(q, batch[1..], status)
  }

  /** How many rows of a batch belong to disabled chains. */
  function DisabledIn(cfg: Config, read: map<Key, Row>, batch: seq<Key>): nat {
    if batch == [] then 0
    else (if batch[0] in read && read[batch[0]].chain !in cfg.enabled then 1 else 0) + DisabledIn(cfg, read, batch[1..])
  }

  lemma FirstAsRead(q: Queue, batch: seq<Key>, read: map<Key, Row>)
    requires batch != [] && AsRead(q, batch, read)
    ensures batch[0] in read && batch[0] in q.rows && q.rows[batch[0]] == read[batch[0]]
    ensures q.rows[batch[0]].status.Pending? && batch[0] !in batch[1..]
  {
    forall k | k in batch[1..] ensures k != batch[0] {
      var i :| 0 <= i < |batch| - 1 && batch[1..][i] == k;
    }
  }

  lemma {:induction false} BatchIsCounted(cfg: Config, p: Pass, batch: seq<Key>, read: map<Key, Row>,
                                          plan: seq<Attempt>)
    requires AsRead(p.queue, batch, read) && Continued(cfg, p, batch, read, plan).alive
    ensures var r := Continued(cfg, p, batch, read, plan);
            && r.released == p.released + EndedAs(r.queue, batch, Released)
            && r.failed == p.failed + EndedAs(r.queue, batch, Failed)
            && r.skipped == p.skipped + DisabledIn(cfg, read, batch)
    decreases batch
  {
    AliveWasAlive(cfg, p, batch, read, plan);
    if batch != [] {
      hide Attempted, AsRead;
      var q, k := p.queue, batch[0];
      FirstAsRead(q, batch, read);
      AttemptSpends(cfg, q, k, plan[0]);
      AttemptDecides(cfg, q, k, q.rows[k], plan[0]);
      var (q', progress) := Attempted(cfg, q, k, read[k], plan[0]);
      var p' := Counted(p.(queue := q'), progress);
      RestAsRead(q, q', batch, read);
      AliveWasAlive(cfg, p', batch[1..], read, plan[1..]);
      BatchIsCounted(cfg, p', batch[1..], read, plan[1..]);
      BatchSpends(cfg, p', batch[1..], read, plan[1..]);
    }
  }

  /**
   * The counters of a finished pass: the rows of its batch that are released now,
   * those that failed, and those of disabled chains. With no chain enabled the
   * queue is left alone.
   */
  lemma PassIsCounted(cfg: Config, q: Queue, plan: seq<Attempt>)
    requires Shape(q) && Processed(cfg, q, plan).alive
    ensures var p := Processed(cfg, q, plan);
            if cfg.enabled == {} then p.queue == q && p.released == p.failed == p.skipped == 0
            else && p.released == EndedAs(p.queue, BatchOf(q), Released)
                 && p.failed == EndedAs(p.queue, BatchOf(q), Failed)
                 && p.skipped == DisabledIn(cfg, q.rows, BatchOf(q))
  {
    if cfg.enabled != {} {
      BatchAsRead(q);
      BatchIsCounted(cfg, Pass(q, 0, 0, 0, true), BatchOf(q), q.rows, plan);
    }
  }

  /** The worker reached the end of its batch. */
  predicate Finishes(cfg: Config, q: Queue, e: Event) {
    e.Tick? && Processed(cfg, q, e.plan).alive
  }

  /**
   * No step gives a row attempts back; a pass leaves rows outside its batch alone,
   * and a finished pass takes an attempt from every row of an enabled chain in it.
   */
  lemma StepSpends(cfg: Config, q: Queue, e: Event)
    requires Shape(q)
    ensures Shape(Step(cfg, q, e)) && NoneGains(cfg, q, Step(cfg, q, e))
    ensures forall k :: k in q.rows && k !in BatchOf(q) ==> Step(cfg, q, e).rows[k] == q.rows[k]
    ensures Finishes(cfg, q, e) ==>
              forall k :: k in BatchOf(q) && Live(cfg, q, k)
                ==> Left(cfg, Step(cfg, q, e).rows[k]) < Left(cfg, q.rows[k])
  {
    match e {
      case Unwrap(k, row) =>
        SavedSpends(cfg, q, k, row);
      case Tick(plan) =>
        hide Left, RowSpends, Batch, Continued;
        BatchAsRead(q);
        BatchSpends(cfg, Pass(q, 0, 0, 0, true), BatchOf(q), q.rows, plan);
        SpendsReflexive(cfg, q);
      case OtherRelease(_, _) =>
    }
  }

  lemma SavedSpends(cfg: Config, q: Queue, k: Key, row: Row)
    requires Shape(q)
    ensures Shape(Saved(q, k, row)) && NoneGains(cfg, q, Saved(q, k, row))
    ensures forall j :: j in q.rows ==> Saved(q, k, row).rows[j] == q.rows[j]
  {
    SpendsReflexive(cfg, q);
  }

  /** Finished passes of a run that had `k` in their batch. */
  function Visits(cfg: Config, q: Queue, es: seq<Event>, k: Key): nat
    decreases es
  {
    if es == [] then 0
    else (if Finishes(cfg, q, es[0]) && k in BatchOf(q) then 1 else 0) + Visits(cfg, Step(cfg, q, es[0]), es[1..], k)
  }

  function FinishedPasses(cfg: Config, q: Queue, es: seq<Event>): nat
    decreases es
  {
    if es == [] then 0
    else (if Finishes(cfg, q, es[0]) then 1 else 0) + FinishedPasses(cfg, Step(cfg, q, es[0]), es[1..])
  }

  lemma {:induction false} VisitsSpend(cfg: Config, q: Queue, es: seq<Event>, k: Key)
    requires Shape(q) && k in q.rows
    ensures var q' := Run(cfg, q, es);
            && Shape(q') && NoneGains(cfg, q, q')
            && (Left(cfg, q'.rows[k]) == 0 || Left(cfg, q'.rows[k]) <= Left(cfg, q.rows[k]) - Visits(cfg, q, es, k))
    decreases es
  {
    hide Step, Shape, Finishes, Left, RowSpends;
    if es != [] {
      var q1 := Step(cfg, q, es[0]);
      StepSpends(cfg, q, es[0]);
      SpendsMeans(cfg, q.rows[k], q1.rows[k]);
      VisitsSpend(cfg, q1, es[1..], k);
      SpendsMeans(cfg, q1.rows[k], Run(cfg, q1, es[1..]).rows[k]);
      RowSpendsTransitive(cfg, q, q1, Run(cfg, q1, es[1..]));
    } else {
      SpendsReflexive(cfg, q);
    }
  }

  lemma SpendsReflexive(cfg: Config, q: Queue)
    ensures NoneGains(cfg, q, q)
  {
  }

  lemma SpendsMeans(cfg: Config, r: Row, r': Row)
    requires RowSpends(cfg, r, r')
    ensures 0 <= Left(cfg, r') <= Left(cfg, r) && r'.chain == r.chain
    ensures Left(cfg, r) == 0 ==> r' == r
    ensures Left(cfg, r') == 0 ==> !r'.status.Pending? || r'.chain !in cfg.enabled
    ensures Left(cfg, r) == 0 <==> !r.status.Pending? || r.chain !in cfg.enabled
  {
  }

  /**
   * Progress of one unwrap: in every run, with anything recorded meanwhile, with
   * crashes, races and refusals, an unwrap of an enabled chain is released or
   * dead-lettered once as many finished passes as attempts are allowed have had
   * it in their batch.
   */
  lemma {:induction false} UnwrapEndsWithinItsAttempts(cfg: Config, q: Queue, es: seq<Event>, k: Key)
    requires Shape(q) && Live(cfg, q, k) && Visits(cfg, q, es, k) >= Max(1, cfg.maxAttempts)
    ensures var q' := Run(cfg, q, es);
            k in q'.rows && !q'.rows[k].status.Pending?
  {
    hide Shape, Left;
    VisitsSpend(cfg, q, es, k);
    var q' := Run(cfg, q, es);
    LeftFacts(cfg, q.rows[k]);
    LeftFacts(cfg, q'.rows[k]);
  }

  // ---------------------------------------------------------------- starvation

  ghost function LiveKeys(cfg: Config, q: Queue): set<Key> {
    set k | k in q.rows && q.rows[k].chain in cfg.enabled
  }

  /** Pending rows of chains without a release context. */
  ghost function IdleKeys(cfg: Config, q: Queue): set<Key> {
    PendingKeys(q.rows) - LiveKeys(cfg, q)
  }

  /** How many of them are older than the row at position `i`. */
  ghost function IdleAhead(cfg: Config, q: Queue, i: nat): nat
    requires i <= |q.order|
  {
    Ahead(q.order, IdleKeys(cfg, q), i)
  }

  /** Attempts left in rows of enabled chains up to and including position `i`. */
  function Outstanding(cfg: Config, q: Queue, i: nat): int
    requires i < |q.order|
  {
    PrefixSum(q.order, Lefts(cfg, q), i + 1)
  }

  lemma ShapeLists(q: Queue)
    requires Shape(q)
    ensures forall i :: 0 <= i < |q.order| ==> q.order[i] in q.rows
  {
  }

  /** Idle rows stay idle, and no other row becomes idle. */
  lemma StepKeepsIdle(cfg: Config, q: Queue, e: Event, i: nat)
    requires Shape(q) && i <= |q.order|
    ensures i <= |Step(cfg, q, e).order| && q.order <= Step(cfg, q, e).order
    ensures IdleAhead(cfg, Step(cfg, q, e), i) == IdleAhead(cfg, q, i)
  {
    hide Step, Finishes, BatchOf;
    var q' := Step(cfg, q, e);
    StepSpends(cfg, q, e);
    ShapeLists(q);
    var idle, idle' := IdleKeys(cfg, q), IdleKeys(cfg, q');
    forall k | k in q.order ensures k in idle <==> k in idle' {
      assert RowSpends(cfg, q.rows[k], q'.rows[k]);
    }
    AheadMono(q.order, idle, idle', i, i);
    AheadMono(q.order, idle', idle, i, i);
    AheadOfPrefix(q.order, q'.order, idle', i);
  }

  lemma LeftsFall(cfg: Config, q: Queue, q': Queue)
    requires Shape(q) && NoneGains(cfg, q, q')
    ensures forall j :: 0 <= j < |q.order| ==> Get(Lefts(cfg, q'), q.order[j]) <= Get(Lefts(cfg, q), q.order[j])
  {
    hide Left;
    ShapeLists(q);
    forall j | 0 <= j < |q.order| ensures Get(Lefts(cfg, q'), q.order[j]) <= Get(Lefts(cfg, q), q.order[j]) {
      assert RowSpends(cfg, q.rows[q.order[j]], q'.rows[q.order[j]]);
    }
  }

  /** The oldest row that can make progress is in the batch, and it is not behind position `i`. */
  lemma FinishedPassTakesOne(cfg: Config, q: Queue, q': Queue, i: nat)
    requires Shape(q) && NoneGains(cfg, q, q') && i < |q.order|
    requires q.order[i] in PendingKeys(q.rows) * LiveKeys(cfg, q) && IdleAhead(cfg, q, i) < BATCH
    requires forall k :: k in BatchOf(q) && Live(cfg, q, k) ==> Left(cfg, q'.rows[k]) < Left(cfg, q.rows[k])
    ensures PrefixSum(q'.order, Lefts(cfg, q'), i + 1) < PrefixSum(q.order, Lefts(cfg, q), i + 1)
  {
    hide Left, RowSpends, Batch, PrefixSum, Ahead;
    LeftsFall(cfg, q, q');
    var h := SomeLiveKeyInBatch(q.order, PendingKeys(q.rows), LiveKeys(cfg, q), BATCH, i);
    var k := q.order[h];
    assert k in BatchOf(q) && Live(cfg, q, k);
    assert Get(Lefts(cfg, q'), k) < Get(Lefts(cfg, q), k);
    PrefixSumDrops(q.order, q'.order, Lefts(cfg, q), Lefts(cfg, q'), i + 1, h);
  }

  lemma StepOutstanding(cfg: Config, q: Queue, e: Event, i: nat)
    requires Shape(q) && i < |q.order|
    ensures i < |Step(cfg, q, e).order| && Step(cfg, q, e).order[i] == q.order[i]
    ensures Outstanding(cfg, Step(cfg, q, e), i) <= Outstanding(cfg, q, i)
    ensures Finishes(cfg, q, e) && q.order[i] in PendingKeys(q.rows) * LiveKeys(cfg, q) && IdleAhead(cfg, q, i) < BATCH
            ==> Outstanding(cfg, Step(cfg, q, e), i) < Outstanding(cfg, q, i)
  {
    hide Step, Left, Finishes, RowSpends, BatchOf, PrefixSum, PendingKeys, IdleAhead, Shape;
    var q' := Step(cfg, q, e);
    StepSpends(cfg, q, e);
    LeftsFall(cfg, q, q');
    PrefixSumMono(q.order, q'.order, Lefts(cfg, q), Lefts(cfg, q'), i + 1);
    if Finishes(cfg, q, e) && q.order[i] in PendingKeys(q.rows) * LiveKeys(cfg, q) && IdleAhead(cfg, q, i) < BATCH {
      FinishedPassTakesOne(cfg, q, q', i);
    }
  }

  /**
   * With fewer than 25 older pending rows of disabled chains, a row of an enabled
   * chain is released or dead-lettered once the worker has finished as many passes
   * as there are attempts left in it and in older rows of enabled chains, whatever
   * else happens in between.
   */
  lemma {:induction false} UnwrapEnds(cfg: Config, q: Queue, es: seq<Event>, i: nat)
    requires Shape(q) && i < |q.order| && Live(cfg, q, q.order[i]) && IdleAhead(cfg, q, i) < BATCH
    requires FinishedPasses(cfg, q, es) >= Outstanding(cfg, q, i)
    ensures var q' := Run(cfg, q, es);
            q.order[i] in q'.rows && !q'.rows[q.order[i]].status.Pending?
    decreases es
  {
    hide Step, Shape, Finishes, Left, IdleAhead;
    var k := q.order[i];
    PrefixSumNonNegative(q.order, Lefts(cfg, q), i + 1);
    LeftFacts(cfg, q.rows[k]);
    if !q.rows[k].status.Pending? {
      VisitsSpend(cfg, q, es, k);
      SpendsMeans(cfg, q.rows[k], Run(cfg, q, es).rows[k]);
    } else {
      var q1 := Step(cfg, q, es[0]);
      StepSpends(cfg, q, es[0]);
      SpendsMeans(cfg, q.rows[k], q1.rows[k]);
      StepOutstanding(cfg, q, es[0], i);
      StepKeepsIdle(cfg, q, es[0], i);
      UnwrapEnds(cfg, q1, es[1..], i);
    }
  }

  /** With 25 or more of them, it never changes, in any run. */
  lemma {:induction false} StarvedForever(cfg: Config, q: Queue, es: seq<Event>, i: nat)
    requires Shape(q) && i < |q.order| && q.order[i] in PendingKeys(q.rows) && IdleAhead(cfg, q, i) >= BATCH
    ensures q.order[i] in Run(cfg, q, es).rows && Run(cfg, q, es).rows[q.order[i]] == q.rows[q.order[i]]
    decreases es
  {
    hide Step, Shape;
    if es != [] {
      var q1 := Step(cfg, q, es[0]);
      StepSpends(cfg, q, es[0]);
      StepKeepsIdle(cfg, q, es[0], i);
      OutsideTheBatch(cfg, q, i);
      assert q1.rows[q.order[i]] == q.rows[q.order[i]] && q1.order[i] == q.order[i];
      StarvedForever(cfg, q1, es[1..], i);
    }
  }

  lemma OutsideTheBatch(cfg: Config, q: Queue, i: nat)
    requires Shape(q) && i < |q.order| && q.order[i] in PendingKeys(q.rows) && IdleAhead(cfg, q, i) >= BATCH
    ensures q.order[i] !in BatchOf(q)
  {
    AheadMono(q.order, IdleKeys(cfg, q), PendingKeys(q.rows), i, i);
    InBatchIffFewAhead(q.order, PendingKeys(q.rows), BATCH, i);
  }

  /** However a run goes, `bound` finished passes are enough for the row to end. */
  ghost predicate EndsWithin(cfg: Config, q: Queue, k: Key, bound: nat) {
    forall es :: FinishedPasses(cfg, q, es) >= bound ==>
      k in Run(cfg, q, es).rows && !Run(cfg, q, es).rows[k].status.Pending?
  }

  /** A pass without a quorum for anything, which always finishes. */
  function DryPass(): Event {
    Tick(seq(BATCH, _ => NoQuorum))
  }

  lemma {:induction false} DryBatchFinishes(cfg: Config, p: Pass, batch: seq<Key>, read: map<Key, Row>,
                                            plan: seq<Attempt>)
    requires AsRead(p.queue, batch, read) && p.alive && |batch| <= |plan|
    requires forall i :: 0 <= i < |plan| ==> plan[i].NoQuorum?
    ensures Continued(cfg, p, batch, read, plan).alive
    decreases batch
  {
    if batch != [] {
      var (q', progress) := Attempted(cfg, p.queue, batch[0], read[batch[0]], plan[0]);
      assert !progress.Died?;
      AttemptWrites(cfg, p.queue, batch[0], plan[0]);
      RestAsRead(p.queue, q', batch, read);
      DryBatchFinishes(cfg, Counted(p.(queue := q'), progress), batch[1..], read, plan[1..]);
    }
  }

  lemma DryPassFinishes(cfg: Config, q: Queue)
    requires Shape(q)
    ensures Finishes(cfg, q, DryPass())
  {
    BatchAsRead(q);
    DryBatchFinishes(cfg, Pass(q, 0, 0, 0, true), BatchOf(q), q.rows, DryPass().plan);
  }

  lemma {:induction false} DryPasses(cfg: Config, q: Queue, n: nat) returns (es: seq<Event>)
    requires Shape(q)
    ensures FinishedPasses(cfg, q, es) >= n
    decreases n
  {
    if n == 0 {
      return [];
    }
    StepSpends(cfg, q, DryPass());
    DryPassFinishes(cfg, q);
    var rest := DryPasses(cfg, Step(cfg, q, DryPass()), n - 1);
    es := [DryPass()] + rest;
    assert es[1..] == rest;
  }

  /**
   * The exact starvation condition: a pending unwrap of an enabled chain is certain
   * to end after some number of finished passes if and only if fewer than 25 older
   * pending unwraps belong to chains without a release context.
   */
  lemma {:induction false} StarvesIffBatchIsIdle(cfg: Config, q: Queue, i: nat)
    requires Shape(q) && i < |q.order| && Live(cfg, q, q.order[i]) && q.order[i] in PendingKeys(q.rows)
    ensures (exists bound: nat :: EndsWithin(cfg, q, q.order[i], bound)) <==> IdleAhead(cfg, q, i) < BATCH
  {
    hide Shape, Live, IdleAhead;
    var k := q.order[i];
    if IdleAhead(cfg, q, i) < BATCH {
      PrefixSumNonNegative(q.order, Lefts(cfg, q), i + 1);
      var bound: nat := Outstanding(cfg, q, i);
      forall es | FinishedPasses(cfg, q, es) >= bound
        ensures k in Run(cfg, q, es).rows && !Run(cfg, q, es).rows[k].status.Pending?
      {
        UnwrapEnds(cfg, q, es, i);
      }
      assert EndsWithin(cfg, q, k, bound);
    } else if bound: nat :| EndsWithin(cfg, q, k, bound) {
      var es := DryPasses(cfg, q, bound);
      StarvedForever(cfg, q, es, i);
      assert false;
    }
  }

  /** A pending row is taken up by the next pass exactly when fewer than 25 pending rows are older. */
  lemma TakenUpIffFewOlder(q: Queue, i: nat)
    requires Shape(q) && i < |q.order| && q.order[i] in PendingKeys(q.rows)
    ensures q.order[i] in BatchOf(q) <==> Ahead(q.order, PendingKeys(q.rows), i) < BATCH
  {
    InBatchIffFewAhead(q.order, PendingKeys(q.rows), BATCH, i);
  }
}
