/**
 * The release queue of the bridge service: unwraps waiting for a release on
 * their source chain, one worker, and an environment that loses responses,
 * refuses quorums, lets others release first and kills the worker.
 */
module ReleaseQueue {
  import opened Host
  import opened Lists
  import opened Batches

  type ChainId = nat
  type TxHash = nat

  /** The controller's unwrap nonce: the sequence number and the time of the ledger that applied the transaction. */
  datatype Stamp = Stamp(ledger: nat, time: nat)

  /** An unwrap is recorded under its Stellar transaction and its nonce. */
  datatype Key = Key(tx: TxHash, stamp: Stamp)

  /** The replay guard of each source chain's bridge is keyed by the Stellar transaction. */
  datatype Slot = Slot(chain: ChainId, tx: TxHash)

  const BATCH: nat := 25

  /** What a release pays: the recipient on the source chain and the amount. */
  datatype Payment = Payment(to: nat, amount: int)

  datatype Status = Pending | Released | Failed

  /** `wellFormed`: the typed value can be built, so `releaseTypedValue` does not throw. */
  datatype Row = Row(due: Payment, chain: ChainId, wellFormed: bool, status: Status, attempts: nat)

  /** `released` holds the replay guards of the source chains, with what each release paid. */
  datatype Queue = Queue(rows: map<Key, Row>, order: seq<Key>, released: map<Slot, Payment>)

  const Empty := Queue(map[], [], map[])

  function SlotOf(k: Key, row: Row): Slot {
    Slot(row.chain, k.tx)
  }

  /** One row per listed key, in order of creation. */
  ghost predicate Shape(q: Queue) {
    && Distinct(q.order)
    && forall k :: k in q.order <==> k in q.rows
  }

  /** Chains with a release context, and MAX_RELEASE_ATTEMPTS. */
  datatype Config = Config(enabled: set<ChainId>, maxAttempts: nat)

  function PendingKeys(rows: map<Key, Row>): set<Key> {
    set k | k in rows && rows[k].status.Pending?
  }

  datatype Fate = Answered | ResponseLost | DiedAfter

  /**
   * What the environment does with one attempt. A failing replay pre-check may
   * carry the name of the method it called in its text; `Raced` is somebody
   * else's release landing between pre-check and submission.
   */
  datatype Attempt =
    | DiedBefore
    | PrecheckFailed(namesMethod: bool)
    | NoQuorum
    | Rejected
    | Raced(paid: Payment, fate: Fate)
    | Submitted(fate: Fate)

  datatype Progress = Paid | GaveUp | Retry | Skipped | Died

  /** `saveUnwrap`: an unwrap once observed is never overwritten. */
  function Saved(q: Queue, k: Key, row: Row): Queue {
    if k in q.rows then q
    else q.(rows := q.rows[k := row.(status := Pending, attempts := 0)], order := q.order + [k])
  }

  function Put(q: Queue, k: Key, row: Row): Queue {
    q.(rows := q.rows[k := row])
  }

  /** The `catch` of `processPending` for an error that is not a replay. */
  function AfterError(cfg: Config, q: Queue, k: Key, row: Row): (Queue, Progress) {
    if row.attempts + 1 >= cfg.maxAttempts then (Put(q, k, row.(status := Failed)), GaveUp)
    else (Put(q, k, row.(attempts := row.attempts + 1)), Retry)
  }

  function AfterSuccess(q: Queue, k: Key, row: Row): (Queue, Progress) {
    (Put(q, k, row.(status := Released)), Paid)
  }

  /** What reaches the worker of a submission whose outcome on the chain is `q`. */
  function AfterFate(cfg: Config, q: Queue, k: Key, row: Row, fate: Fate): (Queue, Progress) {
    match fate
    case Answered => AfterSuccess(q, k, row)
    case ResponseLost => AfterError(cfg, q, k, row)
    case DiedAfter => (q, Died)
  }

  /** `release`, with the error handling of `processPending` around it. */
  function ReleaseOf(cfg: Config, q: Queue, k: Key, row: Row, a: Attempt): (Queue, Progress)
    requires !a.DiedBefore?
  {
    if !row.wellFormed then AfterError(cfg, q, k, row)
    else if a.PrecheckFailed? then
      if a.namesMethod then AfterSuccess(q, k, row) else AfterError(cfg, q, k, row)
    else if SlotOf(k, row) in q.released then AfterSuccess(q, k, row)
    else
      match a
      case Submitted(fate) => AfterFate(cfg, q.(released := q.released[SlotOf(k, row) := row.due]), k, row, fate)
      case Raced(paid, fate) => AfterFate(cfg, q.(released := q.released[SlotOf(k, row) := paid]), k, row, fate)
      case _ => AfterError(cfg, q, k, row)
  }

  function Attempted(cfg: Config, q: Queue, k: Key, row: Row, a: Attempt): (Queue, Progress) {
    if a.DiedBefore? then (q, Died)
    else if row.chain !in cfg.enabled then (q, Skipped)
    else if row.attempts + 1 > cfg.maxAttempts then (Put(q, k, row.(status := Failed)), GaveUp)
    else ReleaseOf(cfg, q, k, row, a)
  }

  datatype Pass = Pass(queue: Queue, released: nat, failed: nat, skipped: nat, alive: bool)

  function Counted(p: Pass, progress: Progress): Pass {
    match progress
    case Paid => p.(released := p.released + 1)
    case GaveUp => p.(failed := p.failed + 1)
    case Skipped => p.(skipped := p.skipped + 1)
    case Retry => p
    case Died => p.(alive := false)
  }

  function Continued(cfg: Config, p: Pass, batch: seq<Key>, read: map<Key, Row>, plan: seq<Attempt>): Pass
    requires forall k :: k in batch ==> k in read
    decreases batch
  {
    if batch == [] || !p.alive then p
    else if plan == [] then p.(alive := false)
    else
      var (q, progress) := Attempted(cfg, p.queue, batch[0], read[batch[0]], plan[0]);
      Continued(cfg, Counted(p.(queue := q), progress), batch[1..], read, plan[1..])
  }

  /** One turn of the loop. */
  lemma ContinuedAt(cfg: Config, p: Pass, batch: seq<Key>, read: map<Key, Row>, plan: seq<Attempt>, i: nat)
    requires i <= |batch| && i <= |plan| && p.alive && forall k :: k in batch ==> k in read
    ensures forall k :: k in batch[i..] ==> k in read
    ensures Continued(cfg, p, batch[i..], read, plan[i..])
            == if i == |batch| then p
               else if i == |plan| then p.(alive := false)
               else
                 var (q, progress) := Attempted(cfg, p.queue, batch[i], read[batch[i]], plan[i]);
                 assert forall k :: k in batch[i + 1..] ==> k in batch;
                 Continued(cfg, Counted(p.(queue := q), progress), batch[i + 1..], read, plan[i + 1..])
  {
    hide Attempted;
    assert forall k :: k in batch[i..] ==> k in batch;
    if i < |batch| && i < |plan| {
      assert batch[i..][0] == batch[i] && batch[i..][1..] == batch[i + 1..];
      assert plan[i..][0] == plan[i] && plan[i..][1..] == plan[i + 1..];
    }
  }

  lemma DeadStops(cfg: Config, p: Pass, batch: seq<Key>, read: map<Key, Row>, plan: seq<Attempt>)
    requires !p.alive && forall k :: k in batch ==> k in read
    ensures Continued(cfg, p, batch, read, plan) == p
  {
  }

  function BatchOf(q: Queue): (b: seq<Key>)
    ensures forall i :: 0 <= i < |b| ==> b[i] in PendingKeys(q.rows)
  {
    Batch(q.order, PendingKeys(q.rows), BATCH)
  }

  /** With no context at all the queue is not even read. */
  function Processed(cfg: Config, q: Queue, plan: seq<Attempt>): Pass {
    var p := Pass(q, 0, 0, 0, true);
    if cfg.enabled == {} then p else Continued(cfg, p, BatchOf(q), q.rows, plan)
  }

  class EvmReleaser {
    const cfg: Config
    var rows: map<Key, Row>
    var order: seq<Key>
    var released: map<Slot, Payment>

    constructor (cfg: Config)
      ensures this.cfg == cfg && State() == Empty
    {
      this.cfg := cfg;
      rows, order, released := map[], [], map[];
    }

    function State(): Queue
      reads this
    {
      Queue(rows, order, released)
    }

    method SaveUnwrap(k: Key, row: Row)
      modifies this
      ensures State() == Saved(old(State()), k, row)
      ensures released == old(released) && rows.Keys == old(rows).Keys + {k}
      ensures forall j :: j in old(rows) ==> rows[j] == old(rows)[j]
      ensures k !in old(rows) ==> rows[k] == row.(status := Pending, attempts := 0) && order == old(order) + [k]
      ensures rows[k].due == row.due <==> k !in old(rows) || old(rows)[k].due == row.due
      ensures old(Shape(State())) ==> Shape(State())
    {
      if k !in rows {
        rows := rows[k := row.(status := Pending, attempts := 0)];
        order := order + [k];
      }
    }

    /** `release`: what it throws, or nothing; `None` when the worker died inside. */
    method Release(k: Key, row: Row, a: Attempt) returns (outcome: Option<bool>, replayed: bool)
      requires !a.DiedBefore?
      modifies this`released
      ensures ReleaseOf(cfg, old(State()), k, row, a)
              == if outcome.None? then (State(), Died)
                 else if outcome.value || replayed then AfterSuccess(State(), k, row)
                 else AfterError(cfg, State(), k, row)
    {
      replayed := false;
      if !row.wellFormed {
        return Some(false), false;
      }
      if a.PrecheckFailed? {
        return Some(false), a.namesMethod;
      }
      var slot := SlotOf(k, row);
      if slot in released {
        return Some(true), false;
      }
      match a {
        case Submitted(fate) =>
          released := released[slot := row.due];
          match fate {
            case Answered => return Some(true), false;
            case ResponseLost => return Some(false), false;
            case DiedAfter => return None, false;
          }
        case Raced(paid, fate) =>
          released := released[slot := paid];
          match fate {
            case Answered => return Some(false), true;
            case ResponseLost => return Some(false), false;
            case DiedAfter => return None, false;
          }
        case NoQuorum => return Some(false), false;
        case Rejected => return Some(false), false;
      }
    }

    /** The body of the loop of `processPending`. */
    method ProcessRow(k: Key, row: Row, a: Attempt) returns (progress: Progress)
      modifies this
      ensures (State(), progress) == Attempted(cfg, old(State()), k, row, a)
    {
      if a.DiedBefore? {
        return Died;
      }
      if row.chain !in cfg.enabled {
        return Skipped;
      }
      if row.attempts + 1 > cfg.maxAttempts {
        rows := rows[k := row.(status := Failed)];
        return GaveUp;
      }
      var outcome, replayed := Release(k, row, a);
      if outcome.None? {
        return Died;
      }
      if outcome.value || replayed {
        rows := rows[k := row.(status := Released)];
        return Paid;
      }
      if row.attempts + 1 >= cfg.maxAttempts {
        rows := rows[k := row.(status := Failed)];
        return GaveUp;
      }
      rows := rows[k := row.(attempts := row.attempts + 1)];
      return Retry;
    }

    method ProcessPending(plan: seq<Attempt>) returns (paid: nat, failed: nat, skipped: nat, alive: bool)
      modifies this
      ensures Pass(State(), paid, failed, skipped, alive) == Processed(cfg, old(State()), plan)
    {
      hide Attempted, Batch, Continued;
      paid, failed, skipped := 0, 0, 0;
      if cfg.enabled == {} {
        return 0, 0, 0, true;
      }
      var read := rows;
      var batch := BatchOf(State());
      assert batch[0..] == batch && plan[0..] == plan;
      for i := 0 to |batch|
        invariant i <= |plan|
        invariant forall k :: k in batch ==> k in read
        invariant forall k :: k in batch[i..] ==> k in read
        invariant Continued(cfg, Pass(State(), paid, failed, skipped, true), batch[i..], read, plan[i..])
                  == Processed(cfg, old(State()), plan)
      {
        ContinuedAt(cfg, Pass(State(), paid, failed, skipped, true), batch, read, plan, i);
        if i == |plan| {
          return paid, failed, skipped, false;
        }
        var progress := ProcessRow(batch[i], read[batch[i]], plan[i]);
        assert forall k :: k in batch[i + 1..] ==> k in batch;
        match progress {
          case Paid => paid := paid + 1;
          case GaveUp => failed := failed + 1;
          case Skipped => skipped := skipped + 1;
          case Retry =>
          case Died =>
            DeadStops(cfg, Pass(State(), paid, failed, skipped, false), batch[i + 1..], read, plan[i + 1..]);
            return paid, failed, skipped, false;
        }
      }
      ContinuedAt(cfg, Pass(State(), paid, failed, skipped, true), batch, read, plan, |batch|);
      return paid, failed, skipped, true;
    }
  }
}
