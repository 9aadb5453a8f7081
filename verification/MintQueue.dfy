/**
 * The mint queue of the bridge service: a database of mint requests, one worker
 * that submits `wrap` to the chain, and an environment that loses responses,
 * refuses quorums and kills the worker between any two steps.
 */
module MintQueue {
  import opened Host
  import opened Lists
  import opened Totals
  import opened Batches
  import opened BridgeChain

  /** A source event: its transaction and its log index there. */
  type Key = Request

  const MAX_MINT_ATTEMPTS: nat := 10
  const BATCH: nat := 25

  datatype Status = Pending | Done | Failed

  /** A mint request; `Done` is the status "minted". */
  datatype Row = Row(salt: Salt, to: Address, amount: int, status: Status, attempts: nat)

  datatype Queue = Queue(rows: map<Key, Row>, order: seq<Key>, chain: Chain)

  const Empty := Queue(map[], [], Genesis)

  /** One row per listed key, in order of creation. */
  ghost predicate Shape(q: Queue) {
    && Distinct(q.order)
    && forall k :: k in q.order <==> k in q.rows
  }

  function PendingKeys(rows: map<Key, Row>): set<Key> {
    set k | k in rows && rows[k].status.Pending?
  }

  /** What becomes of a submission once the chain has executed it. */
  datatype Fate = Answered | ResponseLost | DiedAfter

  /** What the environment does with one attempt. */
  datatype Attempt =
    | NoQuorum
    | Threw
    | Refused
    | Submitted(fate: Fate)
    | DiedBefore

  /** `enqueue` of a source event; an event that can never mint is recorded as failed. */
  function Enqueued(q: Queue, k: Key, salt: Salt, to: Address, amount: int, valid: bool): Queue {
    if k in q.rows then q
    else
      var row := if valid then Row(salt, to, amount, Pending, 0) else Row(salt, to, amount, Failed, 1);
      q.(rows := q.rows[k := row], order := q.order + [k])
  }

  function Put(q: Queue, k: Key, row: Row): Queue {
    q.(rows := q.rows[k := row])
  }

  /** The wrap that a request asks for. */
  function WrapOf(k: Key, row: Row): Minting {
    Minting(row.to, row.amount, Some(k))
  }

  /** The chain after `wrap` for a row was submitted. */
  function Submission(c: Chain, k: Key, row: Row): Chain {
    var r := Wrap(c, row.salt, WrapOf(k, row));
    if r.Ok? then r.value else c
  }

  /** The answer says that the wrap landed, now or before: success, or "salt already used". */
  predicate Landed(c: Chain, k: Key, row: Row) {
    var r := Wrap(c, row.salt, WrapOf(k, row));
    r.Ok? || r.why == SaltUsed
  }

  datatype Progress = Minted | NotMinted | Died

  /** One iteration of `processPending` for the row read as `row`. */
  function Attempted(q: Queue, k: Key, row: Row, a: Attempt): (Queue, Progress) {
    if a.DiedBefore? then (q, Died)
    else if row.attempts + 1 > MAX_MINT_ATTEMPTS then
      (Put(q, k, row.(status := Failed, attempts := row.attempts + 1)), NotMinted)
    else
      var retry := row.(attempts := row.attempts + 1);
      match a
      case Submitted(fate) =>
        var q' := q.(chain := Submission(q.chain, k, row));
        (match fate
         case DiedAfter => (q', Died)
         case ResponseLost => (Put(q', k, retry), NotMinted)
         case Answered =>
           if Landed(q.chain, k, row) then (Put(q', k, row.(status := Done)), Minted)
           else (Put(q', k, retry), NotMinted))
      case _ => (Put(q, k, retry), NotMinted)
  }

  /** `alive` tells whether the worker reached the end of its batch. */
  datatype Pass = Pass(queue: Queue, minted: nat, failed: nat, alive: bool)

  /** The rest of a batch. The worker dies when the plan of the environment runs out. */
  function Continued(q: Queue, batch: seq<Key>, read: map<Key, Row>, plan: seq<Attempt>, minted: nat, failed: nat): Pass
    requires forall k :: k in batch ==> k in read
    decreases batch
  {
    if batch == [] then Pass(q, minted, failed, true)
    else if plan == [] then Pass(q, minted, failed, false)
    else
      var (q', p) := Attempted(q, batch[0], read[batch[0]], plan[0]);
      if p.Died? then Pass(q', minted, failed, false)
      else
        Continued(q', batch[1..], read, plan[1..],
                  if p.Minted? then minted + 1 else minted, if p.Minted? then failed else failed + 1)
  }

  function BatchOf(q: Queue): seq<Key> {
    Batch(q.order, PendingKeys(q.rows), BATCH)
  }

  function Processed(q: Queue, plan: seq<Attempt>): Pass {
    Continued(q, BatchOf(q), q.rows, plan, 0, 0)
  }

  class MintService {
    var rows: map<Key, Row>
    var order: seq<Key>
    var chain: Chain

    constructor ()
      ensures State() == Empty
    {
      rows, order, chain := map[], [], Genesis;
    }

    function State(): Queue
      reads this
    {
      Queue(rows, order, chain)
    }

    method Enqueue(k: Key, salt: Salt, to: Address, amount: int, valid: bool)
      modifies this
      ensures State() == Enqueued(old(State()), k, salt, to, amount, valid)
      ensures chain == old(chain) && rows.Keys == old(rows).Keys + {k}
      ensures forall j :: j in old(rows) ==> rows[j] == old(rows)[j]
      ensures k !in old(rows) ==> rows[k].salt == salt && rows[k].to == to && rows[k].amount == amount
      ensures k !in old(rows) ==> rows[k].status == (if valid then Pending else Failed)
                                  && rows[k].attempts == (if valid then 0 else 1) && order == old(order) + [k]
      ensures old(Shape(State())) ==> Shape(State())
    {
      if k !in rows {
        rows := rows[k := if valid then Row(salt, to, amount, Pending, 0) else Row(salt, to, amount, Failed, 1)];
        order := order + [k];
      }
    }

    /** `mint`: submit, and mark the row when the answer says the wrap landed. */
    method Mint(k: Key, row: Row, a: Attempt) returns (ok: Option<bool>)
      requires !a.DiedBefore? && row.attempts < MAX_MINT_ATTEMPTS
      modifies this
      ensures order == old(order)
      ensures var (q, p) := Attempted(old(State()), k, row, a);
              && (ok.None? <==> p.Died?)
              && (ok.Some? ==> (ok.value <==> p.Minted?))
              && (if ok.Some? && !ok.value then
                    State() == q.(rows := old(rows)) && q.rows == old(rows)[k := row.(attempts := row.attempts + 1)]
                  else State() == q)
    {
      if !a.Submitted? {
        return Some(false);
      }
      var landed := Landed(chain, k, row);
      chain := Submission(chain, k, row);
      match a.fate {
        case DiedAfter => return None;
        case ResponseLost => return Some(false);
        case Answered =>
          if landed {
            rows := rows[k := row.(status := Done)];
          }
          return Some(landed);
      }
    }

    method ProcessPending(plan: seq<Attempt>) returns (minted: nat, failed: nat, alive: bool)
      modifies this
      ensures Pass(State(), minted, failed, alive) == Processed(old(State()), plan)
    {
      var read := rows;
      var batch := BatchOf(State());
      minted, failed := 0, 0;
      for i := 0 to |batch|
        invariant i <= |plan|
        invariant forall k :: k in batch[i..] ==> k in read
        invariant Continued(State(), batch[i..], read, plan[i..], minted, failed) == Processed(old(State()), plan)
      {
        if i == |plan| {
          return minted, failed, false;
        }
        var k, a := batch[i], plan[i];
        assert k in batch[i..];
        var row := read[k];
        assert forall j :: j in batch[i + 1..] ==> j in batch[i..];
        assert batch[i..][0] == k && batch[i..][1..] == batch[i + 1..];
        assert plan[i..][0] == a && plan[i..][1..] == plan[i + 1..];
        if a.DiedBefore? {
          return minted, failed, false;
        }
        if row.attempts + 1 > MAX_MINT_ATTEMPTS {
          rows := rows[k := row.(status := Failed, attempts := row.attempts + 1)];
          failed := failed + 1;
        } else {
          var ok := Mint(k, row, a);
          if ok.None? {
            return minted, failed, false;
          }
          if ok.value {
            minted := minted + 1;
          } else {
            rows := rows[k := row.(attempts := row.attempts + 1)];
            failed := failed + 1;
          }
        }
      }
      return minted, failed, true;
    }
  }
}
