/** The queue query: the first rows, in order of creation, that are still pending. */
module Batches {
  import opened Lists
  import opened Totals

  /** The first `n` keys of `order` that are in `pending`. */
  function Batch<K(==)>(order: seq<K>, pending: set<K>, n: nat): (b: seq<K>)
    ensures |b| <= n
    ensures forall k :: k in b ==> k in pending && k in order
    ensures pending == {} ==> b == []
  {
    if order == [] || n == 0 then []
    else if order[0] in pending then [order[0]] + Batch(order[1..], pending, n - 1)
    else Batch(order[1..], pending, n)
  }

  lemma {:induction false} BatchDistinct<K>(order: seq<K>, pending: set<K>, n: nat)
    requires Distinct(order)
    ensures Distinct(Batch(order, pending, n))
    decreases order
  {
    if order != [] && n != 0 {
      assert forall i, j ::
               0 <= i < j < |order[1..]| ==> order[1..][i] == order[i + 1] && order[1..][j] == order[j + 1];
      BatchDistinct(order[1..], pending, if order[0] in pending then n - 1 else n);
      if order[0] in pending {
        var rest := Batch(order[1..], pending, n - 1);
        forall i | 0 <= i < |rest| ensures rest[i] != order[0] {
          assert rest[i] in order[1..];
        }
      }
    }
  }

  /** The batch keeps the order of creation. */
  lemma {:induction false} BatchKeepsOrder<K>(order: seq<K>, pending: set<K>, n: nat, i: nat, j: nat)
    requires i < j < |Batch(order, pending, n)|
    ensures exists a, b :: 0 <= a < b < |order|
                           && order[a] == Batch(order, pending, n)[i] && order[b] == Batch(order, pending, n)[j]
    decreases order
  {
    var batch := Batch(order, pending, n);
    if order[0] in pending {
      var rest := Batch(order[1..], pending, n - 1);
      assert batch == [order[0]] + rest;
      if i == 0 {
        assert rest[j - 1] in order[1..];
        var b :| 0 <= b < |order| - 1 && order[1..][b] == rest[j - 1];
        assert order[0] == batch[0] && order[b + 1] == batch[j];
      } else {
        BatchKeepsOrder(order[1..], pending, n - 1, i - 1, j - 1);
        var a, b :| 0 <= a < b < |order| - 1 && order[1..][a] == rest[i - 1] && order[1..][b] == rest[j - 1];
        assert order[a + 1] == batch[i] && order[b + 1] == batch[j];
      }
    } else {
      BatchKeepsOrder(order[1..], pending, n, i, j);
      var a, b :| 0 <= a < b < |order| - 1 && order[1..][a] == batch[i] && order[1..][b] == batch[j];
      assert order[a + 1] == batch[i] && order[b + 1] == batch[j];
    }
  }

  /** How many pending keys come before position `i`. */
  function Ahead<K(==)>(order: seq<K>, pending: set<K>, i: nat): nat
    requires i <= |order|
  {
    if i == 0 then 0
    else (if order[0] in pending then 1 else 0) + Ahead(order[1..], pending, i - 1)
  }

  /** A pending key is in the batch exactly when fewer than `n` pending keys are older. */
  lemma {:induction false} InBatchIffFewAhead<K>(order: seq<K>, pending: set<K>, n: nat, i: nat)
    requires Distinct(order) && i < |order| && order[i] in pending
    ensures order[i] in Batch(order, pending, n) <==> Ahead(order, pending, i) < n
    decreases order
  {
    if n != 0 {
      assert forall a, b ::
               0 <= a < b < |order[1..]| ==> order[1..][a] == order[a + 1] && order[1..][b] == order[b + 1];
      var m := if order[0] in pending then n - 1 else n;
      if i == 0 {
        assert Batch(order, pending, n)[0] == order[0];
      } else {
        InBatchIffFewAhead(order[1..], pending, m, i - 1);
        assert order[i] == order[1..][i - 1] && order[i] != order[0];
      }
    } else {
      assert Batch(order, pending, 0) == [];
    }
  }

  lemma {:induction false} AheadMono<K>(order: seq<K>, pending: set<K>, more: set<K>, j: nat, i: nat)
    requires j <= i <= |order| && forall k :: k in order && k in pending ==> k in more
    ensures Ahead(order, pending, j) <= Ahead(order, more, i)
    decreases order
  {
    if i != 0 {
      AheadMono(order[1..], pending, more, if j == 0 then 0 else j - 1, i - 1);
    }
  }

  /** Keys added at the end are ahead of nothing. */
  lemma {:induction false} AheadOfPrefix<K>(order: seq<K>, order': seq<K>, pending: set<K>, i: nat)
    requires i <= |order| && order <= order'
    ensures Ahead(order, pending, i) == Ahead(order', pending, i)
    decreases order
  {
    if i != 0 {
      assert order[1..] <= order'[1..];
      AheadOfPrefix(order[1..], order'[1..], pending, i - 1);
    }
  }

  /**
   * Only keys that stay pending can keep a key out of the batch: if fewer than
   * `n` idle keys are older than a pending live one, some live key as old as it
   * or older is in the batch.
   */
  lemma {:induction false} SomeLiveKeyInBatch<K>(order: seq<K>, pending: set<K>, live: set<K>, n: nat, i: nat)
    returns (j: nat)
    requires Distinct(order) && i < |order| && order[i] in pending * live
    requires Ahead(order, pending - live, i) < n
    ensures j <= i && order[j] in pending * live && order[j] in Batch(order, pending, n)
    decreases i
  {
    if h :| 0 <= h < i && order[h] in pending * live {
      AheadMono(order, pending - live, pending - live, h, i);
      j := SomeLiveKeyInBatch(order, pending, live, n, h);
    } else {
      j := i;
      OnlyIdleAhead(order, pending, live, i);
      InBatchIffFewAhead(order, pending, n, i);
    }
  }

  lemma {:induction false} OnlyIdleAhead<K>(order: seq<K>, pending: set<K>, live: set<K>, i: nat)
    requires i <= |order| && forall h :: 0 <= h < i ==> order[h] !in pending * live
    ensures Ahead(order, pending, i) == Ahead(order, pending - live, i)
    decreases i
  {
    if i != 0 {
      assert order[0] !in pending * live;
      assert forall h :: 0 <= h < i - 1 ==> order[1..][h] == order[h + 1];
      OnlyIdleAhead(order[1..], pending, live, i - 1);
    }
  }

  lemma {:induction false} NothingAhead<K>(order: seq<K>, i: nat)
    requires i <= |order|
    ensures Ahead(order, {}, i) == 0
    decreases order
  {
    if i != 0 {
      NothingAhead(order[1..], i - 1);
    }
  }

  /** What the first `i` keys can still use up together. */
  function PrefixSum<K(==)>(order: seq<K>, left: map<K, int>, i: nat): int
    requires i <= |order|
    decreases i
  {
    if i == 0 then 0 else Get(left, order[i - 1]) + PrefixSum(order, left, i - 1)
  }

  lemma {:induction false} PrefixSumMono<K>(order: seq<K>, order': seq<K>, left: map<K, int>, left': map<K, int>,
                                            i: nat)
    requires i <= |order| && order <= order'
    requires forall j :: 0 <= j < i ==> Get(left', order[j]) <= Get(left, order[j])
    ensures PrefixSum(order', left', i) <= PrefixSum(order, left, i)
    decreases i
  {
    if i != 0 {
      PrefixSumMono(order, order', left, left', i - 1);
    }
  }

  lemma {:induction false} PrefixSumDrops<K>(order: seq<K>, order': seq<K>, left: map<K, int>, left': map<K, int>,
                                             i: nat, h: nat)
    requires h < i <= |order| && order <= order'
    requires forall j :: 0 <= j < i ==> Get(left', order[j]) <= Get(left, order[j])
    requires Get(left', order[h]) < Get(left, order[h])
    ensures PrefixSum(order', left', i) < PrefixSum(order, left, i)
    decreases i
  {
    if h == i - 1 {
      PrefixSumMono(order, order', left, left', i - 1);
    } else {
      PrefixSumDrops(order, order', left, left', i - 1, h);
    }
  }

  lemma {:induction false} PrefixSumNonNegative<K>(order: seq<K>, left: map<K, int>, i: nat)
    requires i <= |order| && forall k :: Get(left, k) >= 0
    ensures PrefixSum(order, left, i) >= 0
    ensures i > 0 ==> PrefixSum(order, left, i) >= Get(left, order[i - 1])
    decreases i
  {
    if i != 0 {
      PrefixSumNonNegative(order, left, i - 1);
    }
  }
}
