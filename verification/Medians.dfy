/** Lower medians: defined by sorting, characterised by counting. */
module Medians {

  predicate Sorted(s: seq<int>) {
    forall i, j :: 0 <= i < j < |s| ==> s[i] <= s[j]
  }

  predicate AllAtMost(s: seq<int>, x: int) {
    forall i :: 0 <= i < |s| ==> s[i] <= x
  }

  lemma SortedAppend(r: seq<int>, last: int)
    requires Sorted(r) && AllAtMost(r, last)
    ensures Sorted(r + [last])
  {
  }

  lemma SortedFront(t: seq<int>)
    requires Sorted(t) && t != []
    ensures Sorted(t[..|t| - 1]) && AllAtMost(t[..|t| - 1], t[|t| - 1])
  {
  }

  lemma SameElementsSameBound(s: seq<int>, t: seq<int>, x: int, bound: int)
    requires multiset(t) == multiset(s) + multiset{x} && AllAtMost(s, bound) && x <= bound
    ensures AllAtMost(t, bound)
  {
    forall i | 0 <= i < |t| ensures t[i] <= bound {
      assert t[i] in multiset(t);
      assert t[i] in multiset(s) || t[i] == x;
    }
  }

  function Insert(t: seq<int>, x: int): (r: seq<int>)
    requires Sorted(t)
    ensures Sorted(r) && multiset(r) == multiset(t) + multiset{x} && |r| == |t| + 1
  {
    if t == [] then [x]
    else
      var front, last := t[..|t| - 1], t[|t| - 1];
      assert t == front + [last];
      SortedFront(t);
      if last <= x then
        SameElementsSameBound(front, t, last, x);
        SortedAppend(t, x);
        t + [x]
      else
        var r := Insert(front, x);
        SameElementsSameBound(front, r, x, last);
        SortedAppend(r, last);
        r + [last]
  }

  function Sort(s: seq<int>): (r: seq<int>)
    ensures Sorted(r) && multiset(r) == multiset(s) && |r| == |s|
  {
    if s == [] then []
    else
      assert s == s[..|s| - 1] + [s[|s| - 1]];
      Insert(Sort(s[..|s| - 1]), s[|s| - 1])
  }

  function LowerMedian(s: seq<int>): int
    requires s != []
  {
    Sort(s)[(|s| - 1) / 2]
  }

  lemma LastIsGreatest(s: seq<int>, t: seq<int>)
    requires Sorted(s) && s != [] && t != [] && multiset(s) == multiset(t)
    ensures t[|t| - 1] <= s[|s| - 1]
  {
    assert t[|t| - 1] in multiset(t);
    assert t[|t| - 1] in multiset(s);
    var k :| 0 <= k < |s| && s[k] == t[|t| - 1];
  }

  lemma FrontsAgree(s: seq<int>, t: seq<int>)
    requires s != [] && t != [] && multiset(s) == multiset(t) && s[|s| - 1] == t[|t| - 1]
    ensures multiset(s[..|s| - 1]) == multiset(t[..|t| - 1])
  {
    assert s == s[..|s| - 1] + [s[|s| - 1]];
    assert t == t[..|t| - 1] + [t[|t| - 1]];
    assert multiset(s[..|s| - 1]) == multiset(s) - multiset{s[|s| - 1]};
    assert multiset(t[..|t| - 1]) == multiset(t) - multiset{t[|t| - 1]};
  }

  lemma {:induction false} SortedIsUnique(s: seq<int>, t: seq<int>)
    requires Sorted(s) && Sorted(t) && multiset(s) == multiset(t)
    ensures s == t
    decreases |s|
  {
    assert |s| == |multiset(s)| && |t| == |multiset(t)|;
    if s != [] {
      LastIsGreatest(s, t);
      LastIsGreatest(t, s);
      FrontsAgree(s, t);
      SortedFront(s);
      SortedFront(t);
      SortedIsUnique(s[..|s| - 1], t[..|t| - 1]);
      assert s == s[..|s| - 1] + [s[|s| - 1]];
      assert t == t[..|t| - 1] + [t[|t| - 1]];
    }
  }

  // ---------------------------------------------------------------- counting

  function CountBelow(s: seq<int>, v: int): nat {
    if s == [] then 0 else CountBelow(s[..|s| - 1], v) + if s[|s| - 1] < v then 1 else 0
  }

  function CountAtMost(s: seq<int>, v: int): nat {
    if s == [] then 0 else CountAtMost(s[..|s| - 1], v) + if s[|s| - 1] <= v then 1 else 0
  }

  /** A reported value with no more than `(n - 1) / 2` reports below it and more than that many at or below it. */
  predicate IsLowerMedian(s: seq<int>, m: int) {
    s != [] && m in s && CountBelow(s, m) <= (|s| - 1) / 2 < CountAtMost(s, m)
  }

  lemma {:induction false} CountInsert(t: seq<int>, x: int, v: int)
    requires Sorted(t)
    ensures CountBelow(Insert(t, x), v) == CountBelow(t, v) + if x < v then 1 else 0
    ensures CountAtMost(Insert(t, x), v) == CountAtMost(t, v) + if x <= v then 1 else 0
    decreases t
  {
    if t == [] {
      assert [x][..0] == [];
    } else {
      var front, last := t[..|t| - 1], t[|t| - 1];
      SortedFront(t);
      if last <= x {
        assert Insert(t, x) == t + [x];
        assert (t + [x])[..|t|] == t;
      } else {
        CountInsert(front, x, v);
        var r := Insert(front, x);
        assert Insert(t, x) == r + [last];
        assert (r + [last])[..|r|] == r;
      }
    }
  }

  lemma {:induction false} CountSort(s: seq<int>, v: int)
    ensures CountBelow(Sort(s), v) == CountBelow(s, v)
    ensures CountAtMost(Sort(s), v) == CountAtMost(s, v)
    decreases s
  {
    if s != [] {
      CountSort(s[..|s| - 1], v);
      CountInsert(Sort(s[..|s| - 1]), s[|s| - 1], v);
    }
  }

  lemma {:induction false} CountsAroundRank(s: seq<int>, k: nat, v: int)
    requires k <= |s|
    ensures (forall i :: k <= i < |s| ==> s[i] >= v) ==> CountBelow(s, v) <= k
    ensures (forall i :: 0 <= i < k ==> s[i] <= v) ==> CountAtMost(s, v) >= k
    ensures CountBelow(s, v) <= CountAtMost(s, v) <= |s|
    decreases s
  {
    if s != [] {
      var f := s[..|s| - 1];
      CountsAroundRank(f, if k < |s| then k else k - 1, v);
      assert forall i :: 0 <= i < |f| ==> f[i] == s[i];
    }
  }

  lemma RankOfSorted(t: seq<int>, k: nat)
    requires Sorted(t) && k < |t|
    ensures CountBelow(t, t[k]) <= k < CountAtMost(t, t[k])
  {
    CountsAroundRank(t, k, t[k]);
    CountsAroundRank(t, k + 1, t[k]);
  }

  lemma MedianIsLowerMedian(s: seq<int>)
    requires s != []
    ensures IsLowerMedian(s, LowerMedian(s))
  {
    var k := (|s| - 1) / 2;
    RankOfSorted(Sort(s), k);
    CountSort(s, LowerMedian(s));
    assert LowerMedian(s) in multiset(Sort(s));
  }

  lemma {:induction false} CountMonotone(s: seq<int>, v: int, w: int)
    requires v < w
    ensures CountAtMost(s, v) <= CountBelow(s, w)
    decreases s
  {
    if s != [] {
      CountMonotone(s[..|s| - 1], v, w);
    }
  }

  /** The counting property has one solution, so it is a definition of the price. */
  lemma LowerMedianIsUnique(s: seq<int>, m: int)
    requires IsLowerMedian(s, m)
    ensures m == LowerMedian(s)
  {
    MedianIsLowerMedian(s);
    var k := LowerMedian(s);
    if m < k {
      CountMonotone(s, m, k);
    } else if k < m {
      CountMonotone(s, k, m);
    }
  }

  // ---------------------------------------------------------------- robustness

  function Among(bad: set<nat>, n: nat): set<nat> {
    set i | i in bad && i < n
  }

  lemma AmongGrows(bad: set<nat>, n: nat)
    ensures |Among(bad, n + 1)| == |Among(bad, n)| + if n in bad then 1 else 0
  {
    if n in bad {
      assert Among(bad, n + 1) == Among(bad, n) + {n};
    } else {
      assert Among(bad, n + 1) == Among(bad, n);
    }
  }

  lemma {:induction false} HonestCounts(s: seq<int>, bad: set<nat>, lo: int, hi: int, v: int)
    requires forall i: nat :: i < |s| && i !in bad ==> lo <= s[i] <= hi
    ensures v > hi ==> CountBelow(s, v) >= |s| - |Among(bad, |s|)|
    ensures v < lo ==> CountAtMost(s, v) <= |Among(bad, |s|)|
    decreases s
  {
    if s != [] {
      var f := s[..|s| - 1];
      assert forall i: nat :: i < |f| ==> f[i] == s[i];
      HonestCounts(f, bad, lo, hi, v);
      AmongGrows(bad, |f|);
    } else {
      assert Among(bad, 0) == {};
    }
  }

  /** With at most `(n - 1) / 2` arbitrary reports the median stays within the range of the honest ones. */
  lemma HonestMajorityBoundsMedian(s: seq<int>, bad: set<nat>, lo: int, hi: int)
    requires s != [] && |Among(bad, |s|)| <= (|s| - 1) / 2
    requires forall i: nat :: i < |s| && i !in bad ==> lo <= s[i] <= hi
    ensures lo <= LowerMedian(s) <= hi
  {
    MedianIsLowerMedian(s);
    HonestCounts(s, bad, lo, hi, LowerMedian(s));
  }

  lemma {:induction false} CountConstant(b: nat, x: int, v: int)
    ensures CountAtMost(seq(b, i => x), v) == if x <= v then b else 0
    ensures CountBelow(seq(b, i => x), v) == if x < v then b else 0
    decreases b
  {
    if b > 0 {
      assert seq(b, i => x)[..b - 1] == seq(b - 1, i => x);
      CountConstant(b - 1, x, v);
    }
  }

  lemma {:induction false} CountConcat(s: seq<int>, t: seq<int>, v: int)
    ensures CountAtMost(s + t, v) == CountAtMost(s, v) + CountAtMost(t, v)
    ensures CountBelow(s + t, v) == CountBelow(s, v) + CountBelow(t, v)
    decreases t
  {
    if t == [] {
      assert s + t == s;
    } else {
      var n := |t| - 1;
      assert (s + t)[..|s + t| - 1] == s + t[..n];
      CountConcat(s, t[..n], v);
    }
  }

  /**
   * The bound is exact: `bad` reports of `x` against `honest` reports of the
   * larger `y` leave the price at `y` if and only if `bad` is at most
   * `(bad + honest - 1) / 2`.
   */
  lemma BoundIsTight(bad: nat, honest: nat, x: int, y: int)
    requires honest > 0 && x < y
    ensures LowerMedian(seq(bad, i => x) + seq(honest, i => y)) == y <==> bad <= (bad + honest - 1) / 2
  {
    var s := seq(bad, i => x) + seq(honest, i => y);
    MedianIsLowerMedian(s);
    CountConcat(seq(bad, i => x), seq(honest, i => y), x);
    CountConcat(seq(bad, i => x), seq(honest, i => y), y);
    CountConstant(bad, x, x);
    CountConstant(bad, x, y);
    CountConstant(honest, y, x);
    CountConstant(honest, y, y);
    var m := LowerMedian(s);
    assert m == x || m == y by {
      var k :| 0 <= k < |s| && s[k] == m;
    }
  }

  lemma {:induction false} CountRaised(s: seq<int>, i: nat, x: int, v: int)
    requires i < |s| && s[i] <= x
    ensures CountAtMost(s[i := x], v) <= CountAtMost(s, v)
    decreases s
  {
    var n := |s| - 1;
    if i == n {
      assert s[i := x][..n] == s[..n];
    } else {
      assert s[i := x][..n] == s[..n][i := x];
      CountRaised(s[..n], i, x, v);
    }
  }

  /** Raising any one report never lowers the price. */
  lemma MedianIsMonotone(s: seq<int>, i: nat, x: int)
    requires i < |s| && s[i] <= x
    ensures LowerMedian(s) <= LowerMedian(s[i := x])
  {
    MedianIsLowerMedian(s);
    MedianIsLowerMedian(s[i := x]);
    var m, k := LowerMedian(s), LowerMedian(s[i := x]);
    if k < m {
      CountRaised(s, i, x, k);
      CountMonotone(s, k, m);
    }
  }
}
