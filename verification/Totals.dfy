/** Sums over storage maps, where a missing key reads as zero (`unwrap_or(0)`). */
module Totals {

  function Get<K>(m: map<K, int>, k: K): int {
    if k in m then m[k] else 0
  }

  ghost function SumOver<K(!new)>(ks: set<K>, m: map<K, int>): int
  {
    if ks == {} then 0
    else
      var k :| k in ks;
      Get(m, k) + SumOver(ks - {k}, m)
  }

  /** The sum of everything stored in a map. */
  ghost function Sum<K(!new)>(m: map<K, int>): int {
    SumOver(m.Keys, m)
  }

  lemma {:induction false} SumPick<K(!new)>(ks: set<K>, m: map<K, int>, k: K)
    requires k in ks
    ensures SumOver(ks, m) == Get(m, k) + SumOver(ks - {k}, m)
    decreases ks
  {
    var j :| j in ks && SumOver(ks, m) == Get(m, j) + SumOver(ks - {j}, m);
    if j != k {
      SumPick(ks - {j}, m, k);
      SumPick(ks - {k}, m, j);
      assert ks - {j} - {k} == ks - {k} - {j};
    }
  }

  /** Keys outside the map add nothing. */
  lemma {:induction false} SumExtra<K(!new)>(ks: set<K>, m: map<K, int>)
    requires m.Keys <= ks
    ensures SumOver(ks, m) == Sum(m)
    decreases ks
  {
    if k :| k in ks && k !in m {
      SumPick(ks, m, k);
      SumExtra(ks - {k}, m);
    } else {
      assert ks == m.Keys;
    }
  }

  lemma {:induction false} SumLinear<K(!new)>(ks: set<K>, a: map<K, int>, b: map<K, int>, c: map<K, int>, d: int)
    requires forall k :: k in ks ==> Get(c, k) == Get(a, k) + d * Get(b, k)
    ensures SumOver(ks, c) == SumOver(ks, a) + d * SumOver(ks, b)
    decreases ks
  {
    if k :| k in ks {
      SumPick(ks, a, k);
      SumPick(ks, b, k);
      SumPick(ks, c, k);
      SumLinear(ks - {k}, a, b, c, d);
      assert d * (Get(b, k) + SumOver(ks - {k}, b)) == d * Get(b, k) + d * SumOver(ks - {k}, b);
    }
  }

  lemma {:induction false} SumMono<K(!new)>(ks: set<K>, a: map<K, int>, b: map<K, int>)
    requires forall k :: k in ks ==> Get(a, k) <= Get(b, k)
    ensures SumOver(ks, a) <= SumOver(ks, b)
    decreases ks
  {
    if k :| k in ks {
      SumPick(ks, a, k);
      SumPick(ks, b, k);
      SumMono(ks - {k}, a, b);
    }
  }

  lemma {:induction false} SumSame<K(!new)>(ks: set<K>, a: map<K, int>, b: map<K, int>)
    requires forall k :: k in ks ==> Get(a, k) == Get(b, k)
    ensures SumOver(ks, a) == SumOver(ks, b)
  {
    SumMono(ks, a, b);
    SumMono(ks, b, a);
  }

  lemma SumSet<K(!new)>(m: map<K, int>, k: K, v: int)
    ensures Sum(m[k := v]) == Sum(m) - Get(m, k) + v
  {
    var n, ks := m[k := v], m.Keys + {k};
    SumExtra(ks, m);
    SumExtra(ks, n);
    SumPick(ks, m, k);
    SumPick(ks, n, k);
    SumSame(ks - {k}, m, n);
  }

  lemma {:induction false} SumOverNonNegative<K(!new)>(ks: set<K>, m: map<K, int>)
    requires forall k :: Get(m, k) >= 0
    ensures SumOver(ks, m) >= 0
    decreases ks
  {
    if k :| k in ks {
      SumPick(ks, m, k);
      SumOverNonNegative(ks - {k}, m);
    }
  }

  /** With no negative entry, every entry is at most the sum. */
  lemma EntryAtMostSum<K(!new)>(m: map<K, int>, k: K)
    requires forall j :: Get(m, j) >= 0
    ensures 0 <= Get(m, k) <= Sum(m)
  {
    if k in m {
      SumPick(m.Keys, m, k);
      SumOverNonNegative(m.Keys - {k}, m);
    } else {
      SumOverNonNegative(m.Keys, m);
    }
  }

  /** `a + d * b`, key by key. */
  function AddScaled<K(!new)>(a: map<K, int>, b: map<K, int>, d: int): (c: map<K, int>)
    ensures forall k :: Get(c, k) == Get(a, k) + d * Get(b, k)
  {
    map k | k in a.Keys + b.Keys :: Get(a, k) + d * Get(b, k)
  }

  lemma SumAddScaled<K(!new)>(a: map<K, int>, b: map<K, int>, d: int)
    ensures Sum(AddScaled(a, b, d)) == Sum(a) + d * Sum(b)
  {
    var ks := a.Keys + b.Keys;
    SumExtra(ks, a);
    SumExtra(ks, b);
    SumExtra(ks, AddScaled(a, b, d));
    SumLinear(ks, a, b, AddScaled(a, b, d), d);
  }
}
