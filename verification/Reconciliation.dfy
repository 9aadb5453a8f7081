/** The reconciliation checks that compare the Stellar ledger of a bridge with its source chains. */
module Reconciliation {

  type Key = string

  datatype Entry = Entry(key: Key, amount: int)

  datatype Side = Left | Right

  datatype Violation =
    | DuplicateKey(side: Side, key: Key)
    | Unmatched(side: Side, key: Key)
    | AmountDiffers(key: Key, left: int, right: int)
    | Unbacked(supply: int, backing: int)
    | SupplyDiffers(supply: int, derived: int)

  // ---------------------------------------------------------------- specification

  function KeysOf(es: seq<Entry>): set<Key> {
    set e | e in es :: e.key
  }

  /** The entries that are the first with their key: the contents of the map, in insertion order. */
  function Firsts(es: seq<Entry>): seq<Entry> {
    if es == [] then []
    else
      var front, last := es[..|es| - 1], es[|es| - 1];
      if last.key in KeysOf(front) then Firsts(front) else Firsts(front) + [last]
  }

  function Duplicates(side: Side, es: seq<Entry>): seq<Violation> {
    if es == [] then []
    else
      var front, last := es[..|es| - 1], es[|es| - 1];
      Duplicates(side, front) + if last.key in KeysOf(front) then [DuplicateKey(side, last.key)] else []
  }

  function AsMap(es: seq<Entry>): (m: map<Key, int>)
    ensures m.Keys == KeysOf(es)
  {
    if es == [] then map[]
    else
      var front, last := es[..|es| - 1], es[|es| - 1];
      assert es == front + [last];
      if last.key in KeysOf(front) then AsMap(front) else AsMap(front)[last.key := last.amount]
  }

  /** One entry of the left map against the right map. */
  function Against(e: Entry, right: map<Key, int>): seq<Violation> {
    if e.key !in right then [Unmatched(Left, e.key)]
    else if right[e.key] != e.amount then [AmountDiffers(e.key, e.amount, right[e.key])]
    else []
  }

  function Mismatches(es: seq<Entry>, right: map<Key, int>): seq<Violation> {
    if es == [] then [] else Mismatches(es[..|es| - 1], right) + Against(es[|es| - 1], right)
  }

  function Missing(es: seq<Entry>, left: map<Key, int>): seq<Violation> {
    if es == [] then []
    else Missing(es[..|es| - 1], left) + if es[|es| - 1].key in left then [] else [Unmatched(Right, es[|es| - 1].key)]
  }

  /** `compareLedgers` */
  function Compare(left: seq<Entry>, right: seq<Entry>): seq<Violation> {
    Duplicates(Left, left) + Duplicates(Right, right) + Mismatches(Firsts(left), AsMap(right))
      + Missing(Firsts(right), AsMap(left))
  }

  // ---------------------------------------------------------------- soundness and completeness

  predicate DistinctKeys(es: seq<Entry>) {
    forall i, j :: 0 <= i < j < |es| ==> es[i].key != es[j].key
  }

  lemma LastKeyDecides(es: seq<Entry>)
    requires es != []
    ensures var front, last := es[..|es| - 1], es[|es| - 1];
            DistinctKeys(es) <==> DistinctKeys(front) && last.key !in KeysOf(front)
  {
    var n := |es| - 1;
    var front := es[..n];
    assert forall i :: 0 <= i < n ==> front[i] == es[i];
    if es[n].key in KeysOf(front) {
      var e :| e in front && e.key == es[n].key;
      var i :| 0 <= i < n && front[i] == e;
      assert es[i].key == es[n].key;
    } else {
      forall i | 0 <= i < n ensures es[i].key != es[n].key {
        assert front[i] in front;
      }
    }
    if DistinctKeys(es) {
      forall i, j | 0 <= i < j < n ensures front[i].key != front[j].key {
        assert es[i].key != es[j].key;
      }
    }
  }

  lemma {:induction false} NoDuplicates(side: Side, es: seq<Entry>)
    ensures Duplicates(side, es) == [] <==> DistinctKeys(es)
    decreases es
  {
    if es != [] {
      NoDuplicates(side, es[..|es| - 1]);
      hide DistinctKeys, KeysOf;
      LastKeyDecides(es);
    }
  }

  lemma {:induction false} FirstsAreTheMap(es: seq<Entry>, e: Entry)
    ensures e in Firsts(es) <==> e.key in AsMap(es) && AsMap(es)[e.key] == e.amount
    decreases es
  {
    if es != [] {
      FirstsAreTheMap(es[..|es| - 1], e);
    }
  }

  lemma {:induction false} NoMismatches(es: seq<Entry>, right: map<Key, int>)
    ensures Mismatches(es, right) == [] <==> forall e :: e in es ==> e.key in right && right[e.key] == e.amount
    decreases es
  {
    if es != [] {
      var front, last := es[..|es| - 1], es[|es| - 1];
      assert es == front + [last];
      NoMismatches(front, right);
    }
  }

  lemma {:induction false} NoneMissing(es: seq<Entry>, left: map<Key, int>)
    ensures Missing(es, left) == [] <==> forall e :: e in es ==> e.key in left
    decreases es
  {
    if es != [] {
      var front, last := es[..|es| - 1], es[|es| - 1];
      assert es == front + [last];
      NoneMissing(front, left);
    }
  }

  lemma FirstsWithin(es: seq<Entry>, right: map<Key, int>)
    ensures (forall e :: e in Firsts(es) ==> e.key in right && right[e.key] == e.amount)
            <==> (forall k :: k in AsMap(es) ==> k in right && right[k] == AsMap(es)[k])
  {
    var m := AsMap(es);
    forall e ensures e in Firsts(es) <==> e.key in m && m[e.key] == e.amount {
      FirstsAreTheMap(es, e);
    }
    if forall e :: e in Firsts(es) ==> e.key in right && right[e.key] == e.amount {
      forall k | k in m ensures k in right && right[k] == m[k] {
        assert Entry(k, m[k]) in Firsts(es);
      }
    }
  }

  lemma FirstsKeysWithin(es: seq<Entry>, left: map<Key, int>)
    ensures (forall e :: e in Firsts(es) ==> e.key in left) <==> AsMap(es).Keys <= left.Keys
  {
    var m := AsMap(es);
    forall e ensures e in Firsts(es) <==> e.key in m && m[e.key] == e.amount {
      FirstsAreTheMap(es, e);
    }
    if forall e :: e in Firsts(es) ==> e.key in left {
      forall k | k in m ensures k in left {
        assert Entry(k, m[k]) in Firsts(es);
      }
    }
  }

  /** The verdict is clean exactly when both lists are free of duplicate keys and are the same ledger. */
  lemma CleanIffBijection(left: seq<Entry>, right: seq<Entry>)
    ensures Compare(left, right) == [] <==> DistinctKeys(left) && DistinctKeys(right) && AsMap(left) == AsMap(right)
  {
    hide Duplicates, Mismatches, Missing, Firsts, AsMap, DistinctKeys;
    NoDuplicates(Left, left);
    NoDuplicates(Right, right);
    NoMismatches(Firsts(left), AsMap(right));
    NoneMissing(Firsts(right), AsMap(left));
    FirstsWithin(left, AsMap(right));
    FirstsKeysWithin(right, AsMap(left));
    var a, b := Duplicates(Left, left), Duplicates(Right, right);
    var c, d := Mismatches(Firsts(left), AsMap(right)), Missing(Firsts(right), AsMap(left));
    assert |a + b + c + d| == |a| + |b| + |c| + |d|;
  }

  // ---------------------------------------------------------------- what a violation says

  /** The amount a list gives for `k`: that of the first entry with the key. */
  ghost predicate AmountIs(es: seq<Entry>, k: Key, amount: int) {
    exists i :: 0 <= i < |es| && es[i] == Entry(k, amount) && forall j :: 0 <= j < i ==> es[j].key != k
  }

  ghost predicate HasKey(es: seq<Entry>, k: Key) {
    exists i :: 0 <= i < |es| && es[i].key == k
  }

  /** How many entries have the key. */
  function Occurrences(es: seq<Entry>, k: Key): nat {
    if es == [] then 0 else Occurrences(es[..|es| - 1], k) + if es[|es| - 1].key == k then 1 else 0
  }

  lemma LastKey(es: seq<Entry>, k: Key)
    requires es != []
    ensures HasKey(es, k) <==> HasKey(es[..|es| - 1], k) || es[|es| - 1].key == k
  {
    var n := |es| - 1;
    if HasKey(es[..n], k) {
      var i :| 0 <= i < n && es[..n][i].key == k;
      assert es[i].key == k;
    }
    if HasKey(es, k) && es[n].key != k {
      var i :| 0 <= i <= n && es[i].key == k;
      assert es[..n][i].key == k;
    }
  }

  lemma LastAmount(es: seq<Entry>, k: Key, amount: int)
    requires es != []
    ensures AmountIs(es, k, amount)
            <==> AmountIs(es[..|es| - 1], k, amount) || (!HasKey(es[..|es| - 1], k) && es[|es| - 1] == Entry(k, amount))
  {
    var n := |es| - 1;
    var front := es[..n];
    if AmountIs(front, k, amount) {
      var i :| 0 <= i < n && front[i] == Entry(k, amount) && forall j :: 0 <= j < i ==> front[j].key != k;
      assert es[i] == Entry(k, amount) && forall j :: 0 <= j < i ==> es[j] == front[j];
    } else if !HasKey(front, k) && es[n] == Entry(k, amount) {
      assert forall j :: 0 <= j < n ==> es[j] == front[j];
    }
    if AmountIs(es, k, amount) {
      var i :| 0 <= i <= n && es[i] == Entry(k, amount) && forall j :: 0 <= j < i ==> es[j].key != k;
      assert forall j :: 0 <= j < i ==> es[j] == front[j];
      if i < n {
        assert front[i] == Entry(k, amount);
      }
    }
  }

  lemma {:induction false} MapHoldsFirsts(es: seq<Entry>, k: Key, amount: int)
    ensures AmountIs(es, k, amount) <==> k in AsMap(es) && AsMap(es)[k] == amount
    ensures HasKey(es, k) <==> k in AsMap(es)
    decreases es
  {
    if es != [] {
      MapHoldsFirsts(es[..|es| - 1], k, amount);
      LastKey(es, k);
      LastAmount(es, k, amount);
      hide AmountIs, HasKey;
    }
  }

  lemma {:induction false} MismatchesSay(es: seq<Entry>, right: map<Key, int>, v: Violation)
    ensures v in Mismatches(es, right) <==> exists e :: e in es && v in Against(e, right)
    decreases es
  {
    if es != [] {
      var front, last := es[..|es| - 1], es[|es| - 1];
      assert es == front + [last];
      MismatchesSay(front, right, v);
      if v in Mismatches(front, right) {
        var e :| e in front && v in Against(e, right);
        assert e in es;
      }
    }
  }

  lemma {:induction false} MissingSays(es: seq<Entry>, left: map<Key, int>, v: Violation)
    ensures v in Missing(es, left) <==> v.Unmatched? && v.side.Right? && v.key in KeysOf(es) && v.key !in left
    decreases es
  {
    if es != [] {
      var front, last := es[..|es| - 1], es[|es| - 1];
      assert es == front + [last];
      MissingSays(front, left, v);
    }
  }

  /** A repeated key is reported once for each entry after the first. */
  lemma {:induction false} RepeatsAreReported(side: Side, es: seq<Entry>, k: Key)
    ensures multiset(Duplicates(side, es))[DuplicateKey(side, k)]
            == if Occurrences(es, k) > 0 then Occurrences(es, k) - 1 else 0
    ensures Occurrences(es, k) > 0 <==> k in KeysOf(es)
    decreases es
  {
    if es != [] {
      var front, last := es[..|es| - 1], es[|es| - 1];
      assert es == front + [last];
      RepeatsAreReported(side, front, k);
    }
  }

  lemma {:induction false} OnlyDuplicates(side: Side, es: seq<Entry>, v: Violation)
    requires v in Duplicates(side, es)
    ensures v.DuplicateKey? && v.side == side
    decreases es
  {
    var front := es[..|es| - 1];
    if v in Duplicates(side, front) {
      OnlyDuplicates(side, front, v);
    }
  }

  lemma AgainstSays(es: seq<Entry>, right: map<Key, int>, v: Violation)
    ensures v in Mismatches(Firsts(es), right)
            <==> || (v.Unmatched? && v.side.Left? && v.key in AsMap(es) && v.key !in right)
                 || (v.AmountDiffers? && v.key in AsMap(es) && v.key in right
                     && v.left == AsMap(es)[v.key] && v.right == right[v.key] && v.left != v.right)
  {
    MismatchesSay(Firsts(es), right, v);
    if v in Mismatches(Firsts(es), right) {
      var e :| e in Firsts(es) && v in Against(e, right);
      FirstsAreTheMap(es, e);
    }
    if (v.Unmatched? || v.AmountDiffers?) && v.key in AsMap(es) {
      var e := Entry(v.key, AsMap(es)[v.key]);
      FirstsAreTheMap(es, e);
      assert v.Unmatched? && v.side.Left? && v.key !in right ==> v in Against(e, right);
      assert v.AmountDiffers? && v.key in right && v.left == e.amount && v.right == right[v.key] && v.left != v.right
        ==> v in Against(e, right);
    }
  }

  lemma FirstsKeepKeys(es: seq<Entry>)
    ensures KeysOf(Firsts(es)) == AsMap(es).Keys
  {
    var m := AsMap(es);
    forall e ensures e in Firsts(es) <==> e.key in m && m[e.key] == e.amount {
      FirstsAreTheMap(es, e);
    }
    forall k | k in m ensures k in KeysOf(Firsts(es)) {
      assert Entry(k, m[k]) in Firsts(es);
    }
  }

  /** What a violation claims of the two lists. */
  ghost predicate Holds(left: seq<Entry>, right: seq<Entry>, v: Violation) {
    match v
    case DuplicateKey(side, k) => Occurrences(if side.Left? then left else right, k) >= 2
    case Unmatched(Left, k) => HasKey(left, k) && !HasKey(right, k)
    case Unmatched(Right, k) => HasKey(right, k) && !HasKey(left, k)
    case AmountDiffers(k, l, r) => AmountIs(left, k, l) && AmountIs(right, k, r) && l != r
    case _ => false
  }

  /** A violation is reported exactly when what it says of the two lists is so. */
  lemma ViolationsSayWhatIsSo(left: seq<Entry>, right: seq<Entry>, v: Violation)
    ensures v in Compare(left, right) <==> Holds(left, right, v)
  {
    hide Duplicates, Mismatches, Missing, Firsts, AsMap, AmountIs, HasKey, Occurrences, KeysOf;
    var a, b := Duplicates(Left, left), Duplicates(Right, right);
    var c, d := Mismatches(Firsts(left), AsMap(right)), Missing(Firsts(right), AsMap(left));
    assert v in Compare(left, right) <==> v in a || v in b || v in c || v in d;
    AgainstSays(left, AsMap(right), v);
    MissingSays(Firsts(right), AsMap(left), v);
    FirstsKeepKeys(right);
    if v in a {
      OnlyDuplicates(Left, left, v);
    }
    if v in b {
      OnlyDuplicates(Right, right, v);
    }
    match v {
      case DuplicateKey(side, k) =>
        RepeatsAreReported(Left, left, k);
        RepeatsAreReported(Right, right, k);
        assert v in a <==> multiset(a)[v] > 0;
        assert v in b <==> multiset(b)[v] > 0;
      case Unmatched(_, k) =>
        MapHoldsFirsts(left, k, 0);
        MapHoldsFirsts(right, k, 0);
      case AmountDiffers(k, l, r) =>
        MapHoldsFirsts(left, k, l);
        MapHoldsFirsts(right, k, r);
      case _ =>
    }
  }

  lemma {:induction false} FirstsAreDistinct(es: seq<Entry>)
    ensures DistinctKeys(Firsts(es))
    decreases es
  {
    if es != [] {
      var front, last := es[..|es| - 1], es[|es| - 1];
      FirstsAreDistinct(front);
      FirstsKeepKeys(front);
      var fs := Firsts(front);
      if last.key !in KeysOf(front) {
        forall i | 0 <= i < |fs| ensures fs[i].key != last.key {
          assert fs[i].key in KeysOf(fs);
        }
      }
    }
  }

  lemma AgainstIsOnce(e: Entry, right: map<Key, int>, v: Violation)
    ensures multiset(Against(e, right))[v] <= 1
    ensures v in Against(e, right) ==> (v.Unmatched? || v.AmountDiffers?) && v.key == e.key
  {
  }

  lemma {:induction false} MismatchesAreOnce(es: seq<Entry>, right: map<Key, int>, v: Violation)
    requires DistinctKeys(es)
    ensures multiset(Mismatches(es, right))[v] <= 1
    ensures v in Mismatches(es, right) ==> (v.Unmatched? || v.AmountDiffers?) && v.key in KeysOf(es)
    decreases es
  {
    if es != [] {
      var front, last := es[..|es| - 1], es[|es| - 1];
      assert es == front + [last];
      LastKeyDecides(es);
      hide DistinctKeys, Against;
      MismatchesAreOnce(front, right, v);
      AgainstIsOnce(last, right, v);
      var a, b := Mismatches(front, right), Against(last, right);
      assert multiset(a + b)[v] == multiset(a)[v] + multiset(b)[v];
      assert v in a <==> multiset(a)[v] > 0;
      assert v in b <==> multiset(b)[v] > 0;
    }
  }

  lemma {:induction false} MissingIsOnce(es: seq<Entry>, left: map<Key, int>, v: Violation)
    requires DistinctKeys(es)
    ensures multiset(Missing(es, left))[v] <= 1
    decreases es
  {
    if es != [] {
      var front, last := es[..|es| - 1], es[|es| - 1];
      LastKeyDecides(es);
      MissingIsOnce(front, left, v);
      MissingSays(front, left, v);
      assert v in Missing(front, left) <==> multiset(Missing(front, left))[v] > 0;
    }
  }

  /** Where a violation stands in the report: repeats on the left, on the right, then the left list, then the right. */
  function Rank(v: Violation): nat {
    match v
    case DuplicateKey(Left, _) => 0
    case DuplicateKey(Right, _) => 1
    case Unmatched(Left, _) => 2
    case AmountDiffers(_, _, _) => 2
    case _ => 3
  }

  lemma PartsOfReport(left: seq<Entry>, right: seq<Entry>, v: Violation)
    ensures v in Duplicates(Left, left) ==> Rank(v) == 0
    ensures v in Duplicates(Right, right) ==> Rank(v) == 1
    ensures v in Mismatches(Firsts(left), AsMap(right)) ==> Rank(v) == 2
    ensures v in Missing(Firsts(right), AsMap(left)) ==> Rank(v) == 3
  {
    hide Duplicates, Mismatches, Missing, Firsts, AsMap;
    if v in Duplicates(Left, left) {
      OnlyDuplicates(Left, left, v);
    }
    if v in Duplicates(Right, right) {
      OnlyDuplicates(Right, right, v);
    }
    AgainstSays(left, AsMap(right), v);
    MissingSays(Firsts(right), AsMap(left), v);
  }

  /** A report comes in this order, and says everything but a repeat once. */
  lemma ReportIsOrdered(left: seq<Entry>, right: seq<Entry>)
    ensures var vs := Compare(left, right);
            && (forall i, j :: 0 <= i < j < |vs| ==> Rank(vs[i]) <= Rank(vs[j]))
            && (forall v :: v in vs && !v.DuplicateKey? ==> multiset(vs)[v] == 1)
  {
    hide Duplicates, Mismatches, Missing, Firsts, AsMap, Rank;
    var a, b := Duplicates(Left, left), Duplicates(Right, right);
    var c, d := Mismatches(Firsts(left), AsMap(right)), Missing(Firsts(right), AsMap(left));
    var vs := Compare(left, right);
    assert vs == a + b + c + d;
    forall i | 0 <= i < |vs|
      ensures Rank(vs[i]) == if i < |a| then 0 else if i < |a| + |b| then 1 else if i < |a| + |b| + |c| then 2 else 3
    {
      PartsOfReport(left, right, vs[i]);
      assert i < |a| ==> vs[i] in a;
      assert |a| <= i < |a| + |b| ==> vs[i] == b[i - |a|];
      assert |a| + |b| <= i < |a| + |b| + |c| ==> vs[i] == c[i - |a| - |b|];
      assert |a| + |b| + |c| <= i ==> vs[i] == d[i - |a| - |b| - |c|];
    }
    forall v | v in vs && !v.DuplicateKey? ensures multiset(vs)[v] == 1 {
      SaidOnce(left, right, v);
    }
  }

  lemma SaidOnce(left: seq<Entry>, right: seq<Entry>, v: Violation)
    requires v in Compare(left, right) && !v.DuplicateKey?
    ensures multiset(Compare(left, right))[v] == 1
  {
    var a, b := Duplicates(Left, left), Duplicates(Right, right);
    var c, d := Mismatches(Firsts(left), AsMap(right)), Missing(Firsts(right), AsMap(left));
    FirstsAreDistinct(left);
    FirstsAreDistinct(right);
    MismatchesAreOnce(Firsts(left), AsMap(right), v);
    MissingIsOnce(Firsts(right), AsMap(left), v);
    PartsOfReport(left, right, v);
    NotADuplicate(left, right, v);
    hide Duplicates, Mismatches, Missing, Firsts, AsMap, Rank;
    assert multiset(a + b + c + d) == multiset(a) + multiset(b) + multiset(c) + multiset(d);
    assert v !in multiset(a) && v !in multiset(b);
    assert !(v in c && v in d);
    assert v in multiset(a + b + c + d) <==> v in Compare(left, right);
  }

  lemma NotADuplicate(left: seq<Entry>, right: seq<Entry>, v: Violation)
    requires !v.DuplicateKey?
    ensures v !in Duplicates(Left, left) && v !in Duplicates(Right, right)
  {
    if v in Duplicates(Left, left) {
      OnlyDuplicates(Left, left, v);
    }
    if v in Duplicates(Right, right) {
      OnlyDuplicates(Right, right, v);
    }
  }

  // ---------------------------------------------------------------- totals

  function Total(es: seq<Entry>): int {
    if es == [] then 0 else Total(es[..|es| - 1]) + es[|es| - 1].amount
  }

  function Remove(es: seq<Entry>, i: nat): seq<Entry>
    requires i < |es|
  {
    es[..i] + es[i + 1..]
  }

  lemma {:induction false} TotalRemove(es: seq<Entry>, i: nat)
    requires i < |es|
    ensures Total(es) == Total(Remove(es, i)) + es[i].amount
    decreases es
  {
    var n := |es| - 1;
    if i == n {
      assert Remove(es, i) == es[..n];
    } else {
      TotalRemove(es[..n], i);
      assert Remove(es, i)[..n - 1] == Remove(es[..n], i);
    }
  }

  lemma FirstIsMember(es: seq<Entry>)
    requires es != []
    ensures exists e :: e in es
  {
    assert es[0] in es;
  }

  /** Two duplicate-free lists with the same entries have the same total. */
  lemma {:induction false} SameEntriesSameTotal(left: seq<Entry>, right: seq<Entry>)
    requires DistinctKeys(left) && DistinctKeys(right) && forall e :: e in left <==> e in right
    ensures Total(left) == Total(right)
    decreases |left|
  {
    if left == [] {
      if right != [] {
        FirstIsMember(right);
      }
    } else {
      var n := |left| - 1;
      assert left[n] in right;
      var i :| 0 <= i < |right| && right[i] == left[n];
      var rest := Remove(right, i);
      TotalRemove(right, i);
      RemoveDistinct(right, i);
      DropLastDistinct(left);
      SameEntriesSameTotal(left[..n], rest);
    }
  }

  lemma RemoveDistinct(es: seq<Entry>, i: nat)
    requires i < |es| && DistinctKeys(es)
    ensures DistinctKeys(Remove(es, i))
    ensures forall e :: e in Remove(es, i) <==> e in es && e != es[i]
  {
    var r := Remove(es, i);
    forall k | 0 <= k < |r| ensures r[k] == es[if k < i then k else k + 1] {
    }
    forall e ensures e in r <==> e in es && e != es[i] {
      if e in es && e != es[i] {
        var k :| 0 <= k < |es| && es[k] == e;
        assert r[if k < i then k else k - 1] == e;
      }
    }
  }

  lemma DropLastDistinct(es: seq<Entry>)
    requires es != [] && DistinctKeys(es)
    ensures DistinctKeys(es[..|es| - 1])
    ensures forall e :: e in es[..|es| - 1] <==> e in es && e != es[|es| - 1]
  {
    var n := |es| - 1;
    assert es == es[..n] + [es[n]];
    forall e | e in es[..n] ensures e != es[n] {
      var k :| 0 <= k < n && es[k] == e;
    }
  }

  lemma {:induction false} DistinctFirsts(es: seq<Entry>)
    requires DistinctKeys(es)
    ensures Firsts(es) == es
    decreases es
  {
    if es != [] {
      var n := |es| - 1;
      DropLastDistinct(es);
      DistinctFirsts(es[..n]);
      forall e | e in es[..n] ensures e.key != es[n].key {
        var k :| 0 <= k < n && es[k] == e;
      }
      assert es == es[..n] + [es[n]];
    }
  }

  /** A clean comparison means equal totals. */
  lemma CleanMeansEqualTotals(left: seq<Entry>, right: seq<Entry>)
    requires Compare(left, right) == []
    ensures Total(left) == Total(right)
  {
    CleanIffBijection(left, right);
    DistinctFirsts(left);
    DistinctFirsts(right);
    forall e ensures e in left <==> e in right {
      FirstsAreTheMap(left, e);
      FirstsAreTheMap(right, e);
    }
    SameEntriesSameTotal(left, right);
  }

  datatype Backing = Backing(supply: int, wrapped: int, unwrapped: int, locked: int, burned: int, released: int)

  /** `checkX1Backing` */
  function CheckBacking(b: Backing): seq<Violation> {
    (if b.supply != b.locked + b.burned - b.released then [Unbacked(b.supply, b.locked + b.burned - b.released)]
     else [])
    + (if b.supply != b.wrapped - b.unwrapped then [SupplyDiffers(b.supply, b.wrapped - b.unwrapped)] else [])
  }

  /** Each backing violation is reported exactly when its two numbers are the supply and a different sum. */
  lemma BackingSaysWhatIsSo(b: Backing, v: Violation)
    ensures v in CheckBacking(b)
            <==> match v
                 case Unbacked(supply, backing) =>
                   supply == b.supply && backing == b.locked + b.burned - b.released && supply != backing
                 case SupplyDiffers(supply, derived) =>
                   supply == b.supply && derived == b.wrapped - b.unwrapped && supply != derived
                 case _ => false
  {
  }

  /**
   * Causality implies backing: when wraps match the source events and unwraps
   * the releases, and the supply is what was wrapped less what was unwrapped,
   * the backing check on the summed totals is silent too. More is true: on
   * totals that X-2 and X-3 have matched, it is silent only then.
   */
  lemma CausalityImpliesBacking(wraps: seq<Entry>, sources: seq<Entry>, unwraps: seq<Entry>, releases: seq<Entry>,
                                supply: int, burned: int)
    requires Compare(wraps, sources) == [] && Compare(unwraps, releases) == []
    ensures var b := Backing(supply, Total(wraps), Total(unwraps), Total(sources) - burned, burned, Total(releases));
            CheckBacking(b) == [] <==> supply == Total(wraps) - Total(unwraps)
  {
    hide Compare, Total;
    CleanMeansEqualTotals(wraps, sources);
    CleanMeansEqualTotals(unwraps, releases);
  }

  // ---------------------------------------------------------------- the checker

  /** A JavaScript `Map`: entries in insertion order, looked up by key. */
  class InsertionMap {
    var entries: seq<Entry>
    var index: map<Key, int>

    constructor ()
      ensures entries == [] && index == map[]
    {
      entries, index := [], map[];
    }

    method Set(e: Entry)
      requires e.key !in index
      modifies this
      ensures entries == old(entries) + [e] && index == old(index)[e.key := e.amount]
    {
      entries := entries + [e];
      index := index[e.key := e.amount];
    }
  }

  /** Fill a map from a list, reporting every key met again. */
  method Fill(side: Side, es: seq<Entry>, m: InsertionMap) returns (violations: seq<Violation>)
    requires m.entries == [] && m.index == map[]
    modifies m
    ensures violations == Duplicates(side, es) && m.entries == Firsts(es) && m.index == AsMap(es)
  {
    violations := [];
    for i := 0 to |es|
      invariant violations == Duplicates(side, es[..i]) && m.entries == Firsts(es[..i]) && m.index == AsMap(es[..i])
    {
      assert es[..i + 1][..i] == es[..i];
      if es[i].key in m.index {
        violations := violations + [DuplicateKey(side, es[i].key)];
      } else {
        m.Set(es[i]);
      }
    }
    assert es[..|es|] == es;
  }

  /** The loop over the left map. */
  method ReportMismatches(leftMap: InsertionMap, rightMap: InsertionMap) returns (violations: seq<Violation>)
    ensures violations == Mismatches(leftMap.entries, rightMap.index)
  {
    violations := [];
    for i := 0 to |leftMap.entries|
      invariant violations == Mismatches(leftMap.entries[..i], rightMap.index)
    {
      assert leftMap.entries[..i + 1][..i] == leftMap.entries[..i];
      var e := leftMap.entries[i];
      if e.key !in rightMap.index {
        violations := violations + [Unmatched(Left, e.key)];
      } else if rightMap.index[e.key] != e.amount {
        violations := violations + [AmountDiffers(e.key, e.amount, rightMap.index[e.key])];
      }
    }
    assert leftMap.entries[..|leftMap.entries|] == leftMap.entries;
  }

  /** The loop over the keys of the right map. */
  method ReportMissing(rightMap: InsertionMap, leftMap: InsertionMap) returns (violations: seq<Violation>)
    ensures violations == Missing(rightMap.entries, leftMap.index)
  {
    violations := [];
    for i := 0 to |rightMap.entries|
      invariant violations == Missing(rightMap.entries[..i], leftMap.index)
    {
      assert rightMap.entries[..i + 1][..i] == rightMap.entries[..i];
      var e := rightMap.entries[i];
      if e.key !in leftMap.index {
        violations := violations + [Unmatched(Right, e.key)];
      }
    }
    assert rightMap.entries[..|rightMap.entries|] == rightMap.entries;
  }

  method CompareLedgers(left: seq<Entry>, right: seq<Entry>) returns (violations: seq<Violation>)
    ensures violations == Compare(left, right)
    ensures violations == [] <==> DistinctKeys(left) && DistinctKeys(right) && AsMap(left) == AsMap(right)
    ensures forall v :: v in violations <==> Holds(left, right, v)
  {
    hide Holds, Duplicates, Mismatches, Missing, Firsts, AsMap, DistinctKeys;
    var leftMap := new InsertionMap();
    var rightMap := new InsertionMap();
    var leftDuplicates := Fill(Left, left, leftMap);
    var rightDuplicates := Fill(Right, right, rightMap);
    var mismatches := ReportMismatches(leftMap, rightMap);
    var missing := ReportMissing(rightMap, leftMap);
    violations := leftDuplicates + rightDuplicates + mismatches + missing;
    CleanIffBijection(left, right);
    forall v ensures v in violations <==> Holds(left, right, v) {
      ViolationsSayWhatIsSo(left, right, v);
    }
  }

  method CheckX1Backing(b: Backing) returns (violations: seq<Violation>)
    ensures violations == CheckBacking(b)
    ensures violations == [] <==> b.supply == b.locked + b.burned - b.released == b.wrapped - b.unwrapped
  {
    violations := [];
    var backing := b.locked + b.burned - b.released;
    if b.supply != backing {
      violations := violations + [Unbacked(b.supply, backing)];
    }
    var derived := b.wrapped - b.unwrapped;
    if b.supply != derived {
      violations := violations + [SupplyDiffers(b.supply, derived)];
    }
  }
}
