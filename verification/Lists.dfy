/** Sequences as lists of distinct entries, and as rising points in time. */
module Lists {

  predicate Distinct<T(==)>(s: seq<T>) {
    forall i, j :: 0 <= i < j < |s| ==> s[i] != s[j]
  }

  function Elements<T>(s: seq<T>): set<T> {
    set x | x in s
  }

  lemma {:induction false} DistinctCount<T>(s: seq<T>)
    requires Distinct(s)
    ensures |Elements(s)| == |s|
    decreases s
  {
    if s != [] {
      var n := |s| - 1;
      DistinctCount(s[..n]);
      assert Elements(s) == Elements(s[..n]) + {s[n]};
      assert s[n] !in Elements(s[..n]);
    }
  }

  lemma FirstOccurrencesAreDistinct<T>(s: seq<T>)
    ensures Distinct(s) <==> forall i :: 0 <= i < |s| ==> s[i] !in s[..i]
  {
    if Distinct(s) {
      forall i | 0 <= i < |s| ensures s[i] !in s[..i] {
        assert forall k :: 0 <= k < i ==> s[..i][k] == s[k];
      }
    } else {
      var i, j :| 0 <= i < j < |s| && s[i] == s[j];
      assert s[..j][i] == s[i];
    }
  }

  /** Ledgers that do not go back, all within an interval. */
  ghost predicate Ascending(from: nat, ledgers: seq<nat>, to: nat)
    decreases ledgers
  {
    if ledgers == [] then from <= to
    else from <= ledgers[0] && Ascending(ledgers[0], ledgers[1..], to)
  }

  lemma {:induction false} AscendingEnds(from: nat, ledgers: seq<nat>, to: nat)
    requires Ascending(from, ledgers, to)
    ensures from <= to
    decreases ledgers
  {
    if ledgers != [] {
      AscendingEnds(ledgers[0], ledgers[1..], to);
    }
  }
}
