/** The price oracle: the publisher list, the reports, and the aggregated price. */
module Oracle {
  import opened Host
  import opened Lists
  import opened Medians

  type Asset = nat

  /** Reports older than this many ledgers are stale, unless the asset allows more. */
  const DEFAULT_TTL: nat := 300
  /** Length of the array the prices are collected in. */
  const SLOTS: nat := 16
  const UNIT: int := 10_000_000

  datatype Config = Config(heartbeat: nat, minPublishers: nat)

  /** `publishers` is the stored list, `allowed` the whitelist flags. */
  datatype Feeds = Feeds(
    publishers: seq<Address>,
    allowed: set<Address>,
    configs: map<Asset, Config>,
    price: map<(Asset, Address), int>,
    updated: map<(Asset, Address), nat>)

  // ---------------------------------------------------------------- reports

  /** When `publisher` last reported, or 0. */
  function ReportedAt(o: Feeds, asset: Asset, publisher: Address): nat {
    if (asset, publisher) in o.updated then o.updated[(asset, publisher)] else 0
  }

  /** The price `publisher` contributes at `now`, or 0 when stale, missing or not positive. */
  function Report(o: Feeds, asset: Asset, publisher: Address, ttl: nat, now: nat): (r: int)
    ensures r > 0 <==> (asset, publisher) in o.price && o.price[(asset, publisher)] > 0
                       && now - ReportedAt(o, asset, publisher) <= ttl
    ensures r > 0 ==> r == o.price[(asset, publisher)]
    ensures r >= 0
  {
    var k := (asset, publisher);
    var at := ReportedAt(o, asset, publisher);
    if Max(now - at, 0) <= ttl && k in o.price && o.price[k] > 0 then o.price[k] else 0
  }

  /** The positive reports of a list of publishers, in its order. */
  function Reports(o: Feeds, asset: Asset, publishers: seq<Address>, ttl: nat, now: nat): (rs: seq<int>)
    ensures forall i :: 0 <= i < |rs| ==> rs[i] > 0
    ensures |rs| <= |publishers|
  {
    if publishers == [] then []
    else
      var front := Reports(o, asset, publishers[..|publishers| - 1], ttl, now);
      var p := Report(o, asset, publishers[|publishers| - 1], ttl, now);
      if p > 0 then front + [p] else front
  }

  lemma {:induction false} ReportsOfPrefix(o: Feeds, asset: Asset, publishers: seq<Address>, n: nat, ttl: nat, now: nat)
    requires n <= |publishers|
    ensures |Reports(o, asset, publishers[..n], ttl, now)| <= |Reports(o, asset, publishers, ttl, now)|
    decreases |publishers|
  {
    if n == |publishers| {
      assert publishers[..n] == publishers;
    } else {
      var front := publishers[..|publishers| - 1];
      assert front[..n] == publishers[..n];
      ReportsOfPrefix(o, asset, front, n, ttl, now);
    }
  }

  lemma NoReports(o: Feeds, asset: Asset, ttl: nat, now: nat)
    ensures Reports(o, asset, [], ttl, now) == []
  {
  }

  lemma ReportsStep(o: Feeds, asset: Asset, publishers: seq<Address>, i: nat, ttl: nat, now: nat)
    requires i < |publishers|
    ensures var front, p := Reports(o, asset, publishers[..i], ttl, now), Report(o, asset, publishers[i], ttl, now);
            Reports(o, asset, publishers[..i + 1], ttl, now) == if p > 0 then front + [p] else front
  {
    hide Report;
    assert publishers[..i + 1][..i] == publishers[..i];
  }

  /** `get_price`. A report beyond the sixteenth is out of the bounds of the price array. */
  function GetPrice(o: Feeds, asset: Asset, now: nat): (r: Result<int>)
    ensures r.Ok? ==> r.value > 0
  {
    if asset !in o.configs then Revert(AssetNotConfigured)
    else
      var cfg := o.configs[asset];
      var rs := Reports(o, asset, o.publishers, Max(cfg.heartbeat, DEFAULT_TTL), now);
      if |rs| > SLOTS then Revert(TooManyReports)
      else if |rs| < cfg.minPublishers then Revert(NotEnoughReports)
      else if rs == [] then Revert(Overflow)
      else
        MedianIsLowerMedian(rs);
        Ok(LowerMedian(rs))
  }

  /** The fresh positive reports for a configured asset. */
  function Aggregated(o: Feeds, asset: Asset, now: nat): seq<int>
    requires asset in o.configs
  {
    Reports(o, asset, o.publishers, Max(o.configs[asset].heartbeat, DEFAULT_TTL), now)
  }

  /** A price is answered for a configured asset with enough reports, at least one and at most sixteen. */
  predicate CanPrice(o: Feeds, asset: Asset, now: nat) {
    asset in o.configs
    && o.configs[asset].minPublishers <= |Aggregated(o, asset, now)| && 1 <= |Aggregated(o, asset, now)| <= 16
  }

  /** What the contract panics with otherwise; with no report at all the place of the median underflows. */
  function Unpriced(o: Feeds, asset: Asset, now: nat): Panic {
    if asset !in o.configs then AssetNotConfigured
    else if |Aggregated(o, asset, now)| > 16 then TooManyReports
    else if |Aggregated(o, asset, now)| < o.configs[asset].minPublishers then NotEnoughReports
    else Overflow
  }

  lemma PriceIsAnsweredIff(o: Feeds, asset: Asset, now: nat)
    ensures GetPrice(o, asset, now).Ok? <==> CanPrice(o, asset, now)
    ensures GetPrice(o, asset, now).Revert? ==> GetPrice(o, asset, now).why == Unpriced(o, asset, now)
  {
    hide Reports, LowerMedian;
  }

  /** Positions of a list whose publisher reports exactly `x`. */
  ghost function Reporting(o: Feeds, asset: Asset, publishers: seq<Address>, ttl: nat, now: nat, x: int): set<nat> {
    set i: nat | i < |publishers| && Report(o, asset, publishers[i], ttl, now) == x
  }

  lemma LastIsReporting(o: Feeds, asset: Asset, publishers: seq<Address>, ttl: nat, now: nat, x: int)
    requires publishers != []
    ensures var n := |publishers| - 1;
            |Reporting(o, asset, publishers, ttl, now, x)|
            == |Reporting(o, asset, publishers[..n], ttl, now, x)|
               + if Report(o, asset, publishers[n], ttl, now) == x then 1 else 0
  {
    hide Report;
    var n := |publishers| - 1;
    var before := Reporting(o, asset, publishers[..n], ttl, now, x);
    assert Reporting(o, asset, publishers, ttl, now, x)
        == if Report(o, asset, publishers[n], ttl, now) == x then before + {n} else before;
  }

  /** Every list entry with a report is counted, once: a positive value occurs as often as it is reported. */
  lemma {:induction false} ReportsAreCounted(o: Feeds, asset: Asset, publishers: seq<Address>, ttl: nat, now: nat,
                                             x: int)
    requires x > 0
    ensures multiset(Reports(o, asset, publishers, ttl, now))[x] == |Reporting(o, asset, publishers, ttl, now, x)|
    decreases |publishers|
  {
    hide Report, Reporting;
    if publishers != [] {
      ReportsAreCounted(o, asset, publishers[..|publishers| - 1], ttl, now, x);
      LastIsReporting(o, asset, publishers, ttl, now, x);
    } else {
      NobodyReports(o, asset, ttl, now, x);
    }
  }

  lemma NobodyReports(o: Feeds, asset: Asset, ttl: nat, now: nat, x: int)
    ensures Reporting(o, asset, [], ttl, now, x) == {}
  {
  }

  /** `value_of`: the value of `amount` in units of 10^-14 of a dollar. */
  function ValueOf(o: Feeds, asset: Asset, amount: int, now: nat): Result<int> {
    var price :- GetPrice(o, asset, now);
    var raw :- Checked(amount * price);
    Ok(Quot(raw, UNIT))
  }

  // ---------------------------------------------------------------- publisher list

  function IndexOf(list: seq<Address>, p: Address): (i: nat)
    ensures i <= |list|
    ensures forall k :: 0 <= k < i ==> list[k] != p
    ensures i < |list| ==> list[i] == p
  {
    if list == [] then 0
    else if list[0] == p then 0
    else 1 + IndexOf(list[1..], p)
  }

  /** Drop the first entry of `p`, moving the last entry into its place. */
  function SwapRemove(list: seq<Address>, p: Address): seq<Address> {
    var i, n := IndexOf(list, p), |list|;
    if i == n then list
    else list[i := list[n - 1]][..n - 1]
  }

  lemma MoveToFront(a: seq<Address>, x: Address, b: seq<Address>, y: Address)
    ensures multiset(a + [y] + b) == multiset(a + [x] + b + [y]) - multiset{x}
  {
    assert multiset(a + [y] + b) == multiset(a) + multiset{y} + multiset(b);
    assert multiset(a + [x] + b + [y]) == multiset(a) + multiset{x} + multiset(b) + multiset{y};
  }

  /** Writing the last entry over entry `i` and dropping it takes out entry `i`. */
  lemma OverwriteDrops(s: seq<Address>, i: nat)
    requires i < |s|
    ensures multiset(s[i := s[|s| - 1]][..|s| - 1]) == multiset(s) - multiset{s[i]}
  {
    var n := |s| - 1;
    if i == n {
      assert s == s[..n] + [s[n]];
      assert s[i := s[n]][..n] == s[..n];
    } else {
      assert s == s[..i] + [s[i]] + s[i + 1..n] + [s[n]];
      assert s[i := s[n]][..n] == s[..i] + [s[n]] + s[i + 1..n];
      MoveToFront(s[..i], s[i], s[i + 1..n], s[n]);
    }
  }

  /** Removing takes out exactly one entry of `p`, if there is one, and nothing else. */
  lemma SwapRemoveDropsOne(list: seq<Address>, p: Address)
    ensures multiset(SwapRemove(list, p)) == multiset(list) - multiset{p}
  {
    hide IndexOf;
    var i := IndexOf(list, p);
    if i < |list| {
      OverwriteDrops(list, i);
    } else {
      assert p !in multiset(list);
    }
  }

  lemma SwapRemoveKeepsDistinct(list: seq<Address>, p: Address)
    requires Distinct(list)
    ensures Distinct(SwapRemove(list, p)) && p !in SwapRemove(list, p)
  {
    var i, n := IndexOf(list, p), |list|;
    if i < n {
      var rest := list[i := list[n - 1]][..n - 1];
      forall k | 0 <= k < |rest| ensures rest[k] == list[if k == i then n - 1 else k] {
      }
    }
  }

  datatype ListCall = Add(publisher: Address) | Remove(publisher: Address)

  function ListStep(o: Feeds, c: ListCall): Feeds {
    match c
    case Add(p) => o.(allowed := o.allowed + {p}, publishers := o.publishers + [p])
    case Remove(p) => o.(allowed := o.allowed - {p}, publishers := SwapRemove(o.publishers, p))
  }

  function ListRun(o: Feeds, cs: seq<ListCall>): Feeds
    decreases cs
  {
    if cs == [] then o else ListRun(ListStep(o, cs[0]), cs[1..])
  }

  /** Nobody is added who is on the whitelist at that moment. */
  predicate NeverAddedTwice(o: Feeds, cs: seq<ListCall>)
    decreases cs
  {
    cs != [] ==> (cs[0].Add? ==> cs[0].publisher !in o.allowed) && NeverAddedTwice(ListStep(o, cs[0]), cs[1..])
  }

  ghost predicate ListOk(o: Feeds) {
    Distinct(o.publishers) && forall p :: p in o.publishers <==> p in o.allowed
  }

  lemma RemoveKeepsMembers(list: seq<Address>, p: Address, q: Address)
    requires Distinct(list)
    ensures q in SwapRemove(list, p) <==> q in list && q != p
  {
    SwapRemoveDropsOne(list, p);
    SwapRemoveKeepsDistinct(list, p);
    if q != p {
      assert q in multiset(SwapRemove(list, p)) <==> q in multiset(list);
    }
  }

  lemma ListStepOk(o: Feeds, c: ListCall)
    requires ListOk(o) && (c.Add? ==> c.publisher !in o.allowed)
    ensures ListOk(ListStep(o, c))
  {
    match c {
      case Add(p) =>
      case Remove(p) =>
        SwapRemoveKeepsDistinct(o.publishers, p);
        forall q ensures q in ListStep(o, c).publishers <==> q in ListStep(o, c).allowed {
          RemoveKeepsMembers(o.publishers, p, q);
        }
    }
  }

  lemma RemoveKeepsListOk(o: Feeds, p: Address)
    ensures ListOk(o) ==> ListOk(ListStep(o, Remove(p)))
  {
    if ListOk(o) {
      ListStepOk(o, Remove(p));
    }
  }

  /** In every run that adds nobody twice, the list is exactly the whitelist, each publisher once. */
  lemma {:induction false} ListIsTheWhitelist(o: Feeds, cs: seq<ListCall>)
    requires ListOk(o) && NeverAddedTwice(o, cs)
    ensures ListOk(ListRun(o, cs))
    decreases cs
  {
    if cs != [] {
      ListStepOk(o, cs[0]);
      ListIsTheWhitelist(ListStep(o, cs[0]), cs[1..]);
    }
  }

  /**
   * The condition is exact step by step: adding keeps the list free of duplicates if
   * and only if the publisher is new.
   */
  lemma AddKeepsDistinctIffNew(o: Feeds, p: Address)
    requires ListOk(o)
    ensures ListOk(ListStep(o, Add(p))) <==> p !in o.allowed
  {
    if p in o.allowed {
      var i :| 0 <= i < |o.publishers| && o.publishers[i] == p;
      var after := ListStep(o, Add(p)).publishers;
      assert after[i] == p && after[|o.publishers|] == p;
    } else {
      ListStepOk(o, Add(p));
    }
  }

  lemma LoneReport(o: Feeds, asset: Asset, p: Address, ttl: nat, now: nat)
    ensures var x := Report(o, asset, p, ttl, now);
            Reports(o, asset, [p], ttl, now) == if x > 0 then [x] else []
  {
    hide Report;
    var one := [p];
    assert one[..0] == [];
    assert Reports(o, asset, [], ttl, now) == [];
  }

  lemma LoneMedian(x: int)
    ensures LowerMedian([x]) == x
  {
    hide LowerMedian;
    MedianIsLowerMedian([x]);
  }

  /** A single listed publisher sets the price alone, where one report is enough. */
  lemma LonePublisherSetsThePrice(o: Feeds, asset: Asset, p: Address, now: nat)
    requires o.publishers == [p] && asset in o.configs && o.configs[asset].minPublishers <= 1
    requires Report(o, asset, p, Max(o.configs[asset].heartbeat, DEFAULT_TTL), now) > 0
    ensures GetPrice(o, asset, now) == Ok(Report(o, asset, p, Max(o.configs[asset].heartbeat, DEFAULT_TTL), now))
  {
    hide Report, Reports, LowerMedian;
    var ttl := Max(o.configs[asset].heartbeat, DEFAULT_TTL);
    LoneReport(o, asset, p, ttl, now);
    LoneMedian(Report(o, asset, p, ttl, now));
  }

  lemma ListRunOfThree(o: Feeds, a: ListCall, b: ListCall, c: ListCall)
    ensures ListRun(o, [a, b, c]) == ListStep(ListStep(ListStep(o, a), b), c)
  {
    hide ListStep;
    var cs := [a, b, c];
    assert cs[1..] == [b, c] && [b, c][1..] == [c] && [c][1..] == [];
    assert ListRun(ListStep(ListStep(o, a), b), [c]) == ListRun(ListStep(ListStep(ListStep(o, a), b), c), []);
    assert ListRun(ListStep(o, a), [b, c]) == ListRun(ListStep(ListStep(o, a), b), [c]);
  }

  lemma RemovedTwinIsListed(o: Feeds, p: Address)
    requires ListOk(o) && p !in o.allowed
    ensures var o' := ListRun(o, [Add(p), Add(p), Remove(p)]);
            && o' == o.(allowed := o'.allowed, publishers := o'.publishers)
            && p !in o'.allowed && p in o'.publishers
            && (o.publishers == [] ==> o'.publishers == [p])
  {
    hide IndexOf;
    ListRunOfThree(o, Add(p), Add(p), Remove(p));
    var twice := o.publishers + [p] + [p];
    var rest := SwapRemove(twice, p);
    assert ListRun(o, [Add(p), Add(p), Remove(p)]) == o.(allowed := o.allowed + {p} + {p} - {p}, publishers := rest);
    TwinSurvives(o.publishers, p);
  }

  lemma TwinSurvives(list: seq<Address>, p: Address)
    requires p !in list
    ensures SwapRemove(list + [p] + [p], p) == list + [p]
  {
    hide IndexOf;
    var twice, i := list + [p] + [p], IndexOf(list + [p] + [p], p);
    assert twice[|list|] == p && twice[|list| + 1] == p;
    assert i == |list|;
  }

  /**
   * Added twice and removed once, a publisher is off the whitelist and still on
   * the list: a fresh report of theirs is still aggregated, and where they are
   * alone it is still the price.
   */
  lemma {:induction false} RemovedTwinStillReports(o: Feeds, p: Address, asset: Asset, ttl: nat, now: nat)
    requires ListOk(o) && p !in o.allowed
    ensures var o' := ListRun(o, [Add(p), Add(p), Remove(p)]);
            && p !in o'.allowed
            && (Report(o, asset, p, ttl, now) > 0
                ==> Report(o, asset, p, ttl, now) in Reports(o', asset, o'.publishers, ttl, now))
            && (o.publishers == [] && asset in o.configs && o.configs[asset].minPublishers <= 1
                && ttl == Max(o.configs[asset].heartbeat, DEFAULT_TTL) && Report(o, asset, p, ttl, now) > 0
                ==> GetPrice(o', asset, now) == Ok(Report(o, asset, p, ttl, now)))
  {
    hide Reports, GetPrice, ListRun, ListOk;
    RemovedTwinIsListed(o, p);
    var o' := ListRun(o, [Add(p), Add(p), Remove(p)]);
    var x := Report(o, asset, p, ttl, now);
    assert Report(o', asset, p, ttl, now) == x;
    ReportsAreFresh(o', asset, o'.publishers, ttl, now, x);
    if o.publishers == [] && asset in o.configs && o.configs[asset].minPublishers <= 1
       && ttl == Max(o.configs[asset].heartbeat, DEFAULT_TTL) && x > 0 {
      LonePublisherSetsThePrice(o', asset, p, now);
    }
  }

  // ---------------------------------------------------------------- the contract

  function Swapped(s: seq<int>, i: nat, j: nat): seq<int>
    requires i < |s| && j < |s|
  {
    s[i := s[j]][j := s[i]]
  }

  /** The first `i` cells hold the least values, in order; cell `i` is no greater than the cells up to `j`. */
  ghost predicate SortedUpTo(s: seq<int>, i: nat, j: nat) {
    && (forall x, y :: 0 <= x < i && x < y < |s| ==> s[x] <= s[y])
    && (forall y :: i < y < j && y < |s| ==> s[i] <= s[y])
  }

  ghost predicate Rearranged(s: seq<int>, t: seq<int>) {
    multiset(s) == multiset(t)
  }

  lemma ExchangeKeeps(s: seq<int>, t: seq<int>, i: nat, j: nat)
    requires i < j < |s| && SortedUpTo(s, i, j) && Rearranged(s, t)
    ensures s[i] <= s[j] ==> SortedUpTo(s, i, j + 1)
    ensures s[i] > s[j] ==> SortedUpTo(Swapped(s, i, j), i, j + 1)
    ensures Rearranged(Swapped(s, i, j), t)
  {
  }

  lemma SortedEnds(s: seq<int>, i: nat)
    ensures i < |s| && SortedUpTo(s, i, |s|) ==> SortedUpTo(s, i + 1, i + 2)
    ensures SortedUpTo(s, |s|, |s| + 1) ==> Sorted(s)
    ensures SortedUpTo(s, 0, 1) && Rearranged(s, s)
  {
  }

  method Exchange(prices: array<int>, n: nat, i: nat, j: nat)
    requires i < n <= prices.Length && j < n
    modifies prices
    ensures prices[..n] == Swapped(old(prices[..n]), i, j)
  {
    prices[i], prices[j] := prices[j], prices[i];
  }

  /** The inner loop of the exchange sort: cell `i` ends with the least of the rest. */
  method SettleCell(prices: array<int>, n: nat, i: nat)
    requires i < n <= prices.Length && SortedUpTo(prices[..n], i, i + 1)
    modifies prices
    ensures SortedUpTo(prices[..n], i, n)
    ensures Rearranged(prices[..n], old(prices[..n]))
  {
    hide SortedUpTo, Rearranged, Swapped;
    SortedEnds(prices[..n], i);
    var j := i + 1;
    while j < n
      invariant i < j <= n
      invariant SortedUpTo(prices[..n], i, j)
      invariant Rearranged(prices[..n], old(prices[..n]))
    {
      ExchangeKeeps(prices[..n], old(prices[..n]), i, j);
      if prices[i] > prices[j] {
        Exchange(prices, n, i, j);
      }
      j := j + 1;
    }
  }

  /** Exchange sort of the first `n` cells, in place. */
  method SortPrices(prices: array<int>, n: nat)
    requires n <= prices.Length
    modifies prices
    ensures Sorted(prices[..n]) && multiset(prices[..n]) == multiset(old(prices[..n]))
  {
    hide SortedUpTo, Sorted;
    SortedEnds(prices[..n], 0);
    var i := 0;
    while i < n
      invariant 0 <= i <= n
      invariant SortedUpTo(prices[..n], i, i + 1)
      invariant multiset(prices[..n]) == multiset(old(prices[..n]))
    {
      SettleCell(prices, n, i);
      SortedEnds(prices[..n], i);
      i := i + 1;
    }
    SortedEnds(prices[..n], n);
  }

  class OracleContract {
    var publishers: seq<Address>
    var allowed: set<Address>
    var configs: map<Asset, Config>
    var price: map<(Asset, Address), int>
    var updated: map<(Asset, Address), nat>

    constructor ()
      ensures Storage() == Feeds([], {}, map[], map[], map[])
    {
      publishers, allowed, configs, price, updated := [], {}, map[], map[], map[];
    }

    function Storage(): Feeds
      reads this
    {
      Feeds(publishers, allowed, configs, price, updated)
    }

    method AddPublisher(publisher: Address)
      modifies this
      ensures Storage() == ListStep(old(Storage()), Add(publisher))
      ensures publisher in allowed && multiset(publishers) == multiset(old(publishers)) + multiset{publisher}
      ensures old(ListOk(Storage())) ==> (ListOk(Storage()) <==> publisher !in old(allowed))
    {
      if ListOk(Storage()) {
        AddKeepsDistinctIffNew(Storage(), publisher);
      }
      allowed := allowed + {publisher};
      publishers := publishers + [publisher];
    }

    method RemovePublisher(publisher: Address)
      modifies this
      ensures Storage() == ListStep(old(Storage()), Remove(publisher))
      ensures publisher !in allowed
      ensures old(ListOk(Storage())) ==> ListOk(Storage())
    {
      hide ListOk, IndexOf;
      RemoveKeepsListOk(Storage(), publisher);
      allowed := allowed - {publisher};
      var n := |publishers|;
      for i := 0 to n
        invariant publishers == old(publishers)
        invariant allowed == old(allowed) - {publisher}
        invariant configs == old(configs) && price == old(price) && updated == old(updated)
        invariant forall k :: 0 <= k < i ==> publishers[k] != publisher
      {
        if publishers[i] == publisher {
          assert IndexOf(publishers, publisher) == i;
          if i < n - 1 {
            publishers := publishers[i := publishers[n - 1]];
          }
          publishers := publishers[..n - 1];
          assert publishers == SwapRemove(old(publishers), publisher);
          return;
        }
      }
    }

    method SetPrice(publisher: Address, asset: Asset, reported: int, now: nat) returns (r: Result<int>)
      modifies this
      ensures r == if publisher !in old(allowed) then Revert(NotAPublisher)
                   else if reported <= 0 then Revert(AmountNotPositive) else Ok(0)
      ensures Storage() == if r.Revert? then old(Storage())
                           else old(Storage()).(price := old(price)[(asset, publisher) := reported],
                                                updated := old(updated)[(asset, publisher) := now])
    {
      if publisher !in allowed {
        return Revert(NotAPublisher);
      }
      if reported <= 0 {
        return Revert(AmountNotPositive);
      }
      price := price[(asset, publisher) := reported];
      updated := updated[(asset, publisher) := now];
      return Ok(0);
    }

    /** The first loop of `collect_median`: fill the array with the fresh positive reports. */
    method Collect(asset: Asset, ttl: nat, now: nat, prices: array<int>) returns (count: Option<nat>)
      requires prices.Length == SLOTS
      modifies prices
      ensures count.None? <==> |Reports(Storage(), asset, publishers, ttl, now)| > SLOTS
      ensures count.Some? ==> count.value <= SLOTS
                              && prices[..count.value] == Reports(Storage(), asset, publishers, ttl, now)
    {
      hide Report, Reports;
      assert publishers[..0] == [];
      NoReports(Storage(), asset, ttl, now);
      var n := 0;
      for i := 0 to |publishers|
        invariant 0 <= n <= SLOTS
        invariant prices[..n] == Reports(Storage(), asset, publishers[..i], ttl, now)
      {
        ReportsStep(Storage(), asset, publishers, i, ttl, now);
        var p := Report(Storage(), asset, publishers[i], ttl, now);
        if p > 0 {
          if n == SLOTS {
            ReportsOfPrefix(Storage(), asset, publishers, i + 1, ttl, now);
            return None;
          }
          ghost var got := prices[..n];
          prices[n] := p;
          n := n + 1;
          assert prices[..n] == got + [p];
        }
      }
      assert publishers[..|publishers|] == publishers;
      return Some(n);
    }

    /** `get_price` with its `collect_median`: fill the array, sort it in place, take the lower middle. */
    method ReadPrice(asset: Asset, now: nat) returns (r: Result<int>)
      ensures r == GetPrice(Storage(), asset, now)
      ensures r.Ok? <==> CanPrice(Storage(), asset, now)
      ensures r.Revert? ==> r.why == Unpriced(Storage(), asset, now)
    {
      PriceIsAnsweredIff(Storage(), asset, now);
      hide Reports, Report, Sort;
      if asset !in configs {
        return Revert(AssetNotConfigured);
      }
      var ttl := Max(configs[asset].heartbeat, DEFAULT_TTL);
      var prices := new int[SLOTS](_ => 0);
      var collected := Collect(asset, ttl, now, prices);
      if collected.None? {
        return Revert(TooManyReports);
      }
      var count := collected.value;
      if count < configs[asset].minPublishers {
        return Revert(NotEnoughReports);
      }
      if count == 0 {
        return Revert(Overflow);
      }
      ghost var all := prices[..count];
      SortPrices(prices, count);
      SortedIsUnique(prices[..count], Sort(all));
      assert prices[..count][(count - 1) / 2] == LowerMedian(all);
      return Ok(prices[(count - 1) / 2]);
    }
  }

  /** The price is the lower median of exactly the fresh positive reports of the listed publishers. */
  lemma PriceIsTheLowerMedian(o: Feeds, asset: Asset, now: nat)
    requires GetPrice(o, asset, now).Ok?
    ensures IsLowerMedian(Reports(o, asset, o.publishers, Max(o.configs[asset].heartbeat, DEFAULT_TTL), now),
                          GetPrice(o, asset, now).value)
  {
    MedianIsLowerMedian(Reports(o, asset, o.publishers, Max(o.configs[asset].heartbeat, DEFAULT_TTL), now));
  }

  /** A report is among those aggregated exactly when a listed publisher's stored price is fresh and equal to it. */
  lemma {:induction false} ReportsAreFresh(o: Feeds, asset: Asset, publishers: seq<Address>, ttl: nat, now: nat, x: int)
    ensures x in Reports(o, asset, publishers, ttl, now)
            <==> x > 0 && exists p :: p in publishers && Report(o, asset, p, ttl, now) == x
    decreases publishers
  {
    if publishers != [] {
      var n := |publishers| - 1;
      ReportsAreFresh(o, asset, publishers[..n], ttl, now, x);
      assert publishers == publishers[..n] + [publishers[n]];
    }
  }

  /**
   * As long as at most `(n - 1) / 2` of the `n` aggregated reports are arbitrary,
   * the price lies within the range of the others.
   */
  lemma PriceWithinHonestRange(o: Feeds, asset: Asset, now: nat, bad: set<nat>, lo: int, hi: int)
    requires GetPrice(o, asset, now).Ok?
    requires var rs := Reports(o, asset, o.publishers, Max(o.configs[asset].heartbeat, DEFAULT_TTL), now);
             |Among(bad, |rs|)| <= (|rs| - 1) / 2 && forall i: nat :: i < |rs| && i !in bad ==> lo <= rs[i] <= hi
    ensures lo <= GetPrice(o, asset, now).value <= hi
  {
    HonestMajorityBoundsMedian(Reports(o, asset, o.publishers, Max(o.configs[asset].heartbeat, DEFAULT_TTL), now), bad,
                               lo, hi);
  }

  /** A published price counts until its age exceeds the time to live, and not a ledger longer. */
  lemma ReportLivesItsTtl(o: Feeds, asset: Asset, p: Address, reported: int, at: nat, ttl: nat, now: nat)
    requires reported > 0 && at <= now
    requires (asset, p) in o.price && o.price[(asset, p)] == reported
    requires (asset, p) in o.updated && o.updated[(asset, p)] == at
    ensures Report(o, asset, p, ttl, now) == if now <= at + ttl then reported else 0
  {
  }
}
