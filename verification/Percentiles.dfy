/** Latency summaries: nearest-rank percentiles of a list of durations. Percentiles are exact real numbers. */
module Percentiles {
  import opened Sequences
  import opened Sorting

  predicate Ascending(a: nat, b: nat) {
    a <= b
  }

  function Ceiling(x: real): int {
    -((-x).Floor)
  }

  function Clamped(p: real): real {
    if p < 0.0 then 0.0 else if p > 1.0 then 1.0 else p
  }

  /** The nearest rank, counted from one: the least that covers a share `p` of `n` values, and at least one. */
  function Rank(p: real, n: nat): (r: nat)
    requires n > 0
    ensures 1 <= r <= n
    ensures r as real >= Clamped(p) * n as real && (r == 1 || (r - 1) as real < Clamped(p) * n as real)
  {
    RankRange(Clamped(p), n);
    var rank := Ceiling(Clamped(p) * n as real);
    if rank < 1 then 1 else rank
  }

  lemma RankRange(p: real, n: nat)
    requires 0.0 <= p <= 1.0
    ensures 0.0 <= p * n as real <= n as real
  {
  }

  function PercentileNearestRank(sorted: seq<nat>, p: real): nat {
    if sorted == [] then 0
    else
      RankRange(Clamped(p), |sorted|);
      var rank := Ceiling(Clamped(p) * |sorted| as real);
      var below := if rank > 1 then rank - 1 else 0;
      sorted[if below < |sorted| - 1 then below else |sorted| - 1]
  }

  datatype Summary = Summary(min: nat, mean: real, p50: nat, p95: nat, p99: nat, max: nat)

  function Sum(xs: seq<nat>): nat {
    if xs == [] then 0 else Sum(xs[..|xs| - 1]) + xs[|xs| - 1]
  }

  function Summarized(values: seq<nat>): Summary {
    if values == [] then Summary(0, 0.0, 0, 0, 0, 0)
    else
      var sorted := Sort(Ascending, values);
      Summary(sorted[0], Sum(sorted) as real / |sorted| as real,
              PercentileNearestRank(sorted, 0.50), PercentileNearestRank(sorted, 0.95), PercentileNearestRank(sorted, 0.99),
              sorted[|sorted| - 1])
  }

  method LatencySummary(values: seq<nat>) returns (s: Summary)
    ensures s == Summarized(values)
  {
    if values == [] {
      return Summary(0, 0.0, 0, 0, 0, 0);
    }
    var sorted := Sort(Ascending, values);
    var sum := 0;
    for i := 0 to |sorted|
      invariant sum == Sum(sorted[..i])
    {
      assert sorted[..i + 1][..i] == sorted[..i];
      sum := sum + sorted[i];
    }
    TakeAll(sorted);
    return Summary(sorted[0], sum as real / |sorted| as real,
                   PercentileNearestRank(sorted, 0.50), PercentileNearestRank(sorted, 0.95),
                   PercentileNearestRank(sorted, 0.99), sorted[|sorted| - 1]);
  }

  // ---------- what a percentile means ----------

  function AtMost(xs: seq<nat>, v: nat): nat {
    if xs == [] then 0 else (if xs[0] <= v then 1 else 0) + AtMost(xs[1..], v)
  }

  function AtLeast(xs: seq<nat>, v: nat): nat {
    if xs == [] then 0 else (if xs[0] >= v then 1 else 0) + AtLeast(xs[1..], v)
  }

  /** Counting a value among those no larger, or no smaller, than another. */
  lemma CountsAre(xs: seq<nat>, x: nat, v: nat)
    ensures AtMost([], v) == 0 && AtMost([x] + xs, v) == AtMost(xs, v) + if x <= v then 1 else 0
    ensures AtLeast([], v) == 0 && AtLeast([x] + xs, v) == AtLeast(xs, v) + if v <= x then 1 else 0
  {
    assert ([x] + xs)[1..] == xs;
  }

  lemma {:induction false} InsertCounts(x: nat, xs: seq<nat>, v: nat)
    ensures AtMost(Insert(Ascending, x, xs), v) == AtMost([x] + xs, v)
    ensures AtLeast(Insert(Ascending, x, xs), v) == AtLeast([x] + xs, v)
  {
    assert ([x] + xs)[1..] == xs;
    if xs != [] && !Ascending(x, xs[0]) {
      InsertCounts(x, xs[1..], v);
      assert ([x] + xs[1..])[1..] == xs[1..];
    }
  }

  lemma {:induction false} SortCounts(xs: seq<nat>, v: nat)
    ensures AtMost(Sort(Ascending, xs), v) == AtMost(xs, v)
    ensures AtLeast(Sort(Ascending, xs), v) == AtLeast(xs, v)
  {
    if xs != [] {
      SortCounts(xs[1..], v);
      InsertCounts(xs[0], Sort(Ascending, xs[1..]), v);
      assert ([xs[0]] + Sort(Ascending, xs[1..]))[1..] == Sort(Ascending, xs[1..]);
    }
  }

  lemma {:induction false} CountsAt(xs: seq<nat>, i: nat)
    requires Sorted(Ascending, xs) && i < |xs|
    ensures AtMost(xs, xs[i]) >= i + 1 && AtLeast(xs, xs[i]) >= |xs| - i
  {
    if i > 0 {
      CountsAt(xs[1..], i - 1);
      assert Ascending(xs[0], xs[i]);
    } else {
      AllAtLeast(xs, xs[0]);
    }
  }

  lemma {:induction false} AllAtLeast(xs: seq<nat>, v: nat)
    requires forall i | 0 <= i < |xs| :: xs[i] >= v
    ensures AtLeast(xs, v) == |xs|
  {
    if xs != [] {
      AllAtLeast(xs[1..], v);
    }
  }

  lemma PercentileIsAtRank(sorted: seq<nat>, p: real)
    requires sorted != []
    ensures PercentileNearestRank(sorted, p) == sorted[Rank(p, |sorted|) - 1]
  {
  }

  lemma {:induction false} RankMonotone(p: real, q: real, n: nat)
    requires n > 0 && p <= q
    ensures Rank(p, n) <= Rank(q, n)
  {
    ScaleMonotone(Clamped(p), Clamped(q), n as real);
    CeilingMonotone(Clamped(p) * n as real, Clamped(q) * n as real);
  }

  lemma ScaleMonotone(a: real, b: real, k: real)
    requires a <= b && k >= 0.0
    ensures a * k <= b * k
  {
  }

  lemma CeilingMonotone(x: real, y: real)
    requires x <= y
    ensures Ceiling(x) <= Ceiling(y)
  {
  }

  /**
   The nearest-rank percentile of any non-empty list is one of its values, at least r of the values are no larger and at
   least n - r + 1 are no smaller, where r is the least rank that covers the share p.
   */
  lemma {:induction false} PercentileMeaning(values: seq<nat>, p: real)
    requires values != []
    ensures var v, n := PercentileNearestRank(Sort(Ascending, values), p), |values|;
            v in values && AtMost(values, v) >= Rank(p, n) && AtLeast(values, v) >= n - Rank(p, n) + 1
  {
    var sorted, r := Sort(Ascending, values), Rank(p, |values|);
    SortSorts(Ascending, values);
    PercentileIsAtRank(sorted, p);
    CountsAt(sorted, r - 1);
    SortCounts(values, sorted[r - 1]);
    SortMember(Ascending, values, sorted[r - 1]);
  }

  lemma {:induction false} PercentileMonotone(sorted: seq<nat>, p: real, q: real)
    requires Sorted(Ascending, sorted) && sorted != [] && p <= q
    ensures sorted[0] <= PercentileNearestRank(sorted, p) <= PercentileNearestRank(sorted, q) <= sorted[|sorted| - 1]
  {
    PercentileIsAtRank(sorted, p);
    PercentileIsAtRank(sorted, q);
    RankMonotone(p, q, |sorted|);
    assert forall a, b | 0 <= a <= b < |sorted| :: a == b || Ascending(sorted[a], sorted[b]);
  }

  /** min <= p50 <= p95 <= p99 <= max, where min and max bound every value. */
  lemma {:induction false} SummaryOrdered(values: seq<nat>)
    requires values != []
    ensures var s := Summarized(values); s.min <= s.p50 <= s.p95 <= s.p99 <= s.max
    ensures var s := Summarized(values);
            s.min in values && s.max in values && forall v | v in values :: s.min <= v <= s.max
  {
    var sorted := Sort(Ascending, values);
    SortSorts(Ascending, values);
    PercentileMonotone(sorted, 0.50, 0.95);
    PercentileMonotone(sorted, 0.95, 0.99);
    SortMember(Ascending, values, sorted[0]);
    SortMember(Ascending, values, sorted[|sorted| - 1]);
    forall v | v in values ensures sorted[0] <= v <= sorted[|sorted| - 1] {
      SortMember(Ascending, values, v);
      var i :| 0 <= i < |sorted| && sorted[i] == v;
      assert i == 0 || Ascending(sorted[0], sorted[i]);
      assert i == |sorted| - 1 || Ascending(sorted[i], sorted[|sorted| - 1]);
    }
  }

  /** The summary does not depend on the order in which the durations were listed. */
  lemma SummaryForgetsOrder(values: seq<nat>, others: seq<nat>)
    requires multiset(values) == multiset(others)
    ensures Summarized(values) == Summarized(others)
  {
    SortPermutes(Ascending, values);
    SortPermutes(Ascending, others);
    SortSorts(Ascending, values);
    SortSorts(Ascending, others);
    SortedUnique(Ascending, Sort(Ascending, values), Sort(Ascending, others));
    assert |values| == |multiset(values)| == |multiset(others)| == |others|;
  }

  /** The least rank that covers a share of the list. */
  lemma RankIs(p: real, n: nat)
    requires n > 0 && 0.0 <= p <= 1.0
    ensures Rank(p, n) as real >= p * n as real
    ensures Rank(p, n) == 1 || (Rank(p, n) - 1) as real < p * n as real
    ensures 1 <= Rank(p, n) <= n
  {
  }

  /** The mean is the sum of the durations by their number. */
  lemma MeanIs(values: seq<nat>)
    requires values != []
    ensures Summarized(values).mean == Sum(Sort(Ascending, values)) as real / |values| as real
    ensures multiset(Sort(Ascending, values)) == multiset(values)
  {
    SortPermutes(Ascending, values);
  }

  /** The percentiles of a summary are those of the shares 50, 95 and 99 in a hundred, its ends the first and the last. */
  lemma SharesAre(values: seq<nat>)
    ensures values == [] ==> Summarized(values) == Summary(0, 0.0, 0, 0, 0, 0)
    ensures values != [] ==>
      var s, sorted := Summarized(values), Sort(Ascending, values);
      && s.p50 == PercentileNearestRank(sorted, 0.50) && s.p95 == PercentileNearestRank(sorted, 0.95)
      && s.p99 == PercentileNearestRank(sorted, 0.99) && s.min == sorted[0] && s.max == sorted[|sorted| - 1]
  {
  }

  /** The sum of a list with one more value. */
  lemma SumIs(values: seq<nat>, v: nat)
    ensures Sum([]) == 0 && Sum(values + [v]) == Sum(values) + v
  {
    assert (values + [v])[..|values|] == values;
  }
}
