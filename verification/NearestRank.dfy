/** Latency distributions: nearest-rank percentiles over a sorted copy of the
    samples, in integer arithmetic. */
module NearestRank {
  import opened Prelude

  datatype Distribution = Distribution(p50: u64, p95: u64, p99: u64, max: u64)

  datatype Emptiness = NoSettledSamples

  function Insert(x: u64, s: seq<u64>): seq<u64> {
    if s == [] || x <= s[0] then [x] + s else [s[0]] + Insert(x, s[1..])
  }

  /** The library's sort; on words every sorting order is the same sequence. */
  function Sort(s: seq<u64>): seq<u64> {
    if s == [] then [] else Insert(s[0], Sort(s[1..]))
  }

  predicate Sorted(s: seq<u64>) {
    forall i, j :: 0 <= i < j < |s| ==> s[i] <= s[j]
  }

  /** How many samples are at most v. */
  function CountAtMost(s: seq<u64>, v: int): nat {
    if s == [] then 0 else (if s[0] <= v then 1 else 0) + CountAtMost(s[1..], v)
  }

  function RankIndex(n: nat, percent: nat): nat
    requires n > 0 && 1 <= percent <= 100
    ensures RankIndex(n, percent) < n
  {
    (n * percent + 99) / 100 - 1
  }

  function Percentile(values: seq<u64>, percent: nat): u64
    requires values != [] && 1 <= percent <= 100
  {
    SortKeeps(values);
    Sort(values)[RankIndex(|values|, percent)]
  }

  function Distribute(values: seq<u64>): Result<Distribution, Emptiness> {
    if values == [] then Failure(NoSettledSamples)
    else
      SortKeeps(values);
      Success(Distribution(Percentile(values, 50), Percentile(values, 95), Percentile(values, 99),
                           Sort(values)[|values| - 1]))
  }

  // ---- sorting ----

  lemma {:induction false} InsertContents(x: u64, s: seq<u64>)
    ensures |Insert(x, s)| == |s| + 1
    ensures multiset(Insert(x, s)) == multiset(s) + multiset{x}
  {
    if s != [] && s[0] < x {
      InsertContents(x, s[1..]);
      assert s == [s[0]] + s[1..];
    }
  }

  lemma {:induction false} InsertCounts(x: u64, s: seq<u64>, v: int)
    ensures CountAtMost(Insert(x, s), v) == CountAtMost(s, v) + (if x <= v then 1 else 0)
  {
    if s != [] && s[0] < x {
      InsertCounts(x, s[1..], v);
    } else {
      assert Insert(x, s)[1..] == s;
    }
  }

  lemma {:induction false} InsertSorted(x: u64, s: seq<u64>)
    requires Sorted(s)
    ensures Sorted(Insert(x, s))
  {
    if s != [] && s[0] < x {
      InsertSorted(x, s[1..]);
      InsertContents(x, s[1..]);
      var tail := Insert(x, s[1..]);
      forall k | 0 <= k < |tail| ensures s[0] <= tail[k] {
        assert tail[k] in multiset(tail);
      }
    }
  }

  lemma {:induction false} SortContents(s: seq<u64>)
    ensures |Sort(s)| == |s| && multiset(Sort(s)) == multiset(s)
  {
    if s == [] {
    } else {
      SortContents(s[1..]);
      InsertContents(s[0], Sort(s[1..]));
      assert s == [s[0]] + s[1..];
    }
  }

  lemma {:induction false} SortKeeps(s: seq<u64>)
    ensures Sorted(Sort(s)) && |Sort(s)| == |s| && multiset(Sort(s)) == multiset(s)
  {
    SortContents(s);
    if s == [] {
    } else {
      SortKeeps(s[1..]);
      InsertSorted(s[0], Sort(s[1..]));
    }
  }

  lemma {:induction false} SortCounts(s: seq<u64>, v: int)
    ensures CountAtMost(Sort(s), v) == CountAtMost(s, v)
  {
    if s == [] {
    } else {
      SortCounts(s[1..], v);
      InsertCounts(s[0], Sort(s[1..]), v);
    }
  }

  lemma SameLength(a: seq<u64>, b: seq<u64>)
    requires multiset(a) == multiset(b)
    ensures |a| == |b|
  {
    assert |a| == |multiset(a)| == |multiset(b)| == |b|;
  }

  lemma HeadIsLeast(s: seq<u64>, x: u64)
    requires Sorted(s) && x in multiset(s)
    ensures s[0] <= x
  {
    assert x in s;
  }

  lemma DropHead(s: seq<u64>)
    requires s != []
    ensures multiset(s[1..]) == multiset(s) - multiset{s[0]}
    ensures s[0] in multiset(s)
  {
    assert s == [s[0]] + s[1..];
  }

  lemma SortedHeadsAgree(a: seq<u64>, b: seq<u64>)
    requires Sorted(a) && Sorted(b) && multiset(a) == multiset(b) && a != [] && b != []
    ensures a[0] == b[0] && multiset(a[1..]) == multiset(b[1..])
  {
    DropHead(a);
    DropHead(b);
    HeadIsLeast(b, a[0]);
    HeadIsLeast(a, b[0]);
  }

  /** A sorted sequence is determined by what it contains. */
  lemma {:induction false} SortedUnique(a: seq<u64>, b: seq<u64>)
    requires Sorted(a) && Sorted(b) && multiset(a) == multiset(b)
    ensures a == b
    decreases |a|
  {
    SameLength(a, b);
    if a != [] {
      SortedHeadsAgree(a, b);
      SortedUnique(a[1..], b[1..]);
    }
  }

  // ---- ranks ----

  lemma {:induction false} CountAboveRank(s: seq<u64>, k: nat, v: int)
    requires Sorted(s) && k < |s|
    ensures s[k] > v ==> CountAtMost(s, v) <= k
    ensures s[k] <= v ==> CountAtMost(s, v) >= k + 1
  {
    if k > 0 {
      CountAboveRank(s[1..], k - 1, v);
    } else if s[0] > v {
      NoneAtMost(s, v);
    }
  }

  lemma {:induction false} NoneAtMost(s: seq<u64>, v: int)
    requires forall i :: 0 <= i < |s| ==> s[i] > v
    ensures CountAtMost(s, v) == 0
  {
    if s == [] {
    } else {
      NoneAtMost(s[1..], v);
    }
  }

  lemma {:induction false} CountMonotone(s: seq<u64>, v: int, w: int)
    requires v <= w
    ensures CountAtMost(s, v) <= CountAtMost(s, w)
  {
    if s == [] {
    } else {
      CountMonotone(s[1..], v, w);
    }
  }

  lemma RankIndexBounds(n: nat, percent: nat)
    requires n > 0 && 1 <= percent <= 100
    ensures RankIndex(n, percent) * 100 < n * percent <= (RankIndex(n, percent) + 1) * 100
  {
  }

  /** Nearest rank, by its own definition: v occurs, at least percent% of the
      samples are at most v, and fewer than percent% are below it. */
  predicate IsNearestRank(values: seq<u64>, percent: nat, v: u64) {
    && v in values
    && CountAtMost(values, v) * 100 >= |values| * percent
    && CountAtMost(values, v - 1) * 100 < |values| * percent
  }

  lemma PercentileQualifies(values: seq<u64>, percent: nat)
    requires values != [] && 1 <= percent <= 100
    ensures IsNearestRank(values, percent, Percentile(values, percent))
  {
    SortKeeps(values);
    var sorted, k := Sort(values), RankIndex(|values|, percent);
    RankIndexBounds(|values|, percent);
    var rank: int := sorted[k];
    CountAboveRank(sorted, k, rank);
    CountAboveRank(sorted, k, rank - 1);
    SortCounts(values, rank);
    SortCounts(values, rank - 1);
    assert sorted[k] in multiset(values);
  }

  lemma NearestRankNotAbove(values: seq<u64>, percent: nat, v: u64, w: u64)
    requires IsNearestRank(values, percent, v) && IsNearestRank(values, percent, w)
    ensures v <= w
  {
    if w < v { CountMonotone(values, w, v - 1); }
  }

  /** The percentile is the one and only nearest-rank value. */
  lemma PercentileIsNearestRank(values: seq<u64>, percent: nat, v: u64)
    requires values != [] && 1 <= percent <= 100
    ensures IsNearestRank(values, percent, v) <==> v == Percentile(values, percent)
  {
    PercentileQualifies(values, percent);
    if IsNearestRank(values, percent, v) {
      NearestRankNotAbove(values, percent, v, Percentile(values, percent));
      NearestRankNotAbove(values, percent, Percentile(values, percent), v);
    }
  }

  lemma RanksOrdered(n: nat)
    requires n > 0
    ensures RankIndex(n, 50) <= RankIndex(n, 95) <= RankIndex(n, 99) <= n - 1
  {
  }

  /** The percentiles are ordered and the maximum is never hidden. */
  lemma DistributionOrdered(values: seq<u64>)
    requires values != []
    ensures var d := Distribute(values).value;
      && d.p50 <= d.p95 <= d.p99 <= d.max && d.max in values
      && forall i :: 0 <= i < |values| ==> values[i] <= d.max
  {
    var sorted := Sort(values);
    SortKeeps(values);
    LastIsGreatest(values, sorted);
    RanksOrdered(|values|);
  }

  lemma LastIsGreatest(values: seq<u64>, sorted: seq<u64>)
    requires values != [] && Sorted(sorted) && |sorted| == |values| && multiset(sorted) == multiset(values)
    ensures sorted[|sorted| - 1] in values
    ensures forall i :: 0 <= i < |values| ==> values[i] <= sorted[|sorted| - 1]
  {
    assert sorted[|sorted| - 1] in multiset(values);
    forall i | 0 <= i < |values| ensures values[i] <= sorted[|sorted| - 1] {
      assert values[i] in multiset(sorted);
    }
  }

  predicate IsGreatest(values: seq<u64>, v: u64) {
    v in values && forall i :: 0 <= i < |values| ==> values[i] <= v
  }

  /** What a distribution says about its samples, by definition. */
  predicate IsDistribution(values: seq<u64>, d: Distribution) {
    && IsNearestRank(values, 50, d.p50) && IsNearestRank(values, 95, d.p95) && IsNearestRank(values, 99, d.p99)
    && IsGreatest(values, d.max)
  }

  /** Samples have a distribution exactly when there are any, and only one. */
  lemma DistributeIff(values: seq<u64>, d: Distribution)
    ensures Distribute(values) == Success(d) <==> IsDistribution(values, d)
  {
    if values != [] {
      PercentileIsNearestRank(values, 50, d.p50);
      PercentileIsNearestRank(values, 95, d.p95);
      PercentileIsNearestRank(values, 99, d.p99);
      DistributionOrdered(values);
    }
  }

  lemma DistributionUnique(values: seq<u64>, a: Distribution, b: Distribution)
    requires IsDistribution(values, a) && IsDistribution(values, b)
    ensures a == b
  {
    DistributeIff(values, a);
    DistributeIff(values, b);
  }

  /** Only the multiset of samples matters, never their order. */
  lemma DistributionOrderFree(a: seq<u64>, b: seq<u64>)
    requires multiset(a) == multiset(b)
    ensures Distribute(a) == Distribute(b)
  {
    SortKeeps(a);
    SortKeeps(b);
    SortedUnique(Sort(a), Sort(b));
    SameLength(a, b);
  }

  lemma {:induction false} CountLipschitz(a: seq<u64>, b: seq<u64>, slack: nat, v: int)
    requires |a| == |b| && forall i :: 0 <= i < |a| ==> b[i] <= a[i] + slack
    ensures CountAtMost(a, v) <= CountAtMost(b, v + slack)
  {
    if a == [] {
    } else {
      CountLipschitz(a[1..], b[1..], slack, v);
    }
  }

  /** Order statistics are 1-Lipschitz: raising every sample by at most `slack`
      raises every percentile by at most `slack`. */
  lemma PercentileLipschitz(a: seq<u64>, b: seq<u64>, slack: nat, percent: nat)
    requires |a| == |b| > 0 && 1 <= percent <= 100
    requires forall i :: 0 <= i < |a| ==> b[i] <= a[i] + slack
    ensures Percentile(b, percent) <= Percentile(a, percent) + slack
  {
    SortKeeps(a);
    SortKeeps(b);
    var k := RankIndex(|a|, percent);
    var v := Percentile(a, percent);
    CountAboveRank(Sort(a), k, v);
    SortCounts(a, v);
    SortCounts(b, v + slack);
    CountLipschitz(a, b, slack, v);
    CountAboveRank(Sort(b), k, v + slack);
  }
}
