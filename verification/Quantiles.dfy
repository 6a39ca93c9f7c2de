/**
 The merged distribution and what it reports: the rank walk over the bucket counts,
 clamped into the exact extremes, against the sorted observations themselves.
 */
module Quantiles {
  import opened Histogram
  import opened Integers

  datatype Merged = Merged(counts: seq<nat>, n: nat, sum: nat, min: int, max: int, under: nat, over: nat)

  datatype Latency = Latency(count: nat, min: int, p50: int, p95: int, p99: int, max: int, mean: int)

  // ---------------------------------------------------------------- the distribution a list of observations has

  /** How many observations f puts in bucket b. */
  function CountIn(obs: seq<int>, b: nat, f: int -> int): nat {
    if |obs| == 0 then 0
    else CountIn(obs[..|obs| - 1], b, f) + (if f(obs[|obs| - 1]) == b then 1 else 0)
  }

  /** How many it puts below bucket b. */
  function CountBelow(obs: seq<int>, b: nat, f: int -> int): (r: nat)
    ensures r <= |obs|
  {
    if |obs| == 0 then 0
    else CountBelow(obs[..|obs| - 1], b, f) + (if f(obs[|obs| - 1]) < b then 1 else 0)
  }

  function Total(obs: seq<int>): int {
    if |obs| == 0 then 0 else Total(obs[..|obs| - 1]) + obs[|obs| - 1]
  }

  ghost predicate Durations(obs: seq<int>) {
    forall k :: 0 <= k < |obs| ==> 0 <= obs[k]
  }

  ghost predicate IsLeast(obs: seq<int>, v: int) {
    v in obs && forall k :: 0 <= k < |obs| ==> v <= obs[k]
  }

  ghost predicate IsGreatest(obs: seq<int>, v: int) {
    v in obs && forall k :: 0 <= k < |obs| ==> obs[k] <= v
  }

  /** m is the sequential histogram of the observations: exact counts, extremes, and sum modulo 2^64. */
  ghost predicate Summarizes(m: Merged, obs: seq<int>) {
    && Durations(obs)
    && |m.counts| == BUCKETS && (forall b :: 0 <= b < BUCKETS ==> m.counts[b] == CountIn(obs, b, BucketOf))
    && m.n == |obs| && m.sum == Wrap(Total(obs))
    && (|obs| > 0 ==> IsLeast(obs, m.min) && IsGreatest(obs, m.max))
    && m.under == CountIn(obs, UNDERFLOW, BucketOf) && m.over == CountIn(obs, OVERFLOW, BucketOf)
  }

  // ---------------------------------------------------------------- the walk

  function Sum(counts: seq<nat>): nat {
    if |counts| == 0 then 0 else Sum(counts[..|counts| - 1]) + counts[|counts| - 1]
  }

  /** The first bucket at which the running total reaches the rank, or the number of buckets. */
  function BucketFor(counts: seq<nat>, rank: nat): (i: nat)
    ensures i <= |counts|
    ensures rank >= 1 ==> Sum(counts[..i]) < rank
    ensures i < |counts| ==> rank <= Sum(counts[..i + 1])
  {
    if |counts| == 0 then 0 else
    var n := |counts| - 1;
    var i := BucketFor(counts[..n], rank);
    assert counts[..n][..i] == counts[..i];
    assert i < n ==> counts[..n][..i + 1] == counts[..i + 1];
    assert counts[..n + 1] == counts;
    if i < n then i else if rank <= Sum(counts) then n else n + 1
  }

  function Clamp(v: int, min: int, max: int): int {
    var w := if v < min then min else v;
    if w > max then max else w
  }

  /** What the walk reports for a rank. */
  function Report(m: Merged, rank: nat): int {
    var i := BucketFor(m.counts, rank);
    if m.n == 0 then 0
    else if i < |m.counts| then Clamp(BucketEstimate(i), m.min, m.max)
    else m.max
  }

  /** max(1, ceil(q * n)) for q = num / den. */
  function Rank(n: nat, num: nat, den: nat): (r: int)
    requires den > 0
  {
    var r := (num * n + den - 1) / den;
    if r < 1 then 1 else r
  }

  method Quantile(m: Merged, num: nat, den: nat) returns (v: int)
    requires den > 0 && |m.counts| == BUCKETS
    ensures Rank(m.n, num, den) >= 1 && v == Report(m, Rank(m.n, num, den))
  {
    if m.n == 0 { return 0; }
    var rank := Rank(m.n, num, den);
    var cumulative, i := 0, 0;
    while i < |m.counts|
      invariant 0 <= i <= |m.counts|
      invariant cumulative == Sum(m.counts[..i]) < rank
    {
      cumulative := cumulative + m.counts[i];
      assert m.counts[..i + 1][..i] == m.counts[..i];
      if cumulative >= rank {
        BucketForIs(m.counts, rank, i);
        v := BucketEstimate(i);
        if v < m.min { v := m.min; }
        if v > m.max { v := m.max; }
        return;
      }
      i := i + 1;
    }
    BucketForIs(m.counts, rank, i);
    return m.max;
  }

  lemma BucketForIs(counts: seq<nat>, rank: nat, i: nat)
    requires rank >= 1 && i <= |counts| && Sum(counts[..i]) < rank
    requires i < |counts| ==> rank <= Sum(counts[..i + 1])
    ensures BucketFor(counts, rank) == i
  {
    var j := BucketFor(counts, rank);
    if i < j { SumGrows(counts, i + 1, j); } else if j < i { SumGrows(counts, j + 1, i); }
  }

  lemma {:induction false} SumGrows(counts: seq<nat>, i: nat, j: nat)
    ensures i <= j <= |counts| ==> Sum(counts[..i]) <= Sum(counts[..j])
    decreases j
  {
    if i < j <= |counts| {
      assert counts[..j][..j - 1] == counts[..j - 1];
      SumGrows(counts, i, j - 1);
    }
  }

  // ---------------------------------------------------------------- the rank's bucket is the true observation's

  /** The observations in ascending order. */
  ghost predicate IsSorting(sorted: seq<int>, obs: seq<int>) {
    multiset(sorted) == multiset(obs) && forall j, k :: 0 <= j <= k < |sorted| ==> sorted[j] <= sorted[k]
  }

  lemma {:induction false} BelowNext(obs: seq<int>, b: nat, f: int -> int)
    ensures CountBelow(obs, b + 1, f) == CountBelow(obs, b, f) + CountIn(obs, b, f)
  {
    if |obs| > 0 { BelowNext(obs[..|obs| - 1], b, f); }
  }

  lemma {:induction false} NoneBelowZero(obs: seq<int>, f: int -> int)
    requires forall k :: 0 <= k < |obs| ==> 0 <= f(obs[k])
    ensures CountBelow(obs, 0, f) == 0
  {
    if |obs| > 0 { NoneBelowZero(obs[..|obs| - 1], f); }
  }

  /** Running totals of the bucket counts. */
  lemma {:induction false} SumIsBelow(counts: seq<nat>, obs: seq<int>, b: nat, f: int -> int)
    requires b <= |counts| && (forall i :: 0 <= i < |counts| ==> counts[i] == CountIn(obs, i, f))
    requires forall k :: 0 <= k < |obs| ==> 0 <= f(obs[k])
    ensures Sum(counts[..b]) == CountBelow(obs, b, f)
    decreases b
  {
    if b == 0 {
      NoneBelowZero(obs, f);
    } else {
      assert counts[..b][..b - 1] == counts[..b - 1];
      SumIsBelow(counts, obs, b - 1, f);
      BelowNext(obs, b - 1, f);
    }
  }

  lemma {:induction false} BelowWithout(obs: seq<int>, k: nat, b: nat, f: int -> int)
    requires k < |obs|
    ensures CountBelow(obs, b, f) == CountBelow(obs[..k] + obs[k + 1..], b, f) + (if f(obs[k]) < b then 1 else 0)
    decreases |obs|
  {
    var n := |obs| - 1;
    var rest := obs[..k] + obs[k + 1..];
    if k == n {
      assert rest == obs[..n];
    } else {
      assert rest[..n - 1] == obs[..n][..k] + obs[..n][k + 1..];
      assert rest[n - 1] == obs[n];
      BelowWithout(obs[..n], k, b, f);
    }
  }

  lemma MultisetWithout(s: seq<int>, k: nat)
    requires k < |s|
    ensures multiset(s[..k] + s[k + 1..]) == multiset(s) - multiset{s[k]}
  {
    assert s == s[..k] + [s[k]] + s[k + 1..];
  }

  /** The counts do not depend on the order. */
  lemma {:induction false} BelowPermuted(s: seq<int>, t: seq<int>, b: nat, f: int -> int)
    requires multiset(s) == multiset(t)
    ensures CountBelow(s, b, f) == CountBelow(t, b, f)
    decreases |s|
  {
    if |s| == 0 {
      assert |t| == |multiset(s)|;
    } else {
      var n := |s| - 1;
      assert s[n] in multiset(t);
      var k :| 0 <= k < |t| && t[k] == s[n];
      assert s[..n] == s[..n] + s[n + 1..];
      MultisetWithout(s, n);
      MultisetWithout(t, k);
      BelowPermuted(s[..n], t[..k] + t[k + 1..], b, f);
      BelowWithout(t, k, b, f);
    }
  }

  lemma {:induction false} AllBelow(s: seq<int>, b: nat, f: int -> int)
    requires forall k :: 0 <= k < |s| ==> f(s[k]) < b
    ensures CountBelow(s, b, f) == |s|
  {
    if |s| > 0 { AllBelow(s[..|s| - 1], b, f); }
  }

  /** The buckets of a list ascend along it. */
  ghost predicate BucketsAscend(s: seq<int>, f: int -> int) {
    forall j, k :: 0 <= j <= k < |s| ==> f(s[j]) <= f(s[k])
  }

  /** In sorted order the observations below a bucket come first. */
  lemma {:induction false} BelowIsPrefix(s: seq<int>, k: nat, b: nat, f: int -> int)
    requires BucketsAscend(s, f) && k < |s|
    ensures k < CountBelow(s, b, f) <==> f(s[k]) < b
    decreases |s|
  {
    var n := |s| - 1;
    if f(s[n]) < b {
      AllBelow(s, b, f);
    } else if k < n {
      BelowIsPrefix(s[..n], k, b, f);
    }
  }

  /** For any bucketing that ascends along the sorted list, the walk stops at the rank-th observation's bucket. */
  lemma WalkStops(counts: seq<nat>, obs: seq<int>, sorted: seq<int>, rank: nat, f: int -> int)
    requires multiset(sorted) == multiset(obs) && BucketsAscend(sorted, f) && 1 <= rank <= |sorted|
    requires forall i :: 0 <= i < |counts| ==> counts[i] == CountIn(obs, i, f)
    requires forall k :: 0 <= k < |obs| ==> 0 <= f(obs[k])
    requires 0 <= f(sorted[rank - 1]) < |counts|
    ensures BucketFor(counts, rank) == f(sorted[rank - 1])
  {
    var b := f(sorted[rank - 1]);
    SumIsBelow(counts, obs, b, f);
    SumIsBelow(counts, obs, b + 1, f);
    BelowPermuted(sorted, obs, b, f);
    BelowPermuted(sorted, obs, b + 1, f);
    BelowIsPrefix(sorted, rank - 1, b, f);
    BelowIsPrefix(sorted, rank - 1, b + 1, f);
    BucketForIs(counts, rank, b);
  }

  lemma SortingKeeps(m: Merged, obs: seq<int>, sorted: seq<int>)
    requires Summarizes(m, obs) && IsSorting(sorted, obs)
    ensures |sorted| == |obs| && Durations(sorted)
    ensures forall k :: 0 <= k < |sorted| ==> m.min <= sorted[k] <= m.max
  {
    assert |sorted| == |multiset(sorted)| && |obs| == |multiset(obs)|;
    forall k | 0 <= k < |sorted| ensures 0 <= sorted[k] && m.min <= sorted[k] <= m.max {
      assert sorted[k] in multiset(obs);
    }
  }

  /** The walk stops at exactly the bucket that holds the true rank-th observation. */
  lemma WalkFindsBucket(m: Merged, obs: seq<int>, sorted: seq<int>, rank: nat)
    requires Summarizes(m, obs) && IsSorting(sorted, obs) && 1 <= rank <= |sorted|
    ensures 0 <= sorted[rank - 1] && BucketFor(m.counts, rank) == BucketOf(sorted[rank - 1]) < BUCKETS
  {
    SortingKeeps(m, obs, sorted);
    forall j, k | 0 <= j <= k < |sorted| ensures BucketOf(sorted[j]) <= BucketOf(sorted[k]) {
      BucketMonotone(sorted[j], sorted[k]);
    }
    forall k | 0 <= k < |obs| ensures 0 <= BucketOf(obs[k]) { BucketMonotone(obs[k], obs[k]); }
    BucketMonotone(sorted[rank - 1], sorted[rank - 1]);
    WalkStops(m.counts, obs, sorted, rank, BucketOf);
  }

  /** Clamping keeps the report in the bucket and never takes it further from the truth. */
  lemma ClampHelps(i: nat, est: int, v: int, min: int, max: int)
    requires Holds(i, est) && Holds(i, v) && min <= v <= max
    ensures var r := Clamp(est, min, max);
      Holds(i, r) && min <= r <= max && Distance(r, v) <= Distance(est, v)
  {
  }

  /** r reports the true observation v: in its bucket and within the extremes, no further from it than the
      bucket's estimate, and within 159/1024 of it, relatively, when it is in range. */
  ghost predicate Reports(m: Merged, v: int, r: int) {
    && 0 <= v && 0 <= BucketOf(v) <= OVERFLOW && Holds(BucketOf(v), r) && m.min <= r <= m.max
    && Distance(r, v) <= Distance(BucketEstimate(BucketOf(v)), v)
    && (RANGE_LO <= v < RANGE_HI ==> 1024 * Distance(r, v) <= 159 * v)
  }

  /** For every set of observations and every rank, the report is of the true rank-th observation. */
  lemma QuantileAccurate(m: Merged, obs: seq<int>, sorted: seq<int>, rank: nat)
    requires Summarizes(m, obs) && IsSorting(sorted, obs) && 1 <= rank <= |sorted|
    ensures Reports(m, sorted[rank - 1], Report(m, rank))
  {
    SortingKeeps(m, obs, sorted);
    WalkFindsBucket(m, obs, sorted, rank);
    var v := sorted[rank - 1];
    var b := BucketOf(v);
    BucketHolds(v, b);
    EstimateHeld(b);
    ClampHelps(b, BucketEstimate(b), v, m.min, m.max);
    if RANGE_LO <= v < RANGE_HI {
      var e, sub := BucketAt(v);
      BoundsAt(e, sub);
      ErrorWithin(b, v);
    }
  }

  /** The report is the clamped estimate of the true observation's own bucket. */
  lemma ReportIs(m: Merged, obs: seq<int>, sorted: seq<int>, rank: nat, v: int)
    requires Summarizes(m, obs) && IsSorting(sorted, obs) && 1 <= rank <= |sorted| && v == sorted[rank - 1]
    ensures 0 <= v && 0 <= BucketOf(v) <= OVERFLOW
    ensures Report(m, rank) == Clamp(BucketEstimate(BucketOf(v)), m.min, m.max)
  {
    SortingKeeps(m, obs, sorted);
    WalkFindsBucket(m, obs, sorted, rank);
  }

  /** A report is exact exactly when its observation is its bucket's estimate, or the least with the estimate
      below it, or the greatest with the estimate above it. */
  lemma ReportExactIff(m: Merged, obs: seq<int>, sorted: seq<int>, rank: nat)
    requires Summarizes(m, obs) && IsSorting(sorted, obs) && 1 <= rank <= |sorted|
    ensures
      var v := sorted[rank - 1];
      && 0 <= v && 0 <= BucketOf(v) <= OVERFLOW
      && var e := BucketEstimate(BucketOf(v));
         Report(m, rank) == v <==> e == v || (e < v && IsLeast(obs, v)) || (v < e && IsGreatest(obs, v))
  {
    ReportIs(m, obs, sorted, rank, sorted[rank - 1]);
    SortingKeeps(m, obs, sorted);
    assert sorted[rank - 1] in multiset(obs);
  }

  /** Every observation is in bucket b. */
  ghost predicate InOneBucket(obs: seq<int>, b: int) {
    forall k :: 0 <= k < |obs| ==> BucketOf(obs[k]) == b
  }

  ghost predicate AllExact(m: Merged, sorted: seq<int>) {
    forall rank :: 1 <= rank <= |sorted| ==> Report(m, rank) == sorted[rank - 1]
  }

  /** A distribution inside one bucket is reported exactly at every rank if and only if its observations are all
      equal. */
  lemma OneBucketExactIff(m: Merged, obs: seq<int>, sorted: seq<int>, b: int)
    requires Summarizes(m, obs) && IsSorting(sorted, obs) && |obs| > 0 && InOneBucket(obs, b)
    ensures AllExact(m, sorted) <==> m.min == m.max
  {
    SortingKeeps(m, obs, sorted);
    var n := |sorted|;
    EndsOfSorting(m, obs, sorted);
    ReportExactIff(m, obs, sorted, 1);
    ReportExactIff(m, obs, sorted, n);
    if m.min == m.max {
      forall rank | 1 <= rank <= n ensures Report(m, rank) == sorted[rank - 1] {
        ReportExactIff(m, obs, sorted, rank);
      }
    }
  }

  lemma FirstBucketHolds(v: int)
    requires 1024 <= v < 1366
    ensures BucketOf(v) == 1
  {
    FirstBuckets(1);
    FirstBuckets(2);
    BucketHolds(v, BucketOf(v));
    if BucketOf(v) > 1 { LoGrows(2, BucketOf(v)); }
  }

  lemma MedianOfTwo(n: nat)
    requires n == 2
    ensures Rank(n, 50, 100) == 1
  {
  }

  lemma ExtremesOfTwo(m: Merged, low: int, high: int)
    requires low <= high && Summarizes(m, [low, high])
    ensures m.n == 2 && m.min == low && m.max == high && IsSorting([low, high], [low, high])
  {
    assert [low, high][0] == low && [low, high][1] == high;
  }

  /** Observations of 1024 and 1300 share a bucket, and their median is reported as 1183. */
  lemma SharedBucketInexact(m: Merged, low: int, high: int, bucket: nat)
    requires low == 1024 && high == 1300 && bucket == 1 && Summarizes(m, [low, high])
    ensures InOneBucket([low, high], bucket)
    ensures Rank(m.n, 50, 100) == 1 && Report(m, Rank(m.n, 50, 100)) == 1183
  {
    ExtremesOfTwo(m, low, high);
    MedianOfTwo(m.n);
    FirstBucketHolds(low);
    FirstBucketHolds(high);
    FirstBuckets(bucket);
    var sorted, rank: nat := [low, high], Rank(m.n, 50, 100);
    assert sorted[rank - 1] == low;
    ReportIs(m, [low, high], sorted, rank, low);
  }

  lemma EndsOfSorting(m: Merged, obs: seq<int>, sorted: seq<int>)
    requires Summarizes(m, obs) && IsSorting(sorted, obs) && |obs| > 0 && |sorted| == |obs|
    ensures sorted[0] == m.min && sorted[|sorted| - 1] == m.max
    ensures forall k :: 0 <= k < |sorted| ==> sorted[k] in obs
  {
    SortingKeeps(m, obs, sorted);
    forall k | 0 <= k < |sorted| ensures sorted[k] in obs { assert sorted[k] in multiset(obs); }
    assert m.min in multiset(sorted) && m.max in multiset(sorted);
    var i :| 0 <= i < |sorted| && sorted[i] == m.min;
    var j :| 0 <= j < |sorted| && sorted[j] == m.max;
  }

  /** The rank is the true ceiling, and for a quantile at most one it is the rank of some observation. */
  lemma RankIsCeiling(n: nat, num: nat, den: nat)
    requires den > 0 && n > 0
    ensures
      var r := Rank(n, num, den);
      && r >= 1 && num * n <= r * den && (r > 1 ==> (r - 1) * den < num * n)
      && (num <= den ==> r <= n)
  {
    var x := num * n + den - 1;
    var q := x / den;
    assert x == den * q + x % den;
    assert den * q == q * den && (q - 1) * den == q * den - den;
    if num <= den {
      ProductGrows(num, den, n, n);
      if q > n { ProductGrows(den, den, n + 1, q); }
    }
  }

  lemma EstimateGrows(i: nat, j: nat)
    requires i <= j <= OVERFLOW
    ensures BucketEstimate(i) <= BucketEstimate(j)
  {
    EstimateHeld(i);
    EstimateHeld(j);
    LoGrows(i, j);
  }

  /** A higher rank never reports less, and every report of a non-empty distribution is within the extremes. */
  lemma ReportGrows(m: Merged, r: nat, s: nat)
    requires |m.counts| == BUCKETS && 1 <= r <= s && (m.n > 0 ==> m.min <= m.max)
    ensures Report(m, r) <= Report(m, s)
    ensures m.n > 0 ==> m.min <= Report(m, r) <= m.max
  {
    var i, j := BucketFor(m.counts, r), BucketFor(m.counts, s);
    if j < i { SumGrows(m.counts, j + 1, i); }
    if j < BUCKETS { EstimateGrows(i, j); }
  }

  method LatencyOf(m: Merged) returns (l: Latency)
    requires |m.counts| == BUCKETS
    ensures m.n == 0 ==> l == Latency(0, 0, 0, 0, 0, 0, 0)
    ensures m.n > 0 ==>
      && l.count == m.n && l.min == m.min && l.max == m.max && l.mean == m.sum / m.n
      && l.p50 == Report(m, Rank(m.n, 50, 100)) && l.p95 == Report(m, Rank(m.n, 95, 100))
      && l.p99 == Report(m, Rank(m.n, 99, 100))
    ensures m.n > 0 && m.min <= m.max ==> l.min <= l.p50 <= l.p95 <= l.p99 <= l.max
  {
    if m.n == 0 { return Latency(0, 0, 0, 0, 0, 0, 0); }
    var p50 := Quantile(m, 50, 100);
    var p95 := Quantile(m, 95, 100);
    var p99 := Quantile(m, 99, 100);
    if m.min <= m.max {
      ReportGrows(m, Rank(m.n, 50, 100), Rank(m.n, 95, 100));
      ReportGrows(m, Rank(m.n, 95, 100), Rank(m.n, 99, 100));
      ReportGrows(m, Rank(m.n, 99, 100), Rank(m.n, 99, 100));
    }
    return Latency(m.n, m.min, p50, p95, p99, m.max, m.sum / m.n);
  }

  /** Every quantile the report prints is of the true observation of its rank. */
  lemma LatencyAccurate(m: Merged, obs: seq<int>, sorted: seq<int>, num: nat, den: nat)
    requires Summarizes(m, obs) && IsSorting(sorted, obs) && |obs| > 0 && 0 < den && num <= den
    ensures |sorted| == |obs| && 1 <= Rank(|obs|, num, den) <= |obs|
    ensures Reports(m, sorted[Rank(|obs|, num, den) - 1], Report(m, Rank(|obs|, num, den)))
  {
    RankIsCeiling(|obs|, num, den);
    SortingKeeps(m, obs, sorted);
    QuantileAccurate(m, obs, sorted, Rank(|obs|, num, den));
  }
}
