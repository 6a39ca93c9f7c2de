/**
 The latency histogram's geometry: integer base-2 octaves cut into ceil-rounded thirds,
 one estimate per bucket, and its worst relative error. Durations are nanoseconds.
 */
module Histogram {

  /** Three sub-buckets per octave, octaves MIN_EXP up to MAX_EXP, and one bucket at each end. */
  const MIN_EXP: nat := 10
  const MAX_EXP: nat := 37
  const RANGE_LO: int := 1024
  const RANGE_HI: int := 0x20_0000_0000
  const BUCKETS: nat := 83
  const UNDERFLOW: nat := 0
  const OVERFLOW: nat := 82
  const MAX_INT64: int := 0x7fff_ffff_ffff_ffff

  // ---------------------------------------------------------------- geometry

  function Pow2(e: nat): (r: nat)
    ensures r >= 1
  {
    if e == 0 then 1 else 2 * Pow2(e - 1)
  }

  /** bits.Len64(n) - 1. */
  function Octave(n: nat): (e: nat)
    requires n >= 1
    ensures Pow2(e) <= n < 2 * Pow2(e)
  {
    if n == 1 then 0 else 1 + Octave(n / 2)
  }

  lemma {:induction false} Pow2Grows(d: nat, e: nat)
    requires d <= e
    ensures Pow2(d) <= Pow2(e)
    ensures d < e ==> 2 * Pow2(d) <= Pow2(e)
    decreases e
  {
    if d < e { Pow2Grows(d, e - 1); }
  }

  function BucketOf(ns: int): int {
    if ns < RANGE_LO then UNDERFLOW
    else if ns >= RANGE_HI then OVERFLOW
    else
      var e := Octave(ns);
      Index(e, Shr((ns - Pow2(e)) * 3, e))
  }

  function Index(e: nat, sub: int): int {
    1 + (e - MIN_EXP) * 3 + sub
  }

  /** x >> e. */
  function Shr(x: int, e: nat): int
    decreases e
  {
    if e == 0 then x else Shr(x / 2, e - 1)
  }

  /** (base * sub + 2) / 3 for the sub-bucket edges 0..3, its products written out; see SubOffsetIs. */
  function SubOffset(base: nat, sub: nat): int
    requires sub <= 3
  {
    match sub
    case 0 => 0
    case 1 => (base + 2) / 3
    case 2 => (2 * base + 2) / 3
    case _ => base
  }

  lemma SubOffsetIs(base: nat, sub: nat)
    requires sub <= 3
    ensures SubOffset(base, sub) == (base * sub + 2) / 3
  {
  }

  function Edge(e: nat, sub: nat): int
    requires sub <= 3
  {
    Pow2(e) + SubOffset(Pow2(e), sub)
  }

  function Lo(i: nat): int {
    if i == UNDERFLOW then 0
    else if i >= OVERFLOW then RANGE_HI
    else Edge(MIN_EXP + (i - 1) / 3, (i - 1) % 3)
  }

  function Hi(i: nat): int {
    if i == UNDERFLOW then RANGE_LO
    else if i >= OVERFLOW then MAX_INT64
    else Edge(MIN_EXP + (i - 1) / 3, (i - 1) % 3 + 1)
  }

  /** In the bucket's declared bounds; the overflow bucket has no upper bound. */
  predicate Holds(i: nat, ns: int) {
    Lo(i) <= ns && (ns < Hi(i) || i == OVERFLOW)
  }

  lemma {:induction false} ShrAtLeast(x: int, e: nat, s: nat)
    ensures s * Pow2(e) <= x <==> s <= Shr(x, e)
    decreases e
  {
    if e > 0 {
      ShrAtLeast(x / 2, e - 1, s);
      assert s * Pow2(e) == 2 * (s * Pow2(e - 1));
    }
  }

  /** A sub-bucket starts at the first integer the shift puts in it: bucketOf and subOffset agree. */
  lemma SubEdges(e: nat, ns: int)
    requires Pow2(e) <= ns < 2 * Pow2(e)
    ensures
      var sub := Shr((ns - Pow2(e)) * 3, e);
      0 <= sub <= 2 && Edge(e, sub) <= ns < Edge(e, sub + 1)
  {
    var x := (ns - Pow2(e)) * 3;
    ShrAtLeast(x, e, 0);
    ShrAtLeast(x, e, 1);
    ShrAtLeast(x, e, 2);
    ShrAtLeast(x, e, 3);
  }

  lemma RangeEnds()
    ensures Pow2(MIN_EXP) == RANGE_LO && Pow2(MAX_EXP) == RANGE_HI
  {
    assert Pow2(15) == 0x8000;
    assert Pow2(20) == 0x10_0000;
    assert Pow2(25) == 0x200_0000;
    assert Pow2(30) == 0x4000_0000;
    assert Pow2(35) == 0x8_0000_0000;
  }

  lemma OctaveInRange(ns: int)
    requires RANGE_LO <= ns < RANGE_HI
    ensures MIN_EXP <= Octave(ns) < MAX_EXP
  {
    RangeEnds();
    var e := Octave(ns);
    if e < MIN_EXP { Pow2Grows(e, MIN_EXP); }
    if e >= MAX_EXP { Pow2Grows(MAX_EXP, e); }
  }

  lemma BoundsAt(e: nat, sub: int)
    requires MIN_EXP <= e < MAX_EXP && 0 <= sub <= 2
    ensures
      var i := Index(e, sub);
      1 <= i < OVERFLOW && Lo(i) == Edge(e, sub) && Hi(i) == Edge(e, sub + 1)
  {
  }

  lemma EdgesHold(e: nat, sub: int, ns: int)
    requires MIN_EXP <= e < MAX_EXP && 0 <= sub <= 2 && Edge(e, sub) <= ns < Edge(e, sub + 1)
    ensures 1 <= Index(e, sub) < OVERFLOW && Holds(Index(e, sub), ns)
  {
  }

  lemma BucketAt(ns: int) returns (e: nat, sub: nat)
    requires RANGE_LO <= ns < RANGE_HI
    ensures BucketOf(ns) == Index(e, sub) && MIN_EXP <= e < MAX_EXP && sub <= 2
    ensures Edge(e, sub) <= ns < Edge(e, sub + 1)
  {
    OctaveInRange(ns);
    e := Octave(ns);
    SubEdges(e, ns);
    sub := Shr((ns - Pow2(e)) * 3, e);
  }

  lemma BucketHolds(ns: int, i: int)
    requires 0 <= ns && i == BucketOf(ns)
    ensures 0 <= i <= OVERFLOW && Holds(i, ns)
  {
    if RANGE_LO <= ns < RANGE_HI {
      var e, sub := BucketAt(ns);
      EdgesHold(e, sub, ns);
    }
  }

  lemma EdgesMeet(e: nat, sub: nat)
    requires MIN_EXP <= e && sub <= 2
    ensures Edge(e, 3) == Edge(e + 1, 0) && Edge(e + 1, 0) == Pow2(e + 1) && Edge(e, sub) < Edge(e, sub + 1)
  {
    Pow2Grows(2, e);
  }

  lemma NextBucket(e: nat, sub: nat)
    requires MIN_EXP <= e < MAX_EXP && sub <= 2
    ensures Lo(Index(e, sub) + 1) == Edge(e, sub + 1)
  {
    if sub < 2 {
      BoundsAt(e, sub + 1);
    } else {
      EdgesMeet(e, sub);
      if e + 1 < MAX_EXP { BoundsAt(e + 1, 0); } else { RangeEnds(); }
    }
  }

  /** Consecutive buckets meet, with no gap and no overlap. */
  lemma BucketsMeet(i: nat)
    requires i < OVERFLOW
    ensures Lo(i + 1) == Hi(i) && Lo(i) < Hi(i)
  {
    if i == 0 {
      RangeEnds();
      BoundsAt(MIN_EXP, 0);
      assert Edge(MIN_EXP, 0) == Pow2(MIN_EXP);
    } else {
      var e, sub := MIN_EXP + (i - 1) / 3, (i - 1) % 3;
      assert i == Index(e, sub);
      BoundsAt(e, sub);
      EdgesMeet(e, sub);
      NextBucket(e, sub);
    }
  }

  lemma {:induction false} LoGrows(i: nat, j: nat)
    requires i <= j <= OVERFLOW
    ensures Lo(i) <= Lo(j)
    ensures i < j ==> Hi(i) <= Lo(j)
    decreases j
  {
    if i < j {
      BucketsMeet(j - 1);
      if i < j - 1 { LoGrows(i, j - 1); }
    }
  }

  /** bucketOf and bucketBounds agree: the buckets partition the durations, and each duration's bucket is
      the one whose bounds hold it. */
  lemma PartitionIff(i: nat, ns: int)
    requires 0 <= ns && i <= OVERFLOW
    ensures BucketOf(ns) == i <==> Holds(i, ns)
  {
    var j := BucketOf(ns);
    BucketHolds(ns, j);
    if i < j { LoGrows(i, j); } else if j < i { LoGrows(j, i); }
  }

  lemma BucketMonotone(a: int, b: int)
    requires 0 <= a <= b
    ensures 0 <= BucketOf(a) <= BucketOf(b) <= OVERFLOW
  {
    BucketHolds(a, BucketOf(a));
    BucketHolds(b, BucketOf(b));
    if BucketOf(b) < BucketOf(a) { LoGrows(BucketOf(b), BucketOf(a)); }
  }

  // ---------------------------------------------------------------- estimates

  /** r is the integer nearest the square root of n; a root is never halfway between two integers. */
  predicate IsNearestRoot(n: int, r: int) {
    r * (r - 1) < n <= r * (r + 1)
  }

  function NearestRoot(n: nat): (r: nat)
    ensures n >= 1 ==> IsNearestRoot(n, r)
  {
    if n == 0 then 0 else RootFrom(n, 1)
  }

  /** The nearest root, searched upward from r. */
  function RootFrom(n: nat, r: nat): (s: nat)
    requires r >= 1 && r * (r - 1) < n
    ensures IsNearestRoot(n, s)
    decreases n - r
  {
    if n <= r * (r + 1) then r else RootFrom(n, r + 1)
  }

  /** The geometric mean of the bounds; an unbounded bucket reports its finite edge. */
  function BucketEstimate(i: nat): int {
    if i == UNDERFLOW then Hi(i) - 1
    else if i >= OVERFLOW then Lo(i)
    else NearestRoot(if Lo(i) <= 0 || Hi(i) <= 0 then 0 else Lo(i) * Hi(i))
  }

  lemma RootBetween(lo: int, hi: int, r: nat)
    requires 1 <= lo < hi && IsNearestRoot(lo * hi, r)
    ensures lo <= r < hi
  {
    if r < lo {
      ProductGrows(r, lo - 1, r + 1, lo);
      ProductGrows(lo, lo, lo - 1, hi - 1);
    } else if r >= hi {
      ProductGrows(hi - 1, r - 1, hi, r);
      ProductGrows(lo, hi - 1, hi, hi);
    }
  }

  lemma ProductGrows(a: nat, b: nat, c: nat, d: nat)
    requires a <= b && c <= d
    ensures a * c <= b * d
  {
  }

  /** What an in-range bucket looks like: no wider than a third of its base, up to rounding. */
  lemma BucketShape(i: nat)
    requires 1 <= i < OVERFLOW
    ensures 1024 <= Lo(i) < Hi(i) && 3 * Hi(i) <= 4 * Lo(i) + 2
    ensures i >= 3 ==> Lo(i) >= 1392
  {
    var e, sub := MIN_EXP + (i - 1) / 3, (i - 1) % 3;
    RangeEnds();
    Pow2Grows(MIN_EXP, e);
    BucketsMeet(i);
    if e > MIN_EXP { Pow2Grows(MIN_EXP, e); }
  }

  /** Every bucket's estimate lies in the bucket. */
  lemma EstimateHeld(i: nat)
    requires i <= OVERFLOW
    ensures Holds(i, BucketEstimate(i))
  {
    if 1 <= i < OVERFLOW {
      BucketShape(i);
      ProductGrows(1, Lo(i), 1, Hi(i));
      RootBetween(Lo(i), Hi(i), BucketEstimate(i));
    }
  }

  /** Each estimate, by its bucket's bounds: the integer nearest the root of their product, and at the open ends
      the longest duration of the underflow bucket and the shortest of the overflow bucket. */
  lemma EstimateExact(i: nat, ns: int)
    requires i <= OVERFLOW
    ensures i == UNDERFLOW && Holds(i, ns) ==> ns <= BucketEstimate(i)
    ensures i == OVERFLOW && Holds(i, ns) ==> ns >= BucketEstimate(i)
    ensures UNDERFLOW < i < OVERFLOW ==> IsNearestRoot(Lo(i) * Hi(i), BucketEstimate(i))
    ensures Holds(i, BucketEstimate(i)) && Lo(UNDERFLOW) == 0 && Hi(OVERFLOW) == 0x7fff_ffff_ffff_ffff
  {
    EstimateHeld(i);
    if 1 <= i < OVERFLOW {
      BucketShape(i);
      ProductGrows(1, Lo(i), 1, Hi(i));
    }
  }

  // ---------------------------------------------------------------- the error bound

  lemma RootUnique(n: int, r: nat, s: nat)
    requires IsNearestRoot(n, r) && IsNearestRoot(n, s)
    ensures r == s
  {
    if r < s { ProductGrows(r, s - 1, r + 1, s); }
    if s < r { ProductGrows(s, r - 1, s + 1, r); }
  }

  /** The estimate overshoots the lower bound by at most 159 parts in 1024. */
  lemma LowEnd(lo: int, hi: int, r: nat)
    requires 1392 <= lo < hi && 3 * hi <= 4 * lo + 2 && IsNearestRoot(lo * hi, r)
    ensures 1024 * r <= 1183 * lo
  {
    if 1024 * r > 1183 * lo {
      ProductGrows(1183 * lo + 1, 1024 * r, 1183 * lo - 1023, 1024 * r - 1024);
      ProductGrows(lo, lo, 3 * hi, 4 * lo + 2);
      ProductGrows(1392, lo, lo, lo);
    }
  }

  /** It undershoots the upper bound by at most 159 parts in 1024. */
  lemma HighEnd(lo: int, hi: int, r: nat)
    requires 1024 <= lo < hi && 3 * hi <= 4 * lo + 2 && IsNearestRoot(lo * hi, r)
    ensures 865 * hi <= 1024 * r
  {
    if 865 * hi > 1024 * r {
      ProductGrows(1024 * r, 865 * hi - 1, 1024 * r + 1024, 865 * hi + 1023);
      ProductGrows(hi, hi, 3 * hi - 2, 4 * lo);
      ProductGrows(1024, hi, hi, hi);
    }
  }

  lemma EstimateIsRoot(i: nat)
    requires 1 <= i < OVERFLOW
    ensures 1024 <= Lo(i) < Hi(i) && 3 * Hi(i) <= 4 * Lo(i) + 2 && BucketEstimate(i) >= 0
    ensures IsNearestRoot(Lo(i) * Hi(i), BucketEstimate(i))
  {
    BucketShape(i);
    ProductGrows(1, Lo(i), 1, Hi(i));
  }

  lemma EstimateIs(i: nat, lo: int, hi: int, est: nat)
    requires 1 <= i < OVERFLOW && lo == Lo(i) && hi == Hi(i) && IsNearestRoot(lo * hi, est)
    ensures BucketEstimate(i) == est
  {
    EstimateIsRoot(i);
    RootUnique(lo * hi, BucketEstimate(i), est);
  }

  lemma FirstBuckets(i: nat)
    requires 1 <= i <= 2
    ensures if i == 1 then Lo(i) == 1024 && BucketEstimate(i) == 1183 else Lo(i) == 1366 && BucketEstimate(i) == 1527
  {
    RangeEnds();
    BoundsAt(MIN_EXP, i - 1);
    if i == 1 { EstimateIs(i, 1024, 1366, 1183); } else { EstimateIs(i, 1366, 1707, 1527); }
  }

  /** The two ends of every in-range bucket; the first bucket meets the bound with equality. */
  lemma EndErrors(i: nat)
    requires 1 <= i < OVERFLOW
    ensures
      var est := BucketEstimate(i);
      1024 <= Lo(i) < Hi(i) && 1024 * (est - Lo(i)) <= 159 * Lo(i) && 1024 * (Hi(i) - est) <= 159 * Hi(i)
  {
    EstimateIsRoot(i);
    HighEnd(Lo(i), Hi(i), BucketEstimate(i));
    if i <= 2 {
      FirstBuckets(i);
    } else {
      BucketShape(i);
      LowEnd(Lo(i), Hi(i), BucketEstimate(i));
    }
  }

  function Distance(a: int, b: int): int {
    if a <= b then b - a else a - b
  }

  /** A bucket's estimate against any duration the bucket holds. */
  lemma ErrorWithin(i: nat, v: int)
    requires 1 <= i < OVERFLOW && Holds(i, v)
    ensures 1024 * Distance(BucketEstimate(i), v) <= 159 * v
  {
    EndErrors(i);
  }

  lemma RatioAtMost(d: int, v: int, p: int, q: int)
    requires 1 <= v && 1 <= q && q * d <= p * v
    ensures d as real / v as real <= p as real / q as real
  {
  }

  function RelativeError(i: nat, v: int): real
    requires v >= 1
  {
    Distance(BucketEstimate(i), v) as real / v as real
  }

  function MaxReal(a: real, b: real): real {
    if a < b then b else a
  }

  /** The larger error of bucket i, at its lower bound and on the way to its upper bound. */
  function EndError(i: nat): real
    requires Lo(i) >= 1 && Hi(i) >= 1
  {
    var lo, hi, est := Lo(i), Hi(i), BucketEstimate(i);
    MaxReal((est - lo) as real / lo as real, (hi - est) as real / hi as real)
  }

  lemma EndErrorAtMost(i: nat)
    requires 1 <= i < OVERFLOW
    ensures Lo(i) >= 1 && Hi(i) >= 1 && EndError(i) <= 159.0 / 1024.0
    ensures i == 1 ==> EndError(i) == 159.0 / 1024.0
  {
    EndErrors(i);
    RatioAtMost(BucketEstimate(i) - Lo(i), Lo(i), 159, 1024);
    RatioAtMost(Hi(i) - BucketEstimate(i), Hi(i), 159, 1024);
    if i == 1 { FirstBuckets(i); }
  }

  ghost predicate IsWorstError(worst: real) {
    && (forall i, v :: 1 <= i < OVERFLOW && Holds(i, v) ==> v >= 1 && RelativeError(i, v) <= worst)
    && (exists i, v :: 1 <= i < OVERFLOW && v >= 1 && Holds(i, v) && RelativeError(i, v) == worst)
  }

  lemma WorstError()
    ensures IsWorstError(159.0 / 1024.0)
  {
    forall i, v | 1 <= i < OVERFLOW && Holds(i, v) ensures v >= 1 && RelativeError(i, v) <= 159.0 / 1024.0 {
      EndErrors(i);
      ErrorWithin(i, v);
      RatioAtMost(Distance(BucketEstimate(i), v), v, 159, 1024);
    }
    var i: nat :| i == 1;
    EndErrors(i);
    FirstBuckets(i);
    assert Holds(i, 1024) && RelativeError(i, 1024) == 159.0 / 1024.0;
  }

  /** The published bound: the walk returns exactly 159/1024, a little above the analytic sqrt(4/3) - 1 and
      below 0.156. No duration in any in-range bucket does worse, and some duration does exactly as badly. */
  method MeasureMaxRelativeError() returns (worst: real)
    ensures worst == 159.0 / 1024.0 && worst < 0.156 && (1.0 + worst) * (1.0 + worst) > 4.0 / 3.0
    ensures IsWorstError(worst)
  {
    worst := 0.0;
    var i := 1;
    while i < OVERFLOW
      invariant 1 <= i <= OVERFLOW
      invariant if i == 1 then worst == 0.0 else worst == 159.0 / 1024.0
    {
      EndErrorAtMost(i);
      worst := MaxReal(worst, EndError(i));
      i := i + 1;
    }
    WorstError();
  }
}
