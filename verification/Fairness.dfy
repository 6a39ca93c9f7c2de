/**
 The claim-fairness metric, computed in one pass over the claim trace and one over its
 windows, against what each of its numbers is meant to be.
 */
module Fairness {

  const WINDOW: nat := 64

  datatype Report = Report(longest: nat, claims: seq<nat>, windows: nat, minShare: real)

  /** How many of the claims served parent p. */
  function Count(order: seq<int>, p: int): nat {
    if |order| == 0 then 0 else Count(order[..|order| - 1], p) + (if order[|order| - 1] == p then 1 else 0)
  }

  lemma {:induction false} CountAppend(a: seq<int>, b: seq<int>, p: int)
    ensures Count(a + b, p) == Count(a, p) + Count(b, p)
    decreases |b|
  {
    if |b| == 0 {
      assert a + b == a;
    } else {
      assert (a + b)[..|a + b| - 1] == a + b[..|b| - 1];
      CountAppend(a, b[..|b| - 1], p);
    }
  }

  // ---------------------------------------------------------------- what the numbers mean

  /** order[i..j] serves one parent throughout. */
  ghost predicate Constant(order: seq<int>, i: int, j: int) {
    0 <= i <= j <= |order| && forall k, l :: i <= k < j && i <= l < j ==> order[k] == order[l]
  }

  /** The longest single-parent run: some run is that long and none is longer. */
  ghost predicate IsLongestRun(order: seq<int>, longest: nat) {
    && (exists i, j :: Constant(order, i, j) && j - i == longest)
    && (forall i, j :: Constant(order, i, j) ==> j - i <= longest)
  }

  function WindowEnd(order: seq<int>, start: nat): nat {
    if start + WINDOW < |order| then start + WINDOW else |order|
  }

  /** A parent that still has a claim at or after the window's start. */
  predicate Active(order: seq<int>, start: nat, p: int)
    requires start <= |order|
  {
    Count(order[start..], p) > 0
  }

  function Share(order: seq<int>, start: nat, p: int): real
    requires start < |order|
  {
    Count(order[start..WindowEnd(order, start)], p) as real / (WindowEnd(order, start) - start) as real
  }

  /** Parent p still has claims entering window w. */
  predicate Owed(order: seq<int>, w: nat, p: int) {
    WINDOW * w < |order| && Active(order, WINDOW * w, p)
  }

  /** Its slice of that window; a parent owed nothing counts as fully served. */
  function Slice(order: seq<int>, w: nat, p: int): real {
    if Owed(order, w, p) then Share(order, WINDOW * w, p) else 1.0
  }

  /** The smallest slice any still-active parent got in the first n windows, or 1. */
  ghost predicate IsMinShare(order: seq<int>, parents: nat, n: nat, r: real) {
    && r <= 1.0
    && (forall w, p :: 0 <= w < n && 0 <= p < parents ==> r <= Slice(order, w, p))
    && (r == 1.0 || exists w, p :: 0 <= w < n && 0 <= p < parents && Owed(order, w, p) && r == Slice(order, w, p))
  }

  ghost predicate Meets(rep: Report, parents: nat, order: seq<int>) {
    && |rep.claims| == parents && (forall p :: 0 <= p < parents ==> rep.claims[p] == Count(order, p))
    && IsLongestRun(order, rep.longest)
    && |order| <= WINDOW * rep.windows < |order| + WINDOW
    && if |order| == 0 then rep.minShare == 0.0 else IsMinShare(order, parents, rep.windows, rep.minShare)
  }

  // ---------------------------------------------------------------- the computation

  function Bump(counts: seq<nat>, g: int): seq<nat> {
    if 0 <= g < |counts| then counts[g := counts[g] + 1] else counts
  }

  /** Per-parent tallies of a list of claims; an ordinal that names no parent is not tallied. */
  method Tally(parents: nat, order: seq<int>) returns (counts: seq<nat>)
    ensures |counts| == parents && forall p :: 0 <= p < parents ==> counts[p] == Count(order, p)
  {
    counts := seq(parents, _ => 0);
    for i := 0 to |order|
      invariant |counts| == parents && forall p :: 0 <= p < parents ==> counts[p] == Count(order[..i], p)
    {
      assert order[..i + 1][..i] == order[..i];
      counts := Bump(counts, order[i]);
    }
    assert order[..|order|] == order;
  }

  /** Runs that end by position n are no longer than longest, and the one that ends there has length run. */
  ghost predicate RunsSoFar(order: seq<int>, n: nat, run: nat, longest: nat) {
    && 1 <= run <= longest <= n <= |order|
    && Constant(order, n - run, n) && (run < n ==> order[n - run - 1] != order[n - 1])
    && (exists i, j :: Constant(order, i, j) && j - i == longest)
    && (forall i, j :: Constant(order, i, j) && j <= n ==> j - i <= longest)
  }

  lemma RunsNext(order: seq<int>, n: nat, run: nat, longest: nat)
    requires RunsSoFar(order, n, run, longest) && n < |order|
    ensures
      var next := if order[n] == order[n - 1] then run + 1 else 1;
      RunsSoFar(order, n + 1, next, if next > longest then next else longest)
  {
  }

  method LongestRun(order: seq<int>) returns (longest: nat)
    requires |order| > 0
    ensures IsLongestRun(order, longest)
  {
    var run, prev := 1, order[0];
    longest := 1;
    assert Constant(order, 0, 1);
    for i := 1 to |order|
      invariant RunsSoFar(order, i, run, longest) && prev == order[i - 1]
    {
      RunsNext(order, i, run, longest);
      if order[i] == prev {
        run := run + 1;
        if run > longest { longest := run; }
      } else {
        run, prev := 1, order[i];
      }
    }
  }

  /** The smallest share of window w among the parents with claims left, starting from r. */
  method WindowMin(parents: nat, order: seq<int>, w: nat, counts: seq<nat>, remaining: seq<int>, r: real)
    returns (s: real)
    requires WINDOW * w < |order| && |counts| == |remaining| == parents && r <= 1.0
    requires forall p :: 0 <= p < parents ==> counts[p] == Count(order[WINDOW * w..WindowEnd(order, WINDOW * w)], p)
    requires forall p :: 0 <= p < parents ==> remaining[p] == Count(order[WINDOW * w..], p)
    ensures s <= r && forall p :: 0 <= p < parents ==> s <= Slice(order, w, p)
    ensures s == r || exists p :: 0 <= p < parents && Owed(order, w, p) && s == Slice(order, w, p)
  {
    var start := WINDOW * w;
    var width := (WindowEnd(order, start) - start) as real;
    s := r;
    for p := 0 to parents
      invariant s <= r && forall q :: 0 <= q < p ==> s <= Slice(order, w, q)
      invariant s == r || exists q :: 0 <= q < p && Owed(order, w, q) && s == Slice(order, w, q)
    {
      if remaining[p] > 0 {
        var share := counts[p] as real / width;
        assert Owed(order, w, p) && share == Slice(order, w, p);
        if share < s { s := share; }
      }
    }
  }

  lemma CountSplit(order: seq<int>, start: nat, end: nat, p: int)
    requires start <= end <= |order|
    ensures Count(order[start..], p) == Count(order[start..end], p) + Count(order[end..], p)
  {
    assert order[start..] == order[start..end] + order[end..];
    CountAppend(order[start..end], order[end..], p);
  }

  function Minus(a: seq<int>, b: seq<nat>): (r: seq<int>)
    requires |a| == |b|
    ensures |r| == |a| && forall i :: 0 <= i < |a| ==> r[i] == a[i] - b[i]
  {
    seq(|a|, i requires 0 <= i < |a| => a[i] - b[i])
  }

  /** The claims parents have left entering window w. */
  ghost predicate Left(order: seq<int>, w: nat, remaining: seq<int>) {
    WINDOW * w <= |order| ==> forall p :: 0 <= p < |remaining| ==> remaining[p] == Count(order[WINDOW * w..], p)
  }

  lemma LeftNext(order: seq<int>, w: nat, remaining: seq<int>, counts: seq<nat>)
    requires WINDOW * w < |order| && Left(order, w, remaining) && |counts| == |remaining|
    requires forall p :: 0 <= p < |counts| ==> counts[p] == Count(order[WINDOW * w..WindowEnd(order, WINDOW * w)], p)
    ensures Left(order, w + 1, Minus(remaining, counts))
  {
    if WINDOW * (w + 1) <= |order| {
      forall p | 0 <= p < |remaining| ensures Minus(remaining, counts)[p] == Count(order[WINDOW * (w + 1)..], p) {
        CountSplit(order, WINDOW * w, WINDOW * (w + 1), p);
      }
    }
  }

  method MinActiveShare(parents: nat, order: seq<int>, claims: seq<nat>) returns (windows: nat, minShare: real)
    requires |claims| == parents && forall p :: 0 <= p < parents ==> claims[p] == Count(order, p)
    ensures |order| <= WINDOW * windows < |order| + WINDOW && IsMinShare(order, parents, windows, minShare)
  {
    var remaining: seq<int> := claims;
    windows, minShare := 0, 1.0;
    assert order[0..] == order;
    while WINDOW * windows < |order|
      invariant WINDOW * windows < |order| + WINDOW && |remaining| == parents
      invariant IsMinShare(order, parents, windows, minShare) && Left(order, windows, remaining)
      decreases |order| + WINDOW - WINDOW * windows
    {
      var counts := Tally(parents, order[WINDOW * windows..WindowEnd(order, WINDOW * windows)]);
      minShare := WindowMin(parents, order, windows, counts, remaining, minShare);
      LeftNext(order, windows, remaining, counts);
      remaining := Minus(remaining, counts);
      windows := windows + 1;
    }
  }

  method ComputeFairness(parents: nat, order: seq<int>) returns (rep: Report)
    ensures Meets(rep, parents, order)
  {
    if |order| == 0 {
      assert Constant(order, 0, 0);
      return Report(0, seq(parents, _ => 0), 0, 0.0);
    }
    var longest := LongestRun(order);
    var claims := Tally(parents, order);
    var windows, minShare := MinActiveShare(parents, order, claims);
    rep := Report(longest, claims, windows, minShare);
  }
}
