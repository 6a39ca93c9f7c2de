/**
 The fairness seed: parent-major rows whose priority is banded by rank under round-robin,
 and the order in which a (priority, scheduled_at) claim then serves the parents.
 */
module ClaimOrder {
  import opened Fairness

  const PRIORITY_BASE: nat := 100

  datatype Row = Row(priority: int, scheduledAt: int, parent: int)

  /** Row i of the seed: its parent, its banded priority, its schedule instant in microseconds. */
  function SeedRow(children: nat, banding: bool, i: nat): Row
    requires children > 0
  {
    Row(if banding then PRIORITY_BASE + i % children else PRIORITY_BASE, i, i / children)
  }

  /** The seed, row by row. */
  method SeedFairness(parents: nat, children: nat, banding: bool) returns (rows: seq<Row>)
    requires children > 0
    ensures Seeded(rows, parents, children, banding)
  {
    rows := [];
    while |rows| < parents * children
      invariant |rows| <= parents * children
      invariant forall i :: 0 <= i < |rows| ==> rows[i] == SeedRow(children, banding, i)
    {
      var i := |rows|;
      var parent, rank, priority := i / children, i % children, PRIORITY_BASE;
      if banding { priority := priority + rank; }
      rows := rows + [Row(priority, i, parent)];
    }
  }

  predicate Before(a: Row, b: Row) {
    a.priority < b.priority || (a.priority == b.priority && a.scheduledAt < b.scheduledAt)
  }

  ghost predicate Sorted(order: seq<Row>) {
    forall j, k :: 0 <= j < k < |order| ==> Before(order[j], order[k])
  }

  /** The seeded rows in ORDER BY priority, scheduled_at. */
  ghost predicate IsClaimOrder(order: seq<Row>, rows: seq<Row>) {
    Sorted(order) && forall r :: r in order <==> r in rows
  }

  // ---------------------------------------------------------------- division

  lemma DivUnique(i: nat, d: nat, q: nat, r: nat)
    requires i == q * d + r && r < d
    ensures i / d == q && i % d == r
  {
    var q' := i / d;
    assert i == d * q' + i % d;
    if q < q' { MulGrows(d, q + 1, q'); } else if q' < q { MulGrows(d, q' + 1, q); }
  }

  lemma MulGrows(d: nat, a: nat, b: nat)
    requires a <= b
    ensures d * a <= d * b && a * d <= b * d
  {
  }

  lemma DivSplit(i: nat, d: nat)
    requires d > 0
    ensures i == i / d * d + i % d && 0 <= i % d < d && 0 <= i / d
  {
  }

  // ---------------------------------------------------------------- a claim order is unique

  lemma {:induction false} SortedUnique(a: seq<Row>, b: seq<Row>)
    requires Sorted(a) && Sorted(b) && forall r :: r in a <==> r in b
    ensures a == b
    decreases |a|
  {
    if |a| == 0 {
      if |b| > 0 { HeadIn(b); }
    } else {
      HeadIn(a);
      assert |b| > 0;
      HeadIn(b);
      assert a[0] == b[0] by {
        var i :| 0 <= i < |b| && b[i] == a[0];
        var j :| 0 <= j < |a| && a[j] == b[0];
      }
      forall r ensures r in a[1..] <==> r in b[1..] {
        if r in a[1..] { TailIn(a, b, r); }
        if r in b[1..] { TailIn(b, a, r); }
      }
      SortedUnique(a[1..], b[1..]);
    }
  }

  lemma HeadIn(s: seq<Row>)
    requires |s| > 0
    ensures s[0] in s
  {
  }

  lemma TailIn(a: seq<Row>, b: seq<Row>, r: Row)
    requires |a| > 0 && |b| > 0 && a[0] == b[0] && r in a[1..] && Sorted(a) && forall x :: x in a <==> x in b
    ensures r in b[1..]
  {
    var i :| 0 < i < |a| && a[i] == r;
    assert r in a;
    var j :| 0 <= j < |b| && b[j] == r;
    assert j > 0;
  }

  // ---------------------------------------------------------------- the two strategies

  /** The row a perfect round robin serves at position k. */
  function RoundRobin(parents: nat, children: nat, k: nat): nat
    requires parents > 0
  {
    k % parents * children + k / parents
  }

  lemma QuotientBelow(i: nat, d: nat, n: nat)
    requires d > 0 && i < n * d
    ensures i / d < n
  {
  }

  /** Rank r of parent p, counted parent by parent. */
  lemma CellAt(p: nat, r: nat, n: nat, d: nat)
    requires p < n && r < d
    ensures p * d + r < n * d && (p * d + r) / d == p && (p * d + r) % d == r
  {
    MulGrows(d, p + 1, n);
    DivUnique(p * d + r, d, p, r);
  }

  lemma RoundRobinRow(parents: nat, children: nat, k: nat)
    requires parents > 0 && children > 0 && k < parents * children
    ensures
      var i := RoundRobin(parents, children, k);
      && i < parents * children && k / parents < children
      && i / children == k % parents && i % children == k / parents
  {
    DivSplit(k, parents);
    assert k < children * parents;
    QuotientBelow(k, parents, children);
    CellAt(k % parents, k / parents, parents, children);
  }

  /** Every row is served: position r * parents + p serves rank r of parent p. */
  lemma RoundRobinCovers(parents: nat, children: nat, i: nat)
    requires parents > 0 && children > 0 && i < parents * children
    ensures
      var k := i % children * parents + i / children;
      k < parents * children && RoundRobin(parents, children, k) == i
  {
    DivSplit(i, children);
    QuotientBelow(i, children, parents);
    CellAt(i % children, i / children, children, parents);
  }

  lemma LaterPosition(parents: nat, j: nat, k: nat)
    requires parents > 0 && j < k
    ensures j / parents < k / parents || (j / parents == k / parents && j % parents < k % parents)
  {
    DivSplit(j, parents);
    DivSplit(k, parents);
    if k / parents < j / parents { MulGrows(parents, k / parents + 1, j / parents); }
  }

  lemma RoundRobinAscends(parents: nat, children: nat, j: nat, k: nat)
    requires parents > 0 && children > 0 && j < k < parents * children
    ensures
      Before(SeedRow(children, true, RoundRobin(parents, children, j)),
             SeedRow(children, true, RoundRobin(parents, children, k)))
  {
    RoundRobinRow(parents, children, j);
    RoundRobinRow(parents, children, k);
    LaterPosition(parents, j, k);
    if j / parents == k / parents { MulGrows(children, j % parents + 1, k % parents); }
  }

  /** The rows in round-robin order. */
  function Fair(parents: nat, children: nat): (r: seq<Row>)
    requires parents > 0 && children > 0
    ensures |r| == parents * children
    ensures forall k :: 0 <= k < |r| ==> r[k] == SeedRow(children, true, RoundRobin(parents, children, k))
  {
    seq(parents * children, k requires 0 <= k => SeedRow(children, true, RoundRobin(parents, children, k)))
  }

  lemma FairRow(parents: nat, children: nat, k: nat)
    requires parents > 0 && children > 0 && k < parents * children
    ensures Fair(parents, children)[k].parent == k % parents
    ensures Fair(parents, children)[k].priority == PRIORITY_BASE + k / parents
  {
    RoundRobinRow(parents, children, k);
  }

  ghost predicate Seeded(rows: seq<Row>, parents: nat, children: nat, banding: bool)
    requires children > 0
  {
    |rows| == parents * children && forall i :: 0 <= i < |rows| ==> rows[i] == SeedRow(children, banding, i)
  }

  lemma FairInRows(parents: nat, children: nat, rows: seq<Row>, r: Row)
    requires parents > 0 && children > 0 && Seeded(rows, parents, children, true) && r in Fair(parents, children)
    ensures r in rows
  {
    var k :| 0 <= k < parents * children && Fair(parents, children)[k] == r;
    RoundRobinRow(parents, children, k);
    assert rows[RoundRobin(parents, children, k)] == r;
  }

  lemma RowsInFair(parents: nat, children: nat, rows: seq<Row>, r: Row)
    requires parents > 0 && children > 0 && Seeded(rows, parents, children, true) && r in rows
    ensures r in Fair(parents, children)
  {
    var i :| 0 <= i < |rows| && rows[i] == r;
    RoundRobinCovers(parents, children, i);
    assert Fair(parents, children)[i % children * parents + i / children] == r;
  }

  /** Banding turns the claim order into a perfect round robin: position k serves rank k / parents of parent
      k mod parents, whichever sorted order the claim produced. */
  lemma BandedIsRoundRobin(parents: nat, children: nat, rows: seq<Row>, order: seq<Row>)
    requires parents > 0 && children > 0 && Seeded(rows, parents, children, true) && IsClaimOrder(order, rows)
    ensures |order| == parents * children
    ensures forall k :: 0 <= k < |order| ==>
              order[k].parent == k % parents && order[k].priority == PRIORITY_BASE + k / parents
  {
    var fair := Fair(parents, children);
    forall j, k | 0 <= j < k < |fair| ensures Before(fair[j], fair[k]) { RoundRobinAscends(parents, children, j, k); }
    forall r ensures r in order <==> r in fair {
      if r in fair { FairInRows(parents, children, rows, r); }
      if r in rows { RowsInFair(parents, children, rows, r); }
    }
    SortedUnique(order, fair);
    forall k | 0 <= k < |fair|
      ensures fair[k].parent == k % parents && fair[k].priority == PRIORITY_BASE + k / parents
    {
      FairRow(parents, children, k);
    }
  }

  /** Under one priority the claim order is the seed order: parent after parent. */
  lemma FifoIsParentMajor(parents: nat, children: nat, rows: seq<Row>, order: seq<Row>)
    requires children > 0 && Seeded(rows, parents, children, false) && IsClaimOrder(order, rows)
    ensures order == rows && forall k :: 0 <= k < |order| ==> order[k].parent == k / children
  {
    SortedUnique(order, rows);
  }

  // ---------------------------------------------------------------- what the metric says of each

  function Trace(order: seq<Row>): (t: seq<int>)
    ensures |t| == |order| && forall k :: 0 <= k < |t| ==> t[k] == order[k].parent
  {
    seq(|order|, k requires 0 <= k < |order| => order[k].parent)
  }

  ghost predicate IsRound(t: seq<int>, parents: nat)
    requires parents > 0
  {
    forall k :: 0 <= k < |t| ==> t[k] == k % parents
  }

  lemma DivNext(n: nat, d: nat)
    requires d > 0
    ensures if n % d + 1 < d then (n + 1) / d == n / d && (n + 1) % d == n % d + 1
            else (n + 1) / d == n / d + 1 && (n + 1) % d == 0
  {
    DivSplit(n, d);
    if n % d + 1 < d { DivUnique(n + 1, d, n / d, n % d + 1); } else { DivUnique(n + 1, d, n / d + 1, 0); }
  }

  /** In any prefix of a round robin a parent has one claim per full round, and one more if the last reached it. */
  lemma {:induction false} PrefixCount(t: seq<int>, parents: nat, n: nat, p: nat)
    requires parents > 0 && IsRound(t, parents) && n <= |t| && p < parents
    ensures Count(t[..n], p) == n / parents + (if p < n % parents then 1 else 0)
    decreases n
  {
    if n > 0 {
      assert t[..n][..n - 1] == t[..n - 1];
      PrefixCount(t, parents, n - 1, p);
      DivNext(n - 1, parents);
    } else {
      DivUnique(0, parents, 0, 0);
    }
  }

  /** In every prefix any two parents' claims differ by at most one. */
  lemma PrefixBalanced(t: seq<int>, parents: nat, n: nat, p: nat, q: nat)
    requires parents > 0 && IsRound(t, parents) && n <= |t| && p < parents && q < parents
    ensures -1 <= Count(t[..n], p) - Count(t[..n], q) <= 1
  {
    PrefixCount(t, parents, n, p);
    PrefixCount(t, parents, n, q);
  }

  lemma SegmentBound(d: nat, qs: int, rs: int, qe: int, re: int, p: int)
    requires 0 <= rs < d && 0 <= re < d && 0 <= p < d
    ensures
      var count := qe + (if p < re then 1 else 0) - qs - (if p < rs then 1 else 0);
      d * count >= (qe * d + re) - (qs * d + rs) - (d - 1)
  {
  }

  lemma SegmentCount(t: seq<int>, parents: nat, s: nat, e: nat, p: nat)
    requires parents > 0 && IsRound(t, parents) && s <= e <= |t| && p < parents
    ensures parents * Count(t[s..e], p) >= (e - s) - (parents - 1)
  {
    assert t[..e] == t[..s] + t[s..e];
    CountAppend(t[..s], t[s..e], p);
    PrefixCount(t, parents, s, p);
    PrefixCount(t, parents, e, p);
    DivSplit(s, parents);
    DivSplit(e, parents);
    SegmentBound(parents, s / parents, s % parents, e / parents, e % parents, p);
  }

  /** Each active parent's slice of each window of a round robin over at most a window's worth of parents. */
  lemma RoundSlice(t: seq<int>, parents: nat, w: nat, p: nat)
    requires 1 <= parents <= WINDOW && IsRound(t, parents) && p < parents && Owed(t, w, p)
    ensures Slice(t, w, p) > 1.0 / (2 * parents) as real
  {
    var s := WINDOW * w;
    var e := WindowEnd(t, s);
    var c := Count(t[s..e], p);
    SegmentCount(t, parents, s, e, p);
    if c == 0 { assert e == |t| ==> t[s..e] == t[s..]; }
    ShareAbove(c, e - s, parents);
  }

  lemma ShareAbove(c: int, width: int, parents: nat)
    requires c >= 1 && width >= 1 && parents >= 1 && parents * c >= width - (parents - 1)
    ensures c as real / width as real > 1.0 / (2 * parents) as real
  {
  }

  lemma RatioAbove(c: real, w: real, d: real)
    requires w > 0.0 && d > 0.0 && c * d > w
    ensures c / w > 1.0 / d
  {
  }

  /** A banded run of 2 to 64 parents: no parent is ever served twice in a row, each gets all its claims, and in
      every window every parent with work left gets more than half its fair share. */
  lemma BandedFairness(parents: nat, children: nat, rows: seq<Row>, order: seq<Row>, rep: Report)
    requires 2 <= parents <= WINDOW && children > 0
    requires Seeded(rows, parents, children, true) && IsClaimOrder(order, rows)
    requires Meets(rep, parents, Trace(order))
    ensures rep.longest == 1 && rep.minShare > 1.0 / (2 * parents) as real
    ensures forall p :: 0 <= p < parents ==> rep.claims[p] == children
  {
    BandedIsRoundRobin(parents, children, rows, order);
    var t := Trace(order);
    MulGrows(parents, 1, children);
    RoundRuns(t, parents, rep.longest);
    RatioAbove(1.0, 1.0, (2 * parents) as real);
    if rep.minShare != 1.0 {
      var w, p :| 0 <= w < rep.windows && 0 <= p < parents && Owed(t, w, p) && rep.minShare == Slice(t, w, p);
      RoundSlice(t, parents, w, p);
    }
    forall p | 0 <= p < parents ensures rep.claims[p] == children {
      assert t[..|t|] == t;
      PrefixCount(t, parents, |t|, p);
      DivUnique(|t|, parents, children, 0);
    }
  }

  lemma RoundRuns(t: seq<int>, parents: nat, longest: nat)
    requires parents >= 2 && IsRound(t, parents) && |t| >= 1 && IsLongestRun(t, longest)
    ensures longest == 1
  {
    assert Constant(t, 0, 1);
    var i, j :| Constant(t, i, j) && j - i == longest;
    if longest >= 2 {
      assert t[i] == t[i + 1];
      DivNext(i, parents);
    }
  }

  lemma {:induction false} CountZero(s: seq<int>, p: int)
    requires forall k :: 0 <= k < |s| ==> s[k] != p
    ensures Count(s, p) == 0
  {
    if |s| > 0 { CountZero(s[..|s| - 1], p); }
  }

  lemma {:induction false} CountSome(s: seq<int>, p: int, k: nat)
    requires k < |s| && s[k] == p
    ensures Count(s, p) > 0
  {
    if k < |s| - 1 { CountSome(s[..|s| - 1], p, k); }
  }

  ghost predicate IsParentMajor(t: seq<int>, children: nat)
    requires children > 0
  {
    forall k :: 0 <= k < |t| ==> t[k] == k / children
  }

  lemma FifoRuns(t: seq<int>, children: nat, longest: nat)
    requires children > 0 && IsParentMajor(t, children) && |t| >= children && IsLongestRun(t, longest)
    ensures longest == children
  {
    forall k | 0 <= k < children ensures t[k] == 0 { DivUnique(k, children, 0, k); }
    assert Constant(t, 0, children);
    var i, j :| Constant(t, i, j) && j - i == longest;
    assert t[i] == t[j - 1];
    DivSplit(i, children);
    DivSplit(j - 1, children);
  }

  lemma FifoStarves(t: seq<int>, children: nat)
    requires children >= WINDOW && IsParentMajor(t, children) && |t| > children
    ensures Owed(t, 0, 1) && Slice(t, 0, 1) == 0.0
  {
    DivUnique(children, children, 1, 0);
    assert t[0..] == t;
    CountSome(t, 1, children);
    var first := t[0..WindowEnd(t, 0)];
    forall k | 0 <= k < |first| ensures first[k] != 1 { DivUnique(k, children, 0, k); }
    CountZero(first, 1);
  }

  lemma SliceNonNegative(t: seq<int>, w: nat, p: int)
    ensures Slice(t, w, p) >= 0.0
  {
  }

  /** Under FIFO with batches of at least a window, the first parent's whole batch runs first and the others
      starve meanwhile. */
  lemma FifoFairness(parents: nat, children: nat, rows: seq<Row>, order: seq<Row>, rep: Report)
    requires 2 <= parents && children >= WINDOW && Seeded(rows, parents, children, false) && IsClaimOrder(order, rows)
    requires Meets(rep, parents, Trace(order))
    ensures rep.longest == children && rep.minShare == 0.0
  {
    FifoIsParentMajor(parents, children, rows, order);
    var t := Trace(order);
    MulGrows(children, 2, parents);
    FifoRuns(t, children, rep.longest);
    FifoStarves(t, children);
    assert rep.minShare <= Slice(t, 0, 1);
    var w, p :| 0 <= w < rep.windows && 0 <= p < parents && Owed(t, w, p) && rep.minShare == Slice(t, w, p);
    SliceNonNegative(t, w, p);
  }
}
