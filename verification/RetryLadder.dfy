/**
 The retry ladders of an outage run: the runner's own, each rung doubled up to a cap and
 jittered by a quarter, and the one that lets every delay be anything up to a longest.
 */
module RetryLadder {
  import opened Options
  import opened JobTable
  import opened Outage
  import opened OutageVolume
  import opened GrazedRung

  // ---------------------------------------------------------------- any delay up to a longest

  /** Every delay may be anything in (0, maxDelay]. */
  ghost predicate Flat(c: Cohort, maxDelay: nat) {
    c.budget >= 1 && maxDelay >= 1 && forall a: nat :: c.lo(a) == 1 && c.hi(a) == maxDelay
  }

  lemma {:induction false} FlatDeadlines(c: Cohort, maxDelay: nat, r: nat)
    requires Flat(c, maxDelay)
    ensures Soonest(c, r) == c.base + r * (1 + NUDGE) && Limit(c, r) == c.base + r * (maxDelay + NUDGE)
  {
    if r > 0 {
      FlatDeadlines(c, maxDelay, r - 1);
      assert c.lo(r) == 1 && c.hi(r) == maxDelay;
    }
  }

  /** There the condition is exact with nothing more asked of the ladder. */
  lemma FlatVolumesIff(c: Cohort, maxDelay: nat)
    requires Flat(c, maxDelay)
    ensures VolumesAgree(c) <==> forall r: nat :: !Straddles(c, r)
  {
    VolumesAgreeIff(c);
  }

  lemma {:induction false} LongerRungs(r: nat, maxDelay: nat)
    requires r >= 1 && maxDelay >= 2 + NUDGE
    ensures (r + 1) * (1 + NUDGE) <= r * (maxDelay + NUDGE)
  {
    if r > 1 { LongerRungs(r - 1, maxDelay); }
  }

  /** Past the first rung, an outage that ends inside a ladder of longer delays ends on an undecided attempt. */
  lemma {:induction false} SomeStraddle(c: Cohort, maxDelay: nat, r: nat) returns (m: nat)
    requires Flat(c, maxDelay) && maxDelay >= 2 + NUDGE
    requires 1 <= r < c.budget && c.base + 1 + NUDGE < c.end <= Limit(c, r)
    ensures Straddles(c, m)
    decreases r
  {
    FlatDeadlines(c, maxDelay, r);
    if r == 1 {
      m := r;
    } else if Limit(c, r - 1) < c.end {
      FlatDeadlines(c, maxDelay, r - 1);
      LongerRungs(r - 1, maxDelay);
      m := r;
    } else {
      m := SomeStraddle(c, maxDelay, r - 1);
    }
  }

  /** With delays that can reach 1002 nanoseconds the undecided attempts cover the ladder: the strategies agree
      if and only if the outage ends before any second attempt or outlasts them all. */
  lemma FlatVolumesLong(c: Cohort, maxDelay: nat)
    requires Flat(c, maxDelay) && maxDelay >= 2 + NUDGE
    ensures VolumesAgree(c) <==>
            c.end <= c.base + 1 + NUDGE || c.base + (c.budget - 1) * (maxDelay + NUDGE) < c.end
  {
    FlatVolumesIff(c, maxDelay);
    FlatDeadlines(c, maxDelay, c.budget - 1);
    if c.end <= c.base + 1 + NUDGE || c.base + (c.budget - 1) * (maxDelay + NUDGE) < c.end {
      forall r: nat
        ensures !Straddles(c, r)
      {
        if 1 <= r < c.budget {
          FlatDeadlines(c, maxDelay, r);
          DeadlineGrows(c.base, c.hi, r, c.budget - 1);
        }
      }
    } else {
      var m := SomeStraddle(c, maxDelay, c.budget - 1);
    }
  }

  // ---------------------------------------------------------------- the runner's ladder

  /** expBackoff: the base, doubled once per attempt past the first, capped; the first rung is not. */
  function Backoff(first: nat, cap: nat, a: nat): nat {
    if a <= 1 then first
    else
      var d := 2 * Backoff(first, cap, a - 1);
      if d >= cap then cap else d
  }

  /** The shortest and the longest whole number of nanoseconds in [0.75, 1.25) of a rung. */
  function JitterLow(d: nat): nat {
    3 * d / 4
  }

  function JitterHigh(d: nat): nat {
    if d == 0 then 0 else (5 * d - 1) / 4
  }

  /** The cohort retries on the runner's ladder, its first rung and its cap four microseconds or more. */
  ghost predicate OnLadder(c: Cohort, first: nat, cap: nat) {
    && c.budget >= 1 && first >= 4 * NUDGE && cap >= 4 * NUDGE
    && forall a: nat ::
         c.lo(a) == JitterLow(Backoff(first, cap, a)) && c.hi(a) == JitterHigh(Backoff(first, cap, a))
  }

  lemma {:induction false} BackoffPositive(first: nat, cap: nat, a: nat)
    requires first >= 2 && cap >= 2
    ensures Backoff(first, cap, a) >= 2
  {
    if a > 1 { BackoffPositive(first, cap, a - 1); }
  }

  lemma JitterOrder(d: nat)
    requires d >= 2
    ensures 1 <= JitterLow(d) <= JitterHigh(d)
  {
  }

  /** The jitter of such a rung is wider than a nudge. */
  lemma JitterWide(d: nat)
    requires d >= 4 * NUDGE
    ensures JitterLow(d) + NUDGE < JitterHigh(d)
  {
  }

  lemma LadderBanded(c: Cohort, first: nat, cap: nat)
    requires OnLadder(c, first, cap)
    ensures Banded(c)
  {
    forall a: nat | 1 <= a < c.budget ensures 1 <= c.lo(a) <= c.hi(a) {
      BackoffPositive(first, cap, a);
      JitterOrder(Backoff(first, cap, a));
    }
  }

  /** Up to rung r no delay is longer than the shortest of the next rung. */
  ghost predicate Climbs(c: Cohort, r: nat) {
    c.lo(1) >= 1 && forall a: nat :: 1 <= a < r ==> c.hi(a) <= c.lo(a + 1)
  }

  lemma {:induction false} ClimbApart(c: Cohort, r: nat)
    requires 1 <= r && Climbs(c, r)
    ensures Overlap(c, r) < 0
  {
    if r == 1 {
      OverlapFirst(c);
    } else {
      ClimbApart(c, r - 1);
      OverlapNext(c, r - 1);
    }
  }

  /** From rung q to rung n the bands are the same. */
  ghost predicate Level(c: Cohort, q: nat, n: nat, lo: nat, hi: nat) {
    lo <= hi && forall a: nat :: q <= a <= n ==> c.lo(a) == lo && c.hi(a) == hi
  }

  lemma {:induction false} LevelSpread(c: Cohort, q: nat, n: nat, lo: nat, hi: nat)
    requires 1 <= q <= n && Level(c, q, n, lo, hi)
    ensures Overlap(c, q) <= Overlap(c, n)
    ensures q < n ==> Overlap(c, q) + hi - lo <= Overlap(c, n)
    decreases n
  {
    if q < n {
      LevelSpread(c, q, n - 1, lo, hi);
      OverlapNext(c, n - 1);
    }
  }

  lemma DoubledJitter(d: nat)
    requires d >= 2
    ensures JitterHigh(d) <= JitterLow(2 * d)
  {
  }

  lemma {:induction false} UncappedBelow(first: nat, cap: nat, a: nat, r: nat)
    requires 1 <= a <= r && 2 * Backoff(first, cap, r) < cap
    ensures 2 * Backoff(first, cap, a) < cap
    decreases r
  {
    if a < r { UncappedBelow(first, cap, a, r - 1); }
  }

  /** Doubling outgrows the jitter: before the cap no rung reaches the next. */
  lemma DoublingClimbs(c: Cohort, first: nat, cap: nat, r: nat)
    requires OnLadder(c, first, cap) && r >= 1 && (r > 1 ==> 2 * Backoff(first, cap, r - 1) < cap)
    ensures Climbs(c, r)
  {
    BackoffPositive(first, cap, 1);
    JitterOrder(Backoff(first, cap, 1));
    forall a: nat | 1 <= a < r ensures c.hi(a) <= c.lo(a + 1) {
      UncappedBelow(first, cap, a, r - 1);
      BackoffPositive(first, cap, a);
      DoubledJitter(Backoff(first, cap, a));
    }
  }

  lemma {:induction false} StaysCapped(first: nat, cap: nat, q: nat, n: nat)
    requires 2 <= q <= n && 2 * Backoff(first, cap, q - 1) >= cap
    ensures Backoff(first, cap, n) == cap
    decreases n
  {
    if q < n { StaysCapped(first, cap, q, n - 1); }
  }

  /** From the cap on, rungs are equal and only spread. */
  lemma CappedLevel(c: Cohort, first: nat, cap: nat, q: nat, n: nat)
    requires OnLadder(c, first, cap) && 2 <= q <= n && 2 * Backoff(first, cap, q - 1) >= cap
    ensures Level(c, q, n, JitterLow(cap), JitterHigh(cap))
  {
    JitterOrder(cap);
    forall a: nat | q <= a <= n ensures c.lo(a) == JitterLow(cap) && c.hi(a) == JitterHigh(cap) {
      StaysCapped(first, cap, q, a);
    }
  }

  lemma OverlapCrisp(c: Cohort, q: nat)
    requires q >= 1 && Overlap(c, q) < 0
    ensures Crisp(c, q)
  {
  }

  /** A rung that reaches the one after it is capped, and every later rung overlaps by a nudge more. */
  lemma OverlapLasts(c: Cohort, first: nat, cap: nat, q: nat, n: nat)
    requires OnLadder(c, first, cap) && 1 <= q <= n && Overlap(c, q) >= 0
    ensures Overlap(c, n) >= 0 && (q < n ==> Overlap(c, n) > NUDGE)
  {
    if q == 1 || 2 * Backoff(first, cap, q - 1) < cap {
      DoublingClimbs(c, first, cap, q);
      ClimbApart(c, q);
    } else {
      CappedLevel(c, first, cap, q, n);
      LevelSpread(c, q, n, JitterLow(cap), JitterHigh(cap));
      JitterWide(cap);
    }
  }

  lemma {:induction false} SoonestBelow(c: Cohort, r: nat)
    requires Banded(c) && r < c.budget
    ensures Soonest(c, r) <= Limit(c, r)
  {
    if r > 0 {
      SoonestBelow(c, r - 1);
      assert c.lo(r) <= c.hi(r);
    }
  }

  /** The delays can decide whether attempt r + 1 meets the outage: it ends between the attempt's soonest and
      latest instants, or in the microsecond before where the rung below comes within a nudge of this one. */
  predicate Undecided(c: Cohort, r: nat) {
    && 1 <= r < c.budget && c.end <= Limit(c, r)
    && (Soonest(c, r) < c.end || (0 <= Overlap(c, r) && Limit(c, r - 1) < c.end))
  }

  lemma UndecidedGrazes(c: Cohort, first: nat, cap: nat, r: nat)
    requires OnLadder(c, first, cap) && Undecided(c, r) && c.end <= Soonest(c, r)
    ensures Grazes(c, r)
  {
    LadderBanded(c, first, cap);
    OverlapFirst(c);
    assert c.lo(1) >= 1 by { JitterOrder(first); }
    assert Soonest(c, 1) + NUDGE < Limit(c, 1) by {
      JitterWide(first);
      var r0: nat :| r0 == 0;
      assert Soonest(c, r0 + 1) == c.base + c.lo(1) + NUDGE && Limit(c, r0 + 1) == c.base + c.hi(1) + NUDGE;
    }
    forall q: nat | 1 <= q < r ensures Overlap(c, q) < 0 {
      if Overlap(c, q) >= 0 { OverlapLasts(c, first, cap, q, r); }
    }
  }

  lemma UndecidedDiffers(c: Cohort, first: nat, cap: nat, r: nat)
    requires OnLadder(c, first, cap) && Undecided(c, r)
    ensures !VolumesAgree(c)
  {
    LadderBanded(c, first, cap);
    if Soonest(c, r) < c.end {
      StraddleDiffers(c, r);
    } else {
      UndecidedGrazes(c, first, cap, r);
      GrazeDiffers(c, r);
    }
  }

  lemma DecidedLadder(c: Cohort, first: nat, cap: nat)
    requires OnLadder(c, first, cap) && forall r: nat :: !Undecided(c, r)
    ensures VolumesAgree(c)
  {
    LadderBanded(c, first, cap);
    forall r: nat ensures !Straddles(c, r) { assert !Undecided(c, r); }
    var n := DecideVolume(c, 0);
    if n < c.budget {
      SoonestBelow(c, n);
      assert !Undecided(c, n);
      forall q: nat | 1 <= q <= n ensures Crisp(c, q) {
        if Overlap(c, q) >= 0 { OverlapLasts(c, first, cap, q, n); }
        OverlapCrisp(c, q);
      }
      FloorIsSoonest(c, n);
    }
    DecidedAgree(c, n);
  }

  /** On the runner's own ladder, whatever its base, cap and budget, the harness's jumps and fine steps fail every
      job equally often, for every table, every interleaving and every jitter, if and only if no attempt is
      undecided. */
  lemma LadderVolumesIff(c: Cohort, first: nat, cap: nat)
    requires OnLadder(c, first, cap)
    ensures VolumesAgree(c) <==> forall r: nat :: !Undecided(c, r)
  {
    if r: nat :| Undecided(c, r) {
      UndecidedDiffers(c, first, cap, r);
    } else {
      DecidedLadder(c, first, cap);
    }
  }

  // ---------------------------------------------------------------- two jobs that differ

  lemma AttemptRun(w: World, j: nat, rest: seq<Step>, fine: bool, d: Delays)
    requires j < |w.items| && Claimable(w.items[j].state) && w.items[j].scheduledAt <= w.now
    ensures
      var i := Sampled(w, Begun(w.items[j]));
      Drive(w, [Claim(j), Read(j), Finish(j)] + rest, fine, d)
      == Drive(w.(items := w.items[j := Ended(i, w.now, d(j, i.attempt))]), rest, fine, d)
  {
    var steps := [Claim(j), Read(j), Finish(j)] + rest;
    var w1 := Next(w, Claim(j), fine, d);
    var w2 := Next(w1, Read(j), fine, d);
    var w3 := Next(w2, Finish(j), fine, d);
    assert steps[1..][1..][1..] == rest;
    assert Drive(w, steps, fine, d) == Drive(w1, steps[1..], fine, d);
    assert Drive(w1, steps[1..], fine, d) == Drive(w2, steps[1..][1..], fine, d);
    assert w3.items == w.items[j := w3.items[j]];
  }

  lemma AdvanceRun(w: World, at: int, rest: seq<Step>, fine: bool, d: Delays)
    requires w.advancer.Watching? && Look(w, fine) == Moving(at) && w.now < at
    ensures Drive(w, [Observe, Move] + rest, fine, d)
         == Drive(w.(now := at + NUDGE, moves := w.moves + 1), rest, fine, d)
  {
    var steps := [Observe, Move] + rest;
    var v := Next(w, Observe, fine, d);
    assert steps[1..][1..] == rest;
    assert Drive(w, steps, fine, d) == Drive(v, steps[1..], fine, d);
  }

  const MILLISECOND: int := 1_000_000
  const SECOND: int := 1000 * MILLISECOND
  const MINUTE: int := 60 * SECOND

  /** Three attempts on the default ladder under an outage of 2.6 seconds. */
  function Example(): Cohort {
    Cohort(0, 3, (a: nat) => JitterLow(Backoff(SECOND, MINUTE, a)), (a: nat) => JitterHigh(Backoff(SECOND, MINUTE, a)),
           2600 * MILLISECOND)
  }

  /** The first retry of one job comes after 760 milliseconds and of the other after 1240, the second of each
      after 1600: all within a quarter of their rungs. */
  function Uneven(j: nat, a: nat): int {
    if a > 1 then 1600 * MILLISECOND else if j == 0 then 760 * MILLISECOND else 1240 * MILLISECOND
  }

  function Pair(now: int, a: Item, b: Item, moves: nat): World {
    World(now, Some(2600 * MILLISECOND), [a, b], Watching, moves)
  }

  lemma FirstRun(a: Item, b: Item, now: int, moves: nat, i: Item, rest: seq<Step>, fine: bool)
    returns (steps: seq<Step>)
    requires Claimable(a.state) && a.scheduledAt <= now
    requires i == Ended(Sampled(Pair(now, a, b, moves), Begun(a)), now, Uneven(0, a.attempt + 1))
    ensures Drive(Pair(now, a, b, moves), steps, fine, Uneven) == Drive(Pair(now, i, b, moves), rest, fine, Uneven)
  {
    steps := [Claim(0), Read(0), Finish(0)] + rest;
    AttemptRun(Pair(now, a, b, moves), 0, rest, fine, Uneven);
    assert [a, b][0 := i] == [i, b];
  }

  lemma SecondRun(a: Item, b: Item, now: int, moves: nat, i: Item, rest: seq<Step>, fine: bool)
    returns (steps: seq<Step>)
    requires Claimable(b.state) && b.scheduledAt <= now
    requires i == Ended(Sampled(Pair(now, a, b, moves), Begun(b)), now, Uneven(1, b.attempt + 1))
    ensures Drive(Pair(now, a, b, moves), steps, fine, Uneven) == Drive(Pair(now, a, i, moves), rest, fine, Uneven)
  {
    steps := [Claim(1), Read(1), Finish(1)] + rest;
    AttemptRun(Pair(now, a, b, moves), 1, rest, fine, Uneven);
    assert [a, b][1 := i] == [a, i];
  }

  /** The one pending job's instant, or the nearer or the further of two. */
  function Stop(a: Item, b: Item, now: int, fine: bool): int {
    if !Pending(a, now) then b.scheduledAt
    else if !Pending(b, now) then a.scheduledAt
    else
      var (near, far) := if a.scheduledAt <= b.scheduledAt then (a, b) else (b, a);
      if fine || 2600 * MILLISECOND <= far.scheduledAt then near.scheduledAt else far.scheduledAt
  }

  lemma PairAdvance(a: Item, b: Item, now: int, moves: nat, at: int, rest: seq<Step>, fine: bool)
    returns (steps: seq<Step>)
    requires !Actionable(a, now) && !Actionable(b, now) && (Pending(a, now) || Pending(b, now))
    requires at == Stop(a, b, now, fine)
    ensures Drive(Pair(now, a, b, moves), steps, fine, Uneven)
         == Drive(Pair(at + NUDGE, a, b, moves + 1), rest, fine, Uneven)
  {
    steps := [Observe, Move] + rest;
    var w := Pair(now, a, b, moves);
    assert w.items[0] == a && w.items[1] == b;
    assert Earliest(w.items, now).Some? && Latest(w.items, now).Some?;
    AdvanceRun(w, at, rest, fine, Uneven);
  }

  lemma PairEnds(a: Item, b: Item, now: int, moves: nat, fine: bool) returns (steps: seq<Step>)
    requires Terminal(a.state) && Terminal(b.state)
    ensures Drive(Pair(now, a, b, moves), steps, fine, Uneven) == Pair(now, a, b, moves).(advancer := Finished)
  {
    steps := [Observe];
    var w := Pair(now, a, b, moves);
    var v := Next(w, Observe, fine, Uneven);
    assert w.items == [a, b];
    assert Drive(w, [Observe], fine, Uneven) == Drive(v, [Observe][1..], fine, Uneven) == v;
  }

  /** Waiting for its next attempt after n failures. */
  function Waiting(at: int, n: nat): Item {
    Item(Retryable, at, n, 3, n, Some(true))
  }

  /** The instants of the example, each move a nudge past its target: the second attempts of the two jobs, and
      their third. */
  const SOON: int := 760 * MILLISECOND + NUDGE
  const LATE: int := 1240 * MILLISECOND + NUDGE
  const SOON_NEXT: int := SOON + 1600 * MILLISECOND
  const LATE_NEXT: int := LATE + 1600 * MILLISECOND

  function Gone(at: int): Item {
    Item(Succeeded, at, 3, 3, 2, Some(false))
  }

  function Spent(at: int): Item {
    Item(Discarded, at, 3, 3, 3, Some(true))
  }

  /** Whole-rung jumps: both jobs past the outage after two failures each. */
  function DraggedEnd(): World {
    Pair(LATE_NEXT + NUDGE, Gone(LATE_NEXT), Gone(LATE_NEXT), 2).(advancer := Finished)
  }

  /** Fine steps: the first job discarded with three failures, the second succeeded after two. */
  function SteppedEnd(): World {
    Pair(LATE_NEXT + NUDGE, Spent(SOON_NEXT), Gone(LATE_NEXT), 4).(advancer := Finished)
  }

  lemma UnevenLastRung() returns (steps: seq<Step>)
    ensures Drive(Pair(LATE, Waiting(SOON - NUDGE, 1), Waiting(LATE - NUDGE, 1), 1), steps, false, Uneven)
         == DraggedEnd()
  {
    var a, b := Waiting(LATE_NEXT, 2), Waiting(LATE_NEXT, 2);
    steps := PairEnds(Gone(LATE_NEXT), Gone(LATE_NEXT), LATE_NEXT + NUDGE, 2, false);
    steps := SecondRun(Gone(LATE_NEXT), b, LATE_NEXT + NUDGE, 2, Gone(LATE_NEXT), steps, false);
    steps := FirstRun(a, b, LATE_NEXT + NUDGE, 2, Gone(LATE_NEXT), steps, false);
    steps := PairAdvance(a, b, LATE, 1, LATE_NEXT, steps, false);
    steps := SecondRun(a, Waiting(LATE - NUDGE, 1), LATE, 1, b, steps, false);
    steps := FirstRun(Waiting(SOON - NUDGE, 1), Waiting(LATE - NUDGE, 1), LATE, 1, a, steps, false);
  }

  lemma UnevenThird() returns (steps: seq<Step>)
    ensures Drive(Pair(SOON_NEXT + NUDGE, Waiting(SOON_NEXT, 2), Waiting(LATE_NEXT, 2), 3), steps, true, Uneven)
         == SteppedEnd()
  {
    var b, end := Waiting(LATE_NEXT, 2), LATE_NEXT + NUDGE;
    steps := PairEnds(Spent(SOON_NEXT), Gone(LATE_NEXT), end, 4, true);
    steps := SecondRun(Spent(SOON_NEXT), b, end, 4, Gone(LATE_NEXT), steps, true);
    steps := PairAdvance(Spent(SOON_NEXT), b, SOON_NEXT + NUDGE, 3, LATE_NEXT, steps, true);
    steps := FirstRun(Waiting(SOON_NEXT, 2), b, SOON_NEXT + NUDGE, 3, Spent(SOON_NEXT), steps, true);
  }

  lemma UnevenLastSteps() returns (steps: seq<Step>)
    ensures Drive(Pair(LATE, Waiting(SOON_NEXT, 2), Waiting(LATE - NUDGE, 1), 2), steps, true, Uneven) == SteppedEnd()
  {
    var a, b := Waiting(SOON_NEXT, 2), Waiting(LATE_NEXT, 2);
    steps := UnevenThird();
    steps := PairAdvance(a, b, LATE, 2, SOON_NEXT, steps, true);
    steps := SecondRun(a, Waiting(LATE - NUDGE, 1), LATE, 2, b, steps, true);
  }

  lemma UnevenNextSteps() returns (steps: seq<Step>)
    ensures Drive(Pair(SOON, Waiting(SOON - NUDGE, 1), Waiting(LATE - NUDGE, 1), 1), steps, true, Uneven)
         == SteppedEnd()
  {
    var a, b := Waiting(SOON_NEXT, 2), Waiting(LATE - NUDGE, 1);
    steps := UnevenLastSteps();
    steps := PairAdvance(a, b, SOON, 1, LATE - NUDGE, steps, true);
    steps := FirstRun(Waiting(SOON - NUDGE, 1), b, SOON, 1, a, steps, true);
  }

  lemma UnevenOpening(i: Item, rest: seq<Step>, fine: bool) returns (steps: seq<Step>)
    requires i == Item(Available, 0, 0, 3, 0, None)
    ensures Drive(Pair(0, i, i, 0), steps, fine, Uneven)
         == Drive(Pair(0, Waiting(SOON - NUDGE, 1), Waiting(LATE - NUDGE, 1), 0), rest, fine, Uneven)
  {
    steps := SecondRun(Waiting(SOON - NUDGE, 1), i, 0, 0, Waiting(LATE - NUDGE, 1), rest, fine);
    steps := FirstRun(i, i, 0, 0, Waiting(SOON - NUDGE, 1), steps, fine);
  }

  lemma UnevenJumps(i: Item) returns (steps: seq<Step>)
    requires i == Item(Available, 0, 0, 3, 0, None)
    ensures Drive(Pair(0, i, i, 0), steps, false, Uneven) == DraggedEnd()
  {
    steps := UnevenLastRung();
    steps := PairAdvance(Waiting(SOON - NUDGE, 1), Waiting(LATE - NUDGE, 1), 0, 0, LATE - NUDGE, steps, false);
    steps := UnevenOpening(i, steps, false);
  }

  lemma UnevenSteps(i: Item) returns (steps: seq<Step>)
    requires i == Item(Available, 0, 0, 3, 0, None)
    ensures Drive(Pair(0, i, i, 0), steps, true, Uneven) == SteppedEnd()
  {
    steps := UnevenNextSteps();
    steps := PairAdvance(Waiting(SOON - NUDGE, 1), Waiting(LATE - NUDGE, 1), 0, 0, SOON - NUDGE, steps, true);
    steps := UnevenOpening(i, steps, true);
  }

  lemma ExampleLadder(c: Cohort)
    requires c == Example()
    ensures OnLadder(c, SECOND, MINUTE) && Within(c, Uneven)
  {
    forall j: nat, a: nat | 1 <= a < c.budget ensures c.lo(a) <= Uneven(j, a) <= c.hi(a) {
      assert a == 2 ==> Backoff(SECOND, MINUTE, a) == 2 * Backoff(SECOND, MINUTE, a - 1);
    }
  }

  /** Two jobs on the runner's default ladder, three attempts, an outage of 2.6 seconds. Whole-rung jumps drag the
      first job's second attempt from 760 to 1240 milliseconds, so its third is due past the end and it succeeds
      after two failures. Fine steps under the same delays fail it a third time at 2360 milliseconds. */
  lemma UnevenVolumeDiffers(c: Cohort) returns (jumps: seq<Step>, steps: seq<Step>)
    requires c == Example()
    ensures OnLadder(c, SECOND, MINUTE) && Opened(c, Crew(c, 2)) && Within(c, Uneven)
    ensures Drive(Crew(c, 2), jumps, false, Uneven) == DraggedEnd()
    ensures Drive(Crew(c, 2), steps, true, Uneven) == SteppedEnd()
  {
    ExampleLadder(c);
    CrewOpened(c, 2);
    assert Crew(c, 2) == Pair(0, Untried(c, 0), Untried(c, 0), 0);
    jumps := UnevenJumps(Untried(c, 0));
    steps := UnevenSteps(Untried(c, 0));
  }
}
