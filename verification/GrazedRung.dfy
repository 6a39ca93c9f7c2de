/**
 An outage that ends in the last microsecond between two rungs: another job's move can make
 the sooner job due up to a nudge before a move of its own would, so fine stepping fits one
 more attempt of it inside the outage than whole-rung jumps do.
 */
module GrazedRung {
  import opened Options
  import opened JobTable
  import opened Outage
  import opened OutageVolume

  /** How far the latest instant of attempt r, nudged once more, is past the soonest of attempt r + 1. */
  function Overlap(c: Cohort, r: nat): int
    requires r >= 1
  {
    Limit(c, r - 1) + NUDGE - Soonest(c, r)
  }

  lemma OverlapNext(c: Cohort, r: nat)
    requires r >= 1
    ensures Overlap(c, r + 1) == Overlap(c, r) + c.hi(r) - c.lo(r + 1)
  {
  }

  lemma OverlapFirst(c: Cohort)
    ensures Overlap(c, 1) + c.lo(1) == 0
  {
    assert Soonest(c, 1) == Soonest(c, 0) + c.lo(1) + NUDGE && Soonest(c, 0) == c.base == Limit(c, 0);
  }

  /** Rung n is the first that the one before it comes within a nudge of, and the outage ends between them. */
  ghost predicate Grazes(c: Cohort, n: nat) {
    && Banded(c) && 2 <= n < c.budget && Soonest(c, 1) + NUDGE < Limit(c, 1)
    && (forall q: nat :: 1 <= q < n ==> Overlap(c, q) < 0)
    && 0 <= Overlap(c, n) && Limit(c, n - 1) < c.end <= Soonest(c, n)
  }

  lemma {:induction false} Spread(c: Cohort, n: nat, k: nat)
    requires Grazes(c, n) && 1 <= k < n
    ensures Soonest(c, k) + NUDGE < Limit(c, k)
  {
    if k > 1 {
      Spread(c, n, k - 1);
      assert c.lo(k) <= c.hi(k);
    }
  }

  // ---------------------------------------------------------------- the two jobs, stop by stop

  /** Waiting for attempt a + 1. */
  predicate Sits(c: Cohort, now: int, a: nat, due: int, i: Item) {
    i.maxAttempts == c.budget && Claimable(i.state) && i.attempt == i.failures == a && now < i.scheduledAt == due
  }

  /** After 2k moves: the clock is at the later job's attempt k + 1. */
  ghost predicate AtLate(c: Cohort, n: nat, d: Delays, w: World, k: nat) {
    && |w.items| == 2 && w.moves == 2 * k && k < n && w.now == Limit(c, k)
    && OnRung(c, w.now, k, d(1, k + 1), w.items[1])
    && if k == 0 then OnRung(c, w.now, k, d(0, k + 1), w.items[0])
       else if k < n - 1 then Sits(c, w.now, k + 1, Soonest(c, k + 1) - NUDGE, w.items[0])
       else OnRung(c, w.now, n, d(0, n + 1), w.items[0])
  }

  /** After 2k - 1 moves: the clock is at the sooner job's attempt k + 1. */
  ghost predicate AtSoon(c: Cohort, n: nat, d: Delays, w: World, k: nat) {
    && |w.items| == 2 && w.moves == 2 * k - 1 && 1 <= k < n && w.now == Soonest(c, k)
    && OnRung(c, w.now, k, d(0, k + 1), w.items[0])
    && Sits(c, w.now, k, Limit(c, k) - NUDGE, w.items[1])
  }

  ghost predicate Zipped(c: Cohort, n: nat, d: Delays, w: World) {
    && w.end == Some(c.end) && |w.items| == 2
    && (w.advancer.Moving? ==> Earliest(w.items, w.now) == Some(w.advancer.target))
    && (|| w.items[0].failures > n
        || (exists k: nat :: AtLate(c, n, d, w, k))
        || (exists k: nat :: AtSoon(c, n, d, w, k)))
  }

  ghost predicate Zips(c: Cohort, n: nat, d: Delays) {
    && (forall a: nat :: 1 <= a < c.budget ==> d(0, a) == c.lo(a))
    && (forall a: nat :: 1 <= a < n ==> d(1, a) == c.hi(a))
    && (forall j: nat, a: nat :: 1 <= a < c.budget ==> 1 <= d(j, a))
  }

  lemma StopInside(c: Cohort, n: nat, k: nat)
    requires Grazes(c, n) && k < n
    ensures Limit(c, k) < c.end && Soonest(c, k) < c.end
  {
    DeadlineGrows(c.base, c.hi, k, n - 1);
    if k > 0 { Spread(c, n, k); } else { assert Soonest(c, k) == Limit(c, k); }
  }

  lemma LateJob(c: Cohort, n: nat, w: World, k: nat, step: Step, d: Delays)
    requires Grazes(c, n) && Zips(c, n, d) && w.end == Some(c.end)
    requires AtLate(c, n, d, w, k) && JobStep(step)
    ensures
      var v := Next(w, step, true, d);
      v.items[0].failures > n || AtLate(c, n, d, v, k)
  {
    if Next(w, step, true, d) != w {
      var j := step.item;
      JobNext(w, step, true, d);
      StopInside(c, n, k);
      if j == 1 {
        assert 1 <= d(1, k + 1);
        OnRungAfter(c, w, k, step, w.items[1], d(1, k + 1));
      } else if k == 0 {
        assert 1 <= d(0, k + 1);
        OnRungAfter(c, w, k, step, w.items[0], d(0, k + 1));
      }
    }
  }

  lemma SoonJob(c: Cohort, n: nat, w: World, k: nat, step: Step, d: Delays)
    requires Grazes(c, n) && Zips(c, n, d) && w.end == Some(c.end)
    requires AtSoon(c, n, d, w, k) && JobStep(step)
    ensures AtSoon(c, n, d, Next(w, step, true, d), k)
  {
    if Next(w, step, true, d) != w {
      JobNext(w, step, true, d);
      StopInside(c, n, k);
      assert 1 <= d(0, k + 1);
      OnRungAfter(c, w, k, step, w.items[0], d(0, k + 1));
    }
  }

  lemma FailuresStay(w: World, step: Step, d: Delays)
    requires |w.items| == 2
    ensures |Next(w, step, true, d).items| == 2
    ensures Next(w, step, true, d).items[0].failures >= w.items[0].failures
  {
  }

  lemma NearestOfTwo(w: World, min: int)
    requires |w.items| == 2 && Pending(w.items[0], w.now) && Pending(w.items[1], w.now)
    requires Earliest(w.items, w.now) == Some(min)
    ensures min == w.items[0].scheduledAt || min == w.items[1].scheduledAt
    ensures min <= w.items[0].scheduledAt && min <= w.items[1].scheduledAt
  {
    var j :| 0 <= j < |w.items| && Pending(w.items[j], w.now) && w.items[j].scheduledAt == min;
  }

  /** From a later job's stop the sooner job moves the clock, to its own next attempt. */
  lemma LateMove(c: Cohort, n: nat, w: World, k: nat, d: Delays)
    requires Grazes(c, n) && Zips(c, n, d) && Sound(w) && Zipped(c, n, d, w) && w.advancer.Moving?
    requires AtLate(c, n, d, w, k) && w.items[0].failures <= n
    ensures AtSoon(c, n, d, Next(w, Move, true, d), k + 1)
  {
    assert !Actionable(w.items[0], w.now) && !Actionable(w.items[1], w.now);
    assert k < n - 1 && (k == 0 ==> Soonest(c, k) == Limit(c, k));
    assert d(0, k + 1) == c.lo(k + 1) && d(1, k + 1) == c.hi(k + 1);
    Spread(c, n, k + 1);
    NearestOfTwo(w, w.advancer.target);
    assert w.items[0].scheduledAt == Soonest(c, k + 1) - NUDGE;
    assert w.items[1].scheduledAt == Limit(c, k + 1) - NUDGE;
  }

  /** From a sooner job's stop the later job moves it; on the last rung that makes the sooner job due too. */
  lemma SoonMove(c: Cohort, n: nat, w: World, k: nat, d: Delays)
    requires Grazes(c, n) && Zips(c, n, d) && Sound(w) && Zipped(c, n, d, w) && w.advancer.Moving?
    requires AtSoon(c, n, d, w, k)
    ensures AtLate(c, n, d, Next(w, Move, true, d), k)
  {
    assert !Actionable(w.items[0], w.now) && !Actionable(w.items[1], w.now);
    assert d(0, k + 1) == c.lo(k + 1);
    assert w.items[0].scheduledAt == Soonest(c, k + 1) - NUDGE;
    assert k + 1 < n ==> Overlap(c, k + 1) < 0;
    NearestOfTwo(w, w.advancer.target);
  }

  lemma ZippedStep(c: Cohort, n: nat, w: World, step: Step, d: Delays)
    requires Grazes(c, n) && Zips(c, n, d) && Sound(w) && Zipped(c, n, d, w)
    ensures Zipped(c, n, d, Next(w, step, true, d))
  {
    var v := Next(w, step, true, d);
    FailuresStay(w, step, d);
    if w.items[0].failures <= n && v != w {
      if k: nat :| AtLate(c, n, d, w, k) {
        if JobStep(step) { LateJob(c, n, w, k, step, d); }
        else if step.Move? { LateMove(c, n, w, k, d); }
        else { assert AtLate(c, n, d, v, k); }
      } else {
        var k: nat :| AtSoon(c, n, d, w, k);
        if JobStep(step) { SoonJob(c, n, w, k, step, d); }
        else if step.Move? { SoonMove(c, n, w, k, d); }
        else { assert AtSoon(c, n, d, v, k); }
      }
    }
  }

  lemma {:induction false} ZippedRun(c: Cohort, n: nat, w: World, steps: seq<Step>, d: Delays)
    requires Grazes(c, n) && Zips(c, n, d) && Sound(w) && Zipped(c, n, d, w)
    ensures Sound(Drive(w, steps, true, d)) && Zipped(c, n, d, Drive(w, steps, true, d))
    decreases |steps|
  {
    if |steps| > 0 {
      StepKeepsSound(w, steps[0], true, d);
      ZippedStep(c, n, w, steps[0], d);
      ZippedRun(c, n, Next(w, steps[0], true, d), steps[1..], d);
    }
  }

  lemma ZippedFails(c: Cohort, n: nat, d: Delays, u: World)
    requires Sound(u) && Zipped(c, n, d, u) && u.advancer.Finished?
    ensures u.items[0].failures > n
  {
    assert !Actionable(u.items[1], u.now) && !Pending(u.items[1], u.now);
  }

  lemma GrazeEndsOn(c: Cohort, n: nat)
    requires Grazes(c, n)
    ensures EndsOn(c, n)
  {
    Spread(c, n, n - 1);
    assert c.lo(n) <= c.hi(n);
  }

  /** Where the outage ends between two rungs that come within a nudge of each other, fine stepping fails the
      sooner of two jobs once more than whole-rung jumps do. */
  lemma GrazeDiffers(c: Cohort, n: nat)
    requires Grazes(c, n)
    ensures !VolumesAgree(c)
  {
    var w := Crew(c, 2);
    GrazeEndsOn(c, n);
    CrewOpened(c, 2);
    var d, jumps := DraggedVolume(c, n);
    var steps := DrainExists(w, true, d);
    assert Zips(c, n, d);
    assert Zipped(c, n, d, w) by {
      var k: nat :| k == 0;
      assert AtLate(c, n, d, w, k);
    }
    ZippedRun(c, n, w, steps, d);
    ZippedFails(c, n, d, Drive(w, steps, true, d));
    Disagree(c, w, d, jumps, steps);
  }
}
