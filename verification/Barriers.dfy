/**
 Fan-in barriers over every run: a declared barrier always has a child left to wait
 for, and it fires, with one continuation ever, in the transaction that ends the last.
 */
module Barriers {
  import opened Options
  import opened JobTable
  import opened Lease
  import opened RowSteps

  ghost predicate LiveAt(jobs: seq<Job>, p: nat)
    requires p < |jobs|
  {
    jobs[p].barrier.Some? ==> PendingChild(jobs, p)
  }

  /** No barrier is stuck: each one declared has a pending child whose end will run the check. */
  ghost predicate BarriersLive(jobs: seq<Job>) {
    forall p :: 0 <= p < |jobs| ==> LiveAt(jobs, p)
  }

  ghost predicate UniqueKeys(jobs: seq<Job>) {
    forall i, j :: 0 <= i < j < |jobs| && jobs[i].uniqueKey.Some? ==> jobs[i].uniqueKey != jobs[j].uniqueKey
  }

  // ---------------------------------------------------------------- when a declaration is live

  /** Some follow-up under the declaring job will land: unkeyed, or the first holder of a free key. */
  predicate LandsChild(jobs: seq<Job>, fus: seq<FollowUp>) {
    exists k :: 0 <= k < |fus| && LandsAt(jobs, fus, k)
  }

  predicate LandsAt(jobs: seq<Job>, fus: seq<FollowUp>, k: nat)
    requires k < |fus|
  {
    && fus[k].parent
    && (|| fus[k].key.None?
        || (!KeyTaken(jobs, UserKey(fus[k].key.value)) && forall l :: 0 <= l < k ==> fus[l].key != fus[k].key))
  }

  lemma KeyTakenAfterInsert(jobs: seq<Job>, row: Job, key: UniqueKey)
    ensures KeyTaken(Insert(jobs, row), key) <==> KeyTaken(jobs, key) || row.uniqueKey == Some(key)
  {
    var next := Insert(jobs, row);
    if KeyTaken(jobs, key) {
      var i :| 0 <= i < |jobs| && jobs[i].uniqueKey == Some(key);
      assert next[i].uniqueKey == Some(key);
    } else if row.uniqueKey == Some(key) {
      assert next[|jobs|].uniqueKey == Some(key);
    }
  }

  lemma PendingAfterInsert(jobs: seq<Job>, row: Job, p: nat)
    requires !Terminal(row.state)
    ensures PendingChild(Insert(jobs, row), p) <==>
      PendingChild(jobs, p) || (row.parent == Some(p) && (row.uniqueKey.None? || !KeyTaken(jobs, row.uniqueKey.value)))
  {
    var next := Insert(jobs, row);
    if PendingChild(jobs, p) {
      var c :| 0 <= c < |jobs| && jobs[c].parent == Some(p) && !Terminal(jobs[c].state);
      assert next[c] == jobs[c];
    } else if |next| > |jobs| && row.parent == Some(p) {
      assert next[|jobs|].parent == Some(p);
    }
  }

  lemma LandsStep(jobs: seq<Job>, fus: seq<FollowUp>, p: nat, now: int)
    requires |fus| > 0
    ensures LandsChild(jobs, fus) <==>
      LandsAt(jobs, fus, 0) || LandsChild(Insert(jobs, ChildRow(fus[0], p, now)), fus[1..])
  {
    var next := Insert(jobs, ChildRow(fus[0], p, now));
    forall k | 1 <= k < |fus|
      ensures LandsAt(jobs, fus, k) <==> LandsAt(next, fus[1..], k - 1)
    {
      if fus[k].key.Some? {
        KeyTakenAfterInsert(jobs, ChildRow(fus[0], p, now), UserKey(fus[k].key.value));
        assert (forall l :: 0 <= l < k ==> fus[l].key != fus[k].key) <==>
               (fus[0].key != fus[k].key && forall l :: 0 <= l < k - 1 ==> fus[1..][l].key != fus[1..][k - 1].key) by {
          assert forall l :: 1 <= l < k ==> fus[l] == fus[1..][l - 1];
          assert forall l :: 0 <= l < k - 1 ==> fus[1..][l] == fus[l + 1];
        }
      }
    }
    if LandsChild(jobs, fus) {
      var k :| 0 <= k < |fus| && LandsAt(jobs, fus, k);
      if k > 0 { assert LandsAt(next, fus[1..], k - 1); }
    }
    if LandsChild(next, fus[1..]) {
      var k :| 0 <= k < |fus[1..]| && LandsAt(next, fus[1..], k);
      assert LandsAt(jobs, fus, k + 1);
    }
  }

  /** A fan-out leaves its declaring job a pending child exactly when a child was pending or one lands. */
  lemma {:induction false} FollowUpsPending(jobs: seq<Job>, fus: seq<FollowUp>, p: nat, now: int)
    ensures PendingChild(InsertFollowUps(jobs, fus, p, now), p) <==> PendingChild(jobs, p) || LandsChild(jobs, fus)
    decreases |fus|
  {
    if |fus| > 0 {
      var row := ChildRow(fus[0], p, now);
      PendingAfterInsert(jobs, row, p);
      LandsStep(jobs, fus, p, now);
      FollowUpsPending(Insert(jobs, row), fus[1..], p, now);
    }
  }

  lemma {:induction false} FollowUpsKeepLive(jobs: seq<Job>, fus: seq<FollowUp>, p: nat, now: int, q: nat)
    requires q < |jobs| && LiveAt(jobs, q)
    ensures LiveAt(InsertFollowUps(jobs, fus, p, now), q)
    decreases |fus|
  {
    if |fus| > 0 {
      PendingAfterInsert(jobs, ChildRow(fus[0], p, now), q);
      FollowUpsKeepLive(Insert(jobs, ChildRow(fus[0], p, now)), fus[1..], p, now, q);
    }
  }

  // ---------------------------------------------------------------- firing

  ghost predicate LiveExcept(jobs: seq<Job>, p: nat) {
    forall q :: 0 <= q < |jobs| && q != p ==> LiveAt(jobs, q)
  }

  lemma FireLive(jobs: seq<Job>, p: nat, now: int)
    requires LiveExcept(jobs, p)
    ensures BarriersLive(FireBarrier(jobs, p, now))
  {
    var next := FireBarrier(jobs, p, now);
    forall q | 0 <= q < |next| ensures LiveAt(next, q) {
      if q < |jobs| && q != p && jobs[q].barrier.Some? {
        assert LiveAt(jobs, q);
        var c :| 0 <= c < |jobs| && jobs[c].parent == Some(q) && !Terminal(jobs[c].state);
        assert next[c].parent == Some(q) && !Terminal(next[c].state);
      }
    }
  }

  /** Nothing ended: a pending child stays pending, and no barrier was declared. */
  lemma NothingEndedLive(a: seq<Job>, b: seq<Job>)
    requires BarriersLive(a) && NothingEnded(a, b)
    ensures BarriersLive(b)
  {
    forall p | 0 <= p < |b| ensures LiveAt(b, p) {
      if p < |a| && a[p].barrier.Some? {
        assert LiveAt(a, p);
        var c :| 0 <= c < |a| && a[c].parent == Some(p) && !Terminal(a[c].state);
        assert b[c].parent == Some(p) && !Terminal(b[c].state);
      }
    }
  }

  /** One row changed: every barrier but its parent's and its own still has its pending child, and so do
      those two if the row did not end and declared nothing. */
  lemma RowChangedLive(a: seq<Job>, i: nat, row: Job, q: nat)
    requires BarriersLive(a) && i < |a| && q < |a| && a[i].parent != Some(i) && row.parent == a[i].parent
    requires q == i ==> row.barrier == a[i].barrier
    requires Some(q) == a[i].parent ==> !Terminal(row.state)
    ensures LiveAt(a[i := row], q)
  {
    if a[q].barrier.Some? {
      assert LiveAt(a, q);
      var c :| 0 <= c < |a| && a[c].parent == Some(q) && !Terminal(a[c].state);
      assert a[i := row][c].parent == Some(q) && !Terminal(a[i := row][c].state);
    }
  }

  lemma AdvanceLive(jobs: seq<Job>, raw: RawJob, plan: Plan, result: Result, now: int)
    requires BarriersLive(jobs) && raw.id < |jobs| && raw.parent == jobs[raw.id].parent
    requires raw.parent.Some? ==> raw.parent.value < raw.id
    requires plan.followUps && result.barrier.Some? ==> LandsChild(jobs, result.followUps)
    ensures BarriersLive(AdvancedJobs(jobs, raw, plan, result, now))
  {
    var declared := if plan.followUps then result.barrier else None;
    var jobs1 := jobs[raw.id := Advance(jobs[raw.id], plan, declared)];
    var jobs2 := if plan.followUps then InsertFollowUps(jobs1, result.followUps, raw.id, now) else jobs1;
    assert LandsChild(jobs, result.followUps) ==> LandsChild(jobs1, result.followUps) by {
      SameKeysLand(jobs, jobs1, result.followUps);
    }
    var ended := raw.parent.Some? && Terminal(plan.state);
    forall q | 0 <= q < |jobs2| && !(ended && Some(q) == raw.parent) ensures LiveAt(jobs2, q) {
      if q >= |jobs| {
        FollowUpsPrefix(jobs1, result.followUps, raw.id, now);
      } else if q == raw.id && declared.Some? {
        FollowUpsPending(jobs1, result.followUps, raw.id, now);
      } else {
        RowChangedLive(jobs, raw.id, jobs1[raw.id], q);
        if plan.followUps { FollowUpsKeepLive(jobs1, result.followUps, raw.id, now, q); }
      }
    }
    if ended {
      FireLive(jobs2, raw.parent.value, now);
    }
  }

  lemma SameKeysLand(a: seq<Job>, b: seq<Job>, fus: seq<FollowUp>)
    requires |a| == |b| && forall i :: 0 <= i < |a| ==> a[i].uniqueKey == b[i].uniqueKey
    ensures LandsChild(a, fus) ==> LandsChild(b, fus)
  {
    if LandsChild(a, fus) {
      var k :| 0 <= k < |fus| && LandsAt(a, fus, k);
      assert LandsAt(b, fus, k);
    }
  }

  lemma {:induction false} FireParentsLive(before: seq<Job>, after: seq<Job>, p: nat, now: int)
    requires |before| <= |after| && p <= |before|
    requires forall q :: 0 <= q < |after| ==> LiveAt(after, q) || (p <= q < |before| && LostChild(before, after, q))
    ensures BarriersLive(FireParents(before, after, p, now))
    decreases |before| - p
  {
    if p < |before| {
      var next := if LostChild(before, after, p) then FireBarrier(after, p, now) else after;
      forall q | 0 <= q < |next|
        ensures LiveAt(next, q) || (p + 1 <= q < |before| && LostChild(before, next, q))
      {
        if q < |after| && q != p && LiveAt(after, q) && after[q].barrier.Some? {
          var c :| 0 <= c < |after| && after[c].parent == Some(q) && !Terminal(after[c].state);
          assert next[c].parent == Some(q) && !Terminal(next[c].state);
        } else if p < q < |before| && LostChild(before, after, q) {
          var i :| 0 <= i < |before| && before[i].parent == Some(q)
                   && before[i].state.Running? && after[i].state.Discarded?;
          assert next[i].state.Discarded?;
        }
      }
      FireParentsLive(before, next, p + 1, now);
    }
  }

  lemma SweepLive(o: Opts, db: Tables, ids: set<nat>, now: int)
    requires BarriersLive(db.jobs)
    ensures BarriersLive(Sweep(o, db, ids, now).jobs)
  {
    var after := Reclaimed(o, db, ids, now);
    forall q | 0 <= q < |after| ensures LiveAt(after, q) || LostChild(db.jobs, after, q) {
      assert LiveAt(db.jobs, q);
      if db.jobs[q].barrier.Some? {
        var c :| 0 <= c < |db.jobs| && db.jobs[c].parent == Some(q) && !Terminal(db.jobs[c].state);
        assert after[c].parent == Some(q);
      }
    }
    FireParentsLive(db.jobs, after, 0, now);
  }

  lemma CancelLive(db: Tables, id: nat, now: int)
    requires BarriersLive(db.jobs) && JobsOk(db)
    ensures BarriersLive(Cancel(db, id, now).jobs)
  {
    if id < |db.jobs| && !Terminal(db.jobs[id].state) {
      var j := db.jobs[id];
      var row := j.(state := Cancelled, leasedUntil := None, token := None, finalizedAt := Some(now));
      forall q | 0 <= q < |db.jobs| && Some(q) != j.parent ensures LiveAt(db.jobs[id := row], q) {
        RowChangedLive(db.jobs, id, row, q);
      }
      if j.parent.Some? { FireLive(db.jobs[id := row], j.parent.value, now); }
    }
  }

  /** The action declares no barrier whose every child would collide with a taken key. */
  predicate Covered(s: System, act: Action) {
    act.FinalizeAttempt? && act.att < |s.attempts| && act.result.barrier.Some?
      && PlanFinalize(s.attempts[act.att].raw, act.result, act.err, act.now).followUps
    ==> LandsChild(s.db.jobs, act.result.followUps)
  }

  predicate CoveredRun(o: Opts, s: System, acts: seq<Action>)
    decreases |acts|
  {
    |acts| > 0 ==> Covered(s, acts[0]) && CoveredRun(o, Apply(o, s, acts[0]), acts[1..])
  }

  ghost predicate NothingEnded(a: seq<Job>, b: seq<Job>) {
    && |a| <= |b|
    && (forall i :: 0 <= i < |a| ==>
          b[i].barrier == a[i].barrier && b[i].parent == a[i].parent && (Terminal(b[i].state) ==> Terminal(a[i].state)))
    && (forall i :: |a| <= i < |b| ==> b[i].barrier.None?)
  }

  lemma OthersEndNothing(o: Opts, s: System, act: Action)
    requires !act.FinalizeAttempt? && !act.SweepBatch? && !act.CancelJob?
    ensures NothingEnded(s.db.jobs, Apply(o, s, act).db.jobs)
  {
  }

  lemma StepLive(o: Opts, s: System, act: Action)
    requires Inv(s) && BarriersLive(s.db.jobs) && Covered(s, act)
    ensures BarriersLive(Apply(o, s, act).db.jobs)
  {
    match act {
      case FinalizeAttempt(a, result, err, now) =>
        if a < |s.attempts| && Holds(s.db.jobs, s.attempts[a].raw) {
          assert AttemptOk(s.db, s.attempts[a]);
          AdvanceLive(s.db.jobs, s.attempts[a].raw, PlanFinalize(s.attempts[a].raw, result, err, now), result, now);
        }
      case SweepBatch(ids, now) => SweepLive(o, s.db, ids, now);
      case CancelJob(id, now) => CancelLive(s.db, id, now);
      case _ => OthersEndNothing(o, s, act); NothingEndedLive(s.db.jobs, Apply(o, s, act).db.jobs);
    }
  }

  /** Over every run a declared barrier keeps a pending child, provided no declaration is childless. */
  lemma {:induction false} NoBarrierStuck(o: Opts, s: System, acts: seq<Action>)
    requires Inv(s) && BarriersLive(s.db.jobs) && CoveredRun(o, s, acts)
    ensures BarriersLive(Execute(o, s, acts).db.jobs)
    decreases |acts|
  {
    if |acts| > 0 {
      StepLive(o, s, acts[0]);
      StepKeepsInv(o, s, acts[0]);
      NoBarrierStuck(o, Apply(o, s, acts[0]), acts[1..]);
    }
  }

  lemma {:induction false} FollowUpsPrefix(jobs: seq<Job>, fus: seq<FollowUp>, p: nat, now: int)
    ensures
      var after := InsertFollowUps(jobs, fus, p, now);
      after[..|jobs|] == jobs && forall i :: |jobs| <= i < |after| ==> after[i].barrier.None?
    decreases |fus|
  {
    if |fus| > 0 { FollowUpsPrefix(Insert(jobs, ChildRow(fus[0], p, now)), fus[1..], p, now); }
  }

  // ---------------------------------------------------------------- a childless declaration

  /** A barrier finalize that advances leaves its barrier a child to wait for exactly when one was pending or
      one of its follow-ups lands. */
  lemma DeclarationLiveIff(o: Opts, s: System, a: nat, result: Result, now: int)
    requires Inv(s) && Advances(o, s, a, result, None, now)
    requires !result.cancel && result.snooze.None? && result.barrier.Some?
    ensures
      var id := s.attempts[a].raw.id;
      var t := Apply(o, s, FinalizeAttempt(a, result, None, now));
      && t.db.jobs[id].state.Succeeded? && t.db.jobs[id].barrier.Some?
      && (LiveAt(t.db.jobs, id) <==> PendingChild(s.db.jobs, id) || LandsChild(s.db.jobs, result.followUps))
  {
    var raw := s.attempts[a].raw;
    assert AttemptOk(s.db, s.attempts[a]);
    assert Apply(o, s, FinalizeAttempt(a, result, None, now)).db.jobs
        == AdvancedJobs(s.db.jobs, raw, PlanFinalize(raw, result, None, now), result, now);
    DeclaredPending(s.db.jobs, raw, result, now);
  }

  /** The rows the declaring finalize leaves, follow-ups inserted and its own parent's barrier checked. */
  lemma DeclaredPending(jobs: seq<Job>, raw: RawJob, result: Result, now: int)
    requires raw.id < |jobs| && raw.parent != Some(raw.id) && jobs[raw.id].parent != Some(raw.id)
    requires !result.cancel && result.snooze.None? && result.barrier.Some?
    ensures
      var after := AdvancedJobs(jobs, raw, PlanFinalize(raw, result, None, now), result, now);
      && raw.id < |after| && after[raw.id].state.Succeeded? && after[raw.id].barrier.Some?
      && (PendingChild(after, raw.id) <==> PendingChild(jobs, raw.id) || LandsChild(jobs, result.followUps))
  {
    var jobs1 := jobs[raw.id := Advance(jobs[raw.id], PlanFinalize(raw, result, None, now), result.barrier)];
    var jobs2 := InsertFollowUps(jobs1, result.followUps, raw.id, now);
    SameKeysLand(jobs, jobs1, result.followUps);
    SameKeysLand(jobs1, jobs, result.followUps);
    SamePending(jobs, jobs1, raw.id);
    FollowUpsPending(jobs1, result.followUps, raw.id, now);
    FollowUpsPrefix(jobs1, result.followUps, raw.id, now);
    assert jobs2[raw.id] == jobs1[raw.id] by { assert jobs2[..|jobs1|][raw.id] == jobs1[raw.id]; }
    if raw.parent.Some? { FireKeepsPending(jobs2, raw.parent.value, now, raw.id); }
  }

  /** A row that is no child of p changed. */
  lemma SamePending(a: seq<Job>, b: seq<Job>, p: nat)
    requires |a| == |b|
    requires forall i :: 0 <= i < |a| ==> a[i].parent == b[i].parent && (a[i].parent == Some(p) ==> a[i] == b[i])
    ensures PendingChild(a, p) <==> PendingChild(b, p)
  {
    if PendingChild(a, p) {
      var c :| 0 <= c < |a| && a[c].parent == Some(p) && !Terminal(a[c].state);
      assert b[c].parent == Some(p) && !Terminal(b[c].state);
    }
    if PendingChild(b, p) {
      var c :| 0 <= c < |b| && b[c].parent == Some(p) && !Terminal(b[c].state);
      assert a[c].parent == Some(p) && !Terminal(a[c].state);
    }
  }

  lemma FireKeepsPending(jobs: seq<Job>, p: nat, now: int, q: nat)
    requires q != p && q < |jobs|
    ensures PendingChild(FireBarrier(jobs, p, now), q) <==> PendingChild(jobs, q)
    ensures FireBarrier(jobs, p, now)[q] == jobs[q]
  {
  }

  // ---------------------------------------------------------------- a barrier with nothing to wait for

  /** A finished job whose barrier is set and whose every child is terminal. */
  ghost predicate Stuck(jobs: seq<Job>, p: nat) {
    p < |jobs| && Terminal(jobs[p].state) && jobs[p].barrier.Some? && !PendingChild(jobs, p)
  }

  /** A client's insert under p that lands. */
  predicate InsertsUnder(s: System, act: Action, p: nat) {
    act.Enqueue? && act.parent == Some(p) && (act.key.None? || !KeyTaken(s.db.jobs, UserKey(act.key.value)))
  }

  /** The action re-queues neither p nor a child of p, and inserts no child under it. */
  ghost predicate Spares(s: System, act: Action, p: nat) {
    && !InsertsUnder(s, act, p)
    && forall i :: 0 <= i < |s.db.jobs| && (i == p || s.db.jobs[i].parent == Some(p)) ==> !Requeues(s, act, i)
  }

  ghost predicate SparesRun(o: Opts, s: System, acts: seq<Action>, p: nat)
    decreases |acts|
  {
    |acts| > 0 ==> Spares(s, acts[0], p) && SparesRun(o, Apply(o, s, acts[0]), acts[1..], p)
  }

  lemma InsertStuck(jobs: seq<Job>, row: Job, p: nat)
    requires Stuck(jobs, p) && row.parent != Some(p)
    ensures Stuck(Insert(jobs, row), p)
  {
  }

  lemma FireStuck(jobs: seq<Job>, q: nat, now: int, p: nat)
    requires Stuck(jobs, p) && q != p
    ensures Stuck(FireBarrier(jobs, q, now), p)
  {
    FireKeepsPending(jobs, q, now, p);
  }

  lemma {:induction false} FollowUpsStuck(jobs: seq<Job>, fus: seq<FollowUp>, q: nat, now: int, p: nat)
    requires Stuck(jobs, p) && q != p
    ensures Stuck(InsertFollowUps(jobs, fus, q, now), p)
    decreases |fus|
  {
    if |fus| > 0 {
      InsertStuck(jobs, ChildRow(fus[0], q, now), p);
      FollowUpsStuck(Insert(jobs, ChildRow(fus[0], q, now)), fus[1..], q, now, p);
    }
  }

  lemma {:induction false} FireParentsStuck(before: seq<Job>, after: seq<Job>, q: nat, now: int, p: nat)
    requires |before| <= |after| && q <= |before| && Stuck(after, p) && p < |before| && !PendingChild(before, p)
    ensures Stuck(FireParents(before, after, q, now), p)
    decreases |before| - q
  {
    if q < |before| {
      if q != p { FireStuck(after, q, now, p); }
      var next := if LostChild(before, after, q) then FireBarrier(after, q, now) else after;
      FireParentsStuck(before, next, q + 1, now, p);
    }
  }

  /** Rows that do not touch p or its children's ends. */
  lemma KeptStuck(a: seq<Job>, b: seq<Job>, p: nat)
    requires Stuck(a, p) && |a| <= |b| && b[p].state == a[p].state && b[p].barrier == a[p].barrier
    requires forall i :: 0 <= i < |a| ==> b[i].parent == a[i].parent
    requires forall i :: 0 <= i < |a| && a[i].parent == Some(p) ==> Terminal(b[i].state)
    requires forall i :: |a| <= i < |b| ==> b[i].parent != Some(p)
    ensures Stuck(b, p)
  {
  }

  lemma ChildTerminal(jobs: seq<Job>, p: nat, i: nat)
    requires !PendingChild(jobs, p) && i < |jobs| && jobs[i].parent == Some(p)
    ensures Terminal(jobs[i].state)
  {
  }

  lemma AdvanceStuck(jobs: seq<Job>, raw: RawJob, plan: Plan, result: Result, now: int, p: nat)
    requires Stuck(jobs, p) && Holds(jobs, raw) && raw.parent == jobs[raw.id].parent
    ensures Stuck(AdvancedJobs(jobs, raw, plan, result, now), p)
  {
    if jobs[raw.id].parent == Some(p) {
      ChildTerminal(jobs, p, raw.id);
      assert false;
    }
    var jobs1 := jobs[raw.id := Advance(jobs[raw.id], plan, if plan.followUps then result.barrier else None)];
    SamePending(jobs, jobs1, p);
    FollowUpsStuck(jobs1, result.followUps, raw.id, now, p);
    var jobs2 := if plan.followUps then InsertFollowUps(jobs1, result.followUps, raw.id, now) else jobs1;
    if raw.parent.Some? { FireStuck(jobs2, raw.parent.value, now, p); }
  }

  lemma FinalizeStuck(
      o: Opts, s: System, a: nat, result: Result, err: Option<WorkError>, now: int, p: nat)
    requires Inv(s) && Stuck(s.db.jobs, p)
    ensures Stuck(ApplyFinalize(o, s, a, result, err, now).db.jobs, p)
  {
    if Advances(o, s, a, result, err, now) {
      assert AttemptOk(s.db, s.attempts[a]);
      AdvanceStuck(s.db.jobs, s.attempts[a].raw, PlanFinalize(s.attempts[a].raw, result, err, now), result, now, p);
    }
  }

  lemma SweepStuck(o: Opts, db: Tables, ids: set<nat>, now: int, p: nat)
    requires Stuck(db.jobs, p)
    ensures Stuck(Sweep(o, db, ids, now).jobs, p)
  {
    var after := Reclaimed(o, db, ids, now);
    forall i | 0 <= i < |after| && db.jobs[i].parent == Some(p)
      ensures Terminal(after[i].state)
    {
      ChildTerminal(db.jobs, p, i);
    }
    KeptStuck(db.jobs, after, p);
    FireParentsStuck(db.jobs, after, 0, now, p);
  }

  lemma CancelStuck(db: Tables, id: nat, now: int, p: nat)
    requires Stuck(db.jobs, p)
    ensures Stuck(Cancel(db, id, now).jobs, p)
  {
    if id < |db.jobs| && !Terminal(db.jobs[id].state) {
      var j := db.jobs[id];
      if j.parent == Some(p) {
        ChildTerminal(db.jobs, p, id);
        assert false;
      }
      var jobs := db.jobs[id := j.(state := Cancelled, leasedUntil := None, token := None, finalizedAt := Some(now))];
      SamePending(db.jobs, jobs, p);
      if j.parent.Some? { FireStuck(jobs, j.parent.value, now, p); }
    }
  }

  lemma PlainStuck(o: Opts, s: System, act: Action, p: nat)
    requires Stuck(s.db.jobs, p) && Spares(s, act, p)
    requires !act.FinalizeAttempt? && !act.SweepBatch? && !act.CancelJob?
    ensures Stuck(Apply(o, s, act).db.jobs, p)
  {
    var after := Apply(o, s, act).db.jobs;
    StepRows(o, s, act);
    OthersEndNothing(o, s, act);
    forall i | 0 <= i < |s.db.jobs| && (i == p || s.db.jobs[i].parent == Some(p))
      ensures after[i].state == s.db.jobs[i].state
    {
      if i != p { ChildTerminal(s.db.jobs, p, i); }
      assert !Requeues(s, act, i);
      TerminalStays(o, s, act, i);
      assert Core(after[i]) == Core(Moved(o, s, act, i));
    }
    KeptStuck(s.db.jobs, after, p);
  }

  lemma TerminalStays(o: Opts, s: System, act: Action, i: nat)
    requires i < |s.db.jobs| && Terminal(s.db.jobs[i].state) && !Requeues(s, act, i)
    requires !act.FinalizeAttempt? && !act.SweepBatch? && !act.CancelJob?
    ensures Moved(o, s, act, i).state == s.db.jobs[i].state
  {
  }

  lemma SparedStuck(o: Opts, s: System, act: Action, p: nat)
    requires Inv(s) && Stuck(s.db.jobs, p) && Spares(s, act, p)
    ensures Stuck(Apply(o, s, act).db.jobs, p)
  {
    match act {
      case FinalizeAttempt(a, result, err, now) => FinalizeStuck(o, s, a, result, err, now, p);
      case SweepBatch(ids, now) => SweepStuck(o, s.db, ids, now, p);
      case CancelJob(id, now) => CancelStuck(s.db, id, now, p);
      case _ => PlainStuck(o, s, act, p);
    }
  }

  lemma RequeuedUnstuck(o: Opts, s: System, act: Action, p: nat, i: nat)
    requires p < |s.db.jobs| && i < |s.db.jobs| && (i == p || s.db.jobs[i].parent == Some(p)) && Requeues(s, act, i)
    ensures !Stuck(Apply(o, s, act).db.jobs, p)
  {
    StepRows(o, s, act);
    var after := Apply(o, s, act).db.jobs;
    assert Core(after[i]) == Core(Moved(o, s, act, i));
    assert after[i].state.Available? && after[i].parent == s.db.jobs[i].parent;
  }

  lemma InsertedUnstuck(o: Opts, s: System, act: Action, p: nat)
    requires p < |s.db.jobs| && InsertsUnder(s, act, p)
    ensures
      var after := Apply(o, s, act).db.jobs;
      |after| == |s.db.jobs| + 1 && after[|s.db.jobs|].parent == Some(p) && !Terminal(after[|s.db.jobs|].state)
  {
  }

  /** One step leaves a stuck barrier stuck exactly when it neither re-queues its job or a child of it nor
      inserts a child under it. */
  lemma StuckStepIff(o: Opts, s: System, act: Action, p: nat)
    requires Inv(s) && Stuck(s.db.jobs, p)
    ensures Stuck(Apply(o, s, act).db.jobs, p) <==> Spares(s, act, p)
  {
    if Spares(s, act, p) {
      SparedStuck(o, s, act, p);
    } else if InsertsUnder(s, act, p) {
      InsertedUnstuck(o, s, act, p);
    } else {
      var i :| 0 <= i < |s.db.jobs| && (i == p || s.db.jobs[i].parent == Some(p)) && Requeues(s, act, i);
      RequeuedUnstuck(o, s, act, p, i);
    }
  }

  /** A finished job whose barrier has no child left to end never fires it: over every run that re-queues
      neither it nor a child of it and inserts no child under it, the barrier stays set. */
  lemma {:induction false} StuckForever(o: Opts, s: System, acts: seq<Action>, p: nat)
    requires Inv(s) && Stuck(s.db.jobs, p) && SparesRun(o, s, acts, p)
    ensures Stuck(Execute(o, s, acts).db.jobs, p)
    decreases |acts|
  {
    if |acts| > 0 {
      StuckStepIff(o, s, acts[0], p);
      StepKeepsInv(o, s, acts[0]);
      StuckForever(o, Apply(o, s, acts[0]), acts[1..], p);
    }
  }

  /** The barrier is stuck at every moment of the run. */
  ghost predicate AlwaysStuck(o: Opts, s: System, acts: seq<Action>, p: nat)
    decreases |acts|
  {
    Stuck(s.db.jobs, p) && (|acts| > 0 ==> AlwaysStuck(o, Apply(o, s, acts[0]), acts[1..], p))
  }

  /** Those are the only ways out: from a stuck barrier, a run keeps it stuck throughout if and only if it
      never re-queues its job or a child of it and never inserts a child under it. */
  lemma {:induction false} StuckForeverIff(o: Opts, s: System, acts: seq<Action>, p: nat)
    requires Inv(s) && Stuck(s.db.jobs, p)
    ensures AlwaysStuck(o, s, acts, p) <==> SparesRun(o, s, acts, p)
    decreases |acts|
  {
    if |acts| > 0 {
      StuckStepIff(o, s, acts[0], p);
      StepKeepsInv(o, s, acts[0]);
      if Spares(s, acts[0], p) { StuckForeverIff(o, Apply(o, s, acts[0]), acts[1..], p); }
    }
  }

  /** The barrier is cleared and its continuation is in the table. */
  ghost predicate Fired(jobs: seq<Job>, p: nat) {
    p < |jobs| && jobs[p].barrier.None? && KeyTaken(jobs, BarrierKey(p))
  }

  /** The one pending child of a job with a set barrier is cancelled: the barrier fires. */
  lemma CancelOnlyChildFires(db: Tables, p: nat, id: nat, now: int)
    requires p < |db.jobs| && id < |db.jobs| && p != id && db.jobs[p].barrier.Some?
    requires db.jobs[id].parent == Some(p) && !Terminal(db.jobs[id].state)
    requires forall c :: 0 <= c < |db.jobs| && c != id && db.jobs[c].parent == Some(p) ==> Terminal(db.jobs[c].state)
    ensures Fired(Cancel(db, id, now).jobs, p)
  {
    var row := db.jobs[id].(state := Cancelled, leasedUntil := None, token := None, finalizedAt := Some(now));
    var next := db.jobs[id := row];
    assert !PendingChild(next, p);
    assert Cancel(db, id, now).jobs == FireBarrier(next, p, now);
    FireResolves(next, p, now, p);
  }

  /** A client's insert under a stuck job fires its barrier when the new child ends: nothing is re-queued. */
  lemma InsertUnsticks(o: Opts, s: System, act: Action, p: nat, now: int)
    requires Stuck(s.db.jobs, p) && InsertsUnder(s, act, p)
    ensures Fired(Execute(o, s, [act, CancelJob(|s.db.jobs|, now)]).db.jobs, p)
  {
    var id, db := |s.db.jobs|, Apply(o, s, act).db;
    InsertedUnstuck(o, s, act, p);
    assert db.jobs[..id] == s.db.jobs;
    forall c | 0 <= c < |db.jobs| && c != id && db.jobs[c].parent == Some(p) ensures Terminal(db.jobs[c].state) {
      ChildTerminal(s.db.jobs, p, c);
    }
    ExecuteTwo(o, s, act, CancelJob(id, now));
    CancelOnlyChildFires(db, p, id, now);
  }

  /** So does the retry of a terminal child, when it ends again. */
  lemma RetryUnsticks(o: Opts, s: System, id: nat, opts: RetryOpts, at: int, p: nat, now: int)
    requires JobsOk(s.db) && Stuck(s.db.jobs, p)
    requires id < |s.db.jobs| && s.db.jobs[id].parent == Some(p) && RetryAllowed(s.db, id, opts)
    ensures Fired(Execute(o, s, [RetryJob(id, opts, at), CancelJob(id, now)]).db.jobs, p)
  {
    assert s.db.jobs[id].parent.value < id;
    var retry, cancel := RetryJob(id, opts, at), CancelJob(id, now);
    RetryAndCancel(s.db, id, opts, at, p, now);
    ExecuteTwo(o, s, retry, cancel);
    assert Apply(o, Apply(o, s, retry), cancel).db == Cancel(Retry(s.db, id, opts, at), id, now);
  }

  lemma RetryAndCancel(db: Tables, id: nat, opts: RetryOpts, at: int, p: nat, now: int)
    requires Stuck(db.jobs, p) && p != id < |db.jobs| && db.jobs[id].parent == Some(p) && RetryAllowed(db, id, opts)
    ensures Fired(Cancel(Retry(db, id, opts, at), id, now).jobs, p)
  {
    RetriedOnly(db, id, opts, at, p);
    CancelOnlyChildFires(Retry(db, id, opts, at), p, id, now);
  }

  lemma RetriedOnly(db: Tables, id: nat, opts: RetryOpts, at: int, p: nat)
    requires Stuck(db.jobs, p) && p != id < |db.jobs| && db.jobs[id].parent == Some(p) && RetryAllowed(db, id, opts)
    ensures
      var jobs := Retry(db, id, opts, at).jobs;
      && |jobs| == |db.jobs| && jobs[p] == db.jobs[p] && jobs[id].parent == Some(p) && !Terminal(jobs[id].state)
      && forall c :: 0 <= c < |jobs| && c != id && jobs[c].parent == Some(p) ==> Terminal(jobs[c].state)
  {
    forall c | 0 <= c < |db.jobs| && db.jobs[c].parent == Some(p) ensures Terminal(db.jobs[c].state) {
      ChildTerminal(db.jobs, p, c);
    }
  }

  /** A success that declares a barrier over one keyed follow-up. */
  function OverOneKey(key: string, args: Args): Result {
    Result(false, None, [FollowUp(args, true, Some(key))], Some(args))
  }

  lemma TakenKeyPasses(o: Opts, jobs: seq<Job>, key: string, args: Args)
    requires o.barrierMaxChildren >= 1 && KeyTaken(jobs, UserKey(key))
    ensures BarrierValid(o, OverOneKey(key, args)) && !LandsChild(jobs, OverOneKey(key, args).followUps)
  {
    var fus := OverOneKey(key, args).followUps;
    assert fus[1..] == [];
    assert ParentFollowUps(fus) == 1 + ParentFollowUps(fus[1..]);
  }

  /** The declaration check counts follow-ups, not rows. A barrier over one follow-up whose key is taken is
      accepted, its job succeeds, and the barrier is still set after every run that re-queues neither the
      job nor a child of it and inserts no child under it. */
  lemma ChildlessBarrierAccepted(
      o: Opts, s: System, a: nat, key: string, args: Args, now: int, acts: seq<Action>)
    requires Inv(s) && CanFinalize(s, a) && Holds(s.db.jobs, s.attempts[a].raw)
    requires o.barrierMaxChildren >= 1 && o.followUpLimit >= 1
    requires KeyTaken(s.db.jobs, UserKey(key)) && !PendingChild(s.db.jobs, s.attempts[a].raw.id)
    requires SparesRun(o, Apply(o, s, FinalizeAttempt(a, OverOneKey(key, args), None, now)), acts, s.attempts[a].raw.id)
    ensures BarrierValid(o, OverOneKey(key, args))
    ensures
      var t := Apply(o, s, FinalizeAttempt(a, OverOneKey(key, args), None, now));
      t.db.jobs != s.db.jobs && Stuck(Execute(o, t, acts).db.jobs, s.attempts[a].raw.id)
  {
    var result := OverOneKey(key, args);
    var t := Apply(o, s, FinalizeAttempt(a, result, None, now));
    TakenKeyPasses(o, s.db.jobs, key, args);
    assert Stuck(t.db.jobs, s.attempts[a].raw.id) by {
      assert AttemptOk(s.db, s.attempts[a]);
      DeclarationLiveIff(o, s, a, result, now);
    }
    StepKeepsInv(o, s, FinalizeAttempt(a, result, None, now));
    StuckForever(o, t, acts, s.attempts[a].raw.id);
  }

  // ---------------------------------------------------------------- one continuation, at the right moment

  lemma FireUnique(jobs: seq<Job>, p: nat, now: int)
    requires UniqueKeys(jobs)
    ensures UniqueKeys(FireBarrier(jobs, p, now))
  {
  }

  lemma {:induction false} FollowUpsUnique(jobs: seq<Job>, fus: seq<FollowUp>, p: nat, now: int)
    requires UniqueKeys(jobs)
    ensures UniqueKeys(InsertFollowUps(jobs, fus, p, now))
    decreases |fus|
  {
    if |fus| > 0 { FollowUpsUnique(Insert(jobs, ChildRow(fus[0], p, now)), fus[1..], p, now); }
  }

  lemma {:induction false} FireParentsUnique(before: seq<Job>, after: seq<Job>, p: nat, now: int)
    requires |before| <= |after| && p <= |before| && UniqueKeys(after)
    ensures UniqueKeys(FireParents(before, after, p, now))
    decreases |before| - p
  {
    if p < |before| {
      FireUnique(after, p, now);
      FireParentsUnique(before, if LostChild(before, after, p) then FireBarrier(after, p, now) else after, p + 1, now);
    }
  }

  ghost predicate KeysKept(a: seq<Job>, b: seq<Job>) {
    && |a| <= |b|
    && (forall i :: 0 <= i < |a| ==> b[i].uniqueKey == a[i].uniqueKey)
    && (forall i :: |a| <= i < |b| ==> b[i].uniqueKey.None?)
  }

  lemma KeepingKeysUnique(a: seq<Job>, b: seq<Job>)
    requires UniqueKeys(a) && KeysKept(a, b)
    ensures UniqueKeys(b)
  {
  }

  lemma OthersKeepKeys(o: Opts, s: System, act: Action)
    requires !act.FinalizeAttempt? && !act.SweepBatch? && !act.CancelJob? && !act.Enqueue?
    ensures KeysKept(s.db.jobs, Apply(o, s, act).db.jobs)
  {
  }

  lemma AdvanceUnique(jobs: seq<Job>, raw: RawJob, plan: Plan, result: Result, now: int)
    requires UniqueKeys(jobs) && raw.id < |jobs|
    ensures UniqueKeys(AdvancedJobs(jobs, raw, plan, result, now))
  {
    var jobs1 := jobs[raw.id := Advance(jobs[raw.id], plan, if plan.followUps then result.barrier else None)];
    KeepingKeysUnique(jobs, jobs1);
    FollowUpsUnique(jobs1, result.followUps, raw.id, now);
    var jobs2 := if plan.followUps then InsertFollowUps(jobs1, result.followUps, raw.id, now) else jobs1;
    if raw.parent.Some? { FireUnique(jobs2, raw.parent.value, now); }
  }

  lemma StepUnique(o: Opts, s: System, act: Action)
    requires UniqueKeys(s.db.jobs)
    ensures UniqueKeys(Apply(o, s, act).db.jobs)
  {
    match act {
      case FinalizeAttempt(a, result, err, now) =>
        if a < |s.attempts| && Holds(s.db.jobs, s.attempts[a].raw) {
          AdvanceUnique(s.db.jobs, s.attempts[a].raw, PlanFinalize(s.attempts[a].raw, result, err, now), result, now);
        }
      case SweepBatch(ids, now) =>
        var after := Reclaimed(o, s.db, ids, now);
        KeepingKeysUnique(s.db.jobs, after);
        FireParentsUnique(s.db.jobs, after, 0, now);
      case CancelJob(id, now) =>
        if id < |s.db.jobs| && !Terminal(s.db.jobs[id].state) {
          var j := s.db.jobs[id];
          var row := j.(state := Cancelled, leasedUntil := None, token := None, finalizedAt := Some(now));
          var jobs := s.db.jobs[id := row];
          KeepingKeysUnique(s.db.jobs, jobs);
          if j.parent.Some? { FireUnique(jobs, j.parent.value, now); }
        }
      case Enqueue(_, _, _, _, _) =>
      case _ => OthersKeepKeys(o, s, act); KeepingKeysUnique(s.db.jobs, Apply(o, s, act).db.jobs);
    }
  }

  /** A parent has at most one continuation row ever, over every run. */
  lemma {:induction false} OneContinuation(o: Opts, s: System, acts: seq<Action>, p: nat, i: nat, j: nat)
    requires UniqueKeys(s.db.jobs)
    requires i < |Execute(o, s, acts).db.jobs| && j < |Execute(o, s, acts).db.jobs|
    requires Execute(o, s, acts).db.jobs[i].uniqueKey == Execute(o, s, acts).db.jobs[j].uniqueKey == Some(BarrierKey(p))
    ensures i == j
    decreases |acts|
  {
    if |acts| > 0 {
      StepUnique(o, s, acts[0]);
      OneContinuation(o, Apply(o, s, acts[0]), acts[1..], p, i, j);
    }
  }

  /** A row the step has added holds the key. */
  ghost predicate Added(before: seq<Job>, after: seq<Job>, key: UniqueKey) {
    exists i :: |before| <= i < |after| && after[i].uniqueKey == Some(key)
  }

  /** What firing p's barrier means: every child of p among the rows before is terminal, and a continuation is
      there: added by this step exactly when no earlier firing had left one. */
  ghost predicate Resolved(before: seq<Job>, after: seq<Job>, p: nat) {
    && |before| <= |after|
    && (forall c :: 0 <= c < |before| && before[c].parent == Some(p) ==> Terminal(after[c].state))
    && KeyTaken(after, BarrierKey(p))
    && (Added(before, after, BarrierKey(p)) <==> !KeyTaken(before, BarrierKey(p)))
  }

  /** Rows are only appended, and those there keep their keys and parents. */
  ghost predicate KeysGrow(a: seq<Job>, b: seq<Job>) {
    |a| <= |b| && forall i :: 0 <= i < |a| ==> b[i].uniqueKey == a[i].uniqueKey && b[i].parent == a[i].parent
  }

  lemma TakenGrows(a: seq<Job>, b: seq<Job>, key: UniqueKey)
    requires KeysGrow(a, b)
    ensures KeyTaken(b, key) <==> KeyTaken(a, key) || Added(a, b, key)
  {
    if KeyTaken(a, key) {
      var i :| 0 <= i < |a| && a[i].uniqueKey == Some(key);
      assert b[i].uniqueKey == Some(key);
    }
  }

  lemma AddedTrans(a: seq<Job>, b: seq<Job>, c: seq<Job>, key: UniqueKey)
    requires KeysGrow(a, b) && KeysGrow(b, c)
    ensures KeysGrow(a, c)
    ensures Added(a, c, key) <==> Added(a, b, key) || Added(b, c, key)
  {
    if Added(a, b, key) {
      var i :| |a| <= i < |b| && b[i].uniqueKey == Some(key);
      assert c[i].uniqueKey == Some(key);
    } else if Added(a, c, key) {
      var i :| |a| <= i < |c| && c[i].uniqueKey == Some(key);
      assert |b| <= i;
    }
  }

  lemma FireResolves(jobs: seq<Job>, p: nat, now: int, q: nat)
    requires q < |jobs| && jobs[q].barrier.Some? && FireBarrier(jobs, p, now)[q].barrier.None?
    ensures p == q && KeysGrow(jobs, FireBarrier(jobs, p, now)) && Resolved(jobs, FireBarrier(jobs, p, now), q)
  {
    var next := FireBarrier(jobs, p, now);
    assert KeysGrow(jobs, next);
    if !KeyTaken(jobs, BarrierKey(p)) {
      assert next[|jobs|].uniqueKey == Some(BarrierKey(p));
    }
    TakenGrows(jobs, next, BarrierKey(p));
  }

  /** Another barrier's check, or one that did not clear this barrier, adds no continuation of it. */
  lemma FireOther(jobs: seq<Job>, p: nat, now: int, q: nat)
    requires q != p || q >= |jobs| || FireBarrier(jobs, p, now)[q].barrier.Some?
    ensures KeysGrow(jobs, FireBarrier(jobs, p, now)) && !Added(jobs, FireBarrier(jobs, p, now), BarrierKey(q))
  {
  }

  lemma {:induction false} FollowUpsOther(jobs: seq<Job>, fus: seq<FollowUp>, p: nat, now: int, q: nat)
    ensures
      var next := InsertFollowUps(jobs, fus, p, now);
      KeysGrow(jobs, next) && !Added(jobs, next, BarrierKey(q))
    decreases |fus|
  {
    if |fus| > 0 { FollowUpsOther(Insert(jobs, ChildRow(fus[0], p, now)), fus[1..], p, now, q); }
  }

  /** Parents are checked in id order, so once past q none of the rest adds its continuation. */
  lemma {:induction false} FireParentsOther(before: seq<Job>, after: seq<Job>, p: nat, now: int, q: nat)
    requires |before| <= |after| && p <= |before|
    ensures
      var jobs := FireParents(before, after, p, now);
      && KeysGrow(after, jobs) && (q < p ==> !Added(after, jobs, BarrierKey(q)))
      && (forall i :: 0 <= i < |after| ==> jobs[i].state == after[i].state)
    decreases |before| - p
  {
    if p < |before| {
      var next := if LostChild(before, after, p) then FireBarrier(after, p, now) else after;
      if q < p { FireOther(after, p, now, q); }
      FireParentsOther(before, next, p + 1, now, q);
      AddedTrans(after, next, FireParents(before, next, p + 1, now), BarrierKey(q));
    }
  }

  /** Parts of one step in a row: what the first keeps and the second resolves is resolved. */
  lemma ResolvedAfter(a: seq<Job>, b: seq<Job>, c: seq<Job>, q: nat)
    requires KeysGrow(a, b) && KeysGrow(b, c)
    requires !Added(a, b, BarrierKey(q)) && Resolved(b, c, q)
    ensures Resolved(a, c, q)
  {
    TakenGrows(a, b, BarrierKey(q));
    AddedTrans(a, b, c, BarrierKey(q));
  }

  lemma ResolvedBefore(a: seq<Job>, b: seq<Job>, c: seq<Job>, q: nat)
    requires KeysGrow(a, b) && KeysGrow(b, c) && forall i :: 0 <= i < |b| ==> c[i].state == b[i].state
    requires Resolved(a, b, q) && !Added(b, c, BarrierKey(q))
    ensures Resolved(a, c, q)
  {
    TakenGrows(b, c, BarrierKey(q));
    AddedTrans(a, b, c, BarrierKey(q));
  }

  lemma {:induction false} FireParentsResolve(before: seq<Job>, after: seq<Job>, p: nat, now: int, q: nat)
    requires |before| <= |after| && p <= |before| && q < |after| && after[q].barrier.Some?
    requires FireParents(before, after, p, now)[q].barrier.None?
    ensures Resolved(after, FireParents(before, after, p, now), q)
    decreases |before| - p
  {
    if p < |before| {
      var next := if LostChild(before, after, p) then FireBarrier(after, p, now) else after;
      var jobs := FireParents(before, next, p + 1, now);
      FireParentsOther(before, next, p + 1, now, q);
      if next[q].barrier.None? {
        FireResolves(after, p, now, q);
        ResolvedBefore(after, next, jobs, q);
      } else {
        FireParentsResolve(before, next, p + 1, now, q);
        if LostChild(before, after, p) { FireOther(after, p, now, q); }
        ResolvedAfter(after, next, jobs, q);
      }
    }
  }

  lemma AdvanceResolves(jobs: seq<Job>, raw: RawJob, plan: Plan, result: Result, now: int, p: nat)
    requires raw.id < |jobs| && p < |jobs| && jobs[p].barrier.Some?
    requires AdvancedJobs(jobs, raw, plan, result, now)[p].barrier.None?
    ensures Resolved(jobs, AdvancedJobs(jobs, raw, plan, result, now), p)
  {
    var jobs1 := jobs[raw.id := Advance(jobs[raw.id], plan, if plan.followUps then result.barrier else None)];
    var jobs2 := if plan.followUps then InsertFollowUps(jobs1, result.followUps, raw.id, now) else jobs1;
    FollowUpsOther(jobs1, result.followUps, raw.id, now, p);
    FollowUpsKeep(jobs1, result.followUps, raw.id, now, p);
    assert jobs2[p].barrier.Some?;
    FireResolves(jobs2, raw.parent.value, now, p);
    ResolvedAfter(jobs1, jobs2, AdvancedJobs(jobs, raw, plan, result, now), p);
    ResolvedAfter(jobs, jobs1, AdvancedJobs(jobs, raw, plan, result, now), p);
  }

  lemma SweepResolves(o: Opts, db: Tables, ids: set<nat>, now: int, p: nat)
    requires p < |db.jobs| && db.jobs[p].barrier.Some? && Sweep(o, db, ids, now).jobs[p].barrier.None?
    ensures Resolved(db.jobs, Sweep(o, db, ids, now).jobs, p)
  {
    var after := Reclaimed(o, db, ids, now);
    FireParentsResolve(db.jobs, after, 0, now, p);
    FireParentsOther(db.jobs, after, 0, now, p);
    ResolvedAfter(db.jobs, after, Sweep(o, db, ids, now).jobs, p);
  }

  lemma CancelResolves(db: Tables, id: nat, now: int, p: nat)
    requires p < |db.jobs| && db.jobs[p].barrier.Some? && Cancel(db, id, now).jobs[p].barrier.None?
    ensures Resolved(db.jobs, Cancel(db, id, now).jobs, p)
  {
    var j := db.jobs[id];
    var jobs := db.jobs[id := j.(state := Cancelled, leasedUntil := None, token := None, finalizedAt := Some(now))];
    FireResolves(jobs, j.parent.value, now, p);
    ResolvedAfter(db.jobs, jobs, Cancel(db, id, now).jobs, p);
  }

  /** A barrier clears in a step only with every child of its generation terminal and a continuation there, added
      by that step unless an earlier firing left one, whichever of finalize, cancel or sweep ended the last. */
  lemma BarrierFiresComplete(o: Opts, s: System, act: Action, p: nat)
    requires p < |s.db.jobs| && s.db.jobs[p].barrier.Some?
    requires p < |Apply(o, s, act).db.jobs| && Apply(o, s, act).db.jobs[p].barrier.None?
    ensures Resolved(s.db.jobs, Apply(o, s, act).db.jobs, p)
  {
    match act {
      case FinalizeAttempt(a, result, err, now) =>
        var raw := s.attempts[a].raw;
        AdvanceResolves(s.db.jobs, raw, PlanFinalize(raw, result, err, now), result, now, p);
      case SweepBatch(ids, now) => SweepResolves(o, s.db, ids, now, p);
      case CancelJob(id, now) => CancelResolves(s.db, id, now, p);
      case _ => OthersEndNothing(o, s, act);
    }
  }

  // ---------------------------------------------------------------- the continuation is the declared one

  ghost predicate AddedRow(before: seq<Job>, after: seq<Job>, row: Job) {
    exists i :: |before| <= i < |after| && after[i] == row
  }

  lemma FireAdds(jobs: seq<Job>, p: nat, now: int)
    requires p < |jobs| && jobs[p].barrier.Some? && FireBarrier(jobs, p, now)[p].barrier.None?
    requires !KeyTaken(jobs, BarrierKey(p))
    ensures AddedRow(jobs, FireBarrier(jobs, p, now), ContinuationRow(p, jobs[p].barrier.value, now))
  {
    assert FireBarrier(jobs, p, now)[|jobs|] == ContinuationRow(p, jobs[p].barrier.value, now);
  }

  /** The later checks of one sweep leave the rows it has added alone. */
  lemma {:induction false} FireParentsKeeps(before: seq<Job>, after: seq<Job>, p: nat, now: int, i: nat)
    requires |before| <= i < |after| && p <= |before|
    ensures FireParents(before, after, p, now)[i] == after[i]
    decreases |before| - p
  {
    if p < |before| {
      var next := if LostChild(before, after, p) then FireBarrier(after, p, now) else after;
      FireParentsKeeps(before, next, p + 1, now, i);
    }
  }

  lemma {:induction false} FireParentsAdds(before: seq<Job>, after: seq<Job>, p: nat, now: int, q: nat)
    requires |before| <= |after| && p <= |before| && q < |after| && after[q].barrier.Some?
    requires FireParents(before, after, p, now)[q].barrier.None? && !KeyTaken(after, BarrierKey(q))
    ensures AddedRow(after, FireParents(before, after, p, now), ContinuationRow(q, after[q].barrier.value, now))
    decreases |before| - p
  {
    if p < |before| {
      var next := if LostChild(before, after, p) then FireBarrier(after, p, now) else after;
      if next[q].barrier.None? {
        FireAdds(after, p, now);
        var i :| |after| <= i < |next| && next[i] == ContinuationRow(q, after[q].barrier.value, now);
        FireParentsKeeps(before, next, p + 1, now, i);
      } else {
        if LostChild(before, after, p) { FireOther(after, p, now, q); }
        TakenGrows(after, next, BarrierKey(q));
        FireParentsAdds(before, next, p + 1, now, q);
      }
    }
  }

  lemma AdvanceAdds(jobs: seq<Job>, raw: RawJob, plan: Plan, result: Result, now: int, p: nat)
    requires raw.id < |jobs| && raw.parent != Some(raw.id)
    requires p < |jobs| && jobs[p].barrier.Some? && !KeyTaken(jobs, BarrierKey(p))
    requires AdvancedJobs(jobs, raw, plan, result, now)[p].barrier.None?
    ensures AddedRow(jobs, AdvancedJobs(jobs, raw, plan, result, now), ContinuationRow(p, jobs[p].barrier.value, now))
  {
    var jobs1 := jobs[raw.id := Advance(jobs[raw.id], plan, if plan.followUps then result.barrier else None)];
    var jobs2 := if plan.followUps then InsertFollowUps(jobs1, result.followUps, raw.id, now) else jobs1;
    FollowUpsOther(jobs1, result.followUps, raw.id, now, p);
    FollowUpsKeep(jobs1, result.followUps, raw.id, now, p);
    FireResolves(jobs2, raw.parent.value, now, p);
    assert jobs2[p] == jobs[p];
    TakenGrows(jobs, jobs1, BarrierKey(p));
    TakenGrows(jobs1, jobs2, BarrierKey(p));
    FireAdds(jobs2, p, now);
  }

  lemma FinalizeAdds(o: Opts, s: System, a: nat, result: Result, err: Option<WorkError>, now: int, p: nat)
    requires Inv(s) && p < |s.db.jobs| && s.db.jobs[p].barrier.Some? && !KeyTaken(s.db.jobs, BarrierKey(p))
    requires ApplyFinalize(o, s, a, result, err, now).db.jobs != s.db.jobs
    requires p < |ApplyFinalize(o, s, a, result, err, now).db.jobs|
    requires ApplyFinalize(o, s, a, result, err, now).db.jobs[p].barrier.None?
    ensures AddedRow(s.db.jobs, ApplyFinalize(o, s, a, result, err, now).db.jobs,
                     ContinuationRow(p, s.db.jobs[p].barrier.value, now))
  {
    var raw := s.attempts[a].raw;
    assert AttemptOk(s.db, s.attempts[a]);
    AdvanceAdds(s.db.jobs, raw, PlanFinalize(raw, result, err, now), result, now, p);
  }

  lemma CancelAdds(db: Tables, id: nat, now: int, p: nat)
    requires p < |db.jobs| && db.jobs[p].barrier.Some? && !KeyTaken(db.jobs, BarrierKey(p))
    requires Cancel(db, id, now).jobs[p].barrier.None?
    ensures AddedRow(db.jobs, Cancel(db, id, now).jobs, ContinuationRow(p, db.jobs[p].barrier.value, now))
  {
    var j := db.jobs[id];
    var jobs := db.jobs[id := j.(state := Cancelled, leasedUntil := None, token := None, finalizedAt := Some(now))];
    TakenGrows(db.jobs, jobs, BarrierKey(p));
    FireResolves(jobs, j.parent.value, now, p);
    FireAdds(jobs, p, now);
  }

  lemma SweepAdds(o: Opts, db: Tables, ids: set<nat>, now: int, p: nat)
    requires p < |db.jobs| && db.jobs[p].barrier.Some? && !KeyTaken(db.jobs, BarrierKey(p))
    requires Sweep(o, db, ids, now).jobs[p].barrier.None?
    ensures AddedRow(db.jobs, Sweep(o, db, ids, now).jobs, ContinuationRow(p, db.jobs[p].barrier.value, now))
  {
    var after := Reclaimed(o, db, ids, now);
    TakenGrows(db.jobs, after, BarrierKey(p));
    FireParentsAdds(db.jobs, after, 0, now, p);
  }

  predicate IsContinuation(j: Job, p: nat, spec: Args, now: int) {
    && j.parent == Some(p) && j.uniqueKey == Some(BarrierKey(p)) && j.args == spec
    && Ready(j, now) && j.attempt == 0 && j.maxAttempts >= 1 && j.barrier.None? && j.token.None?
  }

  /** The continuation a barrier's firing adds is the declared one, under the parent, due at once. */
  lemma ContinuationIsDeclared(o: Opts, s: System, act: Action, p: nat)
    requires Inv(s) && p < |s.db.jobs| && s.db.jobs[p].barrier.Some? && !KeyTaken(s.db.jobs, BarrierKey(p))
    requires p < |Apply(o, s, act).db.jobs| && Apply(o, s, act).db.jobs[p].barrier.None?
    ensures act.FinalizeAttempt? || act.SweepBatch? || act.CancelJob?
    ensures
      var after := Apply(o, s, act).db.jobs;
      exists i :: |s.db.jobs| <= i < |after| && IsContinuation(after[i], p, s.db.jobs[p].barrier.value, act.now)
  {
    match act {
      case FinalizeAttempt(a, result, err, now) => FinalizeAdds(o, s, a, result, err, now, p);
      case SweepBatch(ids, now) => SweepAdds(o, s.db, ids, now, p);
      case CancelJob(id, now) => CancelAdds(s.db, id, now, p);
      case _ => OthersEndNothing(o, s, act);
    }
  }
}
