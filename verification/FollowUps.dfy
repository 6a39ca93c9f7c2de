/**
 What a finalize writes, in both tables: its own run row, and the follow-ups that land,
 which are those an ON CONFLICT DO NOTHING insert keeps of the list, in its order.
 */
module FollowUps {
  import opened Options
  import opened JobTable
  import opened Lease
  import opened RowSteps

  // ---------------------------------------------------------------- which follow-ups land

  /** Unkeyed, or the first of the list under a key no row holds. */
  predicate Lands(jobs: seq<Job>, fus: seq<FollowUp>, k: nat)
    requires k < |fus|
  {
    || fus[k].key.None?
    || (&& (forall i :: 0 <= i < |jobs| ==> jobs[i].uniqueKey != Some(UserKey(fus[k].key.value)))
        && (forall l :: 0 <= l < k ==> fus[l].key != fus[k].key))
  }

  /** The positions of those that land, in order. */
  function Landed(jobs: seq<Job>, fus: seq<FollowUp>): seq<nat> {
    if |fus| == 0 then []
    else Landed(jobs, fus[..|fus| - 1]) + (if Lands(jobs, fus, |fus| - 1) then [|fus| - 1] else [])
  }

  lemma {:induction false} LandedAt(jobs: seq<Job>, fus: seq<FollowUp>, i: nat)
    requires i < |Landed(jobs, fus)|
    ensures Landed(jobs, fus)[i] < |fus| && Lands(jobs, fus, Landed(jobs, fus)[i])
    ensures i > 0 ==> Landed(jobs, fus)[i - 1] < Landed(jobs, fus)[i]
    decreases |fus|
  {
    var n := |fus| - 1;
    var earlier := Landed(jobs, fus[..n]);
    if i < |earlier| {
      LandedAt(jobs, fus[..n], i);
    } else if i > 0 {
      LandedAt(jobs, fus[..n], i - 1);
    }
  }

  lemma {:induction false} LandedAll(jobs: seq<Job>, fus: seq<FollowUp>, k: nat)
    requires k < |fus| && Lands(jobs, fus, k)
    ensures k in Landed(jobs, fus)
    decreases |fus|
  {
    if k < |fus| - 1 { LandedAll(jobs, fus[..|fus| - 1], k); }
  }

  lemma {:induction false} LandedByKeys(a: seq<Job>, b: seq<Job>, fus: seq<FollowUp>)
    requires |a| == |b| && forall i :: 0 <= i < |a| ==> a[i].uniqueKey == b[i].uniqueKey
    ensures Landed(a, fus) == Landed(b, fus)
    decreases |fus|
  {
    if |fus| > 0 { LandedByKeys(a, b, fus[..|fus| - 1]); }
  }

  // ---------------------------------------------------------------- the insert keeps exactly those

  lemma {:induction false} InsertLast(jobs: seq<Job>, fus: seq<FollowUp>, p: nat, now: int)
    requires |fus| > 0
    ensures InsertFollowUps(jobs, fus, p, now)
         == Insert(InsertFollowUps(jobs, fus[..|fus| - 1], p, now), ChildRow(fus[|fus| - 1], p, now))
    decreases |fus|
  {
    if |fus| > 1 {
      assert fus[1..][..|fus| - 2] == fus[..|fus| - 1][1..];
      InsertLast(Insert(jobs, ChildRow(fus[0], p, now)), fus[1..], p, now);
    }
  }

  lemma {:induction false} KeysAfter(jobs: seq<Job>, fus: seq<FollowUp>, p: nat, now: int, key: string)
    ensures KeyTaken(InsertFollowUps(jobs, fus, p, now), UserKey(key)) <==>
      KeyTaken(jobs, UserKey(key)) || exists l :: 0 <= l < |fus| && fus[l].key == Some(key)
    decreases |fus|
  {
    if |fus| > 0 {
      var n := |fus| - 1;
      var prefix := InsertFollowUps(jobs, fus[..n], p, now);
      KeysAfter(jobs, fus[..n], p, now, key);
      InsertLast(jobs, fus, p, now);
      var row := ChildRow(fus[n], p, now);
      if KeyTaken(prefix, UserKey(key)) {
        var i :| 0 <= i < |prefix| && prefix[i].uniqueKey == Some(UserKey(key));
        assert Insert(prefix, row)[i].uniqueKey == Some(UserKey(key));
      } else if fus[n].key == Some(key) {
        assert Insert(prefix, row)[|prefix|].uniqueKey == Some(UserKey(key));
      }
    }
  }

  /** A follow-up's row: untouched, due at once, with its own payload, link and key. */
  predicate IsChild(j: Job, fu: FollowUp, p: nat, now: int) {
    && j.state == Available && j.attempt == 0 && j.maxAttempts == 25 && j.scheduledAt == now
    && j.leasedUntil == None && j.token == None && j.finalizedAt == None && j.barrier == None
    && j.args == fu.args
    && (if fu.parent then j.parent == Some(p) else j.parent == None)
    && (if fu.key.Some? then j.uniqueKey == Some(UserKey(fu.key.value)) else j.uniqueKey == None)
  }

  /** The follow-ups that land, in order, are exactly the rows a fan-out appends. */
  ghost predicate Appends(jobs: seq<Job>, fus: seq<FollowUp>, p: nat, now: int, after: seq<Job>) {
    var at := Landed(jobs, fus);
    && |after| == |jobs| + |at| && after[..|jobs|] == jobs
    && forall i :: 0 <= i < |at| ==> at[i] < |fus| && IsChild(after[|jobs| + i], fus[at[i]], p, now)
  }

  lemma {:induction false} FollowUpsExact(jobs: seq<Job>, fus: seq<FollowUp>, p: nat, now: int)
    ensures Appends(jobs, fus, p, now, InsertFollowUps(jobs, fus, p, now))
    decreases |fus|
  {
    if |fus| > 0 {
      var n := |fus| - 1;
      FollowUpsExact(jobs, fus[..n], p, now);
      InsertLast(jobs, fus, p, now);
      if fus[n].key.Some? { KeysAfter(jobs, fus[..n], p, now, fus[n].key.value); }
      LandsIsFree(jobs, fus, p, now);
    }
  }

  lemma LandsIsFree(jobs: seq<Job>, fus: seq<FollowUp>, p: nat, now: int)
    requires |fus| > 0
    ensures
      var n := |fus| - 1;
      Lands(jobs, fus, n) <==>
        fus[n].key.None? || !KeyTaken(InsertFollowUps(jobs, fus[..n], p, now), UserKey(fus[n].key.value))
  {
    var n := |fus| - 1;
    if fus[n].key.Some? {
      KeysAfter(jobs, fus[..n], p, now, fus[n].key.value);
      assert (exists l :: 0 <= l < n && fus[l].key == fus[n].key) <==>
             (exists l :: 0 <= l < n && fus[..n][l].key == Some(fus[n].key.value)) by {
        if l :| 0 <= l < n && fus[l].key == fus[n].key { assert fus[..n][l].key == fus[n].key; }
        if l :| 0 <= l < n && fus[..n][l].key == Some(fus[n].key.value) { assert fus[l].key == fus[n].key; }
      }
    }
  }

  lemma {:induction false} InsertSplit(jobs: seq<Job>, a: seq<FollowUp>, b: seq<FollowUp>, p: nat, now: int)
    ensures InsertFollowUps(jobs, a + b, p, now) == InsertFollowUps(InsertFollowUps(jobs, a, p, now), b, p, now)
    decreases |a|
  {
    if |a| == 0 {
      assert a + b == b;
    } else {
      assert (a + b)[1..] == a[1..] + b;
      InsertSplit(Insert(jobs, ChildRow(a[0], p, now)), a[1..], b, p, now);
    }
  }

  /** insertFollowUps: one bounded insert per chunk, counting what each one landed. */
  method InsertInChunks(jobs: seq<Job>, fus: seq<FollowUp>, p: nat, now: int, chunk: nat)
    returns (rows: seq<Job>, enqueued: nat)
    requires chunk >= 1
    ensures rows == InsertFollowUps(jobs, fus, p, now) && enqueued == |Landed(jobs, fus)|
  {
    rows, enqueued := jobs, 0;
    var start := 0;
    while start < |fus|
      invariant 0 <= start <= |fus|
      invariant rows == InsertFollowUps(jobs, fus[..start], p, now) && |rows| == |jobs| + enqueued
      decreases |fus| - start
    {
      var end := if start + chunk < |fus| then start + chunk else |fus|;
      var next := InsertFollowUps(rows, fus[start..end], p, now);
      InsertSplit(jobs, fus[..start], fus[start..end], p, now);
      assert fus[..start] + fus[start..end] == fus[..end];
      enqueued := enqueued + (|next| - |rows|);
      rows := next;
      start := end;
    }
    assert fus[..|fus|] == fus;
    FollowUpsExact(jobs, fus, p, now);
  }

  // ---------------------------------------------------------------- when a finalize commits

  predicate Succeeding(result: Result, err: Option<WorkError>) {
    !result.cancel && result.snooze.None? && err.None?
  }

  /** The follow-ups a barrier would wait for. */
  function ParentLinks(fus: seq<FollowUp>): set<nat> {
    set k | 0 <= k < |fus| && fus[k].parent
  }

  lemma {:induction false} LinksShift(s: set<nat>, t: set<nat>)
    requires forall k: nat :: k in t <==> k > 0 && k - 1 in s
    ensures |t| == |s|
    decreases s
  {
    if s == {} {
      assert t == {} by { if k :| k in t { assert false; } }
    } else {
      var k :| k in s;
      assert k + 1 in t;
      LinksShift(s - {k}, t - {k + 1});
    }
  }

  lemma {:induction false} LinksCount(fus: seq<FollowUp>)
    ensures ParentFollowUps(fus) == |ParentLinks(fus)|
    decreases |fus|
  {
    if |fus| > 0 {
      LinksCount(fus[1..]);
      var later := ParentLinks(fus) - {0};
      forall k: nat ensures k in later <==> k > 0 && k - 1 in ParentLinks(fus[1..]) {
        if k > 0 && k < |fus| { assert fus[1..][k - 1] == fus[k]; }
      }
      LinksShift(ParentLinks(fus[1..]), later);
      assert ParentLinks(fus) == later + (if fus[0].parent then {0} else {});
    }
  }

  /** A finalize past its gate goes through, unless it is a success whose barrier would wait for no child or for
      too many, or one that still holds its claim and fans out too wide. */
  predicate Commits(o: Opts, s: System, a: nat, result: Result, err: Option<WorkError>) {
    && CanFinalize(s, a) && s.attempts[a].run.value < |s.db.runs|
    && (Succeeding(result, err) && result.barrier.Some? ==>
          1 <= |ParentLinks(result.followUps)| <= o.barrierMaxChildren)
    && (Succeeding(result, err) && Holds(s.db.jobs, s.attempts[a].raw) ==> |result.followUps| <= o.followUpLimit)
  }

  lemma CommitsIff(o: Opts, s: System, a: nat, result: Result, err: Option<WorkError>, now: int)
    ensures Commits(o, s, a, result, err) <==>
      CanFinalize(s, a) && !FinalizeFails(o, s.db, s.attempts[a].raw, s.attempts[a].run.value,
                                          PlanFinalize(s.attempts[a].raw, result, err, now), result)
    ensures Advances(o, s, a, result, err, now) <==>
      Commits(o, s, a, result, err) && Holds(s.db.jobs, s.attempts[a].raw)
  {
    LinksCount(result.followUps);
  }

  // ---------------------------------------------------------------- what a finalize writes

  /** The follow-ups that land when the finalize goes through holding its claim. */
  function Kids(jobs: seq<Job>, result: Result, err: Option<WorkError>): seq<nat> {
    if Succeeding(result, err) then Landed(jobs, result.followUps) else []
  }

  /** The jobs table a finalize that advances leaves: its own row moved, its follow-ups, and after them at most
      one row, which is its parent's continuation. */
  ghost predicate Fans(before: seq<Job>, after: seq<Job>, raw: RawJob, result: Result, kids: seq<nat>, now: int) {
    var n := |before| + |kids|;
    && n <= |after| <= n + 1
    && (forall i :: 0 <= i < |kids| ==>
          kids[i] < |result.followUps| && IsChild(after[|before| + i], result.followUps[kids[i]], raw.id, now))
    && (|after| == n + 1 ==> raw.parent.Some? && after[n].uniqueKey == Some(BarrierKey(raw.parent.value)))
  }

  lemma AdvanceFans(jobs: seq<Job>, raw: RawJob, result: Result, err: Option<WorkError>, now: int)
    requires raw.id < |jobs| && (raw.parent.Some? ==> raw.parent.value < |jobs|)
    ensures
      var plan := PlanFinalize(raw, result, err, now);
      Fans(jobs, AdvancedJobs(jobs, raw, plan, result, now), raw, result, Kids(jobs, result, err), now)
  {
    var plan := PlanFinalize(raw, result, err, now);
    var jobs1 := jobs[raw.id := Advance(jobs[raw.id], plan, if plan.followUps then result.barrier else None)];
    FollowUpsExact(jobs1, result.followUps, raw.id, now);
    LandedByKeys(jobs, jobs1, result.followUps);
  }

  lemma FinalizeWrites(o: Opts, s: System, a: nat, result: Result, err: Option<WorkError>, now: int)
    requires Commits(o, s, a, result, err)
    ensures
      var raw, r := s.attempts[a].raw, s.attempts[a].run.value;
      var db := Apply(o, s, FinalizeAttempt(a, result, err, now)).db;
      var plan, held := PlanFinalize(raw, result, err, now), Holds(s.db.jobs, raw);
      && db.jobs == (if held then AdvancedJobs(s.db.jobs, raw, plan, result, now) else s.db.jobs)
      && db.runs == s.db.runs[r :=
           FinalizeRun(s.db.runs[r], plan, !held, now, if held then |Kids(s.db.jobs, result, err)| else 0)]
  {
    CommitsIff(o, s, a, result, err, now);
    FollowUpsExact(s.db.jobs, result.followUps, s.attempts[a].raw.id, now);
  }

  /** The run row of a finalize that goes through, superseded or not: its outcome is the one its result and error
      say, it keeps its key, and it finishes once; if the claim was held it records the job's new state and the
      rows it fanned out, and if not, what the sweep recorded stays and no job is touched. */
  lemma RunRowExact(o: Opts, s: System, a: nat, result: Result, err: Option<WorkError>, now: int)
    requires Inv(s) && Commits(o, s, a, result, err)
    ensures
      var raw, r, t := s.attempts[a].raw, s.attempts[a].run.value, Apply(o, s, FinalizeAttempt(a, result, err, now));
      && t.db.runs == s.db.runs[r := t.db.runs[r]]
      && var row, was, held := t.db.runs[r], s.db.runs[r], Holds(s.db.jobs, raw);
         && (row.outcome == CancelledRun <==> result.cancel)
         && (row.outcome == Snoozed <==> !result.cancel && result.snooze.Some?)
         && (row.outcome == Success <==> !result.cancel && result.snooze.None? && err.None?)
         && (row.outcome == Timeout <==>
               !result.cancel && result.snooze.None? && err.Some? && err.value.kind == TimedOut)
         && (row.outcome == Error <==>
               !result.cancel && result.snooze.None? && err.Some? && err.value.kind != TimedOut)
         && row.job == was.job && row.attempt == was.attempt && row.superseded == !held
         && row.finishedAt == (if was.finishedAt.Some? then was.finishedAt else Some(now))
         && (held ==>
               && |t.db.jobs| >= |s.db.jobs| && row.jobState == Some(t.db.jobs[raw.id].state)
               && row.children == |Kids(s.db.jobs, result, err)|
               && Fans(s.db.jobs, t.db.jobs, raw, result, Kids(s.db.jobs, result, err), now))
         && (!held ==> row.jobState == was.jobState && row.children == 0 && t.db.jobs == s.db.jobs)
  {
    FinalizeWrites(o, s, a, result, err, now);
    var raw := s.attempts[a].raw;
    assert AttemptOk(s.db, s.attempts[a]);
    if Holds(s.db.jobs, raw) {
      AdvanceFans(s.db.jobs, raw, result, err, now);
      AdvanceReleases(s.db.jobs, raw, PlanFinalize(raw, result, err, now), result, now);
    }
  }

  /** One that does not go through leaves both tables as they were. */
  lemma RefusedFinalizeWritesNothing(o: Opts, s: System, a: nat, result: Result, err: Option<WorkError>, now: int)
    requires !Commits(o, s, a, result, err)
    ensures Apply(o, s, FinalizeAttempt(a, result, err, now)).db == s.db
  {
    CommitsIff(o, s, a, result, err, now);
  }

  // ---------------------------------------------------------------- what a client's insert writes

  /** A client's row: untouched, due when asked, with the attempts asked for or the default, its payload and key,
      and under the parent it names if that is a row. */
  predicate IsClientRow(
      j: Job, rows: nat, args: Args, maxAttempts: nat, at: int, parent: Option<nat>, key: Option<string>)
  {
    && j.state == Available && j.attempt == 0 && j.scheduledAt == at && j.args == args
    && j.maxAttempts == (if maxAttempts > 0 then maxAttempts else 25)
    && j.leasedUntil == None && j.token == None && j.finalizedAt == None && j.barrier == None
    && j.parent == (if parent.Some? && parent.value < rows then parent else None)
    && (if key.Some? then j.uniqueKey == Some(UserKey(key.value)) else j.uniqueKey == None)
  }

  /** An insert adds that row exactly when no row holds its key, and nothing else changes. */
  lemma EnqueueExact(
      o: Opts, s: System, args: Args, maxAttempts: nat, at: int, parent: Option<nat>, key: Option<string>)
    ensures
      var t := Apply(o, s, Enqueue(args, maxAttempts, at, parent, key));
      var taken := key.Some? && exists i :: 0 <= i < |s.db.jobs| && s.db.jobs[i].uniqueKey == Some(UserKey(key.value));
      && t.db.runs == s.db.runs && t.db.nextToken == s.db.nextToken && t.attempts == s.attempts && t.gates == s.gates
      && if taken then t.db.jobs == s.db.jobs
         else |t.db.jobs| == |s.db.jobs| + 1 && t.db.jobs[..|s.db.jobs|] == s.db.jobs
              && IsClientRow(t.db.jobs[|s.db.jobs|], |s.db.jobs|, args, maxAttempts, at, parent, key)
  {
  }
}
