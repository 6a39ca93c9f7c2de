/**
 What the run rows say of their jobs over every run: one recorded success, one unit of
 budget back per recorded snooze, and never more crashes than the crash budget.
 */
module Audit {
  import opened Options
  import opened JobTable
  import opened Lease
  import opened RowSteps
  import opened FollowUps

  // ---------------------------------------------------------------- counting run rows

  /** A job not yet in the table has no run rows. */
  lemma NoRowsYet(s: System, job: nat, p: Run -> bool)
    requires Inv(s) && job >= |s.db.jobs|
    ensures RunsWhere(s.db.runs, job, p) == 0
  {
    WhereZero(s.db.runs, job, p);
  }

  // ---------------------------------------------------------------- how run rows change

  /** Outside a finalize, run rows are only added as stubs or turned from started to crashed. */
  ghost predicate RunsMild(a: seq<Run>, b: seq<Run>) {
    && |a| <= |b| <= |a| + 1
    && (forall r :: 0 <= r < |a| ==>
          b[r] == a[r] || (a[r].outcome.Started? && b[r].outcome.Crashed? && b[r].job == a[r].job))
    && (forall r :: |a| <= r < |b| ==> b[r].outcome.Started? && b[r].jobState.None?)
  }

  lemma OtherStepsRunsMild(o: Opts, s: System, act: Action)
    requires !act.FinalizeAttempt?
    ensures RunsMild(s.db.runs, Apply(o, s, act).db.runs)
  {
  }

  /** The row records outcome x, and its finalize was not superseded. */
  function Recorded(x: Outcome): Run -> bool {
    (r: Run) => r.outcome == x && !r.superseded
  }

  lemma MildCount(a: seq<Run>, b: seq<Run>, job: nat, x: Outcome)
    requires RunsMild(a, b) && !x.Started? && !x.Crashed?
    ensures RunsWhere(b, job, Recorded(x)) == RunsWhere(a, job, Recorded(x))
  {
    WhereFrame(a, b[..|a|], job, Recorded(x));
    if |b| == |a| { assert b[..|a|] == b; }
  }

  /** A dispatch that has not returned has written no outcome of its own, and a stub records no job state. */
  ghost predicate LiveUnfinished(s: System) {
    && (forall r :: 0 <= r < |s.db.runs| && s.db.runs[r].outcome.Started? ==> s.db.runs[r].jobState.None?)
    && forall a :: 0 <= a < |s.attempts| && s.attempts[a].live && s.attempts[a].run.Some? ==>
      s.attempts[a].run.value < |s.db.runs|
      && (s.db.runs[s.attempts[a].run.value].outcome.Started? || s.db.runs[s.attempts[a].run.value].outcome.Crashed?)
  }

  /** Outside a finalize an attempt's run is kept, or is the stub just inserted. */
  ghost predicate AttemptsMild(s: System, t: System) {
    forall a :: 0 <= a < |t.attempts| && t.attempts[a].live && t.attempts[a].run.Some? ==>
      (a < |s.attempts| && s.attempts[a].live && s.attempts[a].run == t.attempts[a].run)
      || (|t.db.runs| > |s.db.runs| && t.attempts[a].run.value == |s.db.runs|)
  }

  lemma OtherStepsAttemptsMild(o: Opts, s: System, act: Action)
    requires !act.FinalizeAttempt?
    ensures AttemptsMild(s, Apply(o, s, act))
  {
  }

  lemma FinalizeKeepsLive(o: Opts, s: System, a: nat, result: Result, err: Option<WorkError>, now: int)
    requires Inv(s) && LiveUnfinished(s) && CanFinalize(s, a)
    ensures LiveUnfinished(ApplyFinalize(o, s, a, result, err, now))
  {
    var t := ApplyFinalize(o, s, a, result, err, now);
    assert AttemptOk(s.db, s.attempts[a]);
    assert !PlanFinalize(s.attempts[a].raw, result, err, now).outcome.Started?;
    forall b | 0 <= b < |t.attempts| && t.attempts[b].live && t.attempts[b].run.Some?
      ensures t.attempts[b].run.value < |t.db.runs|
      ensures t.db.runs[t.attempts[b].run.value].outcome.Started? || t.db.runs[t.attempts[b].run.value].outcome.Crashed?
    {
      assert AttemptOk(s.db, s.attempts[b]);
      assert a != b && t.attempts[b] == s.attempts[b];
    }
  }

  lemma StepKeepsLive(o: Opts, s: System, act: Action)
    requires Inv(s) && LiveUnfinished(s)
    ensures LiveUnfinished(Apply(o, s, act))
  {
    if act.FinalizeAttempt? {
      if CanFinalize(s, act.att) { FinalizeKeepsLive(o, s, act.att, act.result, act.err, act.now); }
    } else {
      OtherStepsRunsMild(o, s, act);
      OtherStepsAttemptsMild(o, s, act);
    }
  }

  /** What a finalize writes: its own run row, superseded exactly when it does not advance its job. */
  lemma FinalizeRow(o: Opts, s: System, a: nat, result: Result, err: Option<WorkError>, now: int)
    requires Inv(s) && LiveUnfinished(s)
    ensures
      var t := ApplyFinalize(o, s, a, result, err, now);
      (t.db.runs == s.db.runs && !Advances(o, s, a, result, err, now))
      || (&& CanFinalize(s, a) && s.attempts[a].run.value < |s.db.runs|
          && var r, raw := s.attempts[a].run.value, s.attempts[a].raw;
             var row := t.db.runs[r];
             && t.db.runs == s.db.runs[r := row] && row.job == s.db.runs[r].job == raw.id
             && (s.db.runs[r].outcome.Started? || s.db.runs[r].outcome.Crashed?)
             && row.outcome == Verdict(result, err)
             && row.superseded == !Advances(o, s, a, result, err, now)
             && (row.superseded ==> row.jobState == s.db.runs[r].jobState))
  {
    if CanFinalize(s, a) { assert AttemptOk(s.db, s.attempts[a]); }
  }

  // ---------------------------------------------------------------- the verdict on an attempt

  predicate Permanent(err: Option<WorkError>) {
    err.Some? && (err.value.kind.Permanent? || err.value.kind.Validation?)
  }

  /** What an attempt's outcome does to its job, by the row's own budget: cancelled, snoozed with an attempt
      given back, succeeded, retried after its delay, or discarded; each exactly when it should be. */
  lemma VerdictExact(o: Opts, s: System, a: nat, result: Result, err: Option<WorkError>, now: int)
    requires Inv(s) && Commits(o, s, a, result, err) && Holds(s.db.jobs, s.attempts[a].raw)
    ensures
      var id := s.attempts[a].raw.id;
      var j, k := s.db.jobs[id], Apply(o, s, FinalizeAttempt(a, result, err, now)).db.jobs[id];
      var last := j.attempt >= j.maxAttempts;
      && (k.state.Cancelled? <==> result.cancel)
      && (k.state.Scheduled? <==> !result.cancel && result.snooze.Some?)
      && (k.state.Succeeded? <==> !result.cancel && result.snooze.None? && err.None?)
      && (k.state.Discarded? <==> !result.cancel && result.snooze.None? && err.Some? && (Permanent(err) || last))
      && (k.state.Retryable? <==> !result.cancel && result.snooze.None? && err.Some? && !Permanent(err) && !last)
      && (k.state.Scheduled? ==> k.scheduledAt == now + result.snooze.value && k.maxAttempts == j.maxAttempts + 1)
      && (k.state.Retryable? ==> k.scheduledAt == now + err.value.delay)
      && (!k.state.Scheduled? ==> k.maxAttempts == j.maxAttempts)
      && k.attempt == j.attempt && (k.finalizedAt == Some(now) <==> Terminal(k.state) || j.finalizedAt == Some(now))
  {
    CommitsIff(o, s, a, result, err, now);
    var act := FinalizeAttempt(a, result, err, now);
    StepRows(o, s, act);
    var id := s.attempts[a].raw.id;
    assert AttemptOk(s.db, s.attempts[a]);
    assert Core(Apply(o, s, act).db.jobs[id]) == Core(Moved(o, s, act, id));
  }

  // ---------------------------------------------------------------- one recorded success

  ghost predicate OneSuccess(s: System) {
    forall j :: 0 <= j < |s.db.jobs| ==>
      RunsWhere(s.db.runs, j, Recorded(Success)) == (if s.db.jobs[j].state.Succeeded? then 1 else 0)
  }

  /** The action re-queues no succeeded job. */
  predicate RerunsNothing(s: System, act: Action) {
    match act
    case RetryJob(id, opts, _) => id < |s.db.jobs| ==> !s.db.jobs[id].state.Succeeded? || !opts.force
    case ReplayJobs(ids, states, opts, _) => Succeeded !in states
    case _ => true
  }

  predicate RerunsNothingRun(o: Opts, s: System, acts: seq<Action>)
    decreases |acts|
  {
    |acts| > 0 ==> RerunsNothing(s, acts[0]) && RerunsNothingRun(o, Apply(o, s, acts[0]), acts[1..])
  }

  /** Only a finalize that advances it moves a row into succeeded, and nothing moves it out. */
  lemma MovedSucceeded(o: Opts, s: System, act: Action, i: nat)
    requires Inv(s) && i < |s.db.jobs| && RerunsNothing(s, act)
    ensures Moved(o, s, act, i).state.Succeeded? <==>
      s.db.jobs[i].state.Succeeded? || Records(o, s, act, i, Success)
  {
    if act.ClaimBatch? && i in act.picked && LegalPick(s.db, act.picked, act.now) {
      var k :| 0 <= k < |act.picked| && act.picked[k] == i;
      assert Ready(s.db.jobs[act.picked[k]], act.now);
    }
  }

  /** The one row an action can make a recorded outcome of: the advancing finalize's own. */
  predicate Records(o: Opts, s: System, act: Action, j: nat, x: Outcome) {
    && act.FinalizeAttempt? && Advances(o, s, act.att, act.result, act.err, act.now) && j == s.attempts[act.att].raw.id
    && Verdict(act.result, act.err) == x
  }

  lemma StepRecords(o: Opts, s: System, act: Action, j: nat, x: Outcome)
    requires Inv(s) && LiveUnfinished(s) && !x.Started? && !x.Crashed?
    ensures RunsWhere(Apply(o, s, act).db.runs, j, Recorded(x))
         == RunsWhere(s.db.runs, j, Recorded(x)) + (if Records(o, s, act, j, x) then 1 else 0)
  {
    var t := Apply(o, s, act);
    if act.FinalizeAttempt? {
      FinalizeRow(o, s, act.att, act.result, act.err, act.now);
      if t.db.runs != s.db.runs {
        var r := s.attempts[act.att].run.value;
        WhereUpdate(s.db.runs, r, t.db.runs[r], j, Recorded(x));
      }
    } else {
      OtherStepsRunsMild(o, s, act);
      MildCount(s.db.runs, t.db.runs, j, x);
    }
  }

  lemma StepKeepsOneSuccess(o: Opts, s: System, act: Action)
    requires Inv(s) && LiveUnfinished(s) && OneSuccess(s) && RerunsNothing(s, act)
    ensures OneSuccess(Apply(o, s, act))
  {
    StepRows(o, s, act);
    var t := Apply(o, s, act);
    forall j | 0 <= j < |t.db.jobs|
      ensures RunsWhere(t.db.runs, j, Recorded(Success)) == (if t.db.jobs[j].state.Succeeded? then 1 else 0)
    {
      StepRecords(o, s, act, j, Success);
      if j < |s.db.jobs| {
        MovedSucceeded(o, s, act, j);
        assert Core(t.db.jobs[j]) == Core(Moved(o, s, act, j));
      } else {
        NoRowsYet(s, j, Recorded(Success));
      }
    }
  }

  /** Exactly-once effect: in every run that re-queues no succeeded job, a succeeded job has exactly one
      unsuperseded success row and every other job has none, however often its attempts were killed, gated,
      reclaimed or executed twice. */
  lemma {:induction false} ExactlyOneSuccess(o: Opts, s: System, acts: seq<Action>)
    requires Inv(s) && LiveUnfinished(s) && OneSuccess(s) && RerunsNothingRun(o, s, acts)
    ensures OneSuccess(Execute(o, s, acts))
    decreases |acts|
  {
    if |acts| > 0 {
      StepKeepsInv(o, s, acts[0]);
      StepKeepsLive(o, s, acts[0]);
      StepKeepsOneSuccess(o, s, acts[0]);
      ExactlyOneSuccess(o, Apply(o, s, acts[0]), acts[1..]);
    }
  }

  // ---------------------------------------------------------------- a snooze is free

  ghost predicate NoRequeue(acts: seq<Action>) {
    forall k :: 0 <= k < |acts| ==> !acts[k].RetryJob? && !acts[k].ReplayJobs?
  }

  lemma MovedCeiling(o: Opts, s: System, act: Action, j: nat)
    requires Inv(s) && j < |s.db.jobs| && !act.RetryJob? && !act.ReplayJobs?
    ensures Moved(o, s, act, j).maxAttempts
         == s.db.jobs[j].maxAttempts + (if Records(o, s, act, j, Snoozed) then 1 else 0)
  {
  }

  /** How far a job's ceiling stands above its recorded snoozes. */
  function Ceiling(s: System, j: nat): int
    requires j < |s.db.jobs|
  {
    s.db.jobs[j].maxAttempts - RunsWhere(s.db.runs, j, Recorded(Snoozed))
  }

  lemma StepCeiling(o: Opts, s: System, act: Action, j: nat)
    requires Inv(s) && LiveUnfinished(s) && j < |s.db.jobs| && !act.RetryJob? && !act.ReplayJobs?
    ensures j < |Apply(o, s, act).db.jobs| && Ceiling(Apply(o, s, act), j) == Ceiling(s, j)
  {
    StepRows(o, s, act);
    assert Core(Apply(o, s, act).db.jobs[j]) == Core(Moved(o, s, act, j));
    MovedCeiling(o, s, act, j);
    StepRecords(o, s, act, j, Snoozed);
  }

  /** Over every run without retries or replays, a job's max_attempts has risen by exactly its recorded,
      unsuperseded snoozes: the claim a snooze spent is given back once, and nothing else moves the ceiling. */
  lemma {:induction false} SnoozesAreFree(o: Opts, s: System, acts: seq<Action>, j: nat)
    requires Inv(s) && LiveUnfinished(s) && j < |s.db.jobs| && NoRequeue(acts)
    ensures j < |Execute(o, s, acts).db.jobs| && Ceiling(Execute(o, s, acts), j) == Ceiling(s, j)
    decreases |acts|
  {
    if |acts| > 0 {
      StepKeepsInv(o, s, acts[0]);
      StepKeepsLive(o, s, acts[0]);
      StepCeiling(o, s, acts[0], j);
      assert NoRequeue(acts[1..]);
      SnoozesAreFree(o, Apply(o, s, acts[0]), acts[1..], j);
    }
  }

  // ---------------------------------------------------------------- the crash budget

  /** Allowing for v revivals, a job still in play is below its crash budget and a finished one never passed it. */
  ghost predicate CrashesWithin(o: Opts, s: System, j: nat, v: nat) {
    o.maxCrashes > 0 ==>
      && Crashes(s.db.runs, j) <= o.maxCrashes + v
      && (j < |s.db.jobs| && !Terminal(s.db.jobs[j].state) ==> Crashes(s.db.runs, j) < o.maxCrashes + v)
  }

  /** The action brings finished job j back. */
  predicate Revives(s: System, act: Action, j: nat) {
    j < |s.db.jobs| && Terminal(s.db.jobs[j].state) && Requeues(s, act, j)
  }

  /** How often a run brings job j back. */
  function Revivals(o: Opts, s: System, acts: seq<Action>, j: nat): nat
    decreases |acts|
  {
    if |acts| == 0 then 0
    else (if Revives(s, acts[0], j) then 1 else 0) + Revivals(o, Apply(o, s, acts[0]), acts[1..], j)
  }

  /** The sweep reclaims job j: it is in the batch, running, and past its lease. */
  predicate Reclaims(s: System, ids: set<nat>, now: int, j: nat)
    requires j < |s.db.jobs|
  {
    j in ids && s.db.jobs[j].state == Running && s.db.jobs[j].leasedUntil.Some? && s.db.jobs[j].leasedUntil.value < now
  }

  /** Row r is the stub, still started, of the attempt job j is running. */
  predicate OpenStub(s: System, j: nat, r: nat)
    requires j < |s.db.jobs| && r < |s.db.runs|
  {
    s.db.runs[r].job == j && s.db.runs[r].attempt == s.db.jobs[j].attempt && s.db.runs[r].outcome == Started
  }

  /** A sweep changes a run row exactly when it is the open stub of a job it reclaims: that row reads crashed,
      finished now, with the state the job was left in. */
  lemma SweepRunExact(o: Opts, s: System, ids: set<nat>, now: int, r: nat)
    requires Inv(s) && r < |s.db.runs|
    ensures
      var t, was := Apply(o, s, SweepBatch(ids, now)), s.db.runs[r];
      && |t.db.runs| == |s.db.runs| && was.job < |s.db.jobs| <= |t.db.jobs|
      && t.db.runs[r] ==
           if Reclaims(s, ids, now, was.job) && OpenStub(s, was.job, r)
           then was.(outcome := Crashed, finishedAt := Some(now), jobState := Some(t.db.jobs[was.job].state)) else was
  {
    var after, j := Reclaimed(o, s.db, ids, now), s.db.runs[r].job;
    FireParentsGrow(s.db.jobs, after, 0, now);
    assert Core(FireParents(s.db.jobs, after, 0, now)[j]) == Core(after[j]);
  }

  /** One run row of the job changed. */
  lemma CrashesOfOne(a: seq<Run>, b: seq<Run>, j: nat, r: nat)
    requires |a| == |b| && r < |a| && forall q :: 0 <= q < |a| ==> b[q].job == a[q].job
    requires forall q :: 0 <= q < |a| && q != r && a[q].job == j ==> b[q] == a[q]
    requires a[r].job == j && CrashedRun(b[r]) && !CrashedRun(a[r])
    ensures Crashes(b, j) == Crashes(a, j) + 1
  {
    WhereUpdate(a, r, b[r], j, CrashedRun);
    WhereFrame(a[r := b[r]], b, j, CrashedRun);
  }

  ghost predicate ClosesOnlyStubs(s: System, ids: set<nat>, now: int, runs: seq<Run>) {
    |runs| == |s.db.runs| && forall r :: 0 <= r < |runs| ==>
      && s.db.runs[r].job < |s.db.jobs| && runs[r].job == s.db.runs[r].job
      && (runs[r] != s.db.runs[r] ==> Reclaims(s, ids, now, runs[r].job) && OpenStub(s, runs[r].job, r))
  }

  lemma SweepCloses(o: Opts, s: System, ids: set<nat>, now: int)
    requires Inv(s)
    ensures ClosesOnlyStubs(s, ids, now, Apply(o, s, SweepBatch(ids, now)).db.runs)
  {
    var runs := Apply(o, s, SweepBatch(ids, now)).db.runs;
    forall r | 0 <= r < |runs|
      ensures s.db.runs[r].job < |s.db.jobs| && runs[r].job == s.db.runs[r].job
      ensures runs[r] != s.db.runs[r] ==> Reclaims(s, ids, now, runs[r].job) && OpenStub(s, runs[r].job, r)
    {
      SweepRunExact(o, s, ids, now, r);
    }
  }

  ghost predicate HasOpenStub(s: System, j: nat)
    requires j < |s.db.jobs|
  {
    exists r :: 0 <= r < |s.db.runs| && OpenStub(s, j, r)
  }

  /** So a sweep adds one crash to a job whose open stub it closes, and none to any other. */
  lemma SweepCrashes(o: Opts, s: System, ids: set<nat>, now: int, j: nat)
    requires Inv(s) && LiveUnfinished(s) && j < |s.db.jobs|
    ensures
      Crashes(Apply(o, s, SweepBatch(ids, now)).db.runs, j) == Crashes(s.db.runs, j) +
        if Reclaims(s, ids, now, j) && HasOpenStub(s, j) then 1 else 0
  {
    var runs := Apply(o, s, SweepBatch(ids, now)).db.runs;
    SweepCloses(o, s, ids, now);
    if Reclaims(s, ids, now, j) && HasOpenStub(s, j) {
      var r :| 0 <= r < |s.db.runs| && OpenStub(s, j, r);
      SweepRunExact(o, s, ids, now, r);
      CrashesOfOne(s.db.runs, runs, j, r);
    } else {
      WhereFrame(s.db.runs, runs, j, CrashedRun);
    }
  }

  lemma OtherRunsKept(o: Opts, s: System, act: Action)
    requires !act.FinalizeAttempt? && !act.SweepBatch?
    ensures
      var runs := Apply(o, s, act).db.runs;
      |s.db.runs| <= |runs| <= |s.db.runs| + 1 && runs[..|s.db.runs|] == s.db.runs
      && (|runs| > |s.db.runs| ==> !CrashedRun(runs[|s.db.runs|]))
  {
  }

  /** A late finalize of a crashed attempt still counts as one crash, and any other makes none. */
  lemma FinalizeCrashes(o: Opts, s: System, act: Action, j: nat)
    requires Inv(s) && LiveUnfinished(s) && act.FinalizeAttempt?
    ensures Crashes(Apply(o, s, act).db.runs, j) <= Crashes(s.db.runs, j)
  {
    FinalizeRow(o, s, act.att, act.result, act.err, act.now);
    var runs := Apply(o, s, act).db.runs;
    if runs != s.db.runs {
      var r := s.attempts[act.att].run.value;
      assert CrashedRun(runs[r]) ==> CrashedRun(s.db.runs[r]);
      WhereUpdate(s.db.runs, r, runs[r], j, CrashedRun);
    }
  }

  /** Outside a sweep a job's crashes never rise. */
  lemma OthersCrash(o: Opts, s: System, act: Action, j: nat)
    requires Inv(s) && LiveUnfinished(s) && !act.SweepBatch?
    ensures Crashes(Apply(o, s, act).db.runs, j) <= Crashes(s.db.runs, j)
  {
    if act.FinalizeAttempt? {
      FinalizeCrashes(o, s, act, j);
    } else {
      OtherRunsKept(o, s, act);
      assert Apply(o, s, act).db.runs[..|Apply(o, s, act).db.runs|] == Apply(o, s, act).db.runs;
    }
  }

  /** Only a revival moves a finished row back into play. */
  lemma MovedAlive(o: Opts, s: System, act: Action, j: nat)
    requires j < |s.db.jobs| && Terminal(s.db.jobs[j].state) && !Revives(s, act, j)
    ensures Terminal(Moved(o, s, act, j).state)
  {
  }

  lemma StepCrashes(o: Opts, s: System, act: Action, j: nat, v: nat)
    requires Inv(s) && LiveUnfinished(s) && CrashesWithin(o, s, j, v) && o.maxCrashes > 0
    requires j < |s.db.jobs|
    ensures
      var crashes, next := Crashes(Apply(o, s, act).db.runs, j), Moved(o, s, act, j);
      var w := v + if Revives(s, act, j) then 1 else 0;
      crashes <= o.maxCrashes + w && (!Terminal(next.state) ==> crashes < o.maxCrashes + w)
  {
    if act.SweepBatch? {
      SweepCrashes(o, s, act.ids, act.now, j);
      CrashesCount(s.db.runs, j);
    } else {
      OthersCrash(o, s, act, j);
      if Terminal(s.db.jobs[j].state) && !Revives(s, act, j) { MovedAlive(o, s, act, j); }
    }
  }

  lemma StepKeepsCrashes(o: Opts, s: System, act: Action, j: nat, v: nat)
    requires Inv(s) && LiveUnfinished(s) && CrashesWithin(o, s, j, v)
    ensures CrashesWithin(o, Apply(o, s, act), j, v + if Revives(s, act, j) then 1 else 0)
  {
    if o.maxCrashes > 0 {
      if j < |s.db.jobs| {
        StepRows(o, s, act);
        StepCrashes(o, s, act, j, v);
        assert Core(Apply(o, s, act).db.jobs[j]) == Core(Moved(o, s, act, j));
      } else {
        NewJobNoRows(o, s, act, j);
      }
    }
  }

  /** A job the action has just created, or has yet to, has no run rows. */
  lemma NewJobNoRows(o: Opts, s: System, act: Action, j: nat)
    requires Inv(s) && LiveUnfinished(s) && j >= |s.db.jobs|
    ensures Crashes(Apply(o, s, act).db.runs, j) == 0
  {
    var t := Apply(o, s, act);
    NoRowsYet(s, j, CrashedRun);
    if act.SweepBatch? {
      WhereFrame(s.db.runs, t.db.runs, j, CrashedRun);
    } else {
      OthersCrash(o, s, act, j);
    }
  }

  /** In every run, no job is crashed by the sweep more often than its crash budget and once more for each
      time an operator brought it back finished; and one still in play has crashes left. */
  lemma {:induction false} CrashBudgetHolds(o: Opts, s: System, acts: seq<Action>, j: nat, v: nat)
    requires Inv(s) && LiveUnfinished(s) && CrashesWithin(o, s, j, v)
    ensures CrashesWithin(o, Execute(o, s, acts), j, v + Revivals(o, s, acts, j))
    decreases |acts|
  {
    if |acts| > 0 {
      StepKeepsInv(o, s, acts[0]);
      StepKeepsLive(o, s, acts[0]);
      StepKeepsCrashes(o, s, acts[0], j, v);
      CrashBudgetHolds(o, Apply(o, s, acts[0]), acts[1..], j, v + if Revives(s, acts[0], j) then 1 else 0);
    }
  }

  // ---------------------------------------------------------------- every crash is counted, once and for good

  /** A crashed row records the state its job was left in, and its attempt is over. */
  ghost predicate CrashesMarked(s: System) {
    forall r :: 0 <= r < |s.db.runs| && s.db.runs[r].outcome == Crashed ==> Marked(s.db.jobs, s.db.runs[r])
  }

  predicate Marked(jobs: seq<Job>, run: Run) {
    run.jobState.Some? && run.job < |jobs| && !(jobs[run.job].state == Running && jobs[run.job].attempt == run.attempt)
  }

  /** No action puts an attempt that is over back to running: a claim starts the next one. */
  lemma StaysMarked(o: Opts, s: System, act: Action, r: nat)
    requires Inv(s) && r < |s.db.runs| && Marked(s.db.jobs, s.db.runs[r])
    ensures Marked(Apply(o, s, act).db.jobs, s.db.runs[r])
  {
    StepRows(o, s, act);
    var j := s.db.runs[r].job;
    assert Core(Apply(o, s, act).db.jobs[j]) == Core(Moved(o, s, act, j));
  }

  lemma SweepKeepsMarked(o: Opts, s: System, ids: set<nat>, now: int)
    requires Inv(s) && CrashesMarked(s)
    ensures CrashesMarked(Apply(o, s, SweepBatch(ids, now)))
  {
    var act := SweepBatch(ids, now);
    var t := Apply(o, s, act);
    forall r | 0 <= r < |t.db.runs| && t.db.runs[r].outcome == Crashed ensures Marked(t.db.jobs, t.db.runs[r]) {
      SweepRunExact(o, s, ids, now, r);
      if t.db.runs[r] == s.db.runs[r] {
        StaysMarked(o, s, act, r);
      } else {
        SweepMoves(o, s, ids, now);
        assert Core(t.db.jobs[s.db.runs[r].job]) == Core(Moved(o, s, act, s.db.runs[r].job));
      }
    }
  }

  /** Only a sweep crashes a run. */
  ghost predicate OldCrashes(a: seq<Run>, b: seq<Run>) {
    forall r :: 0 <= r < |b| && b[r].outcome == Crashed ==> r < |a| && b[r] == a[r]
  }

  lemma CrashesAreOld(o: Opts, s: System, act: Action)
    requires Inv(s) && LiveUnfinished(s) && !act.SweepBatch?
    ensures OldCrashes(s.db.runs, Apply(o, s, act).db.runs)
  {
    if act.FinalizeAttempt? {
      FinalizeCrashesNone(o, s, act.att, act.result, act.err, act.now);
    } else {
      OtherRunsKept(o, s, act);
      AddedCrashesNone(s.db.runs, Apply(o, s, act).db.runs);
    }
  }

  lemma FinalizeCrashesNone(o: Opts, s: System, a: nat, result: Result, err: Option<WorkError>, now: int)
    requires Inv(s) && LiveUnfinished(s)
    ensures OldCrashes(s.db.runs, ApplyFinalize(o, s, a, result, err, now).db.runs)
  {
    FinalizeRow(o, s, a, result, err, now);
  }

  lemma AddedCrashesNone(a: seq<Run>, b: seq<Run>)
    requires |a| <= |b| <= |a| + 1 && b[..|a|] == a && (|b| > |a| ==> !CrashedRun(b[|a|]))
    ensures OldCrashes(a, b)
  {
    forall r | 0 <= r < |a| ensures b[r] == a[r] { assert b[..|a|][r] == b[r]; }
  }

  lemma StepKeepsMarked(o: Opts, s: System, act: Action)
    requires Inv(s) && LiveUnfinished(s) && CrashesMarked(s)
    ensures CrashesMarked(Apply(o, s, act))
  {
    var t := Apply(o, s, act);
    if act.SweepBatch? {
      SweepKeepsMarked(o, s, act.ids, act.now);
    } else {
      CrashesAreOld(o, s, act);
      forall r | 0 <= r < |t.db.runs| && t.db.runs[r].outcome == Crashed ensures Marked(t.db.jobs, t.db.runs[r]) {
        StaysMarked(o, s, act, r);
      }
    }
  }

  /** The late finalize of a crashed attempt cannot hold its claim, so its row still counts as the crash. */
  lemma FinalizeKeepsCrashes(o: Opts, s: System, act: Action, j: nat)
    requires Inv(s) && LiveUnfinished(s) && CrashesMarked(s) && act.FinalizeAttempt?
    ensures Crashes(Apply(o, s, act).db.runs, j) == Crashes(s.db.runs, j)
  {
    FinalizeRow(o, s, act.att, act.result, act.err, act.now);
    var runs := Apply(o, s, act).db.runs;
    if runs != s.db.runs {
      var r := s.attempts[act.att].run.value;
      assert AttemptOk(s.db, s.attempts[act.att]);
      assert CrashedRun(runs[r]) == CrashedRun(s.db.runs[r]);
      WhereUpdate(s.db.runs, r, runs[r], j, CrashedRun);
    }
  }

  /** The action is a sweep that closes an open stub of job j. */
  ghost predicate Closes(s: System, act: Action, j: nat) {
    act.SweepBatch? && j < |s.db.jobs| && Reclaims(s, act.ids, act.now, j) && HasOpenStub(s, j)
  }

  ghost function Closings(o: Opts, s: System, acts: seq<Action>, j: nat): nat
    decreases |acts|
  {
    if |acts| == 0 then 0
    else (if Closes(s, acts[0], j) then 1 else 0) + Closings(o, Apply(o, s, acts[0]), acts[1..], j)
  }

  lemma StepCountsCrash(o: Opts, s: System, act: Action, j: nat)
    requires Inv(s) && LiveUnfinished(s) && CrashesMarked(s)
    ensures Crashes(Apply(o, s, act).db.runs, j) == Crashes(s.db.runs, j) + if Closes(s, act, j) then 1 else 0
  {
    if act.SweepBatch? {
      if j < |s.db.jobs| { SweepCrashes(o, s, act.ids, act.now, j); }
      else { NoRowsYet(s, j, CrashedRun); NewJobNoRows(o, s, act, j); }
    } else if act.FinalizeAttempt? {
      FinalizeKeepsCrashes(o, s, act, j);
    } else {
      OtherRunsKept(o, s, act);
      assert Apply(o, s, act).db.runs[..|Apply(o, s, act).db.runs|] == Apply(o, s, act).db.runs;
    }
  }

  /** Over every run, a job's crashes are the reclaims that closed one of its stubs: each is counted once, and
      nothing written later, not even the crashed attempt's own late outcome, takes it back. */
  lemma {:induction false} CrashesAreClosings(o: Opts, s: System, acts: seq<Action>, j: nat)
    requires Inv(s) && LiveUnfinished(s) && CrashesMarked(s)
    ensures |CrashRows(Execute(o, s, acts).db.runs, j)| == |CrashRows(s.db.runs, j)| + Closings(o, s, acts, j)
    decreases |acts|
  {
    if |acts| > 0 {
      StepKeepsInv(o, s, acts[0]);
      StepKeepsLive(o, s, acts[0]);
      StepKeepsMarked(o, s, acts[0]);
      StepCountsCrash(o, s, acts[0], j);
      CrashesCount(s.db.runs, j);
      CrashesCount(Apply(o, s, acts[0]).db.runs, j);
      CrashesAreClosings(o, Apply(o, s, acts[0]), acts[1..], j);
    }
  }

  /** A fresh system meets what these laws start from. */
  lemma FreshAudit(o: Opts, runners: nat)
    ensures
      var s := Fresh(runners);
      Inv(s) && LiveUnfinished(s) && OneSuccess(s) && CrashesMarked(s) && forall j: nat :: CrashesWithin(o, s, j, 0)
  {
    FreshInv(runners);
  }
}
