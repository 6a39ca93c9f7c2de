/**
 What the lease and the fence guarantee over every run: a claim that was lost
 never acts again, a claim advances its job at most once, and a gated runner's jobs
 stay recoverable.
 */
module Fence {
  import opened Options
  import opened JobTable
  import opened Lease
  import opened RowSteps
  import opened FollowUps

  /** The claim attempt a was taken under is no longer its job's. */
  ghost predicate Stale(s: System, a: nat) {
    a < |s.attempts| && s.attempts[a].raw.id < |s.db.jobs|
    && s.db.jobs[s.attempts[a].raw.id].token != Some(s.attempts[a].raw.token)
  }

  lemma RowsOk(s: System)
    requires Inv(s)
    ensures AllOk(s.db.jobs)
  {
  }

  /** A lost claim stays lost: tokens are never reused. */
  lemma StaleStep(o: Opts, s: System, act: Action, a: nat)
    requires Inv(s) && Stale(s, a)
    ensures Stale(Apply(o, s, act), a)
  {
    var t := Apply(o, s, act);
    var id := s.attempts[a].raw.id;
    assert AttemptOk(s.db, s.attempts[a]);
    if act.ClaimBatch? {
      assert t.attempts[a] == s.attempts[a];
      assert t.db.jobs[id].token == s.db.jobs[id].token || t.db.jobs[id].token == Some(s.db.nextToken);
    } else if act.InsertStub? {
      assert t.db.jobs == s.db.jobs;
    } else {
      RowsOk(s);
      OtherStepsFrame(o, s, act);
      assert RowEvolves(s.db.jobs[id], t.db.jobs[id]);
    }
  }

  lemma {:induction false} StaleForever(o: Opts, s: System, acts: seq<Action>, a: nat)
    requires Inv(s) && Stale(s, a)
    ensures Inv(Execute(o, s, acts)) && Stale(Execute(o, s, acts), a)
    decreases |acts|
  {
    if |acts| > 0 {
      StepKeepsInv(o, s, acts[0]);
      StaleStep(o, s, acts[0], a);
      StaleForever(o, Apply(o, s, acts[0]), acts[1..], a);
    }
  }

  /** What a lost claim's finalize still writes: its own run row, superseded. */
  ghost predicate WritesOwnRow(
      o: Opts, t: System, a: nat, result: Result, err: Option<WorkError>, now: int)
    requires Commits(o, t, a, result, err)
  {
    var r, runs := t.attempts[a].run.value, Apply(o, t, FinalizeAttempt(a, result, err, now)).db.runs;
    && r < |t.db.runs| && runs == t.db.runs[r := runs[r]]
    && runs[r].job == t.attempts[a].raw.id && runs[r].attempt == t.attempts[a].raw.attempt
    && runs[r].superseded && runs[r].children == 0 && runs[r].jobState == t.db.runs[r].jobState
    && runs[r].outcome == Verdict(result, err)
  }

  lemma StaleWrites(o: Opts, t: System, a: nat, result: Result, err: Option<WorkError>, now: int)
    requires Inv(t) && Stale(t, a)
    ensures Apply(o, t, FinalizeAttempt(a, result, err, now)).db.jobs == t.db.jobs
    ensures Commits(o, t, a, result, err) ==> WritesOwnRow(o, t, a, result, err, now)
  {
    assert AttemptOk(t.db, t.attempts[a]);
    assert !Holds(t.db.jobs, t.attempts[a].raw);
    CommitsIff(o, t, a, result, err, now);
  }

  /** The fence: once a claim is lost, however the run goes on, its finalize and its renewals
      leave every job as it is; what the finalize still writes is its own run row. */
  lemma LostClaimAdvancesNothing(
      o: Opts, s: System, acts: seq<Action>, a: nat, result: Result, err: Option<WorkError>, now: int, until: int)
    requires Inv(s) && Stale(s, a)
    ensures
      var t := Execute(o, s, acts);
      && Apply(o, t, FinalizeAttempt(a, result, err, now)).db.jobs == t.db.jobs
      && Apply(o, t, RenewLease(a, until)).db == t.db
      && (Commits(o, t, a, result, err) ==> WritesOwnRow(o, t, a, result, err, now))
  {
    StaleForever(o, s, acts, a);
    StaleWrites(o, Execute(o, s, acts), a, result, err, now);
  }

  /** A finalize that changed any job gave up its claim in the same transaction. */
  lemma AdvanceEndsClaim(o: Opts, s: System, a: nat, result: Result, err: Option<WorkError>, now: int)
    requires Inv(s)
    requires Apply(o, s, FinalizeAttempt(a, result, err, now)).db.jobs != s.db.jobs
    ensures a < |s.attempts| && Holds(s.db.jobs, s.attempts[a].raw)
    ensures Stale(Apply(o, s, FinalizeAttempt(a, result, err, now)), a)
  {
    var raw := s.attempts[a].raw;
    assert AttemptOk(s.db, s.attempts[a]);
    assert Holds(s.db.jobs, raw);
    var plan := PlanFinalize(raw, result, err, now);
    RowsOk(s);
    AdvanceReleases(s.db.jobs, raw, plan, result, now);
  }

  /** Each claim advances the job table at most once, over every continuation. */
  lemma OneAdvancePerClaim(
      o: Opts, s: System, a: nat, result: Result, err: Option<WorkError>, now: int,
      acts: seq<Action>, result': Result, err': Option<WorkError>, now': int)
    requires Inv(s)
    requires Apply(o, s, FinalizeAttempt(a, result, err, now)).db.jobs != s.db.jobs
    ensures
      var t := Execute(o, Apply(o, s, FinalizeAttempt(a, result, err, now)), acts);
      Apply(o, t, FinalizeAttempt(a, result', err', now')).db.jobs == t.db.jobs
  {
    AdvanceEndsClaim(o, s, a, result, err, now);
    StepKeepsInv(o, s, FinalizeAttempt(a, result, err, now));
    LostClaimAdvancesNothing(o, Apply(o, s, FinalizeAttempt(a, result, err, now)), acts, a, result', err', now', 0);
  }

  /** The job is cancelled, reclaimed past its lease, or retried while running. */
  predicate Underneath(s: System, act: Action, id: nat)
    requires id < |s.db.jobs|
  {
    || (act.CancelJob? && act.id == id)
    || (act.SweepBatch? && id in act.ids && Expired(s.db.jobs[id], act.now))
    || (act.RetryJob? && act.id == id && act.opts.allowRunning)
  }

  /** Each of these takes the claim away from the attempt underneath. */
  lemma UnderneathIsStale(o: Opts, s: System, act: Action, a: nat)
    requires Inv(s) && a < |s.attempts| && Holds(s.db.jobs, s.attempts[a].raw)
    requires Underneath(s, act, s.attempts[a].raw.id)
    ensures Stale(Apply(o, s, act), a)
  {
    StepRows(o, s, act);
    var id := s.attempts[a].raw.id;
    assert Core(Apply(o, s, act).db.jobs[id]) == Core(Moved(o, s, act, id));
  }

  // ---------------------------------------------------------------- nothing is lost

  /** Claimable, running under a lease the sweep can reclaim, or terminal. */
  predicate Accounted(j: Job) {
    Claimable(j.state) || (j.state.Running? && j.leasedUntil.Some? && j.token.Some?) || Terminal(j.state)
  }

  ghost predicate NonePaused(jobs: seq<Job>) {
    forall i :: 0 <= i < |jobs| ==> !jobs[i].state.Paused?
  }

  lemma MovedUnpaused(o: Opts, s: System, act: Action, i: nat)
    requires i < |s.db.jobs| && !s.db.jobs[i].state.Paused?
    ensures !Moved(o, s, act, i).state.Paused?
  {
  }

  lemma StepNonePaused(o: Opts, s: System, act: Action)
    requires NonePaused(s.db.jobs)
    ensures NonePaused(Apply(o, s, act).db.jobs)
  {
    StepRows(o, s, act);
    forall i | 0 <= i < |s.db.jobs| ensures !Apply(o, s, act).db.jobs[i].state.Paused? {
      MovedUnpaused(o, s, act, i);
      assert Core(Apply(o, s, act).db.jobs[i]) == Core(Moved(o, s, act, i));
    }
  }

  /** In every run, whatever is killed, gated or expired, every job that is not paused to begin with is
      accounted for. */
  lemma {:induction false} EveryJobAccounted(o: Opts, s: System, acts: seq<Action>)
    requires Inv(s) && NonePaused(s.db.jobs)
    ensures forall i :: 0 <= i < |Execute(o, s, acts).db.jobs| ==> Accounted(Execute(o, s, acts).db.jobs[i])
    decreases |acts|
  {
    if |acts| == 0 {
      forall i | 0 <= i < |s.db.jobs| ensures Accounted(s.db.jobs[i]) { assert RowOk(s.db.jobs[i]); }
    } else {
      StepKeepsInv(o, s, acts[0]);
      StepNonePaused(o, s, acts[0]);
      EveryJobAccounted(o, Apply(o, s, acts[0]), acts[1..]);
    }
  }

  // ---------------------------------------------------------------- a killed runner

  /** The row shape of a killed executor: its dispatch is over, its claim held and its run stub written. */
  ghost predicate Orphan(s: System, a: nat) {
    a < |s.attempts| && !s.attempts[a].live && s.attempts[a].run.Some? && Holds(s.db.jobs, s.attempts[a].raw)
    && s.attempts[a].run.value < |s.db.runs|
  }

  /** The claim, its attempt number and its stub are as they were. */
  ghost predicate SameOrphan(s: System, t: System, a: nat)
    requires Orphan(s, a) && Orphan(t, a)
  {
    var raw, r := s.attempts[a].raw, s.attempts[a].run.value;
    && t.attempts[a].raw == raw && t.attempts[a].run == Some(r) && t.db.runs[r] == s.db.runs[r]
    && t.db.jobs[raw.id].token == s.db.jobs[raw.id].token
    && t.db.jobs[raw.id].attempt == s.db.jobs[raw.id].attempt
    && t.db.jobs[raw.id].maxAttempts == s.db.jobs[raw.id].maxAttempts
  }

  /** No other claim of the job carries its token, so no other finalize advances it. */
  lemma OrphanRow(o: Opts, s: System, act: Action, a: nat)
    requires Inv(s) && Orphan(s, a) && !Underneath(s, act, s.attempts[a].raw.id)
    ensures
      var j, k := s.db.jobs[s.attempts[a].raw.id], Moved(o, s, act, s.attempts[a].raw.id);
      k.state.Running? && k.token == j.token && k.attempt == j.attempt && k.maxAttempts == j.maxAttempts
  {
    var id := s.attempts[a].raw.id;
    if act.FinalizeAttempt? && act.att < |s.attempts| && act.att != a {
      assert s.attempts[act.att].raw.id == id ==> s.attempts[act.att].raw.token != s.attempts[a].raw.token;
    }
  }

  lemma DistinctRuns(s: System, a: nat, b: nat)
    requires Inv(s) && a < |s.attempts| && b < |s.attempts| && a != b
    ensures s.attempts[a].run.Some? ==> s.attempts[a].run != s.attempts[b].run
  {
    assert AttemptOk(s.db, s.attempts[a]) && AttemptOk(s.db, s.attempts[b]);
  }

  /** A finalize writes its own run row only, and a sweep only those of the jobs it reclaims. */
  lemma StubUnderFinalize(o: Opts, s: System, act: Action, a: nat)
    requires Inv(s) && Orphan(s, a) && act.FinalizeAttempt?
    ensures
      var r, runs := s.attempts[a].run.value, Apply(o, s, act).db.runs;
      r < |runs| && runs[r] == s.db.runs[r]
  {
    if act.att < |s.attempts| && act.att != a { DistinctRuns(s, a, act.att); }
  }

  lemma StubUnderSweep(o: Opts, s: System, act: Action, a: nat)
    requires Inv(s) && Orphan(s, a) && act.SweepBatch? && !Underneath(s, act, s.attempts[a].raw.id)
    ensures
      var r, runs := s.attempts[a].run.value, Apply(o, s, act).db.runs;
      r < |runs| && runs[r] == s.db.runs[r]
  {
    assert AttemptOk(s.db, s.attempts[a]);
  }

  lemma OrphanStub(o: Opts, s: System, act: Action, a: nat)
    requires Inv(s) && Orphan(s, a) && !Underneath(s, act, s.attempts[a].raw.id)
    ensures
      var r, runs := s.attempts[a].run.value, Apply(o, s, act).db.runs;
      r < |runs| && runs[r] == s.db.runs[r]
  {
    if act.FinalizeAttempt? { StubUnderFinalize(o, s, act, a); }
    else if act.SweepBatch? { StubUnderSweep(o, s, act, a); }
  }

  lemma OrphanStep(o: Opts, s: System, act: Action, a: nat)
    requires Inv(s) && Orphan(s, a) && !Underneath(s, act, s.attempts[a].raw.id)
    ensures Orphan(Apply(o, s, act), a) && SameOrphan(s, Apply(o, s, act), a)
  {
    OrphanStub(o, s, act, a);
    OrphanRow(o, s, act, a);
    StepRows(o, s, act);
    var t, id := Apply(o, s, act), s.attempts[a].raw.id;
    assert Core(t.db.jobs[id]) == Core(Moved(o, s, act, id));
    OrphanAttempt(o, s, act, a);
  }

  lemma OrphanAttempt(o: Opts, s: System, act: Action, a: nat)
    requires a < |s.attempts| && !s.attempts[a].live && s.attempts[a].run.Some?
    ensures
      var t := Apply(o, s, act);
      a < |t.attempts| && !t.attempts[a].live
      && t.attempts[a].raw == s.attempts[a].raw && t.attempts[a].run == s.attempts[a].run
  {
  }

  ghost predicate NeverUnderneath(o: Opts, s: System, acts: seq<Action>, id: nat)
    decreases |acts|
  {
    |acts| > 0 ==>
      id < |s.db.jobs| && !Underneath(s, acts[0], id) && NeverUnderneath(o, Apply(o, s, acts[0]), acts[1..], id)
  }

  lemma {:induction false} OrphanStays(o: Opts, s: System, acts: seq<Action>, a: nat)
    requires Inv(s) && Orphan(s, a) && NeverUnderneath(o, s, acts, s.attempts[a].raw.id)
    ensures Orphan(Execute(o, s, acts), a) && SameOrphan(s, Execute(o, s, acts), a)
    decreases |acts|
  {
    if |acts| > 0 {
      OrphanStep(o, s, acts[0], a);
      StepKeepsInv(o, s, acts[0]);
      OrphanStays(o, Apply(o, s, acts[0]), acts[1..], a);
    }
  }

  /** A finalize its gate refuses leaves both tables untouched and counts an orphan exactly when kill mode was
      the reason; and its claim, lease token and stub stay, whatever every other runner does, until the job is
      cancelled, reclaimed past its lease, or retried while running. */
  lemma GatedFinalizeLeavesOrphan(o: Opts, s: System, a: nat, acts: seq<Action>)
    requires Inv(s) && a < |s.attempts| && s.attempts[a].live && s.attempts[a].run.Some? && !s.attempts[a].cleared
    requires Shut(s, s.attempts[a].runner) || Armed(s, s.attempts[a].runner)
    requires Holds(s.db.jobs, s.attempts[a].raw)
    requires NeverUnderneath(o, Apply(o, s, PassCall(a)), acts, s.attempts[a].raw.id)
    ensures
      var r, t := s.attempts[a].runner, Apply(o, s, PassCall(a));
      && t.db == s.db && Shut(t, r) && Orphan(t, a)
      && t.gates[r].orphaned == s.gates[r].orphaned + (if Shut(s, r) then 0 else 1)
      && Orphan(Execute(o, t, acts), a) && SameOrphan(t, Execute(o, t, acts), a)
  {
    assert AttemptOk(s.db, s.attempts[a]);
    StepKeepsInv(o, s, PassCall(a));
    OrphanStays(o, Apply(o, s, PassCall(a)), acts, a);
  }

  /** The claim transactions runner r commits in a run. */
  function ClaimsTaken(o: Opts, s: System, acts: seq<Action>, r: nat): nat
    decreases |acts|
  {
    if |acts| == 0 then 0
    else
      (if acts[0].ClaimBatch? && acts[0].runner == r && Apply(o, s, acts[0]) != s then 1 else 0)
      + ClaimsTaken(o, Apply(o, s, acts[0]), acts[1..], r)
  }

  /** A shut gate lets through no claim but those already past their check when it shut. */
  lemma {:induction false} ShutStopsClaims(o: Opts, s: System, acts: seq<Action>, r: nat)
    requires Shut(s, r) && forall k :: 0 <= k < |acts| ==> acts[k] != OpenGate(r)
    ensures Shut(Execute(o, s, acts), r)
    ensures ClaimsTaken(o, s, acts, r) + Execute(o, s, acts).gates[r].passed == s.gates[r].passed
    decreases |acts|
  {
    if |acts| > 0 {
      assert acts[0] != OpenGate(r);
      ShutStep(o, s, acts[0], r);
      ShutStopsClaims(o, Apply(o, s, acts[0]), acts[1..], r);
    }
  }

  lemma ShutStep(o: Opts, s: System, act: Action, r: nat)
    requires Shut(s, r) && act != OpenGate(r)
    ensures
      var t := Apply(o, s, act);
      && Shut(t, r)
      && t.gates[r].passed + (if act.ClaimBatch? && act.runner == r && t != s then 1 else 0) == s.gates[r].passed
  {
  }

  /** An armed runner with a claim call past its check: its finalize is refused and shuts the gate, and the
      claim still commits. */
  lemma KilledRunnerStillClaims(o: Opts, s: System, r: nat, a: nat, id: nat, at: int)
    requires r < |s.gates| && !s.gates[r].shut && s.gates[r].kill && s.gates[r].passed >= 1
    requires id < |s.db.jobs| && Ready(s.db.jobs[id], at)
    requires a < |s.attempts| && s.attempts[a].runner == r && s.attempts[a].live
    requires s.attempts[a].run.Some? && !s.attempts[a].cleared
    ensures
      var t := Execute(o, s, [PassCall(a), ClaimBatch(r, [id], at, 0)]);
      && Shut(t, r) && t.gates[r].orphaned == s.gates[r].orphaned + 1
      && |t.db.jobs| == |s.db.jobs| && t.db.jobs[id].state.Running?
      && |t.attempts| == |s.attempts| + 1 && t.attempts[|s.attempts|].runner == r
      && t.attempts[|s.attempts|].raw.id == id && Holds(t.db.jobs, t.attempts[|s.attempts|].raw)
  {
    var t := Apply(o, s, PassCall(a));
    assert LegalPick(t.db, [id], at);
    assert id in [id];
    ExecuteTwo(o, s, PassCall(a), ClaimBatch(r, [id], at, 0));
  }

  /** A running job always carries the lease a sweep needs. A sweep past it releases the claim: back to available
      exactly while attempts remain and the crash leaves some of the crash budget, and discarded otherwise; a
      sweep at any instant up to it leaves the row alone. */
  lemma SweepReleases(o: Opts, s: System, id: nat, ids: set<nat>, now: int)
    requires Inv(s) && id < |s.db.jobs| && s.db.jobs[id].state.Running? && id in ids
    ensures s.db.jobs[id].leasedUntil.Some?
    ensures s.db.jobs[id].leasedUntil.value < now ==>
      var j, k := s.db.jobs[id], Apply(o, s, SweepBatch(ids, now)).db.jobs[id];
      && (k.state.Available? <==>
            j.attempt < j.maxAttempts && (o.maxCrashes <= 0 || 1 + |CrashRows(s.db.runs, id)| < o.maxCrashes))
      && (!k.state.Available? ==> k.state.Discarded? && k.finalizedAt == Some(now))
      && k.token.None? && k.leasedUntil.None?
      && k == j.(state := k.state, token := None, leasedUntil := None, barrier := k.barrier,
                 finalizedAt := if k.state.Available? then j.finalizedAt else k.finalizedAt)
    ensures s.db.jobs[id].leasedUntil.value >= now ==>
      var k := Apply(o, s, SweepBatch(ids, now)).db.jobs[id];
      k == s.db.jobs[id].(barrier := k.barrier)
  {
    assert RowOk(s.db.jobs[id]);
    SweepMoves(o, s, ids, now);
    assert Core(Apply(o, s, SweepBatch(ids, now)).db.jobs[id]) == Core(Moved(o, s, SweepBatch(ids, now), id));
  }

  lemma SuccessFinishes(o: Opts, s: System, a: nat, now: int)
    requires Advances(o, s, a, Result(false, None, [], None), None, now)
    ensures
      var t := Apply(o, s, FinalizeAttempt(a, Result(false, None, [], None), None, now));
      s.attempts[a].raw.id < |t.db.jobs| && t.db.jobs[s.attempts[a].raw.id].state.Succeeded?
  {
    var act := FinalizeAttempt(a, Result(false, None, [], None), None, now);
    StepRows(o, s, act);
    var id := s.attempts[a].raw.id;
    assert Core(Apply(o, s, act).db.jobs[id]) == Core(Moved(o, s, act, id));
  }

  /** Claiming, stubbing and finalizing one ready job under an open gate finishes it. */
  lemma ReadyJobFinishes(o: Opts, s: System, r: nat, id: nat, now: int)
    requires Inv(s) && r < |s.gates| && !s.gates[r].shut && !s.gates[r].kill
    requires id < |s.db.jobs| && Ready(s.db.jobs[id], now)
    ensures
      var s2 := PassAndStub(o, PassAndClaim(o, s, r, id, now), |s.attempts|);
      var s3 := PassAndFinalize(o, s2, |s.attempts|, Result(false, None, [], None), None, now);
      id < |s3.db.jobs| && s3.db.jobs[id].state.Succeeded?
  {
    ClaimAndStubOne(o, s, r, id, now);
    var s2 := PassAndStub(o, PassAndClaim(o, s, r, id, now), |s.attempts|);
    SuccessFinishes(o, Apply(o, s2, PassCall(|s.attempts|)), |s.attempts|, now);
  }

  /** The actions that take a ready job through runner r. */
  function Serve(a: nat, r: nat, id: nat, now: int): seq<Action> {
    [PassClaim(r), ClaimBatch(r, [id], now, 0)] + [PassCall(a), InsertStub(a)]
    + [PassCall(a), FinalizeAttempt(a, Result(false, None, [], None), None, now)]
  }

  lemma ServeRuns(o: Opts, s: System, a: nat, r: nat, id: nat, now: int)
    ensures
      var stubbed := PassAndStub(o, PassAndClaim(o, s, r, id, now), a);
      Execute(o, s, Serve(a, r, id, now))
      == PassAndFinalize(o, stubbed, a, Result(false, None, [], None), None, now)
  {
    var s1 := PassAndClaim(o, s, r, id, now);
    var s2 := PassAndStub(o, s1, a);
    var claim, stub := [PassClaim(r), ClaimBatch(r, [id], now, 0)], [PassCall(a), InsertStub(a)];
    var fin := FinalizeAttempt(a, Result(false, None, [], None), None, now);
    ExecuteTwo(o, s, claim[0], claim[1]);
    ExecuteTwo(o, s1, stub[0], stub[1]);
    ExecuteTwo(o, s2, PassCall(a), fin);
    ExecuteTail(o, s, claim, stub);
    ExecuteTail(o, s, claim + stub, [PassCall(a), fin]);
  }

  /** A sweep late enough ends a job whose budget its crash has spent, and leaves any other ready. */
  lemma ReadyAfterSweep(o: Opts, s: System, id: nat) returns (now: int)
    requires Inv(s) && id < |s.db.jobs| && !s.db.jobs[id].state.Paused? && !Terminal(s.db.jobs[id].state)
    ensures
      var t := Apply(o, s, SweepBatch({id}, now));
      id < |t.db.jobs| && if LeftSpent(o, s.db, id) then t.db.jobs[id].state.Discarded? else Ready(t.db.jobs[id], now)
  {
    var j := s.db.jobs[id];
    assert RowOk(j);
    now := 1 +
      if j.leasedUntil.Some? && j.leasedUntil.value >= j.scheduledAt then j.leasedUntil.value else j.scheduledAt;
    SweepTouchesOnly(o, s, id, now);
    if j.state.Running? { SweepReleases(o, s, id, {id}, now); }
  }

  /** Running on its last attempt, or on the attempt whose crash spends the crash budget. */
  ghost predicate LeftSpent(o: Opts, db: Tables, id: nat)
    requires id < |db.jobs|
  {
    && db.jobs[id].state.Running?
    && (db.jobs[id].attempt >= db.jobs[id].maxAttempts
        || (o.maxCrashes > 0 && 1 + |CrashRows(db.runs, id)| >= o.maxCrashes))
  }

  ghost predicate Succeeds(u: System, id: nat) {
    id < |u.db.jobs| && u.db.jobs[id].state.Succeeded?
  }

  lemma ServeFinishes(o: Opts, s: System, r: nat, id: nat, now: int)
    requires Inv(s) && r < |s.gates| && !s.gates[r].shut && !s.gates[r].kill
    requires id < |s.db.jobs| && Ready(s.db.jobs[id], now)
    ensures Succeeds(Execute(o, s, Serve(|s.attempts|, r, id, now)), id)
  {
    ReadyJobFinishes(o, s, r, id, now);
    ServeRuns(o, s, |s.attempts|, r, id, now);
  }

  /** No gated runner ever loses a job: from every reachable state, whatever other runners are dead or shut, one
      sweep and then runner r's own claim, stub and finalize bring any job not held by an operator to an end:
      succeeded, or discarded by the sweep exactly when the crash it found spent the job's budget. */
  lemma EveryJobCanFinish(o: Opts, s: System, r: nat, id: nat) returns (now: int, acts: seq<Action>)
    requires Inv(s) && r < |s.gates| && !s.gates[r].shut && !s.gates[r].kill
    requires id < |s.db.jobs| && !s.db.jobs[id].state.Paused?
    ensures acts ==
      if Terminal(s.db.jobs[id].state) then []
      else if LeftSpent(o, s.db, id) then [SweepBatch({id}, now)]
      else [SweepBatch({id}, now)] + Serve(|s.attempts|, r, id, now)
    ensures
      var j, jobs := s.db.jobs[id], Execute(o, s, acts).db.jobs;
      && id < |jobs|
      && if Terminal(j.state) then jobs[id] == j
         else if LeftSpent(o, s.db, id) then jobs[id].state.Discarded?
         else jobs[id].state.Succeeded?
  {
    now := 0;
    acts := [];
    if !Terminal(s.db.jobs[id].state) {
      now := ReadyAfterSweep(o, s, id);
      var sweep := SweepBatch({id}, now);
      if LeftSpent(o, s.db, id) {
        acts := [sweep];
        ExecuteOne(o, s, sweep);
      } else {
        acts := [sweep] + Serve(|s.attempts|, r, id, now);
        var serve := Serve(|s.attempts|, r, id, now);
        assert Succeeds(Execute(o, Apply(o, s, sweep), serve), id) by {
          StepKeepsInv(o, s, sweep);
          ServeFinishes(o, Apply(o, s, sweep), r, id, now);
        }
        ExecuteOne(o, s, sweep);
        ExecuteTail(o, s, [sweep], serve);
      }
    }
  }

  lemma SweepTouchesOnly(o: Opts, s: System, id: nat, now: int)
    requires Inv(s) && id < |s.db.jobs|
    ensures
      var t := Apply(o, s, SweepBatch({id}, now));
      && id < |t.db.jobs| && t.db.jobs[id].scheduledAt == s.db.jobs[id].scheduledAt
      && (!s.db.jobs[id].state.Running? ==> t.db.jobs[id].state == s.db.jobs[id].state)
  {
    SweepMoves(o, s, {id}, now);
    assert Core(Apply(o, s, SweepBatch({id}, now)).db.jobs[id]) == Core(Moved(o, s, SweepBatch({id}, now), id));
  }
}
