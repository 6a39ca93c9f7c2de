/** The attempt budget over every run, and the one way to overrun it. */
module Budget {
  import opened Options
  import opened JobTable
  import opened Lease
  import opened RowSteps

  // ---------------------------------------------------------------- attempt budget

  /** A waiting job has an attempt left; a running or finished one has not overrun. */
  predicate WithinBudget(j: Job) {
    && j.maxAttempts >= 1
    && (if j.state.Running? || Terminal(j.state) then j.attempt <= j.maxAttempts else j.attempt < j.maxAttempts)
  }

  ghost predicate AllWithinBudget(jobs: seq<Job>) {
    forall i :: 0 <= i < |jobs| ==> WithinBudget(jobs[i])
  }

  /** The test a caller can make before re-queueing a job. */
  predicate GrantsHeadroom(j: Job, opts: RetryOpts) {
    opts.resetAttempts || j.attempt < j.maxAttempts
  }

  /** Re-queueing keeps a job within budget exactly when the call restores the budget or some is left. */
  lemma RetryBudgetExact(j: Job, opts: RetryOpts, now: int)
    requires WithinBudget(j)
    ensures WithinBudget(RetryRow(j, opts, now)) <==> GrantsHeadroom(j, opts)
    ensures GrantsHeadroom(j, opts) && opts.resetAttempts ==>
      RetryRow(j, opts, now).maxAttempts - j.attempt == (if opts.budget > 0 then opts.budget else j.maxAttempts)
  {
  }

  /** Every retry and replay in the action grants headroom to the rows it moves. */
  predicate BudgetRestoring(s: System, act: Action) {
    match act
    case RetryJob(id, opts, _) =>
      id < |s.db.jobs| && RetryAllowed(s.db, id, opts) ==> GrantsHeadroom(s.db.jobs[id], opts)
    case ReplayJobs(ids, states, opts, _) =>
      !ReplayRefused(states, opts) ==>
        forall i :: 0 <= i < |s.db.jobs| && ReplayTarget(s.db, i, ids, states) ==> GrantsHeadroom(s.db.jobs[i], opts)
    case _ => true
  }

  predicate BudgetRestoringRun(o: Opts, s: System, acts: seq<Action>)
    decreases |acts|
  {
    |acts| > 0 ==> BudgetRestoring(s, acts[0]) && BudgetRestoringRun(o, Apply(o, s, acts[0]), acts[1..])
  }

  lemma ClaimWithinBudget(o: Opts, s: System, act: Action, i: nat)
    requires act.ClaimBatch? && i < |s.db.jobs| && WithinBudget(s.db.jobs[i])
    ensures WithinBudget(Moved(o, s, act, i))
  {
    if i in act.picked && LegalPick(s.db, act.picked, act.now) {
      var k :| 0 <= k < |act.picked| && act.picked[k] == i;
      assert Ready(s.db.jobs[act.picked[k]], act.now);
    }
  }

  /** The claim's copy of the budget is the row's while its token holds, so the plan's verdict is the row's. */
  lemma FinalizeWithinBudget(o: Opts, s: System, act: Action, i: nat)
    requires Inv(s) && act.FinalizeAttempt? && i < |s.db.jobs| && WithinBudget(s.db.jobs[i])
    ensures WithinBudget(Moved(o, s, act, i))
  {
    if act.att < |s.attempts| { assert AttemptOk(s.db, s.attempts[act.att]); }
  }

  lemma RequeueWithinBudget(o: Opts, s: System, act: Action, i: nat)
    requires (act.RetryJob? || act.ReplayJobs?) && i < |s.db.jobs| && WithinBudget(s.db.jobs[i])
    ensures WithinBudget(Moved(o, s, act, i)) <==> (Requeues(s, act, i) ==> GrantsHeadroom(s.db.jobs[i], act.opts))
  {
    RetryBudgetExact(s.db.jobs[i], act.opts, act.now);
  }

  lemma OtherWithinBudget(o: Opts, s: System, act: Action, i: nat)
    requires !act.ClaimBatch? && !act.FinalizeAttempt? && !act.RetryJob? && !act.ReplayJobs?
    requires Inv(s) && i < |s.db.jobs| && WithinBudget(s.db.jobs[i])
    ensures WithinBudget(Moved(o, s, act, i))
  {
  }

  /** A row leaves its budget only by a re-queue that grants it no headroom. */
  lemma MovedWithinBudget(o: Opts, s: System, act: Action, i: nat)
    requires Inv(s) && i < |s.db.jobs| && WithinBudget(s.db.jobs[i])
    ensures WithinBudget(Moved(o, s, act, i)) <==> (Requeues(s, act, i) ==> GrantsHeadroom(s.db.jobs[i], act.opts))
  {
    if act.ClaimBatch? { ClaimWithinBudget(o, s, act, i); }
    else if act.FinalizeAttempt? { FinalizeWithinBudget(o, s, act, i); }
    else if act.RetryJob? || act.ReplayJobs? { RequeueWithinBudget(o, s, act, i); }
    else { OtherWithinBudget(o, s, act, i); }
  }

  /** One step keeps every job within budget exactly when its re-queues restore it. */
  lemma StepBudgetIff(o: Opts, s: System, act: Action)
    requires Inv(s) && AllWithinBudget(s.db.jobs)
    ensures AllWithinBudget(Apply(o, s, act).db.jobs) <==> BudgetRestoring(s, act)
  {
    StepRows(o, s, act);
    var after := Apply(o, s, act).db.jobs;
    forall i | 0 <= i < |s.db.jobs|
      ensures WithinBudget(after[i]) <==> (Requeues(s, act, i) ==> GrantsHeadroom(s.db.jobs[i], act.opts))
    {
      MovedWithinBudget(o, s, act, i);
      assert Core(after[i]) == Core(Moved(o, s, act, i));
    }
    RestoringIs(s, act);
  }

  lemma RestoringIs(s: System, act: Action)
    ensures BudgetRestoring(s, act) <==>
            forall i :: 0 <= i < |s.db.jobs| && Requeues(s, act, i) ==> GrantsHeadroom(s.db.jobs[i], act.opts)
  {
    if act.RetryJob? && act.id < |s.db.jobs| && RetryAllowed(s.db, act.id, act.opts) {
      assert Requeues(s, act, act.id);
    } else if act.ReplayJobs? && !ReplayRefused(act.states, act.opts) {
      forall i | 0 <= i < |s.db.jobs|
        ensures Requeues(s, act, i) <==> ReplayTarget(s.db, i, act.ids, act.states)
      {
      }
    }
  }

  /** Every job is within its budget at every moment of the run. */
  ghost predicate AlwaysWithinBudget(o: Opts, s: System, acts: seq<Action>) {
    forall n :: 0 <= n <= |acts| ==> AllWithinBudget(Execute(o, s, acts[..n]).db.jobs)
  }

  lemma AlwaysStep(o: Opts, s: System, acts: seq<Action>)
    requires |acts| > 0
    ensures AlwaysWithinBudget(o, s, acts) <==>
            AllWithinBudget(s.db.jobs) && AlwaysWithinBudget(o, Apply(o, s, acts[0]), acts[1..])
  {
    forall n | 0 <= n < |acts|
      ensures Execute(o, s, acts[..n + 1]) == Execute(o, Apply(o, s, acts[0]), acts[1..][..n])
    {
      assert acts[..n + 1][1..] == acts[1..][..n];
    }
    assert Execute(o, s, acts[..0]) == s;
    if AllWithinBudget(s.db.jobs) && AlwaysWithinBudget(o, Apply(o, s, acts[0]), acts[1..]) {
      forall n | 0 <= n <= |acts| ensures AllWithinBudget(Execute(o, s, acts[..n]).db.jobs) {
        if n > 0 {
          var m := n - 1;
          assert Execute(o, s, acts[..m + 1]) == Execute(o, Apply(o, s, acts[0]), acts[1..][..m]);
        }
      }
    }
    if AlwaysWithinBudget(o, s, acts) {
      forall n | 0 <= n <= |acts[1..]|
        ensures AllWithinBudget(Execute(o, Apply(o, s, acts[0]), acts[1..][..n]).db.jobs)
      {
        assert AllWithinBudget(Execute(o, s, acts[..n + 1]).db.jobs);
      }
    }
  }

  /** From any state within budget, a run stays within budget throughout if and only if every retry and
      replay in it restores the budget of the rows it moves. */
  lemma {:induction false} BudgetHoldsIff(o: Opts, s: System, acts: seq<Action>)
    requires Inv(s) && AllWithinBudget(s.db.jobs)
    ensures AlwaysWithinBudget(o, s, acts) <==> BudgetRestoringRun(o, s, acts)
    decreases |acts|
  {
    if |acts| == 0 {
      assert forall n :: 0 <= n <= |acts| ==> acts[..n] == [];
    } else {
      AlwaysStep(o, s, acts);
      StepBudgetIff(o, s, acts[0]);
      StepKeepsInv(o, s, acts[0]);
      if BudgetRestoring(s, acts[0]) {
        BudgetHoldsIff(o, Apply(o, s, acts[0]), acts[1..]);
      } else {
        assert acts[1..][..0] == [];
        assert !AllWithinBudget(Execute(o, Apply(o, s, acts[0]), acts[1..][..0]).db.jobs);
      }
    }
  }

  lemma {:induction false} RunCountBounded(atts: seq<Attempt>, job: nat)
    ensures Stubbed(atts, job) <= Claims(atts, job)
    decreases |atts|
  {
    if |atts| > 0 { RunCountBounded(atts[..|atts| - 1], job); }
  }

  /** In every run whose retries and replays restore the budget: a waiting job has an attempt left, a
      running one has not overrun, run rows of one job have distinct attempts, and there are never more
      of them than the job's current max_attempts. */
  lemma {:induction false} BudgetHolds(o: Opts, s: System, acts: seq<Action>)
    requires Inv(s) && AllWithinBudget(s.db.jobs) && BudgetRestoringRun(o, s, acts)
    ensures
      var t := Execute(o, s, acts);
      && AllWithinBudget(t.db.jobs) && RunsDistinct(t.db.runs)
      && forall j :: 0 <= j < |t.db.jobs| ==> RunCount(t.db.runs, j) <= t.db.jobs[j].attempt <= t.db.jobs[j].maxAttempts
    decreases |acts|
  {
    if |acts| > 0 {
      StepBudgetIff(o, s, acts[0]);
      StepKeepsInv(o, s, acts[0]);
      BudgetHolds(o, Apply(o, s, acts[0]), acts[1..]);
    } else {
      forall j | 0 <= j < |s.db.jobs|
        ensures RunCount(s.db.runs, j) <= s.db.jobs[j].attempt <= s.db.jobs[j].maxAttempts
      {
        RunCountBounded(s.attempts, j);
        assert WithinBudget(s.db.jobs[j]);
      }
    }
  }

  /** A claimable job that has used up its max_attempts, with a runner able to claim it. */
  ghost predicate OneClaimFromOverrun(s: System, r: nat, id: nat, at: int) {
    && Inv(s) && r < |s.gates| && !s.gates[r].shut
    && id < |s.db.jobs| && Ready(s.db.jobs[id], at) && RunCount(s.db.runs, id) >= s.db.jobs[id].maxAttempts
  }

  ghost predicate Overran(t: System, id: nat) {
    id < |t.db.jobs| && RunCount(t.db.runs, id) > t.db.jobs[id].maxAttempts
  }

  /** Once claimed and its stub written, it has more run rows than max_attempts. */
  lemma ClaimOverruns(o: Opts, s: System, r: nat, id: nat, at: int)
    requires OneClaimFromOverrun(s, r, id, at)
    ensures Overran(PassAndStub(o, PassAndClaim(o, s, r, id, at), |s.attempts|), id)
  {
    ClaimAndStubOne(o, s, r, id, at);
    var t := PassAndStub(o, PassAndClaim(o, s, r, id, at), |s.attempts|);
    assert t.db.runs[..|s.db.runs|] == s.db.runs;
  }

  lemma PlainRetryGrantsNothing(o: Opts, s: System, id: nat, opts: RetryOpts, now: int)
    requires id < |s.db.jobs| && s.db.jobs[id].state.Discarded? && opts.force && !GrantsHeadroom(s.db.jobs[id], opts)
    ensures
      var t := Apply(o, s, RetryJob(id, opts, now));
      && t.db.runs == s.db.runs && t.gates == s.gates && |t.db.jobs| == |s.db.jobs|
      && Ready(t.db.jobs[id], now + opts.delay) && t.db.jobs[id].maxAttempts == s.db.jobs[id].maxAttempts
  {
  }

  /** Without restored headroom the bound breaks: a discarded job whose every attempt has its run row,
      force-retried plainly at attempt == max_attempts, is one claim from overrunning it. */
  lemma PlainForcedRetryOverruns(o: Opts, s: System, r: nat, id: nat, opts: RetryOpts, now: int)
    requires Inv(s) && r < |s.gates| && !s.gates[r].shut
    requires id < |s.db.jobs| && s.db.jobs[id].state.Discarded? && s.db.jobs[id].attempt == s.db.jobs[id].maxAttempts
    requires RunCount(s.db.runs, id) == s.db.jobs[id].attempt
    requires opts.force && !GrantsHeadroom(s.db.jobs[id], opts)
    ensures OneClaimFromOverrun(Apply(o, s, RetryJob(id, opts, now)), r, id, now + opts.delay)
  {
    PlainRetryGrantsNothing(o, s, id, opts, now);
    StepKeepsInv(o, s, RetryJob(id, opts, now));
  }

  const NOTHING := Result(false, None, [], None)

  /** A ready job on its last attempt, every earlier one with its run row, and a runner to fail it. */
  ghost predicate OnLastAttempt(s: System, r: nat, id: nat, at: int) {
    && Inv(s) && r < |s.gates| && !s.gates[r].shut && !s.gates[r].kill
    && id < |s.db.jobs| && Ready(s.db.jobs[id], at) && s.db.jobs[id].attempt + 1 == s.db.jobs[id].maxAttempts
    && RunCount(s.db.runs, id) == s.db.jobs[id].attempt
  }

  function FailOnce(o: Opts, s: System, r: nat, id: nat, at: int): System {
    PassAndFinalize(o, PassAndStub(o, PassAndClaim(o, s, r, id, at), |s.attempts|), |s.attempts|,
                    NOTHING, Some(WorkError(Transient, 1)), at)
  }

  lemma FailOnceStubbed(o: Opts, s: System, r: nat, id: nat, at: int)
    requires OnLastAttempt(s, r, id, at)
    ensures
      var t := PassAndStub(o, PassAndClaim(o, s, r, id, at), |s.attempts|);
      && Inv(t) && t.gates == s.gates && |t.attempts| == |s.attempts| + 1
      && t.attempts[|s.attempts|] == Attempt(r, Claimed(s.db, id), Some(|s.db.runs|), true, false, false)
      && t.db.jobs == s.db.jobs[id := ClaimRow(s.db.jobs[id], s.db.nextToken, at)]
      && RunCount(t.db.runs, id) == s.db.jobs[id].maxAttempts
  {
    ClaimAndStubOne(o, s, r, id, at);
    PassAndClaimKeepsInv(o, s, r, id, at);
    PassAndStubKeepsInv(o, PassAndClaim(o, s, r, id, at), |s.attempts|);
    var t := PassAndStub(o, PassAndClaim(o, s, r, id, at), |s.attempts|);
    assert t.db.runs[..|s.db.runs|] == s.db.runs;
  }

  /** A transient failure of the last attempt discards the job at its ceiling. */
  lemma FailOnceDiscards(o: Opts, s: System, r: nat, id: nat, at: int)
    requires OnLastAttempt(s, r, id, at)
    ensures
      var t := FailOnce(o, s, r, id, at);
      && Inv(t) && t.gates == s.gates && |t.attempts| == |s.attempts| + 1
      && id < |t.db.jobs| && t.db.jobs[id].state.Discarded?
      && t.db.jobs[id].attempt == t.db.jobs[id].maxAttempts == RunCount(t.db.runs, id)
  {
    FailOnceStubbed(o, s, r, id, at);
    var a := |s.attempts|;
    var s2 := PassAndStub(o, PassAndClaim(o, s, r, id, at), a);
    var s3 := Apply(o, s2, PassCall(a));
    var fail := FinalizeAttempt(a, NOTHING, Some(WorkError(Transient, 1)), at);
    StepKeepsInv(o, s2, PassCall(a));
    FailedRow(o, s3, a, at);
    StepKeepsInv(o, s3, fail);
  }

  lemma FailedRow(o: Opts, s: System, a: nat, at: int)
    requires Inv(s) && CanFinalize(s, a) && Holds(s.db.jobs, s.attempts[a].raw)
    requires s.attempts[a].raw.attempt >= s.attempts[a].raw.maxAttempts
    ensures
      var id := s.attempts[a].raw.id;
      var t := Apply(o, s, FinalizeAttempt(a, NOTHING, Some(WorkError(Transient, 1)), at));
      && t.gates == s.gates && |t.attempts| == |s.attempts| && id < |t.db.jobs|
      && t.db.jobs[id].state.Discarded? && t.db.jobs[id].attempt == s.db.jobs[id].attempt
      && t.db.jobs[id].maxAttempts == s.db.jobs[id].maxAttempts && RunCount(t.db.runs, id) == RunCount(s.db.runs, id)
  {
    var id := s.attempts[a].raw.id;
    var fail := FinalizeAttempt(a, NOTHING, Some(WorkError(Transient, 1)), at);
    assert AttemptOk(s.db, s.attempts[a]);
    StepRows(o, s, fail);
    var t := Apply(o, s, fail);
    assert Core(t.db.jobs[id]) == Core(Moved(o, s, fail, id));
    WhereFrame(s.db.runs, t.db.runs, id, AnyRun);
  }

  function PlainRetry(): RetryOpts {
    RetryOpts(true, false, false, 0, 0)
  }

  /** The last attempt fails, an operator force-retries plainly, and the job is claimed once more. */
  function Overrun(a: nat, r: nat, id: nat, at: int): seq<Action> {
    [PassClaim(r), ClaimBatch(r, [id], at, 0)] + [PassCall(a), InsertStub(a)]
    + [PassCall(a), FinalizeAttempt(a, NOTHING, Some(WorkError(Transient, 1)), at)]
    + [RetryJob(id, PlainRetry(), at)]
    + [PassClaim(r), ClaimBatch(r, [id], at, 0)] + [PassCall(a + 1), InsertStub(a + 1)]
  }

  lemma OverrunRuns(o: Opts, s: System, a: nat, r: nat, id: nat, at: int)
    ensures
      var fail := FinalizeAttempt(a, NOTHING, Some(WorkError(Transient, 1)), at);
      var t := PassAndFinalize(o, PassAndStub(o, PassAndClaim(o, s, r, id, at), a), a,
                               NOTHING, Some(WorkError(Transient, 1)), at);
      Execute(o, s, Overrun(a, r, id, at))
      == PassAndStub(o, PassAndClaim(o, Apply(o, t, RetryJob(id, PlainRetry(), at)), r, id, at), a + 1)
  {
    var fail := FinalizeAttempt(a, NOTHING, Some(WorkError(Transient, 1)), at);
    var retry := RetryJob(id, PlainRetry(), at);
    var s1 := PassAndClaim(o, s, r, id, at);
    var s2 := PassAndStub(o, s1, a);
    var s3 := Apply(o, Apply(o, s2, PassCall(a)), fail);
    var s4 := Apply(o, s3, retry);
    var s5 := PassAndClaim(o, s4, r, id, at);
    var claim, stub := [PassClaim(r), ClaimBatch(r, [id], at, 0)], [PassCall(a), InsertStub(a)];
    ExecuteTwo(o, s, PassClaim(r), ClaimBatch(r, [id], at, 0));
    ExecuteTwo(o, s1, PassCall(a), InsertStub(a));
    ExecuteTwo(o, s2, PassCall(a), fail);
    ExecuteOne(o, s3, retry);
    ExecuteTwo(o, s4, PassClaim(r), ClaimBatch(r, [id], at, 0));
    ExecuteTwo(o, s5, PassCall(a + 1), InsertStub(a + 1));
    ExecuteTail(o, s, claim, stub);
    ExecuteTail(o, s, claim + stub, [PassCall(a), fail]);
    ExecuteTail(o, s, claim + stub + [PassCall(a), fail], [retry]);
    ExecuteTail(o, s, claim + stub + [PassCall(a), fail] + [retry], claim);
    ExecuteTail(o, s, claim + stub + [PassCall(a), fail] + [retry] + claim, [PassCall(a + 1), InsertStub(a + 1)]);
  }

  lemma RetriedReady(o: Opts, t: System, u: System, r: nat, id: nat, at: int)
    requires Inv(t) && r < |t.gates| && !t.gates[r].shut
    requires id < |t.db.jobs| && t.db.jobs[id].state.Discarded?
    requires t.db.jobs[id].attempt == t.db.jobs[id].maxAttempts == RunCount(t.db.runs, id)
    requires u == Apply(o, t, RetryJob(id, PlainRetry(), at))
    ensures |u.attempts| == |t.attempts| && OneClaimFromOverrun(u, r, id, at)
  {
    PlainForcedRetryOverruns(o, t, r, id, PlainRetry(), at);
  }

  /** From any such state the run ends with more run rows than max_attempts. */
  lemma LastAttemptOverruns(o: Opts, s: System, r: nat, id: nat, at: int)
    requires OnLastAttempt(s, r, id, at)
    ensures Overran(Execute(o, s, Overrun(|s.attempts|, r, id, at)), id)
  {
    var t := FailOnce(o, s, r, id, at);
    var u := Apply(o, t, RetryJob(id, PlainRetry(), at));
    assert |u.attempts| == |s.attempts| + 1 && OneClaimFromOverrun(u, r, id, at) by {
      FailOnceDiscards(o, s, r, id, at);
      RetriedReady(o, t, u, r, id, at);
    }
    ClaimOverruns(o, u, r, id, at);
    OverrunRuns(o, s, |s.attempts|, r, id, at);
  }

  lemma FreshOnLast(o: Opts)
    ensures
      var s := Apply(o, Fresh(1), Enqueue(Args(0, 0, false, true), 1, 0, None, None));
      OnLastAttempt(s, 0, 0, 0) && |s.attempts| == 0
  {
    var enqueue := Enqueue(Args(0, 0, false, true), 1, 0, None, None);
    var runners: nat :| runners == 1;
    var s := Apply(o, Fresh(runners), enqueue);
    assert Inv(s) by {
      FreshInv(runners);
      StepKeepsInv(o, Fresh(runners), enqueue);
    }
  }

  /** So one job of one attempt is enough: a run from a fresh table that overruns max_attempts. */
  lemma OverrunIsReachable(o: Opts)
    ensures Overran(Execute(o, Fresh(1), [Enqueue(Args(0, 0, false, true), 1, 0, None, None)] + Overrun(0, 0, 0, 0)), 0)
  {
    var enqueue := Enqueue(Args(0, 0, false, true), 1, 0, None, None);
    var s := Apply(o, Fresh(1), enqueue);
    assert Overran(Execute(o, s, Overrun(0, 0, 0, 0)), 0) by {
      FreshOnLast(o);
      LastAttemptOverruns(o, s, 0, 0, 0);
    }
    ExecuteOne(o, Fresh(1), enqueue);
    ExecuteTail(o, Fresh(1), [enqueue], Overrun(0, 0, 0, 0));
  }
}
