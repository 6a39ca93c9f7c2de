/**
 What each action does to each job row. A fan-out or a barrier that fires on the side only
 clears the barrier's own field and appends rows, so every action moves a row by the one
 transition of its own, or not at all.
 */
module RowSteps {
  import opened Options
  import opened JobTable
  import opened Lease

  predicate Newborn(j: Job) {
    j.state.Available? && j.attempt == 0 && j.token.None? && j.maxAttempts >= 1
  }

  /** The row apart from the barrier it has declared. */
  function Core(j: Job): Job {
    j.(barrier := None)
  }

  ghost predicate Grows(a: seq<Job>, b: seq<Job>) {
    && |a| <= |b|
    && (forall i :: 0 <= i < |a| ==> Core(b[i]) == Core(a[i]))
    && (forall i :: |a| <= i < |b| ==> Newborn(b[i]))
  }

  lemma FireGrows(jobs: seq<Job>, p: nat, now: int)
    ensures Grows(jobs, FireBarrier(jobs, p, now))
  {
  }

  lemma {:induction false} FollowUpsGrow(jobs: seq<Job>, fus: seq<FollowUp>, p: nat, now: int)
    ensures Grows(jobs, InsertFollowUps(jobs, fus, p, now))
    decreases |fus|
  {
    if |fus| > 0 { FollowUpsGrow(Insert(jobs, ChildRow(fus[0], p, now)), fus[1..], p, now); }
  }

  lemma {:induction false} FireParentsGrow(before: seq<Job>, after: seq<Job>, p: nat, now: int)
    requires |before| <= |after| && p <= |before|
    ensures Grows(after, FireParents(before, after, p, now))
    decreases |before| - p
  {
    if p < |before| {
      FireGrows(after, p, now);
      FireParentsGrow(before, if LostChild(before, after, p) then FireBarrier(after, p, now) else after, p + 1, now);
    }
  }

  /** The finalize, past its gate, commits and finds its claim held. */
  predicate Advances(o: Opts, s: System, a: nat, result: Result, err: Option<WorkError>, now: int) {
    && CanFinalize(s, a) && Holds(s.db.jobs, s.attempts[a].raw)
    && !FinalizeFails(o, s.db, s.attempts[a].raw, s.attempts[a].run.value,
                      PlanFinalize(s.attempts[a].raw, result, err, now), result)
  }

  // ---------------------------------------------------------------- the transitions

  /** The job's runs that read crashed, or did until a superseded finalize wrote its outcome over it. */
  ghost function CrashRows(runs: seq<Run>, job: nat): set<nat> {
    set r: nat | r < |runs| && runs[r].job == job
                 && (runs[r].outcome == Crashed || (runs[r].superseded && runs[r].jobState != None))
  }

  lemma {:induction false} CrashesCount(runs: seq<Run>, job: nat)
    ensures Crashes(runs, job) == |CrashRows(runs, job)|
  {
    if |runs| > 0 {
      var n := |runs| - 1;
      CrashesCount(runs[..n], job);
      if n in CrashRows(runs, job) {
        assert CrashRows(runs, job) == CrashRows(runs[..n], job) + {n};
      } else {
        assert CrashRows(runs, job) == CrashRows(runs[..n], job);
      }
    }
  }

  /** A finished attempt's row, its claim given up: the first that applies of cancelled, snoozed with an attempt
      given back, succeeded, discarded, and retried. */
  function Judged(j: Job, raw: RawJob, result: Result, err: Option<WorkError>, now: int): Job {
    if result.cancel then j.(state := Cancelled, finalizedAt := Some(now))
    else if result.snooze.Some? then
      j.(state := Scheduled, scheduledAt := now + result.snooze.value, maxAttempts := j.maxAttempts + 1)
    else if err.None? then j.(state := Succeeded, finalizedAt := Some(now))
    else if err.value.kind == Permanent || err.value.kind == Validation || raw.attempt >= raw.maxAttempts then
      j.(state := Discarded, finalizedAt := Some(now))
    else j.(state := Retryable, scheduledAt := now + err.value.delay)
  }

  /** What such an attempt's run row records. */
  function Verdict(result: Result, err: Option<WorkError>): Outcome {
    if result.cancel then CancelledRun
    else if result.snooze.Some? then Snoozed
    else if err.None? then Success
    else if err.value.kind == TimedOut then Timeout
    else Error
  }

  /** A crashed attempt's row, its claim taken back after this many earlier crashes: available again while
      attempts remain and, under a crash budget, crashes do. */
  function Released(o: Opts, j: Job, crashes: nat, now: int): Job {
    if j.attempt < j.maxAttempts && (o.maxCrashes <= 0 || crashes + 1 < o.maxCrashes)
    then j.(state := Available) else j.(state := Discarded, finalizedAt := Some(now))
  }

  /** A row an operator puts back in line, its budget restored above the attempts already made. */
  function Requeued(j: Job, opts: RetryOpts, now: int): Job {
    j.(state := Available, leasedUntil := None, token := None, finalizedAt := None, scheduledAt := now + opts.delay,
       maxAttempts :=
         if opts.resetAttempts then j.attempt + (if opts.budget > 0 then opts.budget else j.maxAttempts)
         else j.maxAttempts)
  }

  /** A run of job i's latest attempt still reads started. */
  predicate StillRuns(db: Tables, i: nat)
    requires i < |db.jobs|
  {
    exists r :: 0 <= r < |db.runs| && db.runs[r].job == i && db.runs[r].attempt == db.jobs[i].attempt
                && db.runs[r].outcome.Started?
  }

  /** The action puts row i back in line. A retry takes a waiting job, a finished one if forced, a running one if
      allowed, and a cancelled one that still runs only if both; a replay takes the jobs of its scope in the states
      it names, never running, succeeded only if forced, and never a cancelled one that still runs. */
  predicate Requeues(s: System, act: Action, i: nat)
    requires i < |s.db.jobs|
  {
    var state := s.db.jobs[i].state;
    match act
    case RetryJob(id, opts, _) =>
      && i == id
      && (state == Running ==> opts.allowRunning)
      && (state == Succeeded || state == Discarded || state == Cancelled ==> opts.force)
      && (state == Cancelled && StillRuns(s.db, i) ==> opts.allowRunning)
    case ReplayJobs(ids, states, opts, _) =>
      && i in ids && state in states && Running !in states && (Succeeded in states ==> opts.force)
      && (state == Cancelled ==> !StillRuns(s.db, i))
    case _ => false
  }

  /** Row i after the action, apart from its barrier. */
  ghost function Moved(o: Opts, s: System, act: Action, i: nat): Job
    requires i < |s.db.jobs|
  {
    var j := s.db.jobs[i];
    match act
    case ClaimBatch(r, picked, now, lease) =>
      if r < |s.gates| && s.gates[r].passed > 0 && LegalPick(s.db, picked, now) && i in picked
      then j.(state := Running, attempt := j.attempt + 1, leasedUntil := Some(now + lease),
              token := Some(s.db.nextToken))
      else j
    case RenewLease(a, until) =>
      if a < |s.attempts| && s.attempts[a].renewing && Holds(s.db.jobs, s.attempts[a].raw) && i == s.attempts[a].raw.id
      then j.(leasedUntil := Some(until)) else j
    case FinalizeAttempt(a, result, err, now) =>
      if Advances(o, s, a, result, err, now) && i == s.attempts[a].raw.id
      then Judged(j.(leasedUntil := None, token := None), s.attempts[a].raw, result, err, now) else j
    case SweepBatch(ids, now) =>
      if i in ids && j.state.Running? && j.leasedUntil.Some? && j.leasedUntil.value < now
      then Released(o, j.(leasedUntil := None, token := None), |CrashRows(s.db.runs, i)|, now) else j
    case CancelJob(id, now) =>
      if i == id && !Terminal(j.state)
      then j.(state := Cancelled, leasedUntil := None, token := None, finalizedAt := Some(now)) else j
    case RetryJob(_, opts, now) => if Requeues(s, act, i) then Requeued(j, opts, now) else j
    case ReplayJobs(_, _, opts, now) => if Requeues(s, act, i) then Requeued(j, opts, now) else j
    case MassExpiry(at) => if j.state.Running? && j.leasedUntil.Some? then j.(leasedUntil := Some(at)) else j
    case _ => j
  }

  /** Every row moves by its own transition; every new row is untouched. */
  ghost predicate RowsMove(o: Opts, s: System, act: Action, after: seq<Job>) {
    && |s.db.jobs| <= |after|
    && (forall i :: 0 <= i < |s.db.jobs| ==> Core(after[i]) == Core(Moved(o, s, act, i)))
    && (forall i :: |s.db.jobs| <= i < |after| ==> Newborn(after[i]))
  }

  lemma AdvanceMoves(jobs: seq<Job>, raw: RawJob, plan: Plan, result: Result, now: int)
    requires raw.id < |jobs|
    ensures Grows(jobs[raw.id := Advance(jobs[raw.id], plan, None)], AdvancedJobs(jobs, raw, plan, result, now))
  {
    var jobs1 := jobs[raw.id := Advance(jobs[raw.id], plan, if plan.followUps then result.barrier else None)];
    FollowUpsGrow(jobs1, result.followUps, raw.id, now);
    var jobs2 := if plan.followUps then InsertFollowUps(jobs1, result.followUps, raw.id, now) else jobs1;
    if raw.parent.Some? { FireGrows(jobs2, raw.parent.value, now); }
  }

  lemma SweepMoves(o: Opts, s: System, ids: set<nat>, now: int)
    ensures RowsMove(o, s, SweepBatch(ids, now), Sweep(o, s.db, ids, now).jobs)
  {
    FireParentsGrow(s.db.jobs, Reclaimed(o, s.db, ids, now), 0, now);
    forall i | 0 <= i < |s.db.jobs| ensures Crashes(s.db.runs, i) == |CrashRows(s.db.runs, i)| {
      CrashesCount(s.db.runs, i);
    }
  }

  lemma CancelMoves(o: Opts, s: System, id: nat, now: int)
    ensures RowsMove(o, s, CancelJob(id, now), Cancel(s.db, id, now).jobs)
  {
    if id < |s.db.jobs| && !Terminal(s.db.jobs[id].state) {
      var j := s.db.jobs[id];
      var jobs := s.db.jobs[id := j.(state := Cancelled, leasedUntil := None, token := None, finalizedAt := Some(now))];
      if j.parent.Some? { FireGrows(jobs, j.parent.value, now); }
    }
  }

  lemma FinalizeMoves(o: Opts, s: System, a: nat, result: Result, err: Option<WorkError>, now: int)
    ensures RowsMove(o, s, FinalizeAttempt(a, result, err, now), ApplyFinalize(o, s, a, result, err, now).db.jobs)
  {
    if Advances(o, s, a, result, err, now) {
      AdvanceMoves(s.db.jobs, s.attempts[a].raw, PlanFinalize(s.attempts[a].raw, result, err, now), result, now);
    }
  }

  lemma RequeueMoves(o: Opts, s: System, act: Action)
    requires act.RetryJob? || act.ReplayJobs?
    ensures RowsMove(o, s, act, Apply(o, s, act).db.jobs)
  {
    assert forall i :: 0 <= i < |s.db.jobs| ==> AttemptStillRuns(s.db, i) == StillRuns(s.db, i);
  }

  /** A claim, a renewal and an expiry touch the rows they name and no other. */
  lemma PlainMoves(o: Opts, s: System, act: Action)
    requires !act.FinalizeAttempt? && !act.SweepBatch? && !act.CancelJob? && !act.RetryJob? && !act.ReplayJobs?
    ensures RowsMove(o, s, act, Apply(o, s, act).db.jobs)
  {
    if Quiet(act) { QuietFrame(o, s, act); }
  }

  lemma StepRows(o: Opts, s: System, act: Action)
    ensures RowsMove(o, s, act, Apply(o, s, act).db.jobs)
  {
    match act {
      case FinalizeAttempt(a, result, err, now) => FinalizeMoves(o, s, a, result, err, now);
      case SweepBatch(ids, now) => SweepMoves(o, s, ids, now);
      case CancelJob(id, now) => CancelMoves(o, s, id, now);
      case RetryJob(_, _, _) => RequeueMoves(o, s, act);
      case ReplayJobs(_, _, _, _) => RequeueMoves(o, s, act);
      case _ => PlainMoves(o, s, act);
    }
  }
}
