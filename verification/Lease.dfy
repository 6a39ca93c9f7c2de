/**
 Any number of gated runners over one job table. A run is any list of actions by
 runners, workers, the sweeper, operators and fault injectors; an action that is
 not possible in the current state changes nothing, so a list of actions is an
 arbitrary interleaving. A gated driver call is two actions, its gate check and its
 transaction, so a gate can shut between them.
 */
module Lease {
  import opened Options
  import opened JobTable

  /** One runner's fault gate. passed counts its claim calls that are past their check and not yet done. */
  datatype Gate = Gate(shut: bool, kill: bool, orphaned: nat, passed: nat)

  /** A claimed job in a runner's memory. live is cleared when its dispatch returns or its process dies; cleared
      is set while the dispatch's stub insert or finalize is past its gate check, renewing while a heartbeat is. */
  datatype Attempt = Attempt(runner: nat, raw: RawJob, run: Option<nat>, live: bool, cleared: bool, renewing: bool)

  datatype System = System(db: Tables, attempts: seq<Attempt>, gates: seq<Gate>)

  datatype Action =
    | Enqueue(args: Args, maxAttempts: nat, at: int, parent: Option<nat>, key: Option<string>)
    | PassClaim(runner: nat)
    | ClaimBatch(runner: nat, picked: seq<nat>, now: int, lease: int)
    | PassCall(att: nat)
    | InsertStub(att: nat)
    | PassRenewal(att: nat)
    | RenewLease(att: nat, until: int)
    | FinalizeAttempt(att: nat, result: Result, err: Option<WorkError>, now: int)
    | Die(att: nat)
    | SweepBatch(ids: set<nat>, now: int)
    | CancelJob(id: nat, now: int)
    | RetryJob(id: nat, opts: RetryOpts, now: int)
    | ReplayJobs(ids: set<nat>, states: set<JobState>, opts: RetryOpts, now: int)
    | MassExpiry(at: int)
    | KillGate(runner: nat)
    | ShutGate(runner: nat)
    | OpenGate(runner: nat)

  // ---------------------------------------------------------------- steps

  predicate LegalPick(db: Tables, picked: seq<nat>, now: int) {
    && (forall k :: 0 <= k < |picked| ==> picked[k] < |db.jobs| && Ready(db.jobs[picked[k]], now))
    && (forall k, l :: 0 <= k < l < |picked| ==> picked[k] != picked[l])
  }

  function NewAttempts(db: Tables, runner: nat, picked: seq<nat>): seq<Attempt>
    requires forall k :: 0 <= k < |picked| ==> picked[k] < |db.jobs|
  {
    seq(|picked|, k requires 0 <= k < |picked| => Attempt(runner, Claimed(db, picked[k]), None, true, false, false))
  }

  function EndAttempt(s: System, a: nat): System
    requires a < |s.attempts|
  {
    s.(attempts := s.attempts[a := s.attempts[a].(live := false)])
  }

  predicate Shut(s: System, runner: nat) {
    runner < |s.gates| && s.gates[runner].shut
  }

  predicate Armed(s: System, runner: nat) {
    runner < |s.gates| && s.gates[runner].kill
  }

  function WithPassed(s: System, runner: nat, passed: nat): System
    requires runner < |s.gates|
  {
    s.(gates := s.gates[runner := s.gates[runner].(passed := passed)])
  }

  function ApplyPassClaim(s: System, runner: nat): System {
    if runner >= |s.gates| || Shut(s, runner) then s else WithPassed(s, runner, s.gates[runner].passed + 1)
  }

  function TakeClaim(s: System, runner: nat, picked: seq<nat>, until: int): System
    requires runner < |s.gates| && s.gates[runner].passed > 0
    requires forall k :: 0 <= k < |picked| ==> picked[k] < |s.db.jobs|
  {
    System(Claim(s.db, picked, until), s.attempts + NewAttempts(s.db, runner, picked),
           s.gates[runner := s.gates[runner].(passed := s.gates[runner].passed - 1)])
  }

  /** The claim transaction of a call already past its check, whatever the gate has become. */
  function ApplyClaim(s: System, runner: nat, picked: seq<nat>, now: int, lease: int): System {
    if runner < |s.gates| && s.gates[runner].passed > 0 && LegalPick(s.db, picked, now)
    then TakeClaim(s, runner, picked, now + lease)
    else s
  }

  /** check and checkFinalize, for the dispatch's next call: a refused call ends the dispatch, and the first
      finalize that kill mode refuses shuts the gate and is counted as an orphan. */
  function ApplyPassCall(s: System, a: nat): System {
    if a >= |s.attempts| || !s.attempts[a].live || s.attempts[a].cleared then s
    else
      var att := s.attempts[a];
      if Shut(s, att.runner) then EndAttempt(s, a)
      else if att.run.Some? && Armed(s, att.runner) then
        EndAttempt(s.(gates := s.gates[att.runner :=
          s.gates[att.runner].(shut := true, orphaned := s.gates[att.runner].orphaned + 1)]), a)
      else s.(attempts := s.attempts[a := att.(cleared := true)])
  }

  function TakeStub(s: System, a: nat): System
    requires a < |s.attempts|
  {
    s.(db := s.db.(runs := s.db.runs + [StubRow(s.attempts[a].raw)]),
       attempts := s.attempts[a := s.attempts[a].(run := Some(|s.db.runs|), cleared := false)])
  }

  /** A failed stub insert ends the dispatch before the worker runs. */
  function ApplyStub(s: System, a: nat): System {
    if a >= |s.attempts| || !s.attempts[a].live || !s.attempts[a].cleared || s.attempts[a].run.Some? then s
    else if HasRun(s.db.runs, s.attempts[a].raw.id, s.attempts[a].raw.attempt) then EndAttempt(s, a)
    else TakeStub(s, a)
  }

  function ApplyPassRenewal(s: System, a: nat): System {
    if a >= |s.attempts| || !s.attempts[a].live || Shut(s, s.attempts[a].runner) then s
    else s.(attempts := s.attempts[a := s.attempts[a].(renewing := true)])
  }

  function ApplyRenew(s: System, a: nat, until: int): System {
    if a >= |s.attempts| || !s.attempts[a].renewing then s
    else System(Renew(s.db, s.attempts[a].raw, until).0,
                s.attempts[a := s.attempts[a].(renewing := false)], s.gates)
  }

  /** A finalize that is past its check. */
  predicate CanFinalize(s: System, a: nat) {
    a < |s.attempts| && s.attempts[a].live && s.attempts[a].run.Some? && s.attempts[a].cleared
  }

  function ApplyFinalize(o: Opts, s: System, a: nat, result: Result, err: Option<WorkError>, now: int): System {
    if !CanFinalize(s, a) then s
    else EndAttempt(s.(db := Finalize(o, s.db, s.attempts[a].raw, s.attempts[a].run.value, result, err, now)), a)
  }

  /** buildRow: a client's insert, under the parent it names and its unique key. A parent that is no row is none. */
  function ClientRow(
      size: nat, args: Args, maxAttempts: nat, at: int, parent: Option<nat>, key: Option<string>): Job
  {
    NewRow(args, if maxAttempts == 0 then DEFAULT_MAX_ATTEMPTS else maxAttempts, at,
           if parent.Some? && parent.value < size then parent else None,
           if key.Some? then Some(UserKey(key.value)) else None)
  }

  function Apply(o: Opts, s: System, act: Action): System {
    match act
    case Enqueue(args, m, at, parent, key) =>
      s.(db := s.db.(jobs := Insert(s.db.jobs, ClientRow(|s.db.jobs|, args, m, at, parent, key))))
    case PassClaim(r) => ApplyPassClaim(s, r)
    case ClaimBatch(r, picked, now, lease) => ApplyClaim(s, r, picked, now, lease)
    case PassCall(a) => ApplyPassCall(s, a)
    case InsertStub(a) => ApplyStub(s, a)
    case PassRenewal(a) => ApplyPassRenewal(s, a)
    case RenewLease(a, until) => ApplyRenew(s, a, until)
    case FinalizeAttempt(a, result, err, now) => ApplyFinalize(o, s, a, result, err, now)
    case Die(a) => if a < |s.attempts| then EndAttempt(s, a) else s
    case SweepBatch(ids, now) => s.(db := Sweep(o, s.db, ids, now))
    case CancelJob(id, now) => s.(db := Cancel(s.db, id, now))
    case RetryJob(id, opts, now) => s.(db := Retry(s.db, id, opts, now))
    case ReplayJobs(ids, states, opts, now) => s.(db := Replay(s.db, ids, states, opts, now))
    case MassExpiry(at) => s.(db := ExpireLeases(s.db, at))
    case KillGate(r) => if r < |s.gates| then s.(gates := s.gates[r := s.gates[r].(kill := true)]) else s
    case ShutGate(r) => if r < |s.gates| then s.(gates := s.gates[r := s.gates[r].(shut := true)]) else s
    case OpenGate(r) =>
      if r < |s.gates| then s.(gates := s.gates[r := s.gates[r].(shut := false, kill := false)]) else s
  }

  /** The state after a list of actions. */
  function Execute(o: Opts, s: System, acts: seq<Action>): System
    decreases |acts|
  {
    if |acts| == 0 then s else Execute(o, Apply(o, s, acts[0]), acts[1..])
  }

  /** No job, no attempt, every gate open. */
  function Fresh(runners: nat): System {
    System(Tables([], [], 0), [], seq(runners, i => Gate(false, false, 0, 0)))
  }

  // ---------------------------------------------------------------- the lease invariant

  /** A row is under a lease and a token exactly while it is running. */
  predicate RowOk(j: Job) {
    && (j.state.Running? <==> j.token.Some?)
    && (j.state.Running? <==> j.leasedUntil.Some?)
  }

  ghost predicate JobsOk(db: Tables) {
    forall i :: 0 <= i < |db.jobs| ==>
      && RowOk(db.jobs[i])
      && (db.jobs[i].token.Some? ==> db.jobs[i].token.value < db.nextToken)
      && (db.jobs[i].parent.Some? ==> db.jobs[i].parent.value < i)
  }

  /** What a claim in memory knows of its row, and that a matching token means nothing has moved. */
  ghost predicate AttemptOk(db: Tables, att: Attempt) {
    && att.raw.id < |db.jobs|
    && att.raw.token < db.nextToken
    && 1 <= att.raw.attempt <= db.jobs[att.raw.id].attempt
    && att.raw.parent == db.jobs[att.raw.id].parent
    && att.raw.args == db.jobs[att.raw.id].args
    && (db.jobs[att.raw.id].token == Some(att.raw.token) ==>
          att.raw.attempt == db.jobs[att.raw.id].attempt && att.raw.maxAttempts == db.jobs[att.raw.id].maxAttempts)
    && (att.run.Some? ==> att.run.value < |db.runs|
                          && db.runs[att.run.value].job == att.raw.id
                          && db.runs[att.run.value].attempt == att.raw.attempt)
  }

  ghost predicate AttemptsOk(s: System) {
    forall a :: 0 <= a < |s.attempts| ==> AttemptOk(s.db, s.attempts[a])
  }

  /** Successive claims of one job carry increasing attempt numbers and tokens. */
  ghost predicate ClaimsOrdered(atts: seq<Attempt>) {
    forall a, b :: 0 <= a < b < |atts| && atts[a].raw.id == atts[b].raw.id ==>
      atts[a].raw.attempt < atts[b].raw.attempt && atts[a].raw.token < atts[b].raw.token
  }

  ghost predicate OwnsRun(s: System, r: nat, a: nat)
    requires r < |s.db.runs| && a < |s.attempts|
  {
    s.db.runs[r].job == s.attempts[a].raw.id && s.db.runs[r].attempt == s.attempts[a].raw.attempt ==>
      s.attempts[a].run == Some(r)
  }

  ghost predicate RunsOwned(s: System) {
    && (forall r :: 0 <= r < |s.db.runs| ==>
          s.db.runs[r].job < |s.db.jobs| && s.db.runs[r].attempt <= s.db.jobs[s.db.runs[r].job].attempt)
    && (forall r, a :: 0 <= r < |s.db.runs| && 0 <= a < |s.attempts| ==> OwnsRun(s, r, a))
  }

  /** The job_runs(job_id, attempt) index is never violated. */
  ghost predicate RunsDistinct(runs: seq<Run>) {
    forall r, q :: 0 <= r < q < |runs| && runs[r].job == runs[q].job ==> runs[r].attempt != runs[q].attempt
  }

  function Claims(atts: seq<Attempt>, job: nat): nat {
    if |atts| == 0 then 0
    else Claims(atts[..|atts| - 1], job) + (if atts[|atts| - 1].raw.id == job then 1 else 0)
  }

  function Stubbed(atts: seq<Attempt>, job: nat): nat {
    if |atts| == 0 then 0
    else Stubbed(atts[..|atts| - 1], job)
         + (if atts[|atts| - 1].raw.id == job && atts[|atts| - 1].run.Some? then 1 else 0)
  }

  function RunCount(runs: seq<Run>, job: nat): nat {
    RunsWhere(runs, job, AnyRun)
  }

  /** Every claim is counted in its row's attempt, and every run row is some claim's. */
  ghost predicate Counted(s: System) {
    forall j :: 0 <= j < |s.db.jobs| ==>
      Claims(s.attempts, j) == s.db.jobs[j].attempt && RunCount(s.db.runs, j) == Stubbed(s.attempts, j)
  }

  ghost predicate Inv(s: System) {
    && JobsOk(s.db)
    && AttemptsOk(s)
    && ClaimsOrdered(s.attempts)
    && RunsOwned(s)
    && RunsDistinct(s.db.runs)
    && Counted(s)
  }

  // ---------------------------------------------------------------- counting run rows

  lemma {:induction false} WhereFrame(a: seq<Run>, b: seq<Run>, job: nat, p: Run -> bool)
    requires |a| == |b| && forall r :: 0 <= r < |a| ==> a[r].job == b[r].job && (a[r].job == job ==> p(a[r]) == p(b[r]))
    ensures RunsWhere(a, job, p) == RunsWhere(b, job, p)
    decreases |a|
  {
    if |a| > 0 { WhereFrame(a[..|a| - 1], b[..|b| - 1], job, p); }
  }

  lemma {:induction false} WhereUpdate(runs: seq<Run>, r: nat, row: Run, job: nat, p: Run -> bool)
    requires r < |runs| && row.job == runs[r].job
    ensures RunsWhere(runs[r := row], job, p) == RunsWhere(runs, job, p)
              + (if row.job == job && p(row) then 1 else 0) - (if row.job == job && p(runs[r]) then 1 else 0)
    decreases |runs|
  {
    var n := |runs| - 1;
    if r < n {
      assert runs[r := row][..n] == runs[..n][r := row];
      WhereUpdate(runs[..n], r, row, job, p);
    } else {
      assert runs[r := row][..n] == runs[..n];
    }
  }

  lemma {:induction false} WhereZero(runs: seq<Run>, job: nat, p: Run -> bool)
    requires forall r :: 0 <= r < |runs| ==> runs[r].job != job
    ensures RunsWhere(runs, job, p) == 0
    decreases |runs|
  {
    if |runs| > 0 { WhereZero(runs[..|runs| - 1], job, p); }
  }

  // ---------------------------------------------------------------- row evolution

  /** How any transaction but a claim changes a row: the claim is kept whole or taken away. */
  predicate RowEvolves(j: Job, k: Job) {
    && k.attempt == j.attempt && k.parent == j.parent && k.args == j.args && k.uniqueKey == j.uniqueKey
    && RowOk(k)
    && (k.token.None? || (k.token == j.token && k.maxAttempts == j.maxAttempts))
  }

  predicate RowNew(j: Job, size: nat) {
    j.attempt == 0 && j.token.None? && RowOk(j) && (j.parent.Some? ==> j.parent.value < size)
  }

  ghost predicate JobsEvolve(a: seq<Job>, b: seq<Job>) {
    && |a| <= |b|
    && (forall i :: 0 <= i < |a| ==> RowEvolves(a[i], b[i]))
    && (forall i :: |a| <= i < |b| ==> RowNew(b[i], i))
  }

  ghost predicate AllOk(jobs: seq<Job>) {
    forall i :: 0 <= i < |jobs| ==> RowOk(jobs[i])
  }

  lemma EvolveTrans(a: seq<Job>, b: seq<Job>, c: seq<Job>)
    requires JobsEvolve(a, b) && JobsEvolve(b, c)
    ensures JobsEvolve(a, c)
  {
  }

  lemma InsertEvolves(jobs: seq<Job>, row: Job)
    requires AllOk(jobs) && RowNew(row, |jobs|)
    ensures JobsEvolve(jobs, Insert(jobs, row))
  {
  }

  lemma {:induction false} FollowUpsEvolve(jobs: seq<Job>, fus: seq<FollowUp>, p: nat, now: int)
    requires AllOk(jobs) && p < |jobs|
    ensures JobsEvolve(jobs, InsertFollowUps(jobs, fus, p, now))
    decreases |fus|
  {
    if |fus| > 0 {
      var next := Insert(jobs, ChildRow(fus[0], p, now));
      InsertEvolves(jobs, ChildRow(fus[0], p, now));
      FollowUpsEvolve(next, fus[1..], p, now);
      EvolveTrans(jobs, next, InsertFollowUps(next, fus[1..], p, now));
    }
  }

  lemma FireEvolves(jobs: seq<Job>, p: nat, now: int)
    requires AllOk(jobs)
    ensures JobsEvolve(jobs, FireBarrier(jobs, p, now))
  {
  }

  lemma AdvanceEvolves(jobs: seq<Job>, raw: RawJob, plan: Plan, result: Result, now: int)
    requires AllOk(jobs) && raw.id < |jobs|
    requires !plan.state.Running?
    ensures JobsEvolve(jobs, AdvancedJobs(jobs, raw, plan, result, now))
  {
    var declared := if plan.followUps then result.barrier else None;
    var jobs1 := jobs[raw.id := Advance(jobs[raw.id], plan, declared)];
    assert JobsEvolve(jobs, jobs1);
    FollowUpsEvolve(jobs1, result.followUps, raw.id, now);
    var jobs2 := if plan.followUps then InsertFollowUps(jobs1, result.followUps, raw.id, now) else jobs1;
    EvolveTrans(jobs, jobs1, jobs2);
    if raw.parent.Some? {
      FireEvolves(jobs2, raw.parent.value, now);
      EvolveTrans(jobs, jobs2, FireBarrier(jobs2, raw.parent.value, now));
    }
  }

  /** The advanced row itself gives up its claim, whatever the follow-ups and the barrier check do after. */
  lemma AdvanceReleases(jobs: seq<Job>, raw: RawJob, plan: Plan, result: Result, now: int)
    requires raw.id < |jobs|
    ensures raw.id < |AdvancedJobs(jobs, raw, plan, result, now)|
    ensures
      var row := AdvancedJobs(jobs, raw, plan, result, now)[raw.id];
      row.token.None? && row.leasedUntil.None? && row.state == plan.state
  {
    var jobs1 := jobs[raw.id := Advance(jobs[raw.id], plan, if plan.followUps then result.barrier else None)];
    var jobs2 := if plan.followUps then InsertFollowUps(jobs1, result.followUps, raw.id, now) else jobs1;
    FollowUpsKeep(jobs1, result.followUps, raw.id, now, raw.id);
    if raw.parent.Some? { FireKeepsClaim(jobs2, raw.parent.value, now, raw.id); }
  }

  lemma FireKeepsClaim(jobs: seq<Job>, p: nat, now: int, i: nat)
    requires i < |jobs|
    ensures i < |FireBarrier(jobs, p, now)| && FireBarrier(jobs, p, now)[i].(barrier := jobs[i].barrier) == jobs[i]
  {
  }

  lemma {:induction false} FollowUpsKeep(jobs: seq<Job>, fus: seq<FollowUp>, p: nat, now: int, i: nat)
    requires i < |jobs|
    ensures InsertFollowUps(jobs, fus, p, now)[i] == jobs[i]
    decreases |fus|
  {
    if |fus| > 0 { FollowUpsKeep(Insert(jobs, ChildRow(fus[0], p, now)), fus[1..], p, now, i); }
  }

  lemma {:induction false} FireParentsEvolve(before: seq<Job>, after: seq<Job>, p: nat, now: int)
    requires |before| <= |after| && p <= |before| && AllOk(after)
    ensures JobsEvolve(after, FireParents(before, after, p, now))
    decreases |before| - p
  {
    if p < |before| {
      var next := if LostChild(before, after, p) then FireBarrier(after, p, now) else after;
      FireEvolves(after, p, now);
      FireParentsEvolve(before, next, p + 1, now);
      EvolveTrans(after, next, FireParents(before, next, p + 1, now));
    }
  }

  lemma SweepEvolves(o: Opts, db: Tables, ids: set<nat>, now: int)
    requires AllOk(db.jobs)
    ensures JobsEvolve(db.jobs, Sweep(o, db, ids, now).jobs)
  {
    var after := Reclaimed(o, db, ids, now);
    assert JobsEvolve(db.jobs, after);
    FireParentsEvolve(db.jobs, after, 0, now);
    EvolveTrans(db.jobs, after, FireParents(db.jobs, after, 0, now));
  }

  lemma CancelEvolves(db: Tables, id: nat, now: int)
    requires AllOk(db.jobs)
    ensures JobsEvolve(db.jobs, Cancel(db, id, now).jobs)
  {
    if id < |db.jobs| && !Terminal(db.jobs[id].state) {
      var j := db.jobs[id];
      var jobs := db.jobs[id := j.(state := Cancelled, leasedUntil := None, token := None, finalizedAt := Some(now))];
      assert JobsEvolve(db.jobs, jobs);
      if j.parent.Some? {
        FireEvolves(jobs, j.parent.value, now);
        EvolveTrans(db.jobs, jobs, FireBarrier(jobs, j.parent.value, now));
      }
    }
  }

  // ---------------------------------------------------------------- every step keeps the invariant

  /** Run rows keep their job and attempt; only their recorded outcome changes. */
  ghost predicate RunsFrame(a: seq<Run>, b: seq<Run>) {
    |a| == |b| && forall r :: 0 <= r < |a| ==> a[r].job == b[r].job && a[r].attempt == b[r].attempt
  }

  ghost predicate AttemptsFrame(a: seq<Attempt>, b: seq<Attempt>) {
    |a| == |b| && forall i :: 0 <= i < |a| ==> a[i].raw == b[i].raw && a[i].run == b[i].run
  }

  lemma {:induction false} ClaimsFrame(a: seq<Attempt>, b: seq<Attempt>, job: nat)
    requires AttemptsFrame(a, b)
    ensures Claims(a, job) == Claims(b, job) && Stubbed(a, job) == Stubbed(b, job)
    decreases |a|
  {
    if |a| > 0 { ClaimsFrame(a[..|a| - 1], b[..|b| - 1], job); }
  }

  lemma {:induction false} NoClaims(atts: seq<Attempt>, job: nat)
    requires forall a :: 0 <= a < |atts| ==> atts[a].raw.id != job
    ensures Claims(atts, job) == 0 && Stubbed(atts, job) == 0
    decreases |atts|
  {
    if |atts| > 0 { NoClaims(atts[..|atts| - 1], job); }
  }

  /** Every transaction but a claim and a stub insert: rows evolve, claims and run keys stay. */
  ghost predicate Frame(s: System, t: System) {
    && t.db.nextToken == s.db.nextToken
    && JobsEvolve(s.db.jobs, t.db.jobs)
    && RunsFrame(s.db.runs, t.db.runs)
    && AttemptsFrame(s.attempts, t.attempts)
  }

  lemma FrameKeepsRows(s: System, t: System)
    requires JobsOk(s.db) && AttemptsOk(s) && Frame(s, t)
    ensures JobsOk(t.db) && AttemptsOk(t)
  {
  }

  lemma FrameKeepsRuns(s: System, t: System)
    requires ClaimsOrdered(s.attempts) && RunsOwned(s) && RunsDistinct(s.db.runs) && Frame(s, t)
    ensures ClaimsOrdered(t.attempts) && RunsOwned(t) && RunsDistinct(t.db.runs)
  {
    forall r | 0 <= r < |t.db.runs|
      ensures t.db.runs[r].job < |t.db.jobs| && t.db.runs[r].attempt <= t.db.jobs[t.db.runs[r].job].attempt
    {
      assert RowEvolves(s.db.jobs[s.db.runs[r].job], t.db.jobs[s.db.runs[r].job]);
    }
    forall r, a | 0 <= r < |t.db.runs| && 0 <= a < |t.attempts| ensures OwnsRun(t, r, a) {
      assert OwnsRun(s, r, a);
    }
  }

  lemma FrameKeepsCount(s: System, t: System)
    requires AttemptsOk(s) && RunsOwned(s) && Counted(s) && Frame(s, t)
    ensures Counted(t)
  {
    forall j | 0 <= j < |t.db.jobs|
      ensures Claims(t.attempts, j) == t.db.jobs[j].attempt && RunCount(t.db.runs, j) == Stubbed(t.attempts, j)
    {
      ClaimsFrame(s.attempts, t.attempts, j);
      WhereFrame(s.db.runs, t.db.runs, j, AnyRun);
      if j < |s.db.jobs| {
        assert RowEvolves(s.db.jobs[j], t.db.jobs[j]);
      } else {
        assert RowNew(t.db.jobs[j], j);
        forall a | 0 <= a < |s.attempts| ensures s.attempts[a].raw.id != j { assert AttemptOk(s.db, s.attempts[a]); }
        NoClaims(s.attempts, j);
        WhereZero(s.db.runs, j, AnyRun);
      }
    }
  }

  lemma FrameKeepsInv(s: System, t: System)
    requires Inv(s) && Frame(s, t)
    ensures Inv(t)
  {
    FrameKeepsRows(s, t);
    FrameKeepsRuns(s, t);
    FrameKeepsCount(s, t);
  }

  lemma {:induction false} ClaimsAppend(a: seq<Attempt>, b: seq<Attempt>, job: nat)
    ensures Claims(a + b, job) == Claims(a, job) + Claims(b, job)
    ensures Stubbed(a + b, job) == Stubbed(a, job) + Stubbed(b, job)
    decreases |b|
  {
    if |b| == 0 {
      assert a + b == a;
    } else {
      assert (a + b)[..|a + b| - 1] == a + b[..|b| - 1];
      ClaimsAppend(a, b[..|b| - 1], job);
    }
  }

  lemma {:induction false} NewAttemptsCount(db: Tables, runner: nat, picked: seq<nat>, job: nat)
    requires forall k :: 0 <= k < |picked| ==> picked[k] < |db.jobs|
    requires forall k, l :: 0 <= k < l < |picked| ==> picked[k] != picked[l]
    ensures Claims(NewAttempts(db, runner, picked), job) == (if job in picked then 1 else 0)
    ensures Stubbed(NewAttempts(db, runner, picked), job) == 0
    decreases |picked|
  {
    var atts := NewAttempts(db, runner, picked);
    if |picked| > 0 {
      var n := |picked| - 1;
      assert atts[..n] == NewAttempts(db, runner, picked[..n]);
      NewAttemptsCount(db, runner, picked[..n], job);
      assert picked == picked[..n] + [picked[n]];
      if picked[n] == job { assert job !in picked[..n]; }
    }
  }

  lemma ClaimKeepsAttempts(s: System, runner: nat, picked: seq<nat>, now: int, lease: int)
    requires JobsOk(s.db) && AttemptsOk(s)
    ensures
      var t := ApplyClaim(s, runner, picked, now, lease);
      JobsOk(t.db) && AttemptsOk(t)
  {
  }

  lemma ClaimKeepsOrder(s: System, runner: nat, picked: seq<nat>, now: int, lease: int)
    requires AttemptsOk(s) && ClaimsOrdered(s.attempts)
    ensures ClaimsOrdered(ApplyClaim(s, runner, picked, now, lease).attempts)
  {
  }

  lemma ClaimKeepsRuns(s: System, runner: nat, picked: seq<nat>, now: int, lease: int)
    requires RunsOwned(s)
    ensures RunsOwned(ApplyClaim(s, runner, picked, now, lease))
    ensures ApplyClaim(s, runner, picked, now, lease).db.runs == s.db.runs
  {
    var t := ApplyClaim(s, runner, picked, now, lease);
    forall r, a | 0 <= r < |t.db.runs| && 0 <= a < |t.attempts| ensures OwnsRun(t, r, a) {
      if a < |s.attempts| {
        assert OwnsRun(s, r, a);
      } else {
        assert t.attempts[a].raw == Claimed(s.db, picked[a - |s.attempts|]);
      }
    }
  }

  lemma ClaimKeepsCount(s: System, runner: nat, picked: seq<nat>, now: int, lease: int)
    requires Counted(s)
    ensures Counted(ApplyClaim(s, runner, picked, now, lease))
  {
    var t := ApplyClaim(s, runner, picked, now, lease);
    if t != s {
      forall j | 0 <= j < |t.db.jobs|
        ensures Claims(t.attempts, j) == t.db.jobs[j].attempt && RunCount(t.db.runs, j) == Stubbed(t.attempts, j)
      {
        ClaimsAppend(s.attempts, NewAttempts(s.db, runner, picked), j);
        NewAttemptsCount(s.db, runner, picked, j);
      }
    }
  }

  lemma ClaimKeepsInv(s: System, runner: nat, picked: seq<nat>, now: int, lease: int)
    requires Inv(s)
    ensures Inv(ApplyClaim(s, runner, picked, now, lease))
  {
    ClaimKeepsAttempts(s, runner, picked, now, lease);
    ClaimKeepsOrder(s, runner, picked, now, lease);
    ClaimKeepsRuns(s, runner, picked, now, lease);
    ClaimKeepsCount(s, runner, picked, now, lease);
  }

  lemma {:induction false} StubbedUpdate(atts: seq<Attempt>, a: nat, att: Attempt, job: nat)
    requires a < |atts| && atts[a].run.None?
    requires att.raw == atts[a].raw && att.run.Some?
    ensures Stubbed(atts[a := att], job) == Stubbed(atts, job) + (if att.raw.id == job then 1 else 0)
    ensures Claims(atts[a := att], job) == Claims(atts, job)
    decreases |atts|
  {
    var upd := atts[a := att];
    var n := |atts| - 1;
    if a < n {
      assert upd[..n] == atts[..n][a := att];
      StubbedUpdate(atts[..n], a, att, job);
    } else {
      assert upd[..n] == atts[..n];
    }
  }

  /** An attempt still without a stub has no run row to collide with. */
  lemma StubNeverCollides(s: System, a: nat)
    requires Inv(s) && a < |s.attempts| && s.attempts[a].run.None?
    ensures !HasRun(s.db.runs, s.attempts[a].raw.id, s.attempts[a].raw.attempt)
  {
    forall r | 0 <= r < |s.db.runs| && s.db.runs[r].job == s.attempts[a].raw.id
      ensures s.db.runs[r].attempt != s.attempts[a].raw.attempt
    {
      assert OwnsRun(s, r, a);
    }
  }

  lemma StubKeepsOwners(s: System, a: nat)
    requires Inv(s) && a < |s.attempts| && s.attempts[a].run.None?
    ensures AttemptsOk(TakeStub(s, a)) && RunsOwned(TakeStub(s, a)) && RunsDistinct(TakeStub(s, a).db.runs)
  {
    var t := TakeStub(s, a);
    var n := |s.db.runs|;
    StubNeverCollides(s, a);
    assert AttemptOk(s.db, s.attempts[a]);
    forall b | 0 <= b < |t.attempts| ensures AttemptOk(t.db, t.attempts[b]) {
      assert AttemptOk(s.db, s.attempts[b]);
    }
    forall r, b | 0 <= r < |t.db.runs| && 0 <= b < |t.attempts| ensures OwnsRun(t, r, b) {
      if r < n { assert OwnsRun(s, r, b); }
    }
  }

  lemma StubKeepsInv(s: System, a: nat)
    requires Inv(s) && a < |s.attempts| && s.attempts[a].run.None?
    ensures Inv(TakeStub(s, a))
  {
    var t := TakeStub(s, a);
    var n := |s.db.runs|;
    StubKeepsOwners(s, a);
    assert ClaimsOrdered(t.attempts);
    assert JobsOk(t.db);
    forall j | 0 <= j < |t.db.jobs|
      ensures Claims(t.attempts, j) == t.db.jobs[j].attempt && RunCount(t.db.runs, j) == Stubbed(t.attempts, j)
    {
      StubbedUpdate(s.attempts, a, t.attempts[a], j);
      assert t.db.runs[..n] == s.db.runs;
    }
  }

  lemma FinalizeFrame(o: Opts, s: System, a: nat, result: Result, err: Option<WorkError>, now: int)
    requires AllOk(s.db.jobs) && a < |s.attempts|
    ensures Frame(s, ApplyFinalize(o, s, a, result, err, now))
  {
    var raw := s.attempts[a].raw;
    var plan := PlanFinalize(raw, result, err, now);
    var t := ApplyFinalize(o, s, a, result, err, now);
    if t.db == s.db {
      assert JobsEvolve(s.db.jobs, s.db.jobs);
    } else if Holds(s.db.jobs, raw) {
      AdvanceEvolves(s.db.jobs, raw, plan, result, now);
    } else {
      assert t.db.jobs == s.db.jobs;
      assert JobsEvolve(s.db.jobs, s.db.jobs);
    }
  }

  lemma RetryEvolves(db: Tables, id: nat, opts: RetryOpts, now: int)
    requires AllOk(db.jobs)
    ensures JobsEvolve(db.jobs, Retry(db, id, opts, now).jobs)
  {
  }

  lemma ReplayEvolves(db: Tables, ids: set<nat>, states: set<JobState>, opts: RetryOpts, now: int)
    requires AllOk(db.jobs)
    ensures JobsEvolve(db.jobs, Replay(db, ids, states, opts, now).jobs)
  {
  }

  lemma ExpireEvolves(db: Tables, at: int)
    requires AllOk(db.jobs)
    ensures JobsEvolve(db.jobs, ExpireLeases(db, at).jobs)
  {
  }

  /** Both tables and what each attempt knows of them stay as they are. */
  predicate Quiet(act: Action) {
    act.PassClaim? || act.PassCall? || act.PassRenewal? || act.Die? || act.KillGate? || act.ShutGate? || act.OpenGate?
  }

  lemma QuietFrame(o: Opts, s: System, act: Action)
    requires Quiet(act)
    ensures Apply(o, s, act).db == s.db && AttemptsFrame(s.attempts, Apply(o, s, act).attempts)
  {
  }

  /** The actions that neither claim nor stub. */
  lemma OtherStepsFrame(o: Opts, s: System, act: Action)
    requires AllOk(s.db.jobs) && !act.ClaimBatch? && !act.InsertStub?
    ensures Frame(s, Apply(o, s, act))
  {
    if Quiet(act) {
      QuietFrame(o, s, act);
      assert JobsEvolve(s.db.jobs, s.db.jobs);
    } else {
      TableStepsFrame(o, s, act);
    }
  }

  lemma TableStepsFrame(o: Opts, s: System, act: Action)
    requires AllOk(s.db.jobs) && !act.ClaimBatch? && !act.InsertStub? && !Quiet(act)
    ensures Frame(s, Apply(o, s, act))
  {
    match act {
      case FinalizeAttempt(a, result, err, now) =>
        if a < |s.attempts| { FinalizeFrame(o, s, a, result, err, now); }
        else { assert JobsEvolve(s.db.jobs, s.db.jobs); }
      case SweepBatch(ids, now) => SweepEvolves(o, s.db, ids, now);
      case CancelJob(id, now) => CancelEvolves(s.db, id, now);
      case RetryJob(id, opts, now) => RetryEvolves(s.db, id, opts, now);
      case ReplayJobs(ids, states, opts, now) => ReplayEvolves(s.db, ids, states, opts, now);
      case MassExpiry(at) => ExpireEvolves(s.db, at);
      case _ =>
    }
  }

  lemma StubStepKeepsInv(s: System, a: nat)
    requires Inv(s)
    ensures Inv(ApplyStub(s, a))
  {
    if a < |s.attempts| && s.attempts[a].run.None? {
      StubNeverCollides(s, a);
      StubKeepsInv(s, a);
    }
  }

  // ---------------------------------------------------------------- one job through one open runner

  function PassAndClaim(o: Opts, s: System, r: nat, id: nat, at: int): System {
    Apply(o, Apply(o, s, PassClaim(r)), ClaimBatch(r, [id], at, 0))
  }

  function PassAndStub(o: Opts, s: System, a: nat): System {
    Apply(o, Apply(o, s, PassCall(a)), InsertStub(a))
  }

  function PassAndFinalize(
      o: Opts, s: System, a: nat, result: Result, err: Option<WorkError>, now: int): System
  {
    Apply(o, Apply(o, s, PassCall(a)), FinalizeAttempt(a, result, err, now))
  }

  lemma ClaimOne(o: Opts, s: System, r: nat, id: nat, at: int)
    requires r < |s.gates| && !s.gates[r].shut && id < |s.db.jobs| && Ready(s.db.jobs[id], at)
    ensures
      var t := PassAndClaim(o, s, r, id, at);
      && t.db == Claim(s.db, [id], at)
      && t.db.jobs == s.db.jobs[id := ClaimRow(s.db.jobs[id], s.db.nextToken, at)]
      && t.attempts == s.attempts + [Attempt(r, Claimed(s.db, id), None, true, false, false)]
      && t.gates == s.gates
  {
    var s1 := Apply(o, s, PassClaim(r));
    assert s1 == WithPassed(s, r, s.gates[r].passed + 1);
    assert s1.gates[r := s.gates[r]] == s.gates;
  }

  lemma ClaimAndStubOne(o: Opts, s: System, r: nat, id: nat, at: int)
    requires Inv(s)
    requires r < |s.gates| && !s.gates[r].shut && id < |s.db.jobs| && Ready(s.db.jobs[id], at)
    ensures
      var t := PassAndStub(o, PassAndClaim(o, s, r, id, at), |s.attempts|);
      && t.db.jobs == s.db.jobs[id := ClaimRow(s.db.jobs[id], s.db.nextToken, at)]
      && t.db.runs == s.db.runs + [StubRow(Claimed(s.db, id))]
      && t.attempts == s.attempts + [Attempt(r, Claimed(s.db, id), Some(|s.db.runs|), true, false, false)]
      && t.gates == s.gates
  {
    ClaimOne(o, s, r, id, at);
    forall q | 0 <= q < |s.db.runs| && s.db.runs[q].job == id
      ensures s.db.runs[q].attempt <= s.db.jobs[id].attempt
    {
    }
  }

  lemma {:induction false} ExecuteTail(o: Opts, s: System, acts: seq<Action>, more: seq<Action>)
    ensures Execute(o, s, acts + more) == Execute(o, Execute(o, s, acts), more)
    decreases |acts|
  {
    if |acts| == 0 {
      assert acts + more == more;
    } else {
      assert (acts + more)[1..] == acts[1..] + more;
      ExecuteTail(o, Apply(o, s, acts[0]), acts[1..], more);
    }
  }

  lemma ExecuteOne(o: Opts, s: System, a: Action)
    ensures Execute(o, s, [a]) == Apply(o, s, a)
  {
    assert [a][1..] == [];
  }

  lemma ExecuteTwo(o: Opts, s: System, a: Action, b: Action)
    ensures Execute(o, s, [a, b]) == Apply(o, Apply(o, s, a), b)
  {
    assert [a, b][1..] == [b];
    ExecuteOne(o, Apply(o, s, a), b);
  }

  lemma StepKeepsInv(o: Opts, s: System, act: Action)
    requires Inv(s)
    ensures Inv(Apply(o, s, act))
  {
    if act.ClaimBatch? {
      ClaimKeepsInv(s, act.runner, act.picked, act.now, act.lease);
    } else if act.InsertStub? {
      StubStepKeepsInv(s, act.att);
    } else {
      assert AllOk(s.db.jobs) by {
        forall i | 0 <= i < |s.db.jobs| ensures RowOk(s.db.jobs[i]) {}
      }
      OtherStepsFrame(o, s, act);
      FrameKeepsInv(s, Apply(o, s, act));
    }
  }

  lemma FreshInv(runners: nat)
    ensures Inv(Fresh(runners)) && |Fresh(runners).gates| == runners
    ensures forall r :: 0 <= r < runners ==>
      var g := Fresh(runners).gates[r];
      !g.shut && !g.kill && g.orphaned == 0 && g.passed == 0
  {
  }

  lemma {:induction false} RunKeepsInv(o: Opts, s: System, acts: seq<Action>)
    requires Inv(s)
    ensures Inv(Execute(o, s, acts))
    decreases |acts|
  {
    if |acts| > 0 {
      StepKeepsInv(o, s, acts[0]);
      RunKeepsInv(o, Apply(o, s, acts[0]), acts[1..]);
    }
  }

  lemma PassAndClaimKeepsInv(o: Opts, s: System, r: nat, id: nat, at: int)
    requires Inv(s)
    ensures Inv(PassAndClaim(o, s, r, id, at))
  {
    StepKeepsInv(o, s, PassClaim(r));
    StepKeepsInv(o, Apply(o, s, PassClaim(r)), ClaimBatch(r, [id], at, 0));
  }

  lemma PassAndStubKeepsInv(o: Opts, s: System, a: nat)
    requires Inv(s)
    ensures Inv(PassAndStub(o, s, a))
  {
    StepKeepsInv(o, s, PassCall(a));
    StepKeepsInv(o, Apply(o, s, PassCall(a)), InsertStub(a));
  }
}
