/**
 The jobs and job_runs tables and the transactions the driver runs on them:
 claim, run stub, lease renewal, finalize, lease sweep, barrier firing, and the
 operator controls cancel, retry and replay. A job's id is its position in the
 table; each function below is one committed transaction.
 */
module JobTable {
  import opened Options

  datatype JobState =
    | Available | Running | Retryable | Scheduled | Paused
    | Succeeded | Cancelled | Discarded

  predicate Terminal(s: JobState) {
    s.Succeeded? || s.Cancelled? || s.Discarded?
  }

  /** The states a claim may take a job from. */
  predicate Claimable(s: JobState) {
    s.Available? || s.Retryable? || s.Scheduled?
  }

  datatype Outcome = Started | Success | Error | Snoozed | CancelledRun | Timeout | Crashed

  datatype ErrorClass = Transient | Permanent | Validation | TimedOut

  /** A worker's error with the Runner's verdict: its class and the retry delay it chose. */
  datatype WorkError = WorkError(kind: ErrorClass, delay: int)

  /** The load worker's payload: its ordinal, its fan-out width, whether it declares a
      barrier, and whether it fails every attempt. */
  datatype Args = Args(n: nat, children: nat, barrier: bool, fail: bool)

  /** unique_key values. A barrier's continuation is keyed by its parent. */
  datatype UniqueKey = UserKey(key: string) | BarrierKey(parent: nat)

  datatype Job = Job(
    state: JobState,
    attempt: nat,
    maxAttempts: nat,
    scheduledAt: int,
    leasedUntil: Option<int>,
    token: Option<nat>,
    finalizedAt: Option<int>,
    parent: Option<nat>,
    uniqueKey: Option<UniqueKey>,
    barrier: Option<Args>,
    args: Args)

  datatype Run = Run(
    job: nat,
    attempt: nat,
    outcome: Outcome,
    superseded: bool,
    jobState: Option<JobState>,
    finishedAt: Option<int>,
    children: nat)

  /** nextToken stands for the id source a claim mints its lease token from: never reused. */
  datatype Tables = Tables(jobs: seq<Job>, runs: seq<Run>, nextToken: nat)

  /** A claimed row as the driver hands it to the runner. */
  datatype RawJob = RawJob(id: nat, attempt: nat, maxAttempts: nat, token: nat, parent: Option<nat>, args: Args)

  datatype FollowUp = FollowUp(args: Args, parent: bool, key: Option<string>)

  datatype Result = Result(cancel: bool, snooze: Option<int>, followUps: seq<FollowUp>, barrier: Option<Args>)

  /** DriverOpts, resolved; maxCrashes of zero or less sets no crash budget. */
  datatype Opts = Opts(followUpLimit: nat, barrierMaxChildren: nat, maxCrashes: int)

  datatype RetryOpts = RetryOpts(force: bool, allowRunning: bool, resetAttempts: bool, budget: int, delay: int)

  const DEFAULT_MAX_ATTEMPTS: nat := 25

  // ---------------------------------------------------------------- claim

  predicate Ready(j: Job, now: int) {
    Claimable(j.state) && j.scheduledAt <= now
  }

  function ClaimRow(j: Job, token: nat, until: int): Job {
    j.(state := Running, attempt := j.attempt + 1, leasedUntil := Some(until), token := Some(token))
  }

  /** Claims the picked rows under one fresh token: one claim call, one token. */
  function Claim(db: Tables, picked: seq<nat>, until: int): Tables {
    Tables(
      seq(|db.jobs|, i requires 0 <= i < |db.jobs| =>
        if i in picked then ClaimRow(db.jobs[i], db.nextToken, until) else db.jobs[i]),
      db.runs,
      db.nextToken + 1)
  }

  function Claimed(db: Tables, i: nat): RawJob
    requires i < |db.jobs|
  {
    var j := db.jobs[i];
    RawJob(i, j.attempt + 1, j.maxAttempts, db.nextToken, j.parent, j.args)
  }

  // ---------------------------------------------------------------- run stub

  /** The job_runs(job_id, attempt) unique index. */
  predicate HasRun(runs: seq<Run>, job: nat, attempt: nat) {
    exists r :: 0 <= r < |runs| && runs[r].job == job && runs[r].attempt == attempt
  }

  function StubRow(raw: RawJob): Run {
    Run(raw.id, raw.attempt, Started, false, None, None, 0)
  }

  // ---------------------------------------------------------------- the fence

  /** The guard `id = ? AND state = 'running' AND lease_token = ?`. */
  predicate Holds(jobs: seq<Job>, raw: RawJob) {
    raw.id < |jobs| && jobs[raw.id].state.Running? && jobs[raw.id].token == Some(raw.token)
  }

  /** RenewLease: a guarded update, reporting whether the claim is still held. */
  function Renew(db: Tables, raw: RawJob, until: int): (Tables, bool) {
    if Holds(db.jobs, raw)
    then (db.(jobs := db.jobs[raw.id := db.jobs[raw.id].(leasedUntil := Some(until))]), true)
    else (db, false)
  }

  // ---------------------------------------------------------------- inserts and barriers

  predicate KeyTaken(jobs: seq<Job>, key: UniqueKey) {
    exists i :: 0 <= i < |jobs| && jobs[i].uniqueKey == Some(key)
  }

  /** One row of an ON CONFLICT DO NOTHING insert. */
  function Insert(jobs: seq<Job>, row: Job): seq<Job> {
    if row.uniqueKey.Some? && KeyTaken(jobs, row.uniqueKey.value) then jobs else jobs + [row]
  }

  function NewRow(args: Args, maxAttempts: nat, at: int, parent: Option<nat>, key: Option<UniqueKey>): Job {
    Job(Available, 0, maxAttempts, at, None, None, None, parent, key, None, args)
  }

  function ChildRow(fu: FollowUp, parentId: nat, now: int): Job {
    NewRow(fu.args, DEFAULT_MAX_ATTEMPTS, now,
           if fu.parent then Some(parentId) else None,
           if fu.key.Some? then Some(UserKey(fu.key.value)) else None)
  }

  function InsertFollowUps(jobs: seq<Job>, fus: seq<FollowUp>, parentId: nat, now: int): (r: seq<Job>)
    ensures |jobs| <= |r| <= |jobs| + |fus|
    decreases |fus|
  {
    if |fus| == 0 then jobs
    else InsertFollowUps(Insert(jobs, ChildRow(fus[0], parentId, now)), fus[1..], parentId, now)
  }

  predicate PendingChild(jobs: seq<Job>, p: nat) {
    exists c :: 0 <= c < |jobs| && jobs[c].parent == Some(p) && !Terminal(jobs[c].state)
  }

  function ContinuationRow(p: nat, spec: Args, now: int): Job {
    NewRow(spec, DEFAULT_MAX_ATTEMPTS, now, Some(p), Some(BarrierKey(p)))
  }

  /** fireBarrierIfComplete: enqueue the declared continuation once no child is pending. */
  function FireBarrier(jobs: seq<Job>, p: nat, now: int): seq<Job> {
    if p >= |jobs| || jobs[p].barrier.None? || PendingChild(jobs, p) then jobs
    else
      var inserted := Insert(jobs, ContinuationRow(p, jobs[p].barrier.value, now));
      inserted[p := inserted[p].(barrier := None)]
  }

  // ---------------------------------------------------------------- finalize

  datatype Plan = Plan(
    state: JobState, outcome: Outcome, scheduledAt: Option<int>, finalizedAt: Option<int>,
    maxDelta: nat, followUps: bool)

  /** planFinalize: cancel, then snooze, then error, then success. */
  function PlanFinalize(raw: RawJob, result: Result, err: Option<WorkError>, now: int): Plan {
    if result.cancel then
      Plan(Cancelled, CancelledRun, None, Some(now), 0, false)
    else if result.snooze.Some? then
      Plan(Scheduled, Snoozed, Some(now + result.snooze.value), None, 1, false)
    else if err.Some? then
      var outcome := if err.value.kind.TimedOut? then Timeout else Error;
      var permanent := err.value.kind.Permanent? || err.value.kind.Validation?;
      if permanent || raw.attempt >= raw.maxAttempts then
        Plan(Discarded, outcome, None, Some(now), 0, false)
      else
        Plan(Retryable, outcome, Some(now + err.value.delay), None, 0, false)
    else
      Plan(Succeeded, Success, None, Some(now), 0, true)
  }

  function Advance(j: Job, plan: Plan, barrier: Option<Args>): Job {
    j.(state := plan.state,
       leasedUntil := None,
       token := None,
       scheduledAt := if plan.scheduledAt.Some? then plan.scheduledAt.value else j.scheduledAt,
       finalizedAt := if plan.finalizedAt.Some? then plan.finalizedAt else j.finalizedAt,
       maxAttempts := j.maxAttempts + plan.maxDelta,
       barrier := if barrier.Some? then barrier else j.barrier)
  }

  function ParentFollowUps(fus: seq<FollowUp>): nat {
    if |fus| == 0 then 0 else (if fus[0].parent then 1 else 0) + ParentFollowUps(fus[1..])
  }

  /** validateBarrier: at least one child to wait for, and no more than the ceiling. */
  predicate BarrierValid(o: Opts, result: Result) {
    1 <= ParentFollowUps(result.followUps) <= o.barrierMaxChildren
  }

  function FinalizeRun(r: Run, plan: Plan, superseded: bool, now: int, children: nat): Run {
    r.(outcome := plan.outcome,
       finishedAt := if r.finishedAt.Some? then r.finishedAt else Some(now),
       superseded := superseded,
       jobState := if superseded then r.jobState else Some(plan.state),
       children := children)
  }

  /** The jobs table after a finalize whose claim is held: state advance, follow-ups, barrier check. */
  function AdvancedJobs(jobs: seq<Job>, raw: RawJob, plan: Plan, result: Result, now: int): seq<Job>
    requires raw.id < |jobs|
  {
    var declared := if plan.followUps then result.barrier else None;
    var jobs1 := jobs[raw.id := Advance(jobs[raw.id], plan, declared)];
    var jobs2 := if plan.followUps then InsertFollowUps(jobs1, result.followUps, raw.id, now) else jobs1;
    if raw.parent.Some? && Terminal(plan.state) then FireBarrier(jobs2, raw.parent.value, now) else jobs2
  }

  /** Whether the finalize transaction fails and rolls back. */
  predicate FinalizeFails(o: Opts, db: Tables, raw: RawJob, run: nat, plan: Plan, result: Result) {
    || run >= |db.runs|
    || (plan.followUps && result.barrier.Some? && !BarrierValid(o, result))
    || (plan.followUps && Holds(db.jobs, raw) && |result.followUps| > o.followUpLimit)
  }

  /** Finalize. A superseded attempt writes its run row and nothing else. */
  function Finalize(
      o: Opts, db: Tables, raw: RawJob, run: nat, result: Result, err: Option<WorkError>, now: int): Tables
  {
    var plan := PlanFinalize(raw, result, err, now);
    if FinalizeFails(o, db, raw, run, plan, result) then db
    else if Holds(db.jobs, raw) then
      var jobs := AdvancedJobs(db.jobs, raw, plan, result, now);
      var landed := if plan.followUps
                    then |InsertFollowUps(db.jobs, result.followUps, raw.id, now)| - |db.jobs| else 0;
      db.(jobs := jobs, runs := db.runs[run := FinalizeRun(db.runs[run], plan, false, now, landed)])
    else
      db.(runs := db.runs[run := FinalizeRun(db.runs[run], plan, true, now, 0)])
  }

  // ---------------------------------------------------------------- lease sweep

  predicate Expired(j: Job, now: int) {
    j.state.Running? && j.leasedUntil.Some? && j.leasedUntil.value < now
  }

  /** crashedRunCondition: crashed, or crashed and since overwritten by a superseded finalize. */
  predicate CrashedRun(r: Run) {
    r.outcome.Crashed? || (r.superseded && r.jobState.Some?)
  }

  /** How many of a job's run rows satisfy p. */
  function RunsWhere(runs: seq<Run>, job: nat, p: Run -> bool): nat {
    if |runs| == 0 then 0
    else RunsWhere(runs[..|runs| - 1], job, p) + (if runs[|runs| - 1].job == job && p(runs[|runs| - 1]) then 1 else 0)
  }

  predicate AnyRun(r: Run) {
    true
  }

  function Crashes(runs: seq<Run>, job: nat): nat {
    RunsWhere(runs, job, CrashedRun)
  }

  /** The crashed attempt was the job's last, or spent its crash budget. */
  predicate Spent(o: Opts, db: Tables, i: nat)
    requires i < |db.jobs|
  {
    || db.jobs[i].attempt >= db.jobs[i].maxAttempts
    || (o.maxCrashes > 0 && 1 + Crashes(db.runs, i) >= o.maxCrashes)
  }

  function Reclaim(j: Job, spent: bool, now: int): Job {
    j.(state := if spent then Discarded else Available,
       finalizedAt := if spent then Some(now) else j.finalizedAt,
       leasedUntil := None,
       token := None)
  }

  /** One reclaim batch over the expired rows among ids: those another sweeper holds are not in ids. */
  function Reclaimed(o: Opts, db: Tables, ids: set<nat>, now: int): seq<Job> {
    seq(|db.jobs|, i requires 0 <= i < |db.jobs| =>
      if i in ids && Expired(db.jobs[i], now) then Reclaim(db.jobs[i], Spent(o, db, i), now) else db.jobs[i])
  }

  /** crashStaleStubs: only the reclaimed attempt's own started stub is crashed. */
  function CrashedStubs(db: Tables, after: seq<Job>, now: int): seq<Run>
    requires |after| == |db.jobs|
  {
    seq(|db.runs|, r requires 0 <= r < |db.runs| =>
      var run := db.runs[r];
      if run.job < |after| && db.jobs[run.job].state.Running? && !after[run.job].state.Running?
         && run.attempt == after[run.job].attempt && run.outcome.Started?
      then run.(outcome := Crashed, finishedAt := Some(now), jobState := Some(after[run.job].state))
      else run)
  }

  predicate LostChild(before: seq<Job>, after: seq<Job>, p: nat)
    requires |before| <= |after|
  {
    exists i :: 0 <= i < |before| && before[i].parent == Some(p)
                && before[i].state.Running? && after[i].state.Discarded?
  }

  /** fireDiscardedParentsBarriers: each parent of a discarded job, in id order. */
  function FireParents(before: seq<Job>, after: seq<Job>, p: nat, now: int): (jobs: seq<Job>)
    requires |before| <= |after| && p <= |before|
    ensures |jobs| >= |after|
    decreases |before| - p
  {
    if p == |before| then after
    else FireParents(before, if LostChild(before, after, p) then FireBarrier(after, p, now) else after, p + 1, now)
  }

  function Sweep(o: Opts, db: Tables, ids: set<nat>, now: int): Tables {
    var after := Reclaimed(o, db, ids, now);
    db.(jobs := FireParents(db.jobs, after, 0, now), runs := CrashedStubs(db, after, now))
  }

  // ---------------------------------------------------------------- operator controls

  /** CancelJob: a terminal job is refused; a running attempt is fenced; the barrier check runs. */
  function Cancel(db: Tables, id: nat, now: int): Tables {
    if id >= |db.jobs| || Terminal(db.jobs[id].state) then db
    else
      var j := db.jobs[id];
      var jobs := db.jobs[id := j.(state := Cancelled, leasedUntil := None, token := None, finalizedAt := Some(now))];
      db.(jobs := if j.parent.Some? then FireBarrier(jobs, j.parent.value, now) else jobs)
  }

  predicate AttemptStillRuns(db: Tables, id: nat)
    requires id < |db.jobs|
  {
    exists r :: 0 <= r < |db.runs| && db.runs[r].job == id && db.runs[r].attempt == db.jobs[id].attempt
                && db.runs[r].outcome.Started?
  }

  predicate RetryAllowed(db: Tables, id: nat, opts: RetryOpts)
    requires id < |db.jobs|
  {
    var s := db.jobs[id].state;
    if s.Running? then opts.allowRunning
    else if Terminal(s) then
      opts.force && (s.Cancelled? && !opts.allowRunning ==> !AttemptStillRuns(db, id))
    else true
  }

  /** applyRetryBudget: the budget is restored as headroom above the attempt counter. */
  function RetryBudget(j: Job, opts: RetryOpts): nat {
    if !opts.resetAttempts then j.maxAttempts
    else if opts.budget <= 0 then j.attempt + j.maxAttempts
    else j.attempt + opts.budget
  }

  function RetryRow(j: Job, opts: RetryOpts, now: int): Job {
    j.(state := Available, leasedUntil := None, token := None, finalizedAt := None,
       scheduledAt := now + opts.delay, maxAttempts := RetryBudget(j, opts))
  }

  function Retry(db: Tables, id: nat, opts: RetryOpts, now: int): Tables {
    if id < |db.jobs| && RetryAllowed(db, id, opts)
    then db.(jobs := db.jobs[id := RetryRow(db.jobs[id], opts, now)])
    else db
  }

  predicate ReplayRefused(states: set<JobState>, opts: RetryOpts) {
    Running in states || (Succeeded in states && !opts.force)
  }

  predicate ReplayTarget(db: Tables, i: nat, ids: set<nat>, states: set<JobState>)
    requires i < |db.jobs|
  {
    i in ids && db.jobs[i].state in states && (db.jobs[i].state.Cancelled? ==> !AttemptStillRuns(db, i))
  }

  /** A replay batch over the rows of its scope: a running attempt is never touched. */
  function Replay(db: Tables, ids: set<nat>, states: set<JobState>, opts: RetryOpts, now: int): Tables {
    if ReplayRefused(states, opts) then db
    else db.(jobs := seq(|db.jobs|, i requires 0 <= i < |db.jobs| =>
      if ReplayTarget(db, i, ids, states) then RetryRow(db.jobs[i], opts, now) else db.jobs[i]))
  }

  /** The load harness's expireLeases: every held lease is pushed into the past. */
  function ExpireLeases(db: Tables, at: int): Tables {
    db.(jobs := seq(|db.jobs|, i requires 0 <= i < |db.jobs| =>
      if db.jobs[i].state.Running? && db.jobs[i].leasedUntil.Some?
      then db.jobs[i].(leasedUntil := Some(at)) else db.jobs[i]))
  }
}
