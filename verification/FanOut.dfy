/**
 The load harness's fan-out and barrier mixes: the shape plan decides, what its worker
 returns, and exact job conservation over every run of gated, crashing runners.
 */
module FanOut {
  import opened Options
  import opened JobTable
  import opened Lease
  import opened Barriers

  // ---------------------------------------------------------------- the plan

  datatype Mix = EnqueueOnly | Steady | FanOutMix | BarrierMix | MixedSpeed | FairnessMix | DrainOnly

  datatype Config = Config(mix: Mix, jobs: nat, children: int, failing: bool, parents: nat)

  datatype MixPlan = MixPlan(rows: nat, children: nat, bulk: bool, barrier: bool, cohort: bool)

  const FAN_OUT_CHILDREN: nat := 9

  function ChildCount(cfg: Config): (c: nat)
    ensures c >= 1
  {
    if cfg.children > 0 then cfg.children else FAN_OUT_CHILDREN
  }

  function AtLeastOne(n: nat): nat { if n >= 1 then n else 1 }

  function PlanMix(cfg: Config): MixPlan {
    match cfg.mix
    case EnqueueOnly => MixPlan(cfg.jobs, 0, false, false, false)
    case Steady => MixPlan(cfg.jobs, 0, false, false, false)
    case FanOutMix =>
      if cfg.failing then MixPlan(ChildCount(cfg), 0, true, false, true)
      else MixPlan(AtLeastOne(cfg.jobs / (1 + ChildCount(cfg))), ChildCount(cfg), true, false, false)
    case BarrierMix => MixPlan(AtLeastOne(cfg.jobs / (2 + ChildCount(cfg))), ChildCount(cfg), true, true, false)
    case FairnessMix => MixPlan(cfg.parents * ChildCount(cfg), 0, true, false, false)
    case MixedSpeed => MixPlan(cfg.jobs, 0, true, false, false)
    case DrainOnly => MixPlan(cfg.jobs, 0, true, false, false)
  }

  function TotalJobs(p: MixPlan): nat {
    p.rows * (1 + p.children) + (if p.barrier then p.rows else 0)
  }

  /** Jobs per parent: itself, its children, and its continuation. */
  function Group(p: MixPlan): nat {
    1 + p.children + (if p.barrier then 1 else 0)
  }

  lemma TotalIsRowsTimesGroup(p: MixPlan)
    ensures TotalJobs(p) == p.rows * Group(p)
  {
  }

  lemma WholeGroups(jobs: nat, g: nat)
    requires g >= 1
    ensures jobs / g * g <= jobs < jobs / g * g + g
    ensures jobs / g >= 1 <==> jobs >= g
  {
  }

  /** A fan-out run's total stays within one group below the configured count exactly when the count
      holds at least one group; below that the single parent overshoots. */
  lemma TotalNearConfigured(cfg: Config)
    requires (cfg.mix.FanOutMix? && !cfg.failing) || cfg.mix.BarrierMix?
    ensures
      var p := PlanMix(cfg);
      && p.rows >= 1
      && (Group(p) <= cfg.jobs <==> cfg.jobs - Group(p) < TotalJobs(p) <= cfg.jobs)
      && (cfg.jobs < Group(p) ==> TotalJobs(p) == Group(p))
  {
    var p := PlanMix(cfg);
    TotalIsRowsTimesGroup(p);
    WholeGroups(cfg.jobs, Group(p));
    assert p.rows == AtLeastOne(cfg.jobs / Group(p));
  }

  /** What every mix seeds: only a fan-out and a barrier give their jobs children, the number configured or nine,
      and only a barrier gives them a continuation; every other mix is all rows, one per configured job, or per
      child of its cohort or its parents. */
  lemma PlanExact(cfg: Config)
    ensures
      var p, c := PlanMix(cfg), if cfg.children > 0 then cfg.children else 9;
      && (p.children > 0 <==> (cfg.mix.FanOutMix? && !cfg.failing) || cfg.mix.BarrierMix?)
      && (p.children > 0 ==> p.children == c) && (p.barrier <==> cfg.mix.BarrierMix?)
      && (p.cohort <==> cfg.mix.FanOutMix? && cfg.failing) && (p.bulk <==> !cfg.mix.EnqueueOnly? && !cfg.mix.Steady?)
      && (p.children == 0 ==> TotalJobs(p) == p.rows)
      && (cfg.mix.EnqueueOnly? || cfg.mix.Steady? || cfg.mix.MixedSpeed? || cfg.mix.DrainOnly? ==> p.rows == cfg.jobs)
      && (p.cohort ==> p.rows == c) && (cfg.mix.FairnessMix? ==> p.rows == cfg.parents * c)
  {
  }

  // ---------------------------------------------------------------- the worker

  function ChildOf(args: Args, fails: nat -> bool, i: nat): FollowUp {
    FollowUp(Args(args.n * args.children + i, 0, false, fails(args.n * args.children + i)), true, None)
  }

  /** A parent's children, in order, and its continuation when it declares a barrier. */
  function Worked(args: Args, fails: nat -> bool): Result {
    if args.children == 0 then Result(false, None, [], None)
    else Result(false, None, seq(args.children, i requires 0 <= i < args.children => ChildOf(args, fails, i)),
                if args.barrier then Some(Args(args.n, 0, false, false)) else None)
  }

  /** One level deep: each child is a leaf under its parent with an ordinal of its own, fails exactly as that
      ordinal does, and is never deduplicated; the continuation is a leaf that never fails. */
  lemma WorkedExact(args: Args, fails: nat -> bool)
    ensures
      var w := Worked(args, fails);
      && !w.cancel && w.snooze.None? && |w.followUps| == args.children
      && (forall k :: 0 <= k < args.children ==>
            var n, fu := args.n * args.children + k, w.followUps[k];
            fu.args == Args(n, 0, false, fails(n)) && fu.parent && fu.key.None?)
      && w.barrier == if args.barrier && args.children > 0 then Some(Args(args.n, 0, false, false)) else None
  {
  }

  datatype Failure = TransientLoad | Interrupted

  const MILLISECOND: int := 1_000_000

  /** loadWorker.Work. retryAfter is the downstream budget's answer when it is exhausted, outage whether the
      simulated outage is on, and interrupted whether the context ends before workNanos have passed. The job is
      deferred, fails, is interrupted, or does its own work, in that order. */
  method Work(
      args: Args, fails: nat -> bool, retryAfter: Option<int>, outage: bool, workNanos: int, interrupted: bool)
    returns (result: Result, failure: Option<Failure>)
    ensures result.snooze.Some? <==> retryAfter.Some?
    ensures retryAfter.Some? ==>
      && failure.None? && result.snooze.value > 0 && result == Result(false, result.snooze, [], None)
      && result.snooze.value == (if retryAfter.value > 0 then retryAfter.value else MILLISECOND)
    ensures failure == Some(Interrupted) <==> retryAfter.None? && !outage && workNanos > 0 && interrupted
    ensures failure == Some(TransientLoad) <==>
      retryAfter.None? && (outage || (!(workNanos > 0 && interrupted) && args.children == 0 && args.fail))
    ensures failure.Some? ==> result == Result(false, None, [], None)
    ensures retryAfter.None? && failure.None? ==>
      && result == Worked(args, fails) && |result.followUps| == args.children
      && (result.barrier.Some? <==> args.barrier && args.children > 0)
  {
    failure := None;
    result := Result(false, None, [], None);
    if retryAfter.Some? {
      var delay := retryAfter.value;
      if delay <= 0 { delay := MILLISECOND; }
      result := Result(false, Some(delay), [], None);
      return;
    }
    if outage {
      failure := Some(TransientLoad);
      return;
    }
    if workNanos > 0 && interrupted {
      failure := Some(Interrupted);
      return;
    }
    if args.children == 0 {
      if args.fail { failure := Some(TransientLoad); }
      return;
    }
    var followUps: seq<FollowUp> := [];
    for i := 0 to args.children
      invariant followUps == seq(i, k requires 0 <= k < i => ChildOf(args, fails, k))
    {
      followUps := followUps + [ChildOf(args, fails, i)];
    }
    result := Result(false, None, followUps, if args.barrier then Some(Args(args.n, 0, false, false)) else None);
  }

  // ---------------------------------------------------------------- conservation

  function Fanned(args: Args): nat {
    if args.children == 0 then 0 else args.children + (if args.barrier then 1 else 0)
  }

  /** The jobs a row has still to create: all it fans out until it succeeds, its continuation after. */
  function Owed(j: Job): nat {
    if j.state.Succeeded? then (if j.barrier.Some? then 1 else 0) else Fanned(j.args)
  }

  function OwedSum(jobs: seq<Job>): nat {
    if |jobs| == 0 then 0 else OwedSum(jobs[..|jobs| - 1]) + Owed(jobs[|jobs| - 1])
  }

  lemma {:induction false} OwedUpdate(jobs: seq<Job>, i: nat, row: Job)
    requires i < |jobs|
    ensures OwedSum(jobs[i := row]) == OwedSum(jobs) - Owed(jobs[i]) + Owed(row)
    decreases |jobs|
  {
    var n := |jobs| - 1;
    if i < n {
      assert jobs[i := row][..n] == jobs[..n][i := row];
      OwedUpdate(jobs[..n], i, row);
    } else {
      assert jobs[i := row][..n] == jobs[..n];
    }
  }

  lemma OwedAppend(jobs: seq<Job>, row: Job)
    ensures OwedSum(jobs + [row]) == OwedSum(jobs) + Owed(row)
  {
  }

  lemma {:induction false} OwedSame(a: seq<Job>, b: seq<Job>)
    requires |a| == |b| && forall i :: 0 <= i < |a| ==> Owed(a[i]) == Owed(b[i])
    ensures OwedSum(a) == OwedSum(b)
    decreases |a|
  {
    if |a| > 0 { OwedSame(a[..|a| - 1], b[..|b| - 1]); }
  }

  /** A barrier is declared by a succeeded row only, and a continuation exists only once its parent's has fired. */
  predicate TidyAt(jobs: seq<Job>, i: nat, plan: MixPlan)
    requires i < |jobs|
  {
    && (jobs[i].barrier.Some? ==> jobs[i].state.Succeeded? && jobs[i].barrier.value.children == 0)
    && (jobs[i].uniqueKey.Some? && jobs[i].uniqueKey.value.BarrierKey? ==>
          var p := jobs[i].uniqueKey.value.parent;
          p < i && jobs[p].state.Succeeded? && jobs[p].barrier.None?)
    && (IsChild(jobs[i]) ==>
          var p := jobs[i].parent.value;
          p < i && jobs[p].state.Succeeded? && BornOf(jobs[i].args, jobs[p].args))
    && (jobs[i].args.children > 0 ==> i < plan.rows && jobs[i].args.n == i && jobs[i].args.children == plan.children)
  }

  /** The child's ordinal lies in the parent's block of ordinals. */
  predicate BornOf(child: Args, parent: Args) {
    parent.n * parent.children <= child.n < parent.n * parent.children + parent.children
  }

  /** A fan-out child, as opposed to a seeded row or a continuation. */
  predicate IsChild(j: Job) {
    j.parent.Some? && j.uniqueKey.None?
  }

  ghost predicate SiblingsDiffer(jobs: seq<Job>) {
    forall i, j :: 0 <= i < j < |jobs| && IsChild(jobs[i]) && IsChild(jobs[j]) && jobs[i].parent == jobs[j].parent ==>
      jobs[i].args.n != jobs[j].args.n
  }

  /** The invariant: what exists and what is still owed add up to the same number in every state. */
  ghost predicate Conserved(jobs: seq<Job>, plan: MixPlan) {
    && (forall i :: 0 <= i < |jobs| ==> TidyAt(jobs, i, plan))
    && SiblingsDiffer(jobs)
    && |jobs| + OwedSum(jobs) == TotalJobs(plan)
  }

  lemma FireStaysTidy(jobs: seq<Job>, p: nat, now: int, plan0: MixPlan)
    requires forall i :: 0 <= i < |jobs| ==> TidyAt(jobs, i, plan0)
    requires SiblingsDiffer(jobs)
    ensures forall i :: 0 <= i < |FireBarrier(jobs, p, now)| ==> TidyAt(FireBarrier(jobs, p, now), i, plan0)
    ensures SiblingsDiffer(FireBarrier(jobs, p, now))
  {
    var next := FireBarrier(jobs, p, now);
    if next != jobs {
      assert TidyAt(jobs, p, plan0);
      forall i | 0 <= i < |next| ensures TidyAt(next, i, plan0) {
        if i < |jobs| { assert TidyAt(jobs, i, plan0); }
      }
    }
  }

  lemma FireConserves(jobs: seq<Job>, p: nat, now: int, plan0: MixPlan)
    requires Conserved(jobs, plan0)
    ensures Conserved(FireBarrier(jobs, p, now), plan0)
  {
    FireStaysTidy(jobs, p, now, plan0);
    if p < |jobs| && jobs[p].barrier.Some? && !PendingChild(jobs, p) {
      var row := ContinuationRow(p, jobs[p].barrier.value, now);
      assert !KeyTaken(jobs, BarrierKey(p)) by {
        forall i | 0 <= i < |jobs| ensures jobs[i].uniqueKey != Some(BarrierKey(p)) { assert TidyAt(jobs, i, plan0); }
      }
      assert TidyAt(jobs, p, plan0);
      OwedAppend(jobs, row);
      OwedUpdate(jobs + [row], p, jobs[p].(barrier := None));
      assert FireBarrier(jobs, p, now) == (jobs + [row])[p := jobs[p].(barrier := None)];
    }
  }

  /** Rows that moved between unsucceeded states, or not at all. */
  ghost predicate RowsAlike(a: seq<Job>, b: seq<Job>) {
    && |a| == |b|
    && (forall i :: 0 <= i < |a| ==>
          && b[i].barrier == a[i].barrier && b[i].args == a[i].args
          && b[i].uniqueKey == a[i].uniqueKey && b[i].parent == a[i].parent
          && (b[i].state.Succeeded? <==> a[i].state.Succeeded?))
  }

  lemma AlikeConserves(a: seq<Job>, b: seq<Job>, plan0: MixPlan)
    requires Conserved(a, plan0) && RowsAlike(a, b)
    ensures Conserved(b, plan0)
  {
    OwedSame(a, b);
    forall i | 0 <= i < |b| ensures TidyAt(b, i, plan0) { assert TidyAt(a, i, plan0); }
  }

  lemma {:induction false} FireParentsConserves(before: seq<Job>, after: seq<Job>, p: nat, now: int, plan0: MixPlan)
    requires |before| <= |after| && p <= |before| && Conserved(after, plan0)
    ensures Conserved(FireParents(before, after, p, now), plan0)
    decreases |before| - p
  {
    if p < |before| {
      FireConserves(after, p, now, plan0);
      var next := if LostChild(before, after, p) then FireBarrier(after, p, now) else after;
      FireParentsConserves(before, next, p + 1, now, plan0);
    }
  }

  function LeafRows(fus: seq<FollowUp>, p: nat, now: int): seq<Job> {
    seq(|fus|, k requires 0 <= k < |fus| => ChildRow(fus[k], p, now))
  }

  /** Unkeyed leaf follow-ups all land and owe nothing. */
  lemma {:induction false} LeavesLand(jobs: seq<Job>, fus: seq<FollowUp>, p: nat, now: int)
    requires forall k :: 0 <= k < |fus| ==> fus[k].key.None? && fus[k].args.children == 0
    ensures InsertFollowUps(jobs, fus, p, now) == jobs + LeafRows(fus, p, now)
    ensures OwedSum(InsertFollowUps(jobs, fus, p, now)) == OwedSum(jobs)
    decreases |fus|
  {
    if |fus| > 0 {
      var row := ChildRow(fus[0], p, now);
      OwedAppend(jobs, row);
      LeavesLand(jobs + [row], fus[1..], p, now);
      assert jobs + [row] + LeafRows(fus[1..], p, now) == jobs + LeafRows(fus, p, now);
    }
  }

  /** The jobs table after a parent's first success: its row, then its children. */
  function FannedOut(jobs: seq<Job>, id: nat, fails: nat -> bool, now: int): seq<Job>
    requires id < |jobs|
  {
    var result := Worked(jobs[id].args, fails);
    jobs[id := Advance(jobs[id], Plan(Succeeded, Success, None, Some(now), 0, true), result.barrier)]
    + LeafRows(result.followUps, id, now)
  }

  lemma FannedOutTidy(jobs: seq<Job>, id: nat, fails: nat -> bool, now: int, plan0: MixPlan)
    requires Conserved(jobs, plan0) && id < |jobs| && !jobs[id].state.Succeeded?
    ensures forall i :: 0 <= i < |FannedOut(jobs, id, fails, now)| ==> TidyAt(FannedOut(jobs, id, fails, now), i, plan0)
  {
    var next := FannedOut(jobs, id, fails, now);
    assert TidyAt(jobs, id, plan0);
    forall i | 0 <= i < |next| ensures TidyAt(next, i, plan0) {
      if i < |jobs| { assert TidyAt(jobs, i, plan0); }
    }
  }

  lemma FannedOutSiblings(jobs: seq<Job>, id: nat, fails: nat -> bool, now: int, plan0: MixPlan)
    requires Conserved(jobs, plan0) && id < |jobs| && !jobs[id].state.Succeeded?
    ensures SiblingsDiffer(FannedOut(jobs, id, fails, now))
  {
    var next := FannedOut(jobs, id, fails, now);
    forall i, j | 0 <= i < j < |next| && IsChild(next[i]) && IsChild(next[j]) && next[i].parent == next[j].parent
      ensures next[i].args.n != next[j].args.n
    {
      if i < |jobs| { assert TidyAt(jobs, i, plan0); }
      if j < |jobs| { assert IsChild(jobs[i]) && IsChild(jobs[j]); }
    }
  }

  lemma FannedOutConserves(jobs: seq<Job>, id: nat, fails: nat -> bool, now: int, plan0: MixPlan)
    requires Conserved(jobs, plan0) && id < |jobs| && jobs[id].state.Running?
    ensures
      var result := Worked(jobs[id].args, fails);
      var row := Advance(jobs[id], Plan(Succeeded, Success, None, Some(now), 0, true), result.barrier);
      && InsertFollowUps(jobs[id := row], result.followUps, id, now) == FannedOut(jobs, id, fails, now)
      && Conserved(FannedOut(jobs, id, fails, now), plan0)
  {
    var result := Worked(jobs[id].args, fails);
    var row := Advance(jobs[id], Plan(Succeeded, Success, None, Some(now), 0, true), result.barrier);
    OwedUpdate(jobs, id, row);
    LeavesLand(jobs[id := row], result.followUps, id, now);
    assert TidyAt(jobs, id, plan0);
    assert Owed(jobs[id]) == |result.followUps| + Owed(row);
    FannedOutTidy(jobs, id, fails, now, plan0);
    FannedOutSiblings(jobs, id, fails, now, plan0);
  }

  lemma AdvanceConserves(
      jobs: seq<Job>, raw: RawJob, fails: nat -> bool, result: Result, err: Option<WorkError>, now: int, plan0: MixPlan)
    requires Conserved(jobs, plan0)
    requires raw.id < |jobs| && raw.args == jobs[raw.id].args && jobs[raw.id].state.Running?
    requires PlanFinalize(raw, result, err, now).followUps ==> result == Worked(raw.args, fails)
    ensures Conserved(AdvancedJobs(jobs, raw, PlanFinalize(raw, result, err, now), result, now), plan0)
  {
    var plan := PlanFinalize(raw, result, err, now);
    var row := Advance(jobs[raw.id], plan, if plan.followUps then result.barrier else None);
    var jobs1 := jobs[raw.id := row];
    var jobs2 := if plan.followUps then InsertFollowUps(jobs1, result.followUps, raw.id, now) else jobs1;
    assert Conserved(jobs2, plan0) by {
      if plan.followUps {
        FannedOutConserves(jobs, raw.id, fails, now, plan0);
      } else {
        AlikeConserves(jobs, jobs1, plan0);
      }
    }
    if raw.parent.Some? { FireConserves(jobs2, raw.parent.value, now, plan0); }
  }

  /** The run consists of the load worker's attempts, crashes, sweeps, cancels and gate faults: nothing is
      enqueued from outside and nothing finished is re-queued. */
  predicate LoadAction(s: System, act: Action, fails: nat -> bool) {
    match act
    case Enqueue(_, _, _, _, _) => false
    case RetryJob(_, _, _) => false
    case ReplayJobs(_, _, _, _) => false
    case FinalizeAttempt(a, result, err, now) =>
      a < |s.attempts| && PlanFinalize(s.attempts[a].raw, result, err, now).followUps ==>
        result == Worked(s.attempts[a].raw.args, fails)
    case _ => true
  }

  predicate LoadRun(o: Opts, s: System, acts: seq<Action>, fails: nat -> bool)
    decreases |acts|
  {
    |acts| > 0 ==> LoadAction(s, acts[0], fails) && LoadRun(o, Apply(o, s, acts[0]), acts[1..], fails)
  }

  lemma ClaimAlike(s: System, runner: nat, picked: seq<nat>, now: int, lease: int)
    ensures RowsAlike(s.db.jobs, ApplyClaim(s, runner, picked, now, lease).db.jobs)
  {
  }

  lemma OthersAlike(o: Opts, s: System, act: Action, fails: nat -> bool)
    requires LoadAction(s, act, fails) && !act.FinalizeAttempt? && !act.SweepBatch? && !act.CancelJob?
    ensures RowsAlike(s.db.jobs, Apply(o, s, act).db.jobs)
  {
    if act.ClaimBatch? { ClaimAlike(s, act.runner, act.picked, act.now, act.lease); }
  }

  lemma SweepConserves(o: Opts, db: Tables, ids: set<nat>, now: int, plan0: MixPlan)
    requires Conserved(db.jobs, plan0)
    ensures Conserved(Sweep(o, db, ids, now).jobs, plan0)
  {
    var after := Reclaimed(o, db, ids, now);
    assert RowsAlike(db.jobs, after);
    AlikeConserves(db.jobs, after, plan0);
    FireParentsConserves(db.jobs, after, 0, now, plan0);
  }

  lemma CancelConserves(db: Tables, id: nat, now: int, plan0: MixPlan)
    requires Conserved(db.jobs, plan0)
    ensures Conserved(Cancel(db, id, now).jobs, plan0)
  {
    if id < |db.jobs| && !Terminal(db.jobs[id].state) {
      var j := db.jobs[id];
      var jobs := db.jobs[id := j.(state := Cancelled, leasedUntil := None, token := None, finalizedAt := Some(now))];
      assert RowsAlike(db.jobs, jobs);
      AlikeConserves(db.jobs, jobs, plan0);
      if j.parent.Some? { FireConserves(jobs, j.parent.value, now, plan0); }
    }
  }

  lemma FinalizeConserves(o: Opts, s: System, act: Action, fails: nat -> bool, plan0: MixPlan)
    requires Inv(s) && Conserved(s.db.jobs, plan0) && LoadAction(s, act, fails) && act.FinalizeAttempt?
    ensures Conserved(Apply(o, s, act).db.jobs, plan0)
  {
    if Apply(o, s, act).db.jobs != s.db.jobs {
      var raw := s.attempts[act.att].raw;
      assert AttemptOk(s.db, s.attempts[act.att]);
      assert Apply(o, s, act).db.jobs
          == AdvancedJobs(s.db.jobs, raw, PlanFinalize(raw, act.result, act.err, act.now), act.result, act.now);
      AdvanceConserves(s.db.jobs, raw, fails, act.result, act.err, act.now, plan0);
    }
  }

  lemma OthersConserve(o: Opts, s: System, act: Action, fails: nat -> bool, plan0: MixPlan)
    requires Conserved(s.db.jobs, plan0) && LoadAction(s, act, fails)
    requires !act.FinalizeAttempt? && !act.SweepBatch? && !act.CancelJob?
    ensures Conserved(Apply(o, s, act).db.jobs, plan0)
  {
    OthersAlike(o, s, act, fails);
    AlikeConserves(s.db.jobs, Apply(o, s, act).db.jobs, plan0);
  }

  lemma StepConserves(o: Opts, s: System, act: Action, fails: nat -> bool, plan0: MixPlan)
    requires Inv(s) && Conserved(s.db.jobs, plan0) && LoadAction(s, act, fails)
    ensures Conserved(Apply(o, s, act).db.jobs, plan0)
  {
    match act {
      case FinalizeAttempt(_, _, _, _) => FinalizeConserves(o, s, act, fails, plan0);
      case SweepBatch(ids, now) => SweepConserves(o, s.db, ids, now, plan0);
      case CancelJob(id, now) => CancelConserves(s.db, id, now, plan0);
      case _ => OthersConserve(o, s, act, fails, plan0);
    }
  }

  lemma {:induction false} RunConserves(o: Opts, s: System, acts: seq<Action>, fails: nat -> bool, plan0: MixPlan)
    requires Inv(s) && Conserved(s.db.jobs, plan0) && BarriersLive(s.db.jobs) && LoadRun(o, s, acts, fails)
    ensures Inv(Execute(o, s, acts)) && Conserved(Execute(o, s, acts).db.jobs, plan0)
    ensures BarriersLive(Execute(o, s, acts).db.jobs)
    decreases |acts|
  {
    if |acts| > 0 {
      var act := acts[0];
      StepConserves(o, s, act, fails, plan0);
      LoadWorkCovers(s, act, fails);
      StepLive(o, s, act);
      StepKeepsInv(o, s, act);
      RunConserves(o, Apply(o, s, act), acts[1..], fails, plan0);
    }
  }

  /** The load worker's children carry no key, so its barriers always have one to wait for. */
  lemma LoadWorkCovers(s: System, act: Action, fails: nat -> bool)
    requires LoadAction(s, act, fails)
    ensures Covered(s, act)
  {
    if act.FinalizeAttempt? && act.att < |s.attempts| && act.result.barrier.Some?
       && PlanFinalize(s.attempts[act.att].raw, act.result, act.err, act.now).followUps {
      assert LandsAt(s.db.jobs, act.result.followUps, 0);
    }
  }

  // ---------------------------------------------------------------- the seeded run

  function SeedRow(p: MixPlan, i: nat, maxAttempts: nat): Job {
    NewRow(Args(i, p.children, p.barrier && p.children > 0, false), maxAttempts, 0, None, None)
  }

  function SeedRows(p: MixPlan, n: nat, maxAttempts: nat): seq<Job> {
    seq(n, i requires 0 <= i < n => SeedRow(p, i, maxAttempts))
  }

  function Seeded(p: MixPlan, runners: nat, maxAttempts: nat): System {
    Fresh(runners).(db := Tables(SeedRows(p, p.rows, maxAttempts), [], 0))
  }

  lemma {:induction false} SeedOwes(p: MixPlan, n: nat, maxAttempts: nat)
    ensures OwedSum(SeedRows(p, n, maxAttempts)) == n * Fanned(Args(0, p.children, p.barrier && p.children > 0, false))
    decreases n
  {
    if n > 0 {
      assert SeedRows(p, n, maxAttempts)[..n - 1] == SeedRows(p, n - 1, maxAttempts);
      SeedOwes(p, n - 1, maxAttempts);
    }
  }

  lemma SeededConserved(p: MixPlan, runners: nat, maxAttempts: nat)
    requires p.barrier ==> p.children > 0
    ensures Inv(Seeded(p, runners, maxAttempts)) && BarriersLive(Seeded(p, runners, maxAttempts).db.jobs)
    ensures Conserved(Seeded(p, runners, maxAttempts).db.jobs, p)
  {
    SeedOwes(p, p.rows, maxAttempts);
    TotalIsRowsTimesGroup(p);
    assert Fanned(Args(0, p.children, p.barrier && p.children > 0, false)) == Group(p) - 1;
    assert p.rows * Group(p) == p.rows + p.rows * (Group(p) - 1);
  }

  lemma {:induction false} OwedZeroIff(jobs: seq<Job>)
    ensures OwedSum(jobs) == 0 <==> forall i :: 0 <= i < |jobs| ==> Owed(jobs[i]) == 0
    decreases |jobs|
  {
    if |jobs| > 0 { OwedZeroIff(jobs[..|jobs| - 1]); }
  }

  /** Job conservation: whatever crashes, gates, sweeps, cancels and double executions a run goes through,
      never more than TotalJobs jobs exist; they are all there exactly when every job that fans out has
      succeeded and no barrier is pending; and once every job is terminal the only ones missing are those
      of parents that were cancelled or discarded. */
  lemma JobsConserved(o: Opts, p: MixPlan, runners: nat, maxAttempts: nat, acts: seq<Action>, fails: nat -> bool)
    requires p.barrier ==> p.children > 0
    requires LoadRun(o, Seeded(p, runners, maxAttempts), acts, fails)
    ensures
      var jobs := Execute(o, Seeded(p, runners, maxAttempts), acts).db.jobs;
      && |jobs| <= TotalJobs(p)
      && (|jobs| == TotalJobs(p) <==>
            forall i :: 0 <= i < |jobs| ==>
              if jobs[i].state.Succeeded? then jobs[i].barrier.None? else Fanned(jobs[i].args) == 0)
      && ((forall i :: 0 <= i < |jobs| ==> Terminal(jobs[i].state)) ==>
            (|jobs| == TotalJobs(p) <==>
               forall i :: 0 <= i < |jobs| && Fanned(jobs[i].args) > 0 ==> jobs[i].state.Succeeded?))
  {
    var s := Seeded(p, runners, maxAttempts);
    SeededConserved(p, runners, maxAttempts);
    RunConserves(o, s, acts, fails, p);
    var jobs := Execute(o, s, acts).db.jobs;
    OwedZeroIff(jobs);
    if forall i :: 0 <= i < |jobs| ==> Terminal(jobs[i].state) {
      forall i | 0 <= i < |jobs| ensures jobs[i].barrier.None? { assert LiveAt(jobs, i); }
    }
  }

  lemma {:induction false} BlocksOrdered(a: nat, b: nat, c: nat)
    requires a < b
    ensures a * c + c <= b * c
    decreases b
  {
    assert (b - 1) * c + c == b * c;
    if a < b - 1 { BlocksOrdered(a, b - 1, c); }
  }

  /** Child ordinals never collide, across all parents of a run: each parent fans out at most once, into
      its own block of ordinals. */
  lemma ChildOrdinalsDistinct(
      o: Opts, p: MixPlan, runners: nat, maxAttempts: nat, acts: seq<Action>, fails: nat -> bool, i: nat, j: nat)
    requires p.barrier ==> p.children > 0
    requires LoadRun(o, Seeded(p, runners, maxAttempts), acts, fails)
    requires
      var jobs := Execute(o, Seeded(p, runners, maxAttempts), acts).db.jobs;
      i < |jobs| && j < |jobs| && i != j && IsChild(jobs[i]) && IsChild(jobs[j])
    ensures
      var jobs := Execute(o, Seeded(p, runners, maxAttempts), acts).db.jobs;
      jobs[i].args.n != jobs[j].args.n
  {
    SeededConserved(p, runners, maxAttempts);
    RunConserves(o, Seeded(p, runners, maxAttempts), acts, fails, p);
    var jobs := Execute(o, Seeded(p, runners, maxAttempts), acts).db.jobs;
    assert TidyAt(jobs, i, p) && TidyAt(jobs, j, p);
    assert TidyAt(jobs, jobs[i].parent.value, p) && TidyAt(jobs, jobs[j].parent.value, p);
    var a, b := jobs[i].parent.value, jobs[j].parent.value;
    if a == b {
      assert jobs[if i < j then i else j].parent == jobs[if i < j then j else i].parent;
    } else {
      BlocksOrdered(if a < b then a else b, if a < b then b else a, p.children);
    }
  }
}
