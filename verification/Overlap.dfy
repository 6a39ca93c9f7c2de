/**
 Whether a job's work can run twice at once. The retry and replay guards are there to keep
 a second attempt from starting beside one that still runs; they probe the run stub, which
 an attempt writes only after its claim, so an attempt without one goes unseen.
 */
module Overlap {
  import opened Options
  import opened JobTable
  import opened Lease
  import opened RowSteps
  import opened Audit

  /** The attempt's worker is running: its dispatch is under way and its stub still reads started. */
  predicate AtWork(s: System, a: nat) {
    && a < |s.attempts| && s.attempts[a].live && s.attempts[a].run.Some?
    && s.attempts[a].run.value < |s.db.runs| && s.db.runs[s.attempts[a].run.value].outcome == Started
  }

  /** The job has not moved past the attempt: it is on it, running or cancelled. */
  predicate Current(s: System, a: nat) {
    && a < |s.attempts| && s.attempts[a].raw.id < |s.db.jobs|
    && var j := s.db.jobs[s.attempts[a].raw.id];
       j.attempt == s.attempts[a].raw.attempt && (j.state == Running || j.state == Cancelled)
  }

  /** Every attempt at work is its job's current one. */
  ghost predicate Orderly(s: System) {
    forall a: nat :: AtWork(s, a) ==> Current(s, a)
  }

  /** Then no job has two attempts at work. */
  lemma OrderlyNeverTwice(s: System, a: nat, b: nat)
    requires Inv(s) && Orderly(s) && AtWork(s, a) && AtWork(s, b) && s.attempts[a].raw.id == s.attempts[b].raw.id
    ensures a == b
  {
    assert Current(s, a) && Current(s, b);
  }

  /** The action writes attempt a's stub. */
  predicate WritesStub(s: System, act: Action, a: nat) {
    act == InsertStub(a) && a < |s.attempts| && s.attempts[a].live && s.attempts[a].cleared && s.attempts[a].run.None?
  }

  /** Nothing the retry guard cannot see: a stub is written only by a current attempt, and a retry that is allowed
      to take a running job finds none of its attempts at work. */
  ghost predicate Heeds(s: System, act: Action) {
    && (forall a: nat :: WritesStub(s, act, a) ==> Current(s, a))
    && (act.RetryJob? && act.id < |s.db.jobs| && act.opts.allowRunning && Requeues(s, act, act.id) ==>
          forall a: nat :: AtWork(s, a) ==> s.attempts[a].raw.id != act.id)
  }

  // ---------------------------------------------------------------- one step

  /** Nothing but a finalize of its own, a sweep or a stub insert touches an attempt's run. */
  lemma WorkWasThere(o: Opts, s: System, act: Action, a: nat)
    requires Inv(s) && LiveUnfinished(s) && AtWork(Apply(o, s, act), a) && !WritesStub(s, act, a)
    ensures AtWork(s, a) && Apply(o, s, act).attempts[a].raw == s.attempts[a].raw
    ensures act.FinalizeAttempt? && CanFinalize(s, act.att) ==> act.att != a
  {
    var t := Apply(o, s, act);
    if act.FinalizeAttempt? {
      FinalizeRow(o, s, act.att, act.result, act.err, act.now);
      assert t.attempts[a].run == s.attempts[a].run;
    } else {
      OtherStepsRunsMild(o, s, act);
      AttemptWasThere(o, s, act, a);
      assert AttemptOk(s.db, s.attempts[a]);
    }
  }

  lemma AttemptWasThere(o: Opts, s: System, act: Action, a: nat)
    requires !act.FinalizeAttempt? && AtWork(Apply(o, s, act), a) && !WritesStub(s, act, a)
    ensures a < |s.attempts| && s.attempts[a].live
    ensures Apply(o, s, act).attempts[a].raw == s.attempts[a].raw
    ensures Apply(o, s, act).attempts[a].run == s.attempts[a].run
  {
  }

  /** A sweep that reclaims the job closes the attempt's stub. */
  lemma SweptIsOver(o: Opts, s: System, ids: set<nat>, now: int, a: nat)
    requires Inv(s) && AtWork(s, a) && Current(s, a) && AtWork(Apply(o, s, SweepBatch(ids, now)), a)
    ensures !Reclaims(s, ids, now, s.attempts[a].raw.id)
  {
    assert AttemptOk(s.db, s.attempts[a]);
    SweepRunExact(o, s, ids, now, s.attempts[a].run.value);
  }

  /** The guards see a current attempt that is at work. */
  lemma GuardSees(s: System, a: nat)
    requires Inv(s) && AtWork(s, a) && Current(s, a)
    ensures StillRuns(s.db, s.attempts[a].raw.id)
  {
    assert AttemptOk(s.db, s.attempts[a]);
    var r := s.attempts[a].run.value;
    assert s.db.runs[r].job == s.attempts[a].raw.id && s.db.runs[r].outcome.Started?;
  }

  lemma NotRequeued(s: System, act: Action, a: nat)
    requires Inv(s) && AtWork(s, a) && Current(s, a) && Heeds(s, act)
    ensures !Requeues(s, act, s.attempts[a].raw.id)
  {
    GuardSees(s, a);
  }

  lemma RowStaysCurrent(o: Opts, s: System, act: Action, a: nat)
    requires Inv(s) && AtWork(s, a) && Current(s, a) && Heeds(s, act) && AtWork(Apply(o, s, act), a)
    requires act.FinalizeAttempt? && CanFinalize(s, act.att) ==> act.att != a
    ensures
      var j, k := s.db.jobs[s.attempts[a].raw.id], Moved(o, s, act, s.attempts[a].raw.id);
      k.attempt == j.attempt && (k.state == Running || k.state == Cancelled)
  {
    var id := s.attempts[a].raw.id;
    NotRequeued(s, act, a);
    if act.SweepBatch? {
      SweptIsOver(o, s, act.ids, act.now, a);
    } else if act.FinalizeAttempt? && CanFinalize(s, act.att) {
      assert AttemptOk(s.db, s.attempts[act.att]);
      assert s.attempts[act.att].raw.id == id ==> s.attempts[act.att].raw.attempt != s.attempts[a].raw.attempt;
    }
  }

  lemma StepKeepsOrder(o: Opts, s: System, act: Action)
    requires Inv(s) && LiveUnfinished(s) && Orderly(s) && Heeds(s, act)
    ensures Orderly(Apply(o, s, act))
  {
    var t := Apply(o, s, act);
    forall a: nat | AtWork(t, a) ensures Current(t, a) {
      if WritesStub(s, act, a) {
        assert Current(s, a);
      } else {
        WorkWasThere(o, s, act, a);
        RowStaysCurrent(o, s, act, a);
        StepRows(o, s, act);
        assert Core(t.db.jobs[s.attempts[a].raw.id]) == Core(Moved(o, s, act, s.attempts[a].raw.id));
      }
    }
  }

  lemma StubBreaksOrder(o: Opts, s: System, a: nat)
    requires Inv(s) && WritesStub(s, InsertStub(a), a) && !Current(s, a)
    ensures !Orderly(Apply(o, s, InsertStub(a)))
  {
    StubNeverCollides(s, a);
    var t := Apply(o, s, InsertStub(a));
    assert AtWork(t, a) && !Current(t, a);
  }

  lemma RetryBreaksOrder(o: Opts, s: System, act: Action, a: nat)
    requires Inv(s) && act.RetryJob? && act.id < |s.db.jobs| && Requeues(s, act, act.id)
    requires AtWork(s, a) && s.attempts[a].raw.id == act.id
    ensures !Orderly(Apply(o, s, act))
  {
    var t := Apply(o, s, act);
    StepRows(o, s, act);
    assert Core(t.db.jobs[act.id]) == Core(Moved(o, s, act, act.id));
    assert AtWork(t, a) && !Current(t, a);
  }

  lemma StepOrderIff(o: Opts, s: System, act: Action)
    requires Inv(s) && LiveUnfinished(s) && Orderly(s)
    ensures Orderly(Apply(o, s, act)) <==> Heeds(s, act)
  {
    if Heeds(s, act) {
      StepKeepsOrder(o, s, act);
    } else if a: nat :| WritesStub(s, act, a) && !Current(s, a) {
      StubBreaksOrder(o, s, a);
    } else {
      var a: nat :| AtWork(s, a) && s.attempts[a].raw.id == act.id;
      RetryBreaksOrder(o, s, act, a);
    }
  }

  // ---------------------------------------------------------------- every run

  ghost predicate AlwaysOrderly(o: Opts, s: System, acts: seq<Action>)
    decreases |acts|
  {
    Orderly(s) && (|acts| > 0 ==> AlwaysOrderly(o, Apply(o, s, acts[0]), acts[1..]))
  }

  ghost predicate HeedsRun(o: Opts, s: System, acts: seq<Action>)
    decreases |acts|
  {
    |acts| > 0 ==> Heeds(s, acts[0]) && HeedsRun(o, Apply(o, s, acts[0]), acts[1..])
  }

  /** The attempts at work are their jobs' current ones at every moment of a run, so that no job's work ever runs
      twice at once, if and only if no attempt whose job has moved on writes its stub and no retry that allows it
      takes a job at work. Retries and replays that do not allow it never break this, forced or not. */
  lemma {:induction false} NeverTwiceIff(o: Opts, s: System, acts: seq<Action>)
    requires Inv(s) && LiveUnfinished(s) && Orderly(s)
    ensures AlwaysOrderly(o, s, acts) <==> HeedsRun(o, s, acts)
    decreases |acts|
  {
    if |acts| > 0 {
      StepOrderIff(o, s, acts[0]);
      if Heeds(s, acts[0]) {
        StepKeepsInv(o, s, acts[0]);
        StepKeepsLive(o, s, acts[0]);
        NeverTwiceIff(o, Apply(o, s, acts[0]), acts[1..]);
      }
    }
  }

  lemma FreshOrderly(runners: nat)
    ensures Orderly(Fresh(runners))
  {
  }

  // ---------------------------------------------------------------- a retry beside a running attempt

  /** Forced, and not allowed to take a running job. */
  function Forced(): RetryOpts {
    RetryOpts(true, false, false, 0, 0)
  }

  /** A cancelled job none of whose runs reads started is put back in line, and is due. */
  lemma CancelledIsRetried(o: Opts, s: System, id: nat, now: int)
    requires id < |s.db.jobs| && s.db.jobs[id].state == Running && !StillRuns(s.db, id)
    ensures
      var t := Apply(o, Apply(o, s, CancelJob(id, now)), RetryJob(id, Forced(), now));
      && id < |t.db.jobs| && Ready(t.db.jobs[id], now) && t.db.runs == s.db.runs
      && t.attempts == s.attempts && t.gates == s.gates
  {
    var cancel, retry := CancelJob(id, now), RetryJob(id, Forced(), now);
    var u := Apply(o, s, cancel);
    StepRows(o, s, cancel);
    assert Core(u.db.jobs[id]) == Core(Moved(o, s, cancel, id));
    assert !StillRuns(u.db, id);
    StepRows(o, u, retry);
    assert Core(Apply(o, u, retry).db.jobs[id]) == Core(Moved(o, u, retry, id));
  }

  /** One runner's dispatch is between its claim and its stub while an operator cancels and retries the job and the
      runner claims it again. */
  function Race(n: nat, r: nat, id: nat, now: int): seq<Action> {
    [PassClaim(r), ClaimBatch(r, [id], now, 0)] + [PassCall(n)]
    + [CancelJob(id, now), RetryJob(id, Forced(), now)]
    + [PassClaim(r), ClaimBatch(r, [id], now, 0)] + [PassCall(n + 1), InsertStub(n + 1)] + [InsertStub(n)]
  }

  function Raced(o: Opts, s: System, n: nat, r: nat, id: nat, now: int): System {
    var claimed := Apply(o, PassAndClaim(o, s, r, id, now), PassCall(n));
    var retried := Apply(o, Apply(o, claimed, CancelJob(id, now)), RetryJob(id, Forced(), now));
    Apply(o, PassAndStub(o, PassAndClaim(o, retried, r, id, now), n + 1), InsertStub(n))
  }

  lemma RaceRuns(o: Opts, s: System, n: nat, r: nat, id: nat, now: int)
    ensures Execute(o, s, Race(n, r, id, now)) == Raced(o, s, n, r, id, now)
  {
    var a := [PassClaim(r), ClaimBatch(r, [id], now, 0)];
    var b := a + [PassCall(n)];
    var c := b + [CancelJob(id, now), RetryJob(id, Forced(), now)];
    var d := c + [PassClaim(r), ClaimBatch(r, [id], now, 0)];
    var e := d + [PassCall(n + 1), InsertStub(n + 1)];
    ExecuteTwo(o, s, PassClaim(r), ClaimBatch(r, [id], now, 0));
    ExecuteTail(o, s, a, [PassCall(n)]);
    ExecuteOne(o, Execute(o, s, a), PassCall(n));
    ExecuteTail(o, s, b, [CancelJob(id, now), RetryJob(id, Forced(), now)]);
    ExecuteTwo(o, Execute(o, s, b), CancelJob(id, now), RetryJob(id, Forced(), now));
    ExecuteTail(o, s, c, [PassClaim(r), ClaimBatch(r, [id], now, 0)]);
    ExecuteTwo(o, Execute(o, s, c), PassClaim(r), ClaimBatch(r, [id], now, 0));
    ExecuteTail(o, s, d, [PassCall(n + 1), InsertStub(n + 1)]);
    ExecuteTwo(o, Execute(o, s, d), PassCall(n + 1), InsertStub(n + 1));
    ExecuteTail(o, s, e, [InsertStub(n)]);
    ExecuteOne(o, Execute(o, s, e), InsertStub(n));
  }

  /** The first claim, its stub insert past the gate and not yet written. */
  lemma ClaimedUnseen(o: Opts, s: System, r: nat, id: nat, now: int)
    requires Inv(s) && r < |s.gates| && !s.gates[r].shut && id < |s.db.jobs| && Ready(s.db.jobs[id], now)
    ensures
      var n, t := |s.attempts|, Apply(o, PassAndClaim(o, s, r, id, now), PassCall(|s.attempts|));
      && Inv(t) && id < |t.db.jobs| && t.db.jobs[id].state == Running && !StillRuns(t.db, id)
      && |t.attempts| == n + 1 && t.gates == s.gates
      && t.attempts[n].raw.id == id && t.attempts[n].live && t.attempts[n].cleared && t.attempts[n].run.None?
  {
    PassAndClaimKeepsInv(o, s, r, id, now);
    ClaimOne(o, s, r, id, now);
    StepKeepsInv(o, PassAndClaim(o, s, r, id, now), PassCall(|s.attempts|));
    forall q | 0 <= q < |s.db.runs| && s.db.runs[q].job == id ensures s.db.runs[q].attempt <= s.db.jobs[id].attempt {
    }
  }

  /** The second claim and its stub, and then the first one's. */
  lemma BothStub(o: Opts, s: System, r: nat, id: nat, now: int, n: nat)
    requires Inv(s) && r < |s.gates| && !s.gates[r].shut && id < |s.db.jobs| && Ready(s.db.jobs[id], now)
    requires |s.attempts| == n + 1 && s.attempts[n].raw.id == id
    requires s.attempts[n].live && s.attempts[n].cleared && s.attempts[n].run.None?
    ensures
      var t := Apply(o, PassAndStub(o, PassAndClaim(o, s, r, id, now), n + 1), InsertStub(n));
      AtWork(t, n) && AtWork(t, n + 1) && t.attempts[n].raw.id == t.attempts[n + 1].raw.id == id
  {
    var u := PassAndStub(o, PassAndClaim(o, s, r, id, now), n + 1);
    assert AtWork(u, n + 1) && u.attempts[n] == s.attempts[n] && u.attempts[n + 1].raw.id == id by {
      ClaimAndStubOne(o, s, r, id, now);
    }
    assert Inv(u) by {
      PassAndClaimKeepsInv(o, s, r, id, now);
      PassAndStubKeepsInv(o, PassAndClaim(o, s, r, id, now), n + 1);
    }
    StubGoesToWork(o, u, n, n + 1);
  }

  lemma StubGoesToWork(o: Opts, s: System, a: nat, b: nat)
    requires Inv(s) && WritesStub(s, InsertStub(a), a) && AtWork(s, b)
    ensures
      var t := Apply(o, s, InsertStub(a));
      && AtWork(t, a) && AtWork(t, b)
      && t.attempts[a].raw == s.attempts[a].raw && t.attempts[b].raw == s.attempts[b].raw
  {
    StubNeverCollides(s, a);
  }

  /** A job's work runs twice at once without anyone having allowed it: from any reachable state with a ready job
      and an open runner, a cancel and a forced retry between a claim and its stub pass the guard, and both
      attempts go to work. */
  lemma RetryBesideRunning(o: Opts, s: System, r: nat, id: nat, now: int)
    requires Inv(s) && r < |s.gates| && !s.gates[r].shut && id < |s.db.jobs| && Ready(s.db.jobs[id], now)
    ensures
      var n, t := |s.attempts|, Execute(o, s, Race(|s.attempts|, r, id, now));
      AtWork(t, n) && AtWork(t, n + 1) && t.attempts[n].raw.id == t.attempts[n + 1].raw.id == id
  {
    var n := |s.attempts|;
    RaceRuns(o, s, n, r, id, now);
    ClaimedUnseen(o, s, r, id, now);
    var claimed := Apply(o, PassAndClaim(o, s, r, id, now), PassCall(n));
    CancelledIsRetried(o, claimed, id, now);
    StepKeepsInv(o, claimed, CancelJob(id, now));
    StepKeepsInv(o, Apply(o, claimed, CancelJob(id, now)), RetryJob(id, Forced(), now));
    BothStub(o, Apply(o, Apply(o, claimed, CancelJob(id, now)), RetryJob(id, Forced(), now)), r, id, now, n);
  }
}
