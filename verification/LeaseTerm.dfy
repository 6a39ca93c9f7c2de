/**
 How long a claim is safe: the lease a claim is given, what keeps it until then, and what a
 shut gate means for it. A shut gate stops every call not already past its check, so the
 lease of a gated runner's job runs out and the sweep takes the job back.
 */
module LeaseTerm {
  import opened Options
  import opened JobTable
  import opened Lease
  import opened RowSteps
  import opened Fence

  // ---------------------------------------------------------------- what a claim is given

  /** Waiting to run, and due. */
  predicate Due(j: Job, now: int) {
    (j.state == Available || j.state == Retryable || j.state == Scheduled) && j.scheduledAt <= now
  }

  /** Rows that are due, each picked once. */
  ghost predicate Pickable(jobs: seq<Job>, picked: seq<nat>, now: int) {
    && (forall k :: 0 <= k < |picked| ==> picked[k] < |jobs| && Due(jobs[picked[k]], now))
    && (forall k, l :: 0 <= k < l < |picked| ==> picked[k] != picked[l])
  }

  /** Each picked row runs its next attempt under a lease to until and the token; no other row is touched. */
  ghost predicate RowsLeased(a: seq<Job>, b: seq<Job>, picked: seq<nat>, until: int, token: nat) {
    |b| == |a| && forall i :: 0 <= i < |a| ==>
      if i in picked
      then b[i] == a[i].(state := Running, attempt := a[i].attempt + 1, leasedUntil := Some(until),
                         token := Some(token))
      else b[i] == a[i]
  }

  /** The runner's claim of a row it picked, nothing of it done yet. */
  predicate NewClaim(j: Job, id: nat, att: Attempt, r: nat, token: nat) {
    && att.runner == r && att.live && att.run == None && !att.cleared && !att.renewing
    && att.raw.id == id && att.raw.attempt == j.attempt + 1 && att.raw.maxAttempts == j.maxAttempts
    && att.raw.parent == j.parent && att.raw.args == j.args && att.raw.token == token
  }

  ghost predicate ClaimsHeld(db: Tables, claims: seq<Attempt>, r: nat, picked: seq<nat>) {
    |claims| == |picked| && forall k :: 0 <= k < |picked| ==>
      picked[k] < |db.jobs| && NewClaim(db.jobs[picked[k]], picked[k], claims[k], r, db.nextToken)
  }

  /** A claim past its check commits exactly on rows that are due, each picked once: they are leased for the length
      asked for under one fresh token, no other row is touched, and the runner holds a claim of each. */
  lemma ClaimExact(o: Opts, s: System, r: nat, picked: seq<nat>, now: int, lease: int)
    requires r < |s.gates| && s.gates[r].passed > 0
    ensures
      var t := Apply(o, s, ClaimBatch(r, picked, now, lease));
      if Pickable(s.db.jobs, picked, now) then
        && RowsLeased(s.db.jobs, t.db.jobs, picked, now + lease, s.db.nextToken)
        && |s.attempts| <= |t.attempts| && t.attempts[..|s.attempts|] == s.attempts
        && ClaimsHeld(s.db, t.attempts[|s.attempts|..], r, picked)
        && t.db.runs == s.db.runs && t.db.nextToken > s.db.nextToken
      else t == s
  {
    PickableIff(s.db, picked, now);
    if Pickable(s.db.jobs, picked, now) {
      ClaimLeases(s.db, picked, now + lease);
      ClaimHolds(s.db, r, picked);
      var claims := NewAttempts(s.db, r, picked);
      assert (s.attempts + claims)[..|s.attempts|] == s.attempts && (s.attempts + claims)[|s.attempts|..] == claims;
    }
  }

  lemma PickableIff(db: Tables, picked: seq<nat>, now: int)
    ensures LegalPick(db, picked, now) <==> Pickable(db.jobs, picked, now)
  {
  }

  lemma ClaimLeases(db: Tables, picked: seq<nat>, until: int)
    ensures RowsLeased(db.jobs, Claim(db, picked, until).jobs, picked, until, db.nextToken)
  {
  }

  lemma ClaimHolds(db: Tables, r: nat, picked: seq<nat>)
    requires forall k :: 0 <= k < |picked| ==> picked[k] < |db.jobs|
    ensures ClaimsHeld(db, NewAttempts(db, r, picked), r, picked)
  {
  }

  /** The token is no other claim's. */
  lemma TokenIsFresh(s: System, a: nat)
    requires Inv(s) && a < |s.attempts|
    ensures s.attempts[a].raw.token != s.db.nextToken
  {
    assert AttemptOk(s.db, s.attempts[a]);
  }

  /** So a new claim outlives every sweep up to the end of its lease, and no sweep after it. */
  lemma ClaimOutlivesSweepIff(
      o: Opts, s: System, r: nat, picked: seq<nat>, now: int, lease: int, k: nat, ids: set<nat>, at: int)
    requires Inv(s) && r < |s.gates| && s.gates[r].passed > 0 && Pickable(s.db.jobs, picked, now)
    requires k < |picked| && picked[k] in ids
    ensures
      var t := Apply(o, s, ClaimBatch(r, picked, now, lease));
      && |t.attempts| == |s.attempts| + |picked|
      && HeldExactlyTo(o, t, t.attempts[|s.attempts| + k].raw, now + lease, ids, at)
  {
    var t := Apply(o, s, ClaimBatch(r, picked, now, lease));
    StepKeepsInv(o, s, ClaimBatch(r, picked, now, lease));
    ClaimedAt(o, s, r, picked, now, lease, k);
    HeldOutlivesIff(o, t, picked[k], t.attempts[|s.attempts| + k].raw, now + lease, ids, at);
  }

  lemma ClaimedAt(o: Opts, s: System, r: nat, picked: seq<nat>, now: int, lease: int, k: nat)
    requires r < |s.gates| && s.gates[r].passed > 0 && Pickable(s.db.jobs, picked, now) && k < |picked|
    ensures
      var t := Apply(o, s, ClaimBatch(r, picked, now, lease));
      && |t.attempts| == |s.attempts| + |picked| && picked[k] < |t.db.jobs|
      && var j, raw := t.db.jobs[picked[k]], t.attempts[|s.attempts| + k].raw;
         raw.id == picked[k] && j.state == Running && j.token == Some(raw.token) && j.leasedUntil == Some(now + lease)
  {
    PickableIff(s.db, picked, now);
    assert picked[k] in picked;
    assert (s.attempts + NewAttempts(s.db, r, picked))[|s.attempts| + k] == NewAttempts(s.db, r, picked)[k];
  }

  /** The claim is held, and a sweep of its job leaves it held exactly if it comes no later than until. */
  ghost predicate HeldExactlyTo(o: Opts, t: System, raw: RawJob, until: int, ids: set<nat>, at: int) {
    && Holds(t.db.jobs, raw) && raw.id in ids
    && (Holds(Apply(o, t, SweepBatch(ids, at)).db.jobs, raw) <==> at <= until)
  }

  lemma HeldOutlivesIff(o: Opts, t: System, id: nat, raw: RawJob, until: int, ids: set<nat>, at: int)
    requires Inv(t) && id < |t.db.jobs| && id in ids && raw.id == id
    requires t.db.jobs[id].state == Running && t.db.jobs[id].token == Some(raw.token)
    requires t.db.jobs[id].leasedUntil == Some(until)
    ensures HeldExactlyTo(o, t, raw, until, ids, at)
  {
    SweepReleases(o, t, id, ids, at);
    SweepMoves(o, t, ids, at);
  }

  // ---------------------------------------------------------------- the lease protects the claim

  /** Attempt a holds its job under a lease that runs to until or beyond. */
  ghost predicate HeldUntil(s: System, a: nat, until: int) {
    && a < |s.attempts| && Holds(s.db.jobs, s.attempts[a].raw)
    && s.db.jobs[s.attempts[a].raw.id].leasedUntil.Some?
    && s.db.jobs[s.attempts[a].raw.id].leasedUntil.value >= until
  }

  /** Not one of what can end the claim before until: its own finalize, a cancel or a forced retry of its job, a
      sweep of it later than until, and an earlier lease. */
  predicate Respects(act: Action, a: nat, id: nat, until: int) {
    match act
    case FinalizeAttempt(b, _, _, _) => b != a
    case CancelJob(i, _) => i != id
    case RetryJob(i, opts, _) => i != id || !opts.allowRunning
    case SweepBatch(ids, now) => id in ids ==> now <= until
    case MassExpiry(at) => at >= until
    case RenewLease(b, u) => b == a ==> u >= until
    case _ => true
  }

  lemma RespectedRow(o: Opts, s: System, act: Action, a: nat, until: int)
    requires Inv(s) && HeldUntil(s, a, until) && Respects(act, a, s.attempts[a].raw.id, until)
    ensures
      var j, k := s.db.jobs[s.attempts[a].raw.id], Moved(o, s, act, s.attempts[a].raw.id);
      k.state.Running? && k.token == j.token && k.leasedUntil.Some? && k.leasedUntil.value >= until
  {
    var id := s.attempts[a].raw.id;
    if act.FinalizeAttempt? && act.att < |s.attempts| {
      assert s.attempts[act.att].raw.id == id ==> s.attempts[act.att].raw.token != s.attempts[a].raw.token;
    } else if act.RenewLease? && act.att < |s.attempts| && act.att != a {
      assert s.attempts[act.att].raw.id == id ==> s.attempts[act.att].raw.token != s.attempts[a].raw.token;
    }
  }

  lemma RawKept(o: Opts, s: System, act: Action, a: nat)
    requires a < |s.attempts|
    ensures a < |Apply(o, s, act).attempts|
    ensures Apply(o, s, act).attempts[a].raw == s.attempts[a].raw
    ensures Apply(o, s, act).attempts[a].runner == s.attempts[a].runner
  {
  }

  /** Whatever every other runner, sweep and operator does, a claim is kept to the end of its lease. */
  lemma {:induction false} LeaseProtects(o: Opts, s: System, acts: seq<Action>, a: nat, until: int)
    requires Inv(s) && HeldUntil(s, a, until)
    requires forall k :: 0 <= k < |acts| ==> Respects(acts[k], a, s.attempts[a].raw.id, until)
    ensures HeldUntil(Execute(o, s, acts), a, until) && Execute(o, s, acts).attempts[a].raw == s.attempts[a].raw
    decreases |acts|
  {
    if |acts| > 0 {
      var t, id := Apply(o, s, acts[0]), s.attempts[a].raw.id;
      assert Respects(acts[0], a, id, until);
      StepRows(o, s, acts[0]);
      RespectedRow(o, s, acts[0], a, until);
      assert Core(t.db.jobs[id]) == Core(Moved(o, s, acts[0], id));
      RawKept(o, s, acts[0], a);
      StepKeepsInv(o, s, acts[0]);
      LeaseProtects(o, t, acts[1..], a, until);
    }
  }

  // ---------------------------------------------------------------- a shut gate stops every call

  function CountWhere(atts: seq<Attempt>, p: Attempt -> bool): nat {
    if |atts| == 0 then 0 else CountWhere(atts[..|atts| - 1], p) + (if p(atts[|atts| - 1]) then 1 else 0)
  }

  lemma {:induction false} CountUpdate(atts: seq<Attempt>, a: nat, att: Attempt, p: Attempt -> bool)
    requires a < |atts|
    ensures CountWhere(atts[a := att], p)
         == CountWhere(atts, p) + (if p(att) then 1 else 0) - (if p(atts[a]) then 1 else 0)
    decreases |atts|
  {
    var n := |atts| - 1;
    if a < n {
      assert atts[a := att][..n] == atts[..n][a := att];
      CountUpdate(atts[..n], a, att, p);
    } else {
      assert atts[a := att][..n] == atts[..n];
    }
  }

  lemma {:induction false} CountNone(atts: seq<Attempt>, more: seq<Attempt>, p: Attempt -> bool)
    requires forall a :: 0 <= a < |more| ==> !p(more[a])
    ensures CountWhere(atts + more, p) == CountWhere(atts, p)
    decreases |more|
  {
    if |more| == 0 {
      assert atts + more == atts;
    } else {
      assert (atts + more)[..|atts + more| - 1] == atts + more[..|more| - 1];
      CountNone(atts, more[..|more| - 1], p);
    }
  }

  /** Runner r's renewals that are past their check. */
  function Renewing(r: nat): Attempt -> bool {
    (att: Attempt) => att.runner == r && att.renewing
  }

  /** Runner r's stub inserts and finalizes that are past their check. */
  function Calling(r: nat): Attempt -> bool {
    (att: Attempt) => att.runner == r && att.live && att.cleared
  }

  /** The action is a renewal by runner r, and goes through to its transaction. */
  predicate Renews(o: Opts, s: System, act: Action, r: nat) {
    act.RenewLease? && act.att < |s.attempts| && s.attempts[act.att].runner == r && Apply(o, s, act) != s
  }

  /** The action is a stub insert or a finalize by runner r, and goes through to its transaction. */
  predicate Calls(o: Opts, s: System, act: Action, r: nat) {
    && (act.InsertStub? || act.FinalizeAttempt?)
    && act.att < |s.attempts| && s.attempts[act.att].runner == r && Apply(o, s, act) != s
  }

  function RenewalsMade(o: Opts, s: System, acts: seq<Action>, r: nat): nat
    decreases |acts|
  {
    if |acts| == 0 then 0
    else (if Renews(o, s, acts[0], r) then 1 else 0) + RenewalsMade(o, Apply(o, s, acts[0]), acts[1..], r)
  }

  function CallsMade(o: Opts, s: System, acts: seq<Action>, r: nat): nat
    decreases |acts|
  {
    if |acts| == 0 then 0
    else (if Calls(o, s, acts[0], r) then 1 else 0) + CallsMade(o, Apply(o, s, acts[0]), acts[1..], r)
  }

  /** How one action changes the attempts: one of them, or new ones with no call under way, or none. */
  ghost predicate OneChanged(s: System, t: System, a: nat) {
    a < |s.attempts| && |t.attempts| == |s.attempts| && t.attempts == s.attempts[a := t.attempts[a]]
    && t.attempts[a].runner == s.attempts[a].runner
  }

  lemma ShutRenewal(o: Opts, s: System, act: Action, r: nat)
    requires Shut(s, r)
    ensures
      CountWhere(Apply(o, s, act).attempts, Renewing(r)) + (if Renews(o, s, act, r) then 1 else 0)
      == CountWhere(s.attempts, Renewing(r))
  {
    var t := Apply(o, s, act);
    if act.ClaimBatch? {
      CountNone(s.attempts, t.attempts[|s.attempts|..], Renewing(r));
      assert t.attempts == s.attempts + t.attempts[|s.attempts|..];
    } else if t.attempts != s.attempts {
      assert OneChanged(s, t, act.att);
      CountUpdate(s.attempts, act.att, t.attempts[act.att], Renewing(r));
    }
  }

  lemma ShutCall(o: Opts, s: System, act: Action, r: nat)
    requires Shut(s, r)
    ensures
      CountWhere(Apply(o, s, act).attempts, Calling(r)) + (if Calls(o, s, act, r) then 1 else 0)
      <= CountWhere(s.attempts, Calling(r))
  {
    var t := Apply(o, s, act);
    if act.ClaimBatch? {
      CountNone(s.attempts, t.attempts[|s.attempts|..], Calling(r));
      assert t.attempts == s.attempts + t.attempts[|s.attempts|..];
    } else if t.attempts != s.attempts {
      assert OneChanged(s, t, act.att);
      CountUpdate(s.attempts, act.att, t.attempts[act.att], Calling(r));
    }
  }

  /** While its gate stays shut, the renewals a runner makes are those already past their check when it shut. */
  lemma {:induction false} ShutStopsRenewals(o: Opts, s: System, acts: seq<Action>, r: nat)
    requires Shut(s, r) && forall k :: 0 <= k < |acts| ==> acts[k] != OpenGate(r)
    ensures RenewalsMade(o, s, acts, r) + CountWhere(Execute(o, s, acts).attempts, Renewing(r))
         == CountWhere(s.attempts, Renewing(r))
    decreases |acts|
  {
    if |acts| > 0 {
      assert acts[0] != OpenGate(r);
      ShutStep(o, s, acts[0], r);
      ShutRenewal(o, s, acts[0], r);
      ShutStopsRenewals(o, Apply(o, s, acts[0]), acts[1..], r);
    }
  }

  /** And so are its stub inserts and finalizes, of which a process that dies makes fewer. */
  lemma {:induction false} ShutStopsCalls(o: Opts, s: System, acts: seq<Action>, r: nat)
    requires Shut(s, r) && forall k :: 0 <= k < |acts| ==> acts[k] != OpenGate(r)
    ensures CallsMade(o, s, acts, r) + CountWhere(Execute(o, s, acts).attempts, Calling(r))
         <= CountWhere(s.attempts, Calling(r))
    decreases |acts|
  {
    if |acts| > 0 {
      assert acts[0] != OpenGate(r);
      ShutStep(o, s, acts[0], r);
      ShutCall(o, s, acts[0], r);
      ShutStopsCalls(o, Apply(o, s, acts[0]), acts[1..], r);
    }
  }

  // ---------------------------------------------------------------- so its leases run out

  /** Attempt a has no renewal under way, and if it still holds its job, the lease ends by until. */
  ghost predicate RunsOut(s: System, a: nat, until: int) {
    && a < |s.attempts| && !s.attempts[a].renewing
    && (Holds(s.db.jobs, s.attempts[a].raw) ==>
          && s.db.jobs[s.attempts[a].raw.id].leasedUntil.Some?
          && s.db.jobs[s.attempts[a].raw.id].leasedUntil.value <= until)
  }

  lemma RunsOutRow(o: Opts, s: System, act: Action, a: nat, until: int)
    requires Inv(s) && RunsOut(s, a, until) && (act.MassExpiry? ==> act.at <= until)
    ensures
      var k, raw := Moved(o, s, act, s.attempts[a].raw.id), s.attempts[a].raw;
      k.state.Running? && k.token == Some(raw.token) ==> k.leasedUntil.Some? && k.leasedUntil.value <= until
  {
    var id := s.attempts[a].raw.id;
    assert AttemptOk(s.db, s.attempts[a]);
    if act.RenewLease? && act.att < |s.attempts| && act.att != a {
      assert s.attempts[act.att].raw.id == id ==> s.attempts[act.att].raw.token != s.attempts[a].raw.token;
    }
  }

  lemma StaysIdle(o: Opts, s: System, act: Action, a: nat)
    requires a < |s.attempts| && !s.attempts[a].renewing && Shut(s, s.attempts[a].runner)
    ensures a < |Apply(o, s, act).attempts| && !Apply(o, s, act).attempts[a].renewing
  {
  }

  lemma RunsOutStep(o: Opts, s: System, act: Action, a: nat, until: int)
    requires Inv(s) && RunsOut(s, a, until) && Shut(s, s.attempts[a].runner)
    requires act.MassExpiry? ==> act.at <= until
    ensures RunsOut(Apply(o, s, act), a, until)
  {
    var t, id := Apply(o, s, act), s.attempts[a].raw.id;
    assert AttemptOk(s.db, s.attempts[a]);
    assert |t.db.jobs| > id && Core(t.db.jobs[id]) == Core(Moved(o, s, act, id)) by { StepRows(o, s, act); }
    RunsOutRow(o, s, act, a, until);
    StaysIdle(o, s, act, a);
    RawKept(o, s, act, a);
  }

  /** The gate's purpose: a gated runner's job, with no renewal under way, is never leased beyond the instant its
      lease ended at when the gate shut, however the run goes on; so a sweep after that instant leaves the claim
      lost, whoever lost it. */
  lemma {:induction false} GatedLeaseRunsOut(
      o: Opts, s: System, acts: seq<Action>, a: nat, until: int, ids: set<nat>, now: int)
    requires Inv(s) && RunsOut(s, a, until) && Shut(s, s.attempts[a].runner)
    requires forall k :: 0 <= k < |acts| ==>
      acts[k] != OpenGate(s.attempts[a].runner) && (acts[k].MassExpiry? ==> acts[k].at <= until)
    requires s.attempts[a].raw.id in ids && now > until
    ensures
      var t := Execute(o, s, acts);
      RunsOut(t, a, until) && t.attempts[a].raw == s.attempts[a].raw && Stale(Apply(o, t, SweepBatch(ids, now)), a)
    decreases |acts|
  {
    if |acts| == 0 {
      assert AttemptOk(s.db, s.attempts[a]);
      var id := s.attempts[a].raw.id;
      assert RowOk(s.db.jobs[id]);
      if Holds(s.db.jobs, s.attempts[a].raw) { SweepReleases(o, s, id, ids, now); }
      else { StaleStep(o, s, SweepBatch(ids, now), a); }
    } else {
      assert acts[0] != OpenGate(s.attempts[a].runner);
      ShutStep(o, s, acts[0], s.attempts[a].runner);
      RunsOutStep(o, s, acts[0], a, until);
      RawKept(o, s, acts[0], a);
      StepKeepsInv(o, s, acts[0]);
      GatedLeaseRunsOut(o, Apply(o, s, acts[0]), acts[1..], a, until, ids, now);
    }
  }

  // ---------------------------------------------------------------- an open gate stops nothing

  /** A live attempt behind a gate that is not shut renews the claim it holds to the instant it asks for, and
      that is all its renewal writes. */
  lemma OpenGateRenews(o: Opts, s: System, a: nat, until: int)
    requires a < |s.attempts| && s.attempts[a].live && !Shut(s, s.attempts[a].runner)
    ensures
      var t, id := Execute(o, s, [PassRenewal(a), RenewLease(a, until)]), s.attempts[a].raw.id;
      && t.db == (if Holds(s.db.jobs, s.attempts[a].raw)
                  then s.db.(jobs := s.db.jobs[id := s.db.jobs[id].(leasedUntil := Some(until))]) else s.db)
      && t.gates == s.gates && t.attempts == s.attempts[a := s.attempts[a].(renewing := false)]
  {
    ExecuteTwo(o, s, PassRenewal(a), RenewLease(a, until));
  }

  /** One that has no stub yet and no call under way writes it: a started row for its own attempt. */
  lemma OpenGateStubs(o: Opts, s: System, a: nat)
    requires Inv(s) && a < |s.attempts| && s.attempts[a].live && !Shut(s, s.attempts[a].runner)
    requires s.attempts[a].run.None? && !s.attempts[a].cleared
    ensures
      var t, raw := Execute(o, s, [PassCall(a), InsertStub(a)]), s.attempts[a].raw;
      && t.db == s.db.(runs := s.db.runs + [Run(raw.id, raw.attempt, Started, false, None, None, 0)])
      && t.gates == s.gates && t.attempts == s.attempts[a := s.attempts[a].(run := Some(|s.db.runs|))]
  {
    ExecuteTwo(o, s, PassCall(a), InsertStub(a));
    StubNeverCollides(s, a);
  }

  /** Behind a shut gate the same calls write nothing: the renewal is refused, and the refused stub insert or
      finalize ends the dispatch. */
  lemma ShutGateRefuses(o: Opts, s: System, a: nat, until: int)
    requires a < |s.attempts| && s.attempts[a].live && Shut(s, s.attempts[a].runner)
    requires !s.attempts[a].cleared && !s.attempts[a].renewing
    ensures Execute(o, s, [PassRenewal(a), RenewLease(a, until)]) == s
    ensures
      Execute(o, s, [PassCall(a), InsertStub(a)]) == s.(attempts := s.attempts[a := s.attempts[a].(live := false)])
  {
    ExecuteTwo(o, s, PassRenewal(a), RenewLease(a, until));
    ExecuteTwo(o, s, PassCall(a), InsertStub(a));
  }

  // ---------------------------------------------------------------- what a renewal reports

  /** A renewal reports the claim as held exactly when it is, and then the lease is set; once it has reported it
      lost, every later one does too, however the run goes on. */
  lemma LostRenewalIsFinal(o: Opts, s: System, acts: seq<Action>, a: nat, until: int, later: int)
    requires Inv(s) && a < |s.attempts|
    ensures Renew(s.db, s.attempts[a].raw, until).1 <==> !Stale(s, a)
    ensures
      var next := Renew(s.db, s.attempts[a].raw, until);
      if next.1 then |next.0.jobs| == |s.db.jobs| && next.0.jobs[s.attempts[a].raw.id].leasedUntil == Some(until)
      else next.0 == s.db
    ensures !Renew(s.db, s.attempts[a].raw, until).1 ==>
      var t := Execute(o, s, acts);
      a < |t.attempts| && !Renew(t.db, t.attempts[a].raw, later).1
  {
    assert AttemptOk(s.db, s.attempts[a]);
    assert RowOk(s.db.jobs[s.attempts[a].raw.id]);
    if Stale(s, a) { StaleForever(o, s, acts, a); }
  }

  // ---------------------------------------------------------------- the gate's modes

  /** Shutting, arming and reopening a gate set its modes and nothing else, here or at any other gate; a runner
      whose gate was reopened, whatever was done to it before, renews its claims and is not refused a finalize. */
  lemma GateModes(o: Opts, s: System, r: nat, a: nat)
    requires r < |s.gates|
    ensures
      var g := s.gates[r];
      && Apply(o, s, ShutGate(r)) == s.(gates := s.gates[r := Gate(true, g.kill, g.orphaned, g.passed)])
      && Apply(o, s, KillGate(r)) == s.(gates := s.gates[r := Gate(g.shut, true, g.orphaned, g.passed)])
      && Apply(o, s, OpenGate(r)) == s.(gates := s.gates[r := Gate(false, false, g.orphaned, g.passed)])
    ensures a < |s.attempts| && s.attempts[a].runner == r && s.attempts[a].live ==>
      var t := Apply(o, s, OpenGate(r));
      && Apply(o, t, PassRenewal(a)).attempts[a].renewing
      && Apply(o, t, PassCall(a)).attempts[a].cleared && Apply(o, t, PassCall(a)).attempts[a].live
  {
  }

  // ---------------------------------------------------------------- one check per call, none from the dead

  /** The attempt's own next calls, or its process dying. */
  predicate ByAttempt(act: Action, a: nat) {
    (act.InsertStub? || act.FinalizeAttempt? || act.Die?) && act.att == a
  }

  /** A call past its check stands, whatever becomes of the gate: until the attempt makes it or dies, nothing takes
      it back and it is not checked again. */
  lemma {:induction false} CheckedCallStands(o: Opts, s: System, acts: seq<Action>, a: nat)
    requires a < |s.attempts| && s.attempts[a].live && s.attempts[a].cleared
    requires forall k :: 0 <= k < |acts| ==> !ByAttempt(acts[k], a)
    ensures
      var t := Execute(o, s, acts);
      && a < |t.attempts| && t.attempts[a] == s.attempts[a].(renewing := t.attempts[a].renewing)
      && Apply(o, t, PassCall(a)) == t
    decreases |acts|
  {
    if |acts| > 0 {
      assert !ByAttempt(acts[0], a);
      CheckedCallStep(o, s, acts[0], a);
      CheckedCallStands(o, Apply(o, s, acts[0]), acts[1..], a);
    }
  }

  lemma CheckedCallStep(o: Opts, s: System, act: Action, a: nat)
    requires a < |s.attempts| && s.attempts[a].live && s.attempts[a].cleared && !ByAttempt(act, a)
    ensures
      var t := Apply(o, s, act);
      a < |t.attempts| && t.attempts[a] == s.attempts[a].(renewing := t.attempts[a].renewing)
  {
  }

  /** An attempt whose dispatch is over, or whose process is dead, makes no call in any continuation: no check of
      its own reaches a gate or is counted there, and no stub or outcome of its is written. */
  lemma {:induction false} DeadMakeNoCalls(
      o: Opts, s: System, acts: seq<Action>, a: nat, result: Result, err: Option<WorkError>, now: int)
    requires a < |s.attempts| && !s.attempts[a].live
    ensures
      var t := Execute(o, s, acts);
      && a < |t.attempts| && !t.attempts[a].live
      && Apply(o, t, PassCall(a)) == t && Apply(o, t, PassRenewal(a)) == t && Apply(o, t, InsertStub(a)) == t
      && Apply(o, t, FinalizeAttempt(a, result, err, now)) == t
    decreases |acts|
  {
    if |acts| > 0 {
      StaysDead(o, s, acts[0], a);
      DeadMakeNoCalls(o, Apply(o, s, acts[0]), acts[1..], a, result, err, now);
    }
  }

  lemma StaysDead(o: Opts, s: System, act: Action, a: nat)
    requires a < |s.attempts| && !s.attempts[a].live
    ensures a < |Apply(o, s, act).attempts| && !Apply(o, s, act).attempts[a].live
  {
  }

  /** A process that dies leaves both tables and every gate as they are, and its attempt is silent from then on. */
  lemma DeathIsFinal(o: Opts, s: System, acts: seq<Action>, a: nat, result: Result, err: Option<WorkError>, now: int)
    requires a < |s.attempts|
    ensures
      var d := Apply(o, s, Die(a));
      && d.db == s.db && d.gates == s.gates && d.attempts == s.attempts[a := s.attempts[a].(live := false)]
      && var t := Execute(o, d, acts);
         Apply(o, t, PassCall(a)) == t && Apply(o, t, FinalizeAttempt(a, result, err, now)) == t
  {
    DeadMakeNoCalls(o, Apply(o, s, Die(a)), acts, a, result, err, now);
  }
}
