/**
 The fault gate at the granularity of its atomic loads and stores: any number of
 driver calls check it while faults arm, shut and reopen it. A run is any list of
 steps; a step that is not possible changes nothing.
 */
module FaultGate {

  /** Where a call is in check or checkFinalize. */
  datatype Pc =
    | Entered       // about to load shut
    | ShutClear     // a finalize that read shut == false, about to load kill
    | KillSeen      // a finalize that read kill == true, about to count itself
    | Counted       // counted as an orphan, about to store shut
    | Passed        // reached the driver
    | Refused       // returned ErrGated

  datatype Call = Call(finalize: bool, pc: Pc, orphan: bool)

  /** opening counts openGate calls between their two stores. */
  datatype State = State(shut: bool, kill: bool, orphaned: nat, calls: seq<Call>, opening: nat)

  datatype Step = Enter(finalize: bool) | Advance(call: nat) | StoreKill | StoreShut | OpenShut | OpenKill

  function Initial(): State { State(false, false, 0, [], 0) }

  function AdvanceCall(s: State, c: nat): State
    requires c < |s.calls|
  {
    var call := s.calls[c];
    match call.pc
    case Entered =>
      var pc := if s.shut then Refused else if call.finalize then ShutClear else Passed;
      s.(calls := s.calls[c := call.(pc := pc)])
    case ShutClear => s.(calls := s.calls[c := call.(pc := if s.kill then KillSeen else Passed)])
    case KillSeen => s.(orphaned := s.orphaned + 1, calls := s.calls[c := call.(pc := Counted, orphan := true)])
    case Counted => s.(shut := true, calls := s.calls[c := call.(pc := Refused)])
    case Passed => s
    case Refused => s
  }

  function Next(s: State, step: Step): State {
    match step
    case Enter(f) => s.(calls := s.calls + [Call(f, Entered, false)])
    case Advance(c) => if c < |s.calls| then AdvanceCall(s, c) else s
    case StoreKill => s.(kill := true)
    case StoreShut => s.(shut := true)
    case OpenShut => s.(shut := false, opening := s.opening + 1)
    case OpenKill => if s.opening > 0 then s.(kill := false, opening := s.opening - 1) else s
  }

  function Run(s: State, steps: seq<Step>): State
    decreases |steps|
  {
    if |steps| == 0 then s else Run(Next(s, steps[0]), steps[1..])
  }

  predicate Without(steps: seq<Step>, banned: set<Step>) {
    forall k :: 0 <= k < |steps| ==> steps[k] !in banned
  }

  // ---------------------------------------------------------------- what an armed or shut gate blocks

  /** While kill stays armed, no finalize whose check starts after it was armed reaches the driver. */
  lemma {:induction false} KillBlocksFinalizes(s: State, steps: seq<Step>, from: nat)
    requires s.kill && Without(steps, {OpenKill})
    requires forall c :: from <= c < |s.calls| && s.calls[c].finalize ==> !s.calls[c].pc.Passed?
    ensures
      var t := Run(s, steps);
      t.kill && forall c :: from <= c < |t.calls| && t.calls[c].finalize ==> !t.calls[c].pc.Passed?
    decreases |steps|
  {
    if |steps| > 0 {
      assert steps[0] !in {OpenKill};
      KillBlocksFinalizes(Next(s, steps[0]), steps[1..], from);
    }
  }

  /** Not yet checked, or turned away at the shut load. */
  predicate Outside(call: Call) {
    (call.pc.Entered? || call.pc.Refused?) && !call.orphan
  }

  /** While shut stays stored, no call of any kind whose check starts after it reaches the driver or even the
      kill flag. */
  lemma {:induction false} ShutBlocksAll(s: State, steps: seq<Step>, from: nat)
    requires s.shut && Without(steps, {OpenShut})
    requires forall c :: from <= c < |s.calls| ==> Outside(s.calls[c])
    ensures
      var t := Run(s, steps);
      t.shut && forall c :: from <= c < |t.calls| ==> Outside(t.calls[c])
    decreases |steps|
  {
    if |steps| > 0 {
      assert steps[0] !in {OpenShut};
      ShutBlocksAll(Next(s, steps[0]), steps[1..], from);
    }
  }

  ghost predicate NoOpen(steps: seq<Step>) { Without(steps, {OpenShut, OpenKill}) }

  /** Without a reopen, a refused call left the gate shut, and an unshut gate has refused nobody. */
  ghost predicate RefusedMeansShut(s: State) {
    forall c :: 0 <= c < |s.calls| && s.calls[c].pc.Refused? ==> s.shut
  }

  lemma {:induction false} RefusalsShut(s: State, steps: seq<Step>)
    requires RefusedMeansShut(s) && NoOpen(steps)
    ensures RefusedMeansShut(Run(s, steps))
    decreases |steps|
  {
    if |steps| > 0 {
      assert steps[0] !in {OpenShut, OpenKill};
      RefusalsShut(Next(s, steps[0]), steps[1..]);
    }
  }

  lemma {:induction false} RunTail(s: State, steps: seq<Step>, more: seq<Step>)
    ensures Run(s, steps + more) == Run(Run(s, steps), more)
    decreases |steps|
  {
    if |steps| == 0 {
      assert steps + more == more;
    } else {
      assert (steps + more)[1..] == steps[1..] + more;
      RunTail(Next(s, steps[0]), steps[1..], more);
    }
  }

  /** Once one call has been refused, no call whose check starts later gets through until a reopen. */
  lemma OneRefusedAllRefused(steps: seq<Step>, more: seq<Step>, c: nat)
    requires NoOpen(steps) && NoOpen(more)
    requires c < |Run(Initial(), steps).calls| && Run(Initial(), steps).calls[c].pc.Refused?
    ensures
      var s := Run(Initial(), steps);
      var t := Run(Initial(), steps + more);
      forall d :: |s.calls| <= d < |t.calls| ==> Outside(t.calls[d])
  {
    var s := Run(Initial(), steps);
    RefusalsShut(Initial(), steps);
    RunTail(Initial(), steps, more);
    ShutBlocksAll(s, more, |s.calls|);
  }

  // ---------------------------------------------------------------- the orphan count

  function Orphans(calls: seq<Call>): nat {
    if |calls| == 0 then 0 else Orphans(calls[..|calls| - 1]) + (if calls[|calls| - 1].orphan then 1 else 0)
  }

  /** Past the shut load and not yet returned. */
  predicate InKillCheck(call: Call) {
    call.pc.ShutClear? || call.pc.KillSeen? || call.pc.Counted?
  }

  /** A call is an orphan from its count on, and only a finalize gets past the shut load without passing. */
  predicate FlagOk(call: Call) {
    && (call.orphan ==> call.pc.Counted? || call.pc.Refused?)
    && (call.pc.Counted? ==> call.orphan)
    && (InKillCheck(call) ==> call.finalize)
  }

  ghost predicate FlagsOk(s: State) {
    (forall c :: 0 <= c < |s.calls| ==> FlagOk(s.calls[c])) && s.orphaned == Orphans(s.calls)
  }

  lemma {:induction false} OrphansUpdate(calls: seq<Call>, c: nat, call: Call)
    requires c < |calls|
    ensures Orphans(calls[c := call])
         == Orphans(calls) - (if calls[c].orphan then 1 else 0) + (if call.orphan then 1 else 0)
    decreases |calls|
  {
    var n := |calls| - 1;
    if c < n {
      assert calls[c := call][..n] == calls[..n][c := call];
      OrphansUpdate(calls[..n], c, call);
    } else {
      assert calls[c := call][..n] == calls[..n];
    }
  }

  lemma AdvanceKeepsFlags(s: State, c: nat)
    requires FlagsOk(s) && c < |s.calls|
    ensures FlagsOk(AdvanceCall(s, c))
  {
    var moved := AdvanceCall(s, c).calls[c];
    assert FlagOk(s.calls[c]) && FlagOk(moved);
    assert AdvanceCall(s, c).calls == s.calls[c := moved];
    OrphansUpdate(s.calls, c, moved);
  }

  lemma EnterKeepsFlags(s: State, f: bool)
    requires FlagsOk(s)
    ensures FlagsOk(Next(s, Enter(f)))
  {
  }

  lemma StepKeepsFlags(s: State, step: Step)
    requires FlagsOk(s)
    ensures FlagsOk(Next(s, step))
  {
    match step {
      case Advance(c) => if c < |s.calls| { AdvanceKeepsFlags(s, c); }
      case Enter(f) => EnterKeepsFlags(s, f);
      case _ => assert Next(s, step).calls == s.calls && Next(s, step).orphaned == s.orphaned;
    }
  }

  /** In every run, reopened or not: the orphan counter is the number of finalizes kill mode has blocked. */
  lemma {:induction false} OrphanFlags(s: State, steps: seq<Step>)
    requires FlagsOk(s)
    ensures FlagsOk(Run(s, steps))
    decreases |steps|
  {
    if |steps| > 0 {
      StepKeepsFlags(s, steps[0]);
      OrphanFlags(Next(s, steps[0]), steps[1..]);
    }
  }

  function Checking(calls: seq<Call>): nat {
    if |calls| == 0 then 0 else Checking(calls[..|calls| - 1]) + (if InKillCheck(calls[|calls| - 1]) then 1 else 0)
  }

  /** The finalizes between their shut load and their return. */
  function InCheck(calls: seq<Call>): set<nat> {
    set c | 0 <= c < |calls| && InKillCheck(calls[c])
  }

  lemma {:induction false} CheckingCount(calls: seq<Call>)
    ensures Checking(calls) == |InCheck(calls)|
  {
    if |calls| > 0 {
      var n := |calls| - 1;
      CheckingCount(calls[..n]);
      assert InCheck(calls) == InCheck(calls[..n]) + (if InKillCheck(calls[n]) then {n} else {});
    }
  }

  /** Every orphan was already past its shut load in the earlier state. */
  ghost predicate OrphansFrom(s: State, t: State) {
    |s.calls| <= |t.calls| && forall c :: 0 <= c < |t.calls| ==> OrphanFrom(s.calls, c, t.calls[c])
  }

  predicate OrphanFrom(before: seq<Call>, c: nat, call: Call) {
    call.orphan || InKillCheck(call) ==> c < |before| && InKillCheck(before[c])
  }

  lemma {:induction false} OrphansTraceBack(s: State, t: State, steps: seq<Step>)
    requires t.shut && NoOpen(steps) && OrphansFrom(s, t)
    ensures OrphansFrom(s, Run(t, steps))
    decreases |steps|
  {
    if |steps| > 0 {
      assert steps[0] !in {OpenShut, OpenKill};
      OrphansTraceBack(s, Next(t, steps[0]), steps[1..]);
    }
  }

  lemma {:induction false} OrphansBounded(s: seq<Call>, t: seq<Call>)
    requires |s| <= |t|
    requires forall c :: 0 <= c < |t| ==> OrphanFrom(s, c, t[c])
    ensures Orphans(t) <= Checking(s)
    decreases |t|
  {
    if |t| > |s| {
      OrphansBounded(s, t[..|t| - 1]);
    } else if |t| > 0 {
      OrphansBounded(s[..|s| - 1], t[..|t| - 1]);
    }
  }

  /** The gate shuts once for good: however the run goes on, the orphans number at most the finalizes that
      were between their shut load and their return at the moment the gate first shut. */
  lemma OrphansBoundedAtShut(steps: seq<Step>, step: Step, more: seq<Step>)
    requires NoOpen(steps) && NoOpen(more)
    requires !Run(Initial(), steps).shut && Next(Run(Initial(), steps), step).shut
    ensures Run(Next(Run(Initial(), steps), step), more).orphaned <= |InCheck(Run(Initial(), steps).calls)|
  {
    var s := Run(Initial(), steps);
    var t := Next(s, step);
    RefusalsShut(Initial(), steps);
    OrphanFlags(Initial(), steps);
    FirstShut(s, step);
    OrphansTraceBack(s, t, more);
    OrphanFlags(t, more);
    OrphansCounted(s, Run(t, more));
  }

  lemma FirstShut(s: State, step: Step)
    requires FlagsOk(s) && RefusedMeansShut(s) && !s.shut && Next(s, step).shut
    ensures FlagsOk(Next(s, step)) && OrphansFrom(s, Next(s, step))
  {
    StepKeepsFlags(s, step);
  }

  lemma OrphansCounted(s: State, t: State)
    requires FlagsOk(t) && OrphansFrom(s, t)
    ensures t.orphaned <= |InCheck(s.calls)|
  {
    OrphansBounded(s.calls, t.calls);
    CheckingCount(s.calls);
  }

  /** Kill mode leaves an orphan by construction: with no other shut and no reopen, once any call has been
      refused at least one finalize has been counted. */
  lemma {:induction false} KillLeavesOrphan(s: State, steps: seq<Step>)
    requires FlagsOk(s) && (s.shut ==> s.orphaned >= 1) && RefusedMeansShut(s)
    requires Without(steps, {OpenShut, OpenKill, StoreShut})
    ensures
      var t := Run(s, steps);
      && (t.shut ==> t.orphaned >= 1)
      && (forall c :: 0 <= c < |t.calls| && t.calls[c].pc.Refused? ==> t.orphaned >= 1)
    decreases |steps|
  {
    if |steps| > 0 {
      assert steps[0] !in {OpenShut, OpenKill, StoreShut};
      StepKeepsFlags(s, steps[0]);
      if steps[0].Advance? && steps[0].call < |s.calls| && s.calls[steps[0].call].pc.Counted? {
        OrphansPositive(s.calls, steps[0].call);
      }
      KillLeavesOrphan(Next(s, steps[0]), steps[1..]);
    }
  }

  lemma {:induction false} OrphansPositive(calls: seq<Call>, c: nat)
    requires c < |calls| && calls[c].orphan
    ensures Orphans(calls) >= 1
    decreases |calls|
  {
    if c < |calls| - 1 { OrphansPositive(calls[..|calls| - 1], c); }
  }

  /** A gate no fault has touched refuses nothing: it stays open, and counts no orphan, over every interleaving of
      calls, however many are in it at once. */
  lemma {:induction false} UntouchedGateRefusesNothing(s: State, steps: seq<Step>)
    requires s == Initial() || Untouched(s)
    requires OnlyCalls(steps)
    ensures Untouched(Run(s, steps))
    decreases |steps|
  {
    if |steps| > 0 {
      assert steps[0].Enter? || steps[0].Advance?;
      UntouchedGateRefusesNothing(Next(s, steps[0]), steps[1..]);
    }
  }

  ghost predicate Untouched(s: State) {
    && !s.shut && !s.kill && s.orphaned == 0 && s.opening == 0
    && forall c :: 0 <= c < |s.calls| ==> s.calls[c].pc.Entered? || s.calls[c].pc.ShutClear? || s.calls[c].pc.Passed?
  }

  // ---------------------------------------------------------------- reopening

  /** A finalize that has read kill == true will store shut, whatever has been cleared since. */
  predicate WillShut(call: Call) {
    call.pc.KillSeen? || call.pc.Counted?
  }

  predicate OnlyCalls(steps: seq<Step>) {
    forall k :: 0 <= k < |steps| ==> steps[k].Enter? || steps[k].Advance?
  }

  lemma {:induction false} ReopenedStaysOpen(s: State, steps: seq<Step>)
    requires !s.shut && !s.kill && OnlyCalls(steps)
    requires forall c :: 0 <= c < |s.calls| ==> !WillShut(s.calls[c])
    ensures !Run(s, steps).shut
    decreases |steps|
  {
    if |steps| > 0 {
      assert steps[0].Enter? || steps[0].Advance?;
      ReopenedStaysOpen(Next(s, steps[0]), steps[1..]);
    }
  }

  lemma PendingKillShuts(s: State, c: nat)
    requires c < |s.calls| && WillShut(s.calls[c])
    ensures Run(s, [Advance(c), Advance(c)]).shut || Run(s, [Advance(c)]).shut
  {
    assert [Advance(c), Advance(c)][1..] == [Advance(c)] && [Advance(c)][1..] == [];
    assert Run(s, [Advance(c), Advance(c)]) == Run(Next(s, Advance(c)), [Advance(c)]);
    assert Run(s, [Advance(c)]) == Run(Next(s, Advance(c)), []);
  }

  /** openGate is two stores, not one. After it returns, with no further fault, the gate stays open under
      every continuation exactly when no finalize had already read the kill flag; one that had re-shuts it. */
  lemma ReopenSticksIff(s: State)
    requires !s.shut && !s.kill
    ensures (forall steps :: OnlyCalls(steps) ==> !Run(s, steps).shut)
       <==> (forall c :: 0 <= c < |s.calls| ==> !WillShut(s.calls[c]))
  {
    if forall c :: 0 <= c < |s.calls| ==> !WillShut(s.calls[c]) {
      forall steps | OnlyCalls(steps) ensures !Run(s, steps).shut { ReopenedStaysOpen(s, steps); }
    } else {
      var c :| 0 <= c < |s.calls| && WillShut(s.calls[c]);
      PendingKillShuts(s, c);
      assert OnlyCalls([Advance(c)]) && OnlyCalls([Advance(c), Advance(c)]);
    }
  }

  /** A pause that never meets an armed kill always reopens: no call is ever past a true kill load. */
  lemma {:induction false} NeverArmedNeverPending(s: State, steps: seq<Step>)
    requires !s.kill && Without(steps, {StoreKill})
    requires forall c :: 0 <= c < |s.calls| ==> !WillShut(s.calls[c])
    ensures
      var t := Run(s, steps);
      !t.kill && t.orphaned == s.orphaned && forall c :: 0 <= c < |t.calls| ==> !WillShut(t.calls[c])
    decreases |steps|
  {
    if |steps| > 0 {
      assert steps[0] !in {StoreKill};
      NeverArmedNeverPending(Next(s, steps[0]), steps[1..]);
    }
  }

  /** The race is real: a completed openGate, then a shut gate, with no fault stored in between. */
  lemma ReopenRace()
    ensures
      var before := Run(Initial(), [StoreKill, Enter(true), Advance(0), Advance(0), OpenShut, OpenKill]);
      var after := Run(before, [Advance(0), Advance(0)]);
      !before.shut && !before.kill && before.opening == 0 && after.shut
  {
  }
}
