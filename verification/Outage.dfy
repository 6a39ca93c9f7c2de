/**
 The downstream-outage run on the advanceable clock: runners claim and finish jobs at
 the present instant, an attempt that reads the outage switch inside its window fails and
 is rescheduled by its backoff, and one advancer looks at the table and then, separately,
 moves the clock. A run is any interleaving of these steps; an impossible step changes
 nothing.
 */
module Outage {
  import opened Options
  import opened JobTable

  /** read is what the running attempt saw of the outage switch, once it has looked. */
  datatype Item = Item(
    state: JobState,
    scheduledAt: int,
    attempt: nat,
    maxAttempts: nat,
    failures: nat,
    read: Option<bool>)

  /** Between ticks, committed to an advance it has computed, or returned. */
  datatype Advancer = Watching | Moving(target: int) | Finished

  /** moves counts the advances made. Times are nanoseconds. */
  datatype World = World(now: int, end: Option<int>, items: seq<Item>, advancer: Advancer, moves: nat)

  datatype Step = Claim(item: nat) | Read(item: nat) | Finish(item: nat) | Observe | Move

  /** The backoff, jittered per job and attempt. */
  type Delays = (nat, nat) -> int

  /** The nudge past the target instant, one microsecond. */
  const NUDGE: int := 1000

  predicate Actionable(i: Item, now: int) {
    i.state.Running? || (Claimable(i.state) && i.scheduledAt <= now)
  }

  predicate Pending(i: Item, now: int) {
    Claimable(i.state) && i.scheduledAt > now
  }

  predicate AnyActionable(items: seq<Item>, now: int) {
    exists j :: 0 <= j < |items| && Actionable(items[j], now)
  }

  predicate Failing(w: World) {
    w.end.Some? && w.now < w.end.value
  }

  /** min(scheduled_at) over the pending jobs. */
  function Earliest(items: seq<Item>, now: int): (r: Option<int>)
    ensures r.None? ==> forall j :: 0 <= j < |items| ==> !Pending(items[j], now)
    ensures r.Some? ==> exists j :: 0 <= j < |items| && Pending(items[j], now) && items[j].scheduledAt == r.value
    ensures r.Some? ==> forall j :: 0 <= j < |items| && Pending(items[j], now) ==> r.value <= items[j].scheduledAt
  {
    if |items| == 0 then None else
    var rest := Earliest(items[..|items| - 1], now);
    var last := items[|items| - 1];
    if !Pending(last, now) then rest
    else if rest.Some? && rest.value <= last.scheduledAt then rest
    else Some(last.scheduledAt)
  }

  /** max(scheduled_at) over the pending jobs. */
  function Latest(items: seq<Item>, now: int): (r: Option<int>)
    ensures r.None? ==> forall j :: 0 <= j < |items| ==> !Pending(items[j], now)
    ensures r.Some? ==> exists j :: 0 <= j < |items| && Pending(items[j], now) && items[j].scheduledAt == r.value
    ensures r.Some? ==> forall j :: 0 <= j < |items| && Pending(items[j], now) ==> items[j].scheduledAt <= r.value
  {
    if |items| == 0 then None else
    var rest := Latest(items[..|items| - 1], now);
    var last := items[|items| - 1];
    if !Pending(last, now) then rest
    else if rest.Some? && last.scheduledAt <= rest.value then rest
    else Some(last.scheduledAt)
  }

  /** One look at the table. With fine set, the reference policy that always steps to the earliest pending
      instant; without it, the harness's: the latest, unless that reaches the end of the outage. */
  function Look(w: World, fine: bool): Advancer {
    var min, max := Earliest(w.items, w.now), Latest(w.items, w.now);
    if AnyActionable(w.items, w.now) then Watching
    else if min.None? || max.None? then Finished
    else if fine || (w.end.Some? && w.end.value <= max.value) then Moving(min.value)
    else Moving(max.value)
  }

  function Begun(i: Item): Item {
    i.(state := Running, attempt := i.attempt + 1, read := None)
  }

  /** The worker reads the switch and, inside the window, counts the failure. */
  function Sampled(w: World, i: Item): Item {
    i.(read := Some(Failing(w)), failures := if Failing(w) then i.failures + 1 else i.failures)
  }

  /** The attempt's end, by what it read: a failure is rescheduled unless the budget is spent. */
  function Ended(i: Item, now: int, delay: int): Item {
    if i.read != Some(true) then i.(state := Succeeded)
    else if i.attempt >= i.maxAttempts then i.(state := Discarded)
    else i.(state := Retryable, scheduledAt := now + delay)
  }

  function Next(w: World, step: Step, fine: bool, d: Delays): World {
    match step
    case Claim(j) =>
      if j < |w.items| && Claimable(w.items[j].state) && w.items[j].scheduledAt <= w.now
      then w.(items := w.items[j := Begun(w.items[j])])
      else w
    case Read(j) =>
      if j < |w.items| && w.items[j].state.Running? && w.items[j].read.None?
      then w.(items := w.items[j := Sampled(w, w.items[j])])
      else w
    case Finish(j) =>
      if j < |w.items| && w.items[j].state.Running? && w.items[j].read.Some?
      then w.(items := w.items[j := Ended(w.items[j], w.now, d(j, w.items[j].attempt))])
      else w
    case Observe => if w.advancer.Watching? then w.(advancer := Look(w, fine)) else w
    case Move =>
      if !w.advancer.Moving? then w else
      var to := w.advancer.target + NUDGE;
      w.(now := if to <= w.now then w.now else to, advancer := Watching, moves := w.moves + 1)
  }

  function Drive(w: World, steps: seq<Step>, fine: bool, d: Delays): World
    decreases |steps|
  {
    if |steps| == 0 then w else Drive(Next(w, steps[0], fine, d), steps[1..], fine, d)
  }

  // ---------------------------------------------------------------- the advancer, over every run

  predicate ItemOk(i: Item) {
    && (Claimable(i.state) ==> i.attempt < i.maxAttempts)
    && (i.state.Running? ==> 1 <= i.attempt <= i.maxAttempts)
  }

  /** A committed advance still finds the table as it was seen: nothing running, nothing due, and its target
      the instant of some pending job. A finished advancer finds nothing to run, ever. */
  ghost predicate Sound(w: World) {
    && (forall j :: 0 <= j < |w.items| ==> ItemOk(w.items[j]))
    && (!w.advancer.Watching? ==> !AnyActionable(w.items, w.now))
    && (w.advancer.Moving? ==>
          exists j :: 0 <= j < |w.items| && Pending(w.items[j], w.now) && w.items[j].scheduledAt == w.advancer.target)
    && (w.advancer.Finished? ==> forall j :: 0 <= j < |w.items| ==> !Pending(w.items[j], w.now))
  }

  lemma StepKeepsSound(w: World, step: Step, fine: bool, d: Delays)
    requires Sound(w)
    ensures Sound(Next(w, step, fine, d))
  {
  }

  /** In every interleaving: the clock moves only when no job is running or due, only forward, and each move
      makes a job that was waiting due; once the advancer has returned, no job is running or claimable. */
  lemma AdvancerStep(w: World, step: Step, fine: bool, d: Delays)
    requires Sound(w)
    ensures
      var v := Next(w, step, fine, d);
      && w.now <= v.now
      && (v.now != w.now || v.moves != w.moves ==>
            && !AnyActionable(w.items, w.now) && w.now < v.now
            && exists j :: 0 <= j < |w.items| && Pending(w.items[j], w.now) && Actionable(v.items[j], v.now))
      && (v.advancer.Finished? ==>
            forall j :: 0 <= j < |v.items| ==> !Claimable(v.items[j].state) && !v.items[j].state.Running?)
  {
  }

  lemma {:induction false} RunKeepsSound(w: World, steps: seq<Step>, fine: bool, d: Delays)
    requires Sound(w)
    ensures Sound(Drive(w, steps, fine, d)) && w.now <= Drive(w, steps, fine, d).now
    decreases |steps|
  {
    if |steps| > 0 {
      AdvancerStep(w, steps[0], fine, d);
      StepKeepsSound(w, steps[0], fine, d);
      RunKeepsSound(Next(w, steps[0], fine, d), steps[1..], fine, d);
    }
  }

  // ---------------------------------------------------------------- termination

  /** Claims, reads and finishes a job can still go through. */
  function Left(i: Item): nat
    requires ItemOk(i)
  {
    if i.state.Running? then 3 * (i.maxAttempts - i.attempt) + (if i.read.None? then 2 else 1)
    else if Claimable(i.state) then 3 * (i.maxAttempts - i.attempt)
    else 0
  }

  ghost predicate AllOk(items: seq<Item>) {
    forall j :: 0 <= j < |items| ==> ItemOk(items[j])
  }

  ghost function TotalLeft(items: seq<Item>): nat
    requires AllOk(items)
  {
    if |items| == 0 then 0 else TotalLeft(items[..|items| - 1]) + Left(items[|items| - 1])
  }

  lemma {:induction false} TotalLeftUpdate(items: seq<Item>, j: nat, i: Item)
    requires AllOk(items) && j < |items| && ItemOk(i)
    ensures TotalLeft(items[j := i]) == TotalLeft(items) - Left(items[j]) + Left(i)
    decreases |items|
  {
    var n := |items| - 1;
    if j < n {
      assert items[j := i][..n] == items[..n][j := i];
      TotalLeftUpdate(items[..n], j, i);
    } else {
      assert items[j := i][..n] == items[..n];
    }
  }

  /** What is left of the drain: three per job step, and what the advancer may still do before one. */
  ghost function Measure(w: World): nat
    requires Sound(w)
  {
    3 * TotalLeft(w.items)
    + (match w.advancer
       case Finished => 0
       case Moving(_) => 1
       case Watching => if AnyActionable(w.items, w.now) then 0 else 2)
  }

  lemma StepDecreases(w: World, step: Step, fine: bool, d: Delays)
    requires Sound(w)
    ensures Sound(Next(w, step, fine, d))
    ensures Next(w, step, fine, d) != w ==> Measure(Next(w, step, fine, d)) < Measure(w)
  {
    StepKeepsSound(w, step, fine, d);
    AdvancerStep(w, step, fine, d);
    var v := Next(w, step, fine, d);
    if (step.Claim? || step.Read? || step.Finish?) && v != w {
      TotalLeftUpdate(w.items, step.item, v.items[step.item]);
    }
  }

  /** Every step of the list changes something. */
  ghost predicate Effective(w: World, steps: seq<Step>, fine: bool, d: Delays)
    decreases |steps|
  {
    |steps| > 0 ==> Next(w, steps[0], fine, d) != w && Effective(Next(w, steps[0], fine, d), steps[1..], fine, d)
  }

  /** The drain terminates: no run takes more effective steps than the measure (three for each claim, read and
      finish the jobs can still go through, and at most two more); and until the advancer has returned some step
      is possible. */
  lemma {:induction false} DrainTerminates(w: World, steps: seq<Step>, fine: bool, d: Delays)
    requires Sound(w) && Effective(w, steps, fine, d)
    ensures Sound(Drive(w, steps, fine, d))
    ensures |steps| + Measure(Drive(w, steps, fine, d)) <= Measure(w)
    ensures !Drive(w, steps, fine, d).advancer.Finished? ==>
              exists step :: Next(Drive(w, steps, fine, d), step, fine, d) != Drive(w, steps, fine, d)
    decreases |steps|
  {
    if |steps| == 0 {
      if !w.advancer.Finished? { SomeStep(w, fine, d); }
    } else {
      StepDecreases(w, steps[0], fine, d);
      DrainTerminates(Next(w, steps[0], fine, d), steps[1..], fine, d);
    }
  }

  lemma SomeStep(w: World, fine: bool, d: Delays)
    requires Sound(w) && !w.advancer.Finished?
    ensures exists step :: Next(w, step, fine, d) != w
  {
    if AnyActionable(w.items, w.now) {
      var j :| 0 <= j < |w.items| && Actionable(w.items[j], w.now);
      if w.items[j].state.Running? && w.items[j].read.None? {
        var v := Next(w, Read(j), fine, d);
        assert v.items[j].read.Some?;
      } else if w.items[j].state.Running? {
        var v := Next(w, Finish(j), fine, d);
        assert !v.items[j].state.Running?;
      } else {
        var v := Next(w, Claim(j), fine, d);
        assert v.items[j].state.Running?;
      }
    } else if w.advancer.Moving? {
      assert Next(w, Move, fine, d).moves == w.moves + 1;
    } else {
      assert !Next(w, Observe, fine, d).advancer.Watching?;
    }
  }

  /** Every drain can be driven to its end. */
  lemma {:induction false} DrainExists(w: World, fine: bool, d: Delays) returns (steps: seq<Step>)
    requires Sound(w)
    ensures Drive(w, steps, fine, d).advancer.Finished?
    decreases Measure(w)
  {
    if w.advancer.Finished? {
      steps := [];
    } else {
      SomeStep(w, fine, d);
      var step :| Next(w, step, fine, d) != w;
      StepDecreases(w, step, fine, d);
      var rest := DrainExists(Next(w, step, fine, d), fine, d);
      steps := [step] + rest;
      assert steps[1..] == rest;
    }
  }
}
