/**
 How often the jobs of an outage run fail: the harness's whole-rung jumps against a
 reference that always steps to the earliest pending instant, for every interleaving
 and every choice of backoff delays, each attempt's from a band of its own.
 */
module OutageVolume {
  import opened Options
  import opened JobTable
  import opened Outage

  /** The instant of attempt r + 1 when the delay after attempt a is delay(a) and every move is its own. */
  function Deadline(base: int, delay: nat -> nat, r: nat): int {
    if r == 0 then base else Deadline(base, delay, r - 1) + delay(r) + NUDGE
  }

  lemma {:induction false} DeadlineGrows(base: int, delay: nat -> nat, r: nat, s: nat)
    requires r <= s
    ensures Deadline(base, delay, r) <= Deadline(base, delay, s)
    decreases s
  {
    if r < s { DeadlineGrows(base, delay, r, s - 1); }
  }

  /** The instant the outage opens, the attempt budget, the band of the delay after each attempt, the lift. */
  datatype Cohort = Cohort(base: int, budget: nat, lo: nat -> nat, hi: nat -> nat, end: int)

  ghost predicate Banded(c: Cohort) {
    c.budget >= 1 && forall a: nat :: 1 <= a < c.budget ==> 1 <= c.lo(a) <= c.hi(a)
  }

  ghost predicate Within(c: Cohort, d: Delays) {
    forall j: nat, a: nat :: 1 <= a < c.budget ==> c.lo(a) <= d(j, a) <= c.hi(a)
  }

  /** The latest instant of attempt r + 1. */
  function Limit(c: Cohort, r: nat): int {
    Deadline(c.base, c.hi, r)
  }

  /** The instant of attempt r + 1 when every delay is the shortest. */
  function Soonest(c: Cohort, r: nat): int {
    Deadline(c.base, c.lo, r)
  }

  /** No attempt r + 1 is sooner than this. Where rung r is apart from all earlier ones, the job that moves the
      clock there has made r attempts too; elsewhere another job's move may spare it part of a nudge. */
  function Floor(c: Cohort, r: nat): int {
    if r == 0 then c.base
    else
      var low := Floor(c, r - 1) + c.lo(r);
      if Limit(c, r - 1) < low then low + NUDGE
      else if low < Floor(c, r - 1) + 1 + NUDGE then Floor(c, r - 1) + 1 + NUDGE
      else low
  }

  /** The soonest start of rung r's delay never falls. */
  lemma {:induction false} FloorGrows(c: Cohort, q: nat, r: nat)
    requires 1 <= q <= r
    ensures Floor(c, q - 1) + c.lo(q) <= Floor(c, r - 1) + c.lo(r)
    decreases r
  {
    if q < r { FloorGrows(c, q, r - 1); }
  }

  // ---------------------------------------------------------------- the opening

  /** Still to read the switch when the outage opened. A running attempt that has read it closed is not. */
  predicate Open(i: Item) {
    Claimable(i.state) || (i.state.Running? && i.read != Some(false))
  }

  /** The outage has just opened at base: every open job is due and untried, or in its first attempt and has
      not yet read the switch. */
  ghost predicate Opened(c: Cohort, w: World) {
    && w.now == c.base && w.end == Some(c.end) && w.advancer.Watching? && w.moves == 0
    && (forall j :: 0 <= j < |w.items| ==> OpenedItem(c, w.items[j]))
  }

  predicate OpenedItem(c: Cohort, i: Item) {
    && ItemOk(i)
    && (Open(i) ==>
          && i.maxAttempts == c.budget && i.failures == 0 && i.scheduledAt <= c.base
          && i.attempt == (if i.state.Running? then 1 else 0)
          && (i.state.Running? ==> i.read.None?))
  }

  predicate JobStep(step: Step) {
    step.Claim? || step.Read? || step.Finish?
  }

  /** The job is where the step can take it on. */
  predicate Able(w: World, step: Step, i: Item) {
    match step
    case Claim(_) => Claimable(i.state) && i.scheduledAt <= w.now
    case Read(_) => i.state.Running? && i.read.None?
    case Finish(_) => i.state.Running? && i.read.Some?
    case _ => false
  }

  function After(w: World, step: Step, i: Item, delay: int): Item
    requires JobStep(step)
  {
    match step
    case Claim(_) => Begun(i)
    case Read(_) => Sampled(w, i)
    case Finish(_) => Ended(i, w.now, delay)
  }

  /** A worker's step moves its own job or nothing. */
  lemma JobNext(w: World, step: Step, fine: bool, d: Delays)
    requires JobStep(step) && Next(w, step, fine, d) != w
    ensures
      var j := step.item;
      && j < |w.items| && Able(w, step, w.items[j])
      && Next(w, step, fine, d) == w.(items := w.items[j := After(w, step, w.items[j], d(j, w.items[j].attempt))])
  {
  }

  /** A seeded table, its rows due by the clock's base, before the fault is injected. */
  predicate Seeded(c: Cohort, w: World) {
    && w.now == c.base && w.end.None? && w.advancer.Watching? && w.moves == 0
    && forall j :: 0 <= j < |w.items| ==>
         w.items[j] == Untried(c, w.items[j].scheduledAt) && w.items[j].scheduledAt <= c.base
  }

  function Untried(c: Cohort, at: int): Item {
    Item(Available, at, 0, c.budget, 0, None)
  }

  lemma {:induction false} OpeningSteps(c: Cohort, w: World, steps: seq<Step>, fine: bool, d: Delays)
    requires Opened(c, w.(end := Some(c.end))) && w.end.None?
    requires forall k :: 0 <= k < |steps| ==> JobStep(steps[k])
    ensures
      var v := Drive(w, steps, fine, d);
      v.end.None? && Opened(c, v.(end := Some(c.end)))
    decreases |steps|
  {
    if |steps| > 0 {
      var v := Next(w, steps[0], fine, d);
      assert JobStep(steps[0]);
      assert Opened(c, v.(end := Some(c.end))) && v.end.None?;
      OpeningSteps(c, v, steps[1..], fine, d);
    }
  }

  /** The runners start before the outage is injected: whatever they have claimed, read and finished by
      then, the outage opens on such a table. */
  lemma OpeningReached(c: Cohort, w: World, steps: seq<Step>, fine: bool, d: Delays)
    requires Seeded(c, w) && c.budget >= 1
    requires forall k :: 0 <= k < |steps| ==> JobStep(steps[k])
    ensures Opened(c, Drive(w, steps, fine, d).(end := Some(c.end)))
  {
    assert Opened(c, w.(end := Some(c.end)));
    OpeningSteps(c, w, steps, fine, d);
  }

  /** A job that was not open keeps its row, or ends as the switch it had read. */
  predicate Settled(start: Item, i: Item) {
    i == start || (start.state.Running? && i == start.(state := Succeeded))
  }

  // ---------------------------------------------------------------- a volume the delays cannot change

  /** n attempts fall inside the outage whatever the delays: the last of them even at the latest, and the
      next not even at the soonest. */
  predicate Decided(c: Cohort, n: nat) {
    && n <= c.budget
    && (n > 0 ==> Limit(c, n - 1) < c.end)
    && (n < c.budget ==> c.end <= Floor(c, n))
  }

  /** Where an open job is in its n failures. */
  predicate Tallied(c: Cohort, n: nat, i: Item) {
    && i.maxAttempts == c.budget
    && if i.state.Running? then
         && 1 <= i.attempt <= c.budget && i.attempt - 1 <= n
         && match i.read {
              case None => i.failures == i.attempt - 1
              case Some(open) => if open then i.failures == i.attempt <= n else i.failures == i.attempt - 1 == n
            }
       else if Claimable(i.state) then
         i.attempt == i.failures <= n && i.attempt < c.budget
       else
         i.failures == n && (if n == c.budget then i.state.Discarded? else i.state.Succeeded?)
  }

  /** No attempt before its soonest instant. */
  predicate NotEarly(c: Cohort, now: int, i: Item) {
    if i.state.Running? then
      i.attempt >= 1 && Floor(c, i.attempt - 1) <= now
    else if Claimable(i.state) then
      if i.attempt == 0 then i.scheduledAt <= now && c.base <= now
      else
        && Floor(c, i.attempt - 1) <= now
        && Floor(c, i.attempt - 1) + c.lo(i.attempt) <= i.scheduledAt
        && (i.scheduledAt <= now ==> Floor(c, i.attempt) <= now)
    else true
  }

  /** Whole-rung jumps: everyone is in the same rung until the n failures are made. */
  predicate InRung(c: Cohort, n: nat, w: World, i: Item) {
    if i.state.Running? then
      i.attempt == (if w.moves < n then w.moves else n) + 1
    else if Claimable(i.state) then
      if w.moves >= n then i.attempt == n
      else if i.scheduledAt <= w.now then i.attempt == w.moves
      else i.attempt == w.moves + 1 && i.scheduledAt <= w.now + c.hi(i.attempt)
    else n <= w.moves + 1
  }

  /** Fine stepping: no attempt after its latest instant. */
  predicate OnTime(c: Cohort, w: World, i: Item) {
    if i.state.Running? then
      i.attempt >= 1 && w.now <= Limit(c, i.attempt - 1)
    else if Claimable(i.state) then
      && (i.attempt > 0 ==> i.scheduledAt + NUDGE <= Limit(c, i.attempt))
      && (i.scheduledAt <= w.now ==> w.now <= Limit(c, i.attempt))
    else true
  }

  predicate InPlace(c: Cohort, n: nat, fine: bool, w: World, i: Item) {
    Tallied(c, n, i) && NotEarly(c, w.now, i) && if fine then OnTime(c, w, i) else InRung(c, n, w, i)
  }

  predicate Placed(c: Cohort, n: nat, fine: bool, w: World, start: Item, i: Item) {
    if Open(start) then InPlace(c, n, fine, w, i) else Settled(start, i)
  }

  /** The advancer's commitment: the strategy's target, while it matters. */
  ghost predicate Committed(n: nat, fine: bool, w: World) {
    w.advancer.Moving? ==>
      if fine then Earliest(w.items, w.now) == Some(w.advancer.target)
      else w.moves + 1 < n ==> Latest(w.items, w.now) == Some(w.advancer.target)
  }

  ghost predicate OnCourse(c: Cohort, n: nat, fine: bool, start: seq<Item>, w: World) {
    && |w.items| == |start| && w.end == Some(c.end)
    && (forall j :: 0 <= j < |start| ==> Placed(c, n, fine, w, start[j], w.items[j]))
    && Committed(n, fine, w)
    && (!fine && w.moves < n ==> w.now <= Limit(c, w.moves))
    && (!fine && n == c.budget ==> w.moves < n)
  }

  /** An attempt reads the switch open exactly while it has failures left to make. */
  lemma ReadsRight(c: Cohort, n: nat, fine: bool, w: World, i: Item)
    requires Decided(c, n) && w.end == Some(c.end)
    requires i.state.Running? && i.read.None? && InPlace(c, n, fine, w, i)
    requires !fine && w.moves < n ==> w.now <= Limit(c, w.moves)
    ensures Failing(w) <==> i.attempt <= n
  {
    if i.attempt <= n { DeadlineGrows(c.base, c.hi, if fine then i.attempt - 1 else w.moves, n - 1); }
  }

  lemma InPlaceAfter(c: Cohort, n: nat, fine: bool, w: World, step: Step, i: Item, delay: int)
    requires InPlace(c, n, fine, w, i) && JobStep(step) && Able(w, step, i) && n <= c.budget && Banded(c)
    requires step.Read? ==> (Failing(w) <==> i.attempt <= n)
    requires step.Finish? && i.attempt < c.budget ==> c.lo(i.attempt) <= delay <= c.hi(i.attempt)
    ensures InPlace(c, n, fine, w, After(w, step, i, delay))
  {
  }

  lemma JobPlaced(c: Cohort, n: nat, fine: bool, w: World, step: Step, start: Item, i: Item, delay: int)
    requires Placed(c, n, fine, w, start, i) && JobStep(step) && Able(w, step, i) && Decided(c, n) && Banded(c)
    requires w.end == Some(c.end) && (!fine && w.moves < n ==> w.now <= Limit(c, w.moves))
    requires step.Finish? && i.attempt < c.budget ==> 1 <= i.attempt ==> c.lo(i.attempt) <= delay <= c.hi(i.attempt)
    ensures Placed(c, n, fine, w, start, After(w, step, i, delay))
  {
    if Open(start) {
      if step.Read? { ReadsRight(c, n, fine, w, i); }
      InPlaceAfter(c, n, fine, w, step, i, delay);
    }
  }

  lemma JobStepOnCourse(c: Cohort, n: nat, fine: bool, start: seq<Item>, w: World, step: Step, d: Delays)
    requires Sound(w) && OnCourse(c, n, fine, start, w) && Decided(c, n) && Banded(c) && Within(c, d) && JobStep(step)
    ensures OnCourse(c, n, fine, start, Next(w, step, fine, d))
  {
    var v := Next(w, step, fine, d);
    if v != w {
      var j := step.item;
      JobNext(w, step, fine, d);
      assert Actionable(w.items[j], w.now);
      JobPlaced(c, n, fine, w, step, start[j], w.items[j], d(j, w.items[j].attempt));
      SamePlaces(c, n, fine, start, w, v);
    }
  }

  /** Where a job is depends on the clock and the moves only. */
  lemma SamePlaces(c: Cohort, n: nat, fine: bool, start: seq<Item>, w: World, v: World)
    requires |v.items| == |start| && v.now == w.now && v.moves == w.moves
    requires forall j :: 0 <= j < |start| ==> Placed(c, n, fine, w, start[j], v.items[j])
    ensures forall j :: 0 <= j < |start| ==> Placed(c, n, fine, v, start[j], v.items[j])
  {
    forall j | 0 <= j < |start|
      ensures Placed(c, n, fine, v, start[j], v.items[j])
    {
      assert Placed(c, n, fine, w, start[j], v.items[j]);
    }
  }

  /** A pending job of the rung is due by the rung's latest instant. */
  lemma RungEnds(c: Cohort, n: nat, w: World, start: Item, i: Item)
    requires Placed(c, n, false, w, start, i) && Pending(i, w.now) && w.moves < n && w.now <= Limit(c, w.moves)
    ensures i.attempt == w.moves + 1 && i.attempt < c.budget && i.scheduledAt + NUDGE <= Limit(c, w.moves + 1)
  {
    assert Limit(c, w.moves + 1) == Limit(c, w.moves) + c.hi(w.moves + 1) + NUDGE;
  }

  ghost predicate RungBounded(c: Cohort, w: World) {
    forall j :: 0 <= j < |w.items| && Pending(w.items[j], w.now) ==>
      w.items[j].scheduledAt + NUDGE <= Limit(c, w.moves + 1)
  }

  lemma RungsBounded(c: Cohort, n: nat, start: seq<Item>, w: World)
    requires OnCourse(c, n, false, start, w) && w.moves < n
    ensures RungBounded(c, w)
  {
    forall j | 0 <= j < |w.items| && Pending(w.items[j], w.now)
      ensures w.items[j].scheduledAt + NUDGE <= Limit(c, w.moves + 1)
    {
      RungEnds(c, n, w, start[j], w.items[j]);
    }
  }

  /** Inside the ladder the guard always takes the whole rung. */
  lemma JumpTarget(c: Cohort, n: nat, w: World)
    requires RungBounded(c, w) && Decided(c, n) && w.moves + 1 < n && Latest(w.items, w.now).Some?
    ensures Latest(w.items, w.now).value < c.end
  {
    DeadlineGrows(c.base, c.hi, w.moves + 1, n - 1);
  }

  lemma LookOnCourse(c: Cohort, n: nat, fine: bool, start: seq<Item>, w: World, d: Delays)
    requires Sound(w) && OnCourse(c, n, fine, start, w) && Decided(c, n)
    ensures OnCourse(c, n, fine, start, Next(w, Observe, fine, d))
  {
    if !fine && w.moves + 1 < n && Latest(w.items, w.now).Some? {
      RungsBounded(c, n, start, w);
      JumpTarget(c, n, w);
    }
    SamePlaces(c, n, fine, start, w, Next(w, Observe, fine, d));
  }

  /** The move that makes a job due lands no sooner than its soonest instant: it was moved by a job as far up
      the ladder, or by one whose rung ends too early to reach it. */
  lemma Released(c: Cohort, now: int, k: Item, i: Item)
    requires Pending(k, now) && Pending(i, now) && NotEarly(c, now, k) && NotEarly(c, now, i)
    requires k.attempt >= i.attempt || k.scheduledAt + NUDGE <= Limit(c, k.attempt)
    requires i.scheduledAt <= k.scheduledAt + NUDGE
    ensures Floor(c, i.attempt) <= k.scheduledAt + NUDGE
  {
    var a := i.attempt;
    if Limit(c, a - 1) < Floor(c, a - 1) + c.lo(a) {
      if k.attempt >= a { FloorGrows(c, a, k.attempt); }
      else { DeadlineGrows(c.base, c.hi, k.attempt, a - 1); }
    }
  }

  lemma MovePlaced(c: Cohort, n: nat, fine: bool, w: World, v: World, start: Item, i: Item)
    requires Placed(c, n, fine, w, start, i) && !Actionable(i, w.now)
    requires w.now < v.now && v.moves == w.moves + 1
    requires Pending(i, w.now) && i.scheduledAt <= v.now ==> Floor(c, i.attempt) <= v.now
    requires fine ==> i.scheduledAt <= v.now && Pending(i, w.now) ==> v.now <= i.scheduledAt + NUDGE
    requires !fine && v.moves < n && Pending(i, w.now) ==> i.scheduledAt <= v.now
    ensures Placed(c, n, fine, v, start, i)
  {
  }

  lemma MoveClock(c: Cohort, n: nat, fine: bool, start: seq<Item>, w: World)
    requires Sound(w) && OnCourse(c, n, fine, start, w) && w.advancer.Moving?
    ensures w.now < w.advancer.target
    ensures !fine && w.moves + 1 < n ==> w.advancer.target + NUDGE <= Limit(c, w.moves + 1)
    ensures !fine && n == c.budget ==> w.moves + 1 < n
  {
    var k :| 0 <= k < |w.items| && Pending(w.items[k], w.now) && w.items[k].scheduledAt == w.advancer.target;
    if !fine && w.moves < n { RungEnds(c, n, w, start[k], w.items[k]); }
  }

  lemma MoveOnCourse(c: Cohort, n: nat, fine: bool, start: seq<Item>, w: World, d: Delays)
    requires Sound(w) && OnCourse(c, n, fine, start, w)
    ensures OnCourse(c, n, fine, start, Next(w, Move, fine, d))
  {
    if w.advancer.Moving? {
      MoveClock(c, n, fine, start, w);
      MovePlaces(c, n, fine, start, w, Next(w, Move, fine, d));
    }
  }

  lemma MovePlaces(c: Cohort, n: nat, fine: bool, start: seq<Item>, w: World, v: World)
    requires Sound(w) && OnCourse(c, n, fine, start, w) && w.advancer.Moving? && w.now < v.now
    requires v == w.(now := w.advancer.target + NUDGE, moves := w.moves + 1, advancer := Watching)
    ensures forall j :: 0 <= j < |start| ==> Placed(c, n, fine, v, start[j], v.items[j])
  {
    var k :| 0 <= k < |w.items| && Pending(w.items[k], w.now) && w.items[k].scheduledAt == w.advancer.target;
    assert Placed(c, n, fine, w, start[k], w.items[k]);
    forall j | 0 <= j < |start|
      ensures Placed(c, n, fine, v, start[j], v.items[j])
    {
      assert Placed(c, n, fine, w, start[j], w.items[j]) && !Actionable(w.items[j], w.now);
      if Pending(w.items[j], w.now) && w.items[j].scheduledAt <= v.now {
        Released(c, w.now, w.items[k], w.items[j]);
      }
      MovePlaced(c, n, fine, w, v, start[j], w.items[j]);
    }
  }

  lemma {:induction false} RunOnCourse(
    c: Cohort, n: nat, fine: bool, start: seq<Item>, w: World, steps: seq<Step>, d: Delays)
    requires Sound(w) && OnCourse(c, n, fine, start, w) && Decided(c, n) && Banded(c) && Within(c, d)
    ensures Sound(Drive(w, steps, fine, d)) && OnCourse(c, n, fine, start, Drive(w, steps, fine, d))
    decreases |steps|
  {
    if |steps| > 0 {
      var step := steps[0];
      StepKeepsSound(w, step, fine, d);
      if step.Observe? { LookOnCourse(c, n, fine, start, w, d); }
      else if step.Move? { MoveOnCourse(c, n, fine, start, w, d); }
      else { JobStepOnCourse(c, n, fine, start, w, step, d); }
      RunOnCourse(c, n, fine, start, Next(w, step, fine, d), steps[1..], d);
    }
  }

  /** Every job open when the outage opened has failed exactly n times: discarded if that is its whole budget,
      succeeded on the next attempt otherwise. */
  ghost predicate Failed(c: Cohort, n: nat, start: World, end: World) {
    |end.items| == |start.items|
    && forall j :: 0 <= j < |start.items| ==> FailedItem(c, n, start.items[j], end.items[j])
  }

  predicate FailedItem(c: Cohort, n: nat, start: Item, i: Item) {
    if Open(start) then i.failures == n && (if n == c.budget then i.state.Discarded? else i.state.Succeeded?)
    else Settled(start, i)
  }

  /** When the delays cannot change how many attempts fall inside the outage, no strategy and no
      interleaving can either. */
  lemma DecidedVolume(c: Cohort, n: nat, w: World, steps: seq<Step>, fine: bool, d: Delays)
    requires Opened(c, w) && Banded(c) && Within(c, d) && Decided(c, n)
    requires Drive(w, steps, fine, d).advancer.Finished?
    ensures Failed(c, n, w, Drive(w, steps, fine, d))
    ensures !fine && n == c.budget && (exists j :: 0 <= j < |w.items| && Open(w.items[j])) ==>
              Drive(w, steps, fine, d).moves == n - 1
  {
    forall j | 0 <= j < |w.items|
      ensures Placed(c, n, fine, w, w.items[j], w.items[j]) && ItemOk(w.items[j])
    {
      assert OpenedItem(c, w.items[j]);
    }
    RunOnCourse(c, n, fine, w.items, w, steps, d);
    var v := Drive(w, steps, fine, d);
    forall j | 0 <= j < |w.items|
      ensures FailedItem(c, n, w.items[j], v.items[j])
      ensures !fine && Open(w.items[j]) ==> n <= v.moves + 1
    {
      assert Placed(c, n, fine, v, w.items[j], v.items[j]);
      assert !Actionable(v.items[j], v.now) && !Pending(v.items[j], v.now);
    }
  }

  /** The outage outlasts the ladder: however the jobs interleave and whatever their delays, every job open
      at the start fails exactly its budget, under the harness's whole-rung jumps and under fine stepping
      alike; and the jumps number exactly budget - 1, whatever the size of the cohort. */
  lemma SameVolume(c: Cohort, w: World, steps: seq<Step>, fine: bool, d: Delays)
    requires Opened(c, w) && Banded(c) && Within(c, d)
    requires Limit(c, c.budget - 1) < c.end
    requires Drive(w, steps, fine, d).advancer.Finished?
    ensures Failed(c, c.budget, w, Drive(w, steps, fine, d))
    ensures !fine && (exists j :: 0 <= j < |w.items| && Open(w.items[j])) ==>
              Drive(w, steps, fine, d).moves == c.budget - 1
  {
    DecidedVolume(c, c.budget, w, steps, fine, d);
  }

  // ---------------------------------------------------------------- one job whose delays are given

  /** A lone job makes attempt a + 1 no sooner than its deadline. */
  predicate Tardy(c: Cohort, pace: nat -> nat, now: int, i: Item) {
    && i.maxAttempts == c.budget
    && (i.failures > 0 ==> Deadline(c.base, pace, i.failures - 1) < c.end)
    && if i.state.Running? then
         && i.attempt >= 1 && Deadline(c.base, pace, i.attempt - 1) <= now
         && i.failures == (if i.read == Some(true) then i.attempt else i.attempt - 1)
       else if Claimable(i.state) then
         && i.attempt == i.failures && (i.attempt == 0 ==> i.scheduledAt <= now)
         && (i.attempt > 0 ==> Deadline(c.base, pace, i.attempt - 1) + pace(i.attempt) <= i.scheduledAt)
         && (i.scheduledAt <= now ==> Deadline(c.base, pace, i.attempt) <= now)
       else true
  }

  ghost predicate Paces(c: Cohort, pace: nat -> nat, d: Delays) {
    forall a: nat :: 1 <= a < c.budget ==> d(0, a) == pace(a) >= 1
  }

  lemma TardyAfter(c: Cohort, pace: nat -> nat, w: World, step: Step, i: Item, delay: int)
    requires Tardy(c, pace, w.now, i) && w.end == Some(c.end) && JobStep(step) && Able(w, step, i)
    requires step.Finish? && i.attempt < c.budget ==> delay == pace(i.attempt) >= 1
    ensures Tardy(c, pace, w.now, After(w, step, i, delay))
  {
  }

  lemma TardyJob(c: Cohort, pace: nat -> nat, w: World, step: Step, fine: bool, d: Delays)
    requires w.end == Some(c.end) && |w.items| == 1 && Tardy(c, pace, w.now, w.items[0])
    requires Paces(c, pace, d) && JobStep(step)
    ensures
      var v := Next(w, step, fine, d);
      v.now == w.now && v.end == w.end && |v.items| == 1 && Tardy(c, pace, w.now, v.items[0])
  {
    if Next(w, step, fine, d) != w {
      JobNext(w, step, fine, d);
      TardyAfter(c, pace, w, step, w.items[0], d(0, w.items[0].attempt));
    }
  }

  lemma TardyAdvance(c: Cohort, pace: nat -> nat, w: World, step: Step, fine: bool, d: Delays)
    requires Sound(w) && |w.items| == 1 && Tardy(c, pace, w.now, w.items[0]) && !JobStep(step)
    ensures
      var v := Next(w, step, fine, d);
      v.end == w.end && v.items == w.items && Tardy(c, pace, v.now, v.items[0])
  {
    var i := w.items[0];
    if step.Move? && w.advancer.Moving? { assert Pending(i, w.now) && i.scheduledAt == w.advancer.target; }
  }

  lemma {:induction false} TardyRun(c: Cohort, pace: nat -> nat, fine: bool, w: World, steps: seq<Step>, d: Delays)
    requires Sound(w) && w.end == Some(c.end) && |w.items| == 1 && Tardy(c, pace, w.now, w.items[0])
    requires Paces(c, pace, d)
    ensures
      var v := Drive(w, steps, fine, d);
      |v.items| == 1 && Tardy(c, pace, v.now, v.items[0])
    decreases |steps|
  {
    if |steps| > 0 {
      StepKeepsSound(w, steps[0], fine, d);
      if JobStep(steps[0]) { TardyJob(c, pace, w, steps[0], fine, d); }
      else { TardyAdvance(c, pace, w, steps[0], fine, d); }
      TardyRun(c, pace, fine, Next(w, steps[0], fine, d), steps[1..], d);
    }
  }

  /** Under fine stepping a job makes attempt a + 1 no later than its deadline, whatever the others do. */
  predicate Prompt(c: Cohort, pace: nat -> nat, now: int, i: Item) {
    && i.maxAttempts == c.budget
    && if i.state.Running? then
         && 1 <= i.attempt <= c.budget && now <= Deadline(c.base, pace, i.attempt - 1)
         && match i.read {
              case None => i.failures == i.attempt - 1
              case Some(open) =>
                if open then i.failures == i.attempt
                else i.failures == i.attempt - 1 && c.end <= Deadline(c.base, pace, i.attempt - 1)
            }
       else if Claimable(i.state) then
         && i.attempt == i.failures < c.budget
         && (if i.attempt == 0 then i.scheduledAt <= now
             else i.scheduledAt + NUDGE <= Deadline(c.base, pace, i.attempt))
         && (i.scheduledAt <= now ==> now <= Deadline(c.base, pace, i.attempt))
       else if i.failures == c.budget then i.state.Discarded?
       else i.state.Succeeded? && i.failures < c.budget && c.end <= Deadline(c.base, pace, i.failures)
  }

  ghost predicate Prompted(c: Cohort, pace: nat -> nat, w: World) {
    && w.end == Some(c.end) && |w.items| > 0 && Prompt(c, pace, w.now, w.items[0])
    && (w.advancer.Moving? ==> Earliest(w.items, w.now) == Some(w.advancer.target))
  }

  lemma PromptAfter(c: Cohort, pace: nat -> nat, w: World, step: Step, i: Item, delay: int)
    requires Prompt(c, pace, w.now, i) && w.end == Some(c.end) && JobStep(step) && Able(w, step, i)
    requires step.Finish? && i.attempt < c.budget ==> delay == pace(i.attempt) >= 1
    ensures Prompt(c, pace, w.now, After(w, step, i, delay))
  {
  }

  lemma PromptJob(c: Cohort, pace: nat -> nat, w: World, step: Step, d: Delays)
    requires Sound(w) && Prompted(c, pace, w) && Paces(c, pace, d) && JobStep(step)
    ensures Prompted(c, pace, Next(w, step, true, d))
  {
    if Next(w, step, true, d) != w {
      JobNext(w, step, true, d);
      assert Actionable(w.items[step.item], w.now);
      if step.item == 0 { PromptAfter(c, pace, w, step, w.items[0], d(0, w.items[0].attempt)); }
    }
  }

  lemma PromptAdvance(c: Cohort, pace: nat -> nat, w: World, step: Step, d: Delays)
    requires Sound(w) && Prompted(c, pace, w) && !JobStep(step)
    ensures Prompted(c, pace, Next(w, step, true, d))
  {
  }

  lemma {:induction false} PromptRun(c: Cohort, pace: nat -> nat, w: World, steps: seq<Step>, d: Delays)
    requires Sound(w) && Prompted(c, pace, w) && Paces(c, pace, d)
    ensures
      var v := Drive(w, steps, true, d);
      Sound(v) && Prompted(c, pace, v)
    decreases |steps|
  {
    if |steps| > 0 {
      StepKeepsSound(w, steps[0], true, d);
      if JobStep(steps[0]) { PromptJob(c, pace, w, steps[0], d); } else { PromptAdvance(c, pace, w, steps[0], d); }
      PromptRun(c, pace, Next(w, steps[0], true, d), steps[1..], d);
    }
  }

  /** A cohort of untried jobs at the opening. */
  function Crew(c: Cohort, size: nat): World {
    World(c.base, Some(c.end), seq(size, j => Untried(c, c.base)), Watching, 0)
  }

  lemma CrewOpened(c: Cohort, size: nat)
    requires c.budget >= 1
    ensures Opened(c, Crew(c, size)) && Sound(Crew(c, size))
    ensures size > 0 ==> Open(Crew(c, size).items[0])
  {
  }

  // ---------------------------------------------------------------- exhaustion, exactly

  /** Whatever the cohort, the interleaving and the delays, a drained run has exhausted every open job. */
  ghost predicate AlwaysExhausts(c: Cohort, fine: bool) {
    forall w, steps, d: Delays ::
      Opened(c, w) && Within(c, d) && Drive(w, steps, fine, d).advancer.Finished?
      ==> Failed(c, c.budget, w, Drive(w, steps, fine, d))
  }

  /** The bound on the outage is exact, for the jumping strategy and for the fine one. */
  lemma LongEnoughIff(c: Cohort, fine: bool)
    requires Banded(c)
    ensures AlwaysExhausts(c, fine) <==> Limit(c, c.budget - 1) < c.end
  {
    if Limit(c, c.budget - 1) < c.end {
      forall w, steps, d: Delays |
        Opened(c, w) && Within(c, d) && Drive(w, steps, fine, d).advancer.Finished?
        ensures Failed(c, c.budget, w, Drive(w, steps, fine, d))
      {
        SameVolume(c, w, steps, fine, d);
      }
    } else {
      var w, d: Delays := Crew(c, 1), (j: nat, a: nat) => c.hi(a);
      CrewOpened(c, 1);
      var steps := DrainExists(w, fine, d);
      assert Tardy(c, c.hi, w.now, w.items[0]);
      TardyRun(c, c.hi, fine, w, steps, d);
      assert !FailedItem(c, c.budget, w.items[0], Drive(w, steps, fine, d).items[0]);
    }
  }

  // ---------------------------------------------------------------- the strategies agree, exactly

  /** Under the same delays, whichever strategy advances the clock, every job fails equally often. */
  ghost predicate VolumesAgree(c: Cohort) {
    forall w, jumps, steps, d: Delays ::
      Opened(c, w) && Within(c, d)
      && Drive(w, jumps, false, d).advancer.Finished? && Drive(w, steps, true, d).advancer.Finished?
      ==> SameFailures(Drive(w, jumps, false, d), Drive(w, steps, true, d))
  }

  ghost predicate SameFailures(v: World, u: World) {
    |v.items| == |u.items| && forall j :: 0 <= j < |v.items| ==> v.items[j].failures == u.items[j].failures
  }

  lemma DecidedAgree(c: Cohort, n: nat)
    requires Banded(c) && Decided(c, n)
    ensures VolumesAgree(c)
  {
    forall w, jumps, steps, d: Delays |
      Opened(c, w) && Within(c, d)
      && Drive(w, jumps, false, d).advancer.Finished? && Drive(w, steps, true, d).advancer.Finished?
      ensures SameFailures(Drive(w, jumps, false, d), Drive(w, steps, true, d))
    {
      DecidedVolume(c, n, w, jumps, false, d);
      DecidedVolume(c, n, w, steps, true, d);
      var v, u := Drive(w, jumps, false, d), Drive(w, steps, true, d);
      forall j | 0 <= j < |w.items|
        ensures v.items[j].failures == u.items[j].failures
      {
        assert FailedItem(c, n, w.items[j], v.items[j]) && FailedItem(c, n, w.items[j], u.items[j]);
      }
    }
  }

  /** The outage ends where the delays decide whether attempt r + 1 meets it. */
  predicate Straddles(c: Cohort, r: nat) {
    1 <= r < c.budget && Soonest(c, r) < c.end <= Limit(c, r)
  }

  lemma {:induction false} FirstStraddle(c: Cohort, r: nat) returns (m: nat)
    requires Straddles(c, r)
    ensures Straddles(c, m) && Limit(c, m - 1) < c.end
    decreases r
  {
    assert Soonest(c, r - 1) <= Soonest(c, r) && (r == 1 ==> Limit(c, r - 1) == Soonest(c, r - 1));
    if Limit(c, r - 1) < c.end {
      m := r;
    } else {
      m := FirstStraddle(c, r - 1);
    }
  }

  /** The delay that puts the next attempt just inside the outage, as near to that as its band allows. */
  function LastDrag(c: Cohort, r: nat): (delay: int)
    requires r >= 1 && c.lo(r) <= c.hi(r)
    ensures c.lo(r) <= delay <= c.hi(r)
  {
    var room := c.end - 1 - Limit(c, r - 1);
    if room < c.lo(r) then c.lo(r) else if room > c.hi(r) then c.hi(r) else room
  }

  /** An outage that the latest attempt r is inside and the latest attempt r + 1 is not. */
  ghost predicate EndsOn(c: Cohort, r: nat) {
    Banded(c) && 1 <= r < c.budget && Limit(c, r - 1) < c.end <= Limit(c, r)
  }

  /** Two jobs: the first always returns as soon as it can, the second as late as it can while the rung is still
      jumped whole, and on rung r so late that the jump leaves the outage. */
  ghost predicate Drags(c: Cohort, r: nat, d: Delays)
    requires EndsOn(c, r)
  {
    && (forall a: nat :: 1 <= a < c.budget ==> d(0, a) == c.lo(a))
    && (forall a: nat :: 1 <= a <= r ==> d(1, a) == if a < r then c.hi(a) else LastDrag(c, r))
  }

  /** A job whose attempt a + 1 is due, being made, or failed and rescheduled by the given delay. */
  predicate OnRung(c: Cohort, now: int, a: nat, delay: int, i: Item) {
    && i.maxAttempts == c.budget
    && if i.state.Running? then
         i.attempt == a + 1 && if i.read.None? then i.failures == a else i.read.value && i.failures == a + 1
       else
         && Claimable(i.state) && i.attempt == i.failures
         && if i.scheduledAt <= now then i.attempt == a
            else i.attempt == a + 1 && i.scheduledAt == now + delay
  }

  lemma OnRungAfter(c: Cohort, w: World, a: nat, step: Step, i: Item, delay: int)
    requires OnRung(c, w.now, a, delay, i) && JobStep(step) && Able(w, step, i) && Failing(w)
    requires delay >= 1 && a + 1 < c.budget
    ensures OnRung(c, w.now, a, delay, After(w, step, i, delay))
  {
  }

  /** Both jobs in the rung, the clock at its latest instant, and the next move committed to the whole of it,
      or past the end. */
  ghost predicate Dragging(c: Cohort, r: nat, d: Delays, w: World) {
    && w.end == Some(c.end) && |w.items| == 2 && w.moves < r && w.now == Limit(c, w.moves)
    && OnRung(c, w.now, w.moves, d(0, w.moves + 1), w.items[0])
    && OnRung(c, w.now, w.moves, d(1, w.moves + 1), w.items[1])
    && (w.advancer.Moving? ==>
          if w.moves + 1 < r then w.advancer.target == w.now + c.hi(w.moves + 1)
          else c.end <= w.advancer.target + NUDGE)
  }

  predicate DraggedOut(c: Cohort, r: nat, w: World) {
    w.end == Some(c.end) && |w.items| == 2 && w.moves >= r && c.end <= w.now && w.items[0].failures <= r
  }

  ghost predicate Dragged(c: Cohort, r: nat, d: Delays, w: World) {
    Dragging(c, r, d, w) || DraggedOut(c, r, w)
  }

  lemma DraggingJob(c: Cohort, r: nat, w: World, step: Step, d: Delays)
    requires EndsOn(c, r) && Drags(c, r, d) && Sound(w) && Dragging(c, r, d, w) && JobStep(step)
    ensures Dragging(c, r, d, Next(w, step, false, d))
  {
    if Next(w, step, false, d) != w {
      var j := step.item;
      JobNext(w, step, false, d);
      DeadlineGrows(c.base, c.hi, w.moves, r - 1);
      assert Actionable(w.items[j], w.now);
      assert 1 <= c.lo(w.moves + 1) <= d(j, w.moves + 1);
      OnRungAfter(c, w, w.moves, step, w.items[j], d(j, w.moves + 1));
    }
  }

  lemma DraggedJob(c: Cohort, r: nat, w: World, step: Step, d: Delays)
    requires EndsOn(c, r) && Drags(c, r, d) && Sound(w) && Dragged(c, r, d, w) && JobStep(step)
    ensures Dragged(c, r, d, Next(w, step, false, d))
  {
    if Dragging(c, r, d, w) {
      DraggingJob(c, r, w, step, d);
    } else if Next(w, step, false, d) != w {
      JobNext(w, step, false, d);
    }
  }

  lemma DraggedTarget(c: Cohort, r: nat, w: World, d: Delays)
    requires EndsOn(c, r) && Drags(c, r, d) && Dragging(c, r, d, w) && !AnyActionable(w.items, w.now)
    ensures Earliest(w.items, w.now) == Some(w.now + c.lo(w.moves + 1))
    ensures Latest(w.items, w.now) == Some(w.now + d(1, w.moves + 1))
  {
    var a, b := w.items[0], w.items[1];
    assert !Actionable(a, w.now) && !Actionable(b, w.now);
    assert d(0, w.moves + 1) == c.lo(w.moves + 1) <= d(1, w.moves + 1);
    assert Pending(a, w.now) && Pending(b, w.now);
  }

  /** Before rung r the latest retry is inside the outage; on it, wherever the guard sends the clock is past it. */
  lemma DragLands(c: Cohort, r: nat, moves: nat, delay: int)
    requires EndsOn(c, r) && moves < r && delay == if moves + 1 < r then c.hi(moves + 1) else LastDrag(c, r)
    ensures moves + 1 < r ==> Limit(c, moves) + delay < c.end
    ensures moves + 1 == r && Limit(c, moves) + delay < c.end ==> c.end <= Limit(c, moves) + delay + NUDGE
    ensures moves + 1 == r && c.end <= Limit(c, moves) + delay ==> c.end <= Limit(c, moves) + c.lo(r) + NUDGE
  {
    if moves + 1 < r { DeadlineGrows(c.base, c.hi, moves + 1, r - 1); }
  }

  lemma DraggingLook(c: Cohort, r: nat, w: World, d: Delays)
    requires EndsOn(c, r) && Drags(c, r, d) && Dragging(c, r, d, w) && !AnyActionable(w.items, w.now)
    ensures Look(w, false).Moving?
    ensures
      if w.moves + 1 < r then Look(w, false).target == w.now + c.hi(w.moves + 1)
      else c.end <= Look(w, false).target + NUDGE
  {
    DraggedTarget(c, r, w, d);
    DragLands(c, r, w.moves, d(1, w.moves + 1));
  }

  lemma DraggedLook(c: Cohort, r: nat, w: World, d: Delays)
    requires EndsOn(c, r) && Drags(c, r, d) && Dragged(c, r, d, w)
    ensures Dragged(c, r, d, Next(w, Observe, false, d))
  {
    var v := Next(w, Observe, false, d);
    assert v == w.(advancer := v.advancer);
    if Dragging(c, r, d, w) {
      if !AnyActionable(w.items, w.now) { DraggingLook(c, r, w, d); }
      assert Dragging(c, r, d, v);
    }
  }

  lemma DraggedMove(c: Cohort, r: nat, w: World, d: Delays)
    requires EndsOn(c, r) && Drags(c, r, d) && Sound(w) && Dragged(c, r, d, w)
    ensures Dragged(c, r, d, Next(w, Move, false, d))
  {
    if w.advancer.Moving? && w.moves < r {
      assert !Actionable(w.items[0], w.now) && !Actionable(w.items[1], w.now);
    }
  }

  /** Whole-rung jumps drag the first job along and out of the outage after r failures. */
  lemma {:induction false} DraggedRun(c: Cohort, r: nat, w: World, steps: seq<Step>, d: Delays)
    requires EndsOn(c, r) && Drags(c, r, d) && Sound(w) && Dragged(c, r, d, w)
    ensures
      var v := Drive(w, steps, false, d);
      Sound(v) && Dragged(c, r, d, v)
    decreases |steps|
  {
    if |steps| > 0 {
      var step := steps[0];
      StepKeepsSound(w, step, false, d);
      if step.Observe? { DraggedLook(c, r, w, d); }
      else if step.Move? { DraggedMove(c, r, w, d); }
      else { DraggedJob(c, r, w, step, d); }
      DraggedRun(c, r, Next(w, step, false, d), steps[1..], d);
    }
  }

  /** The delays that drag the first job along. */
  function Drag(c: Cohort, r: nat, last: int): Delays {
    (j: nat, a: nat) => if j != 1 then c.lo(a) else if a == r then last else c.hi(a)
  }

  /** So a drained run of jumps fails the first job at most r times. */
  lemma DraggedVolume(c: Cohort, r: nat) returns (d: Delays, jumps: seq<Step>)
    requires EndsOn(c, r)
    ensures d == Drag(c, r, LastDrag(c, r)) && Within(c, d)
    ensures
      var v := Drive(Crew(c, 2), jumps, false, d);
      v.advancer.Finished? && |v.items| == 2 && v.items[0].failures <= r
  {
    d := Drag(c, r, LastDrag(c, r));
    CrewOpened(c, 2);
    assert Within(c, d) && Drags(c, r, d);
    jumps := DrainExists(Crew(c, 2), false, d);
    DraggedRun(c, r, Crew(c, 2), jumps, d);
    var v := Drive(Crew(c, 2), jumps, false, d);
    assert !Actionable(v.items[0], v.now) && !Pending(v.items[0], v.now);
  }

  lemma Disagree(c: Cohort, w: World, d: Delays, jumps: seq<Step>, steps: seq<Step>)
    requires Opened(c, w) && Within(c, d) && |w.items| > 0
    requires
      var v, u := Drive(w, jumps, false, d), Drive(w, steps, true, d);
      v.advancer.Finished? && u.advancer.Finished? && |v.items| > 0 && |u.items| > 0
      && v.items[0].failures < u.items[0].failures
    ensures !VolumesAgree(c)
  {
    assert !SameFailures(Drive(w, jumps, false, d), Drive(w, steps, true, d));
  }

  lemma EndsOnDiffers(c: Cohort, r: nat)
    requires EndsOn(c, r) && Soonest(c, r) < c.end
    ensures !VolumesAgree(c)
  {
    var w := Crew(c, 2);
    var d, jumps := DraggedVolume(c, r);
    CrewOpened(c, 2);
    assert Paces(c, c.lo, d);
    var steps := DrainExists(w, true, d);
    PromptRun(c, c.lo, w, steps, d);
    var u := Drive(w, steps, true, d);
    assert !Actionable(u.items[0], u.now) && !Pending(u.items[0], u.now);
    if u.items[0].failures <= r { DeadlineGrows(c.base, c.lo, u.items[0].failures, r); }
    Disagree(c, w, d, jumps, steps);
  }

  /** Where the outage ends between the soonest and the latest instant of an attempt after the first, some
      delays in the bands make the strategies differ. */
  lemma StraddleDiffers(c: Cohort, r: nat)
    requires Banded(c) && Straddles(c, r)
    ensures !VolumesAgree(c)
  {
    var m := FirstStraddle(c, r);
    EndsOnDiffers(c, m);
  }

  /** The rung is clear of every earlier one, or its shortest delay is a nanosecond: no other job's move can
      make its attempt sooner than a lone job's. */
  predicate Crisp(c: Cohort, q: nat)
    requires q >= 1
  {
    c.lo(q) == 1 || Limit(c, q - 1) < Soonest(c, q - 1) + c.lo(q)
  }

  lemma {:induction false} FloorIsSoonest(c: Cohort, n: nat)
    requires forall q: nat :: 1 <= q <= n ==> Crisp(c, q)
    ensures Floor(c, n) == Soonest(c, n)
  {
    if n > 0 {
      FloorIsSoonest(c, n - 1);
      assert Crisp(c, n);
    }
  }

  /** In any case the two are within a microsecond per rung after the first. */
  lemma {:induction false} FloorIsClose(c: Cohort, r: nat)
    requires Banded(c) && 1 <= r < c.budget
    ensures Soonest(c, r) - (r - 1) * NUDGE <= Floor(c, r) <= Soonest(c, r)
  {
    assert 1 <= c.lo(r);
    if r > 1 {
      FloorIsClose(c, r - 1);
    } else {
      assert Floor(c, r - 1) == Limit(c, r - 1) == Soonest(c, r - 1);
    }
  }

  /** Every rung up to the one the outage ends before, if it ends before one, is crisp. */
  ghost predicate Sharp(c: Cohort) {
    forall n: nat, q: nat ::
      1 <= q <= n < c.budget && Limit(c, n - 1) < c.end <= Soonest(c, n) ==> Crisp(c, q)
  }

  /** No attempt is undecided: the number of failures is. */
  lemma {:induction false} DecideVolume(c: Cohort, n: nat) returns (m: nat)
    requires n <= c.budget && (n > 0 ==> Limit(c, n - 1) < c.end)
    requires forall r: nat :: !Straddles(c, r)
    ensures m <= c.budget && (m > 0 ==> Limit(c, m - 1) < c.end) && (m < c.budget ==> c.end <= Soonest(c, m))
    decreases c.budget - n
  {
    if n == c.budget || c.end <= Soonest(c, n) {
      m := n;
    } else {
      assert !Straddles(c, n);
      m := DecideVolume(c, n + 1);
    }
  }

  /** Attempt volume is invariant to how far one advance jumps, for every table, every interleaving and all
      delays in the bands, if and only if the outage does not end between the soonest and the latest instant of
      an attempt after the first. */
  lemma VolumesAgreeIff(c: Cohort)
    requires Banded(c) && Sharp(c)
    ensures VolumesAgree(c) <==> forall r: nat :: !Straddles(c, r)
  {
    if r: nat :| Straddles(c, r) {
      StraddleDiffers(c, r);
    } else {
      var n := DecideVolume(c, 0);
      if n < c.budget {
        assert n == 0 || forall q: nat :: 1 <= q <= n ==> Crisp(c, q);
        FloorIsSoonest(c, n);
      }
      DecidedAgree(c, n);
    }
  }

  // ---------------------------------------------------------------- the boundary

  /** An advance carries past the outage's end a job whose own instant, nudged, was still inside it: an attempt
      that fine stepping would have failed. */
  ghost predicate Skips(w: World, v: World) {
    w.end.Some? && w.end.value <= v.now
    && exists j :: 0 <= j < |w.items| && Pending(w.items[j], w.now) && w.items[j].scheduledAt + NUDGE < w.end.value
  }

  /** One look and one move of the harness's advancer skip an attempt exactly when the latest pending instant
      lies in the last microsecond before the end, which the guard tests without its nudge, and the earliest,
      nudged, is still inside. */
  lemma AdvanceSkipsIff(w: World, d: Delays)
    requires w.advancer.Watching? && w.end.Some? && !AnyActionable(w.items, w.now) && Latest(w.items, w.now).Some?
    ensures Earliest(w.items, w.now).Some?
    ensures
      var min, max, end := Earliest(w.items, w.now).value, Latest(w.items, w.now).value, w.end.value;
      Skips(w, Next(Next(w, Observe, false, d), Move, false, d)) <==>
        max < end <= max + NUDGE && min + NUDGE < end
  {
    var max := Latest(w.items, w.now).value;
    var j :| 0 <= j < |w.items| && Pending(w.items[j], w.now) && w.items[j].scheduledAt == max;
    var min := Earliest(w.items, w.now).value;
    var i :| 0 <= i < |w.items| && Pending(w.items[i], w.now) && w.items[i].scheduledAt == min;
  }

  /** Two jobs pending inside the outage, the later within a microsecond of its end: the jump lands both
      past the end and the run drains with one failure each, while a fine step fails the first again. */
  lemma BoundaryVolumeDiffers(d: Delays)
    ensures
      var a, b := Item(Retryable, 1000, 1, 2, 1, Some(true)), Item(Retryable, 9999, 1, 2, 1, Some(true));
      var w := World(0, Some(10000), [a, b], Watching, 0);
      var steps := [Observe, Move, Claim(0), Read(0), Finish(0)];
      && Drive(w, steps, false, d).items[0] == a.(state := Succeeded, attempt := 2, read := Some(false))
      && Drive(w, steps, true, d).items[0] == a.(state := Discarded, attempt := 2, failures := 2)
  {
  }
}
