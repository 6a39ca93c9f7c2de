/**
 The harness clock: one atomic offset that concurrent advanceTo calls move forward
 with a load and a compare-and-swap, retried on interference.
 */
module HarnessClock {

  /** About to load, about to swap from the value loaded, or returned. */
  datatype Pc = Load | Swap(seen: int) | Returned

  datatype Call = Call(target: int, pc: Pc)

  datatype State = State(offset: int, calls: seq<Call>)

  datatype Step = Enter(target: int) | Advance(call: nat)

  function Next(s: State, step: Step): State {
    match step
    case Enter(target) => s.(calls := s.calls + [Call(target, Load)])
    case Advance(c) =>
      if c >= |s.calls| then s else
      var call := s.calls[c];
      match call.pc
      case Load =>
        s.(calls := s.calls[c := call.(pc := if call.target <= s.offset then Returned else Swap(s.offset))])
      case Swap(seen) =>
        if s.offset == seen
        then State(call.target, s.calls[c := call.(pc := Returned)])
        else s.(calls := s.calls[c := call.(pc := Load)])
      case Returned => s
  }

  function Run(s: State, steps: seq<Step>): State
    decreases |steps|
  {
    if |steps| == 0 then s else Run(Next(s, steps[0]), steps[1..])
  }

  /** The furthest instant anyone has asked for. */
  function Furthest(start: int, calls: seq<Call>): (r: int)
    ensures start <= r
    ensures forall c :: 0 <= c < |calls| ==> calls[c].target <= r
    ensures r == start || exists c :: 0 <= c < |calls| && calls[c].target == r
  {
    if |calls| == 0 then start else
    var rest := Furthest(start, calls[..|calls| - 1]);
    if rest < calls[|calls| - 1].target then calls[|calls| - 1].target else rest
  }

  ghost predicate Inv(start: int, s: State) {
    && start <= s.offset <= Furthest(start, s.calls)
    && (forall c :: 0 <= c < |s.calls| ==> CallOk(s.offset, s.calls[c]))
  }

  /** A returned call has been reached; one about to swap would move the clock forward. */
  predicate CallOk(offset: int, call: Call) {
    && (call.pc.Returned? ==> call.target <= offset)
    && (call.pc.Swap? ==> call.pc.seen < call.target)
  }

  lemma FurthestKeeps(start: int, before: seq<Call>, after: seq<Call>)
    requires |before| == |after| && forall c :: 0 <= c < |before| ==> before[c].target == after[c].target
    ensures Furthest(start, before) <= Furthest(start, after)
  {
  }

  lemma StepKeepsInv(start: int, s: State, step: Step)
    requires Inv(start, s)
    ensures Inv(start, Next(s, step)) && s.offset <= Next(s, step).offset
  {
    match step {
      case Enter(target) => assert (s.calls + [Call(target, Load)])[..|s.calls|] == s.calls;
      case Advance(c) =>
        if c < |s.calls| { FurthestKeeps(start, s.calls, Next(s, step).calls); }
    }
  }

  /** Over every interleaving the offset only grows, a returned call has been reached, and once every call
      has returned the clock stands at the furthest target (or where it started). */
  lemma {:induction false} ClockEndsAtFurthest(start: int, s: State, steps: seq<Step>)
    requires Inv(start, s)
    ensures
      var t := Run(s, steps);
      && Inv(start, t) && s.offset <= t.offset
      && ((forall c :: 0 <= c < |t.calls| ==> t.calls[c].pc.Returned?) ==> t.offset == Furthest(start, t.calls))
    decreases |steps|
  {
    if |steps| > 0 {
      StepKeepsInv(start, s, steps[0]);
      ClockEndsAtFurthest(start, Next(s, steps[0]), steps[1..]);
    }
  }
}
