/**
 The sharded lock-free recorder at the granularity of its atomic operations: any number
 of record calls on any shards, in any interleaving, and the merge once they have returned.
 */
module HistogramRecorder {
  import opened Histogram
  import opened Integers
  import opened Quantiles

  /** The next atomic operation of a record call. */
  datatype Pc = AddCount | AddN | AddSum | LoadMin | SwapMin(cur: int) | LoadMax | SwapMax(cur: int) | Returned

  datatype Call = Call(shard: nat, ns: int, pc: Pc)

  datatype Shard = Shard(counts: seq<nat>, n: nat, sum: nat, min: int, max: int)

  datatype State = State(shards: seq<Shard>, calls: seq<Call>)

  datatype Step = Enter(shard: nat, d: int) | Advance(call: nat)

  const MIN_INT64: int := -0x8000_0000_0000_0000

  function EmptyShard(): Shard {
    Shard(seq(BUCKETS, _ => 0), 0, 0, MAX_INT64, MIN_INT64)
  }

  /** newRecorder: at least one shard. */
  function Initial(shards: int): (s: State)
    ensures |s.shards| >= 1 && |s.shards| >= shards && (|s.shards| == 1 || |s.shards| == shards)
  {
    State(seq(if shards < 1 then 1 else shards, _ => EmptyShard()), [])
  }

  /** A call's next atomic operation, on its shard. */
  function Act(sh: Shard, call: Call): (r: (Shard, Call))
    requires |sh.counts| == BUCKETS && call.ns >= 0
    ensures |r.0.counts| == BUCKETS && r.1.shard == call.shard && r.1.ns == call.ns
  {
    BucketMonotone(call.ns, call.ns);
    var b := BucketOf(call.ns);
    match call.pc
    case AddCount => (sh.(counts := sh.counts[b := sh.counts[b] + 1]), call.(pc := AddN))
    case AddN => (sh.(n := sh.n + 1), call.(pc := AddSum))
    case AddSum => (sh.(sum := Wrap(sh.sum + call.ns)), call.(pc := LoadMin))
    case LoadMin => (sh, call.(pc := if call.ns >= sh.min then LoadMax else SwapMin(sh.min)))
    case SwapMin(cur) =>
      if sh.min == cur then (sh.(min := call.ns), call.(pc := LoadMax)) else (sh, call.(pc := LoadMin))
    case LoadMax => (sh, call.(pc := if call.ns <= sh.max then Returned else SwapMax(sh.max)))
    case SwapMax(cur) =>
      if sh.max == cur then (sh.(max := call.ns), call.(pc := Returned)) else (sh, call.(pc := LoadMax))
    case Returned => (sh, call)
  }

  ghost predicate Shaped(s: State) {
    && |s.shards| >= 1
    && (forall i :: 0 <= i < |s.shards| ==> |s.shards[i].counts| == BUCKETS)
    && (forall c :: 0 <= c < |s.calls| ==> s.calls[c].shard < |s.shards| && 0 <= s.calls[c].ns <= MAX_INT64)
  }

  ghost function Next(s: State, step: Step): State
    requires Shaped(s)
  {
    match step
    case Enter(shard, d) =>
      // a negative duration is dropped; d ranges over int64
      if d < 0 || d > MAX_INT64 then s
      else s.(calls := s.calls + [Call(shard % |s.shards|, d, AddCount)])
    case Advance(c) =>
      if c >= |s.calls| then s else
      var i := s.calls[c].shard;
      var (sh, call) := Act(s.shards[i], s.calls[c]);
      State(s.shards[i := sh], s.calls[c := call])
  }

  lemma NextShaped(s: State, step: Step)
    requires Shaped(s)
    ensures Shaped(Next(s, step)) && |Next(s, step).shards| == |s.shards|
  {
  }

  ghost function Run(s: State, steps: seq<Step>): State
    requires Shaped(s)
    decreases |steps|
  {
    if |steps| == 0 then s else
    NextShaped(s, steps[0]);
    Run(Next(s, steps[0]), steps[1..])
  }

  // ---------------------------------------------------------------- weights over the calls

  ghost function Weigh(calls: seq<Call>, w: Call -> int): int {
    if |calls| == 0 then 0 else Weigh(calls[..|calls| - 1], w) + w(calls[|calls| - 1])
  }

  lemma {:induction false} WeighUpdate(calls: seq<Call>, c: nat, call: Call, w: Call -> int)
    requires c < |calls|
    ensures Weigh(calls[c := call], w) == Weigh(calls, w) - w(calls[c]) + w(call)
    decreases |calls|
  {
    var n := |calls| - 1;
    if c < n {
      assert calls[c := call][..n] == calls[..n][c := call];
      WeighUpdate(calls[..n], c, call, w);
    } else {
      assert calls[c := call][..n] == calls[..n];
    }
  }

  lemma {:induction false} WeighSum(calls: seq<Call>, w: Call -> int, u: Call -> int, v: Call -> int)
    requires forall c :: 0 <= c < |calls| ==> w(calls[c]) == u(calls[c]) + v(calls[c])
    ensures Weigh(calls, w) == Weigh(calls, u) + Weigh(calls, v)
  {
    if |calls| > 0 { WeighSum(calls[..|calls| - 1], w, u, v); }
  }

  lemma {:induction false} WeighAtMost(calls: seq<Call>, w: Call -> int, u: Call -> int)
    requires forall c :: 0 <= c < |calls| ==> w(calls[c]) <= u(calls[c])
    ensures Weigh(calls, w) <= Weigh(calls, u)
  {
    if |calls| > 0 { WeighAtMost(calls[..|calls| - 1], w, u); }
  }

  /** How many of a call's additions have taken effect: its bucket, n, the sum. */
  function Stage(call: Call): nat {
    match call.pc
    case AddCount => 0
    case AddN => 1
    case AddSum => 2
    case _ => 3
  }

  ghost function BucketWeight(i: nat, b: nat): Call -> int {
    (c: Call) => if c.shard == i && Stage(c) >= 1 && BucketOf(c.ns) == b then 1 else 0
  }

  ghost function CountWeight(i: nat): Call -> int {
    (c: Call) => if c.shard == i && Stage(c) >= 2 then 1 else 0
  }

  ghost function SumWeight(i: nat): Call -> int {
    (c: Call) => if c.shard == i && Stage(c) >= 3 then c.ns else 0
  }

  // ---------------------------------------------------------------- the invariant

  ghost predicate CountsOk(s: State)
    requires Shaped(s)
  {
    forall i, b :: 0 <= i < |s.shards| && 0 <= b < BUCKETS ==>
      s.shards[i].counts[b] == Weigh(s.calls, BucketWeight(i, b))
  }

  ghost predicate NsOk(s: State) {
    forall i :: 0 <= i < |s.shards| ==> s.shards[i].n == Weigh(s.calls, CountWeight(i))
  }

  ghost predicate SumsOk(s: State) {
    forall i :: 0 <= i < |s.shards| ==> IsWrapped(s.shards[i].sum, Weigh(s.calls, SumWeight(i)))
  }

  predicate IsWrapped(x: nat, total: int) {
    x == Wrap(total)
  }

  /** An extreme is the initial one or some call's duration; a call past its loop has been taken into account,
      and one about to swap would improve on what it saw. */
  predicate CallOk(sh: Shard, call: Call) {
    && (call.pc.LoadMax? || call.pc.SwapMax? || call.pc.Returned? ==> sh.min <= call.ns)
    && (call.pc.Returned? ==> call.ns <= sh.max)
    && (call.pc.SwapMin? ==> call.ns < call.pc.cur)
    && (call.pc.SwapMax? ==> call.ns > call.pc.cur)
  }

  ghost predicate Attained(calls: seq<Call>, i: nat, v: int) {
    exists c :: 0 <= c < |calls| && calls[c].shard == i && calls[c].ns == v
  }

  ghost predicate ExtremesOk(s: State)
    requires Shaped(s)
  {
    && (forall c :: 0 <= c < |s.calls| ==> CallOk(s.shards[s.calls[c].shard], s.calls[c]))
    && (forall i :: 0 <= i < |s.shards| ==> s.shards[i].min == MAX_INT64 || Attained(s.calls, i, s.shards[i].min))
    && (forall i :: 0 <= i < |s.shards| ==> s.shards[i].max == MIN_INT64 || Attained(s.calls, i, s.shards[i].max))
  }

  lemma CountsStep(s: State, step: Step)
    requires Shaped(s) && CountsOk(s)
    ensures Shaped(Next(s, step)) && CountsOk(Next(s, step))
  {
    NextShaped(s, step);
    var t := Next(s, step);
    forall i, b | 0 <= i < |t.shards| && 0 <= b < BUCKETS
      ensures t.shards[i].counts[b] == Weigh(t.calls, BucketWeight(i, b))
    {
      if step.Enter? {
        assert t.calls != s.calls ==> t.calls[..|t.calls| - 1] == s.calls;
      } else if step.call < |s.calls| {
        WeighUpdate(s.calls, step.call, t.calls[step.call], BucketWeight(i, b));
      }
    }
  }

  lemma NsStep(s: State, step: Step)
    requires Shaped(s) && NsOk(s)
    ensures Shaped(Next(s, step)) && NsOk(Next(s, step))
  {
    NextShaped(s, step);
    var t := Next(s, step);
    forall i | 0 <= i < |t.shards| ensures t.shards[i].n == Weigh(t.calls, CountWeight(i)) {
      if step.Enter? {
        assert t.calls != s.calls ==> t.calls[..|t.calls| - 1] == s.calls;
      } else if step.call < |s.calls| {
        WeighUpdate(s.calls, step.call, t.calls[step.call], CountWeight(i));
      }
    }
  }

  lemma WrapAdd(x: nat, total: int, ns: nat)
    requires IsWrapped(x, total)
    ensures IsWrapped(Wrap(x + ns), total + ns)
  {
  }

  lemma SumsStep(s: State, step: Step)
    requires Shaped(s) && SumsOk(s)
    ensures Shaped(Next(s, step)) && SumsOk(Next(s, step))
  {
    NextShaped(s, step);
    var t := Next(s, step);
    forall i | 0 <= i < |t.shards| ensures IsWrapped(t.shards[i].sum, Weigh(t.calls, SumWeight(i))) {
      if step.Enter? {
        assert t.calls != s.calls ==> t.calls[..|t.calls| - 1] == s.calls;
      } else if step.call < |s.calls| {
        WeighUpdate(s.calls, step.call, t.calls[step.call], SumWeight(i));
        if s.calls[step.call].pc.AddSum? && s.calls[step.call].shard == i {
          WrapAdd(s.shards[i].sum, Weigh(s.calls, SumWeight(i)), s.calls[step.call].ns);
        }
      }
    }
  }

  lemma AttainedKeeps(s: seq<Call>, t: seq<Call>, i: nat, v: int)
    requires |s| <= |t| && forall c :: 0 <= c < |s| ==> t[c].shard == s[c].shard && t[c].ns == s[c].ns
    requires Attained(s, i, v)
    ensures Attained(t, i, v)
  {
  }

  /** One operation: extremes only widen, to the call's own duration, and what was taken into account stays so. */
  lemma ActExtremes(sh: Shard, call: Call)
    requires |sh.counts| == BUCKETS && call.ns >= 0 && CallOk(sh, call)
    ensures
      var (after, moved) := Act(sh, call);
      && CallOk(after, moved) && after.min <= sh.min && sh.max <= after.max
      && (after.min == sh.min || after.min == call.ns) && (after.max == sh.max || after.max == call.ns)
  {
  }

  lemma CallsStep(s: State, step: Step)
    requires Shaped(s) && ExtremesOk(s)
    ensures Shaped(Next(s, step))
    ensures
      var t := Next(s, step);
      forall c :: 0 <= c < |t.calls| ==> CallOk(t.shards[t.calls[c].shard], t.calls[c])
    ensures forall i :: 0 <= i < |s.shards| ==>
              Next(s, step).shards[i].min <= s.shards[i].min && s.shards[i].max <= Next(s, step).shards[i].max
  {
    NextShaped(s, step);
    if step.Advance? && step.call < |s.calls| {
      ActExtremes(s.shards[s.calls[step.call].shard], s.calls[step.call]);
    }
  }

  lemma AttainedStep(s: State, step: Step)
    requires Shaped(s) && ExtremesOk(s)
    ensures
      var t := Next(s, step);
      && (forall i :: 0 <= i < |t.shards| ==> t.shards[i].min == MAX_INT64 || Attained(t.calls, i, t.shards[i].min))
      && (forall i :: 0 <= i < |t.shards| ==> t.shards[i].max == MIN_INT64 || Attained(t.calls, i, t.shards[i].max))
  {
    NextShaped(s, step);
    var t := Next(s, step);
    if step.Advance? && step.call < |s.calls| {
      ActExtremes(s.shards[s.calls[step.call].shard], s.calls[step.call]);
      assert t.calls[step.call].ns == s.calls[step.call].ns;
    }
    forall i | 0 <= i < |s.shards|
      ensures t.shards[i].min == MAX_INT64 || Attained(t.calls, i, t.shards[i].min)
      ensures t.shards[i].max == MIN_INT64 || Attained(t.calls, i, t.shards[i].max)
    {
      if s.shards[i].min == t.shards[i].min != MAX_INT64 { AttainedKeeps(s.calls, t.calls, i, t.shards[i].min); }
      if s.shards[i].max == t.shards[i].max != MIN_INT64 { AttainedKeeps(s.calls, t.calls, i, t.shards[i].max); }
    }
  }

  // ---------------------------------------------------------------- every run

  ghost predicate Inv(s: State) {
    Shaped(s) && CountsOk(s) && NsOk(s) && SumsOk(s) && ExtremesOk(s)
  }

  lemma StepKeepsInv(s: State, step: Step)
    requires Inv(s)
    ensures Shaped(Next(s, step)) && Inv(Next(s, step))
    ensures forall i :: 0 <= i < |s.shards| ==>
              Next(s, step).shards[i].min <= s.shards[i].min && s.shards[i].max <= Next(s, step).shards[i].max
  {
    CountsStep(s, step);
    NsStep(s, step);
    SumsStep(s, step);
    CallsStep(s, step);
    AttainedStep(s, step);
  }

  lemma InitialInv(shards: int)
    ensures Inv(Initial(shards))
  {
  }

  /** Over every run each shard's min only falls and its max only rises. */
  lemma {:induction false} RunKeepsInv(s: State, steps: seq<Step>)
    requires Inv(s)
    ensures
      var t := Run(s, steps);
      && Inv(t) && |t.shards| == |s.shards|
      && (forall i :: 0 <= i < |s.shards| ==> t.shards[i].min <= s.shards[i].min && s.shards[i].max <= t.shards[i].max)
    decreases |steps|
  {
    if |steps| > 0 {
      StepKeepsInv(s, steps[0]);
      NextShaped(s, steps[0]);
      RunKeepsInv(Next(s, steps[0]), steps[1..]);
    }
  }

  ghost function BelowWeight(i: nat, b: nat): Call -> int {
    (c: Call) => if c.shard == i && Stage(c) >= 1 && BucketOf(c.ns) < b then 1 else 0
  }

  lemma {:induction false} SumOfCounts(s: State, i: nat, b: nat)
    requires Shaped(s) && CountsOk(s) && i < |s.shards| && b <= BUCKETS
    ensures Sum(s.shards[i].counts[..b]) == Weigh(s.calls, BelowWeight(i, b))
    decreases b
  {
    var counts := s.shards[i].counts;
    if b == 0 {
      forall c | 0 <= c < |s.calls| ensures BelowWeight(i, 0)(s.calls[c]) == 0 {
        BucketMonotone(s.calls[c].ns, s.calls[c].ns);
      }
      WeighSum(s.calls, BelowWeight(i, 0), BelowWeight(i, 0), BelowWeight(i, 0));
    } else {
      assert counts[..b][..b - 1] == counts[..b - 1];
      SumOfCounts(s, i, b - 1);
      WeighSum(s.calls, BelowWeight(i, b), BelowWeight(i, b - 1), BucketWeight(i, b - 1));
    }
  }

  /** A reader mid-run never finds fewer observations in the buckets than n says. */
  lemma BucketsNeverBehind(s: State, steps: seq<Step>, i: nat)
    requires Inv(s) && i < |s.shards|
    ensures
      var t := Run(s, steps);
      |t.shards| == |s.shards| && t.shards[i].n <= Sum(t.shards[i].counts)
  {
    RunKeepsInv(s, steps);
    var t := Run(s, steps);
    SumOfCounts(t, i, BUCKETS);
    assert t.shards[i].counts[..BUCKETS] == t.shards[i].counts;
    forall c | 0 <= c < |t.calls| ensures CountWeight(i)(t.calls[c]) <= BelowWeight(i, BUCKETS)(t.calls[c]) {
      BucketMonotone(t.calls[c].ns, t.calls[c].ns);
    }
    WeighAtMost(t.calls, CountWeight(i), BelowWeight(i, BUCKETS));
  }

  // ---------------------------------------------------------------- merge

  function AddCounts(a: seq<nat>, b: seq<nat>): seq<nat>
    requires |a| == |b|
  {
    seq(|a|, k requires 0 <= k < |a| => a[k] + b[k])
  }

  predicate AllShaped(shards: seq<Shard>) {
    forall i :: 0 <= i < |shards| ==> |shards[i].counts| == BUCKETS
  }

  /** The shards collapsed: counts and n add, the sum wraps, the extremes widen. */
  function Collapsed(shards: seq<Shard>): (r: Shard)
    requires AllShaped(shards)
    ensures |r.counts| == BUCKETS
  {
    if |shards| == 0 then EmptyShard() else
    Combined(Collapsed(shards[..|shards| - 1]), shards[|shards| - 1])
  }

  function Combined(out: Shard, s: Shard): Shard
    requires |out.counts| == |s.counts|
  {
    Shard(AddCounts(out.counts, s.counts), out.n + s.n, Wrap(out.sum + s.sum),
          if s.min < out.min then s.min else out.min, if s.max > out.max then s.max else out.max)
  }

  lemma CollapsedNext(shards: seq<Shard>, i: nat)
    requires AllShaped(shards) && 1 <= i <= |shards|
    ensures AllShaped(shards[..i]) && AllShaped(shards[..i - 1])
    ensures Collapsed(shards[..i]) == Combined(Collapsed(shards[..i - 1]), shards[i - 1])
  {
    assert shards[..i][..i - 1] == shards[..i - 1];
  }

  function MergedOf(c: Shard): Merged
    requires |c.counts| == BUCKETS
  {
    Merged(c.counts, c.n, c.sum, c.min, c.max, c.counts[UNDERFLOW], c.counts[OVERFLOW])
  }

  method Merge(shards: seq<Shard>) returns (m: Merged)
    requires AllShaped(shards)
    ensures m == MergedOf(Collapsed(shards))
  {
    var out := EmptyShard();
    for i := 0 to |shards|
      invariant out == Collapsed(shards[..i])
    {
      var s := shards[i];
      var counts := out.counts;
      for b := 0 to BUCKETS
        invariant |counts| == BUCKETS
        invariant forall k :: 0 <= k < b ==> counts[k] == out.counts[k] + s.counts[k]
        invariant forall k :: b <= k < BUCKETS ==> counts[k] == out.counts[k]
      {
        counts := counts[b := counts[b] + s.counts[b]];
      }
      assert counts == AddCounts(out.counts, s.counts);
      assert shards[..i + 1][..i] == shards[..i];
      out := Shard(counts, out.n + s.n, Wrap(out.sum + s.sum),
        if s.min < out.min then s.min else out.min, if s.max > out.max then s.max else out.max);
    }
    assert shards[..|shards|] == shards;
    m := Merged(out.counts, out.n, out.sum, out.min, out.max, out.counts[UNDERFLOW], out.counts[OVERFLOW]);
  }

  /** The durations recorded, in the order the calls began. */
  function Observed(calls: seq<Call>): (r: seq<int>)
    ensures |r| == |calls| && forall c :: 0 <= c < |calls| ==> r[c] == calls[c].ns
  {
    if |calls| == 0 then [] else Observed(calls[..|calls| - 1]) + [calls[|calls| - 1].ns]
  }

  ghost predicate AllReturned(calls: seq<Call>) {
    forall c :: 0 <= c < |calls| ==> calls[c].pc.Returned?
  }

  ghost function ShardsBucket(i: nat, b: nat): Call -> int {
    (c: Call) => if c.shard < i && BucketOf(c.ns) == b then 1 else 0
  }

  ghost function ShardsCount(i: nat): Call -> int {
    (c: Call) => if c.shard < i then 1 else 0
  }

  ghost function ShardsSum(i: nat): Call -> int {
    (c: Call) => if c.shard < i then c.ns else 0
  }

  lemma {:induction false} CollapsedCounts(s: State, i: nat, b: nat)
    requires Shaped(s) && CountsOk(s) && AllReturned(s.calls) && i <= |s.shards| && b < BUCKETS
    ensures AllShaped(s.shards[..i]) && Collapsed(s.shards[..i]).counts[b] == Weigh(s.calls, ShardsBucket(i, b))
    decreases i
  {
    if i == 0 {
      WeighSum(s.calls, ShardsBucket(0, b), ShardsBucket(0, b), ShardsBucket(0, b));
    } else {
      CollapsedNext(s.shards, i);
      CollapsedCounts(s, i - 1, b);
      WeighSum(s.calls, ShardsBucket(i, b), ShardsBucket(i - 1, b), BucketWeight(i - 1, b));
    }
  }

  lemma {:induction false} CollapsedN(s: State, i: nat)
    requires Shaped(s) && NsOk(s) && AllReturned(s.calls) && i <= |s.shards|
    ensures AllShaped(s.shards[..i]) && Collapsed(s.shards[..i]).n == Weigh(s.calls, ShardsCount(i))
    decreases i
  {
    if i == 0 {
      WeighSum(s.calls, ShardsCount(0), ShardsCount(0), ShardsCount(0));
    } else {
      CollapsedNext(s.shards, i);
      CollapsedN(s, i - 1);
      WeighSum(s.calls, ShardsCount(i), ShardsCount(i - 1), CountWeight(i - 1));
    }
  }

  lemma WrapBoth(x: nat, a: int, y: nat, b: int)
    requires IsWrapped(x, a) && IsWrapped(y, b)
    ensures IsWrapped(Wrap(x + y), a + b)
  {
  }

  lemma {:induction false} CollapsedSum(s: State, i: nat)
    requires Shaped(s) && SumsOk(s) && AllReturned(s.calls) && i <= |s.shards|
    ensures AllShaped(s.shards[..i]) && IsWrapped(Collapsed(s.shards[..i]).sum, Weigh(s.calls, ShardsSum(i)))
    decreases i
  {
    if i == 0 {
      WeighSum(s.calls, ShardsSum(0), ShardsSum(0), ShardsSum(0));
    } else {
      CollapsedNext(s.shards, i);
      CollapsedSum(s, i - 1);
      WeighSum(s.calls, ShardsSum(i), ShardsSum(i - 1), SumWeight(i - 1));
      WrapBoth(Collapsed(s.shards[..i - 1]).sum, Weigh(s.calls, ShardsSum(i - 1)),
        s.shards[i - 1].sum, Weigh(s.calls, SumWeight(i - 1)));
    }
  }

  ghost predicate AnyNs(calls: seq<Call>, v: int) {
    exists c :: 0 <= c < |calls| && calls[c].ns == v
  }

  lemma {:induction false} CollapsedExtremes(s: State, i: nat)
    requires Shaped(s) && ExtremesOk(s) && AllReturned(s.calls) && i <= |s.shards|
    ensures AllShaped(s.shards[..i])
    ensures
      var r := Collapsed(s.shards[..i]);
      && (forall c :: 0 <= c < |s.calls| && s.calls[c].shard < i ==> r.min <= s.calls[c].ns <= r.max)
      && (r.min == MAX_INT64 || AnyNs(s.calls, r.min)) && (r.max == MIN_INT64 || AnyNs(s.calls, r.max))
    decreases i
  {
    if i > 0 {
      CollapsedNext(s.shards, i);
      CollapsedExtremes(s, i - 1);
      forall c | 0 <= c < |s.calls| && s.calls[c].shard == i - 1
        ensures s.shards[i - 1].min <= s.calls[c].ns <= s.shards[i - 1].max
      {
        assert CallOk(s.shards[s.calls[c].shard], s.calls[c]);
      }
    }
  }

  lemma {:induction false} WeighObserved(calls: seq<Call>, shards: nat, b: nat)
    requires forall c :: 0 <= c < |calls| ==> calls[c].shard < shards
    ensures Weigh(calls, ShardsBucket(shards, b)) == CountIn(Observed(calls), b, BucketOf)
    ensures Weigh(calls, ShardsCount(shards)) == |calls|
    ensures Weigh(calls, ShardsSum(shards)) == Total(Observed(calls))
  {
    if |calls| > 0 {
      assert Observed(calls)[..|calls| - 1] == Observed(calls[..|calls| - 1]);
      WeighObserved(calls[..|calls| - 1], shards, b);
    }
  }

  lemma Seen(calls: seq<Call>, v: int)
    requires AnyNs(calls, v)
    ensures v in Observed(calls)
  {
    var c :| 0 <= c < |calls| && calls[c].ns == v;
    assert Observed(calls)[c] == v;
  }

  lemma LeastOf(calls: seq<Call>, min: int)
    requires |calls| > 0 && (min == MAX_INT64 || AnyNs(calls, min))
    requires forall c :: 0 <= c < |calls| ==> min <= calls[c].ns <= MAX_INT64
    ensures IsLeast(Observed(calls), min)
  {
    if min == MAX_INT64 { assert calls[0].ns == min; }
    Seen(calls, min);
  }

  lemma GreatestOf(calls: seq<Call>, max: int)
    requires |calls| > 0 && (max == MIN_INT64 || AnyNs(calls, max))
    requires forall c :: 0 <= c < |calls| ==> 0 <= calls[c].ns <= max
    ensures IsGreatest(Observed(calls), max)
  {
    assert 0 <= calls[0].ns;
    Seen(calls, max);
  }

  lemma SettledCounts(t: State, b: nat)
    requires Inv(t) && AllReturned(t.calls) && b < BUCKETS
    ensures AllShaped(t.shards) && Collapsed(t.shards).counts[b] == CountIn(Observed(t.calls), b, BucketOf)
  {
    assert t.shards[..|t.shards|] == t.shards;
    CollapsedCounts(t, |t.shards|, b);
    WeighObserved(t.calls, |t.shards|, b);
  }

  lemma SettledTotals(t: State)
    requires Inv(t) && AllReturned(t.calls)
    ensures
      var c := Collapsed(t.shards);
      && c.n == |t.calls| && c.sum == Wrap(Total(Observed(t.calls)))
      && (|t.calls| > 0 ==> IsLeast(Observed(t.calls), c.min) && IsGreatest(Observed(t.calls), c.max))
  {
    assert t.shards[..|t.shards|] == t.shards;
    CollapsedN(t, |t.shards|);
    CollapsedSum(t, |t.shards|);
    WeighObserved(t.calls, |t.shards|, 0);
    CollapsedExtremes(t, |t.shards|);
    if |t.calls| > 0 {
      LeastOf(t.calls, Collapsed(t.shards).min);
      GreatestOf(t.calls, Collapsed(t.shards).max);
    }
  }

  /** However the calls interleaved and whatever shards they used, once all have returned the merge is the
      sequential histogram of every non-negative duration recorded: exact counts, extremes and sum. */
  lemma MergeIsSequential(shards: int, steps: seq<Step>)
    requires AllReturned(Run(Initial(shards), steps).calls)
    ensures
      var t := Run(Initial(shards), steps);
      AllShaped(t.shards) && Summarizes(MergedOf(Collapsed(t.shards)), Observed(t.calls))
  {
    InitialInv(shards);
    RunKeepsInv(Initial(shards), steps);
    var t := Run(Initial(shards), steps);
    SettledTotals(t);
    forall b | 0 <= b < BUCKETS
      ensures Collapsed(t.shards).counts[b] == CountIn(Observed(t.calls), b, BucketOf)
    {
      SettledCounts(t, b);
    }
  }

  /** From the first record call to the report: however any number of calls interleaved on any shards, each
      quantile of what they recorded is reported within its bucket, between the extremes and within the error
      bound of the true observation of its rank. */
  lemma RecordedQuantileAccurate(shards: int, steps: seq<Step>, sorted: seq<int>, num: nat, den: nat)
    requires
      var t := Run(Initial(shards), steps);
      AllReturned(t.calls) && |t.calls| > 0 && IsSorting(sorted, Observed(t.calls))
    requires 0 < den && num <= den
    ensures
      var t := Run(Initial(shards), steps);
      var n := |t.calls|;
      && AllShaped(t.shards) && |sorted| == n && 1 <= Rank(n, num, den) <= n
      && Reports(MergedOf(Collapsed(t.shards)), sorted[Rank(n, num, den) - 1],
                 Report(MergedOf(Collapsed(t.shards)), Rank(n, num, den)))
  {
    var t := Run(Initial(shards), steps);
    MergeIsSequential(shards, steps);
    LatencyAccurate(MergedOf(Collapsed(t.shards)), Observed(t.calls), sorted, num, den);
  }
}
