/**
 What a recorder should hold, stated on the list of calls made to it: which series exist
 under the ceiling, how many calls were refused, and what each series' cell contains.
 Observed values are reals.
 */
module MetricHistory {
  import opened Integers
  import opened Series

  datatype Kind = Counter | Gauge | Observation | Histogram

  /** One call and the key of its series; Count carries delta, the others value. */
  datatype Call = Call(kind: Kind, key: string, name: string, tags: Tags, delta: int64, value: real)

  /** The four kinds keep separate maps, so a series is identified by its kind and key. */
  datatype Id = Id(kind: Kind, key: string)

  datatype CounterCell = CounterCell(name: string, tags: Tags, value: int64)
  datatype GaugeCell = GaugeCell(name: string, tags: Tags, value: real)
  datatype ObservedCell = ObservedCell(name: string, tags: Tags, sum: real, count: nat)
  datatype HistogramCell = HistogramCell(
    name: string, tags: Tags, buckets: seq<real>, counts: seq<nat>, sum: real, count: nat)

  function IdOf(c: Call): Id {
    Id(c.kind, c.key)
  }

  // ---------------------------------------------------------------- which series exist

  /** The distinct series in order of first appearance. */
  function Distinct(h: seq<Call>): seq<Id> {
    if |h| == 0 then [] else
    var d, id := Distinct(h[..|h| - 1]), IdOf(h[|h| - 1]);
    if id in d then d else d + [id]
  }

  /** The series let in one call at a time under the ceiling. */
  function Admitted(h: seq<Call>, max: nat): seq<Id> {
    if |h| == 0 then [] else
    var a, id := Admitted(h[..|h| - 1], max), IdOf(h[|h| - 1]);
    if id in a || |a| >= max then a else a + [id]
  }

  /** Exactly the first max distinct series exist. */
  lemma {:induction false} AdmittedAreFirst(h: seq<Call>, max: nat)
    ensures Admitted(h, max) == if |Distinct(h)| <= max then Distinct(h) else Distinct(h)[..max]
  {
    if |h| > 0 { AdmittedAreFirst(h[..|h| - 1], max); }
  }

  /** An established series never disappears. */
  lemma {:induction false} AdmittedStays(h: seq<Call>, more: seq<Call>, max: nat)
    ensures Admitted(h, max) <= Admitted(h + more, max)
    decreases |more|
  {
    if |more| == 0 {
      assert h + more == h;
    } else {
      assert (h + more)[..|h + more| - 1] == h + more[..|more| - 1];
      AdmittedStays(h, more[..|more| - 1], max);
    }
  }

  /** Below the ceiling every series called has been let in. */
  lemma {:induction false} RoomMeansAll(h: seq<Call>, max: nat, i: nat)
    requires |Admitted(h, max)| < max && i < |h|
    ensures IdOf(h[i]) in Admitted(h, max)
  {
    if i < |h| - 1 { RoomMeansAll(h[..|h| - 1], max, i); }
  }

  /** Calls on series outside ids. */
  function Outside(h: seq<Call>, ids: seq<Id>): nat {
    if |h| == 0 then 0
    else Outside(h[..|h| - 1], ids) + (if IdOf(h[|h| - 1]) in ids then 0 else 1)
  }

  lemma {:induction false} OutsideSame(h: seq<Call>, a: seq<Id>, b: seq<Id>)
    requires forall i :: 0 <= i < |h| ==> (IdOf(h[i]) in a <==> IdOf(h[i]) in b)
    ensures Outside(h, a) == Outside(h, b)
  {
    if |h| > 0 { OutsideSame(h[..|h| - 1], a, b); }
  }

  /** Calls on series that were refused. */
  function Dropped(h: seq<Call>, max: nat): nat {
    Outside(h, Admitted(h, max))
  }

  /** One more call: what it does to the ceiling's books. */
  lemma OneMore(h: seq<Call>, c: Call, max: nat)
    ensures
      var a, id := Admitted(h, max), IdOf(c);
      && Admitted(h + [c], max) == (if id in a || |a| >= max then a else a + [id])
      && Dropped(h + [c], max) == Dropped(h, max) + (if id in a || |a| < max then 0 else 1)
  {
    var a, id := Admitted(h, max), IdOf(c);
    assert (h + [c])[..|h|] == h;
    if id !in a && |a| < max {
      forall i | 0 <= i < |h| ensures IdOf(h[i]) in a <==> IdOf(h[i]) in a + [id] { RoomMeansAll(h, max, i); }
      OutsideSame(h, a, a + [id]);
    }
  }

  // ---------------------------------------------------------------- what a series holds

  function CallsOn(h: seq<Call>, id: Id): seq<Call> {
    if |h| == 0 then [] else
    var rest, last := CallsOn(h[..|h| - 1], id), h[|h| - 1];
    if IdOf(last) == id then rest + [last] else rest
  }

  lemma CallsOnNext(h: seq<Call>, c: Call, id: Id)
    ensures CallsOn(h + [c], id) == if IdOf(c) == id then CallsOn(h, id) + [c] else CallsOn(h, id)
  {
  }

  lemma {:induction false} AdmittedHasCalls(h: seq<Call>, max: nat, id: Id)
    requires id in Admitted(h, max)
    ensures |CallsOn(h, id)| > 0
  {
    if id in Admitted(h[..|h| - 1], max) { AdmittedHasCalls(h[..|h| - 1], max, id); }
  }

  /** A series not let in while there was room has had no calls. */
  lemma {:induction false} NoCalls(h: seq<Call>, max: nat, id: Id)
    requires id !in Admitted(h, max) && |Admitted(h, max)| < max
    ensures CallsOn(h, id) == []
  {
    if |h| > 0 { NoCalls(h[..|h| - 1], max, id); }
  }

  /** int64 addition wraps. */
  function Add(a: int64, b: int64): int64 {
    if a + b >= 0x8000_0000_0000_0000 then a + b - 0x1_0000_0000_0000_0000
    else if a + b < -0x8000_0000_0000_0000 then a + b + 0x1_0000_0000_0000_0000
    else a + b
  }

  /** A counter's value after its calls. */
  function CounterValue(calls: seq<Call>): int64 {
    if |calls| == 0 then 0 else Add(CounterValue(calls[..|calls| - 1]), calls[|calls| - 1].delta)
  }

  function DeltaSum(calls: seq<Call>): int {
    if |calls| == 0 then 0 else DeltaSum(calls[..|calls| - 1]) + calls[|calls| - 1].delta
  }

  /** The value is the sum of the deltas modulo 2^64, hence the sum itself whenever that is an int64. */
  lemma {:induction false} CounterIsSum(calls: seq<Call>)
    ensures (CounterValue(calls) - DeltaSum(calls)) % 0x1_0000_0000_0000_0000 == 0
    ensures -0x8000_0000_0000_0000 <= DeltaSum(calls) < 0x8000_0000_0000_0000 ==> CounterValue(calls) == DeltaSum(calls)
  {
    if |calls| > 0 { CounterIsSum(calls[..|calls| - 1]); }
  }

  function ValueSum(calls: seq<Call>): real {
    if |calls| == 0 then 0.0 else ValueSum(calls[..|calls| - 1]) + calls[|calls| - 1].value
  }

  /** The index of the first bound at or above v, or the number of bounds. */
  function FirstAtLeast(buckets: seq<real>, v: real): (i: nat)
    ensures i <= |buckets| && (i < |buckets| ==> v <= buckets[i])
    ensures forall k :: 0 <= k < i ==> buckets[k] < v
  {
    if |buckets| == 0 then 0 else
    var i := FirstAtLeast(buckets[..|buckets| - 1], v);
    if i < |buckets| - 1 then i else if v <= buckets[i] then i else i + 1
  }

  /** How many of the calls' values have bucket i as their first bound at or above. */
  function InBucket(calls: seq<Call>, buckets: seq<real>, i: nat): nat {
    if |calls| == 0 then 0 else
    InBucket(calls[..|calls| - 1], buckets, i) + (if FirstAtLeast(buckets, calls[|calls| - 1].value) == i then 1 else 0)
  }

  function BucketCounts(calls: seq<Call>, buckets: seq<real>): seq<nat> {
    seq(|buckets|, i requires 0 <= i < |buckets| => InBucket(calls, buckets, i))
  }

  /** A cell carries the name and tags of the call that created it. */
  function NameOf(calls: seq<Call>): string {
    if |calls| == 0 then "" else calls[0].name
  }

  function TagsOf(calls: seq<Call>): Tags {
    if |calls| == 0 then map[] else calls[0].tags
  }

  function CounterOf(calls: seq<Call>): CounterCell {
    CounterCell(NameOf(calls), TagsOf(calls), CounterValue(calls))
  }

  /** Last write wins. */
  function GaugeOf(calls: seq<Call>): GaugeCell {
    GaugeCell(NameOf(calls), TagsOf(calls), if |calls| == 0 then 0.0 else calls[|calls| - 1].value)
  }

  function ObservedOf(calls: seq<Call>): ObservedCell {
    ObservedCell(NameOf(calls), TagsOf(calls), ValueSum(calls), |calls|)
  }

  function HistogramOf(buckets: seq<real>): seq<Call> -> HistogramCell {
    (calls: seq<Call>) =>
      HistogramCell(NameOf(calls), TagsOf(calls), buckets, BucketCounts(calls, buckets), ValueSum(calls), |calls|)
  }
}
