/**
 The in-memory metrics recorder: four keyed maps of cells under one combined series
 ceiling. Every call keeps the maps equal to what the whole call history says they hold.
 */
module MemRecorder {
  import opened Integers
  import opened Series
  import opened MetricHistory

  const DEFAULT_MAX_SERIES: nat := 10000

  function DefaultLatencyBuckets(): seq<real> {
    [0.0005, 0.001, 0.0025, 0.005, 0.01, 0.025, 0.05, 0.1, 0.25, 0.5, 1.0, 2.5, 5.0, 10.0]
  }

  ghost predicate Increasing(s: seq<real>) {
    forall i, j :: 0 <= i <= j < |s| ==> s[i] <= s[j]
  }

  /** Where v belongs in an increasing list. */
  function Place(s: seq<real>, v: real): (i: nat)
    ensures i <= |s| && (forall k :: 0 <= k < i ==> s[k] <= v) && (i < |s| ==> v < s[i])
  {
    if |s| == 0 then 0 else
    var i := Place(s[..|s| - 1], v);
    if i < |s| - 1 || v < s[i] then i else i + 1
  }

  function Inserted(s: seq<real>, v: real): seq<real> {
    s[..Place(s, v)] + [v] + s[Place(s, v)..]
  }

  lemma InsertedCounts(s: seq<real>, v: real)
    ensures multiset(Inserted(s, v)) == multiset(s) + multiset{v}
  {
    var i := Place(s, v);
    assert s == s[..i] + s[i..];
  }

  lemma InsertedIncreases(s: seq<real>, v: real)
    requires Increasing(s)
    ensures Increasing(Inserted(s, v))
  {
    var i, r := Place(s, v), Inserted(s, v);
    forall j, k | 0 <= j <= k < |r| ensures r[j] <= r[k] {
      assert r[j] == if j < i then s[j] else if j == i then v else s[j - 1];
      assert r[k] == if k < i then s[k] else if k == i then v else s[k - 1];
    }
  }

  /** slices.Sort on a copy. */
  function Sorted(s: seq<real>): seq<real> {
    if |s| == 0 then [] else Inserted(Sorted(s[..|s| - 1]), s[|s| - 1])
  }

  lemma {:induction false} SortedSorts(s: seq<real>)
    ensures Increasing(Sorted(s)) && multiset(Sorted(s)) == multiset(s)
  {
    if |s| > 0 {
      var front, last := s[..|s| - 1], s[|s| - 1];
      SortedSorts(front);
      InsertedIncreases(Sorted(front), last);
      InsertedCounts(Sorted(front), last);
      assert s == front + [last];
    }
  }

  // ---------------------------------------------------------------- what the history says the maps hold

  function KeysOf(kind: Kind, ids: seq<Id>): (r: set<string>)
    ensures forall k :: k in r <==> Id(kind, k) in ids
  {
    if |ids| == 0 then {} else
    var rest, last := KeysOf(kind, ids[..|ids| - 1]), ids[|ids| - 1];
    assert ids == ids[..|ids| - 1] + [last];
    if last.kind == kind then rest + {last.key} else rest
  }

  /** One kind's map: the admitted series of that kind, each with the fold of every call on it. */
  ghost function Expected<C>(kind: Kind, h: seq<Call>, max: nat, fold: seq<Call> -> C): map<string, C> {
    map k | k in KeysOf(kind, Admitted(h, max)) :: fold(CallsOn(h, Id(kind, k)))
  }

  lemma ExpectedAt<C>(kind: Kind, h: seq<Call>, max: nat, fold: seq<Call> -> C, k: string)
    ensures k in Expected(kind, h, max, fold) <==> Id(kind, k) in Admitted(h, max)
    ensures k in Expected(kind, h, max, fold) ==> Expected(kind, h, max, fold)[k] == fold(CallsOn(h, Id(kind, k)))
  {
  }

  /** A call leaves the other kinds' maps alone. */
  lemma OtherKind<C>(kind: Kind, h: seq<Call>, c: Call, max: nat, fold: seq<Call> -> C)
    requires kind != c.kind
    ensures Expected(kind, h + [c], max, fold) == Expected(kind, h, max, fold)
  {
  }

  /** The map a call on a series of its own kind makes of m. */
  ghost function Touched<C>(h: seq<Call>, c: Call, max: nat, fold: seq<Call> -> C, m: map<string, C>): map<string, C> {
    if c.key in m || |Admitted(h, max)| < max then m[c.key := fold(CallsOn(h, IdOf(c)) + [c])] else m
  }

  lemma SameKindKeys<C>(h: seq<Call>, c: Call, max: nat, fold: seq<Call> -> C, k: string)
    ensures k in Expected(c.kind, h + [c], max, fold) <==>
            k in Touched(h, c, max, fold, Expected(c.kind, h, max, fold))
  {
    OneMore(h, c, max);
    ExpectedAt(c.kind, h, max, fold, c.key);
    ExpectedAt(c.kind, h, max, fold, k);
    ExpectedAt(c.kind, h + [c], max, fold, k);
  }

  lemma SameKindCell<C>(h: seq<Call>, c: Call, max: nat, fold: seq<Call> -> C, k: string)
    requires k in Expected(c.kind, h + [c], max, fold)
    requires k in Touched(h, c, max, fold, Expected(c.kind, h, max, fold))
    ensures Expected(c.kind, h + [c], max, fold)[k] == Touched(h, c, max, fold, Expected(c.kind, h, max, fold))[k]
  {
    OneMore(h, c, max);
    ExpectedAt(c.kind, h, max, fold, c.key);
    ExpectedAt(c.kind, h, max, fold, k);
    ExpectedAt(c.kind, h + [c], max, fold, k);
    CallsOnNext(h, c, Id(c.kind, k));
  }

  lemma MapsEqual<C>(a: map<string, C>, b: map<string, C>)
    requires forall k :: k in a <==> k in b
    requires forall k :: k in a && k in b ==> a[k] == b[k]
    ensures a == b
  {
  }

  /** A call on a series of its own kind: that series' cell takes the call, a new series gets the cell its
      first call makes, and a refused one changes nothing. */
  lemma SameKind<C>(h: seq<Call>, c: Call, max: nat, fold: seq<Call> -> C)
    ensures
      var m, calls := Expected(c.kind, h, max, fold), CallsOn(h, IdOf(c));
      && (c.key in m <==> IdOf(c) in Admitted(h, max))
      && (c.key in m ==> |calls| > 0 && m[c.key] == fold(calls))
      && (c.key !in m && |Admitted(h, max)| < max ==> calls == [])
      && Expected(c.kind, h + [c], max, fold) == Touched(h, c, max, fold, m)
  {
    var m, next := Expected(c.kind, h, max, fold), Expected(c.kind, h + [c], max, fold);
    var after := Touched(h, c, max, fold, m);
    forall k ensures k in next <==> k in after { SameKindKeys(h, c, max, fold, k); }
    forall k | k in next && k in after ensures next[k] == after[k] { SameKindCell(h, c, max, fold, k); }
    MapsEqual(next, after);
    ExpectedAt(c.kind, h, max, fold, c.key);
    if c.key in m { AdmittedHasCalls(h, max, IdOf(c)); }
    else if |Admitted(h, max)| < max { NoCalls(h, max, IdOf(c)); }
  }

  // ---------------------------------------------------------------- one more call on a cell

  lemma CounterNext(calls: seq<Call>, c: Call)
    ensures
      var was := if |calls| > 0 then CounterOf(calls) else CounterCell(c.name, c.tags, 0);
      CounterOf(calls + [c]) == was.(value := Add(was.value, c.delta))
  {
    assert (calls + [c])[..|calls|] == calls;
    assert |calls| == 0 ==> CounterValue(calls) == 0;
    assert CounterValue(calls + [c]) == Add(CounterValue(calls), c.delta);
  }

  function Folded(cell: ObservedCell, value: real): ObservedCell {
    cell.(sum := cell.sum + value, count := cell.count + 1)
  }

  lemma ObservedNext(calls: seq<Call>, c: Call)
    ensures
      var was := if |calls| > 0 then ObservedOf(calls) else ObservedCell(c.name, c.tags, 0.0, 0);
      ObservedOf(calls + [c]) == Folded(was, c.value)
  {
    assert (calls + [c])[..|calls|] == calls;
    assert |calls| == 0 ==> ValueSum(calls) == 0.0;
    assert ValueSum(calls + [c]) == ValueSum(calls) + c.value;
  }

  function EmptyCounts(n: nat): seq<nat> {
    seq(n, _ => 0)
  }

  lemma BucketCountsNext(calls: seq<Call>, c: Call, buckets: seq<real>)
    ensures
      var was, i := BucketCounts(calls, buckets), FirstAtLeast(buckets, c.value);
      BucketCounts(calls + [c], buckets) == if i < |was| then was[i := was[i] + 1] else was
    ensures |calls| == 0 ==> BucketCounts(calls, buckets) == EmptyCounts(|buckets|)
  {
    assert (calls + [c])[..|calls|] == calls;
  }

  /** A histogram cell with one more value. */
  function Lifted(cell: HistogramCell, value: real): HistogramCell {
    var i := FirstAtLeast(cell.buckets, value);
    cell.(counts := if i < |cell.counts| then cell.counts[i := cell.counts[i] + 1] else cell.counts,
          sum := cell.sum + value, count := cell.count + 1)
  }

  method Lift(cell: HistogramCell, value: real) returns (r: HistogramCell)
    ensures r == Lifted(cell, value)
  {
    r := cell;
    var i := FirstAtLeast(r.buckets, value);
    if i < |r.counts| { r := r.(counts := r.counts[i := r.counts[i] + 1]); }
    r := r.(sum := r.sum + value, count := r.count + 1);
  }

  lemma HistogramNext(calls: seq<Call>, c: Call, buckets: seq<real>)
    ensures
      var was := if |calls| > 0 then HistogramOf(buckets)(calls)
                 else HistogramCell(c.name, c.tags, buckets, EmptyCounts(|buckets|), 0.0, 0);
      HistogramOf(buckets)(calls + [c]) == Lifted(was, c.value)
  {
    BucketCountsNext(calls, c, buckets);
    assert (calls + [c])[..|calls|] == calls;
    assert |calls| == 0 ==> ValueSum(calls) == 0.0;
    assert ValueSum(calls + [c]) == ValueSum(calls) + c.value;
  }

  // ---------------------------------------------------------------- the recorder's state, call by call

  datatype Cells = Cells(
    counters: map<string, CounterCell>,
    gauges: map<string, GaugeCell>,
    observed: map<string, ObservedCell>,
    histograms: map<string, HistogramCell>,
    dropped: nat)
  {
    function Size(): nat {
      |counters| + |gauges| + |observed| + |histograms|
    }
  }

  /** The cell a map holds for key, or the one a first call would create. */
  function CellAt<C>(m: map<string, C>, key: string, created: C): C {
    if key in m then m[key] else created
  }

  predicate Known(s: Cells, c: Call) {
    match c.kind
    case Counter => c.key in s.counters
    case Gauge => c.key in s.gauges
    case Observation => c.key in s.observed
    case Histogram => c.key in s.histograms
  }

  /** The call's series takes it, created first if need be. */
  function Taken(s: Cells, c: Call, buckets: seq<real>): Cells {
    match c.kind
    case Counter =>
      var cell := CellAt(s.counters, c.key, CounterCell(c.name, c.tags, 0));
      s.(counters := s.counters[c.key := cell.(value := Add(cell.value, c.delta))])
    case Gauge =>
      var cell := CellAt(s.gauges, c.key, GaugeCell(c.name, c.tags, 0.0));
      s.(gauges := s.gauges[c.key := cell.(value := c.value)])
    case Observation =>
      var cell := CellAt(s.observed, c.key, ObservedCell(c.name, c.tags, 0.0, 0));
      s.(observed := s.observed[c.key := Folded(cell, c.value)])
    case Histogram =>
      var cell := CellAt(s.histograms, c.key, HistogramCell(c.name, c.tags, buckets, EmptyCounts(|buckets|), 0.0, 0));
      s.(histograms := s.histograms[c.key := Lifted(cell, c.value)])
  }

  /** What a call does, under the ceiling. */
  function After(s: Cells, c: Call, max: nat, buckets: seq<real>): Cells {
    if !Known(s, c) && s.Size() >= max then s.(dropped := s.dropped + 1) else Taken(s, c, buckets)
  }

  function Recorded(h: seq<Call>, max: nat, buckets: seq<real>): Cells {
    if |h| == 0 then Cells(map[], map[], map[], map[], 0)
    else After(Recorded(h[..|h| - 1], max, buckets), h[|h| - 1], max, buckets)
  }

  lemma RecordedNext(h: seq<Call>, c: Call, max: nat, buckets: seq<real>)
    ensures Recorded(h + [c], max, buckets) == After(Recorded(h, max, buckets), c, max, buckets)
  {
  }

  // ---------------------------------------------------------------- snapshots

  /** Every series copied out, each kind in ascending key order. */
  datatype Snapshot = Snapshot(
    counters: seq<CounterCell>,
    observations: seq<ObservedCell>,
    histograms: seq<HistogramCell>,
    gauges: seq<GaugeCell>,
    droppedSeries: nat)

  /** A map's cells in ascending key order. */
  function InKeyOrder<C>(m: map<string, C>): (r: seq<C>)
    ensures |r| == |m|
    ensures forall i :: 0 <= i < |r| ==> SortedKeys(m.Keys)[i] in m && r[i] == m[SortedKeys(m.Keys)[i]]
  {
    var keys := SortedKeys(m.Keys);
    assert forall i :: 0 <= i < |keys| ==> keys[i] in keys;
    seq(|keys|, i requires 0 <= i < |keys| => m[keys[i]])
  }

  method SnapshotSeries<C>(m: map<string, C>) returns (out: seq<C>)
    ensures out == InKeyOrder(m)
  {
    var keys := SortedKeys(m.Keys);
    out := [];
    for i := 0 to |keys|
      invariant out == InKeyOrder(m)[..i]
    {
      assert keys[i] in keys;
      out := out + [m[keys[i]]];
    }
  }

  function SnapshotOf(s: Cells): Snapshot {
    Snapshot(InKeyOrder(s.counters), InKeyOrder(s.observed), InKeyOrder(s.histograms), InKeyOrder(s.gauges), s.dropped)
  }

  class Recorder {
    var counters: map<string, CounterCell>
    var gauges: map<string, GaugeCell>
    var observed: map<string, ObservedCell>
    var histograms: map<string, HistogramCell>
    const buckets: seq<real>
    const maxSeries: nat
    var droppedSeries: nat
    ghost var history: seq<Call>

    function Now(): Cells
      reads this
    {
      Cells(counters, gauges, observed, histograms, droppedSeries)
    }

    ghost predicate Valid()
      reads this
    {
      maxSeries >= 1 && Increasing(buckets) && Now() == Recorded(history, maxSeries, buckets)
    }

    constructor (configBuckets: seq<real>, configMaxSeries: int)
      ensures Valid() && history == []
      ensures multiset(buckets) == multiset(if |configBuckets| == 0 then DefaultLatencyBuckets() else configBuckets)
      ensures maxSeries == if configMaxSeries <= 0 then DEFAULT_MAX_SERIES else configMaxSeries
    {
      counters, gauges, observed, histograms := map[], map[], map[], map[];
      var unsorted := if |configBuckets| == 0 then DefaultLatencyBuckets() else configBuckets;
      SortedSorts(unsorted);
      buckets := Sorted(unsorted);
      maxSeries := if configMaxSeries <= 0 then DEFAULT_MAX_SERIES else configMaxSeries;
      droppedSeries := 0;
      history := [];
    }

    predicate AtSeriesCap()
      reads this
    {
      |counters| + |gauges| + |observed| + |histograms| >= maxSeries
    }

    method Count(name: string, delta: int64, tags: Tags)
      requires Valid()
      modifies this
      ensures Valid() && history == old(history) + [Call(Counter, Key(name, tags), name, tags, delta, 0.0)]
    {
      var key := SeriesKey(name, tags);
      ghost var c := Call(Counter, key, name, tags, delta, 0.0);
      RecordedNext(history, c, maxSeries, buckets);
      history := history + [c];
      var cell := CounterCell(name, tags, 0);
      if key in counters {
        cell := counters[key];
      } else if AtSeriesCap() {
        droppedSeries := droppedSeries + 1;
        return;
      }
      counters := counters[key := cell.(value := Add(cell.value, delta))];
    }

    method Gauge(name: string, value: real, tags: Tags)
      requires Valid()
      modifies this
      ensures Valid() && history == old(history) + [Call(Kind.Gauge, Key(name, tags), name, tags, 0, value)]
    {
      var key := SeriesKey(name, tags);
      ghost var c := Call(Kind.Gauge, key, name, tags, 0, value);
      RecordedNext(history, c, maxSeries, buckets);
      history := history + [c];
      var cell := GaugeCell(name, tags, 0.0);
      if key in gauges {
        cell := gauges[key];
      } else if AtSeriesCap() {
        droppedSeries := droppedSeries + 1;
        return;
      }
      gauges := gauges[key := cell.(value := value)];
    }

    method Observe(name: string, value: real, tags: Tags)
      requires Valid()
      modifies this
      ensures Valid() && history == old(history) + [Call(Observation, Key(name, tags), name, tags, 0, value)]
    {
      var key := SeriesKey(name, tags);
      ghost var c := Call(Observation, key, name, tags, 0, value);
      RecordedNext(history, c, maxSeries, buckets);
      history := history + [c];
      var cell := ObservedCell(name, tags, 0.0, 0);
      if key in observed {
        cell := observed[key];
      } else if AtSeriesCap() {
        droppedSeries := droppedSeries + 1;
        return;
      }
      observed := observed[key := cell.(sum := cell.sum + value, count := cell.count + 1)];
    }

    method Histogram(name: string, value: real, tags: Tags)
      requires Valid()
      modifies this
      ensures Valid() && history == old(history) + [Call(Kind.Histogram, Key(name, tags), name, tags, 0, value)]
    {
      var key := SeriesKey(name, tags);
      ghost var c := Call(Kind.Histogram, key, name, tags, 0, value);
      RecordedNext(history, c, maxSeries, buckets);
      history := history + [c];
      var cell := HistogramCell(name, tags, buckets, EmptyCounts(|buckets|), 0.0, 0);
      if key in histograms {
        cell := histograms[key];
      } else if AtSeriesCap() {
        droppedSeries := droppedSeries + 1;
        return;
      }
      cell := Lift(cell, value);
      histograms := histograms[key := cell];
    }

    method TakeSnapshot() returns (snap: Snapshot)
      requires Valid()
      ensures snap == SnapshotOf(Recorded(history, maxSeries, buckets))
    {
      var c := SnapshotSeries(counters);
      var g := SnapshotSeries(gauges);
      var o := SnapshotSeries(observed);
      var h := SnapshotSeries(histograms);
      snap := Snapshot(c, o, h, g, droppedSeries);
    }
  }

  // ---------------------------------------------------------------- the state is what the history says

  /** The maps hold exactly the admitted series with the fold of every call on each, their sizes add up to the
      admitted series, and the drop count is the calls on refused ones. */
  ghost predicate Agrees(s: Cells, h: seq<Call>, max: nat, buckets: seq<real>) {
    && s.counters == Expected(Counter, h, max, CounterOf)
    && s.gauges == Expected(Gauge, h, max, GaugeOf)
    && s.observed == Expected(Observation, h, max, ObservedOf)
    && s.histograms == Expected(Histogram, h, max, HistogramOf(buckets))
    && BooksAgree(s, h, max)
  }

  predicate BooksAgree(s: Cells, h: seq<Call>, max: nat) {
    s.Size() == |Admitted(h, max)| && s.dropped == Dropped(h, max)
  }

  /** The map after a call of its kind that puts cell, under the ceiling. */
  function Put<C>(m: map<string, C>, key: string, cell: C, full: bool): map<string, C> {
    if key in m || !full then m[key := cell] else m
  }

  lemma CountersStep(m: map<string, CounterCell>, h: seq<Call>, c: Call, max: nat)
    requires m == Expected(Counter, h, max, CounterOf) && c.kind.Counter?
    ensures
      var cell := CellAt(m, c.key, CounterCell(c.name, c.tags, 0));
      && (c.key in m <==> IdOf(c) in Admitted(h, max))
      && Expected(Counter, h + [c], max, CounterOf) ==
           Put(m, c.key, cell.(value := Add(cell.value, c.delta)), |Admitted(h, max)| >= max)
  {
    SameKind(h, c, max, CounterOf);
    CounterNext(CallsOn(h, IdOf(c)), c);
  }

  lemma GaugesStep(m: map<string, GaugeCell>, h: seq<Call>, c: Call, max: nat)
    requires m == Expected(Gauge, h, max, GaugeOf) && c.kind.Gauge?
    ensures
      var cell := CellAt(m, c.key, GaugeCell(c.name, c.tags, 0.0));
      && (c.key in m <==> IdOf(c) in Admitted(h, max))
      && Expected(Gauge, h + [c], max, GaugeOf) == Put(m, c.key, cell.(value := c.value), |Admitted(h, max)| >= max)
  {
    SameKind(h, c, max, GaugeOf);
  }

  lemma ObservedStep(m: map<string, ObservedCell>, h: seq<Call>, c: Call, max: nat)
    requires m == Expected(Observation, h, max, ObservedOf) && c.kind.Observation?
    ensures
      var cell := CellAt(m, c.key, ObservedCell(c.name, c.tags, 0.0, 0));
      && (c.key in m <==> IdOf(c) in Admitted(h, max))
      && Expected(Observation, h + [c], max, ObservedOf) ==
           Put(m, c.key, Folded(cell, c.value), |Admitted(h, max)| >= max)
  {
    SameKind(h, c, max, ObservedOf);
    ObservedNext(CallsOn(h, IdOf(c)), c);
  }

  lemma HistogramsStep(m: map<string, HistogramCell>, h: seq<Call>, c: Call, max: nat, buckets: seq<real>)
    requires m == Expected(Histogram, h, max, HistogramOf(buckets)) && c.kind.Histogram?
    ensures
      var cell := CellAt(m, c.key, HistogramCell(c.name, c.tags, buckets, EmptyCounts(|buckets|), 0.0, 0));
      && (c.key in m <==> IdOf(c) in Admitted(h, max))
      && Expected(Histogram, h + [c], max, HistogramOf(buckets)) ==
           Put(m, c.key, Lifted(cell, c.value), |Admitted(h, max)| >= max)
  {
    SameKind(h, c, max, HistogramOf(buckets));
    HistogramNext(CallsOn(h, IdOf(c)), c, buckets);
  }

  lemma PutSize<C>(m: map<string, C>, key: string, cell: C)
    ensures |m[key := cell]| == |m| + (if key in m then 0 else 1)
  {
  }

  lemma OthersAgree(s: Cells, h: seq<Call>, c: Call, max: nat, buckets: seq<real>)
    requires Agrees(s, h, max, buckets)
    ensures !c.kind.Counter? ==> s.counters == Expected(Counter, h + [c], max, CounterOf)
    ensures !c.kind.Gauge? ==> s.gauges == Expected(Gauge, h + [c], max, GaugeOf)
    ensures !c.kind.Observation? ==> s.observed == Expected(Observation, h + [c], max, ObservedOf)
    ensures !c.kind.Histogram? ==> s.histograms == Expected(Histogram, h + [c], max, HistogramOf(buckets))
  {
    if !c.kind.Counter? { OtherKind(Counter, h, c, max, CounterOf); }
    if !c.kind.Gauge? { OtherKind(Gauge, h, c, max, GaugeOf); }
    if !c.kind.Observation? { OtherKind(Observation, h, c, max, ObservedOf); }
    if !c.kind.Histogram? { OtherKind(Histogram, h, c, max, HistogramOf(buckets)); }
  }

  predicate SizeStep(s: Cells, t: Cells, c: Call, max: nat) {
    && t.Size() == s.Size() + (if !Known(s, c) && s.Size() < max then 1 else 0)
    && t.dropped == s.dropped + (if !Known(s, c) && s.Size() >= max then 1 else 0)
  }

  lemma BooksNext(s: Cells, t: Cells, h: seq<Call>, c: Call, max: nat)
    requires BooksAgree(s, h, max) && SizeStep(s, t, c, max) && (Known(s, c) <==> IdOf(c) in Admitted(h, max))
    ensures BooksAgree(t, h + [c], max)
  {
    OneMore(h, c, max);
  }

  lemma CountSize(s: Cells, c: Call, max: nat, buckets: seq<real>)
    requires c.kind.Counter?
    ensures SizeStep(s, After(s, c, max, buckets), c, max)
  {
  }

  lemma CountAgrees(s: Cells, h: seq<Call>, c: Call, max: nat, buckets: seq<real>)
    requires Agrees(s, h, max, buckets) && c.kind.Counter?
    ensures Agrees(After(s, c, max, buckets), h + [c], max, buckets)
  {
    OthersAgree(s, h, c, max, buckets);
    CountersStep(s.counters, h, c, max);
    CountSize(s, c, max, buckets);
    BooksNext(s, After(s, c, max, buckets), h, c, max);
  }

  lemma GaugeSize(s: Cells, c: Call, max: nat, buckets: seq<real>)
    requires c.kind.Gauge?
    ensures SizeStep(s, After(s, c, max, buckets), c, max)
  {
    PutSize(s.gauges, c.key, Taken(s, c, buckets).gauges[c.key]);
  }

  lemma GaugeAgrees(s: Cells, h: seq<Call>, c: Call, max: nat, buckets: seq<real>)
    requires Agrees(s, h, max, buckets) && c.kind.Gauge?
    ensures Agrees(After(s, c, max, buckets), h + [c], max, buckets)
  {
    OthersAgree(s, h, c, max, buckets);
    GaugesStep(s.gauges, h, c, max);
    GaugeSize(s, c, max, buckets);
    BooksNext(s, After(s, c, max, buckets), h, c, max);
  }

  lemma ObserveSize(s: Cells, c: Call, max: nat, buckets: seq<real>)
    requires c.kind.Observation?
    ensures SizeStep(s, After(s, c, max, buckets), c, max)
  {
    PutSize(s.observed, c.key, Taken(s, c, buckets).observed[c.key]);
  }

  lemma ObserveAgrees(s: Cells, h: seq<Call>, c: Call, max: nat, buckets: seq<real>)
    requires Agrees(s, h, max, buckets) && c.kind.Observation?
    ensures Agrees(After(s, c, max, buckets), h + [c], max, buckets)
  {
    OthersAgree(s, h, c, max, buckets);
    ObservedStep(s.observed, h, c, max);
    ObserveSize(s, c, max, buckets);
    BooksNext(s, After(s, c, max, buckets), h, c, max);
  }

  lemma HistogramSize(s: Cells, c: Call, max: nat, buckets: seq<real>)
    requires c.kind.Histogram?
    ensures SizeStep(s, After(s, c, max, buckets), c, max)
  {
    PutSize(s.histograms, c.key, Taken(s, c, buckets).histograms[c.key]);
  }

  lemma HistogramAgrees(s: Cells, h: seq<Call>, c: Call, max: nat, buckets: seq<real>)
    requires Agrees(s, h, max, buckets) && c.kind.Histogram?
    ensures Agrees(After(s, c, max, buckets), h + [c], max, buckets)
  {
    OthersAgree(s, h, c, max, buckets);
    HistogramsStep(s.histograms, h, c, max, buckets);
    HistogramSize(s, c, max, buckets);
    BooksNext(s, After(s, c, max, buckets), h, c, max);
  }

  lemma StepAgrees(s: Cells, h: seq<Call>, c: Call, max: nat, buckets: seq<real>)
    requires Agrees(s, h, max, buckets)
    ensures Agrees(After(s, c, max, buckets), h + [c], max, buckets)
  {
    match c.kind {
      case Counter => CountAgrees(s, h, c, max, buckets);
      case Gauge => GaugeAgrees(s, h, c, max, buckets);
      case Observation => ObserveAgrees(s, h, c, max, buckets);
      case Histogram => HistogramAgrees(s, h, c, max, buckets);
    }
  }

  lemma AgreesNext(h: seq<Call>, c: Call, max: nat, buckets: seq<real>)
    requires Agrees(Recorded(h, max, buckets), h, max, buckets)
    ensures Agrees(Recorded(h + [c], max, buckets), h + [c], max, buckets)
  {
    RecordedNext(h, c, max, buckets);
    StepAgrees(Recorded(h, max, buckets), h, c, max, buckets);
  }

  lemma NothingAgrees(max: nat, buckets: seq<real>)
    ensures Agrees(Recorded([], max, buckets), [], max, buckets)
  {
  }

  /** For every sequence of calls, the recorder agrees with its history. */
  lemma {:induction false} RecorderAgrees(h: seq<Call>, max: nat, buckets: seq<real>)
    ensures Agrees(Recorded(h, max, buckets), h, max, buckets)
  {
    if |h| == 0 {
      assert h == [];
      NothingAgrees(max, buckets);
    } else {
      var g, c := h[..|h| - 1], h[|h| - 1];
      assert h == g + [c];
      RecorderAgrees(g, max, buckets);
      AgreesNext(g, c, max, buckets);
    }
  }
}
