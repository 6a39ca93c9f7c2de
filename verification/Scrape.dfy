/**
 What a scrape says of the calls made: the sample lines of a section are those of the
 series let in, once each and in key order, and each line's number is true of its series.
 */
module Scrape {
  import opened Options
  import opened Series
  import opened Labels
  import opened MetricHistory
  import opened Prometheus
  import MemRecorder

  // ---------------------------------------------------------------- the sample lines of a section

  function SampleLines(out: seq<Line>): seq<Line> {
    if |out| == 0 then []
    else SampleLines(out[..|out| - 1]) + (if out[|out| - 1].Sample? then [out[|out| - 1]] else [])
  }

  lemma {:induction false} SamplesAppend(a: seq<Line>, b: seq<Line>)
    ensures SampleLines(a + b) == SampleLines(a) + SampleLines(b)
    decreases |b|
  {
    if |b| == 0 {
      assert a + b == a;
    } else {
      assert (a + b)[..|a + b| - 1] == a + b[..|b| - 1];
      SamplesAppend(a, b[..|b| - 1]);
    }
  }

  lemma {:induction false} AllSamples(lines: seq<Line>)
    requires forall k :: 0 <= k < |lines| ==> lines[k].Sample?
    ensures SampleLines(lines) == lines
  {
    if |lines| > 0 { AllSamples(lines[..|lines| - 1]); }
  }

  lemma HeaderHasNone(help: HelpTexts, name: string, typ: string)
    ensures SampleLines(Header(help, name, typ)) == []
  {
    var h := Header(help, name, typ);
    assert h[..1][..0] == [] && SampleLines(h[..1]) == [];
  }

  /** The blocks' lines, one after another. */
  function Flat(blocks: seq<Block>): seq<Line> {
    if |blocks| == 0 then [] else Flat(blocks[..|blocks| - 1]) + blocks[|blocks| - 1].lines
  }

  lemma {:induction false} GroupedSamples(help: HelpTexts, typ: string, blocks: seq<Block>)
    requires Samples(blocks)
    ensures SampleLines(Grouped(help, typ, blocks)) == Flat(blocks)
    decreases |blocks|
  {
    if |blocks| > 0 {
      GroupedSamples(help, typ, blocks[..|blocks| - 1]);
      GroupedLast(help, typ, blocks);
    }
  }

  lemma GroupedLast(help: HelpTexts, typ: string, blocks: seq<Block>)
    requires |blocks| > 0 && Plain(blocks[|blocks| - 1])
    ensures
      var n := |blocks| - 1;
      SampleLines(Grouped(help, typ, blocks)) == SampleLines(Grouped(help, typ, blocks[..n])) + blocks[n].lines
  {
    var n := |blocks| - 1;
    var head := if Current(blocks, n) != blocks[n].name then Header(help, blocks[n].name, typ) else [];
    HeaderHasNone(help, blocks[n].name, typ);
    AllSamples(blocks[n].lines);
    LastSamples(Grouped(help, typ, blocks[..n]), head, blocks[n].lines);
  }

  lemma LastSamples(rest: seq<Line>, head: seq<Line>, lines: seq<Line>)
    requires SampleLines(head) == [] && SampleLines(lines) == lines
    ensures SampleLines(rest + head + lines) == SampleLines(rest) + lines
  {
    assert SampleLines(rest + head) == SampleLines(rest) by { SamplesAppend(rest, head); }
    SamplesAppend(rest + head, lines);
  }

  /** Line q of block i, where every block has width lines. */
  predicate LineAt(lines: seq<Line>, width: nat, i: nat, q: nat, line: Line) {
    0 <= i * width + q < |lines| && lines[i * width + q] == line
  }

  lemma {:induction false} FlatAt(blocks: seq<Block>, width: nat, i: nat, q: nat)
    requires forall j :: 0 <= j < |blocks| ==> |blocks[j].lines| == width
    requires i < |blocks| && q < width
    ensures LineAt(Flat(blocks), width, i, q, blocks[i].lines[q])
    decreases |blocks|
  {
    var n := |blocks| - 1;
    FlatSize(blocks[..n], width);
    if i < n { FlatAt(blocks[..n], width, i, q); }
  }

  lemma {:induction false} FlatSize(blocks: seq<Block>, width: nat)
    requires forall j :: 0 <= j < |blocks| ==> |blocks[j].lines| == width
    ensures |Flat(blocks)| == |blocks| * width
    decreases |blocks|
  {
    if |blocks| > 0 {
      FlatSize(blocks[..|blocks| - 1], width);
      assert |blocks| * width == (|blocks| - 1) * width + width;
    }
  }

  /** A section's samples are its blocks' lines, in order. */
  lemma SectionLines(help: HelpTexts, typ: string, blocks: seq<Block>, width: nat)
    requires Samples(blocks) && forall j :: 0 <= j < |blocks| ==> |blocks[j].lines| == width
    ensures
      var lines := SampleLines(Grouped(help, typ, blocks));
      && |lines| == |blocks| * width
      && forall i, q :: 0 <= i < |blocks| && 0 <= q < width ==> LineAt(lines, width, i, q, blocks[i].lines[q])
  {
    GroupedSamples(help, typ, blocks);
    FlatSize(blocks, width);
    forall i, q | 0 <= i < |blocks| && 0 <= q < width ensures LineAt(Flat(blocks), width, i, q, blocks[i].lines[q]) {
      FlatAt(blocks, width, i, q);
    }
  }

  // ---------------------------------------------------------------- counters

  /** The one line of a counter whose calls these are: its name, its tags, and the sum of its deltas as an int64
      holds it. */
  ghost predicate CounterLine(line: Line, calls: seq<Call>) {
    && |calls| > 0 && line.Sample? && line.family == line.metric == calls[0].name && line.labels == calls[0].tags
    && line.value.Whole? && -0x8000_0000_0000_0000 <= line.value.n < 0x8000_0000_0000_0000
    && (line.value.n - DeltaSum(calls)) % 0x1_0000_0000_0000_0000 == 0
    && (-0x8000_0000_0000_0000 <= DeltaSum(calls) < 0x8000_0000_0000_0000 ==> line.value.n == DeltaSum(calls))
  }

  /** The keys of a kind's series that were let in, in order. */
  ghost predicate SeriesKeys(keys: seq<string>, kind: Kind, h: seq<Call>, max: nat) {
    && (forall i, j :: 0 <= i < j < |keys| ==> Less(keys[i], keys[j]))
    && (forall k :: k in keys <==> Id(kind, k) in Admitted(h, max))
  }

  /** One line for each key. */
  ghost predicate CountersTrue(lines: seq<Line>, keys: seq<string>, h: seq<Call>) {
    |lines| == |keys| && forall i :: 0 <= i < |keys| ==> CounterLine(lines[i], CallsOn(h, Id(Counter, keys[i])))
  }

  /** After any history, the counter section has exactly one sample for each counter let in, in key order, with
      its name, its tags and the sum of its deltas. */
  lemma CounterSection(h: seq<Call>, max: nat, buckets: seq<real>, help: HelpTexts) returns (keys: seq<string>)
    ensures SeriesKeys(keys, Counter, h, max)
    ensures
      var series := MemRecorder.InKeyOrder(MemRecorder.Recorded(h, max, buckets).counters);
      CountersTrue(SampleLines(Grouped(help, "counter", CounterBlocks(series))), keys, h)
  {
    var m := MemRecorder.Recorded(h, max, buckets).counters;
    keys := SortedKeys(m.Keys);
    CounterKeys(h, max, buckets);
    forall k | k in m
      ensures |CallsOn(h, Id(Counter, k))| > 0 && m[k] == CounterOf(CallsOn(h, Id(Counter, k)))
    {
      CounterCellOf(h, max, buckets, k);
    }
    CounterSectionOf(m, h, help);
  }

  lemma CounterCellOf(h: seq<Call>, max: nat, buckets: seq<real>, k: string)
    requires k in MemRecorder.Recorded(h, max, buckets).counters
    ensures |CallsOn(h, Id(Counter, k))| > 0
    ensures MemRecorder.Recorded(h, max, buckets).counters[k] == CounterOf(CallsOn(h, Id(Counter, k)))
  {
    MemRecorder.RecorderAgrees(h, max, buckets);
    MemRecorder.ExpectedAt(Counter, h, max, CounterOf, k);
    AdmittedHasCalls(h, max, Id(Counter, k));
  }

  lemma CounterSectionOf(m: map<string, CounterCell>, h: seq<Call>, help: HelpTexts)
    requires forall k :: k in m ==>
      |CallsOn(h, Id(Counter, k))| > 0 && m[k] == CounterOf(CallsOn(h, Id(Counter, k)))
    ensures
      CountersTrue(SampleLines(Grouped(help, "counter", CounterBlocks(MemRecorder.InKeyOrder(m)))),
                   SortedKeys(m.Keys), h)
  {
    var keys, series := SortedKeys(m.Keys), MemRecorder.InKeyOrder(m);
    var blocks := CounterBlocks(series);
    CountersPlain(series);
    SectionLines(help, "counter", blocks, 1);
    var lines := SampleLines(Grouped(help, "counter", blocks));
    forall i | 0 <= i < |keys| ensures CounterLine(lines[i], CallsOn(h, Id(Counter, keys[i]))) {
      OnlyLine(lines, i, blocks[i].lines[0]);
      CounterCellLine(CallsOn(h, Id(Counter, keys[i])));
    }
  }

  lemma OnlyLine(lines: seq<Line>, i: nat, line: Line)
    requires LineAt(lines, 1, i, 0, line)
    ensures i < |lines| && lines[i] == line
  {
  }

  lemma CounterCellLine(calls: seq<Call>)
    requires |calls| > 0
    ensures |CounterBlock(CounterOf(calls)).lines| == 1 && CounterLine(CounterBlock(CounterOf(calls)).lines[0], calls)
  {
    CounterIsSum(calls);
  }

  lemma CounterKeys(h: seq<Call>, max: nat, buckets: seq<real>)
    ensures SeriesKeys(SortedKeys(MemRecorder.Recorded(h, max, buckets).counters.Keys), Counter, h, max)
  {
    var m := MemRecorder.Recorded(h, max, buckets).counters;
    MemRecorder.RecorderAgrees(h, max, buckets);
    forall k ensures k in m <==> Id(Counter, k) in Admitted(h, max) {
      MemRecorder.ExpectedAt(Counter, h, max, CounterOf, k);
    }
  }

  // ---------------------------------------------------------------- histograms

  /** The lines of each key's histogram, in order. */
  ghost predicate HistogramsTrue(
      lines: seq<Line>, keys: seq<string>, h: seq<Call>, buckets: seq<real>, format: real -> string)
  {
    var width := |buckets| + 3;
    && |lines| == |keys| * width
    && forall i, q :: 0 <= i < |keys| && 0 <= q < width ==>
         LineAt(lines, width, i, q, TrueLine(CallsOn(h, Id(Histogram, keys[i])), buckets, format, q))
  }

  /** After any history, the histogram section has, for each histogram let in and in key order, its lines and
      nothing else: its cumulative buckets, +Inf, the sum and the count of the values observed. */
  lemma HistogramSection(
      h: seq<Call>, max: nat, buckets: seq<real>, help: HelpTexts, format: real -> string) returns (keys: seq<string>)
    requires MemRecorder.Increasing(buckets)
    ensures SeriesKeys(keys, Histogram, h, max)
    ensures
      var series := MemRecorder.InKeyOrder(MemRecorder.Recorded(h, max, buckets).histograms);
      && Parallel(series)
      && var lines := SampleLines(Grouped(help, "histogram", HistogramBlocks(series, format)));
         HistogramsTrue(lines, keys, h, buckets, format)
  {
    var m := MemRecorder.Recorded(h, max, buckets).histograms;
    keys := SortedKeys(m.Keys);
    HistogramKeys(h, max, buckets);
    forall k | k in m ensures m[k] == HistogramOf(buckets)(CallsOn(h, Id(Histogram, k))) {
      HistogramCellOf(h, max, buckets, k);
    }
    HistogramSectionOf(m, h, buckets, help, format);
  }

  lemma HistogramCellOf(h: seq<Call>, max: nat, buckets: seq<real>, k: string)
    requires k in MemRecorder.Recorded(h, max, buckets).histograms
    ensures MemRecorder.Recorded(h, max, buckets).histograms[k] == HistogramOf(buckets)(CallsOn(h, Id(Histogram, k)))
  {
    MemRecorder.RecorderAgrees(h, max, buckets);
    MemRecorder.ExpectedAt(Histogram, h, max, HistogramOf(buckets), k);
  }

  lemma HistogramSectionOf(
      m: map<string, HistogramCell>, h: seq<Call>, buckets: seq<real>, help: HelpTexts, format: real -> string)
    requires MemRecorder.Increasing(buckets)
    requires forall k :: k in m ==> m[k] == HistogramOf(buckets)(CallsOn(h, Id(Histogram, k)))
    ensures Parallel(MemRecorder.InKeyOrder(m))
    ensures
      var blocks := HistogramBlocks(MemRecorder.InKeyOrder(m), format);
      HistogramsTrue(SampleLines(Grouped(help, "histogram", blocks)), SortedKeys(m.Keys), h, buckets, format)
  {
    var keys, series := SortedKeys(m.Keys), MemRecorder.InKeyOrder(m);
    var blocks := HistogramBlocks(series, format);
    forall i | 0 <= i < |blocks|
      ensures BlockTrue(blocks[i], CallsOn(h, Id(Histogram, keys[i])), buckets, format)
    {
      CellBlockTrue(CallsOn(h, Id(Histogram, keys[i])), buckets, format);
    }
    SectionLines(help, "histogram", blocks, |buckets| + 3);
  }

  /** A block of exactly the lines its calls say. */
  ghost predicate BlockTrue(b: Block, calls: seq<Call>, buckets: seq<real>, format: real -> string) {
    && Plain(b) && |b.lines| == |buckets| + 3
    && forall q :: 0 <= q < |buckets| + 3 ==> b.lines[q] == TrueLine(calls, buckets, format, q)
  }

  lemma CellBlockTrue(calls: seq<Call>, buckets: seq<real>, format: real -> string)
    requires MemRecorder.Increasing(buckets)
    ensures BlockTrue(HistogramBlock(HistogramOf(buckets)(calls), format), calls, buckets, format)
  {
    CellLinesTrue(calls, buckets, format);
    HistogramPlain(HistogramOf(buckets)(calls), format);
  }

  lemma HistogramKeys(h: seq<Call>, max: nat, buckets: seq<real>)
    ensures SeriesKeys(SortedKeys(MemRecorder.Recorded(h, max, buckets).histograms.Keys), Histogram, h, max)
  {
    var m := MemRecorder.Recorded(h, max, buckets).histograms;
    MemRecorder.RecorderAgrees(h, max, buckets);
    forall k ensures k in m <==> Id(Histogram, k) in Admitted(h, max) {
      MemRecorder.ExpectedAt(Histogram, h, max, HistogramOf(buckets), k);
    }
  }

  // ---------------------------------------------------------------- gauges and observations

  /** After any history a gauge let in holds the value of the last call on it, under the name and tags of the
      first, and no other gauge exists. */
  lemma GaugeHoldsLast(h: seq<Call>, max: nat, buckets: seq<real>, key: string)
    ensures
      var m, calls := MemRecorder.Recorded(h, max, buckets).gauges, CallsOn(h, Id(Gauge, key));
      && (key in m <==> Id(Gauge, key) in Admitted(h, max))
      && (key in m ==> |calls| > 0 && m[key] == GaugeCell(calls[0].name, calls[0].tags, calls[|calls| - 1].value))
  {
    MemRecorder.RecorderAgrees(h, max, buckets);
    MemRecorder.ExpectedAt(Gauge, h, max, GaugeOf, key);
    if Id(Gauge, key) in Admitted(h, max) { AdmittedHasCalls(h, max, Id(Gauge, key)); }
  }

  /** And an observation let in the sum and the number of the values observed. */
  lemma ObservationAddsUp(h: seq<Call>, max: nat, buckets: seq<real>, key: string)
    ensures
      var m, calls := MemRecorder.Recorded(h, max, buckets).observed, CallsOn(h, Id(Observation, key));
      && (key in m <==> Id(Observation, key) in Admitted(h, max))
      && (key in m ==>
            |calls| > 0 && m[key] == ObservedCell(calls[0].name, calls[0].tags, ValueSum(calls), |calls|))
  {
    MemRecorder.RecorderAgrees(h, max, buckets);
    MemRecorder.ExpectedAt(Observation, h, max, ObservedOf, key);
    if Id(Observation, key) in Admitted(h, max) { AdmittedHasCalls(h, max, Id(Observation, key)); }
  }

  // ---------------------------------------------------------------- what the headers say

  /** A HELP line has the registered text or the name itself, and a TYPE line the section's type. */
  predicate HeaderSays(line: Line, help: HelpTexts, typ: string) {
    && (line.Help? ==> line.text == if line.name in help then help[line.name] else line.name)
    && (line.Type? ==> line.typ == typ)
  }

  lemma {:induction false} HeadersSay(help: HelpTexts, typ: string, blocks: seq<Block>, p: nat)
    requires Samples(blocks) && p < |Grouped(help, typ, blocks)|
    ensures HeaderSays(Grouped(help, typ, blocks)[p], help, typ)
    decreases |blocks|
  {
    var n := |blocks| - 1;
    if n >= 0 {
      assert Plain(blocks[n]);
      if p < |Grouped(help, typ, blocks[..n])| { HeadersSay(help, typ, blocks[..n], p); }
    }
  }
}
