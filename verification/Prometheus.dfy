/**
 The Prometheus renderer: family writers that print a header when the name changes, the
 cumulative bucket lines of a histogram, and the snapshot order they rely on. Numbers stay
 numbers; format turns a bucket bound into its le label.
 */
module Prometheus {
  import opened Options
  import opened Series
  import opened Labels
  import opened MetricHistory
  import MemRecorder

  datatype Value = Whole(n: int) | Decimal(x: real)

  datatype Line =
    | Help(name: string, text: string)
    | Type(name: string, typ: string)
    | Sample(family: string, metric: string, labels: Tags, value: Value)

  /** A line as written, given how numbers print. */
  function Text(line: Line, number: Value -> string): string {
    match line
    case Help(name, text) => "# HELP " + name + " " + text + "\n"
    case Type(name, typ) => "# TYPE " + name + " " + typ + "\n"
    case Sample(_, metric, labels, value) => metric + LabelText(labels) + " " + number(value) + "\n"
  }

  /** The metricHelp registry. */
  type HelpTexts = map<string, string>

  // ---------------------------------------------------------------- grouping into families

  /** One series: its family and its sample lines. */
  datatype Block = Block(name: string, lines: seq<Line>)

  function Header(help: HelpTexts, name: string, typ: string): seq<Line> {
    [Help(name, if name in help then help[name] else name), Type(name, typ)]
  }

  /** What a writer prints: each series' lines, preceded by a header when the name is not the current one,
      which starts out empty. */
  function Grouped(help: HelpTexts, typ: string, blocks: seq<Block>): seq<Line> {
    if |blocks| == 0 then [] else
    var n := |blocks| - 1;
    Grouped(help, typ, blocks[..n])
    + (if Current(blocks, n) != blocks[n].name then Header(help, blocks[n].name, typ) else [])
    + blocks[n].lines
  }

  /** The writer's current name before block n. */
  function Current(blocks: seq<Block>, n: nat): string
    requires n <= |blocks|
  {
    if n == 0 then "" else blocks[n - 1].name
  }

  /** Only samples, all of the block's family. */
  predicate Plain(b: Block) {
    forall k :: 0 <= k < |b.lines| ==> b.lines[k].Sample? && b.lines[k].family == b.name
  }

  ghost predicate Samples(blocks: seq<Block>) {
    forall i :: 0 <= i < |blocks| ==> Plain(blocks[i])
  }

  /** Sorted by name, as a snapshot is. */
  ghost predicate NamesOrdered(blocks: seq<Block>) {
    forall i, j :: 0 <= i < j < |blocks| ==> blocks[i].name == blocks[j].name || Less(blocks[i].name, blocks[j].name)
  }

  function Headers(out: seq<Line>, name: string): nat {
    if |out| == 0 then 0
    else Headers(out[..|out| - 1], name) + (if out[|out| - 1].Type? && out[|out| - 1].name == name then 1 else 0)
  }

  lemma {:induction false} HeadersAppend(a: seq<Line>, b: seq<Line>, name: string)
    ensures Headers(a + b, name) == Headers(a, name) + Headers(b, name)
    decreases |b|
  {
    if |b| == 0 {
      assert a + b == a;
    } else {
      assert (a + b)[..|a + b| - 1] == a + b[..|b| - 1];
      HeadersAppend(a, b[..|b| - 1], name);
    }
  }

  lemma {:induction false} NoHeaders(lines: seq<Line>, name: string)
    requires forall k :: 0 <= k < |lines| ==> lines[k].Sample?
    ensures Headers(lines, name) == 0
  {
    if |lines| > 0 { NoHeaders(lines[..|lines| - 1], name); }
  }

  predicate Named(blocks: seq<Block>, name: string) {
    exists i :: 0 <= i < |blocks| && blocks[i].name == name
  }

  lemma HeaderCount(help: HelpTexts, name: string, typ: string, n: string)
    ensures Headers(Header(help, name, typ), n) == if n == name then 1 else 0
  {
    var h := Header(help, name, typ);
    assert h[..1][..0] == [];
    assert Headers(h[..1], n) == 0;
  }

  lemma LastHeaders(help: HelpTexts, typ: string, blocks: seq<Block>, name: string)
    requires Samples(blocks) && |blocks| > 0
    ensures
      var n := |blocks| - 1;
      Headers(Grouped(help, typ, blocks), name)
      == Headers(Grouped(help, typ, blocks[..n]), name)
         + (if Current(blocks, n) != blocks[n].name && blocks[n].name == name then 1 else 0)
  {
    var n := |blocks| - 1;
    var rest, last := Grouped(help, typ, blocks[..n]), blocks[n];
    var head := if Current(blocks, n) != last.name then Header(help, last.name, typ) else [];
    HeadersAppend(rest, head, name);
    HeadersAppend(rest + head, last.lines, name);
    NoHeaders(last.lines, name);
    HeaderCount(help, last.name, typ, name);
  }

  /** Exactly one TYPE line per family, and none for a family whose name is empty. */
  lemma {:induction false} OneHeader(help: HelpTexts, typ: string, blocks: seq<Block>, name: string)
    requires Samples(blocks) && NamesOrdered(blocks)
    ensures Headers(Grouped(help, typ, blocks), name) == if name != "" && Named(blocks, name) then 1 else 0
    decreases |blocks|
  {
    if |blocks| > 0 {
      OneHeader(help, typ, blocks[..|blocks| - 1], name);
      LastHeaders(help, typ, blocks, name);
      NamedLast(blocks, name);
    }
  }

  /** In sorted order a name is new exactly when it differs from the one just before it. */
  lemma NamedLast(blocks: seq<Block>, name: string)
    requires |blocks| > 0 && NamesOrdered(blocks)
    ensures
      var n := |blocks| - 1;
      && (Named(blocks, name) <==> Named(blocks[..n], name) || blocks[n].name == name)
      && (Named(blocks[..n], blocks[n].name) <==> n > 0 && blocks[n - 1].name == blocks[n].name)
      && (blocks[n].name == "" && n > 0 ==> blocks[n - 1].name == "")
  {
    var n := |blocks| - 1;
    if n > 0 {
      assert blocks[..n][n - 1] == blocks[n - 1];
      LessTotal(blocks[n - 1].name, blocks[n].name);
    }
    if Named(blocks[..n], blocks[n].name) {
      var i :| 0 <= i < n && blocks[..n][i].name == blocks[n].name;
      assert blocks[i].name == blocks[n].name;
      LessTotal(blocks[i].name, blocks[n - 1].name);
    }
    if Named(blocks, name) {
      var i :| 0 <= i < |blocks| && blocks[i].name == name;
      if i < n { assert blocks[..n][i].name == name; }
    }
    if Named(blocks[..n], name) {
      var i :| 0 <= i < n && blocks[..n][i].name == name;
      assert blocks[i].name == name;
    }
  }

  /** Walking back from line p over samples of its family ends at that family's TYPE line. */
  predicate Under(out: seq<Line>, p: nat)
    requires p < |out|
    decreases p
  {
    match out[p]
    case Help(_, _) => false
    case Type(_, _) => p > 0 && out[p - 1].Help? && out[p - 1].name == out[p].name
    case Sample(family, _, _, _) =>
      && p > 0
      && (out[p - 1].Type? ==> out[p - 1].name == family)
      && (out[p - 1].Sample? ==> out[p - 1].family == family)
      && Under(out, p - 1)
  }

  predicate InFamily(line: Line) {
    line.Type? || (line.Sample? && line.family != "")
  }

  ghost predicate AllUnder(out: seq<Line>) {
    forall p :: 0 <= p < |out| && InFamily(out[p]) ==> Under(out, p)
  }

  lemma {:induction false} UnderPrefix(a: seq<Line>, b: seq<Line>, p: nat)
    requires p < |a|
    ensures Under(a + b, p) == Under(a, p)
    decreases p
  {
    if p > 0 { UnderPrefix(a, b, p - 1); }
  }

  /** The last line printed belongs to the current family. */
  ghost predicate EndsIn(out: seq<Line>, name: string) {
    |out| > 0 && (out[|out| - 1].Type? ==> out[|out| - 1].name == name)
    && (out[|out| - 1].Sample? ==> out[|out| - 1].family == name) && Under(out, |out| - 1)
  }

  lemma {:induction false} LinesUnder(out: seq<Line>, lines: seq<Line>, name: string, p: nat)
    requires EndsIn(out, name) && forall k :: 0 <= k < |lines| ==> lines[k].Sample? && lines[k].family == name
    requires |out| <= p < |out + lines|
    ensures Under(out + lines, p)
    decreases p
  {
    if p == |out| {
      UnderPrefix(out, lines, p - 1);
    } else {
      LinesUnder(out, lines, name, p - 1);
    }
  }

  lemma HeaderUnder(out: seq<Line>, help: HelpTexts, name: string, typ: string)
    ensures EndsIn(out + Header(help, name, typ), name)
  {
  }

  lemma EmptyFamilyUnder(rest: seq<Line>, last: Block)
    requires AllUnder(rest) && Plain(last) && last.name == ""
    ensures AllUnder(rest + last.lines)
  {
    var out := rest + last.lines;
    forall p | 0 <= p < |out| && InFamily(out[p]) ensures Under(out, p) { UnderPrefix(rest, last.lines, p); }
  }

  /** All of a family's series stand directly under its header: no sample of a named family is anywhere else. */
  lemma {:induction false} SeriesUnderHeader(help: HelpTexts, typ: string, blocks: seq<Block>)
    requires Samples(blocks) && NamesOrdered(blocks)
    ensures AllUnder(Grouped(help, typ, blocks))
    ensures |blocks| > 0 && blocks[|blocks| - 1].name != "" ==>
              EndsIn(Grouped(help, typ, blocks), blocks[|blocks| - 1].name)
    decreases |blocks|
  {
    if |blocks| > 0 {
      var n := |blocks| - 1;
      SeriesUnderHeader(help, typ, blocks[..n]);
      var rest, last := Grouped(help, typ, blocks[..n]), blocks[n];
      NamedLast(blocks, last.name);
      var head := if Current(blocks, n) != last.name then Header(help, last.name, typ) else [];
      assert Plain(last);
      if last.name == "" {
        assert head == [] && rest + head == rest;
        EmptyFamilyUnder(rest, last);
      } else {
        LastFamilyUnder(help, typ, rest, last, head);
      }
    }
  }

  lemma LastFamilyUnder(help: HelpTexts, typ: string, rest: seq<Line>, last: Block, head: seq<Line>)
    requires AllUnder(rest) && Plain(last)
    requires head == Header(help, last.name, typ) || (head == [] && EndsIn(rest, last.name))
    ensures AllUnder(rest + head + last.lines) && EndsIn(rest + head + last.lines, last.name)
  {
    if head == [] { assert rest + head == rest; } else { HeaderUnder(rest, help, last.name, typ); }
    NamedFamilyUnder(rest, head, rest + head, last, rest + head + last.lines);
  }

  lemma NamedFamilyUnder(rest: seq<Line>, head: seq<Line>, before: seq<Line>, last: Block, out: seq<Line>)
    requires before == rest + head && out == before + last.lines && EndsIn(before, last.name)
    requires Plain(last)
    requires AllUnder(rest)
    requires head == [] || (|head| == 2 && head[0].Help? && head[1].Type?)
    ensures AllUnder(out)
    ensures EndsIn(out, last.name)
  {
    forall p | 0 <= p < |out| && InFamily(out[p]) ensures Under(out, p) {
      if p < |rest| {
        UnderPrefix(rest, head, p);
        UnderPrefix(before, last.lines, p);
      } else if p < |before| {
        assert p == |before| - 1;
        UnderPrefix(before, last.lines, p);
      } else {
        LinesUnder(before, last.lines, last.name, p);
      }
    }
    if last.lines == [] {
      assert out == before;
    } else {
      LinesUnder(before, last.lines, last.name, |out| - 1);
    }
  }

  // ---------------------------------------------------------------- the writers

  function CounterBlock(c: CounterCell): Block {
    Block(c.name, [Sample(c.name, c.name, c.tags, Whole(c.value))])
  }

  function CounterBlocks(series: seq<CounterCell>): (r: seq<Block>)
    ensures |r| == |series| && forall i :: 0 <= i < |series| ==> r[i] == CounterBlock(series[i])
  {
    seq(|series|, i requires 0 <= i < |series| => CounterBlock(series[i]))
  }

  lemma GroupedNext(help: HelpTexts, typ: string, blocks: seq<Block>, i: nat)
    requires i < |blocks|
    ensures
      var out := Grouped(help, typ, blocks[..i]);
      Grouped(help, typ, blocks[..i + 1]) ==
        if Current(blocks, i) != blocks[i].name then out + Header(help, blocks[i].name, typ) + blocks[i].lines
        else out + blocks[i].lines
  {
    assert blocks[..i + 1][..i] == blocks[..i];
  }

  method WriteCounterFamilies(help: HelpTexts, series: seq<CounterCell>) returns (out: seq<Line>)
    ensures out == Grouped(help, "counter", CounterBlocks(series))
  {
    ghost var blocks := CounterBlocks(series);
    out := [];
    var current := "";
    for i := 0 to |series|
      invariant out == Grouped(help, "counter", blocks[..i]) && current == Current(blocks, i)
    {
      var s := series[i];
      GroupedNext(help, "counter", blocks, i);
      if s.name != current {
        out := out + Header(help, s.name, "counter");
        current := s.name;
      }
      out := out + [Sample(s.name, s.name, s.tags, Whole(s.value))];
    }
    assert blocks[..|series|] == blocks;
  }

  function Cumulative(counts: seq<nat>, j: nat): nat
    requires j <= |counts|
  {
    if j == 0 then 0 else Cumulative(counts, j - 1) + counts[j - 1]
  }

  function BucketLine(c: HistogramCell, format: real -> string, le: Option<real>, count: nat): Line {
    Sample(c.name, c.name + "_bucket", BucketTags(c.tags, le, format), Whole(count))
  }

  /** A histogram's bucket lines for its first j bounds. */
  function BucketLines(c: HistogramCell, format: real -> string, j: nat): seq<Line>
    requires j <= |c.buckets| && |c.counts| == |c.buckets|
  {
    if j == 0 then [] else
    BucketLines(c, format, j - 1) + [BucketLine(c, format, Some(c.buckets[j - 1]), Cumulative(c.counts, j))]
  }

  lemma {:induction false} BucketLineAt(c: HistogramCell, format: real -> string, j: nat, k: nat)
    requires k < j <= |c.buckets| && |c.counts| == |c.buckets|
    ensures |BucketLines(c, format, j)| == j
    ensures BucketLines(c, format, j)[k] == BucketLine(c, format, Some(c.buckets[k]), Cumulative(c.counts, k + 1))
    decreases j
  {
    if j > 1 { BucketLineAt(c, format, j - 1, if k < j - 1 then k else 0); }
  }

  function HistogramBlock(c: HistogramCell, format: real -> string): Block
    requires |c.counts| == |c.buckets|
  {
    Block(c.name, BucketLines(c, format, |c.buckets|)
                  + [BucketLine(c, format, None, c.count), Sample(c.name, c.name + "_sum", c.tags, Decimal(c.sum)),
                     Sample(c.name, c.name + "_count", c.tags, Whole(c.count))])
  }

  ghost predicate Parallel(series: seq<HistogramCell>) {
    forall i :: 0 <= i < |series| ==> |series[i].counts| == |series[i].buckets|
  }

  ghost function HistogramBlocks(series: seq<HistogramCell>, format: real -> string): (r: seq<Block>)
    requires Parallel(series)
    ensures |r| == |series| && forall i :: 0 <= i < |series| ==> r[i] == HistogramBlock(series[i], format)
  {
    seq(|series|, i requires 0 <= i < |series| => HistogramBlock(series[i], format))
  }

  method WriteHistogram(c: HistogramCell, format: real -> string) returns (lines: seq<Line>)
    requires |c.counts| == |c.buckets|
    ensures lines == HistogramBlock(c, format).lines
  {
    lines := [];
    var cumulative := 0;
    for j := 0 to |c.buckets|
      invariant cumulative == Cumulative(c.counts, j) && lines == BucketLines(c, format, j)
    {
      cumulative := cumulative + c.counts[j];
      var tags := BucketTags(c.tags, Some(c.buckets[j]), format);
      lines := lines + [Sample(c.name, c.name + "_bucket", tags, Whole(cumulative))];
    }
    lines := lines + [Sample(c.name, c.name + "_bucket", BucketTags(c.tags, None, format), Whole(c.count)),
                      Sample(c.name, c.name + "_sum", c.tags, Decimal(c.sum)),
                      Sample(c.name, c.name + "_count", c.tags, Whole(c.count))];
  }

  method WriteHistogramFamilies(help: HelpTexts, series: seq<HistogramCell>, format: real -> string)
    returns (out: seq<Line>)
    requires Parallel(series)
    ensures out == Grouped(help, "histogram", HistogramBlocks(series, format))
  {
    ghost var blocks := HistogramBlocks(series, format);
    out := [];
    var current := "";
    for i := 0 to |series|
      invariant out == Grouped(help, "histogram", blocks[..i]) && current == Current(blocks, i)
    {
      var s := series[i];
      GroupedNext(help, "histogram", blocks, i);
      if s.name != current {
        out := out + Header(help, s.name, "histogram");
        current := s.name;
      }
      var lines := WriteHistogram(s, format);
      out := out + lines;
    }
    assert blocks[..|series|] == blocks;
  }

  /** A sample is one line of text: a tag value, whatever it holds, never breaks it. */
  lemma SampleIsOneLine(line: Line, number: Value -> string)
    requires line.Sample? && '\n' !in line.metric && '\n' !in number(line.value)
    requires forall k :: k in line.labels ==> '\n' !in k
    ensures
      var text := Text(line, number);
      |text| > 0 && text[|text| - 1] == '\n' && '\n' !in text[..|text| - 1]
  {
    LabelNewlineIff(line.labels);
    var text := Text(line, number);
    assert text[..|text| - 1] == line.metric + LabelText(line.labels) + " " + number(line.value);
  }

  // ---------------------------------------------------------------- rendered histograms are true cumulative counts

  /** How many of the values are at most the bound. */
  function AtMost(calls: seq<Call>, bound: real): nat {
    if |calls| == 0 then 0
    else AtMost(calls[..|calls| - 1], bound) + (if calls[|calls| - 1].value <= bound then 1 else 0)
  }

  /** How many have their first bound among the first j. */
  function WithinFirst(calls: seq<Call>, buckets: seq<real>, j: nat): nat {
    if |calls| == 0 then 0 else
    WithinFirst(calls[..|calls| - 1], buckets, j)
    + (if FirstAtLeast(buckets, calls[|calls| - 1].value) < j then 1 else 0)
  }

  lemma {:induction false} WithinNext(calls: seq<Call>, buckets: seq<real>, j: nat)
    ensures WithinFirst(calls, buckets, j + 1) == WithinFirst(calls, buckets, j) + InBucket(calls, buckets, j)
    ensures WithinFirst(calls, buckets, 0) == 0
  {
    if |calls| > 0 { WithinNext(calls[..|calls| - 1], buckets, j); }
  }

  lemma {:induction false} CumulativeIsWithin(calls: seq<Call>, buckets: seq<real>, j: nat)
    requires j <= |buckets|
    ensures Cumulative(BucketCounts(calls, buckets), j) == WithinFirst(calls, buckets, j)
    decreases j
  {
    if j == 0 {
      WithinNext(calls, buckets, 0);
    } else {
      CumulativeIsWithin(calls, buckets, j - 1);
      WithinNext(calls, buckets, j - 1);
    }
  }

  lemma {:induction false} WithinIsAtMost(calls: seq<Call>, buckets: seq<real>, j: nat)
    requires MemRecorder.Increasing(buckets) && j < |buckets|
    ensures WithinFirst(calls, buckets, j + 1) == AtMost(calls, buckets[j])
  {
    if |calls| > 0 {
      WithinIsAtMost(calls[..|calls| - 1], buckets, j);
      var v := calls[|calls| - 1].value;
      var i := FirstAtLeast(buckets, v);
      if i <= j { assert buckets[i] <= buckets[j]; }
    }
  }

  lemma {:induction false} AtMostBounds(calls: seq<Call>, a: real, b: real)
    requires a <= b
    ensures AtMost(calls, a) <= AtMost(calls, b) <= |calls|
  {
    if |calls| > 0 { AtMostBounds(calls[..|calls| - 1], a, b); }
  }

  /** Line q of a histogram whose calls these are: a bound's line counts the values at or below it, +Inf and
      _count all of them, and _sum adds them up. */
  function TrueLine(calls: seq<Call>, buckets: seq<real>, format: real -> string, q: nat): Line {
    var name, tags := NameOf(calls), TagsOf(calls);
    if q < |buckets| then
      Sample(name, name + "_bucket", tags["le" := format(buckets[q])], Whole(AtMost(calls, buckets[q])))
    else if q == |buckets| then Sample(name, name + "_bucket", tags["le" := "+Inf"], Whole(|calls|))
    else if q == |buckets| + 1 then Sample(name, name + "_sum", tags, Decimal(ValueSum(calls)))
    else Sample(name, name + "_count", tags, Whole(|calls|))
  }

  /** What a histogram cell holding these calls prints. */
  ghost predicate LinesTrue(c: HistogramCell, calls: seq<Call>, buckets: seq<real>, format: real -> string)
    requires c.buckets == buckets && |c.counts| == |buckets|
  {
    var lines := HistogramBlock(c, format).lines;
    && |lines| == |buckets| + 3
    && (forall q :: 0 <= q < |buckets| + 3 ==> lines[q] == TrueLine(calls, buckets, format, q))
    && (forall j :: 0 < j < |buckets| ==> AtMost(calls, buckets[j - 1]) <= AtMost(calls, buckets[j]) <= |calls|)
  }

  lemma CellLinesTrue(calls: seq<Call>, buckets: seq<real>, format: real -> string)
    requires MemRecorder.Increasing(buckets)
    ensures LinesTrue(HistogramOf(buckets)(calls), calls, buckets, format)
  {
    var c := HistogramOf(buckets)(calls);
    if |buckets| > 0 { BucketLineAt(c, format, |buckets|, 0); }
    forall j | 0 <= j < |buckets|
      ensures BucketLines(c, format, |buckets|)[j] == BucketLine(c, format, Some(buckets[j]), AtMost(calls, buckets[j]))
    {
      BucketLineAt(c, format, |buckets|, j);
      CumulativeIsWithin(calls, buckets, j + 1);
      WithinIsAtMost(calls, buckets, j);
    }
    forall j | 0 < j < |buckets| ensures AtMost(calls, buckets[j - 1]) <= AtMost(calls, buckets[j]) <= |calls| {
      AtMostBounds(calls, buckets[j - 1], buckets[j]);
    }
  }

  /** After any history, for any bucket set: the line printed for a bound counts exactly the observed values at
      or below it, the lines never decrease, and +Inf is every value, overflow included. */
  lemma HistogramLinesTrue(h: seq<Call>, max: nat, buckets: seq<real>, key: string, format: real -> string)
    requires MemRecorder.Increasing(buckets) && key in MemRecorder.Recorded(h, max, buckets).histograms
    ensures
      var c := MemRecorder.Recorded(h, max, buckets).histograms[key];
      c.buckets == buckets && |c.counts| == |buckets| && LinesTrue(c, CallsOn(h, Id(Histogram, key)), buckets, format)
  {
    MemRecorder.RecorderAgrees(h, max, buckets);
    MemRecorder.ExpectedAt(Histogram, h, max, HistogramOf(buckets), key);
    CellLinesTrue(CallsOn(h, Id(Histogram, key)), buckets, format);
  }

  // ---------------------------------------------------------------- snapshots come out sorted by name

  ghost predicate KeyedBy(name: string, tags: Tags, key: string) {
    key == Key(name, tags) && Clean(name, tags)
  }

  /** Calls as the recorder makes them, on NUL-free series. */
  ghost predicate CleanHistory(h: seq<Call>) {
    forall c :: c in h ==> KeyedBy(c.name, c.tags, c.key)
  }

  lemma {:induction false} CallsOnFrom(h: seq<Call>, id: Id, i: nat)
    requires i < |CallsOn(h, id)|
    ensures CallsOn(h, id)[i] in h && IdOf(CallsOn(h, id)[i]) == id
  {
    if i < |CallsOn(h[..|h| - 1], id)| { CallsOnFrom(h[..|h| - 1], id, i); }
  }

  /** Every map key is its cell's own key, so key order is (name, tags) order. */
  lemma CellKeyed(h: seq<Call>, max: nat, id: Id)
    requires CleanHistory(h) && id in Admitted(h, max)
    ensures KeyedBy(NameOf(CallsOn(h, id)), TagsOf(CallsOn(h, id)), id.key)
  {
    AdmittedHasCalls(h, max, id);
    CallsOnFrom(h, id, 0);
  }

  lemma CounterKeyed(h: seq<Call>, max: nat, buckets: seq<real>, k: string)
    requires CleanHistory(h) && k in MemRecorder.Recorded(h, max, buckets).counters
    ensures
      var cell := MemRecorder.Recorded(h, max, buckets).counters[k];
      KeyedBy(cell.name, cell.tags, k)
  {
    MemRecorder.RecorderAgrees(h, max, buckets);
    MemRecorder.ExpectedAt(Counter, h, max, CounterOf, k);
    CellKeyed(h, max, Id(Counter, k));
  }

  lemma HistogramKeyed(h: seq<Call>, max: nat, buckets: seq<real>, k: string)
    requires CleanHistory(h) && k in MemRecorder.Recorded(h, max, buckets).histograms
    ensures
      var cell := MemRecorder.Recorded(h, max, buckets).histograms[k];
      KeyedBy(cell.name, cell.tags, k) && |cell.counts| == |cell.buckets|
  {
    MemRecorder.RecorderAgrees(h, max, buckets);
    MemRecorder.ExpectedAt(Histogram, h, max, HistogramOf(buckets), k);
    CellKeyed(h, max, Id(Histogram, k));
  }

  lemma KeysOrderNames(n: string, t: Tags, k: string, n': string, t': Tags, k': string)
    requires Less(k, k') && KeyedBy(n, t, k) && KeyedBy(n', t', k')
    ensures n == n' || Less(n, n')
  {
    KeyOrder(n, t, n', t');
  }

  lemma NamesInOrder<C>(m: map<string, C>, name: C -> string, tags: C -> Tags, i: nat, j: nat)
    requires forall k :: k in m ==> KeyedBy(name(m[k]), tags(m[k]), k)
    requires i < j < |MemRecorder.InKeyOrder(m)|
    ensures
      var a, b := name(MemRecorder.InKeyOrder(m)[i]), name(MemRecorder.InKeyOrder(m)[j]);
      a == b || Less(a, b)
  {
    var k, k' := SortedKeys(m.Keys)[i], SortedKeys(m.Keys)[j];
    KeysOrderNames(name(m[k]), tags(m[k]), k, name(m[k']), tags(m[k']), k');
  }

  lemma CountersPlain(series: seq<CounterCell>)
    ensures Samples(CounterBlocks(series))
    ensures forall i :: 0 <= i < |series| ==> CounterBlocks(series)[i].name == series[i].name
  {
  }

  lemma CountersOrdered(m: map<string, CounterCell>)
    requires forall k :: k in m ==> KeyedBy(m[k].name, m[k].tags, k)
    ensures NamesOrdered(CounterBlocks(MemRecorder.InKeyOrder(m)))
  {
    var series := MemRecorder.InKeyOrder(m);
    CountersPlain(series);
    forall i, j | 0 <= i < j < |series|
      ensures series[i].name == series[j].name || Less(series[i].name, series[j].name)
    {
      NamesInOrder(m, (c: CounterCell) => c.name, (c: CounterCell) => c.tags, i, j);
    }
  }

  lemma HistogramsOrdered(m: map<string, HistogramCell>, format: real -> string)
    requires forall k :: k in m ==> KeyedBy(m[k].name, m[k].tags, k) && |m[k].counts| == |m[k].buckets|
    ensures Parallel(MemRecorder.InKeyOrder(m)) && Samples(HistogramBlocks(MemRecorder.InKeyOrder(m), format))
    ensures NamesOrdered(HistogramBlocks(MemRecorder.InKeyOrder(m), format))
  {
    var series := MemRecorder.InKeyOrder(m);
    var blocks := HistogramBlocks(series, format);
    forall i | 0 <= i < |series| ensures Plain(blocks[i]) { HistogramPlain(series[i], format); }
    forall i, j | 0 <= i < j < |blocks|
      ensures blocks[i].name == blocks[j].name || Less(blocks[i].name, blocks[j].name)
    {
      NamesInOrder(m, (c: HistogramCell) => c.name, (c: HistogramCell) => c.tags, i, j);
    }
  }

  lemma HistogramPlain(c: HistogramCell, format: real -> string)
    requires |c.counts| == |c.buckets|
    ensures Plain(HistogramBlock(c, format))
  {
    if |c.buckets| > 0 { BucketLineAt(c, format, |c.buckets|, 0); }
    forall k | 0 <= k < |c.buckets| ensures BucketLines(c, format, |c.buckets|)[k].Sample?
        && BucketLines(c, format, |c.buckets|)[k].family == c.name {
      BucketLineAt(c, format, |c.buckets|, k);
    }
  }

  /** One header for each family that has a name, none for the empty name, and every series of a named family
      directly under its header. */
  ghost predicate WellGrouped(help: HelpTexts, typ: string, blocks: seq<Block>) {
    && AllUnder(Grouped(help, typ, blocks))
    && forall name :: Headers(Grouped(help, typ, blocks), name) == if name != "" && Named(blocks, name) then 1 else 0
  }

  lemma OrderedGroup(help: HelpTexts, typ: string, blocks: seq<Block>)
    requires Samples(blocks) && NamesOrdered(blocks)
    ensures WellGrouped(help, typ, blocks)
  {
    SeriesUnderHeader(help, typ, blocks);
    forall name
      ensures Headers(Grouped(help, typ, blocks), name) == if name != "" && Named(blocks, name) then 1 else 0
    {
      OneHeader(help, typ, blocks, name);
    }
  }

  /** The counter section of a scrape after any history of NUL-free series. */
  lemma CounterFamilies(h: seq<Call>, max: nat, buckets: seq<real>, help: HelpTexts)
    requires CleanHistory(h)
    ensures
      var counters := MemRecorder.Recorded(h, max, buckets).counters;
      WellGrouped(help, "counter", CounterBlocks(MemRecorder.InKeyOrder(counters)))
  {
    var m := MemRecorder.Recorded(h, max, buckets).counters;
    forall k | k in m ensures KeyedBy(m[k].name, m[k].tags, k) { CounterKeyed(h, max, buckets, k); }
    CountersOrdered(m);
    CountersPlain(MemRecorder.InKeyOrder(m));
    OrderedGroup(help, "counter", CounterBlocks(MemRecorder.InKeyOrder(m)));
  }

  /** The histogram section likewise. */
  lemma HistogramFamilies(h: seq<Call>, max: nat, buckets: seq<real>, help: HelpTexts, format: real -> string)
    requires CleanHistory(h)
    ensures
      var series := MemRecorder.InKeyOrder(MemRecorder.Recorded(h, max, buckets).histograms);
      Parallel(series) && WellGrouped(help, "histogram", HistogramBlocks(series, format))
  {
    var m := MemRecorder.Recorded(h, max, buckets).histograms;
    forall k | k in m ensures KeyedBy(m[k].name, m[k].tags, k) && |m[k].counts| == |m[k].buckets| {
      HistogramKeyed(h, max, buckets, k);
    }
    HistogramsOrdered(m, format);
    OrderedGroup(help, "histogram", HistogramBlocks(MemRecorder.InKeyOrder(m), format));
  }
}
