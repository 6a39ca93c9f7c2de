/**
 Prometheus label sets: how the renderer prints a series' tags, and a reader of the label
 syntax of the Prometheus text exposition format 0.0.4 that recovers them.
 */
module Labels {
  import opened Options
  import opened Series

  // ---------------------------------------------------------------- printing

  predicate Special(c: char) {
    c == '\\' || c == '"' || c == '\n'
  }

  function EscapeChar(c: char): string {
    if c == '\\' then "\\\\" else if c == '"' then "\\\"" else if c == '\n' then "\\n" else [c]
  }

  /** Every special character replaced. */
  function Replaced(v: string): string {
    if |v| == 0 then "" else EscapeChar(v[0]) + Replaced(v[1..])
  }

  function EscapeLabelValue(v: string): string {
    if forall i :: 0 <= i < |v| ==> !Special(v[i]) then v else Replaced(v)
  }

  /** The shortcut for a value with nothing to escape changes nothing. */
  lemma {:induction false} EscapeIsReplaced(v: string)
    ensures EscapeLabelValue(v) == Replaced(v)
  {
    if |v| > 0 && forall i :: 0 <= i < |v| ==> !Special(v[i]) {
      assert v == [v[0]] + v[1..];
      EscapeIsReplaced(v[1..]);
    }
  }

  function Item(k: string, v: string): string {
    k + "=\"" + EscapeLabelValue(v) + "\""
  }

  function Items(pairs: seq<(string, string)>): (r: seq<string>)
    ensures |r| == |pairs| && forall i :: 0 <= i < |pairs| ==> r[i] == Item(pairs[i].0, pairs[i].1)
  {
    seq(|pairs|, i requires 0 <= i < |pairs| => Item(pairs[i].0, pairs[i].1))
  }

  /** The tags as pairs in sorted key order. */
  function SortedPairs(tags: Tags): (r: seq<(string, string)>)
    ensures |r| == |tags|
    ensures forall i :: 0 <= i < |r| ==> r[i].0 == SortedKeys(tags.Keys)[i] && r[i].0 in tags && r[i].1 == tags[r[i].0]
  {
    var keys := SortedKeys(tags.Keys);
    assert forall i :: 0 <= i < |keys| ==> keys[i] in keys;
    seq(|keys|, i requires 0 <= i < |keys| => (keys[i], tags[keys[i]]))
  }

  function LabelText(tags: Tags): string {
    if |tags| == 0 then "" else "{" + Join(Items(SortedPairs(tags)), ',') + "}"
  }

  /** The text once the given pairs have been written. */
  function LabelPrefix(pairs: seq<(string, string)>): string {
    if |pairs| == 0 then "{" else "{" + Join(Items(pairs), ',')
  }

  lemma ItemsNext(pairs: seq<(string, string)>, i: nat)
    requires i < |pairs|
    ensures Items(pairs[..i + 1]) == Items(pairs[..i]) + [Item(pairs[i].0, pairs[i].1)]
  {
  }

  lemma LaterItem(done: seq<string>, item: string)
    requires |done| > 0
    ensures "{" + Join(done + [item], ',') == "{" + Join(done, ',') + "," + item
  {
    JoinAppend(done, ',', item);
    Regroup("{", Join(done, ','), ",", item);
  }

  lemma FirstItem(item: string)
    ensures "{" + Join([item], ',') == "{" + "" + item
  {
  }

  lemma LabelStep(pairs: seq<(string, string)>, i: nat)
    requires i < |pairs|
    ensures LabelPrefix(pairs[..i + 1])
         == LabelPrefix(pairs[..i]) + (if i > 0 then "," else "") + Item(pairs[i].0, pairs[i].1)
  {
    var done, item := Items(pairs[..i]), Item(pairs[i].0, pairs[i].1);
    ItemsNext(pairs, i);
    assert LabelPrefix(pairs[..i + 1]) == "{" + Join(done + [item], ',');
    if i > 0 {
      LaterItem(done, item);
    } else {
      FirstItem(item);
      assert done + [item] == [item];
    }
  }

  lemma Regroup(a: string, b: string, c: string, d: string)
    ensures a + (b + c + d) == a + b + c + d
    ensures a + b + c + d == a + (b + (c + d))
  {
  }

  method FormatLabels(tags: Tags) returns (text: string)
    ensures text == LabelText(tags)
  {
    if |tags| == 0 { return ""; }
    var keys := SortedKeys(tags.Keys);
    ghost var pairs := SortedPairs(tags);
    text := "{";
    for i := 0 to |keys|
      invariant text == LabelPrefix(pairs[..i])
    {
      LabelStep(pairs, i);
      assert pairs[i] == (keys[i], tags[keys[i]]);
      if i > 0 { text := text + ","; }
      text := text + (keys[i] + "=\"" + EscapeLabelValue(tags[keys[i]]) + "\"");
    }
    assert pairs[..|keys|] == pairs;
    text := text + "}";
  }

  const LE := "le"

  /** A bucket's bound; no bound is the +Inf bucket. */
  function BoundText(le: Option<real>, format: real -> string): string {
    if le.None? then "+Inf" else format(le.value)
  }

  /** The tags with a bucket's bound under le, which shadows a tag of that name. */
  function BucketTags(tags: Tags, le: Option<real>, format: real -> string): Tags {
    tags[LE := BoundText(le, format)]
  }

  method FormatBucketLabels(tags: Tags, le: Option<real>, format: real -> string) returns (text: string)
    ensures text == LabelText(BucketTags(tags, le, format))
  {
    var bound := "+Inf";
    if le.Some? { bound := format(le.value); }
    text := FormatLabels(tags[LE := bound]);
  }

  // ---------------------------------------------------------------- reading

  predicate Letter(c: char) {
    'a' <= c <= 'z' || 'A' <= c <= 'Z' || c == '_'
  }

  predicate NameChar(c: char) {
    Letter(c) || '0' <= c <= '9'
  }

  predicate LegalName(k: string) {
    |k| > 0 && Letter(k[0]) && forall i :: 0 <= i < |k| ==> NameChar(k[i])
  }

  /** The length of the longest run of name characters at the front. */
  function NameLength(s: string): (n: nat)
    ensures n <= |s|
  {
    if |s| == 0 || !NameChar(s[0]) then 0 else 1 + NameLength(s[1..])
  }

  /** A quoted value after its opening quote: the value, and the text after its closing quote. */
  function ParseValue(s: string): (r: Option<(string, string)>)
    ensures r.Some? ==> |r.value.1| < |s|
  {
    if |s| == 0 || s[0] == '\n' then None
    else if s[0] == '"' then Some(("", s[1..]))
    else if s[0] != '\\' then Prepend(s[0], ParseValue(s[1..]))
    else if |s| == 1 then None
    else if s[1] == '\\' || s[1] == '"' then Prepend(s[1], ParseValue(s[2..]))
    else if s[1] == 'n' then Prepend('\n', ParseValue(s[2..]))
    else None
  }

  function Prepend(c: char, r: Option<(string, string)>): Option<(string, string)> {
    match r
    case None => None
    case Some((v, rest)) => Some(([c] + v, rest))
  }

  /** Label pairs up to the closing brace; a comma may trail. */
  function ParseItems(s: string): Option<seq<(string, string)>>
    decreases |s|
  {
    if s == "}" then Some([]) else
    var n := NameLength(s);
    if n == 0 || !Letter(s[0]) || |s| < n + 2 || s[n] != '=' || s[n + 1] != '"' then None else
    match ParseValue(s[n + 2..])
    case None => None
    case Some((v, rest)) =>
      if rest == "}" then Some([(s[..n], v)])
      else if |rest| == 0 || rest[0] != ',' then None
      else
        match ParseItems(rest[1..])
        case None => None
        case Some(more) => Some([(s[..n], v)] + more)
  }

  function ParseLabels(s: string): Option<seq<(string, string)>> {
    if |s| == 0 then Some([]) else if s[0] != '{' then None else ParseItems(s[1..])
  }

  // ---------------------------------------------------------------- the round trip

  lemma {:induction false} ValueRoundTrip(v: string, rest: string)
    ensures ParseValue(Replaced(v) + "\"" + rest) == Some((v, rest))
  {
    var s := Replaced(v) + "\"" + rest;
    if |v| == 0 {
      assert s[1..] == rest;
    } else {
      var e, tail := EscapeChar(v[0]), Replaced(v[1..]) + "\"" + rest;
      assert s == e + tail;
      assert s[|e|..] == tail;
      ValueRoundTrip(v[1..], rest);
      assert v == [v[0]] + v[1..];
    }
  }

  lemma {:induction false} NameRoundTrip(k: string, rest: string)
    requires forall i :: 0 <= i < |k| ==> NameChar(k[i])
    requires |rest| > 0 && !NameChar(rest[0])
    ensures NameLength(k + rest) == |k|
    decreases |k|
  {
    if |k| == 0 {
      assert k + rest == rest;
    } else {
      assert (k + rest)[1..] == k[1..] + rest;
      NameRoundTrip(k[1..], rest);
    }
  }

  lemma ItemSlices(k: string, e: string, rest: string)
    ensures
      var s := (k + "=\"" + e + "\"") + rest;
      && s == k + ("=\"" + e + "\"" + rest) && |s| >= |k| + 2 && s[..|k|] == k
      && s[|k|] == '=' && s[|k| + 1] == '"' && s[|k| + 2..] == e + "\"" + rest
  {
  }

  lemma ItemParses(k: string, v: string, rest: string)
    requires LegalName(k)
    ensures
      var s := Item(k, v) + rest;
      && NameLength(s) == |k| && |s| >= |k| + 2 && s[..|k|] == k && s[|k|] == '=' && s[|k| + 1] == '"'
      && Letter(s[0]) && ParseValue(s[|k| + 2..]) == Some((v, rest))
  {
    EscapeIsReplaced(v);
    ItemSlices(k, EscapeLabelValue(v), rest);
    NameRoundTrip(k, "=\"" + EscapeLabelValue(v) + "\"" + rest);
    ValueRoundTrip(v, rest);
    assert (Item(k, v) + rest)[..|k|][0] == k[0];
  }

  lemma ParseLast(k: string, v: string)
    requires LegalName(k)
    ensures ParseItems(Item(k, v) + "}") == Some([(k, v)])
  {
    ItemParses(k, v, "}");
  }

  lemma ParseMore(k: string, v: string, rest: string, more: seq<(string, string)>)
    requires LegalName(k) && ParseItems(rest) == Some(more)
    ensures ParseItems(Item(k, v) + ("," + rest)) == Some([(k, v)] + more)
  {
    ItemParses(k, v, "," + rest);
    assert ("," + rest)[1..] == rest;
  }

  lemma JoinFirst(items: seq<string>)
    requires |items| > 1
    ensures Join(items, ',') + "}" == items[0] + ("," + (Join(items[1..], ',') + "}"))
  {
  }

  lemma {:induction false} ItemsRoundTrip(pairs: seq<(string, string)>)
    requires |pairs| > 0 && forall i :: 0 <= i < |pairs| ==> LegalName(pairs[i].0)
    ensures ParseItems(Join(Items(pairs), ',') + "}") == Some(pairs)
    decreases |pairs|
  {
    var items := Items(pairs);
    var (k, v) := pairs[0];
    if |pairs| == 1 {
      ParseLast(k, v);
      assert pairs == [(k, v)];
    } else {
      assert items[1..] == Items(pairs[1..]);
      ItemsRoundTrip(pairs[1..]);
      ParseMore(k, v, Join(items[1..], ',') + "}", pairs[1..]);
      JoinFirst(items);
      assert pairs == [(k, v)] + pairs[1..];
    }
  }

  lemma ParseBraced(body: string)
    ensures ParseLabels("{" + body) == ParseItems(body)
  {
  }

  lemma LabelTextBraced(tags: Tags)
    requires |tags| > 0
    ensures LabelText(tags) == "{" + (Join(Items(SortedPairs(tags)), ',') + "}")
  {
  }

  /** For every tag map with legal label names and any values, reading the printed labels gives back exactly
      the sorted tags. */
  lemma LabelsRoundTrip(tags: Tags)
    requires forall k :: k in tags ==> LegalName(k)
    ensures ParseLabels(LabelText(tags)) == Some(SortedPairs(tags))
  {
    if |tags| > 0 {
      var pairs := SortedPairs(tags);
      ItemsRoundTrip(pairs);
      LabelTextBraced(tags);
      ParseBraced(Join(Items(pairs), ',') + "}");
    }
  }

  lemma PairFor(tags: Tags, k: string)
    requires k in tags
    ensures (k, tags[k]) in SortedPairs(tags)
  {
    var keys := SortedKeys(tags.Keys);
    assert k in keys;
    var i :| 0 <= i < |keys| && keys[i] == k;
    assert SortedPairs(tags)[i] == (k, tags[k]);
  }

  lemma LeLegal()
    ensures LegalName(LE)
  {
  }

  /** Reading a bucket's labels gives back its bound and every tag it does not shadow. */
  lemma BucketLabelsRead(tags: Tags, le: Option<real>, format: real -> string, k: string)
    requires forall n :: n in tags ==> LegalName(n)
    ensures
      var read := ParseLabels(LabelText(BucketTags(tags, le, format)));
      && read.Some? && (LE, BoundText(le, format)) in read.value
      && (k in tags && k != LE ==> (k, tags[k]) in read.value)
  {
    var all := BucketTags(tags, le, format);
    LeLegal();
    LabelsRoundTrip(all);
    PairFor(all, LE);
    if k in tags && k != LE { PairFor(all, k); }
  }

  // ---------------------------------------------------------------- one line per sample

  lemma {:induction false} ReplacedOneLine(v: string)
    ensures '\n' !in Replaced(v)
  {
    if |v| > 0 { ReplacedOneLine(v[1..]); }
  }

  lemma {:induction false} JoinHas(parts: seq<string>, sep: char, c: char)
    requires |parts| > 0 && c != sep
    ensures c in Join(parts, sep) <==> exists i :: 0 <= i < |parts| && c in parts[i]
    decreases |parts|
  {
    if |parts| > 1 {
      JoinHas(parts[1..], sep, c);
      assert forall i :: 0 <= i < |parts| - 1 ==> parts[1..][i] == parts[i + 1];
      if c in Join(parts[1..], sep) {
        var i :| 0 <= i < |parts| - 1 && c in parts[1..][i];
        assert c in parts[i + 1];
      }
      forall i | 0 < i < |parts| && c in parts[i] ensures c in Join(parts[1..], sep) {
        assert parts[1..][i - 1] == parts[i];
      }
    }
  }

  lemma ItemNewlineIff(k: string, v: string)
    ensures '\n' in Item(k, v) <==> '\n' in k
  {
    EscapeIsReplaced(v);
    ReplacedOneLine(v);
  }

  /** The label text spans lines only if a tag name does: values never break the line. */
  lemma LabelNewlineIff(tags: Tags)
    ensures '\n' in LabelText(tags) <==> exists k :: k in tags && '\n' in k
  {
    if |tags| > 0 {
      var keys, pairs := SortedKeys(tags.Keys), SortedPairs(tags);
      var items := Items(pairs);
      JoinHas(items, ',', '\n');
      forall i | 0 <= i < |pairs| ensures '\n' in items[i] <==> '\n' in pairs[i].0 {
        ItemNewlineIff(pairs[i].0, pairs[i].1);
      }
      if k :| k in tags && '\n' in k {
        assert k in keys;
        var i :| 0 <= i < |keys| && keys[i] == k;
        assert '\n' in items[i];
      }
    }
  }
}
