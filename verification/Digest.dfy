/**
 The byte string the workload digest hashes: a count, then each job spec in fixed-width
 and length-prefixed fields. Decoding it shows that no two workloads share an encoding.
 */
module Digest {
  import opened Options
  import opened Bytes
  import opened Integers

  datatype Spec = Spec(n: int64, workNanos: int64, priority: int64, children: int64, payload: seq<byte>, fail: bool)

  /** uint64(x): two's complement. */
  function Word(x: int): nat
    requires -0x8000_0000_0000_0000 <= x < 0x1_0000_0000_0000_0000
  {
    if x < 0 then x + 0x1_0000_0000_0000_0000 else x
  }

  function Signed(x: nat): int64
    requires x < 0x1_0000_0000_0000_0000
  {
    if x >= 0x8000_0000_0000_0000 then x - 0x1_0000_0000_0000_0000 else x
  }

  /** A Go length is an int. */
  predicate Encodable(s: Spec) {
    |s.payload| < 0x8000_0000_0000_0000
  }

  const FIELDS: nat := 5

  /** 64-bit words, one after the other. */
  function EncodeWords(ws: seq<nat>): seq<byte> {
    if |ws| == 0 then [] else BigEndian(ws[0], 8) + EncodeWords(ws[1..])
  }

  function Fields(s: Spec): (ws: seq<nat>)
    requires Encodable(s)
    ensures |ws| == FIELDS
  {
    [Word(s.n), Word(s.workNanos), Word(s.priority), Word(s.children), |s.payload|]
  }

  function EncodeOne(s: Spec): seq<byte>
    requires Encodable(s)
  {
    EncodeWords(Fields(s)) + (s.payload + [if s.fail then 1 else 0])
  }

  ghost predicate AllEncodable(specs: seq<Spec>) {
    |specs| < 0x8000_0000_0000_0000 && forall i :: 0 <= i < |specs| ==> Encodable(specs[i])
  }

  ghost function EncodeSpecs(specs: seq<Spec>): seq<byte>
    requires forall i :: 0 <= i < |specs| ==> Encodable(specs[i])
  {
    if |specs| == 0 then [] else EncodeOne(specs[0]) + EncodeSpecs(specs[1..])
  }

  ghost function Encoded(specs: seq<Spec>): seq<byte>
    requires AllEncodable(specs)
  {
    BigEndian(|specs|, 8) + EncodeSpecs(specs)
  }

  lemma {:induction false} EncodeAppend(specs: seq<Spec>, s: Spec)
    requires Encodable(s) && forall i :: 0 <= i < |specs| ==> Encodable(specs[i])
    ensures EncodeSpecs(specs + [s]) == EncodeSpecs(specs) + EncodeOne(s)
    decreases |specs|
  {
    if |specs| > 0 {
      assert (specs + [s])[1..] == specs[1..] + [s];
      EncodeAppend(specs[1..], s);
    } else {
      assert (specs + [s])[1..] == [];
    }
  }

  lemma {:induction false} WordsAppend(ws: seq<nat>, w: nat)
    ensures EncodeWords(ws + [w]) == EncodeWords(ws) + BigEndian(w, 8)
    decreases |ws|
  {
    if |ws| > 0 {
      assert (ws + [w])[1..] == ws[1..] + [w];
      WordsAppend(ws[1..], w);
    } else {
      assert (ws + [w])[1..] == [];
    }
  }

  /** One spec: its five words through the scratch buffer in turn, then the payload and the fail byte. */
  method EncodeSpec(s: Spec) returns (one: seq<byte>)
    requires Encodable(s)
    ensures one == EncodeOne(s)
  {
    var fields := Fields(s);
    one := [];
    for k := 0 to |fields|
      invariant one == EncodeWords(fields[..k])
    {
      assert fields[..k + 1] == fields[..k] + [fields[k]];
      WordsAppend(fields[..k], fields[k]);
      one := one + BigEndian(fields[k], 8);
    }
    assert fields[..|fields|] == fields;
    var fail: byte := 0;
    if s.fail { fail := 1; }
    one := one + (s.payload + [fail]);
  }

  /** The bytes written to the hash. */
  method Encode(specs: seq<Spec>) returns (h: seq<byte>)
    requires AllEncodable(specs)
    ensures h == Encoded(specs)
  {
    var body := [];
    for i := 0 to |specs|
      invariant body == EncodeSpecs(specs[..i])
    {
      assert specs[..i + 1] == specs[..i] + [specs[i]];
      EncodeAppend(specs[..i], specs[i]);
      var one := EncodeSpec(specs[i]);
      body := body + one;
    }
    assert specs[..|specs|] == specs;
    h := BigEndian(|specs|, 8) + body;
  }

  // ---------------------------------------------------------------- decoding

  function ReadWord(b: seq<byte>): (r: Option<(nat, seq<byte>)>)
    ensures r.Some? ==> |r.value.1| < |b| && r.value.0 < 0x1_0000_0000_0000_0000
  {
    if |b| < 8 then None else
    LimitEight();
    ValueBounded(b[..8]);
    Some((Value(b[..8]), b[8..]))
  }

  lemma {:induction false} ValueBounded(b: seq<byte>)
    ensures Value(b) < Limit(|b|)
  {
    if |b| > 0 { ValueBounded(b[..|b| - 1]); }
  }

  lemma WordReads(x: nat, rest: seq<byte>)
    requires x < 0x1_0000_0000_0000_0000
    ensures ReadWord(BigEndian(x, 8) + rest) == Some((x, rest))
  {
    LimitEight();
    ValueOfBigEndian(x, 8);
    var b := BigEndian(x, 8) + rest;
    assert b[..8] == BigEndian(x, 8) && b[8..] == rest;
  }

  function ReadWords(b: seq<byte>, n: nat): (r: Option<(seq<nat>, seq<byte>)>)
    ensures r.Some? ==> |r.value.0| == n && |r.value.1| <= |b|
    ensures r.Some? ==> forall i :: 0 <= i < n ==> r.value.0[i] < 0x1_0000_0000_0000_0000
    decreases n
  {
    if n == 0 then Some(([], b)) else
    match ReadWord(b)
    case None => None
    case Some((w, rest)) =>
      match ReadWords(rest, n - 1)
      case None => None
      case Some((ws, left)) => Some(([w] + ws, left))
  }

  /** A spec from its fields and what follows them. */
  function Assemble(ws: seq<nat>, rest: seq<byte>): (r: Option<(Spec, seq<byte>)>)
    requires |ws| == FIELDS && forall i :: 0 <= i < FIELDS ==> ws[i] < 0x1_0000_0000_0000_0000
    ensures r.Some? ==> |r.value.1| < |rest|
  {
    var length := ws[4];
    if |rest| <= length then None
    else Some((Spec(Signed(ws[0]), Signed(ws[1]), Signed(ws[2]), Signed(ws[3]), rest[..length], rest[length] == 1),
               rest[length + 1..]))
  }

  function DecodeOne(b: seq<byte>): (r: Option<(Spec, seq<byte>)>)
    ensures r.Some? ==> |r.value.1| < |b|
  {
    match ReadWords(b, FIELDS)
    case None => None
    case Some((ws, rest)) => Assemble(ws, rest)
  }

  function DecodeSpecs(b: seq<byte>, n: nat): Option<seq<Spec>>
    decreases n
  {
    if n == 0 then (if |b| == 0 then Some([]) else None) else
    match DecodeOne(b)
    case None => None
    case Some((s, rest)) =>
      match DecodeSpecs(rest, n - 1)
      case None => None
      case Some(more) => Some([s] + more)
  }

  function Decode(b: seq<byte>): Option<seq<Spec>> {
    match ReadWord(b)
    case None => None
    case Some((n, rest)) => DecodeSpecs(rest, n)
  }

  lemma SplitAt(a: seq<byte>, b: seq<byte>, rest: seq<byte>)
    ensures (a + b) + rest == a + (b + rest)
  {
  }

  lemma TailReads(payload: seq<byte>, fail: byte, rest: seq<byte>)
    ensures
      var b := (payload + [fail]) + rest;
      |b| > |payload| && b[..|payload|] == payload && b[|payload|] == fail && b[|payload| + 1..] == rest
  {
  }

  lemma {:induction false} WordsRoundTrip(ws: seq<nat>, rest: seq<byte>)
    requires forall i :: 0 <= i < |ws| ==> ws[i] < 0x1_0000_0000_0000_0000
    ensures ReadWords(EncodeWords(ws) + rest, |ws|) == Some((ws, rest))
    decreases |ws|
  {
    if |ws| == 0 {
      assert EncodeWords(ws) + rest == rest;
    } else {
      SplitAt(BigEndian(ws[0], 8), EncodeWords(ws[1..]), rest);
      WordReads(ws[0], EncodeWords(ws[1..]) + rest);
      WordsRoundTrip(ws[1..], rest);
      assert ws == [ws[0]] + ws[1..];
    }
  }

  lemma AssembleFields(s: Spec, rest: seq<byte>)
    requires Encodable(s)
    ensures Assemble(Fields(s), (s.payload + [if s.fail then 1 else 0]) + rest) == Some((s, rest))
  {
    TailReads(s.payload, if s.fail then 1 else 0, rest);
  }

  lemma OneRoundTrip(s: Spec, rest: seq<byte>)
    requires Encodable(s)
    ensures DecodeOne(EncodeOne(s) + rest) == Some((s, rest))
  {
    var tail := s.payload + [if s.fail then 1 else 0];
    SplitAt(EncodeWords(Fields(s)), tail, rest);
    WordsRoundTrip(Fields(s), tail + rest);
    AssembleFields(s, rest);
  }

  lemma {:induction false} SpecsRoundTrip(specs: seq<Spec>)
    requires forall i :: 0 <= i < |specs| ==> Encodable(specs[i])
    ensures DecodeSpecs(EncodeSpecs(specs), |specs|) == Some(specs)
  {
    if |specs| > 0 {
      OneRoundTrip(specs[0], EncodeSpecs(specs[1..]));
      SpecsRoundTrip(specs[1..]);
      assert specs == [specs[0]] + specs[1..];
    }
  }

  lemma RoundTrip(specs: seq<Spec>)
    requires AllEncodable(specs)
    ensures Decode(Encoded(specs)) == Some(specs)
  {
    WordReads(|specs|, EncodeSpecs(specs));
    SpecsRoundTrip(specs);
  }

  /** Two workloads are encoded to the same bytes only if they are the same workload. */
  lemma EncodingInjective(a: seq<Spec>, b: seq<Spec>)
    requires AllEncodable(a) && AllEncodable(b) && Encoded(a) == Encoded(b)
    ensures a == b
  {
    RoundTrip(a);
    RoundTrip(b);
  }
}
