/**
 The bulk seed's ids: UUIDv7 strings minted from a microsecond instant and a random tail,
 with the microsecond within the millisecond in rand_a, so that they sort by time.
 */
module MonotoneId {
  import opened Bytes
  import opened Series

  /** Instants are microseconds since the Unix epoch whose milliseconds fit 48 bits. */
  const MAX_MICROS: int := 0x1_0000_0000_0000 * 1000

  // ---------------------------------------------------------------- minting

  /** The version nibble over the top of the 12-bit rand_a, which holds 0..999. */
  function VersionByte(sub: nat): byte
    requires sub < 1000
  {
    0x70 + sub / 256
  }

  /** The variant bits 10 over a random byte. */
  function VariantByte(b: byte): byte {
    b % 64 + 0x80
  }

  function IdBytes(us: nat, tail: seq<byte>): (b: seq<byte>)
    requires us < MAX_MICROS && |tail| == 8
    ensures |b| == 16
  {
    var sub := us % 1000;
    BigEndian(us / 1000, 6) + [VersionByte(sub), sub % 256, VariantByte(tail[0])] + tail[1..]
  }

  function HexDigit(x: nat): char
    requires x < 16
  {
    if x < 10 then ('0' as int + x) as char else ('a' as int + x - 10) as char
  }

  function Hex(b: seq<byte>): (r: string)
    ensures |r| == 2 * |b|
  {
    if |b| == 0 then "" else Hex(b[..|b| - 1]) + [HexDigit(b[|b| - 1] / 16), HexDigit(b[|b| - 1] % 16)]
  }

  lemma {:induction false} HexDigits(b: seq<byte>, i: nat)
    requires i < |b|
    ensures Hex(b)[2 * i] == HexDigit(b[i] / 16) && Hex(b)[2 * i + 1] == HexDigit(b[i] % 16)
    decreases |b|
  {
    if i < |b| - 1 { HexDigits(b[..|b| - 1], i); }
  }

  function Dashed(h: string): (id: string)
    requires |h| == 32
    ensures |id| == 36
  {
    h[0..8] + "-" + h[8..12] + "-" + h[12..16] + "-" + h[16..20] + "-" + h[20..32]
  }

  function Id(us: nat, tail: seq<byte>): string
    requires us < MAX_MICROS && |tail| == 8
  {
    Dashed(Hex(IdBytes(us, tail)))
  }

  /** The array is filled byte by byte, the timestamp by shifts. */
  method NewMonotoneId(us: nat, tail: seq<byte>) returns (id: string)
    requires us < MAX_MICROS && |tail| == 8
    ensures id == Id(us, tail)
  {
    var ms, sub := us / 1000, us % 1000;
    var b := new byte[16](_ => 0);
    b[0] := ms / 0x100_0000_0000 % 256;
    b[1] := ms / 0x1_0000_0000 % 256;
    b[2] := ms / 0x100_0000 % 256;
    b[3] := ms / 0x1_0000 % 256;
    b[4] := ms / 0x100 % 256;
    b[5] := ms % 256;
    ghost var stamp := b[..6];
    assert stamp == Timestamp(ms);
    b[6] := VersionByte(sub);
    b[7] := sub % 256;
    forall i | 0 <= i < 8 { b[8 + i] := tail[i]; }
    b[8] := VariantByte(tail[0]);
    assert b[..6] == stamp && b[9..] == tail[1..];
    assert b[..] == b[..6] + [b[6], b[7], b[8]] + b[9..];
    assert b[..] == IdBytes(us, tail) by { TimestampIs(ms); }
    id := Dashed(Hex(b[..]));
  }

  /** The six timestamp bytes as shifts. */
  function Timestamp(ms: nat): seq<byte> {
    [ms / 0x100_0000_0000 % 256, ms / 0x1_0000_0000 % 256, ms / 0x100_0000 % 256,
     ms / 0x1_0000 % 256, ms / 0x100 % 256, ms % 256]
  }

  lemma Shifts(ms: nat)
    ensures ms / 0x100 / 0x100 == ms / 0x1_0000 && ms / 0x1_0000 / 0x100 == ms / 0x100_0000
    ensures ms / 0x100_0000 / 0x100 == ms / 0x1_0000_0000 && ms / 0x1_0000_0000 / 0x100 == ms / 0x100_0000_0000
  {
  }

  lemma TimestampIs(ms: nat)
    ensures Timestamp(ms) == BigEndian(ms, 6)
  {
    Shifts(ms);
    Peel(ms, 6);
    Peel(ms / 0x100, 5);
    Peel(ms / 0x1_0000, 4);
    Peel(ms / 0x100_0000, 3);
    Peel(ms / 0x1_0000_0000, 2);
    Peel(ms / 0x100_0000_0000, 1);
  }

  lemma Peel(x: nat, n: nat)
    requires n > 0
    ensures BigEndian(x, n) == BigEndian(x / 0x100, n - 1) + [x % 0x100]
  {
  }

  // ---------------------------------------------------------------- well-formed

  predicate IsHex(c: char) {
    '0' <= c <= '9' || 'a' <= c <= 'f'
  }

  predicate IsDash(i: nat) {
    i == 8 || i == 13 || i == 18 || i == 23
  }

  /** The string form of section 4 of RFC 9562 with the variant of section 4.1 and the version of sections
      4.2 and 5.7. */
  ghost predicate IsUuidV7(id: string) {
    && |id| == 36
    && (forall i :: 0 <= i < 36 ==> if IsDash(i) then id[i] == '-' else IsHex(id[i]))
    && id[14] == '7' && (id[19] == '8' || id[19] == '9' || id[19] == 'a' || id[19] == 'b')
  }

  /** Where character i of the id comes from in the hex digits. */
  function Source(i: nat): int {
    if i < 8 then i else if i < 13 then i - 1 else if i < 18 then i - 2 else if i < 23 then i - 3 else i - 4
  }

  lemma DashedAt(h: string, i: nat)
    requires |h| == 32 && i < 36
    ensures if IsDash(i) then Dashed(h)[i] == '-' else 0 <= Source(i) < 32 && Dashed(h)[i] == h[Source(i)]
  {
  }

  lemma DigitIsHex(x: nat)
    requires x < 16
    ensures IsHex(HexDigit(x))
  {
  }

  lemma HexAt(b: seq<byte>, j: nat)
    requires j < 2 * |b|
    ensures IsHex(Hex(b)[j])
  {
    var i := j / 2;
    HexDigits(b, i);
    DigitIsHex(b[i] / 16);
    DigitIsHex(b[i] % 16);
  }

  lemma DashedShape(b: seq<byte>)
    requires |b| == 16
    ensures forall i :: 0 <= i < 36 ==> if IsDash(i) then Dashed(Hex(b))[i] == '-' else IsHex(Dashed(Hex(b))[i])
  {
    forall i | 0 <= i < 36 ensures if IsDash(i) then Dashed(Hex(b))[i] == '-' else IsHex(Dashed(Hex(b))[i]) {
      DashedAt(Hex(b), i);
      if !IsDash(i) { HexAt(b, Source(i)); }
    }
  }

  /** The first digits of bytes 6 and 8. */
  lemma VersionDigits(b: seq<byte>)
    requires |b| == 16
    ensures Dashed(Hex(b))[14] == HexDigit(b[6] / 16) && Dashed(Hex(b))[19] == HexDigit(b[8] / 16)
  {
    DashedAt(Hex(b), 14);
    DashedAt(Hex(b), 19);
    HexDigits(b, 6);
    HexDigits(b, 8);
  }

  lemma IdIsUuidV7(us: nat, tail: seq<byte>)
    requires us < MAX_MICROS && |tail| == 8
    ensures IsUuidV7(Id(us, tail))
  {
    var b := IdBytes(us, tail);
    assert b[6] == VersionByte(us % 1000) && b[8] == VariantByte(tail[0]);
    DashedShape(b);
    VersionDigits(b);
  }

  // ---------------------------------------------------------------- ordered by time

  /** The first eight bytes are one big-endian number that grows with the instant. */
  function Rank(us: nat): nat {
    us / 1000 * 0x1_0000 + 0x7000 + us % 1000
  }

  lemma RankGrows(a: nat, b: nat)
    requires a < b < MAX_MICROS
    ensures Rank(a) < Rank(b) < Limit(8)
  {
    LimitEight();
    var q, r := a / 1000, b / 1000;
    assert a == 1000 * q + a % 1000 && b == 1000 * r + b % 1000;
    assert q < r || (q == r && a % 1000 < b % 1000);
    assert r < 0x1_0000_0000_0000;
  }

  lemma PrefixIsRank(us: nat, tail: seq<byte>)
    requires us < MAX_MICROS && |tail| == 8
    ensures IdBytes(us, tail)[..8] == BigEndian(Rank(us), 8)
  {
    var r, sub := Rank(us), us % 1000;
    Peel(r, 8);
    Peel(r / 0x100, 7);
    assert r / 0x100 / 0x100 == us / 1000;
    assert r % 0x100 == sub % 256 && r / 0x100 % 0x100 == 0x70 + sub / 256;
  }

  /** Where hex digit j lands in the id. */
  function Target(j: nat): nat {
    if j < 8 then j else if j < 12 then j + 1 else if j < 16 then j + 2 else if j < 20 then j + 3 else j + 4
  }

  lemma {:induction false} LessAt(a: string, b: string, i: nat)
    requires i < |a| && i < |b| && a[..i] == b[..i] && a[i] < b[i]
    ensures Less(a, b)
    decreases i
  {
    if i > 0 {
      assert a[0] == a[..i][0] && b[0] == b[..i][0];
      assert a[1..][..i - 1] == a[..i][1..] && b[1..][..i - 1] == b[..i][1..];
      LessAt(a[1..], b[1..], i - 1);
    }
  }

  /** Hex digits that agree up to digit j and then ascend give ids that ascend. */
  lemma DashedAscends(g: string, h: string, j: nat)
    requires |g| == |h| == 32 && j < 32 && g[..j] == h[..j] && g[j] < h[j]
    ensures Less(Dashed(g), Dashed(h))
  {
    var i := Target(j);
    DashedAt(g, i);
    DashedAt(h, i);
    var a, b := Dashed(g), Dashed(h);
    forall k | 0 <= k < i ensures a[k] == b[k] {
      DashedAt(g, k);
      DashedAt(h, k);
      if !IsDash(k) { assert g[..j][Source(k)] == h[..j][Source(k)]; }
    }
    LessAt(a, b, i);
  }

  lemma DigitGrows(x: nat, y: nat)
    requires x < y < 16
    ensures HexDigit(x) < HexDigit(y)
  {
  }

  lemma {:induction false} HexTake(b: seq<byte>, j: nat)
    requires j <= |b|
    ensures Hex(b)[..2 * j] == Hex(b[..j])
    decreases |b|
  {
    if j == |b| {
      assert b[..j] == b;
    } else {
      assert b[..|b| - 1][..j] == b[..j];
      HexTake(b[..|b| - 1], j);
    }
  }

  lemma HexPrefix(a: seq<byte>, b: seq<byte>, j: nat)
    requires j <= |a| == |b| && a[..j] == b[..j]
    ensures Hex(a)[..2 * j] == Hex(b)[..2 * j]
  {
    HexTake(a, j);
    HexTake(b, j);
  }

  /** Whatever the random tails, a later microsecond gives a greater id. */
  lemma IdsIncrease(a: nat, b: nat, s: seq<byte>, t: seq<byte>)
    requires a < b < MAX_MICROS && |s| == |t| == 8
    ensures Less(Id(a, s), Id(b, t))
  {
    RankGrows(a, b);
    PrefixIsRank(a, s);
    PrefixIsRank(b, t);
    var j := FirstDifference(Rank(a), Rank(b), 8);
    var x, y := IdBytes(a, s), IdBytes(b, t);
    assert x[..8][..j] == x[..j] && y[..8][..j] == y[..j] && x[..8][j] == x[j] && y[..8][j] == y[j];
    HexAscends(x, y, j);
  }

  lemma HexAscends(x: seq<byte>, y: seq<byte>, j: nat)
    requires j < |x| == |y| == 16 && x[..j] == y[..j] && x[j] < y[j]
    ensures Less(Dashed(Hex(x)), Dashed(Hex(y)))
  {
    HexPrefix(x, y, j);
    HexDigits(x, j);
    HexDigits(y, j);
    var g, h := Hex(x), Hex(y);
    if x[j] / 16 < y[j] / 16 {
      DigitGrows(x[j] / 16, y[j] / 16);
      DashedAscends(g, h, 2 * j);
    } else {
      DigitGrows(x[j] % 16, y[j] % 16);
      assert g[..2 * j + 1] == g[..2 * j] + [g[2 * j]] && h[..2 * j + 1] == h[..2 * j] + [h[2 * j]];
      DashedAscends(g, h, 2 * j + 1);
    }
  }

  // ---------------------------------------------------------------- generations

  /** Row i of a generation: generations start a second apart, rows a microsecond. */
  function At(epoch: nat, generation: nat, i: nat): nat {
    epoch + generation * 1_000_000 + i
  }

  /** Whatever the random tails, the id minted at a sorts before the one minted at b. */
  ghost predicate Ascends(a: nat, b: nat)
    requires a < MAX_MICROS && b < MAX_MICROS
  {
    forall s: seq<byte>, t: seq<byte> :: |s| == |t| == 8 ==> Less(Id(a, s), Id(b, t))
  }

  lemma AscendsIff(a: nat, b: nat)
    requires a < MAX_MICROS && b < MAX_MICROS
    ensures Ascends(a, b) <==> a < b
  {
    if a < b {
      forall s: seq<byte>, t: seq<byte> | |s| == |t| == 8 ensures Less(Id(a, s), Id(b, t)) { IdsIncrease(a, b, s, t); }
    } else {
      var tail := seq(8, _ => 0);
      if b < a { IdsIncrease(b, a, tail, tail); }
      LessTotal(Id(a, tail), Id(b, tail));
      assert !Less(Id(a, tail), Id(b, tail));
    }
  }

  predicate EarlierRow(g: nat, i: nat, h: nat, j: nat) {
    g < h || (g == h && i < j)
  }

  predicate RowOf(generations: nat, rows: nat, g: nat, i: nat) {
    g < generations && i < rows
  }

  /** Ids ascend over all rows of all generations, in order. */
  ghost predicate Ordered(epoch: nat, generations: nat, rows: nat)
    requires At(epoch, generations, rows) < MAX_MICROS
  {
    forall g, i, h, j :: RowOf(generations, rows, g, i) && RowOf(generations, rows, h, j) && EarlierRow(g, i, h, j) ==>
      Ascends(At(epoch, g, i), At(epoch, h, j))
  }

  /** Ids are unique and ordered across every row of every generation exactly when a generation has at most
      1,000,000 rows; one more row lands on the first instant of the next generation. */
  lemma GenerationsOrderedIff(epoch: nat, generations: nat, rows: nat)
    requires generations >= 2 && At(epoch, generations, rows) < MAX_MICROS
    ensures Ordered(epoch, generations, rows) <==> rows <= 1_000_000
  {
    if rows <= 1_000_000 {
      forall g, i, h, j | RowOf(generations, rows, g, i) && RowOf(generations, rows, h, j) && EarlierRow(g, i, h, j)
        ensures Ascends(At(epoch, g, i), At(epoch, h, j))
      {
        AscendsIff(At(epoch, g, i), At(epoch, h, j));
      }
    } else {
      AscendsIff(At(epoch, 0, 1_000_000), At(epoch, 1, 0));
      assert RowOf(generations, rows, 0, 1_000_000) && RowOf(generations, rows, 1, 0) && EarlierRow(0, 1_000_000, 1, 0);
    }
  }

  // ---------------------------------------------------------------- what an id holds

  function HexValue(c: char): int {
    if '0' <= c <= '9' then c as int - '0' as int else c as int - 'a' as int + 10
  }

  /** Byte i of the id, read back from its two digits. */
  function ByteAt(id: string, i: nat): int
    requires |id| == 36 && i < 16
  {
    16 * HexValue(id[Target(2 * i)]) + HexValue(id[Target(2 * i + 1)])
  }

  lemma ByteReadsBack(b: seq<byte>, i: nat)
    requires |b| == 16 && i < 16
    ensures ByteAt(Dashed(Hex(b)), i) == b[i]
  {
    HexDigits(b, i);
    TargetAt(Hex(b), 2 * i);
    TargetAt(Hex(b), 2 * i + 1);
    DigitReadsBack(b[i] / 16);
    DigitReadsBack(b[i] % 16);
  }

  lemma TargetAt(h: string, j: nat)
    requires |h| == 32 && j < 32
    ensures Dashed(h)[Target(j)] == h[j]
  {
    DashedAt(h, Target(j));
  }

  lemma DigitReadsBack(x: nat)
    requires x < 16
    ensures HexValue(HexDigit(x)) == x
  {
  }

  function FromSix(a: int, b: int, c: int, d: int, e: int, f: int): int {
    a * 0x100_0000_0000 + b * 0x1_0000_0000 + c * 0x100_0000 + d * 0x1_0000 + e * 0x100 + f
  }

  /** The millisecond in the first six bytes. */
  function StampOf(id: string): int
    requires |id| == 36
  {
    FromSix(ByteAt(id, 0), ByteAt(id, 1), ByteAt(id, 2), ByteAt(id, 3), ByteAt(id, 4), ByteAt(id, 5))
  }

  lemma StampReadsBack(us: nat, tail: seq<byte>)
    requires us < MAX_MICROS && |tail| == 8
    ensures StampOf(Id(us, tail)) == us / 1000
  {
    var b, t := IdBytes(us, tail), Timestamp(us / 1000);
    TimestampIs(us / 1000);
    assert b[..6] == t;
    forall i | 0 <= i < 6 ensures ByteAt(Id(us, tail), i) == t[i] {
      ByteReadsBack(b, i);
      assert b[..6][i] == b[i];
    }
    TimestampValue(us / 1000);
  }

  lemma TimestampValue(ms: nat)
    requires ms < 0x1_0000_0000_0000
    ensures
      var t := Timestamp(ms);
      FromSix(t[0], t[1], t[2], t[3], t[4], t[5]) == ms
  {
    Shifts(ms);
  }

  /** The id gives back its millisecond, its microsecond within it, and the 62 bits of its random tail that the
      variant leaves. */
  lemma IdReadsBack(us: nat, tail: seq<byte>)
    requires us < MAX_MICROS && |tail| == 8
    ensures
      var id := Id(us, tail);
      && StampOf(id) == us / 1000 && ByteAt(id, 6) % 16 * 0x100 + ByteAt(id, 7) == us % 1000
      && ByteAt(id, 8) % 64 == tail[0] % 64
      && (forall i :: 1 <= i < 8 ==> ByteAt(id, 8 + i) == tail[i])
  {
    StampReadsBack(us, tail);
    SubReadsBack(us, tail);
    forall i | 0 <= i < 8
      ensures i == 0 ==> ByteAt(Id(us, tail), 8) % 64 == tail[0] % 64
      ensures i > 0 ==> ByteAt(Id(us, tail), 8 + i) == tail[i]
    {
      TailReadsBack(us, tail, i);
    }
  }

  lemma SubReadsBack(us: nat, tail: seq<byte>)
    requires us < MAX_MICROS && |tail| == 8
    ensures ByteAt(Id(us, tail), 6) % 16 * 0x100 + ByteAt(Id(us, tail), 7) == us % 1000
  {
    var b := IdBytes(us, tail);
    ByteReadsBack(b, 6);
    ByteReadsBack(b, 7);
    assert b[6] == VersionByte(us % 1000) && b[7] == us % 1000 % 256;
    VersionValue(us % 1000);
  }

  lemma VersionValue(sub: nat)
    requires sub < 1000
    ensures VersionByte(sub) % 16 * 0x100 + sub % 256 == sub
  {
  }

  lemma TailReadsBack(us: nat, tail: seq<byte>, i: nat)
    requires us < MAX_MICROS && |tail| == 8 && i < 8
    ensures i == 0 ==> ByteAt(Id(us, tail), 8) % 64 == tail[0] % 64
    ensures i > 0 ==> ByteAt(Id(us, tail), 8 + i) == tail[i]
  {
    var b := IdBytes(us, tail);
    ByteReadsBack(b, 8 + i);
    if i == 0 {
      assert b[8] == VariantByte(tail[0]);
      VariantValue(tail[0]);
    } else {
      assert b[8 + i] == tail[1..][i - 1];
    }
  }

  lemma VariantValue(b: byte)
    ensures VariantByte(b) % 64 == b % 64
  {
  }

  /** Two ids are the same exactly when they were minted at the same microsecond over the same 62 random bits. */
  lemma IdsEqualIff(a: nat, b: nat, s: seq<byte>, t: seq<byte>)
    requires a < MAX_MICROS && b < MAX_MICROS && |s| == |t| == 8
    ensures Id(a, s) == Id(b, t) <==> a == b && s[0] % 64 == t[0] % 64 && s[1..] == t[1..]
  {
    if Id(a, s) == Id(b, t) {
      IdReadsBack(a, s);
      IdReadsBack(b, t);
      assert a == 1000 * (a / 1000) + a % 1000 && b == 1000 * (b / 1000) + b % 1000;
      forall i | 1 <= i < 8 ensures s[i] == t[i] { assert ByteAt(Id(a, s), 8 + i) == ByteAt(Id(b, t), 8 + i); }
    }
  }
}
