/** Big-endian fixed-width integers. */
module Bytes {

  type byte = x: int | 0 <= x < 256

  /** The low n bytes of x, most significant first. */
  function BigEndian(x: nat, n: nat): (r: seq<byte>)
    ensures |r| == n
    decreases n
  {
    if n == 0 then [] else BigEndian(x / 256, n - 1) + [x % 256]
  }

  function Value(b: seq<byte>): nat {
    if |b| == 0 then 0 else Value(b[..|b| - 1]) * 256 + b[|b| - 1]
  }

  function Limit(n: nat): nat {
    if n == 0 then 1 else 256 * Limit(n - 1)
  }

  lemma LimitEight()
    ensures Limit(8) == 0x1_0000_0000_0000_0000
  {
    assert Limit(4) == 0x1_0000_0000;
  }

  lemma {:induction false} ValueOfBigEndian(x: nat, n: nat)
    requires x < Limit(n)
    ensures Value(BigEndian(x, n)) == x
    decreases n
  {
    if n > 0 { ValueOfBigEndian(x / 256, n - 1); }
  }

  /** The first byte at which two encodings differ decides their order as numbers. */
  lemma {:induction false} FirstDifference(x: nat, y: nat, n: nat) returns (j: nat)
    requires x < y < Limit(n)
    ensures j < n && BigEndian(x, n)[..j] == BigEndian(y, n)[..j] && BigEndian(x, n)[j] < BigEndian(y, n)[j]
    decreases n
  {
    if x / 256 < y / 256 {
      j := FirstDifference(x / 256, y / 256, n - 1);
      assert BigEndian(x, n)[..j] == BigEndian(x / 256, n - 1)[..j];
      assert BigEndian(y, n)[..j] == BigEndian(y / 256, n - 1)[..j];
    } else {
      j := n - 1;
      assert BigEndian(x, n)[..j] == BigEndian(x / 256, n - 1);
    }
  }
}
