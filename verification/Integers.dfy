/** Go's fixed-width integers. */
module Integers {
  type int64 = x: int | -0x8000_0000_0000_0000 <= x < 0x8000_0000_0000_0000

  /** uint64 arithmetic wraps. */
  function Wrap(x: int): nat {
    x % 0x1_0000_0000_0000_0000
  }
}
