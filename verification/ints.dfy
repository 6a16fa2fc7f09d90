/**
 * The fixed-width integers of the Go and Rust sources. Dafny's integers are
 * unbounded, so each width is a subset type and every increment that can
 * overflow is written out with Go's two's-complement wrap-around.
 */
module Ints {

  const U64_LIMIT: int := 0x1_0000_0000_0000_0000
  const I64_MIN: int := -0x8000_0000_0000_0000
  const I64_MAX: int := 0x7FFF_FFFF_FFFF_FFFF

  type uint16 = x: int | 0 <= x < 0x1_0000
  type uint32 = x: int | 0 <= x < 0x1_0000_0000
  type uint64 = x: int | 0 <= x < 0x1_0000_0000_0000_0000
  type int64 = x: int | -0x8000_0000_0000_0000 <= x < 0x8000_0000_0000_0000

  /** Go's `x++` on a `uint64`: the largest value wraps to 0. */
  function IncU64(x: uint64): (r: uint64)
    ensures r == (x + 1) % U64_LIMIT
    ensures x + 1 < U64_LIMIT ==> r == x + 1
    ensures x + 1 == U64_LIMIT ==> r == 0
  {
    if x + 1 == U64_LIMIT then 0 else x + 1
  }

  /** Go's `x++` on an `int64`: the largest value wraps to the smallest. */
  function IncI64(x: int64): (r: int64)
    ensures r == (x + 1 - I64_MIN) % U64_LIMIT + I64_MIN
    ensures x < I64_MAX ==> r == x + 1
    ensures x == I64_MAX ==> r == I64_MIN
  {
    if x == I64_MAX then I64_MIN else x + 1
  }

  /** Go's `x - 1` on an `int64`: the smallest value wraps to the largest. */
  function DecI64(x: int64): (r: int64)
    ensures r == (x - 1 - I64_MIN) % U64_LIMIT + I64_MIN
    ensures x > I64_MIN ==> r == x - 1
    ensures x == I64_MIN ==> r == I64_MAX
  {
    if x == I64_MIN then I64_MAX else x - 1
  }
}
