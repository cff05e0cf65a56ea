/**
 * The ranges of the fixed-width integer types the sources compute with.
 * The model computes on unbounded integers and states these ranges where
 * a value is narrowed or where an overflow would panic.
 */
module Ints {
  const U8Max: nat := 0xFF
  const U32Max: nat := 0xFFFF_FFFF
  const I32Min: int := -0x8000_0000
  const I32Max: int := 0x7FFF_FFFF

  /** A value representable as an `i32`. */
  predicate InI32(n: int) {
    I32Min <= n <= I32Max
  }
}
