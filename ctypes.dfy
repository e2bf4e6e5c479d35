/** Fixed-width C integer types that appear in the signatures of the wrapper. */
module CTypes {

  /** C `uint64_t`. */
  newtype u64 = x: int | 0 <= x < 0x1_0000_0000_0000_0000

  /** C `int` (32 bits on every target the wrapper is built for). */
  newtype i32 = x: int | -0x8000_0000 <= x < 0x8000_0000

  const I32_MAX: int := 0x7fff_ffff
}
