/** Scalar types shared by every module. */
module Primitives {

  /** An instant in nanoseconds since the Unix epoch. Offset spellings of one instant are
      one value. */
  type Instant = int

  /** A 128-bit identifier read big-endian, so numeric order is bytewise order. */
  type Uuid = nat

  /** Largest value of an unsigned 64-bit integer. */
  const U64_MAX: nat := 0xFFFF_FFFF_FFFF_FFFF

  const NANOS_PER_SECOND: int := 1_000_000_000
}
