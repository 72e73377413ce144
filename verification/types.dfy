/** Machine-level types shared by the buffer and the socket manager models. */
module Types {

  /** An unsigned 8-bit value, one cell of a byte buffer. */
  type byte = x: int | 0 <= x < 256

  /** Number of distinct `uint32_t` values. */
  const UINT32_RANGE: int := 0x1_0000_0000

  /** A C `uint32_t`; arithmetic on it wraps modulo UINT32_RANGE. */
  type uint32 = x: int | 0 <= x < 0x1_0000_0000

  const INT32_MIN: int := -0x8000_0000
  const INT32_MAX: int := 0x7FFF_FFFF

  /** A value representable by a C `int` (32 bits on every supported target). */
  predicate IsInt32(x: int) {
    INT32_MIN <= x <= INT32_MAX
  }

  /** A value or nothing; stands for a pointer that may be null. */
  datatype Option<+T> = None | Some(value: T)
}
