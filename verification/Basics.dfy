/** Small definitions shared by every other module. */
module Basics {

  datatype Option<+T> = None | Some(value: T)

  /** The range of a C `uint16_t`. */
  type uint16 = x: int | 0 <= x < 0x1_0000

  /** One past the largest value of a 32-bit unsigned integer. */
  const WORD := 0x1_0000_0000

  /** Reduction of an exact result to a 32-bit unsigned integer. */
  function U32(x: int): (r: int)
    ensures 0 <= r < WORD
    ensures 0 <= x < WORD ==> r == x
  {
    x % 0x1_0000_0000
  }
}
