/**
 What the other modules share: optional values, and 32-bit words and bytes as integers.
 */
module Basics {

  datatype Option<T> = None | Some(value: T)

  const TWO32 := 0x1_0000_0000

  type Word = n: int | 0 <= n < 0x1_0000_0000
  type Byte = n: int | 0 <= n < 256

  /** What an unsigned 32-bit variable holds after the assignment of `n`. */
  function W(n: int): Word {
    n % TWO32
  }
}
