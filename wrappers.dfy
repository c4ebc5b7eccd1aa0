/** Kotlin's nullable results (`T?`) and the byte type shared by every module. */
module Wrappers {

  /** A Kotlin value of type `T?`: `None` stands for `null`. */
  datatype Option<+T> = None | Some(value: T)

  /** A Kotlin `Byte`, represented by its bit pattern 0..255 (0xFF stands for -1). */
  type byte = x: int | 0 <= x < 256

  /** Kotlin's `Int.toByte()`: keeps the low 8 bits of the two's complement form. */
  function ToByte(x: int): (b: byte)
    ensures (x - b) % 256 == 0
    ensures 0 <= x < 256 ==> b == x
  {
    x % 256
  }
}
