/** Bytes and the result types shared by the other modules. */
module Bytes {

  type byte = b: int | 0 <= b < 256

  /** A 32-bit word, whether the source declares it signed or unsigned: its bit pattern as a number. */
  type uint32 = w: int | 0 <= w < 0x1_0000_0000

  /** A 64-bit word, as its bit pattern. */
  type uint64 = w: int | 0 <= w < 0x1_0000_0000_0000_0000

  datatype Option<+T> = None | Some(value: T)

  /** The two's-complement reading of a 32-bit word. */
  function AsInt32(w: uint32): (x: int)
    ensures -0x8000_0000 <= x < 0x8000_0000
  {
    if w < 0x8000_0000 then w else w - 0x1_0000_0000
  }

  /** The two's-complement reading of a 64-bit word. */
  function AsInt64(w: uint64): (x: int)
    ensures -0x8000_0000_0000_0000 <= x < 0x8000_0000_0000_0000
  {
    if w < 0x8000_0000_0000_0000 then w else w - 0x1_0000_0000_0000_0000
  }
}
