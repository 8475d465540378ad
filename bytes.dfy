/**
 * Machine integers of the C# driver.  A C# `byte` is a `bv8` and a `ushort`
 * register a `bv16`.  The signed `Int16` index and `Int32` data parameters of
 * the frame builders are carried as their two's-complement bit patterns
 * (`bv16`, `bv32`), which is all the builders look at; the tick counter is a
 * bounded `int`.
 */
module Bytes {

  type byte = bv8
  type int32 = x: int | -0x8000_0000 <= x < 0x8000_0000

  /** Two's-complement wrap-around of an unchecked C# `int` addition. */
  function Wrap32(x: int): (r: int32)
    ensures (r - x) % 0x1_0000_0000 == 0
    ensures -0x8000_0000 <= x < 0x8000_0000 ==> r == x
  {
    var m := x % 0x1_0000_0000;
    if m < 0x8000_0000 then m else m - 0x1_0000_0000
  }

  /** The low byte of a 16-bit value, `(byte)w`. */
  function LowByte(w: bv16): (b: byte)
    ensures b as bv16 == w & 0xFF
  {
    (w & 0xFF) as byte
  }

  /** The high byte of a 16-bit value, `(byte)(w / 256)`. */
  function HighByte(w: bv16): (b: byte)
    ensures b as bv16 == w >> 8
  {
    (w >> 8) as byte
  }
}
