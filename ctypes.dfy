/** Fixed-width integer types of the firmware (the `uint8`, `uint16`, `int16`
    and `uint32` of the Z-Stack headers) and the small wrappers shared by the
    other modules. Wire bytes are bit-vectors, because the CRC and the frame
    layout are bit operations; decoded quantities are bounded integers. */
module CTypes {

  /** One byte on the serial line. */
  type byte = bv8

  type uint8 = x: int | 0 <= x < 0x100
  type uint16 = x: int | 0 <= x < 0x1_0000
  type int16 = x: int | -0x8000 <= x < 0x8000
  type uint32 = x: int | 0 <= x < 0x1_0000_0000

  datatype Option<T> = None | Some(value: T)

  /** What an assignment of the integer `x` to an `int16` variable stores on a
      two's-complement target: `x` reduced modulo 2^16 and read back as signed. */
  function ToInt16(x: int): (r: int16)
    ensures (r - x) % 0x1_0000 == 0
    ensures 0 <= x < 0x8000 ==> r == x
  {
    var w := x % 0x1_0000;
    if w < 0x8000 then w else w - 0x1_0000
  }

  function Min(a: nat, b: nat): nat { if a <= b then a else b }

  /** `n` zero bytes: the part of a zero-initialised buffer that a read left untouched. */
  function Zeros(n: nat): (z: seq<byte>)
    ensures |z| == n && forall i :: 0 <= i < n ==> z[i] == 0
  {
    seq(n, _ => 0)
  }
}
