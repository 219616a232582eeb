/** Java byte conversions written out over unbounded integers. */
module Bytes {

  /** One octet on the wire or in a buffer, as an unsigned value. */
  newtype Byte = x: int | 0 <= x < 256

  /** A Java `byte`: a two's-complement value in -128..127. */
  type SignedByte = x: int | -128 <= x < 128

  /** Reading a `byte` into an `int` sign-extends it: the unique value in
      -128..127 that has the same low eight bits. */
  function SignExtend(b: Byte): (r: SignedByte)
    ensures r == b as int || r == b as int - 256
    ensures b < 128 ==> r == b as int
    ensures b >= 128 ==> r < 0
  {
    if b < 128 then b as int else b as int - 256
  }

  /** The cast `(byte) x` and `writeInt8(x)`: only the low eight bits survive. */
  function LowByte(x: int): (r: Byte)
    ensures 0 <= x < 256 ==> r as int == x
    ensures (x - r as int) % 256 == 0
  {
    (x % 256) as Byte
  }

  /** Sign extension loses nothing: the low byte of the extended value is the byte. */
  lemma SignExtendRoundTrip(b: Byte)
    ensures LowByte(SignExtend(b)) == b
  {
  }
}
