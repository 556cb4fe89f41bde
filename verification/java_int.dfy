/** Java `int` values and the ARGB packing that AWT images use. */
module JavaInt {

  const TWO_32: int := 0x1_0000_0000
  const TWO_31: int := 0x8000_0000
  const TWO_24: int := 0x100_0000

  /** A Java `int`: 32-bit two's complement. */
  type Int32 = x: int | -TWO_31 <= x < TWO_31

  /** A 24-bit RGB colour without alpha. */
  type Rgb24 = x: int | 0 <= x < TWO_24

  /** The Java literal `0xff000000`, read as a signed `int`: opaque black. */
  const OPAQUE_BLACK: Int32 := -TWO_24

  /** Java `int` addition: the exact sum wrapped into 32 bits. */
  function Wrap32(x: int): (r: Int32)
    ensures (r - x) % TWO_32 == 0
    ensures -TWO_31 <= x < TWO_31 ==> r == x
  {
    (x + TWO_31) % TWO_32 - TWO_31
  }

  /** The alpha byte of an ARGB pixel, `c >>> 24`. */
  function Alpha(c: Int32): (a: int)
    ensures 0 <= a < 0x100
  {
    (c % TWO_32) / TWO_24
  }

  /** The colour channels of an ARGB pixel, `c & 0xffffff`. */
  function Channels(c: Int32): (rgb: Rgb24)
  {
    c % TWO_24
  }

  lemma OpaqueBlackBytes()
    ensures Alpha(OPAQUE_BLACK) == 0xff && Channels(OPAQUE_BLACK) == 0
  {
  }
}
