/** The fixed-width integer types of the source, as ranges of `int`. */
module Ints {

  /** 2^32, the modulus of `uint32_t` arithmetic. */
  const TwoTo32: nat := 0x1_0000_0000

  type Int32 = x: int | -0x8000_0000 <= x < 0x8000_0000
  type Uint32 = x: int | 0 <= x < 0x1_0000_0000
  type Uint16 = x: int | 0 <= x < 0x1_0000
  type Uint8 = x: int | 0 <= x < 0x100
}
