/** The fixed-width integer types of the Rust and Swift sources, as subset types of int. */
module Ints {

  const U8_LIMIT: int := 0x100
  const U16_LIMIT: int := 0x1_0000
  const U64_LIMIT: int := 0x1_0000_0000_0000_0000

  /** `usize` on the 64-bit targets the game is built for. */
  const USIZE_MAX: int := U64_LIMIT - 1

  type u8 = x: int | 0 <= x < U8_LIMIT
  type byte = u8
  type i8 = x: int | -0x80 <= x < 0x80
  type u16 = x: int | 0 <= x < U16_LIMIT
  type i16 = x: int | -0x8000 <= x < 0x8000
  type u64 = x: int | 0 <= x < U64_LIMIT
}
