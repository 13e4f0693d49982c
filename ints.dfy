/** Fixed-width C++ integer types and the conversions the game code relies on. */
module Ints {

  const U16_MOD: int := 0x1_0000
  const U32_MOD: int := 0x1_0000_0000
  const U64_MOD: int := 0x1_0000_0000_0000_0000

  const INT16_MIN: int := -0x8000
  const INT16_MAX: int := 0x7FFF
  const INT32_MIN: int := -0x8000_0000
  const INT32_MAX: int := 0x7FFF_FFFF
  const INT64_MIN: int := -0x8000_0000_0000_0000
  const INT64_MAX: int := 0x7FFF_FFFF_FFFF_FFFF

  type uint16 = x: int | 0 <= x < 0x1_0000
  type uint32 = x: int | 0 <= x < 0x1_0000_0000
  type uint64 = x: int | 0 <= x < 0x1_0000_0000_0000_0000
  type int16 = x: int | -0x8000 <= x < 0x8000
  type int32 = x: int | -0x8000_0000 <= x < 0x8000_0000
  type int64 = x: int | -0x8000_0000_0000_0000 <= x < 0x8000_0000_0000_0000

  /** The value of `x` as a `uint64_t` or `size_t`: unsigned arithmetic modulo 2^64. */
  function Wrap64(x: int): (r: uint64)
    ensures (r - x) % U64_MOD == 0
    ensures 0 <= x < U64_MOD ==> r == x
  {
    x % U64_MOD
  }

  /** The value of `x` as a `uint32_t`: C++ unsigned arithmetic is modulo 2^32. */
  function Wrap32(x: int): (r: uint32)
    ensures (r - x) % U32_MOD == 0
    ensures 0 <= x < U32_MOD ==> r == x
  {
    x % U32_MOD
  }

  /** The value of `x` as a `uint16_t` (a narrowing store keeps the low 16 bits). */
  function Wrap16(x: int): (r: uint16)
    ensures (r - x) % U16_MOD == 0
    ensures 0 <= x < U16_MOD ==> r == x
  {
    x % U16_MOD
  }

  /** The value of `x` converted to `int16_t`: the two's-complement reading of its low 16 bits. */
  function ToInt16(x: int): (r: int16)
    ensures (r - x) % U16_MOD == 0
    ensures INT16_MIN <= x <= INT16_MAX ==> r == x
  {
    (x - INT16_MIN) % U16_MOD + INT16_MIN
  }

  /** The value of `x` converted to `int`: the two's-complement reading of its low 32 bits. */
  function ToInt32(x: int): (r: int32)
    ensures (r - x) % U32_MOD == 0
    ensures INT32_MIN <= x <= INT32_MAX ==> r == x
  {
    (x - INT32_MIN) % U32_MOD + INT32_MIN
  }

  /** Saturation into the `int` range, as `istream >> int` stores an out-of-range value. */
  function ClampInt32(x: int): int32 {
    if x < INT32_MIN then INT32_MIN else if x > INT32_MAX then INT32_MAX else x
  }
}
