/** Fixed-width C integer types and the conversions C performs when a wider
    value is stored into one of them (modular, two's complement on every
    target the drivers run on). */
module Ints {

  type s8 = x: int | -128 <= x < 128
  type u8 = x: int | 0 <= x < 256
  type s16 = x: int | -32768 <= x < 32768
  type u16 = x: int | 0 <= x < 65536

  /** Storing an int into an `s8` field. */
  function ToS8(x: int): (r: s8)
    ensures -128 <= x < 128 ==> r == x
    ensures (x - r) % 256 == 0
  {
    (x + 128) % 256 - 128
  }

  /** Storing an int into a `u8` field. */
  function ToU8(x: int): (r: u8)
    ensures 0 <= x < 256 ==> r == x
    ensures (x - r) % 256 == 0
  {
    x % 256
  }

  /** Passing an int where a `Sint16` parameter is expected. */
  function ToS16(x: int): (r: s16)
    ensures -32768 <= x < 32768 ==> r == x
    ensures (x - r) % 65536 == 0
  {
    (x + 32768) % 65536 - 32768
  }

  /** Storing an int into a `Uint16` field. */
  function ToU16(x: int): (r: u16)
    ensures 0 <= x < 65536 ==> r == x
    ensures (x - r) % 65536 == 0
  {
    x % 65536
  }

  function Min(a: int, b: int): (r: int)
    ensures r <= a && r <= b
    ensures r == a || r == b
  {
    if a < b then a else b
  }
}
