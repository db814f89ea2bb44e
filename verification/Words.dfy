/** Machine words of the firmware: bytes, unsigned and signed readings of 16-
    and 32-bit registers, and C's division, which truncates toward zero. */
module Words {

  type byte = x: int | 0 <= x < 0x100
  type u16 = x: int | 0 <= x < 0x1_0000
  type u32 = x: int | 0 <= x < 0x1_0000_0000
  type i32 = x: int | -0x8000_0000 <= x < 0x8000_0000

  function ToU16(x: int): u16 {
    x % 0x1_0000
  }

  function ToU32(x: int): u32 {
    x % 0x1_0000_0000
  }

  /** The cast (int16_t) of a 16-bit register. */
  function ToI16(x: int): (r: int)
    ensures -0x8000 <= r < 0x8000
  {
    var u := ToU16(x);
    if u < 0x8000 then u else u - 0x1_0000
  }

  /** The cast (int32_t) of a wider value. */
  function ToI32(x: int): i32 {
    var u := ToU32(x);
    if u < 0x8000_0000 then u else u - 0x1_0000_0000
  }

  /** C's operator / on signed operands. */
  function TruncDiv(a: int, b: int): int
    requires b > 0
  {
    if a >= 0 then a / b else -((-a) / b)
  }

  /** abs() on a 32-bit int whose arithmetic wraps: the most negative value is its own
      image. C leaves that case undefined. */
  function Abs32(x: i32): i32 {
    ToI32(if x >= 0 then x as int else 0 - x as int)
  }
}
