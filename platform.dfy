/** Fixed-width integer types of the platform header, as ranges of mathematical integers.
    Floating-point types (f32, f64) are modelled as `real` throughout. */
module Platform {

  type u8 = x: int | 0 <= x < 0x100
  type u16 = x: int | 0 <= x < 0x1_0000
  type u32 = x: int | 0 <= x < 0x1_0000_0000
  type u64 = x: int | 0 <= x < 0x1_0000_0000_0000_0000

  predicate InI16(x: int) { -0x8000 <= x < 0x8000 }
  predicate InI32(x: int) { -0x8000_0000 <= x < 0x8000_0000 }
  predicate InI64(x: int) { -0x8000_0000_0000_0000 <= x < 0x8000_0000_0000_0000 }

  /** C's conversion of a floating-point value to an integer type: the fraction is
      discarded, that is, the value is rounded toward zero. */
  function TruncateToInt(x: real): (n: int)
    ensures 0.0 <= x ==> n as real <= x < n as real + 1.0
    ensures x < 0.0 ==> n as real - 1.0 < x <= n as real
  {
    if 0.0 <= x then x.Floor else -((-x).Floor)
  }

  /** Narrowing conversion of an integer to a signed 16-bit type: the value modulo 2^16,
      read as two's complement. */
  function WrapI16(x: int): (n: int)
    ensures InI16(n)
    ensures (x - n) % 0x1_0000 == 0
    ensures InI16(x) ==> n == x
  {
    (x + 0x8000) % 0x1_0000 - 0x8000
  }
}
