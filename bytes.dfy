/** The byte-level side of the 24-bit sample format: an i32 as it lies in little-endian
    memory, and three bytes assembled back into an i32 with shifts, bitwise OR and sign
    extension. Bytes are `u8` values; C's `<<`, `|` and `&` on non-negative operands are
    defined here on mathematical integers. */
module Bytes {
  import opened Platform

  function Pow2(k: nat): (p: nat)
    ensures 1 <= p
  {
    if k == 0 then 1 else 2 * Pow2(k - 1)
  }

  /** `x << k` for a non-negative `x` whose result is representable: `x` times 2^k. */
  function ShiftLeft(x: nat, k: nat): nat
  {
    x * Pow2(k)
  }

  /** Bitwise OR, one binary digit at a time from the least significant. */
  function BitOr(x: nat, y: nat): nat
    decreases x + y
  {
    if x == 0 then y
    else if y == 0 then x
    else 2 * BitOr(x / 2, y / 2) + (if x % 2 == 1 || y % 2 == 1 then 1 else 0)
  }

  /** Bitwise AND, one binary digit at a time from the least significant. */
  function BitAnd(x: nat, y: nat): nat
    decreases x + y
  {
    if x == 0 || y == 0 then 0
    else 2 * BitAnd(x / 2, y / 2) + (if x % 2 == 1 && y % 2 == 1 then 1 else 0)
  }

  /** ORing `m << k` with a number below 2^k adds them: their bits do not overlap. */
  lemma {:induction false} BitOrDisjoint(m: nat, y: nat, k: nat)
    requires y < Pow2(k)
    ensures BitOr(ShiftLeft(m, k), y) == ShiftLeft(m, k) + y
    decreases k
  {
    var x := ShiftLeft(m, k);
    if x == 0 || y == 0 {
    } else {
      assert 0 < k;
      var h := ShiftLeft(m, k - 1);
      assert x == 2 * h;
      BitOrDisjoint(m, y / 2, k - 1);
      assert BitOr(x, y) == 2 * BitOr(h, y / 2) + y % 2;
    }
  }

  /** Below 2^(k+1), ANDing with 2^k tests whether the number reaches 2^k. */
  lemma {:induction false} BitAndTopBit(x: nat, k: nat)
    requires x < 2 * Pow2(k)
    ensures BitAnd(x, Pow2(k)) != 0 <==> Pow2(k) <= x
    decreases k
  {
    if x == 0 {
    } else if k == 0 {
      assert BitAnd(x, 1) == 2 * BitAnd(x / 2, 0) + x % 2;
    } else {
      BitAndTopBit(x / 2, k - 1);
      assert BitAnd(x, Pow2(k)) == 2 * BitAnd(x / 2, Pow2(k - 1));
    }
  }

  /** Testing bit 7 of a byte with `& 0x80` asks whether it is at least 0x80. */
  lemma {:induction false} SignBit(b: u8)
    ensures BitAnd(b, 0x80) != 0 <==> 0x80 <= b
  {
    assert Pow2(7) == 0x80;
    BitAndTopBit(b, 7);
  }

  /** The four bytes of an i32 as they lie in little-endian memory: the base-256 digits of
      its two's-complement (modulo 2^32) value, least significant first. */
  function LittleEndianBytes(v: int): (bytes: seq<u8>)
    requires InI32(v)
    ensures |bytes| == 4
  {
    var u := (v + 0x1_0000_0000) % 0x1_0000_0000;
    [u % 0x100, u / 0x100 % 0x100, u / 0x1_0000 % 0x100, u / 0x100_0000]
  }

  /** The reference meaning of three little-endian bytes as a signed 24-bit number: their
      base-256 value, less 2^24 when it reaches 2^23. */
  function TwosComplement24(b0: u8, b1: u8, b2: u8): int
  {
    var u := b0 + 0x100 * b1 + 0x1_0000 * b2;
    if u < 0x80_0000 then u else u - 0x100_0000
  }

  /** An i32 bit pattern, given as its unsigned value, read as a signed number. */
  function SignedI32(u: int): (v: int)
    requires 0 <= u < 0x1_0000_0000
    ensures InI32(v)
    ensures v < 0 <==> 0x8000_0000 <= u
    ensures (v - u) % 0x1_0000_0000 == 0
  {
    if u < 0x8000_0000 then u else u - 0x1_0000_0000
  }

  /** The bit pattern F64from24Bit builds from three bytes: the bytes shifted to bits 0, 8
      and 16 and ORed, with `0xff << 24` ORed in first when bit 7 of the third byte is set. */
  function Pattern24(b0: u8, b1: u8, b2: u8): (u: nat)
    ensures u == b0 + 0x100 * b1 + 0x1_0000 * b2 + (if 0x80 <= b2 then 0xFF00_0000 else 0)
  {
    assert Pow2(8) == 0x100 && Pow2(16) == 0x1_0000 && Pow2(24) == 0x100_0000;
    SignBit(b2);
    if BitAnd(b2, 0x80) != 0 then
      BitOrDisjoint(0xff, ShiftLeft(b2, 16), 24);
      var top := BitOr(ShiftLeft(0xff, 24), ShiftLeft(b2, 16));
      assert top == ShiftLeft(0xff00 + b2, 16);
      BitOrDisjoint(0xff00 + b2, ShiftLeft(b1, 8), 16);
      var mid := BitOr(top, ShiftLeft(b1, 8));
      assert mid == ShiftLeft(0xff_0000 + 0x100 * b2 + b1, 8);
      BitOrDisjoint(0xff_0000 + 0x100 * b2 + b1, ShiftLeft(b0, 0), 8);
      BitOr(mid, ShiftLeft(b0, 0))
    else
      BitOrDisjoint(b2, ShiftLeft(b1, 8), 16);
      var mid := BitOr(ShiftLeft(b2, 16), ShiftLeft(b1, 8));
      assert mid == ShiftLeft(0x100 * b2 + b1, 8);
      BitOrDisjoint(0x100 * b2 + b1, ShiftLeft(b0, 0), 8);
      BitOr(mid, ShiftLeft(b0, 0))
  }

  /** The i32 that F64from24Bit assembles from three bytes, read as a signed number. */
  function Sample24(pInput: seq<u8>): (v: int)
    requires 3 <= |pInput|
    ensures v == TwosComplement24(pInput[0], pInput[1], pInput[2])
    ensures -0x80_0000 <= v < 0x80_0000
    ensures v < 0 <==> BitAnd(pInput[2], 0x80) != 0
  {
    SignBit(pInput[2]);
    SignedI32(Pattern24(pInput[0], pInput[1], pInput[2]))
  }

  /** The low three base-256 digits of a number give it back modulo 2^24. */
  lemma {:induction false} LowDigits(u: int)
    requires 0 <= u
    ensures u % 0x100 + 0x100 * (u / 0x100 % 0x100) + 0x1_0000 * (u / 0x1_0000 % 0x100) == u % 0x100_0000
  {
    var q1 := u / 0x100;
    var q2 := q1 / 0x100;
    assert u / 0x1_0000 == q2;
    assert u == u % 0x100 + 0x100 * q1;
    assert q1 == q1 % 0x100 + 0x100 * q2;
    assert q2 == q2 % 0x100 + 0x100 * (q2 / 0x100);
    assert u == u % 0x100 + 0x100 * (q1 % 0x100) + 0x1_0000 * (q2 % 0x100) + 0x100_0000 * (q2 / 0x100);
  }

  /** The low three bytes of any i32 in the signed 24-bit range decode back to it. */
  lemma {:induction false} Pack24RoundTrip(v: int)
    requires -0x80_0000 <= v < 0x80_0000
    ensures Sample24(LittleEndianBytes(v)[..3]) == v
  {
    Digits24(v);
  }

  /** The low three base-256 digits of the two's-complement value of a signed 24-bit
      number, read back as a signed 24-bit number, give the number. */
  lemma {:induction false} Digits24(v: int)
    requires -0x80_0000 <= v < 0x80_0000
    ensures var u := (v + 0x1_0000_0000) % 0x1_0000_0000;
            var n := u % 0x100 + 0x100 * (u / 0x100 % 0x100) + 0x1_0000 * (u / 0x1_0000 % 0x100);
            (if n < 0x80_0000 then n else n - 0x100_0000) == v
  {
    var u := (v + 0x1_0000_0000) % 0x1_0000_0000;
    LowDigits(u);
    if 0 <= v {
      assert u == v;
    } else {
      assert u == v + 0x1_0000_0000;
      assert u % 0x100_0000 == v + 0x100_0000;
    }
  }
}
