/** The sample converters of the math header: a floating-point value in [-1, 1] to and from
    an unsigned 8-bit, a signed 16-bit and a packed signed 24-bit integer. The f32 rounding
    of the float converters is not modelled (f32 and f64 are both `real`). */
module Conversions {
  import opened Platform
  import opened SsMath
  import opened Bytes

  /** Clamp to [-1, 1]; the cast to f32 is exact in this model. */
  function F64toF32(input: real): (output: real)
    ensures -1.0 <= output <= 1.0
    ensures -1.0 <= input <= 1.0 ==> output == input
  {
    LimitF(input, -1.0, 1.0)
  }

  /** Despite its name the source takes an f64 and writes an f32, exactly like F64toF32. */
  function F32toF64(input: real): (output: real)
    ensures -1.0 <= output <= 1.0
    ensures -1.0 <= input <= 1.0 ==> output == input
  {
    LimitF(input, -1.0, 1.0)
  }

  // ---------------------------------------------------------------- 8 bits

  /** Scale by 128, convert to i16 (undefined in C when out of range, hence the requires),
      add the 128 offset in the i16 variable (the sum is narrowed back to 16 bits), clamp to
      [0, 255]. */
  function F64toU8(input: real): (output: int)
    requires InI16(TruncateToInt(input * 128.0))
    ensures 0 <= output < 0x100
    ensures -1.0 <= input <= 1.0 ==> output == LimitI(TruncateToInt(input * 128.0) + 128, 0, 255)
  {
    var adjustedInput := TruncateToInt(input * 128.0);
    var shifted := WrapI16(adjustedInput + 128);
    LimitI(shifted, 0, 255)
  }

  /** The same conversion with the offset added without narrowing, so that every input at
      or above 1.0 saturates at 255. */
  function F64toU8Saturating(input: real): (output: int)
    requires InI16(TruncateToInt(input * 128.0))
    ensures 0 <= output < 0x100
    ensures 1.0 <= input ==> output == 255
    ensures input <= -1.0 ==> output == 0
  {
    LimitI(TruncateToInt(input * 128.0) + 128, 0, 255)
  }

  /** Inputs in [255, 256) pass the i16 conversion, but adding the offset leaves the i16
      range and wraps to a negative value, which the clamp turns into 0. */
  lemma F64toU8WrapsNearTopOfRange()
    ensures F64toU8(254.0) == 255
    ensures F64toU8(255.0) == 0
    ensures F64toU8Saturating(255.0) == 255
  {
    assert TruncateToInt(255.0 * 128.0) == 32640;
    assert TruncateToInt(254.0 * 128.0) == 32512;
  }

  /** On the intended domain [-1, 1] the two agree, and the corrected form is monotone. */
  lemma {:induction false} F64toU8SaturatingMonotone(x: real, y: real)
    requires InI16(TruncateToInt(x * 128.0)) && InI16(TruncateToInt(y * 128.0))
    requires x <= y
    ensures F64toU8Saturating(x) <= F64toU8Saturating(y)
    ensures -1.0 <= x <= 1.0 ==> F64toU8(x) == F64toU8Saturating(x)
  {
    TruncateMonotone(x * 128.0, y * 128.0);
  }

  lemma TruncateMonotone(x: real, y: real)
    requires x <= y
    ensures TruncateToInt(x) <= TruncateToInt(y)
  {
  }

  /** Remove the 128 offset, scale by 1/127 and clamp to [-1, 1]. */
  function U8toF64(input: u8): (output: real)
    ensures -1.0 <= output <= 1.0
    ensures 1 <= input ==> output * 127.0 == (input - 0x80) as real
    ensures input == 0 ==> output == -1.0
  {
    var adjustedInput := (input - 0x80) as real;
    LimitF(adjustedInput / (0x80 as real - 1.0), -1.0, 1.0)
  }

  /** Truncation toward zero is determined by the interval the value lies in. */
  lemma TruncateToIntIs(x: real, n: int)
    requires (0.0 <= x && n as real <= x < n as real + 1.0) || (x < 0.0 && n as real - 1.0 < x <= n as real)
    ensures TruncateToInt(x) == n
  {
  }

  /** Decoding a byte and encoding it again gives the byte back, except for 1, which
      decodes to exactly -1.0 and so encodes as 0: the decoder divides by 127 and the encoder
      multiplies by 128. */
  lemma U8RoundTrip(b: u8)
    ensures InI16(TruncateToInt(U8toF64(b) * 128.0))
    ensures F64toU8(U8toF64(b)) == if b == 1 then 0 else b
  {
    var x := U8toF64(b);
    var v := x * 128.0;
    if b == 0 {
      TruncateToIntIs(v, -128);
    } else {
      assert v == (b - 128) as real * 128.0 / 127.0;
      if b == 1 {
        TruncateToIntIs(v, -128);
      } else if b < 128 {
        TruncateToIntIs(v, b - 128);
      } else if b < 255 {
        TruncateToIntIs(v, b - 128);
      } else {
        TruncateToIntIs(v, 128);
      }
    }
  }

  // ---------------------------------------------------------------- 16 bits

  /** Scale by 0x8000, convert to i32 (undefined when out of range), clamp to the i16 range. */
  function F64toI16(input: real): (output: int)
    requires InI32(TruncateToInt(input * 32768.0))
    ensures InI16(output)
    ensures InI16(TruncateToInt(input * 32768.0)) ==> output == TruncateToInt(input * 32768.0)
    ensures TruncateToInt(input * 32768.0) > 0x7FFF ==> output == 0x7FFF
    ensures TruncateToInt(input * 32768.0) < -0x8000 ==> output == -0x8000
  {
    var adjustedInput := TruncateToInt(input * 0x8000 as real);
    LimitI(adjustedInput, -0x8000, 0x8000 - 1)
  }

  /** Scale by 1/0x7FFF and clamp to [-1, 1]. */
  function I16toF64(input: int): (output: real)
    requires InI16(input)
    ensures -1.0 <= output <= 1.0
    ensures -0x7FFF <= input ==> output * 32767.0 == input as real
    ensures input == -0x8000 ==> output == -1.0
  {
    var adjustedInput := input as real / (0x8000 as real - 1.0);
    LimitF(adjustedInput, -1.0, 1.0)
  }

  /** Decoding an i16 and encoding it again gives it back, except for -0x7FFF, which
      decodes to exactly -1.0 and encodes as -0x8000. */
  lemma I16RoundTrip(v: int)
    requires InI16(v)
    ensures InI32(TruncateToInt(I16toF64(v) * 32768.0))
    ensures F64toI16(I16toF64(v)) == if v == -0x7FFF then -0x8000 else v
  {
    var x := I16toF64(v);
    var w := x * 32768.0;
    if v == -0x8000 {
      TruncateToIntIs(w, -0x8000);
    } else {
      assert w == v as real * 32768.0 / 32767.0;
      if v == -0x7FFF {
        TruncateToIntIs(w, -0x8000);
      } else if v == 0x7FFF {
        TruncateToIntIs(w, 0x8000);
      } else {
        TruncateToIntIs(w, v);
      }
    }
  }

  // ---------------------------------------------------------------- 24 bits

  /** The integer that F64to24Bit stores: the input scaled by 0x7FFFFF, converted to i32 and
      clamped to [-0x7FFFFF, 0x7FFFFE]. */
  function Quantize24(input: real): (v: int)
    requires InI32(TruncateToInt(input * 8388607.0))
    ensures -0x7FFFFF <= v <= 0x7FFFFE
    ensures -0x7FFFFF <= TruncateToInt(input * 8388607.0) <= 0x7FFFFE ==> v == TruncateToInt(input * 8388607.0)
    ensures TruncateToInt(input * 8388607.0) > 0x7FFFFE ==> v == 0x7FFFFE
    ensures TruncateToInt(input * 8388607.0) < -0x7FFFFF ==> v == -0x7FFFFF
  {
    LimitI(TruncateToInt(input * 0x7FFFFF as real), -0x7FFFFF, 0x7FFFFF - 1)
  }

  /** Copies the low three bytes of the quantised sample to `pOutput`, one byte at a time. */
  method F64to24Bit(input: real, pOutput: array<u8>)
    requires 3 <= pOutput.Length
    requires InI32(TruncateToInt(input * 8388607.0))
    modifies pOutput
    ensures pOutput[..3] == LittleEndianBytes(Quantize24(input))[..3]
    ensures pOutput[3..] == old(pOutput[3..])
  {
    var adjustedInput := TruncateToInt(input * 0x7FFFFF as real);
    adjustedInput := LimitI(adjustedInput, -0x7FFFFF, 0x7FFFFF - 1);
    var pBytes := LittleEndianBytes(adjustedInput);
    var i := 0;
    while i != 3
      invariant 0 <= i <= 3
      invariant pOutput[..i] == pBytes[..i]
      invariant pOutput[3..] == old(pOutput[3..])
    {
      pOutput[i] := pBytes[i];
      i := i + 1;
    }
  }

  /** Scale the assembled integer by 1/(0x7FFFFF - 1) and clamp to [-1, 1]. */
  function F64from24Bit(pInput: seq<u8>): (output: real)
    requires 3 <= |pInput|
    ensures -1.0 <= output <= 1.0
    ensures -0x7FFFFE <= Sample24(pInput) <= 0x7FFFFE ==> output * 8388606.0 == Sample24(pInput) as real
    ensures Sample24(pInput) < -0x7FFFFE ==> output == -1.0
    ensures 0x7FFFFE < Sample24(pInput) ==> output == 1.0
  {
    Scale24(Sample24(pInput))
  }

  function Scale24(adjustedInput: int): (output: real)
    ensures -1.0 <= output <= 1.0
    ensures -0x7FFFFE <= adjustedInput <= 0x7FFFFE ==> output * 8388606.0 == adjustedInput as real
    ensures adjustedInput < -0x7FFFFE ==> output == -1.0
    ensures 0x7FFFFE < adjustedInput ==> output == 1.0
  {
    var scaled := adjustedInput as real / (0x7FFFFF as real - 1.0);
    assert scaled * 8388606.0 == adjustedInput as real;
    LimitF(scaled, -1.0, 1.0)
  }

  /** Whatever F64to24Bit writes decodes in F64from24Bit to the quantised sample, up to the
      decoder's scale of 0x7FFFFF - 1; the one sample below -0x7FFFFE decodes to -1.0. */
  lemma {:induction false} EncodeDecode24(input: real)
    requires InI32(TruncateToInt(input * 8388607.0))
    ensures Sample24(LittleEndianBytes(Quantize24(input))[..3]) == Quantize24(input)
    ensures Quantize24(input) != -0x7FFFFF ==>
              F64from24Bit(LittleEndianBytes(Quantize24(input))[..3]) * 8388606.0 == Quantize24(input) as real
    ensures Quantize24(input) == -0x7FFFFF ==> F64from24Bit(LittleEndianBytes(Quantize24(input))[..3]) == -1.0
  {
    Pack24RoundTrip(Quantize24(input));
  }
}
