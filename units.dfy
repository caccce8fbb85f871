/** The byte-size and length-unit macros of the application header. The macros compute in
    64-bit signed integers (`1024LL`); signed overflow is undefined in C, so the size
    macros require their result to fit. `ToKilobytes` and friends use C's integer division,
    which truncates toward zero. */
module Units {
  import opened Platform

  const KILO: int := 1024

  /** Integer division as C performs it: the quotient is rounded toward zero, so the
      remainder takes the sign of the dividend. */
  function CDiv(a: int, b: int): (q: int)
    requires 0 < b
    ensures 0 <= a ==> 0 <= a - q * b < b
    ensures a < 0 ==> -b < a - q * b <= 0
  {
    if 0 <= a then a / b else -((-a) / b)
  }

  function Kilobytes(bytes: int): (r: int)
    requires InI64(bytes * KILO)
  {
    bytes * KILO
  }

  function Megabytes(bytes: int): (r: int)
    requires InI64(bytes * KILO * KILO)
  {
    Kilobytes(bytes) * KILO
  }

  function Gigabytes(bytes: int): (r: int)
    requires InI64(bytes * KILO * KILO * KILO)
  {
    Megabytes(bytes) * KILO
  }

  function Terabytes(bytes: int): (r: int)
    requires InI64(bytes * KILO * KILO * KILO * KILO)
  {
    Gigabytes(bytes) * KILO
  }

  function ToKilobytes(bytes: int): int { CDiv(bytes, KILO) }
  function ToMegabytes(bytes: int): int { CDiv(ToKilobytes(bytes), KILO) }
  function ToGigabytes(bytes: int): int { CDiv(ToMegabytes(bytes), KILO) }
  function ToTerabytes(bytes: int): int { CDiv(ToGigabytes(bytes), KILO) }

  function MillimeterToMeter(m: real): (r: real)
    ensures r * 1000.0 == m
  {
    m / 1000.0
  }

  /** Dividing a multiple of 1024 by 1024 in C gives back the factor, whatever its sign. */
  lemma CDivKiloMultiple(b: int)
    ensures CDiv(b * KILO, KILO) == b
  {
  }

  /** Two truncating divisions by 1024 in a row equal one truncating division by 1024 * 1024. */
  lemma CDivKiloNested(a: int)
    ensures CDiv(CDiv(a, KILO), KILO) == CDiv(a, 1_048_576)
  {
  }

  /** Wherever the product fits in an i64, Kilobytes multiplies by 1024 and ToKilobytes
      gives the count back. */
  lemma {:induction false} KilobytesRoundTrip(b: int)
    requires InI64(b * KILO)
    ensures Kilobytes(b) == 1024 * b
    ensures ToKilobytes(Kilobytes(b)) == b
  {
    CDivKiloMultiple(b);
  }

  /** Wherever the product fits in an i64, Megabytes multiplies by 1024^2 and ToMegabytes
      gives the count back. */
  lemma {:induction false} MegabytesRoundTrip(b: int)
    requires InI64(b * KILO * KILO)
    ensures Megabytes(b) == 1_048_576 * b
    ensures ToMegabytes(Megabytes(b)) == b
  {
    CDivKiloMultiple(b * KILO);
    CDivKiloMultiple(b);
  }

  /** Wherever the product fits in an i64, Gigabytes multiplies by 1024^3 and ToGigabytes
      gives the count back. */
  lemma {:induction false} GigabytesRoundTrip(b: int)
    requires InI64(b * KILO * KILO * KILO)
    ensures Gigabytes(b) == 1_073_741_824 * b
    ensures ToGigabytes(Gigabytes(b)) == b
  {
    CDivKiloMultiple(b * KILO * KILO);
    CDivKiloMultiple(b * KILO);
    CDivKiloMultiple(b);
  }

  /** Wherever the product fits in an i64, Terabytes multiplies by 1024^4 and ToTerabytes
      gives the count back. */
  lemma {:induction false} TerabytesRoundTrip(b: int)
    requires InI64(b * KILO * KILO * KILO * KILO)
    ensures Terabytes(b) == 1_099_511_627_776 * b
    ensures ToTerabytes(Terabytes(b)) == b
  {
    CDivKiloMultiple(b * KILO * KILO * KILO);
    CDivKiloMultiple(b * KILO * KILO);
    CDivKiloMultiple(b * KILO);
    CDivKiloMultiple(b);
  }

  /** The round trip at a count that only the smaller macros can take: 2^30 kilobytes fit
      in an i64, 2^30 terabytes do not. */
  lemma KilobytesBeyondTerabyteRange()
    ensures InI64(0x4000_0000 * KILO) && !InI64(0x4000_0000 * KILO * KILO * KILO * KILO)
    ensures ToKilobytes(Kilobytes(0x4000_0000)) == 0x4000_0000
  {
    KilobytesRoundTrip(0x4000_0000);
  }

  /** `ToMegabytes` is a single truncating division by 1024 * 1024. */
  lemma {:induction false} ToMegabytesIsOneDivision(b: int)
    ensures ToMegabytes(b) == CDiv(b, 1_048_576)
  {
    CDivKiloNested(b);
  }

  /** Truncation: a count below 1024 rounds down to zero, also for negative counts. */
  lemma ToKilobytesTruncates()
    ensures ToKilobytes(1023) == 0 && ToKilobytes(1024) == 1
    ensures ToKilobytes(-1023) == 0 && ToKilobytes(-1025) == -1
  {
  }
}
