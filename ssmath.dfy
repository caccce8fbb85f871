/** The numeric helpers of the math header: linear interpolation, the quadratic solver used
    for the combustion temperature, rounding conversions and the clamps. */
module SsMath {
  import opened Platform
  import opened Libm

  const PI: real := 3.1415926535897932384626433832795
  const I16_MAX: int := 32767

  // ---------------------------------------------------------------- interpolation

  /** Linear interpolation: maps `x` from the input range onto the output range. The point
      (x, r) lies on the line through (inMin, outMin) and (inMax, outMax). */
  function Map(x: real, inMin: real, inMax: real, outMin: real, outMax: real): (r: real)
    requires inMax != inMin
    ensures (r - outMin) * (inMax - inMin) == (x - inMin) * (outMax - outMin)
  {
    (x - inMin) * (outMax - outMin) / (inMax - inMin) + outMin
  }

  /** The two ends of the input range go to the two ends of the output range. */
  lemma MapHitsAnchors(inMin: real, inMax: real, outMin: real, outMax: real)
    requires inMax != inMin
    ensures Map(inMin, inMin, inMax, outMin, outMax) == outMin
    ensures Map(inMax, inMin, inMax, outMin, outMax) == outMax
  {
  }

  /** On an increasing input range, Map is monotone in `x`, rising when the output range
      rises and falling when it falls. */
  lemma MapMonotone(x: real, y: real, inMin: real, inMax: real, outMin: real, outMax: real)
    requires inMin < inMax && x <= y
    ensures outMin <= outMax ==> Map(x, inMin, inMax, outMin, outMax) <= Map(y, inMin, inMax, outMin, outMax)
    ensures outMax <= outMin ==> Map(y, inMin, inMax, outMin, outMax) <= Map(x, inMin, inMax, outMin, outMax)
  {
    var k := (outMax - outMin) / (inMax - inMin);
    assert Map(x, inMin, inMax, outMin, outMax) == (x - inMin) * k + outMin;
    assert Map(y, inMin, inMax, outMin, outMax) == (y - inMin) * k + outMin;
    assert (y - inMin) * k - (x - inMin) * k == (y - x) * k;
    if outMin <= outMax {
      assert 0.0 <= k;
      assert 0.0 <= (y - x) * k;
    } else {
      assert k < 0.0;
      assert (y - x) * k <= 0.0;
    }
  }

  /** n-th root through the library `pow`. */
  function Root(lib: MathLib, input: real, n: real): real
    requires n != 0.0
  {
    lib.pow(input, 1.0 / n)
  }

  // ---------------------------------------------------------------- quadratic solver

  function Discriminant(a: real, b: real, c: real): real
  {
    b * b - 4.0 * a * c
  }

  ghost predicate IsRoot(a: real, b: real, c: real, x: real)
  {
    a * x * x + b * x + c == 0.0
  }

  /** Whenever `s * s` is the discriminant, (-b + s) / 2a is a root. */
  lemma RootFormula(a: real, b: real, c: real, s: real)
    requires a != 0.0 && s * s == Discriminant(a, b, c)
    ensures IsRoot(a, b, c, (-b + s) / (2.0 * a))
  {
    var x := (-b + s) / (2.0 * a);
    var t := 2.0 * a * x;
    assert t == s - b;
    assert 4.0 * a * (a * x * x + b * x + c) == t * t + 2.0 * b * t + 4.0 * a * c;
    assert t * t + 2.0 * b * t + 4.0 * a * c == s * s - b * b + 4.0 * a * c;
    assert 4.0 * a * (a * x * x + b * x + c) == 0.0;
  }

  /** With the two roots of the formula, the polynomial factors as a (y - x1) (y - x2); so
      they are the only roots. */
  lemma OnlyTwoRoots(a: real, b: real, c: real, s: real, y: real)
    requires a != 0.0 && s * s == Discriminant(a, b, c)
    requires IsRoot(a, b, c, y)
    ensures y == (-b + s) / (2.0 * a) || y == (-b - s) / (2.0 * a)
  {
    var x1 := (-b + s) / (2.0 * a);
    var x2 := (-b - s) / (2.0 * a);
    var t := 2.0 * a * y + b;
    assert (2.0 * a * y - 2.0 * a * x1) * (2.0 * a * y - 2.0 * a * x2) == (t - s) * (t + s);
    assert (t - s) * (t + s) == 4.0 * a * (a * y * y + b * y + c);
    assert (2.0 * a * (y - x1)) * (2.0 * a * (y - x2)) == 0.0;
    assert 2.0 * a * (y - x1) == 0.0 || 2.0 * a * (y - x2) == 0.0;
  }

  /** A negative discriminant leaves no real root: 4a(ay^2 + by + c) = (2ay + b)^2 - D. */
  lemma NoRealRoot(a: real, b: real, c: real, y: real)
    requires a != 0.0 && Discriminant(a, b, c) < 0.0
    ensures !IsRoot(a, b, c, y)
  {
    var t := 2.0 * a * y + b;
    assert 4.0 * a * (a * y * y + b * y + c) == t * t - Discriminant(a, b, c);
    assert 0.0 <= t * t;
  }

  /** The discriminant method. A negative discriminant yields the sentinel -1, and then
      there is no real root at all; otherwise the result is a real root and no real root is
      larger (the double root when D = 0, the larger of the two roots when D > 0). */
  function SolveQuadratic(lib: MathLib, a: real, b: real, c: real): (x: real)
    requires a != 0.0
    requires SqrtSound(lib)
    ensures Discriminant(a, b, c) < 0.0 ==> x == -1.0 && forall y :: !IsRoot(a, b, c, y)
    ensures 0.0 <= Discriminant(a, b, c) ==> IsRoot(a, b, c, x)
    ensures 0.0 <= Discriminant(a, b, c) ==> forall y :: IsRoot(a, b, c, y) ==> y <= x
  {
    var D := Discriminant(a, b, c);
    if D < 0.0 then
      assert forall y :: !IsRoot(a, b, c, y) by {
        forall y ensures !IsRoot(a, b, c, y) { NoRealRoot(a, b, c, y); }
      }
      -1.0
    else if D == 0.0 then
      RootFormula(a, b, c, 0.0);
      assert forall y :: IsRoot(a, b, c, y) ==> y <= -b / (2.0 * a) by {
        forall y | IsRoot(a, b, c, y) ensures y <= -b / (2.0 * a) { OnlyTwoRoots(a, b, c, 0.0, y); }
      }
      -b / (2.0 * a)
    else
      var s := lib.sqrt(D);
      var x1 := (-b + s) / (2.0 * a);
      var x2 := (-b - s) / (2.0 * a);
      RootFormula(a, b, c, s);
      RootFormula(a, b, c, -s);
      assert forall y :: IsRoot(a, b, c, y) ==> y <= (if x1 > x2 then x1 else x2) by {
        forall y | IsRoot(a, b, c, y) ensures y <= (if x1 > x2 then x1 else x2) { OnlyTwoRoots(a, b, c, s, y); }
      }
      if x1 > x2 then x1 else x2
  }

  /** The sentinel means "no real root" exactly when -1 is not itself the answer: the result
      is -1 and -1 is not a root if and only if the discriminant is negative. */
  lemma SentinelMeansNoRoot(lib: MathLib, a: real, b: real, c: real)
    requires a != 0.0 && SqrtSound(lib)
    ensures (SolveQuadratic(lib, a, b, c) == -1.0 && !IsRoot(a, b, c, -1.0)) <==> Discriminant(a, b, c) < 0.0
  {
  }

  /** The sentinel is ambiguous: x^2 + 2x + 1 has the genuine double root -1. */
  lemma SentinelIsAlsoARoot(lib: MathLib)
    requires SqrtSound(lib)
    ensures SolveQuadratic(lib, 1.0, 2.0, 1.0) == -1.0 && IsRoot(1.0, 2.0, 1.0, -1.0)
  {
  }

  lemma SolveQuadraticExamples(lib: MathLib)
    requires SqrtSound(lib)
    ensures SolveQuadratic(lib, 1.0, -3.0, 2.0) == 2.0
    ensures SolveQuadratic(lib, 1.0, -2.0, 1.0) == 1.0
    ensures SolveQuadratic(lib, 1.0, 0.0, 1.0) == -1.0
  {
    var x := SolveQuadratic(lib, 1.0, -3.0, 2.0);
    assert IsRoot(1.0, -3.0, 2.0, 2.0);
    assert (x - 1.0) * (x - 2.0) == 0.0;
  }

  // ---------------------------------------------------------------- rounding conversions

  /** `roundf`: to the nearest integer, halfway cases away from zero. */
  function RoundHalfAway(x: real): int
  {
    if 0.0 <= x then (x + 0.5).Floor else -((-x + 0.5).Floor)
  }

  function RoundF32ToI32(value: real): (r: int)
    requires InI32(RoundHalfAway(value))
    ensures r as real - 0.5 <= value <= r as real + 0.5
    ensures 0.0 <= value ==> value < r as real + 0.5
    ensures value < 0.0 ==> r as real - 0.5 < value
  {
    RoundHalfAway(value)
  }

  /** The conversion to u32 is defined only for results in range. */
  function RoundF32ToU32(value: real): (r: int)
    requires 0 <= RoundHalfAway(value) < 0x1_0000_0000
    ensures 0 <= r < 0x1_0000_0000
    ensures r as real - 0.5 <= value <= r as real + 0.5
    ensures value < r as real + 0.5
  {
    RoundHalfAway(value)
  }

  function FloorF32ToI32(value: real): (r: int)
    requires InI32(value.Floor)
    ensures r as real <= value < r as real + 1.0
  {
    value.Floor
  }

  function CeilF32ToI32(value: real): (r: int)
    requires InI32(-((-value).Floor))
    ensures r as real - 1.0 < value <= r as real
  {
    -((-value).Floor)
  }

  function TruncateF32ToI32(value: real): (r: int)
    requires InI32(TruncateToInt(value))
    ensures 0.0 <= value ==> 0 <= r && r as real <= value < r as real + 1.0
    ensures value < 0.0 ==> r <= 0 && r as real - 1.0 < value <= r as real
  {
    TruncateToInt(value)
  }

  /** Keeps the low 32 bits: the result is the u32 congruent to the input modulo 2^32. */
  function TruncateU64(value: u64): (r: int)
    ensures 0 <= r < 0x1_0000_0000
    ensures (value - r) % 0x1_0000_0000 == 0
  {
    value % 0x1_0000_0000
  }

  // ---------------------------------------------------------------- clamps

  function Distance(x: real, y: real): real
  {
    if x <= y then y - x else x - y
  }

  function DistanceI(x: int, y: int): nat
  {
    if x <= y then y - x else x - y
  }

  /** Clamp to [minValue, maxValue]: for a non-empty range the result is the point of the
      range nearest to `value` (so `value` itself when it is in range). With an empty range
      a value above the upper bound gives the upper bound, any other the lower bound. */
  function LimitF(value: real, minValue: real, maxValue: real): (r: real)
    ensures minValue <= maxValue ==> minValue <= r <= maxValue
    ensures minValue <= value <= maxValue ==> r == value
    ensures minValue <= maxValue ==>
      forall y :: minValue <= y <= maxValue ==> Distance(r, value) <= Distance(y, value)
    ensures maxValue < minValue ==> r == (if value > maxValue then maxValue else minValue)
  {
    if value > maxValue then maxValue
    else if value < minValue then minValue
    else value
  }

  /** The integer clamp, with the same contract as LimitF. */
  function LimitI(value: int, minValue: int, maxValue: int): (r: int)
    ensures minValue <= maxValue ==> minValue <= r <= maxValue
    ensures minValue <= value <= maxValue ==> r == value
    ensures minValue <= maxValue ==>
      forall y :: minValue <= y <= maxValue ==> DistanceI(r, value) <= DistanceI(y, value)
    ensures maxValue < minValue ==> r == (if value > maxValue then maxValue else minValue)
  {
    if value > maxValue then maxValue
    else if value < minValue then minValue
    else value
  }

  lemma LimitIdempotent(value: real, v: int, minValue: real, maxValue: real, lo: int, hi: int)
    requires minValue <= maxValue && lo <= hi
    ensures LimitF(LimitF(value, minValue, maxValue), minValue, maxValue) == LimitF(value, minValue, maxValue)
    ensures LimitI(LimitI(v, lo, hi), lo, hi) == LimitI(v, lo, hi)
  {
  }
}
