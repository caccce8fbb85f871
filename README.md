# Steam locomotive boiler calculation — a verified Dafny model

The program computes the thermal design of a locomotive fire-tube boiler. It starts from the
fire box dimensions, the tube bank and an elementary analysis of the coal. From these it
derives:

- the grate area and fire-box heating surface;
- the fuel burnt per hour;
- the chemical characteristic of the fuel and its excess-air ratio;
- the flue gas composition;
- the heat content coefficients M and N of the flue gas (Q = M T + N T²);
- the available heat and its losses;
- the actual combustion temperature, found by solving a quadratic;
- the gas temperatures at the tube plate and the smoke box;
- gas velocities and heat-transfer coefficients.

Around the formulas sit:

- a small math header: interpolation, the quadratic solver, clamps, rounding, sample-format conversions including a 24-bit little-endian packing, and a 2-D vector;
- two NUL-terminated string helpers;
- the routine of the Win32 layer that builds a path next to the executable;
- the record types and unit macros of the application header.

This project models that core in Dafny and proves properties of it.

- `f64`/`f32` values are exact `real`s. The C math library (`sqrt`, `pow`, `log`) is code
  outside the model: it is a parameter `lib: MathLib`. The only facts assumed about it are
  stated as preconditions: `SqrtSound`, `PowIncreasing` and `PowNonNegative`.
- Fixed-width integers are ranges of `int`. C's truncating float-to-int conversion, the
  narrowing to `i16` and truncating integer division are written out (`TruncateToInt`,
  `WrapI16`, `CDiv`). Shifts, `|` and `&` on bytes are modelled arithmetically in `Bytes`.
- Procedures that fill fields of a caller's `Fuel`, `FireChamber` or `HeatCoefficient` in
  place are methods on classes with those fields. Each names in `modifies` only the
  fields it writes, field by field. Pure formulas are functions.
- Divisions that can divide by zero in the source become preconditions. Among them are the
  denominators of the flue gas formulas, `N2` in the excess-air ratio, `C` in the chemical
  characteristic and `CO2 + CO` in M, N and Q2'.
- Heat flows such as Q0 = Bh·K are numerically kcal per hour. `ConvertCalHourToWatts`
  takes calories per hour (0.001162 W per cal/h), so a kcal/h figure needs a factor of
  1000 before it.
- The string loops work on `array<char>`. The 24-bit packing loop writes an `array<u8>`.
  The Win32 slash pointer is an offset into the name array.

Modules and files:

| file | module | models |
|---|---|---|
| platform.dfy | Platform | integer widths, float-to-int truncation, i16 narrowing |
| units.dfy | Units | `Kilobytes`…`Terabytes`, `ToKilobytes`…`ToTerabytes`, `MillimeterToMeter` |
| libm.dfy | Libm | the math library as a parameter |
| ssmath.dfy | SsMath | `Map`, `Root`, `SolveQuadratic`, rounding, `LimitF`, `LimitI` |
| bytes.dfy | Bytes | byte shifts and masks, two's complement, little-endian layout |
| conversions.dfy | Conversions | `F64toF32` … `F64from24Bit` |
| vectors.dfy | Vectors | `vector2` and its operators |
| tools.dfy | Tools | `StringLength`, `CatStrings` |
| win32paths.dfy | Win32Paths | `Win32GetEXEFileName` (the scan), `Win32BuildEXEPathFileName` |
| records.dfy | Records | the header's records |
| furnace.dfy | Furnace | grate forcing, fuel per hour, fire-box geometry |
| combustion.dfy | Combustion | fits, excess air, beta0, flue gas, M and N, air demand, fuel fixture |
| heatbalance.dfy | HeatBalance | Q0 … Q5, T1, Qt, wall temperatures, steam space |
| gaspath.dfy | GasPath | tube geometry, T2, T3, Tabs, velocities, heat transfer, gas share |
| scenario.dfy | Scenario | the reference calculation of the report |

Where the documentation and the code disagree, the model follows the code:

- The flue gas is documented as balancing to 100 % with CO included. `GetN2` computes
  `100 - (CO2 + O2)`, so CO2, O2 and N2 alone add up to 100 (`Combustion.GetN2`).
- The comment inside `GetAlpha` repeats the formula of `beta0`; the code computes the
  excess-air ratio `1 / (1 - 3.76 O2 / N2)`.
- `F32toF64` is documented as converting a float to a double, but it has the same signature
  and body as `F64toF32`. It is modelled as written.

Some results of the proofs are worth knowing:

- The closed-form CO2 and O2 satisfy Ostwald's equation only up to a residue
  (`Combustion.FlueCompositionResidue`). The flue-gas formulas use 4.76 where Ostwald's
  equation implies 100/21, so given them, `GetCO` yields a small negative CO instead of
  none.
- The −1 "no real root" sentinel of `SolveQuadratic` is also a genuine root of some
  equations, so the caller cannot tell the two apart (`SsMath.SentinelIsAlsoARoot`).
- The report computes the second heat-transfer coefficient with the smoke-box temperature
  at both ends of the tubes. That coefficient is then 0 wherever `log(1)` is
  (`GasPath.LmtdCorrelations`).
- The stored excess-air ratio of the reference coal, 1.35, differs from the 79.6 / 56.288
  that its own O2 and N2 give (`Combustion.ReferenceCoal`).

## Model

| member | source | states |
|---|---|---|
| Platform.TruncateToInt | code/ss_math.h:73-78 | the conversion of a double to an integer drops the fraction: the result is within 1 of the input, toward zero |
| Platform.WrapI16 | code/ss_math.h:135-136 | narrowing to i16 keeps the value modulo 2^16 in the i16 range, and is the identity on it |
| Units.CDiv | code/ss.h:28-31 | C integer division: quotient times divisor plus remainder is the dividend, the remainder has the dividend's sign and is smaller than the divisor |
| Units.MillimeterToMeter | code/ss.h:33 | the metres times 1000 are the millimetres |
| Units.Kilobytes | code/ss.h:23 | multiplies by 1024; contract stated by Units.KilobytesRoundTrip |
| Units.Megabytes | code/ss.h:24 | multiplies by 1024 twice; contract stated by Units.MegabytesRoundTrip |
| Units.Gigabytes | code/ss.h:25 | multiplies by 1024 three times; contract stated by Units.GigabytesRoundTrip |
| Units.Terabytes | code/ss.h:26 | multiplies by 1024 four times; contract stated by Units.TerabytesRoundTrip |
| Units.ToKilobytes | code/ss.h:28 | one truncating division by 1024; undoes Kilobytes (Units.KilobytesRoundTrip) |
| Units.ToMegabytes | code/ss.h:29 | two truncating divisions; undoes Megabytes (Units.MegabytesRoundTrip), equals one division by 1024² (Units.ToMegabytesIsOneDivision) |
| Units.ToGigabytes | code/ss.h:30 | three truncating divisions; undoes Gigabytes (Units.GigabytesRoundTrip) |
| Units.ToTerabytes | code/ss.h:31 | four truncating divisions; undoes Terabytes (Units.TerabytesRoundTrip) |
| Units.KilobytesRoundTrip | code/ss.h:23-28 | for every b with b·1024 in the i64 range, Kilobytes(b) = 1024 b and ToKilobytes(Kilobytes(b)) = b |
| Units.MegabytesRoundTrip | code/ss.h:23-29 | for every b with b·1024² in the i64 range, Megabytes(b) = 1024² b and ToMegabytes(Megabytes(b)) = b |
| Units.GigabytesRoundTrip | code/ss.h:23-30 | for every b with b·1024³ in the i64 range, Gigabytes(b) = 1024³ b and ToGigabytes(Gigabytes(b)) = b |
| Units.TerabytesRoundTrip | code/ss.h:23-31 | for every b with b·1024⁴ in the i64 range, Terabytes(b) = 1024⁴ b and ToTerabytes(Terabytes(b)) = b |
| Units.KilobytesBeyondTerabyteRange | code/ss.h:23-28 | 2^30 is too large for Terabytes but its kilobyte round trip still holds |
| Units.ToMegabytesIsOneDivision | code/ss.h:28-29 | for every b the two nested truncating divisions equal one truncating division by 1024² |
| Units.ToKilobytesTruncates | code/ss.h:28 | ToKilobytes(1023) = 0, ToKilobytes(1024) = 1, and truncation toward zero for negatives |
| Libm.SqrtOfSquare | code/ss_math.h:39-40 | under a sound sqrt, the non-negative number whose square is x is sqrt(x) |
| SsMath.Map | code/ss_math.h:13-17 | the point (x, Map(x)) lies on the line through (inMin, outMin) and (inMax, outMax) |
| SsMath.MapHitsAnchors | code/ss_math.h:13-17 | Map sends inMin to outMin and inMax to outMax |
| SsMath.MapMonotone | code/ss_math.h:13-17 | on an increasing input range Map is monotone in the direction of outMax − outMin |
| SsMath.Root | code/ss_math.h:19-23 | pow(x, 1/n) of the library; no contract of its own, its monotonicity is the hypothesis of GasPath.T2RisesWithLoad |
| SsMath.RootFormula | code/ss_math.h:39-40 | (−b + s)/2a is a root whenever s² is the discriminant |
| SsMath.OnlyTwoRoots | code/ss_math.h:39-42 | every root is one of (−b ± s)/2a |
| SsMath.NoRealRoot | code/ss_math.h:28-33 | a negative discriminant leaves no real root |
| SsMath.SolveQuadratic | code/ss_math.h:25-43 | negative discriminant: returns −1 and there is no root; otherwise returns a root that is the greatest root |
| SsMath.SentinelMeansNoRoot | code/ss_math.h:28-33 | the result is −1 and −1 is not a root exactly when the discriminant is negative |
| SsMath.SentinelIsAlsoARoot | code/ss_math.h:28-37 | for x² + 2x + 1 the solver returns −1, which is a real root |
| SsMath.SolveQuadraticExamples | code/ss_math.h:25-43 | (1, −3, 2) gives 2, (1, −2, 1) gives 1, (1, 0, 1) gives −1 |
| SsMath.RoundF32ToI32 | code/ss_math.h:45-50 | the result is within one half of the value, halves rounded away from zero |
| SsMath.RoundF32ToU32 | code/ss_math.h:52-57 | an unsigned 32-bit result within one half of the value |
| SsMath.FloorF32ToI32 | code/ss_math.h:59-64 | the greatest integer not above the value |
| SsMath.CeilF32ToI32 | code/ss_math.h:66-71 | the least integer not below the value |
| SsMath.TruncateF32ToI32 | code/ss_math.h:73-78 | the integer part toward zero |
| SsMath.TruncateU64 | code/ss_math.h:80-85 | an unsigned 32-bit result congruent to the value modulo 2^32 |
| SsMath.LimitF | code/ss_math.h:87-100 | with min ≤ max the result is in range, is the input when it is in range, and is the nearest bound otherwise; with min > max, the branch the code takes |
| SsMath.LimitI | code/ss_math.h:102-115 | the same for integers |
| SsMath.LimitIdempotent | code/ss_math.h:87-115 | clamping twice is clamping once |
| Bytes.BitOrDisjoint | code/ss_math.h:186-190 | or-ing a value shifted past the bits of another is addition |
| Bytes.BitAndTopBit | code/ss_math.h:184 | masking with bit k is non-zero exactly when that bit is set |
| Bytes.SignBit | code/ss_math.h:184 | `b & 0x80` is non-zero exactly when b ≥ 0x80 |
| Bytes.SignedI32 | code/ss_math.h:186-190 | reading a 32-bit pattern as i32: in range, negative exactly when the top bit is set, congruent modulo 2^32 |
| Bytes.Pattern24 | code/ss_math.h:184-191 | the or of the shifted bytes is b0 + 256 b1 + 65536 b2, plus 0xFF000000 when bit 7 of b2 is set |
| Bytes.Sample24 | code/ss_math.h:182-191 | the integer built is the two's-complement value of the three bytes, lies in [−2^23, 2^23), and is negative exactly when bit 7 of the third byte is set |
| Bytes.Pack24RoundTrip | code/ss_math.h:167-191 | the three low bytes of any 24-bit value in memory decode back to that value |
| Conversions.F64toF32 | code/ss_math.h:118-122 | the result lies in [−1, 1] and is the input when the input does |
| Conversions.F32toF64 | code/ss_math.h:125-129 | the same clamp |
| Conversions.F64toU8 | code/ss_math.h:132-139 | the result is a byte; on [−1, 1] it is the clamp of trunc(128 x) + 128 |
| Conversions.F64toU8Saturating | code/ss_math.h:132-139 | corrected conversion: a byte, 255 for inputs from 1.0 up, 0 for inputs up to −1.0 |
| Conversions.F64toU8WrapsNearTopOfRange | code/ss_math.h:134-136 | 254.0 converts to 255 but 255.0 converts to 0; the corrected form gives 255 |
| Conversions.F64toU8SaturatingMonotone | code/ss_math.h:132-139 | the corrected conversion is monotone and agrees with the original on [−1, 1] |
| Conversions.U8toF64 | code/ss_math.h:142-148 | the result lies in [−1, 1]; byte b ≥ 1 gives (b − 128)/127 and 0 gives −1 |
| Conversions.U8RoundTrip | code/ss_math.h:132-148 | a byte converted to a double and back is itself, except 1, which becomes 0 |
| Conversions.F64toI16 | code/ss_math.h:151-156 | the result is an i16: trunc(32768 x) when that fits, 0x7FFF above the range and −0x8000 below it |
| Conversions.I16toF64 | code/ss_math.h:159-164 | the result lies in [−1, 1], is v / 32767 for v ≥ −0x7FFF, and is −1 for −0x8000 |
| Conversions.I16RoundTrip | code/ss_math.h:151-164 | an i16 converted to a double and back is itself, except −0x7FFF, which becomes −0x8000 |
| Conversions.Quantize24 | code/ss_math.h:169-170 | the scaled sample lies in [−0x7FFFFF, 0x7FFFFE]: trunc(0x7FFFFF x) when that fits, the nearest bound otherwise |
| Conversions.F64to24Bit | code/ss_math.h:167-177 | the first three output bytes are the low three bytes of the quantised sample; the rest of the buffer is unchanged |
| Conversions.F64from24Bit | code/ss_math.h:180-193 | the result lies in [−1, 1], is the sample over 0x7FFFFE inside that range and the nearest bound outside |
| Conversions.EncodeDecode24 | code/ss_math.h:167-193 | packing then unpacking returns the quantised sample, and the double is that sample over 0x7FFFFE (−1 for the lowest sample) |
| Vectors.Scale | code/ss_math.h:215-224 | each component is scaled |
| Vectors.ScaleRight | code/ss_math.h:226-232 | `B * A` is `A * B`; contract stated by Vectors.ScaleLaws |
| Vectors.Negate | code/ss_math.h:242-251 | component-wise negation; it is scaling by −1 (Vectors.ScaleLaws) and the additive inverse (Vectors.AddLaws) |
| Vectors.Add | code/ss_math.h:253-262 | component-wise sum; commutative, associative, distributive (Vectors.AddLaws) |
| Vectors.Subtract | code/ss_math.h:272-281 | component-wise difference; undoes Add and is adding the negation (Vectors.AddSubtractInverse) |
| Vectors.MulAssign | code/ss_math.h:234-240 | the updated vector is the vector times the scalar, component by component |
| Vectors.AddAssign | code/ss_math.h:264-270 | the updated vector is the sum, and subtracting the addend gives back the original |
| Vectors.ScaleLaws | code/ss_math.h:215-251 | both scalar products agree, 1 is neutral, scaling composes, scaling by −1 is negation |
| Vectors.AddSubtractInverse | code/ss_math.h:253-281 | subtraction undoes addition and is addition of the negation |
| Vectors.AddLaws | code/ss_math.h:242-262 | addition is commutative and associative, scaling distributes over it, and v + (−v) = 0 |
| Tools.CLength | code/ss_tools.h:21-29 | the position of the first NUL: no NUL before it |
| Tools.StringLength | code/ss_tools.h:21-29 | returns n with no NUL among the first n characters and a NUL at n |
| Tools.CatStrings | code/ss_tools.h:3-19 | dest starts with the first count of A, then the first count of B, then a NUL; nothing after that is written |
| Tools.CatLength | code/ss_tools.h:3-29 | when neither part holds a NUL, the result is a string of the two counts' total length |
| Win32Paths.LastSlashEnd | code/win32_ss.cpp:10-17 | one past the last backslash before the end, or 0 when there is none; no backslash after it |
| Win32Paths.Win32GetEXEFileName | code/win32_ss.cpp:10-17 | the offset is one past the last backslash before the terminator, or the start when there is none, and at most the name's length |
| Win32Paths.Win32BuildEXEPathFileName | code/win32_ss.cpp:20-25 | dest holds the directory part through its last backslash, the file name up to its NUL, and a NUL; the rest is untouched |
| Win32Paths.BuiltPathIsTerminated | code/win32_ss.cpp:20-25 | the built path is a string of directory length plus file-name length whose directory part ends in a backslash |
| Win32Paths.Win32State.constructor | code/win32_ss.h:13-27 | a zeroed name buffer of MAX_PATH (260) characters with the offset at its start |
| Records.FireChamber.constructor | code/ss.h:41-53 | a zero-initialised fire-box record |
| Records.Fuel.constructor | code/ss.h:75-92 | a zero-initialised fuel record |
| Records.HeatCoefficient.constructor | code/ss.h:94-98 | zero coefficients |
| Furnace.GetGridForcing | code/ss_boiler.cpp:4-7 | forcing times grate area is the fuel mass per hour |
| Furnace.GetBh | code/ss_boiler.cpp:12-16 | grate area times grate loading; its grate forcing is U (Furnace.BhIsForcingTimesArea) |
| Furnace.BhIsForcingTimesArea | code/ss_boiler.cpp:4-16 | the grate loading is the grate forcing of the hourly consumption R U |
| Furnace.CombustionCompleteness | code/ss_boiler.cpp:21 | u = (100 − q22)/100, in [0, 1] for a loss between 0 and 100 % |
| Furnace.GetBhFact | code/ss_boiler.cpp:19-23 | sets fuel.u to the completeness and returns u times R U, between 0 and R U, equal to R U when nothing is lost |
| Furnace.BhFactWithinBh | code/ss_boiler.cpp:19-23 | the fuel actually burnt lies between none and all, all at 0 % loss and none at 100 % |
| Furnace.HeatingSurface | code/ss_boiler.cpp:29-34 | the five products of the fire-box surface; factored and bounded by Furnace.HeatingSurfaceFactors |
| Furnace.HeatingSurfaceFactors | code/ss_boiler.cpp:31-34 | the heating surface is the crown sheet plus the summed heights times the summed top dimensions, at least the crown sheet |
| Furnace.CalculateFireChamber | code/ss_boiler.cpp:26-35 | R becomes bottom length times bottom width and Ht the five-product surface; no other field changes |
| Combustion.FitAnchors | code/ss_boiler.cpp:124-134 | the fits pass through (1, 18.35), (2, 9.48), (1, 2), (1.7, 9.3), and the T0 fit at line 211-214 through (1, 2148), (2, 1304) |
| Combustion.FitsMonotone | code/ss_boiler.cpp:124-134 | more excess air gives less CO2, more O2 and a lower theoretical temperature (GetT0 at line 211-214) |
| Combustion.GetCO2Fit | code/ss_boiler.cpp:124-127 | the CO2 fit in alpha; anchors and decrease stated by Combustion.FitAnchors and Combustion.FitsMonotone |
| Combustion.GetO2Fit | code/ss_boiler.cpp:131-134 | the O2 fit in alpha; anchors and increase stated by Combustion.FitAnchors and Combustion.FitsMonotone |
| Combustion.GetT0 | code/ss_boiler.cpp:211-214 | the theoretical temperature fit; anchors and decrease stated by Combustion.FitAnchors and Combustion.FitsMonotone |
| Combustion.ExcessAir | code/ss_boiler.cpp:140 | alpha (1 − 3.76 O2/N2) = 1 |
| Combustion.ExcessAirProperties | code/ss_boiler.cpp:137-141 | alpha (N2 − 3.76 O2) = N2; alpha is 1 without free O2 and above 1 with some |
| Combustion.GetAlpha | code/ss_boiler.cpp:137-141 | sets alpha, and only alpha, to the excess-air ratio of the flue gas |
| Combustion.ChemicalCharacteristic | code/ss_boiler.cpp:148 | beta0 C = 2.37 (H − O/8); for carbon-bearing fuel beta0 > 0 exactly when O < 8 H |
| Combustion.GetBeta0 | code/ss_boiler.cpp:145-149 | sets beta0, and only beta0, to the chemical characteristic |
| Combustion.OstwaldCO | code/ss_boiler.cpp:152-159 | CO satisfies Ostwald's equation (0.605 + beta0) CO = 21 − beta0 CO2 − (CO2 + O2), and is 0 exactly when (1 + beta0) CO2 + O2 = 21 |
| Combustion.GetCO | code/ss_boiler.cpp:152-159 | sets CO, and only CO, by Ostwald's equation |
| Combustion.FlueCO2 | code/ss_boiler.cpp:164 | CO2 times the common denominator is 79 |
| Combustion.FlueO2 | code/ss_boiler.cpp:170-172 | O2 times the common denominator is (79 + 100 beta0)(alpha − 1) |
| Combustion.GetCO2 | code/ss_boiler.cpp:162-165 | sets CO2, and only CO2, to the complete-combustion content |
| Combustion.GetO2 | code/ss_boiler.cpp:168-173 | sets O2, and only O2, to the complete-combustion content |
| Combustion.GetN2 | code/ss_boiler.cpp:176-179 | afterwards CO2 + O2 + N2 = 100, whatever the fields held, with CO2 and O2 unchanged |
| Combustion.StoichiometricFlue | code/ss_boiler.cpp:162-173 | at alpha = 1 the denominator is 3.76 (1 + beta0), O2 = 0 and CO2 · 3.76 (1 + beta0) = 79 |
| Combustion.FlueCompositionResidue | code/ss_boiler.cpp:152-173 | the closed-form CO2 and O2 leave −0.04 alpha (1 + beta0)/D in Ostwald's equation |
| Combustion.HeatCapacityPositive | code/ss_boiler.cpp:184-199 | the per-kilogram heat-capacity terms are positive for a physical fuel |
| Combustion.GetM | code/ss_boiler.cpp:184-189 | the linear heat-content coefficient for Bh; additive in Bh and positive (Combustion.CoefficientsScaleWithFuel) |
| Combustion.GetN | code/ss_boiler.cpp:194-199 | the quadratic heat-content coefficient for Bh; additive in Bh and positive (Combustion.CoefficientsScaleWithFuel) |
| Combustion.CoefficientsScaleWithFuel | code/ss_boiler.cpp:184-199 | M and N are additive in the hourly fuel and positive for positive consumption |
| Combustion.GetHeatCoefficient | code/ss_boiler.cpp:202-206 | sets M and N, and nothing else, to the coefficients for Bh |
| Combustion.GetL0 | code/ss_boiler.cpp:513-516 | 23.6 L0 = 8/3 C + 8 H + S − O |
| Combustion.GetLv | code/ss_boiler.cpp:520-523 | with alpha ≥ 1 the actual air is at least the theoretical, equal at alpha = 1 |
| Combustion.CalculateFuel | code/ss_boiler.cpp:471-490 | sets the reference analysis and flue gas, and beta0 to its characteristic 0.0803578125; u is unchanged |
| Combustion.ReferenceCoal | code/ss_boiler.cpp:471-490 | the reference flue gas sums to 100 % with CO; L0 = 1777/177; its O2 and N2 give alpha = 79.6/56.288 |
| HeatBalance.HeatContentIncreasing | code/ss_boiler.cpp:274-277 | M T + N T² is 0 at 0 and grows with T ≥ 0 for non-negative M, N, strictly when M > 0 |
| HeatBalance.GetQ3 | code/ss_boiler.cpp:274-277 | the heat content M T + N T²; zero at 0 and increasing (HeatBalance.HeatContentIncreasing) |
| HeatBalance.GetQ0 | code/ss_boiler.cpp:221-228 | the available heat; decomposed and bounded by HeatBalance.AvailableHeat |
| HeatBalance.AvailableHeat | code/ss_boiler.cpp:221-228 | Q0 = Bh K + heat content at tb; at tb = 0 it is Bh K, and never less for tb ≥ 0 |
| HeatBalance.GetQ1 | code/ss_boiler.cpp:237-240 | the useful heat; decomposed by HeatBalance.UsefulHeat |
| HeatBalance.GetQ21 | code/ss_boiler.cpp:247-250 | the chemical loss; zero exactly without CO and bounded (HeatBalance.ChemicalLoss) |
| HeatBalance.GetQ22 | code/ss_boiler.cpp:256-259 | the mechanical loss as a percentage of Q0 (HeatBalance.PercentageLosses) |
| HeatBalance.GetQ4 | code/ss_boiler.cpp:294-297 | the cooling loss as a percentage of Q0, the same formula as GetQ22 (HeatBalance.PercentageLosses) |
| HeatBalance.GetQ5 | code/ss_boiler.cpp:301-305 | the auxiliary loss, GetQ4 at 3.5 % (HeatBalance.PercentageLosses) |
| HeatBalance.GetQ3Scaled | code/ss_boiler.cpp:267-271 | the five-argument Q3; related to GetQ3 by HeatBalance.ScaledFlueLoss |
| HeatBalance.GetQ4Physical | code/ss_boiler.cpp:285-289 | the cooling loss from surface, speed and temperatures; HeatBalance.CoolingAtStandstill |
| HeatBalance.GetQt | code/ss_boiler.cpp:465-468 | for every input, Qt = Q0 − Q2' − Q2'' − heat content at T2; decomposed through T1 by HeatBalance.FireBoxHeat |
| HeatBalance.ConvertCalHourToWatts | code/ss_boiler.cpp:372-375 | cal/h to W: the watts over an hour are the calories times 4.1832 J; linear and monotone (HeatBalance.CalHourToWattsLinear) |
| HeatBalance.GetQGasToWall | code/ss_boiler.cpp:384-387 | the heat flow from gas to wall; sign and antisymmetry (HeatBalance.HeatFlowsFromHotToCold) |
| HeatBalance.GetTOfWallOnWaterSide | code/ss_boiler.cpp:392-403 | the water-side wall temperature; ordered by HeatBalance.WallTemperaturesOrdered |
| HeatBalance.GetTOfWallOnGasSide | code/ss_boiler.cpp:408-419 | the gas-side wall temperature; ordered by HeatBalance.WallTemperaturesOrdered |
| HeatBalance.GetZt | code/ss_boiler.cpp:429-432 | the stub that returns 0; no contract |
| HeatBalance.UsefulHeat | code/ss_boiler.cpp:237-240 | Q1 is the whole output at the boiler state plus the engine steam's superheat |
| HeatBalance.ChemicalLoss | code/ss_boiler.cpp:247-250 | Q2' is 0 exactly when there is no CO, and lies in [0, 56.9 C BhFact] |
| HeatBalance.PercentageLosses | code/ss_boiler.cpp:256-305 | Q2'' and Q4 are the same percentage formula; Q5 is Q4 at 3.5 %; Q2''(1000, 36) = 360; strictly increasing in the percentage for Q0 > 0 |
| HeatBalance.ScaledFlueLoss | code/ss_boiler.cpp:267-271 | the five-argument Q3 times K is 100 Q0 M times the heat content at T3 |
| HeatBalance.CoolingAtStandstill | code/ss_boiler.cpp:285-289 | when pow(0, 0.7) = 0 a standing boiler loses 2.2 phi H0 pow(tk − tb, 4/3); with a non-negative pow, motion only adds to that loss |
| HeatBalance.GetT1 | code/ss_boiler.cpp:314-319 | −1 when the equation has no real root; otherwise the flue gas at T1 holds (Q0 − Q2' − Q2'')/0.84 |
| HeatBalance.CombustionTemperaturePositive | code/ss_boiler.cpp:314-319 | with N > 0 and heat left after the losses, T1 is positive and 0.84 times the heat content at T1 is Q0 − Q2' − Q2'' |
| HeatBalance.FireBoxHeat | code/ss_boiler.cpp:465-468 | Qt = 0.84 · content at T1 − content at T2, so Qt > 0 exactly when the content at T2 is below 84 % of that at T1 |
| HeatBalance.CalHourToWattsLinear | code/ss_boiler.cpp:372-375 | 1000 cal/h (1 kcal/h) are 1.162 W; the conversion is linear and monotone |
| HeatBalance.HeatFlowsFromHotToCold | code/ss_boiler.cpp:384-387 | no flow at equal temperatures, reversed flow when swapped, positive exactly when the gas is hotter |
| HeatBalance.WallTemperaturesOrdered | code/ss_boiler.cpp:392-419 | t ≤ water side ≤ gas side ≤ T for clean or fouled walls; the drop across the wall is the flux times the resistance of steel, scale and soot |
| HeatBalance.GetH | code/ss_boiler.cpp:437-441 | 4.3 h = Dc, so the steam space is less than the drum diameter |
| GasPath.PipeSurfacesAdd | code/ss_boiler.cpp:341-344 | n tubes have n times one tube's surface, and the surfaces of tube groups add |
| GasPath.GetHPipes | code/ss_boiler.cpp:341-344 | the tube heating surface; n times one tube and additive over groups (GasPath.PipeSurfacesAdd) |
| GasPath.GetPipeSquare | code/ss_boiler.cpp:543-547 | the clear section; radius times perimeter and positive (GasPath.SectionIsRadiusTimesPerimeter) |
| GasPath.GetHydraulicRadius | code/ss_boiler.cpp:347-350 | 4 r = DIn |
| GasPath.SectionIsRadiusTimesPerimeter | code/ss_boiler.cpp:543-547 | the clear section is the hydraulic radius times the wetted perimeter, and positive |
| GasPath.LoadRatioGrows | code/ss_boiler.cpp:329-330 | the load term lies in [4400/223000, 1) and grows with the load |
| GasPath.T2RisesWithLoad | code/ss_boiler.cpp:325-335 | with pow increasing, a smaller fire box sends hotter gas into the tubes, colder than 1350 pow(1, 1/1.6) |
| GasPath.GetT2 | code/ss_boiler.cpp:325-335 | the tube-plate temperature; rises with the load and stays below its limit (GasPath.T2RisesWithLoad) |
| GasPath.GetT3 | code/ss_boiler.cpp:359-369 | the smoke-box temperature; T2's correlation over the whole surface (GasPath.SmokeBoxFollowsTubePlate) |
| GasPath.SmokeBoxFollowsTubePlate | code/ss_boiler.cpp:359-369 | T3 is T2's correlation over the whole heating surface with the tube-bank coefficient in place of 1350 |
| GasPath.GetTabs | code/ss_boiler.cpp:536-539 | the mean absolute temperature lies between the two temperatures plus 273 |
| GasPath.GetV | code/ss_boiler.cpp:551-554 | 10330 v = 29.27 Tabs, positive for positive Tabs |
| GasPath.VelocityCarriesGasVolume | code/ss_boiler.cpp:558-565 | omega · 3600 · section = (Lv + 1) Bh v, positive for a positive flow |
| GasPath.GetOmega | code/ss_boiler.cpp:558-565 | the gas velocity in a tube; carries the gas volume (GasPath.VelocityCarriesGasVolume) |
| GasPath.GetWd | code/ss_boiler.cpp:458-461 | the smoke-tube velocity; proportional to Tabs and 1 − b (GasPath.SmokeTubeVelocity) |
| GasPath.SmokeTubeVelocity | code/ss_boiler.cpp:458-461 | Wd is proportional to Tabs and to the share 1 − b, and 0 when all gas bypasses the tubes |
| GasPath.VelocityCorrelations | code/ss_boiler.cpp:569-573 | GetK by tube diameter and GetKd (lines 452-455) differ by 6 (g − 1); GetKd and GetKi (lines 527-532) are at least 6 and GetK at least 6 g, for a non-negative pow |
| GasPath.GetKFromVelocity | code/ss_boiler.cpp:569-573 | K from the velocity and tube diameter; GasPath.VelocityCorrelations |
| GasPath.GetKd | code/ss_boiler.cpp:452-455 | the smoke-tube K; at least 6 and 6 (g − 1) below GetKFromVelocity (GasPath.VelocityCorrelations) |
| GasPath.GetKi | code/ss_boiler.cpp:527-532 | the flue-tube K; at least 6 (GasPath.VelocityCorrelations) |
| GasPath.LmtdCorrelations | code/ss_boiler.cpp:577-583 | K from the log temperature difference times Hd is GetKdHd (lines 446-449) at b = 0 and Tk = tk; GetKdHd is 0 at b = 1; equal end temperatures give K = 0 when log(1) = 0 |
| GasPath.GetKdHd | code/ss_boiler.cpp:446-449 | the smoke-tube heat; GasPath.LmtdCorrelations |
| GasPath.GetKFromLmtd | code/ss_boiler.cpp:577-583 | K from the log temperature difference; GasPath.LmtdCorrelations |
| GasPath.GasShareRationalised | code/ss_boiler.cpp:496-509 | the share is a/(a + sqrt(e a)), in (0, 1], and 1 when the flue tubes offer no resistance |
| GasPath.ResistanceFactor | code/ss_boiler.cpp:498-500 | the flow resistance L/(r s²) of one tube group, the input of GasShare |
| GasPath.GasShare | code/ss_boiler.cpp:502-508 | the share formula on the three resistance factors; rationalised and bounded by GasPath.GasShareRationalised |
| GasPath.GetBeta | code/ss_boiler.cpp:496-509 | GasShare of the three resistance factors L/(r s²); GasPath.GasShareRationalised |
| Scenario.Calculate | code/ss.cpp:6-72 | the reference boiler gives R = 2.341784, Ht = 15.120026, Bh = 1287.9812, BhFact = 824.307968, beta0 = 0.0803578125, L0 = 1777/177, Q0 = 9277328.5836, Q2'' = 3339838.290096, positive M and N, and a positive T1 that balances the heat |

## Left out

- Output through `printf`: the report in `Calculate` and the two lines in `GetBeta`. The report's remaining steps (T2, T3, Tabs, velocity, the two K values) after T1 are not run in `Scenario.Calculate`; their formulas are modelled in `GasPath`.
- The C math library: `sqrt`, `pow` and `log` are a parameter. Only the facts named in `Libm` are assumed, each where it is needed.
- IEEE-754 arithmetic: rounding of `f64` and `f32`, NaN and infinities. Every value is an exact real, and a division the source could perform by zero is excluded by a precondition.
- `GetModuleFileNameA`: the executable's name is the input of `Win32GetEXEFileName`, already in the buffer.
- The file, memory and DLL functions of the Win32 layer and its `main` are foreign calls. So is `CALCULATE`'s linkage.
- `code/ss_platform.h` holds only typedefs, the debug file-function declarations and an empty stub.
- `Win32Paths.Win32State`: only the two file-name fields are modelled. The zeroed slash pointer is null in C and offset 0 in the model; the recording, playback and memory fields belong to the file and DLL layer.
- `Tools.CatStrings`: the `i32` loop counters and `size_t` counts are unbounded naturals, and dest must have room (`destCount` is never consulted). The buffers must not alias.
- `Tools.StringLength`: the `i32` count does not overflow in the model.
- `Win32Paths.Win32BuildEXEPathFileName`: the `int destCount` is passed on as its `size_t` value, modulo 2^64.
- The `E[2]` array view of the `vector2` union is not modelled; the vector is a pair of reals.
- Output pointers of the conversions are results of functions; `F64to24Bit` writes its array.
- `GetZt` has no formula and returns 0. It is modelled as that constant and carries no contract.
- `Conversions.F64toU8`, `F64toI16`, `Quantize24`: a double outside the range of the integer type it is converted to is undefined in C; the model excludes it by a precondition.
- The `Assert`, `ArrayCount`, `internal`/`local`/`global` macros, `PI32` and `TwoPI` of the headers carry no computation of the boiler and are not modelled.
- `SsMath.Root` has no contract of its own: it is `pow(x, 1/n)` of the library parameter, and its only property used (monotonicity) is the `PowIncreasing` hypothesis of `GasPath.T2RisesWithLoad`.
- The C overloads are renamed: `GetCO2(a)`/`GetO2(a)` are `GetCO2Fit`/`GetO2Fit`, the five-argument `GetQ3` is `GetQ3Scaled`, the physical `GetQ4` is `GetQ4Physical`, and the two `GetK` are `GetKFromVelocity` and `GetKFromLmtd`.
- `code/ss_gear.cpp`, included by the report, is not part of this model.
- `Vectors.MulAssign`, `Vectors.AddAssign`: `*=` and `+=` update the caller's vector through a reference; the model returns the updated vector instead of writing it in place.
- `SsMath.RoundF32ToI32`, `RoundF32ToU32`, `FloorF32ToI32`, `CeilF32ToI32`, `TruncateF32ToI32`: the `f32` argument is an exact real, and results outside the target type are excluded by preconditions.

## Findings

| source | as written | input that shows it | evidently intended | confidence | as-written member | corrected member |
|---|---|---|---|---|---|---|
| code/ss_math.h:134-136 | the offset 128 is added to the `i16` variable, so a sum above 32767 wraps to a negative value that the clamp sends to 0 | 255.0 converts to 0, while 254.0 converts to 255 | inputs at or above 1.0 saturate at 255 | low: the input lies far outside the documented [−1, 1]; not executed | Conversions.F64toU8WrapsNearTopOfRange | Conversions.F64toU8Saturating |
