/** The gas path through the fire tubes: tube surfaces and sections, the gas temperature at
    the tube plate (T2) and at the smoke box (T3), the mean absolute temperature, specific
    volume and velocity of the gas, the heat-transfer correlations, and the share of the gas
    taken by the smoke tubes. The correlations call `pow`, `log` and `sqrt` of the math
    library, passed in as `lib`. */
module GasPath {
  import opened Platform
  import opened Records
  import opened SsMath
  import opened Libm
  import opened Combustion

  // ---------------------------------------------------------------- tube geometry

  /** Heating surface of `n` tubes of length `l`, on their outer diameter. */
  function GetHPipes(d: PipeDiameter, n: u16, l: real): real
  {
    PI * d.DOut * n as real * l
  }

  /** The tube surface is `n` times the lateral surface of one tube, and the surfaces of two
      groups of tubes add up. */
  lemma {:induction false} PipeSurfacesAdd(d: PipeDiameter, n: u16, m: u16, l: real)
    requires n + m < 0x1_0000
    ensures GetHPipes(d, n, l) == n as real * (PI * d.DOut * l)
    ensures GetHPipes(d, n + m, l) == GetHPipes(d, n, l) + GetHPipes(d, m, l)
    ensures 0.0 < d.DOut && 0.0 < l && 0 < n ==> 0.0 < GetHPipes(d, n, l)
  {
    var one := PI * d.DOut * l;
    assert GetHPipes(d, n + m, l) == (n + m) as real * one;
    if 0.0 < d.DOut && 0.0 < l && 0 < n {
      assert 0.0 < one;
      assert 0.0 < n as real * one;
    }
  }

  /** Hydraulic radius of a round tube: a quarter of its inner diameter. */
  function GetHydraulicRadius(d: PipeDiameter): (r: real)
    ensures r * 4.0 == d.DIn
    ensures 0.0 < d.DIn ==> 0.0 < r < d.DIn
  {
    d.DIn / 4.0
  }

  /** Clear section of a tube on its inner diameter. */
  function GetPipeSquare(d: PipeDiameter): real
  {
    var dSq := d.DIn * d.DIn;
    (PI * dSq) / 4.0
  }

  /** The clear section is the hydraulic radius times the wetted perimeter, as the hydraulic
      radius is defined, and is positive for every tube with an inner diameter. */
  lemma SectionIsRadiusTimesPerimeter(d: PipeDiameter)
    ensures GetPipeSquare(d) == GetHydraulicRadius(d) * (PI * d.DIn)
    ensures d.DIn != 0.0 ==> 0.0 < GetPipeSquare(d)
  {
  }

  // ---------------------------------------------------------------- gas temperatures

  /** Heat released per hour per square metre of the heating surface `H`. */
  function Load(Bh: real, H: real, fuel: Fuel): real
    reads fuel
    requires H != 0.0
  {
    (Bh * fuel.K) / H
  }

  /** The load term of the temperature correlations is defined: the heating surface is not
      zero and neither is the denominator. */
  predicate LoadDefined(Bh: real, H: real, fuel: Fuel)
    reads fuel
  {
    H != 0.0 && Load(Bh, H, fuel) + 223000.0 != 0.0
  }

  /** The load term of the temperature correlations, (x + 4400) / (x + 223000) for the load x. */
  function LoadRatio(x: real): real
    requires x + 223000.0 != 0.0
  {
    var top := x + 4400.0;
    var bottom := x + 223000.0;
    top / bottom
  }

  /** Dividing a positive numerator by a larger positive number gives a smaller quotient. */
  lemma {:induction false} QuotientShrinks(c: real, u: real, w: real)
    requires 0.0 < c && 0.0 < u <= w
    ensures c / w <= c / u
    ensures u < w ==> c / w < c / u
  {
    var qu, qw := c / u, c / w;
    assert qu * u == c && qw * w == c;
    assert 0.0 < qu && 0.0 < qw;
    assert qw * u <= qw * w;
    if u < w {
      assert qw * u < qw * w;
    }
  }

  /** For a non-negative load the ratio lies in [4400/223000, 1) and grows with the load. */
  lemma {:induction false} LoadRatioGrows(x: real, y: real)
    requires 0.0 <= x <= y
    ensures 4400.0 / 223000.0 <= LoadRatio(x) < 1.0
    ensures LoadRatio(x) <= LoadRatio(y)
    ensures x < y ==> LoadRatio(x) < LoadRatio(y)
  {
    var bx := x + 223000.0;
    var bY := y + 223000.0;
    assert (x + 4400.0) / bx == 1.0 - 218600.0 / bx;
    assert (y + 4400.0) / bY == 1.0 - 218600.0 / bY;
    QuotientShrinks(218600.0, bx, bY);
    QuotientShrinks(218600.0, 223000.0, bx);
  }

  /** The same heat spread over a smaller surface is a larger load per square metre. */
  lemma {:induction false} LoadShrinksWithSurface(Bh: real, Ht: real, Ht': real, fuel: Fuel)
    requires 0.0 <= Bh * fuel.K && 0.0 < Ht' <= Ht
    ensures 0.0 <= Load(Bh, Ht, fuel) <= Load(Bh, Ht', fuel)
  {
    var q := Bh * fuel.K;
    if 0.0 < q {
      QuotientShrinks(q, Ht', Ht);
    }
  }

  /** Gas temperature at the fire-box tube plate, for the fire-box heating surface `Ht`. */
  function GetT2(lib: MathLib, Bh: real, Ht: real, fuel: Fuel): real
    reads fuel
    requires LoadDefined(Bh, Ht, fuel)
  {
    1350.0 * Root(lib, LoadRatio(Load(Bh, Ht, fuel)), 1.6)
  }

  /** When `pow(., 1/1.6)` is increasing, a smaller fire box burning the same fuel sends
      hotter gas into the tubes, and the gas stays colder than 1350 * pow(1, 1/1.6). */
  lemma {:induction false} T2RisesWithLoad(lib: MathLib, Bh: real, Ht: real, Ht': real, fuel: Fuel)
    requires PowIncreasing(lib, 1.0 / 1.6)
    requires 0.0 <= Bh * fuel.K && 0.0 < Ht' <= Ht
    ensures GetT2(lib, Bh, Ht, fuel) <= GetT2(lib, Bh, Ht', fuel)
    ensures GetT2(lib, Bh, Ht, fuel) < 1350.0 * lib.pow(1.0, 1.0 / 1.6)
  {
    var x, y := Load(Bh, Ht, fuel), Load(Bh, Ht', fuel);
    LoadShrinksWithSurface(Bh, Ht, Ht', fuel);
    LoadRatioGrows(x, y);
    LoadRatioGrows(y, y);
    var fx, fy := LoadRatio(x), LoadRatio(y);
    if fx < fy {
      assert lib.pow(fx, 1.0 / 1.6) < lib.pow(fy, 1.0 / 1.6);
    }
    assert lib.pow(fx, 1.0 / 1.6) < lib.pow(1.0, 1.0 / 1.6);
  }

  /** The tube-bank coefficient of the smoke-box temperature, from the hydraulic radius and
      the length of the tubes. */
  function T3Coefficient(lib: MathLib, d: PipeDiameter, L: real): real
    requires d.DIn != 0.0 && L / GetHydraulicRadius(d) + 105.0 != 0.0
  {
    var r := GetHydraulicRadius(d);
    lib.pow(r / 0.0105, 0.15) * (710.0 + 332000.0 / (L / r + 105.0))
  }

  /** Gas temperature leaving the tubes, for `n` tubes of length `L` added to the boiler
      heating surface `Hk`. */
  function GetT3(lib: MathLib, d: PipeDiameter, n: u16, L: real, Bh: real, Hk: real, fuel: Fuel): real
    reads fuel
    requires d.DIn != 0.0 && L / GetHydraulicRadius(d) + 105.0 != 0.0
    requires LoadDefined(Bh, Hk + GetHPipes(d, n, L), fuel)
  {
    var Hi := GetHPipes(d, n, L);
    var H := Hk + Hi;
    var r := GetHydraulicRadius(d);
    var A := lib.pow(r / 0.0105, 0.15) * (710.0 + 332000.0 / (L / r + 105.0));
    var load := Load(Bh, H, fuel);
    var top := load + 4400.0;
    var bottom := load + 223000.0;
    A * Root(lib, top / bottom, 1.6)
  }

  /** T3 is T2's correlation over the whole heating surface (boiler plus tubes) with the
      tube-bank coefficient in place of 1350. */
  lemma SmokeBoxFollowsTubePlate(lib: MathLib, d: PipeDiameter, n: u16, L: real, Bh: real, Hk: real, fuel: Fuel)
    requires d.DIn != 0.0 && L / GetHydraulicRadius(d) + 105.0 != 0.0
    requires LoadDefined(Bh, Hk + GetHPipes(d, n, L), fuel)
    ensures GetT3(lib, d, n, L, Bh, Hk, fuel) * 1350.0
         == T3Coefficient(lib, d, L) * GetT2(lib, Bh, Hk + GetHPipes(d, n, L), fuel)
  {
  }

  // ---------------------------------------------------------------- gas flow

  /** Mean absolute temperature of the gas in the tubes. */
  function GetTabs(T2: real, T3: real): (Tabs: real)
    ensures T2 <= T3 ==> T2 + 273.0 <= Tabs <= T3 + 273.0
    ensures T3 <= T2 ==> T3 + 273.0 <= Tabs <= T2 + 273.0
    ensures T2 == T3 ==> Tabs == T2 + 273.0
  {
    (T2 + T3) / 2.0 + 273.0
  }

  /** Specific volume of the gas at absolute temperature `Tabs` and atmospheric pressure. */
  function GetV(Tabs: real): (v: real)
    ensures v * 10330.0 == 29.27 * Tabs
    ensures 0.0 < Tabs ==> 0.0 < v
  {
    (29.27 * Tabs) / 10330.0
  }

  /** Gas velocity in a tube: the gas of an hour's fuel (air plus the fuel itself) over the
      tube's section, per second. */
  function GetOmega(fuel: Fuel, d: PipeDiameter, Tabs: real, L0: real, Bh: real): real
    reads fuel
    requires GetPipeSquare(d) != 0.0
  {
    var Od := GetPipeSquare(d);
    var v := GetV(Tabs);
    var top := (L0 * fuel.alpha + 1.0) * Bh * v;
    var bottom := 3600.0 * Od;
    top / bottom
  }

  /** The velocity times the section and an hour's seconds is the volume of the gas: the
      actual air plus the fuel, per kilogram, times the fuel burnt, times the specific
      volume; it is positive when all of these are. */
  lemma {:induction false} VelocityCarriesGasVolume(fuel: Fuel, d: PipeDiameter, Tabs: real, L0: real, Bh: real)
    requires GetPipeSquare(d) != 0.0
    ensures GetOmega(fuel, d, Tabs, L0, Bh) * (3600.0 * GetPipeSquare(d))
         == (GetLv(L0, fuel) + 1.0) * Bh * GetV(Tabs)
    ensures 0.0 <= L0 && 0.0 <= fuel.alpha && 0.0 < Bh && 0.0 < Tabs ==> 0.0 < GetOmega(fuel, d, Tabs, L0, Bh)
  {
    var Od := GetPipeSquare(d);
    SectionIsRadiusTimesPerimeter(d);
    var top := (L0 * fuel.alpha + 1.0) * Bh * GetV(Tabs);
    assert GetOmega(fuel, d, Tabs, L0, Bh) == top / (3600.0 * Od);
    if 0.0 <= L0 && 0.0 <= fuel.alpha && 0.0 < Bh && 0.0 < Tabs {
      var air := L0 * fuel.alpha + 1.0;
      assert 0.0 < air;
      var airMass := air * Bh;
      assert 0.0 < airMass;
      assert 0.0 < airMass * GetV(Tabs);
    }
  }

  /** Gas velocity in the smoke tubes, from the air per kilogram `L0`, excess air `a`, the
      fuel burnt, the completeness `u`, the section `omegaD`, the temperatures at the two
      tube plates and the share `b` of the gas that bypasses them. */
  function GetWd(L0: real, a: real, Bh: real, u: real, omegaD: real, T2: real, T3d: real, b: real): real
    requires omegaD != 0.0
  {
    0.8425 * ((L0 * a * Bh * u) / (10000000.0 * omegaD)) * ((T2 + T3d) / 2.0 + 273.0) * (1.0 - b)
  }

  /** The velocity scales with the mean absolute temperature of the gas in the tubes and
      with the share 1 - b of the gas they carry: none when all gas bypasses them. */
  lemma {:induction false} SmokeTubeVelocity(L0: real, a: real, Bh: real, u: real, omegaD: real, T2: real, T3d: real, b: real)
    requires omegaD != 0.0
    ensures GetWd(L0, a, Bh, u, omegaD, T2, T3d, b)
         == 0.8425 * ((L0 * a * Bh * u) / (10000000.0 * omegaD)) * GetTabs(T2, T3d) * (1.0 - b)
    ensures GetWd(L0, a, Bh, u, omegaD, T2, T3d, 1.0) == 0.0
  {
  }

  // ---------------------------------------------------------------- heat transfer

  /** Heat-transfer coefficient from the gas velocity in a tube of diameter `d`. */
  function GetKFromVelocity(lib: MathLib, d: PipeDiameter, omega: real): real
    requires d.DIn != 0.0
  {
    var r := GetHydraulicRadius(d);
    (6.0 + 2.45 * lib.pow(omega, 0.7)) * lib.pow(0.0115 / r, 0.214)
  }

  /** Heat-transfer coefficient of the smoke tubes, from the velocity `Wd` and the hydraulic
      radius `rd`. */
  function GetKd(lib: MathLib, Wd: real, rd: real): real
    requires rd != 0.0
  {
    6.0 + 2.45 * lib.pow(Wd, 0.7) * (lib.pow(0.0115 / rd, 0.214))
  }

  /** Heat-transfer coefficient of the flue tubes. */
  function GetKi(lib: MathLib, beta: real, Bh: real, rz2: real, omegaZ2: real, fuel: Fuel): real
    reads fuel
    requires omegaZ2 != 0.0 && rz2 != 0.0
  {
    var x := lib.pow((beta * Bh * fuel.u * fuel.K) / (10000.0 * omegaZ2), 0.7);
    var y := lib.pow(0.0115 / rz2, 0.214);
    6.0 + 0.24 * x * y
  }

  /** The two velocity correlations scale the constant 6 differently: the one by tube
      diameter multiplies it by the geometry factor g = pow(0.0115 / r, 0.214), the smoke
      tube one does not, so they differ by 6 (g - 1) and agree only where g = 1. With a
      non-negative `pow`, GetKd and GetKi are at least 6 and GetKFromVelocity at least 6 g. */
  lemma {:induction false} VelocityCorrelations(lib: MathLib, d: PipeDiameter, omega: real,
                                                beta: real, Bh: real, rz2: real, omegaZ2: real, fuel: Fuel)
    requires d.DIn != 0.0 && omegaZ2 != 0.0 && rz2 != 0.0
    requires PowNonNegative(lib)
    ensures var g := lib.pow(0.0115 / GetHydraulicRadius(d), 0.214);
            GetKFromVelocity(lib, d, omega) - GetKd(lib, omega, GetHydraulicRadius(d)) == 6.0 * (g - 1.0)
    ensures 0.0 <= omega && 0.0 < d.DIn ==> 6.0 <= GetKd(lib, omega, GetHydraulicRadius(d))
    ensures 0.0 <= omega && 0.0 < d.DIn ==>
              6.0 * lib.pow(0.0115 / GetHydraulicRadius(d), 0.214) <= GetKFromVelocity(lib, d, omega)
    ensures 0.0 <= (beta * Bh * fuel.u * fuel.K) / (10000.0 * omegaZ2) && 0.0 < rz2 ==>
              6.0 <= GetKi(lib, beta, Bh, rz2, omegaZ2, fuel)
  {
    var r := GetHydraulicRadius(d);
    var g := lib.pow(0.0115 / r, 0.214);
    var p := lib.pow(omega, 0.7);
    assert GetKFromVelocity(lib, d, omega) == 6.0 * g + 2.45 * p * g;
    assert GetKd(lib, omega, r) == 6.0 + 2.45 * p * g;
    if 0.0 <= omega && 0.0 < d.DIn {
      assert 0.0 < 0.0115 / r;
      assert 0.0 <= p && 0.0 <= g;
      assert 0.0 <= p * g;
    }
    var load := (beta * Bh * fuel.u * fuel.K) / (10000.0 * omegaZ2);
    if 0.0 <= load && 0.0 < rz2 {
      var x := lib.pow(load, 0.7);
      var y := lib.pow(0.0115 / rz2, 0.214);
      assert 0.0 < 0.0115 / rz2;
      assert 0.0 <= x && 0.0 <= y;
      assert 0.0 <= x * y;
    }
  }

  /** The heat taken by the smoke tubes (K_d H_d) from the gas cooling from T2 to T3d over
      water at tk, with fire-box temperature Tk, for the gas share 1 - b. */
  function GetKdHd(lib: MathLib, b: real, M: real, N: real, T2: real, Tk: real, tk: real, T3d: real): real
    requires T3d - tk != 0.0
  {
    (1.0 - b) * ((M + 2.0 * N * tk) * lib.log((T2 - Tk) / (T3d - tk)) + 2.0 * N * (T2 - T3d))
  }

  /** Heat-transfer coefficient from the logarithmic temperature difference over the
      heating surface `Hd`. */
  function GetKFromLmtd(lib: MathLib, heatCoefficient: HeatCoefficient, Hd: real, tk: real, T2: real, T3: real): real
    reads heatCoefficient
    requires T3 - tk != 0.0 && Hd != 0.0
  {
    var a := (heatCoefficient.M + 2.0 * heatCoefficient.N * tk);
    var b := lib.log((T2 - tk) / (T3 - tk));
    var c := 2.0 * heatCoefficient.N * (T2 - T3);
    (a * b + c) / Hd
  }

  /** The coefficient from the temperature difference is the smoke-tube heat per square
      metre when no gas bypasses the tubes and the fire box is at the water temperature;
      no heat is taken when all gas bypasses them; and when `log(1)` is 0, equal inlet and
      outlet temperatures give a coefficient of 0. */
  lemma {:induction false} LmtdCorrelations(lib: MathLib, heatCoefficient: HeatCoefficient, Hd: real, tk: real, T2: real, T3: real)
    requires T3 - tk != 0.0 && Hd != 0.0
    ensures GetKFromLmtd(lib, heatCoefficient, Hd, tk, T2, T3) * Hd
         == GetKdHd(lib, 0.0, heatCoefficient.M, heatCoefficient.N, T2, tk, tk, T3)
    ensures GetKdHd(lib, 1.0, heatCoefficient.M, heatCoefficient.N, T2, tk, tk, T3) == 0.0
    ensures lib.log(1.0) == 0.0 ==> GetKFromLmtd(lib, heatCoefficient, Hd, tk, T3, T3) == 0.0
  {
    assert (T3 - tk) / (T3 - tk) == 1.0;
  }

  // ---------------------------------------------------------------- gas distribution

  /** The flow resistance factor L / (r s^2) of a tube of length `L`, hydraulic radius `r`
      and section `s`. */
  function ResistanceFactor(L: real, r: real, s: real): real
    requires r * s * s != 0.0
  {
    L / (r * s * s)
  }

  /** The share of the gas through the smoke tubes from the smoke-tube factor `a` and the
      flue-tube factors `b` and `c`: (a - sqrt((1.33 b + 0.96 c) a)) / (a - 1.33 b - 0.96 c). */
  function GasShare(lib: MathLib, a: real, b: real, c: real): real
    requires a - 1.33 * b - 0.96 * c != 0.0
  {
    var top := a - lib.sqrt((1.33 * b + 0.96 * c) * a);
    var bottom := (a - 1.33 * b - 0.96 * c);
    top / bottom
  }

  /** Share of the gas that passes through the smoke tubes, against the two groups of flue
      tubes. */
  function GetBeta(lib: MathLib, Ld: real, rd: real, sqrD: real, Lg1: real, rg1: real, sqrG1: real,
                   Lg2: real, rg2: real, sqrG2: real): real
    requires rd * sqrD * sqrD != 0.0 && rg1 * sqrG1 * sqrG1 != 0.0 && rg2 * sqrG2 * sqrG2 != 0.0
    requires ResistanceFactor(Ld, rd, sqrD)
             - 1.33 * ResistanceFactor(Lg1, rg1, sqrG1) - 0.96 * ResistanceFactor(Lg2, rg2, sqrG2) != 0.0
  {
    GasShare(lib, ResistanceFactor(Ld, rd, sqrD), ResistanceFactor(Lg1, rg1, sqrG1), ResistanceFactor(Lg2, rg2, sqrG2))
  }

  /** Cancelling a non-zero factor. */
  lemma {:induction false} Cancel(x: real, y: real, c: real)
    requires c != 0.0 && x * c == y * c
    ensures x == y
  {
    assert (x - y) * c == 0.0;
  }

  /** (a - s) / d with d = a - e and s the root of e a is a / (a + s), which lies in (0, 1]
      and is 1 when e is 0. */
  lemma {:induction false} Rationalise(a: real, e: real, d: real, s: real)
    requires 0.0 < a && d == a - e && d != 0.0 && 0.0 <= s && s * s == e * a
    ensures (a - s) / d == a / (a + s)
    ensures 0.0 < a / (a + s) <= 1.0
    ensures e == 0.0 ==> a / (a + s) == 1.0
  {
    var sum := a + s;
    var beta := a / sum;
    var quotient := (a - s) / d;
    assert beta * sum == a;
    assert quotient * (a - e) == a - s;
    var conj := (a - s) * sum;
    assert conj == a * a - s * s;
    assert conj == a * (a - e);
    assert quotient * (a - e) * sum == conj;
    assert quotient * sum * (a - e) == a * (a - e);
    Cancel(quotient * sum, a, a - e);
    Cancel(quotient, beta, sum);
    QuotientShrinks(a, a, sum);
    if e == 0.0 {
      assert s * s == 0.0;
      assert s == 0.0;
    }
  }

  /** With a positive smoke-tube factor a and a non-negative weighted flue-tube factor
      e = 1.33 b + 0.96 c, the share (a - sqrt(e a)) / (a - e) is a / (a + sqrt(e a)): a
      share in (0, 1], equal to 1 when the flue tubes offer no resistance. */
  lemma {:induction false} GasShareRationalised(lib: MathLib, a: real, b: real, c: real)
    requires SqrtSound(lib)
    requires 0.0 < a && 0.0 <= 1.33 * b + 0.96 * c && a - 1.33 * b - 0.96 * c != 0.0
    ensures GasShare(lib, a, b, c) == a / (a + lib.sqrt((1.33 * b + 0.96 * c) * a))
    ensures 0.0 < GasShare(lib, a, b, c) <= 1.0
    ensures 1.33 * b + 0.96 * c == 0.0 ==> GasShare(lib, a, b, c) == 1.0
  {
    var e := 1.33 * b + 0.96 * c;
    assert 0.0 <= (1.33 * b + 0.96 * c) * a;
    var s := lib.sqrt((1.33 * b + 0.96 * c) * a);
    Rationalise(a, e, a - 1.33 * b - 0.96 * c, s);
  }
}
