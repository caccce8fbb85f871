/** Combustion of the fuel: the empirical fits against the excess-air ratio, the excess-air
    ratio and chemical characteristic of the fuel, the flue gas composition, the heat
    content coefficients M and N, and the air needed per kilogram of fuel. The procedures
    that fill fields of a `Fuel` or `HeatCoefficient` in place are methods, each specified
    by the formula of the same meaning and touching only its own field. */
module Combustion {
  import opened Records
  import opened SsMath

  // ---------------------------------------------------------------- empirical fits

  /** CO2 content of the flue gas, interpolated from 18.35 % at alpha = 1 to 9.48 % at 2. */
  function GetCO2Fit(a: real): real
  {
    Map(a, 1.0, 2.0, 18.35, 9.48)
  }

  /** O2 content of the flue gas, interpolated from 2 % at alpha = 1 to 9.3 % at 1.7. */
  function GetO2Fit(a: real): real
  {
    Map(a, 1.0, 1.7, 2.0, 9.3)
  }

  /** Theoretical combustion temperature, interpolated from 2148 at alpha = 1 to 1304 at 2. */
  function GetT0(a: real): real
  {
    Map(a, 1.0, 2.0, 2148.0, 1304.0)
  }

  /** The fits pass through their tabulated points. */
  lemma FitAnchors()
    ensures GetCO2Fit(1.0) == 18.35 && GetCO2Fit(2.0) == 9.48
    ensures GetO2Fit(1.0) == 2.0 && GetO2Fit(1.7) == 9.3
    ensures GetT0(1.0) == 2148.0 && GetT0(2.0) == 1304.0
  {
    MapHitsAnchors(1.0, 2.0, 18.35, 9.48);
    MapHitsAnchors(1.0, 1.7, 2.0, 9.3);
    MapHitsAnchors(1.0, 2.0, 2148.0, 1304.0);
  }

  /** More excess air dilutes the CO2 and cools the flame, and leaves more free O2. */
  lemma {:induction false} FitsMonotone(a: real, b: real)
    requires a <= b
    ensures GetCO2Fit(b) <= GetCO2Fit(a)
    ensures GetO2Fit(a) <= GetO2Fit(b)
    ensures GetT0(b) <= GetT0(a)
  {
    MapMonotone(a, b, 1.0, 2.0, 18.35, 9.48);
    MapMonotone(a, b, 1.0, 1.7, 2.0, 9.3);
    MapMonotone(a, b, 1.0, 2.0, 2148.0, 1304.0);
  }

  // ---------------------------------------------------------------- excess air, beta0

  /** The excess-air ratio from the free O2 and the N2 of the flue gas. */
  function ExcessAir(O2: real, N2: real): (alpha: real)
    requires N2 != 0.0 && 1.0 - 3.76 * (O2 / N2) != 0.0
    ensures alpha * (1.0 - 3.76 * (O2 / N2)) == 1.0
  {
    1.0 / (1.0 - 3.76 * (O2 / N2))
  }

  /** Without free oxygen the combustion is stoichiometric (alpha = 1); with some, alpha
      exceeds 1; and alpha * (N2 - 3.76 O2) = N2 in every case. */
  lemma ExcessAirProperties(O2: real, N2: real)
    requires N2 != 0.0 && 1.0 - 3.76 * (O2 / N2) != 0.0
    ensures ExcessAir(O2, N2) * (N2 - 3.76 * O2) == N2
    ensures O2 == 0.0 ==> ExcessAir(O2, N2) == 1.0
    ensures 0.0 < O2 && 3.76 * O2 < N2 ==> 1.0 < ExcessAir(O2, N2)
  {
    var alpha := ExcessAir(O2, N2);
    var f := 1.0 - 3.76 * (O2 / N2);
    assert N2 * f == N2 - 3.76 * O2;
    assert alpha * (N2 * f) == N2 * (alpha * f);
    if 0.0 < O2 && 3.76 * O2 < N2 {
      assert 0.0 < f < 1.0;
    }
  }

  /** Sets the excess-air ratio from the flue gas O2 and N2. */
  method GetAlpha(fuel: Fuel)
    requires fuel.N2 != 0.0 && 1.0 - 3.76 * (fuel.O2 / fuel.N2) != 0.0
    modifies fuel`alpha
    ensures fuel.alpha == ExcessAir(fuel.O2, fuel.N2)
  {
    fuel.alpha := 1.0 / (1.0 - 3.76 * (fuel.O2 / fuel.N2));
  }

  /** The chemical characteristic of a fuel, from its hydrogen, oxygen and carbon. */
  function ChemicalCharacteristic(H: real, O: real, C: real): (beta0: real)
    requires C != 0.0
    ensures beta0 * C == 2.37 * (H - O / 8.0)
    ensures 0.0 < C ==> (0.0 < beta0 <==> O < 8.0 * H)
  {
    2.37 * ((H - O / 8.0) / C)
  }

  /** Sets the chemical characteristic from the elementary analysis. */
  method GetBeta0(fuel: Fuel)
    requires fuel.C != 0.0
    modifies fuel`beta0
    ensures fuel.beta0 == ChemicalCharacteristic(fuel.H, fuel.O, fuel.C)
  {
    fuel.beta0 := (2.37 * ((fuel.H - fuel.O / 8.0) / fuel.C));
  }

  // ---------------------------------------------------------------- flue gas

  /** The CO content that makes Ostwald's combustion equation hold for the given CO2 and O2. */
  function OstwaldCO(beta0: real, CO2: real, O2: real): (CO: real)
    requires 0.605 + beta0 != 0.0
    ensures (0.605 + beta0) * CO == 21.0 - beta0 * CO2 - (CO2 + O2)
    ensures CO == 0.0 <==> (1.0 + beta0) * CO2 + O2 == 21.0
  {
    (21.0 - beta0 * CO2 - (CO2 + O2)) / (0.605 + beta0)
  }

  /** Sets CO from beta0, CO2 and O2 by Ostwald's equation. */
  method GetCO(fuel: Fuel)
    requires 0.605 + fuel.beta0 != 0.0
    modifies fuel`CO
    ensures fuel.CO == OstwaldCO(fuel.beta0, fuel.CO2, fuel.O2)
  {
    var top := 21.0 - fuel.beta0 * fuel.CO2 - (fuel.CO2 + fuel.O2);
    var bottom := 0.605 + fuel.beta0;
    fuel.CO := top / bottom;
  }

  /** The common denominator of the complete-combustion CO2 and O2 contents. */
  function FlueDenominator(alpha: real, beta0: real): real
  {
    (1.0 + beta0) * (4.76 * alpha - 1.0) - (alpha - 1.0)
  }

  /** CO2 content of the flue gas of complete combustion. */
  function FlueCO2(alpha: real, beta0: real): (CO2: real)
    requires FlueDenominator(alpha, beta0) != 0.0
    ensures CO2 * FlueDenominator(alpha, beta0) == 79.0
  {
    79.0 / FlueDenominator(alpha, beta0)
  }

  /** O2 content of the flue gas of complete combustion. */
  function FlueO2(alpha: real, beta0: real): (O2: real)
    requires FlueDenominator(alpha, beta0) != 0.0
    ensures O2 * FlueDenominator(alpha, beta0) == (79.0 + 100.0 * beta0) * (alpha - 1.0)
  {
    (79.0 + 100.0 * beta0) * (alpha - 1.0) / FlueDenominator(alpha, beta0)
  }

  /** Sets CO2 from alpha and beta0. */
  method GetCO2(fuel: Fuel)
    requires FlueDenominator(fuel.alpha, fuel.beta0) != 0.0
    modifies fuel`CO2
    ensures fuel.CO2 == FlueCO2(fuel.alpha, fuel.beta0)
  {
    fuel.CO2 := (79.0 / ((1.0 + fuel.beta0) * (4.76 * fuel.alpha - 1.0) - (fuel.alpha - 1.0)));
  }

  /** Sets O2 from alpha and beta0. */
  method GetO2(fuel: Fuel)
    requires FlueDenominator(fuel.alpha, fuel.beta0) != 0.0
    modifies fuel`O2
    ensures fuel.O2 == FlueO2(fuel.alpha, fuel.beta0)
  {
    var top := (79.0 + 100.0 * fuel.beta0) * (fuel.alpha - 1.0);
    var bottom := (1.0 + fuel.beta0) * (4.76 * fuel.alpha - 1.0) - (fuel.alpha - 1.0);
    fuel.O2 := top / bottom;
  }

  /** Sets N2 to the rest of the flue gas, so that CO2, O2 and N2 add up to 100 %. */
  method GetN2(fuel: Fuel)
    modifies fuel`N2
    ensures fuel.CO2 + fuel.O2 + fuel.N2 == 100.0
  {
    fuel.N2 := 100.0 - (fuel.CO2 + fuel.O2);
  }

  /** With the stoichiometric amount of air (alpha = 1) the flue gas holds no free oxygen,
      and CO2 * 3.76 * (1 + beta0) = 79. */
  lemma StoichiometricFlue(beta0: real)
    requires 1.0 + beta0 != 0.0
    ensures FlueDenominator(1.0, beta0) == 3.76 * (1.0 + beta0)
    ensures FlueO2(1.0, beta0) == 0.0
    ensures FlueCO2(1.0, beta0) * (3.76 * (1.0 + beta0)) == 79.0
  {
  }

  /** The complete-combustion CO2 and O2 satisfy Ostwald's equation only up to a residue:
      21 - beta0 CO2 - (CO2 + O2) = -0.04 alpha (1 + beta0) / D, where 0.04 = 100 - 21 * 4.76.
      So GetCO, given these contents, reports a small negative CO instead of none. */
  lemma {:induction false} FlueCompositionResidue(alpha: real, beta0: real)
    requires FlueDenominator(alpha, beta0) != 0.0
    ensures var D := FlueDenominator(alpha, beta0);
            21.0 - beta0 * FlueCO2(alpha, beta0) - (FlueCO2(alpha, beta0) + FlueO2(alpha, beta0))
            == -0.04 * alpha * (1.0 + beta0) / D
  {
    var D := FlueDenominator(alpha, beta0);
    var co2, o2 := FlueCO2(alpha, beta0), FlueO2(alpha, beta0);
    var lhs := 21.0 - beta0 * co2 - (co2 + o2);
    assert lhs * D == 21.0 * D - (1.0 + beta0) * (co2 * D) - o2 * D;
    assert lhs * D == -0.04 * alpha * (1.0 + beta0);
  }

  // ---------------------------------------------------------------- heat coefficients

  /** The linear heat-capacity term Gb * c of the flue gas per kilogram of fuel. */
  function LinearHeatCapacity(fuel: Fuel): real
    reads fuel
    requires fuel.CO2 + fuel.CO != 0.0
  {
    0.55 * (fuel.C / (fuel.CO2 + fuel.CO)) + 0.0021 * fuel.C + 0.0406 * fuel.H + 0.0045 * fuel.W
  }

  /** The quadratic heat-capacity term Gb * b of the flue gas per kilogram of fuel. */
  function QuadraticHeatCapacity(fuel: Fuel): real
    reads fuel
    requires fuel.CO2 + fuel.CO != 0.0
  {
    0.0000445 * (fuel.C / (fuel.CO2 + fuel.CO)) + 0.0000012 * fuel.C + 0.0000044 * fuel.H + 0.0000005 * fuel.W
  }

  function GetM(Bh: real, fuel: Fuel): real
    reads fuel
    requires fuel.CO2 + fuel.CO != 0.0
  {
    LinearHeatCapacity(fuel) * Bh
  }

  function GetN(Bh: real, fuel: Fuel): real
    reads fuel
    requires fuel.CO2 + fuel.CO != 0.0
  {
    QuadraticHeatCapacity(fuel) * Bh
  }

  /** A fuel with carbon, non-negative hydrogen and moisture, and a positive CO2 + CO gives
      positive per-kilogram coefficients. */
  lemma HeatCapacityPositive(fuel: Fuel)
    requires 0.0 < fuel.C && 0.0 <= fuel.H && 0.0 <= fuel.W && 0.0 < fuel.CO2 + fuel.CO
    ensures 0.0 < LinearHeatCapacity(fuel) && 0.0 < QuadraticHeatCapacity(fuel)
  {
    assert 0.0 < fuel.C / (fuel.CO2 + fuel.CO);
  }

  /** M and N are proportional to the hourly fuel: additive in it, and positive for a
      positive consumption of a physical fuel. */
  lemma {:induction false} CoefficientsScaleWithFuel(b1: real, b2: real, fuel: Fuel)
    requires 0.0 < fuel.C && 0.0 <= fuel.H && 0.0 <= fuel.W && 0.0 < fuel.CO2 + fuel.CO
    ensures GetM(b1 + b2, fuel) == GetM(b1, fuel) + GetM(b2, fuel)
    ensures GetN(b1 + b2, fuel) == GetN(b1, fuel) + GetN(b2, fuel)
    ensures 0.0 < b1 ==> 0.0 < GetM(b1, fuel) && 0.0 < GetN(b1, fuel)
  {
    HeatCapacityPositive(fuel);
  }

  /** Sets M and N for the hourly fuel `Bh`. */
  method GetHeatCoefficient(heatCoefficient: HeatCoefficient, fuel: Fuel, Bh: real)
    requires fuel.CO2 + fuel.CO != 0.0
    modifies heatCoefficient`M, heatCoefficient`N
    ensures heatCoefficient.M == GetM(Bh, fuel) && heatCoefficient.N == GetN(Bh, fuel)
  {
    heatCoefficient.M := GetM(Bh, fuel);
    heatCoefficient.N := GetN(Bh, fuel);
  }

  // ---------------------------------------------------------------- air

  /** Theoretical air per kilogram of fuel: the oxygen to burn its carbon (8/3 C), hydrogen
      (8 H) and sulphur (S), less its own oxygen, over the 23.6 % of oxygen in air. */
  function GetL0(fuel: Fuel): (L0: real)
    reads fuel
    ensures L0 * 23.6 == 8.0 / 3.0 * fuel.C + 8.0 * fuel.H + fuel.S - fuel.O
  {
    1.0 / 23.6 * (8.0 / 3.0 * fuel.C + 8.0 * fuel.H + fuel.S - fuel.O)
  }

  /** Actual air per kilogram of fuel. */
  function GetLv(L0: real, fuel: Fuel): (Lv: real)
    reads fuel
    ensures 1.0 <= fuel.alpha && 0.0 <= L0 ==> L0 <= Lv
    ensures fuel.alpha == 1.0 ==> Lv == L0
  {
    var excess := fuel.alpha - 1.0;
    assert 1.0 <= fuel.alpha && 0.0 <= L0 ==> 0.0 <= L0 * excess;
    L0 * fuel.alpha
  }

  // ---------------------------------------------------------------- fixture

  /** Fills the fuel with a reference coal and its measured flue gas, then derives beta0. */
  method CalculateFuel(fuel: Fuel)
    modifies fuel`C, fuel`H, fuel`S, fuel`O, fuel`N, fuel`W, fuel`A, fuel`K
    modifies fuel`alpha, fuel`O2, fuel`N2, fuel`CO, fuel`CO2, fuel`beta0
    ensures fuel.C == 80.0 && fuel.H == 3.1 && fuel.S == 1.9 && fuel.O == 3.1
    ensures fuel.N == 1.1 && fuel.W == 3.1 && fuel.A == 7.6 && fuel.K == 7203.0
    ensures fuel.alpha == 1.35
    ensures fuel.O2 == 6.2 && fuel.N2 == 79.6 && fuel.CO == 1.5 && fuel.CO2 == 12.7
    ensures fuel.beta0 == ChemicalCharacteristic(fuel.H, fuel.O, fuel.C) == 0.0803578125
    ensures fuel.u == old(fuel.u)
  {
    fuel.C := 80.0;
    fuel.H := 3.1;
    fuel.S := 1.9;
    fuel.O := 3.1;
    fuel.N := 1.1;
    fuel.W := 3.1;
    fuel.A := 7.6;
    fuel.K := 7203.0;

    fuel.alpha := 1.35;

    fuel.O2 := 6.2;
    fuel.N2 := 79.6;
    fuel.CO := 1.5;
    fuel.CO2 := 12.7;

    GetBeta0(fuel);
  }

  /** The reference coal: its measured flue gas adds up to 100 % with CO included, it
      needs 1777/177 kg of air per kg, and its measured O2 and N2 give an excess-air ratio
      of 79.6 / 56.288, not the 1.35 the fixture stores. */
  lemma ReferenceCoal(fuel: Fuel)
    requires fuel.C == 80.0 && fuel.H == 3.1 && fuel.S == 1.9 && fuel.O == 3.1
    requires fuel.O2 == 6.2 && fuel.N2 == 79.6 && fuel.CO == 1.5 && fuel.CO2 == 12.7
    ensures fuel.CO2 + fuel.CO + fuel.O2 + fuel.N2 == 100.0
    ensures GetL0(fuel) == 1777.0 / 177.0
    ensures ExcessAir(fuel.O2, fuel.N2) == 79.6 / 56.288
  {
    assert 1.0 - 3.76 * (6.2 / 79.6) == 56.288 / 79.6;
  }
}
