/** The heat balance of the boiler: the heat available from the fuel (Q0), the useful heat
    (Q1), the losses (chemical Q2', mechanical Q2'', flue gas Q3, external cooling Q4,
    auxiliaries Q5), the actual combustion temperature T1, the heat passed through the fire
    box (Qt), and the temperatures of a heated wall. Heat is in kcal per hour. */
module HeatBalance {
  import opened Records
  import opened SsMath
  import opened Libm

  // ---------------------------------------------------------------- heat content

  /** The heat content of the flue gas of one hour at temperature `T`: M T + N T^2. This is
      the two-argument Q3, the loss with the flue gas leaving at `T`. */
  function GetQ3(T: real, heatCoefficient: HeatCoefficient): real
    reads heatCoefficient
  {
    heatCoefficient.M * T + heatCoefficient.N * T * T
  }

  /** With non-negative coefficients the heat content vanishes at 0 and grows with the
      temperature above 0, strictly so when M is positive. */
  lemma {:induction false} HeatContentIncreasing(T: real, T': real, heatCoefficient: HeatCoefficient)
    requires 0.0 <= heatCoefficient.M && 0.0 <= heatCoefficient.N
    requires 0.0 <= T <= T'
    ensures GetQ3(0.0, heatCoefficient) == 0.0
    ensures 0.0 <= GetQ3(T, heatCoefficient) <= GetQ3(T', heatCoefficient)
    ensures 0.0 < heatCoefficient.M && T < T' ==> GetQ3(T, heatCoefficient) < GetQ3(T', heatCoefficient)
  {
    var M, N := heatCoefficient.M, heatCoefficient.N;
    var d := T' - T;
    var sq := d * (T' + T);
    assert T' * T' - T * T == sq;
    assert 0.0 <= sq;
    assert 0.0 <= N * sq;
    assert 0.0 <= M * d;
    assert GetQ3(T', heatCoefficient) - GetQ3(T, heatCoefficient) == M * d + N * sq;
    assert 0.0 <= M * T && 0.0 <= N * T * T;
    if 0.0 < M && T < T' {
      assert 0.0 < M * d;
    }
  }

  /** Available heat: the heat value of the fuel burnt in an hour plus the heat content the
      air brings in at the outside temperature `tb`. */
  function GetQ0(Bh: real, tb: real, fuel: Fuel, heatCoefficient: HeatCoefficient): real
    reads fuel, heatCoefficient
  {
    Bh * fuel.K + heatCoefficient.M * tb + heatCoefficient.N * tb * tb
  }

  /** Q0 is the fuel's heat plus the heat content at the outside temperature; in cold air
      at 0 degrees it is the fuel's heat alone, and it never falls below it when the air
      is not colder than 0 and the coefficients are non-negative. */
  lemma AvailableHeat(Bh: real, tb: real, fuel: Fuel, heatCoefficient: HeatCoefficient)
    ensures GetQ0(Bh, tb, fuel, heatCoefficient) == Bh * fuel.K + GetQ3(tb, heatCoefficient)
    ensures GetQ0(Bh, 0.0, fuel, heatCoefficient) == Bh * fuel.K
    ensures 0.0 <= heatCoefficient.M && 0.0 <= heatCoefficient.N && 0.0 <= tb ==>
              Bh * fuel.K <= GetQ0(Bh, tb, fuel, heatCoefficient)
  {
    if 0.0 <= heatCoefficient.M && 0.0 <= heatCoefficient.N && 0.0 <= tb {
      HeatContentIncreasing(tb, tb, heatCoefficient);
    }
  }

  /** Useful heat: the engine's steam `Bt` raised from feed-water temperature `phi` to the
      outlet state `lY`, plus the rest of the output `Bk - Bt` raised to the boiler state `lK`. */
  function GetQ1(Bt: real, Bk: real, lY: real, lK: real, phi: real): real
  {
    Bt * (lY - phi) + (Bk - Bt) * (lK - phi)
  }

  /** Q1 is the whole output raised to the boiler state plus the engine's steam raised
      further to the outlet state; with no superheating it is the whole output at the
      boiler state. */
  lemma UsefulHeat(Bt: real, Bk: real, lY: real, lK: real, phi: real)
    ensures GetQ1(Bt, Bk, lY, lK, phi) == Bk * (lK - phi) + Bt * (lY - lK)
    ensures lY == lK ==> GetQ1(Bt, Bk, lY, lK, phi) == Bk * (lK - phi)
  {
  }

  // ---------------------------------------------------------------- losses

  /** Chemical loss: the heat not released by the carbon that burns only to CO. */
  function GetQ21(BhFact: real, fuel: Fuel): real
    reads fuel
    requires fuel.CO2 + fuel.CO != 0.0
  {
    56.9 * fuel.C * (fuel.CO / (fuel.CO2 + fuel.CO)) * BhFact
  }

  /** There is a chemical loss exactly when CO is present; it is non-negative and at most
      56.9 C BhFact (when all the carbon gas is CO). */
  lemma {:induction false} ChemicalLoss(BhFact: real, fuel: Fuel)
    requires 0.0 <= fuel.CO && 0.0 <= fuel.CO2 && 0.0 < fuel.CO2 + fuel.CO
    requires 0.0 < fuel.C && 0.0 < BhFact
    ensures GetQ21(BhFact, fuel) == 0.0 <==> fuel.CO == 0.0
    ensures 0.0 <= GetQ21(BhFact, fuel) <= 56.9 * fuel.C * BhFact
  {
    var share := fuel.CO / (fuel.CO2 + fuel.CO);
    var whole := 56.9 * fuel.C * BhFact;
    assert GetQ21(BhFact, fuel) == share * whole;
    assert 0.0 < whole;
    assert 0.0 <= share <= 1.0;
    assert share == 0.0 <==> fuel.CO == 0.0;
    assert whole - share * whole == (1.0 - share) * whole;
  }

  /** Mechanical loss: `q22` percent of the available heat. */
  function GetQ22(Q0: real, q22: real): real
  {
    Q0 * q22 / 100.0
  }

  /** Loss by external cooling, as `k` percent of the available heat. */
  function GetQ4(Q0: real, k: real): real
  {
    Q0 * k / 100.0
  }

  /** Loss to the auxiliaries: 3.5 % of the available heat. */
  function GetQ5(Q0: real): real
  {
    Q0 * 0.035
  }

  /** The percentage losses are one formula: Q2'' and Q4 agree, Q5 is Q4 at 3.5 %, 100 %
      is all of Q0 and 0 % is nothing, 36 % of 1000 is 360, and for a positive Q0 each
      grows strictly with its percentage. */
  lemma {:induction false} PercentageLosses(Q0: real, p: real, p': real)
    ensures GetQ22(Q0, p) == GetQ4(Q0, p)
    ensures GetQ5(Q0) == GetQ4(Q0, 3.5)
    ensures GetQ22(Q0, 100.0) == Q0 && GetQ22(Q0, 0.0) == 0.0
    ensures GetQ22(1000.0, 36.0) == 360.0
    ensures 0.0 < Q0 && p < p' ==> GetQ22(Q0, p) < GetQ22(Q0, p') && GetQ4(Q0, p) < GetQ4(Q0, p')
  {
    if 0.0 < Q0 && p < p' {
      assert GetQ22(Q0, p') - GetQ22(Q0, p) == Q0 * (p' - p) / 100.0;
      assert 0.0 < Q0 * (p' - p);
    }
  }

  /** The five-argument Q3: the flue gas loss as a share of Q0 scaled by M / K. */
  function GetQ3Scaled(Bh: real, Q0: real, T3: real, fuel: Fuel, heatCoefficient: HeatCoefficient): real
    reads fuel, heatCoefficient
    requires fuel.K != 0.0
  {
    var q3 := heatCoefficient.M / fuel.K * (heatCoefficient.M * T3 + heatCoefficient.N * T3 * T3) * 100.0;
    Q0 * q3
  }

  /** The five-argument Q3 is the two-argument heat content times 100 Q0 M / K. */
  lemma {:induction false} ScaledFlueLoss(Bh: real, Q0: real, T3: real, fuel: Fuel, heatCoefficient: HeatCoefficient)
    requires fuel.K != 0.0
    ensures GetQ3Scaled(Bh, Q0, T3, fuel, heatCoefficient) * fuel.K
         == 100.0 * Q0 * heatCoefficient.M * GetQ3(T3, heatCoefficient)
  {
    var ratio := heatCoefficient.M / fuel.K;
    var content := GetQ3(T3, heatCoefficient);
    assert ratio * fuel.K == heatCoefficient.M;
    assert GetQ3Scaled(Bh, Q0, T3, fuel, heatCoefficient) == Q0 * (ratio * content * 100.0);
    assert Q0 * (ratio * content * 100.0) * fuel.K == 100.0 * Q0 * content * (ratio * fuel.K);
  }

  /** External cooling of a boiler of outer surface `H0` moving at `V` km/h, with insulation
      quality `phi`, between the boiler temperature `tk` and the air `tb`. */
  function GetQ4Physical(lib: MathLib, phi: real, H0: real, V: real, tb: real, tk: real): real
  {
    phi * H0 * (2.2 + 0.21 * lib.pow(V, 0.7)) * lib.pow(tk - tb, 4.0 / 3.0)
  }

  /** When `pow(0, 0.7)` is 0, a standing boiler loses 2.2 phi H0 (tk - tb)^(4/3); and when
      `pow` gives non-negative values, motion only adds to the loss of a boiler with
      non-negative insulation factor and surface. */
  lemma {:induction false} CoolingAtStandstill(lib: MathLib, phi: real, H0: real, V: real, tb: real, tk: real)
    requires PowNonNegative(lib)
    ensures lib.pow(0.0, 0.7) == 0.0 ==>
              GetQ4Physical(lib, phi, H0, 0.0, tb, tk) == 2.2 * phi * H0 * lib.pow(tk - tb, 4.0 / 3.0)
    ensures 0.0 <= phi && 0.0 <= H0 && 0.0 <= V && tb <= tk ==>
              2.2 * phi * H0 * lib.pow(tk - tb, 4.0 / 3.0) <= GetQ4Physical(lib, phi, H0, V, tb, tk)
  {
    if 0.0 <= phi && 0.0 <= H0 && 0.0 <= V && tb <= tk {
      var w := lib.pow(tk - tb, 4.0 / 3.0);
      var extra := 0.21 * lib.pow(V, 0.7);
      var ph := phi * H0;
      assert 0.0 <= w && 0.0 <= extra && 0.0 <= ph;
      var pw := ph * w;
      assert 0.0 <= pw;
      assert GetQ4Physical(lib, phi, H0, V, tb, tk) == 2.2 * pw + extra * pw;
      assert 0.0 <= extra * pw;
    }
  }

  // ---------------------------------------------------------------- temperatures

  /** The heat that goes into the flue gas: the available heat less the chemical and
      mechanical losses, of which 84 % heats the gas. */
  function GasHeat(Q0: real, Q21: real, Q22: real): real
  {
    (Q0 - (Q21 + Q22)) / 0.84
  }

  /** Actual combustion temperature: the temperature at which the flue gas holds the heat
      released, `N T^2 + M T = (Q0 - Q21 - Q22) / 0.84`, solved by the quadratic solver. */
  function GetT1(lib: MathLib, Q0: real, Q21: real, Q22: real, Bh: real, fuel: Fuel, heatCoefficient: HeatCoefficient): (T1: real)
    reads heatCoefficient
    requires heatCoefficient.N != 0.0 && SqrtSound(lib)
    ensures Discriminant(heatCoefficient.N, heatCoefficient.M, -GasHeat(Q0, Q21, Q22)) < 0.0 ==> T1 == -1.0
    ensures 0.0 <= Discriminant(heatCoefficient.N, heatCoefficient.M, -GasHeat(Q0, Q21, Q22)) ==>
              GetQ3(T1, heatCoefficient) == GasHeat(Q0, Q21, Q22)
  {
    var Q := (Q0 - (Q21 + Q22)) / 0.84;
    SolveQuadratic(lib, heatCoefficient.N, heatCoefficient.M, -Q)
  }

  /** When some heat is left after the losses and N is positive, the combustion temperature
      exists, is positive, and the flue gas at T1 holds 1 / 0.84 of that heat. */
  lemma {:induction false} CombustionTemperaturePositive(lib: MathLib, Q0: real, Q21: real, Q22: real, Bh: real,
                                                         fuel: Fuel, heatCoefficient: HeatCoefficient)
    requires 0.0 < heatCoefficient.N && SqrtSound(lib)
    requires Q21 + Q22 < Q0
    ensures 0.0 < GetT1(lib, Q0, Q21, Q22, Bh, fuel, heatCoefficient)
    ensures GetQ3(GetT1(lib, Q0, Q21, Q22, Bh, fuel, heatCoefficient), heatCoefficient) * 0.84 == Q0 - Q21 - Q22
  {
    var M, N := heatCoefficient.M, heatCoefficient.N;
    var Q := GasHeat(Q0, Q21, Q22);
    assert 0.0 < Q;
    var D := Discriminant(N, M, -Q);
    var nq := N * Q;
    assert 0.0 < nq;
    assert D == M * M + 4.0 * nq;
    var s := lib.sqrt(D);
    assert 0.0 <= s && s * s == D;
    assert M < s;
    RootFormula(N, M, -Q, s);
    var r := (-M + s) / (2.0 * N);
    assert 0.0 < r;
    var T1 := GetT1(lib, Q0, Q21, Q22, Bh, fuel, heatCoefficient);
    assert r <= T1;
  }

  /** Heat passed into the boiler through the fire box: what is left of Q0 after the
      chemical and mechanical losses and the heat the gas still holds at T2. */
  function GetQt(Q0: real, Q21: real, Q22: real, T2: real, heatCoefficient: HeatCoefficient): (Qt: real)
    reads heatCoefficient
    ensures Qt == Q0 - Q21 - Q22 - GetQ3(T2, heatCoefficient)
  {
    Q0 - Q21 - Q22 - (heatCoefficient.M * T2 + heatCoefficient.N * T2 * T2)
  }

  /** In terms of the combustion temperature, Qt is 84 % of the heat content at T1 less the
      heat content at T2; it is positive exactly when the gas cools from T1 to T2 by more
      than 16 % of its content at T1. */
  lemma {:induction false} FireBoxHeat(lib: MathLib, Q0: real, Q21: real, Q22: real, T2: real, Bh: real,
                                       fuel: Fuel, heatCoefficient: HeatCoefficient)
    requires 0.0 < heatCoefficient.N && SqrtSound(lib)
    requires Q21 + Q22 < Q0
    ensures var T1 := GetT1(lib, Q0, Q21, Q22, Bh, fuel, heatCoefficient);
            GetQt(Q0, Q21, Q22, T2, heatCoefficient) == 0.84 * GetQ3(T1, heatCoefficient) - GetQ3(T2, heatCoefficient)
    ensures var T1 := GetT1(lib, Q0, Q21, Q22, Bh, fuel, heatCoefficient);
            0.0 < GetQt(Q0, Q21, Q22, T2, heatCoefficient) <==> GetQ3(T2, heatCoefficient) < 0.84 * GetQ3(T1, heatCoefficient)
  {
    CombustionTemperaturePositive(lib, Q0, Q21, Q22, Bh, fuel, heatCoefficient);
  }

  // ---------------------------------------------------------------- walls

  /** Converts calories per hour to watts: one calorie is about 4.18 J, so one cal/h is
      0.001162 W. The heat flows elsewhere in this model are numerically kcal per hour
      (Q0 = Bh K with K in kcal/kg), so a kcal/h figure must be multiplied by 1000 before it
      is given to this converter. */
  function ConvertCalHourToWatts(calhour: real): (watts: real)
    ensures watts * 3600.0 == calhour * 4.1832
  {
    calhour * 0.001162
  }

  /** The conversion is linear: 1000 cal/h (1 kcal/h) are 1.162 W, sums and multiples
      convert term by term, and it keeps the order of heat flows. */
  lemma {:induction false} CalHourToWattsLinear(x: real, y: real, k: real)
    ensures ConvertCalHourToWatts(1000.0) == 1.162
    ensures ConvertCalHourToWatts(x + y) == ConvertCalHourToWatts(x) + ConvertCalHourToWatts(y)
    ensures ConvertCalHourToWatts(k * x) == k * ConvertCalHourToWatts(x)
    ensures x <= y ==> ConvertCalHourToWatts(x) <= ConvertCalHourToWatts(y)
  {
    assert ConvertCalHourToWatts(k * x) == k * (x * 0.001162);
  }

  /** Heat passing from gas at `T` to a wall at `t` through `dH` square metres in `h` hours
      with transfer coefficient `k`. */
  function GetQGasToWall(h: real, dH: real, T: real, t: real, k: real): real
  {
    k * h * dH * (T - t)
  }

  /** Heat flows from the hotter side: none when the temperatures are equal, swapping them
      reverses the flow, and with positive coefficient, time and area the flow is positive
      exactly when the gas is hotter. */
  lemma {:induction false} HeatFlowsFromHotToCold(h: real, dH: real, T: real, t: real, k: real)
    ensures GetQGasToWall(h, dH, T, T, k) == 0.0
    ensures GetQGasToWall(h, dH, t, T, k) == -GetQGasToWall(h, dH, T, t, k)
    ensures 0.0 < k && 0.0 < h && 0.0 < dH ==> (0.0 < GetQGasToWall(h, dH, T, t, k) <==> t < T)
  {
    var c := k * h * dH;
    assert GetQGasToWall(h, dH, t, T, k) == c * (t - T);
    if 0.0 < k && 0.0 < h && 0.0 < dH {
      assert 0.0 < c;
      if t < T {
        assert 0.0 < c * (T - t);
      } else {
        assert c * (T - t) <= 0.0;
      }
    }
  }

  /** The thermal resistance between gas and water per square metre: gas film (1/150),
      water film (1/2000), 10 mm of steel (0.01/50), the scale layer `betaN` (conductivity 2)
      and the soot layer `betaS` (conductivity 0.1). */
  function WallResistance(betaN: real, betaS: real): real
  {
    1.0 / 150.0 + 1.0 / 2000.0 + 0.01 / 50.0 + betaN / 2.0 + betaS / 0.1
  }

  /** Temperature of the wall on its water side. */
  function GetTOfWallOnWaterSide(T: real, t: real, betaN: real, betaS: real): real
    requires WallResistance(betaN, betaS) != 0.0
  {
    var QhH := 1.0 / (1.0 / 150.0 + 1.0 / 2000.0 + 0.01 / 50.0 + betaN / 2.0 + betaS / 0.1) * (T - t);
    t + QhH / 2000.0
  }

  /** Temperature of the wall on its gas side. */
  function GetTOfWallOnGasSide(T: real, t: real, betaN: real, betaS: real): real
    requires WallResistance(betaN, betaS) != 0.0
  {
    var QhH := 1.0 / ((1.0 / 150.0 + 1.0 / 2000.0) + 0.01 / 50.0 + betaN / 2.0 + betaS / 0.1) * (T - t);
    T - QhH / 150.0
  }

  /** For gas at `T` over water at `t <= T` and non-negative deposits, the wall lies between
      the two and its gas side is the hotter: t <= water side <= gas side <= T. The drop
      across the wall is the flux times the resistance of steel, scale and soot; with equal
      temperatures nothing flows and both sides are at that temperature. */
  lemma {:induction false} WallTemperaturesOrdered(T: real, t: real, betaN: real, betaS: real)
    requires 0.0 <= betaN && 0.0 <= betaS && t <= T
    ensures t <= GetTOfWallOnWaterSide(T, t, betaN, betaS)
    ensures GetTOfWallOnWaterSide(T, t, betaN, betaS) <= GetTOfWallOnGasSide(T, t, betaN, betaS)
    ensures GetTOfWallOnGasSide(T, t, betaN, betaS) <= T
    ensures GetTOfWallOnGasSide(T, t, betaN, betaS) - GetTOfWallOnWaterSide(T, t, betaN, betaS)
         == (T - t) / WallResistance(betaN, betaS) * (0.01 / 50.0 + betaN / 2.0 + betaS / 0.1)
    ensures T == t ==> GetTOfWallOnWaterSide(T, t, betaN, betaS) == t == GetTOfWallOnGasSide(T, t, betaN, betaS)
  {
    var R := WallResistance(betaN, betaS);
    var layers := 0.01 / 50.0 + betaN / 2.0 + betaS / 0.1;
    assert R == 1.0 / 150.0 + 1.0 / 2000.0 + layers;
    assert 0.0 < layers;
    var q := (T - t) / R;
    assert 0.0 <= q;
    assert GetTOfWallOnWaterSide(T, t, betaN, betaS) == t + q / 2000.0;
    assert GetTOfWallOnGasSide(T, t, betaN, betaS) == T - q / 150.0;
    assert q * R == T - t;
    assert T - q / 150.0 - (t + q / 2000.0) == q * layers;
    assert 0.0 <= q * layers;
  }

  /** Useful steam output per square metre of evaporating surface. The procedure carries no
      formula yet and returns 0. */
  function GetZt(): real
  {
    0.0
  }

  /** Height of the steam space above the water in a drum of inner diameter `Dc`. */
  function GetH(Dc: real): (h: real)
    ensures h * 4.3 == Dc
    ensures 0.0 < Dc ==> 0.0 < h < Dc
  {
    (1.0 / 4.3) * Dc
  }
}
