/** The reference calculation: the fire box, tubes, fuel and losses of one locomotive boiler,
    run through the formulas in the order the report takes them. The report's printing is
    not modelled; the method returns the quantities it prints. */
module Scenario {
  import opened Records
  import opened Units
  import opened SsMath
  import opened Libm
  import opened Furnace
  import opened Combustion
  import opened HeatBalance
  import opened GasPath

  /** Grate loading, air temperature and mechanical loss in percent of the reference boiler. */
  const U: real := 550.0
  const AIR_TEMPERATURE: real := 0.0
  const MECHANICAL_LOSS: real := 36.0

  /** Runs the reference calculation. The grate area, heating surface, fuel consumption,
      chemical characteristic, air demand, available heat and mechanical loss take their
      exact values; the heat-content coefficients are positive; and the combustion
      temperature is positive and the flue gas at that temperature holds the heat left
      after the losses, over 0.84. */
  method Calculate(lib: MathLib) returns (R: real, Ht: real, Hd: real, Bh: real, BhFact: real,
                                          beta0: real, L0: real, Q0: real, Q21: real, Q22: real,
                                          heatCoefficient: HeatCoefficient, T1: real)
    requires SqrtSound(lib)
    ensures R == 2.341784 && Ht == 15.120026
    ensures Hd == PI * 0.051 * 210.0 * 4.55
    ensures Bh == 1287.9812 && BhFact == 824.307968
    ensures beta0 == 0.0803578125 && L0 == 1777.0 / 177.0
    ensures Q0 == 9277328.5836 && Q22 == 3339838.290096
    ensures 0.0 < heatCoefficient.M && 0.0 < heatCoefficient.N
    ensures 0.0 < T1 && GetQ3(T1, heatCoefficient) * 0.84 == Q0 - Q21 - Q22
  {
    var fireChamber := new FireChamber();
    fireChamber.TopLengh := MillimeterToMeter(2222.0);
    fireChamber.BottomLength := MillimeterToMeter(2278.0);
    fireChamber.TopWidth := MillimeterToMeter(1333.0);
    fireChamber.BottomWidth := MillimeterToMeter(1028.0);
    fireChamber.FrontHeight := MillimeterToMeter(1815.0);
    fireChamber.RearHeight := MillimeterToMeter(1605.0);
    fireChamber.U := U;
    assert fireChamber.TopLengh == 2.222 && fireChamber.BottomLength == 2.278;
    assert fireChamber.TopWidth == 1.333 && fireChamber.BottomWidth == 1.028;
    assert fireChamber.FrontHeight == 1.815 && fireChamber.RearHeight == 1.605;
    CalculateFireChamber(fireChamber);
    R, Ht := fireChamber.R, fireChamber.Ht;
    assert R == 2.341784;
    assert Ht == 15.120026;

    var dd := PipeDiameter(MillimeterToMeter(51.0), MillimeterToMeter(46.0));
    var Ld := MillimeterToMeter(4550.0);
    assert dd.DOut == 0.051 && Ld == 4.55;
    var nd := 210;
    Hd := GetHPipes(dd, nd, Ld);

    var fuel := new Fuel();
    CalculateFuel(fuel);
    beta0 := fuel.beta0;
    ReferenceCoal(fuel);
    L0 := GetL0(fuel);

    Bh := GetBh(fireChamber);
    assert Bh == 1287.9812;
    BhFact := GetBhFact(fireChamber, MECHANICAL_LOSS, fuel);
    assert fuel.u == 0.64;
    assert BhFact == 824.307968;

    heatCoefficient := new HeatCoefficient();
    HeatCapacityPositive(fuel);
    GetHeatCoefficient(heatCoefficient, fuel, BhFact);

    Q0 := GetQ0(Bh, AIR_TEMPERATURE, fuel, heatCoefficient);
    assert Q0 == 9277328.5836;
    Q21 := GetQ21(BhFact, fuel);
    Q22 := GetQ22(Q0, MECHANICAL_LOSS);
    assert Q22 == 3339838.290096;
    ChemicalLoss(BhFact, fuel);
    assert Q21 <= 3752249.870336 by {
      assert 56.9 * fuel.C * BhFact == 3752249.870336;
    }
    assert Q21 + Q22 < Q0;
    CoefficientsScaleWithFuel(BhFact, 0.0, fuel);
    CombustionTemperaturePositive(lib, Q0, Q21, Q22, BhFact, fuel, heatCoefficient);
    T1 := GetT1(lib, Q0, Q21, Q22, BhFact, fuel, heatCoefficient);
  }
}
