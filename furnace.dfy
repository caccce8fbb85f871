/** The fire box: grate forcing, hourly fuel consumption, and the grate area and heating
    surface computed from the fire box dimensions. */
module Furnace {
  import opened Records

  /** Grate forcing: kilograms of fuel per square metre of grate per hour. */
  function GetGridForcing(massInKgHour: real, square: real): (forcing: real)
    requires square != 0.0
    ensures forcing * square == massInKgHour
  {
    massInKgHour / square
  }

  /** Fuel burnt per hour: grate area times grate loading. */
  function GetBh(fireChamber: FireChamber): real
    reads fireChamber
  {
    fireChamber.R * fireChamber.U
  }

  /** The grate loading `U` is the grate forcing of the hourly consumption `Bh`. */
  lemma BhIsForcingTimesArea(fireChamber: FireChamber)
    requires fireChamber.R != 0.0
    ensures GetGridForcing(GetBh(fireChamber), fireChamber.R) == fireChamber.U
  {
  }

  /** The completeness of combustion when `q22` percent of the fuel is lost to carry-over,
      slag and fall-through. */
  function CombustionCompleteness(q22: real): (u: real)
    ensures u * 100.0 == 100.0 - q22
    ensures 0.0 <= q22 <= 100.0 ==> 0.0 <= u <= 1.0
  {
    (100.0 - q22) / 100.0
  }

  /** Records the completeness of combustion in `fuel.u` and returns the fuel actually
      burnt per hour. */
  method GetBhFact(fireChamber: FireChamber, q22: real, fuel: Fuel) returns (bhFact: real)
    modifies fuel`u
    ensures fuel.u == CombustionCompleteness(q22)
    ensures bhFact == fuel.u * GetBh(fireChamber)
    ensures 0.0 <= q22 <= 100.0 && 0.0 <= GetBh(fireChamber) ==> 0.0 <= bhFact <= GetBh(fireChamber)
    ensures q22 == 0.0 ==> bhFact == GetBh(fireChamber)
  {
    fuel.u := CombustionCompleteness(q22);
    var bh := GetBh(fireChamber);
    bhFact := fuel.u * bh;
    BhFactWithinBh(bh, q22);
  }

  /** The fuel actually burnt lies between nothing and the whole consumption, decreases as
      the loss grows, and equals the consumption when nothing is lost. */
  lemma BhFactWithinBh(bh: real, q22: real)
    ensures 0.0 <= q22 <= 100.0 && 0.0 <= bh ==> 0.0 <= CombustionCompleteness(q22) * bh <= bh
    ensures CombustionCompleteness(0.0) * bh == bh
    ensures CombustionCompleteness(100.0) * bh == 0.0
  {
    if 0.0 <= q22 <= 100.0 && 0.0 <= bh {
      var u := CombustionCompleteness(q22);
      var lost := 1.0 - u;
      assert 0.0 <= u * bh;
      assert 0.0 <= lost * bh;
      assert u * bh == bh - lost * bh;
    }
  }

  /** The heating surface of a fire box: the crown sheet plus the front, rear and side
      walls, given as the five products the procedure adds up. */
  function HeatingSurface(topLength: real, topWidth: real, frontHeight: real, rearHeight: real): (ht: real)
  {
    topLength * topWidth + rearHeight * topWidth + frontHeight * topWidth
      + frontHeight * topLength + rearHeight * topLength
  }

  /** The heating surface factors into crown sheet plus walls: the two heights summed times
      the two top dimensions summed; so it is non-negative and grows with every dimension. */
  lemma HeatingSurfaceFactors(topLength: real, topWidth: real, frontHeight: real, rearHeight: real)
    ensures HeatingSurface(topLength, topWidth, frontHeight, rearHeight)
         == topLength * topWidth + (frontHeight + rearHeight) * (topWidth + topLength)
    ensures 0.0 <= topLength && 0.0 <= topWidth && 0.0 <= frontHeight && 0.0 <= rearHeight ==>
              topLength * topWidth <= HeatingSurface(topLength, topWidth, frontHeight, rearHeight)
  {
    if 0.0 <= topLength && 0.0 <= topWidth && 0.0 <= frontHeight && 0.0 <= rearHeight {
      var walls := (frontHeight + rearHeight) * (topWidth + topLength);
      assert 0.0 <= walls;
    }
  }

  /** Sets the grate area to the bottom length times the bottom width and the heating
      surface from the top dimensions and heights; nothing else changes. */
  method CalculateFireChamber(fireChamber: FireChamber)
    modifies fireChamber`R, fireChamber`Ht
    ensures fireChamber.R == fireChamber.BottomLength * fireChamber.BottomWidth
    ensures fireChamber.Ht == HeatingSurface(fireChamber.TopLengh, fireChamber.TopWidth,
                                             fireChamber.FrontHeight, fireChamber.RearHeight)
  {
    fireChamber.R := fireChamber.BottomLength * fireChamber.BottomWidth;
    fireChamber.Ht :=
      fireChamber.TopLengh * fireChamber.TopWidth +
      fireChamber.RearHeight * fireChamber.TopWidth +
      fireChamber.FrontHeight * fireChamber.TopWidth +
      fireChamber.FrontHeight * fireChamber.TopLengh +
      fireChamber.RearHeight * fireChamber.TopLengh;
  }
}
