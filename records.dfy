/** The records of the application header. `FireChamber`, `Fuel` and `HeatCoefficient` are
    filled in place by the formula procedures, so they are classes; `PipeDiameter` and
    `Boiler` are only read, so they are values. Lengths are in metres, areas in square
    metres, gas compositions in percent by volume. */
module Records {
  import opened Platform

  /** Outer and inner diameter of a boiler tube. */
  datatype PipeDiameter = PipeDiameter(DOut: real, DIn: real)

  /** Heating surfaces, tube lengths, tube counts and tube diameters of a boiler. */
  datatype Boiler = Boiler(
    Hdg: real, Hz1: real, Hz2: real, Hk: real, Hi: real,
    Ld: real, Lz1: real, Lz2: real,
    Nd: u16, Nz: u16,
    Dd: PipeDiameter, Dz1: PipeDiameter, Dz2: PipeDiameter, Di: PipeDiameter)

  /** The fire box: its dimensions, the grate loading `U` (kg of fuel per square metre of
      grate per hour), the grate area `R` and the heating surface `Ht`. */
  class FireChamber {
    var TopLengh: real
    var TopWidth: real
    var BottomLength: real
    var BottomWidth: real
    var FrontHeight: real
    var RearHeight: real
    var U: real
    var R: real
    var Ht: real

    /** A zero-initialised record (`FireChamber fireChamber = {};`). */
    constructor()
      ensures TopLengh == 0.0 && TopWidth == 0.0 && BottomLength == 0.0 && BottomWidth == 0.0
      ensures FrontHeight == 0.0 && RearHeight == 0.0 && U == 0.0 && R == 0.0 && Ht == 0.0
    {
      TopLengh, TopWidth, BottomLength, BottomWidth := 0.0, 0.0, 0.0, 0.0;
      FrontHeight, RearHeight, U, R, Ht := 0.0, 0.0, 0.0, 0.0, 0.0;
    }
  }

  /** A fuel: its elementary analysis (C, H, S, O, N, W, A in percent by mass), the flue
      gas composition (CO, CO2, O2, N2), the lower heating value `K`, the chemical
      characteristic `beta0`, the excess-air ratio `alpha` and the completeness of
      combustion `u`. */
  class Fuel {
    var C: real
    var H: real
    var S: real
    var O: real
    var N: real
    var W: real
    var A: real
    var CO: real
    var CO2: real
    var O2: real
    var N2: real
    var K: real
    var beta0: real
    var alpha: real
    var u: real

    /** A zero-initialised record (`Fuel fuel = {};`). */
    constructor()
      ensures C == 0.0 && H == 0.0 && S == 0.0 && O == 0.0 && N == 0.0 && W == 0.0 && A == 0.0
      ensures CO == 0.0 && CO2 == 0.0 && O2 == 0.0 && N2 == 0.0
      ensures K == 0.0 && beta0 == 0.0 && alpha == 0.0 && u == 0.0
    {
      C, H, S, O, N, W, A := 0.0, 0.0, 0.0, 0.0, 0.0, 0.0, 0.0;
      CO, CO2, O2, N2 := 0.0, 0.0, 0.0, 0.0;
      K, beta0, alpha, u := 0.0, 0.0, 0.0, 0.0;
    }
  }

  /** The coefficients of the heat content of the flue gas, `Q = M * T + N * T^2`. */
  class HeatCoefficient {
    var M: real
    var N: real

    /** A zero-initialised record (`HeatCoefficient heatCoefficient = {};`). */
    constructor()
      ensures M == 0.0 && N == 0.0
    {
      M, N := 0.0, 0.0;
    }
  }
}
