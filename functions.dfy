/** Per-segment formulas and lookups of the thermal model: the series
    resistance of a pipe element, heat flows, flow velocity, pipe and
    insulation diameters, the location lookups, the insulation catalog lookup
    and the averaging of flow velocities. */
module Functions {
  import opened Common
  import opened Parameters

  /** The floating-point value of pi the program uses. */
  const PI: real := 3.141592653589793

  // ---------------------------------------------------------------- resistances

  /** Conduction resistance [K/W] of a cylindrical layer between two diameters;
      `ln` is the natural logarithm, which the model leaves uninterpreted. */
  function RConduction(ln: real -> real, dOuter: real, dInner: real, l: real, k: real): (r: real)
    requires dInner != 0.0 && l != 0.0 && k != 0.0
    ensures r * (2.0 * PI * l * k) == ln(dOuter / dInner)
  {
    ln(dOuter / dInner) / (2.0 * l * k * PI)
  }

  /** Convection resistance [K/W] of a cylindrical surface. */
  function RConvection(d: real, l: real, h: real): (r: real)
    requires d != 0.0 && l != 0.0 && h != 0.0
    ensures r * (PI * d * l * h) == 1.0
  {
    1.0 / (d * l * h * PI)
  }

  /** True when none of the four resistances divides by zero. */
  predicate RTotalDefined(dPipeInner: real, l: real, hIn: real, dPipeOuter: real,
                          kPipe: real, dInsOuter: real, kIns: real, hOut: real)
  {
    dPipeInner != 0.0 && l != 0.0 && hIn != 0.0 && dPipeOuter != 0.0 &&
    kPipe != 0.0 && dInsOuter != 0.0 && kIns != 0.0 && hOut != 0.0
  }

  /** Resistance per unit length [Km/W] of the four layers fluid, pipe wall,
      insulation and ambient film; the total resistance of an element of length
      L is this value divided by pi times L. */
  function LayerSum(ln: real -> real, dPipeInner: real, hIn: real, dPipeOuter: real,
                    kPipe: real, dInsOuter: real, kIns: real, hOut: real): real
    requires dPipeInner != 0.0 && hIn != 0.0 && dPipeOuter != 0.0 && kPipe != 0.0
    requires dInsOuter != 0.0 && kIns != 0.0 && hOut != 0.0
  {
    1.0 / (dPipeInner * hIn) + ln(dPipeOuter / dPipeInner) / (2.0 * kPipe)
    + ln(dInsOuter / dPipeOuter) / (2.0 * kIns) + 1.0 / (dInsOuter * hOut)
  }

  /** Total thermal resistance fluid-pipe-insulation-ambient: four resistances
      in series. */
  function RTotal(ln: real -> real, dPipeInner: real, l: real, hIn: real, dPipeOuter: real,
                  kPipe: real, dInsOuter: real, kIns: real, hOut: real): real
    requires RTotalDefined(dPipeInner, l, hIn, dPipeOuter, kPipe, dInsOuter, kIns, hOut)
  {
    RConvection(dPipeInner, l, hIn) + RConduction(ln, dPipeOuter, dPipeInner, l, kPipe)
    + RConduction(ln, dInsOuter, dPipeOuter, l, kIns) + RConvection(dInsOuter, l, hOut)
  }

  /** The total resistance of an element is its resistance per unit length,
      the sum of the four layer terms, divided by pi times its length. */
  lemma RTotalPerLength(ln: real -> real, dPipeInner: real, l: real, hIn: real, dPipeOuter: real,
                        kPipe: real, dInsOuter: real, kIns: real, hOut: real)
    requires RTotalDefined(dPipeInner, l, hIn, dPipeOuter, kPipe, dInsOuter, kIns, hOut)
    ensures RTotal(ln, dPipeInner, l, hIn, dPipeOuter, kPipe, dInsOuter, kIns, hOut) * (PI * l)
            == LayerSum(ln, dPipeInner, hIn, dPipeOuter, kPipe, dInsOuter, kIns, hOut)
  {
    var p := PI * l;
    var r1, r2 := RConvection(dPipeInner, l, hIn), RConduction(ln, dPipeOuter, dPipeInner, l, kPipe);
    var r3, r4 := RConduction(ln, dInsOuter, dPipeOuter, l, kIns), RConvection(dInsOuter, l, hOut);
    ConvectionPerLength(dPipeInner, l, hIn);
    ConductionPerLength(ln, dPipeOuter, dPipeInner, l, kPipe);
    ConductionPerLength(ln, dInsOuter, dPipeOuter, l, kIns);
    ConvectionPerLength(dInsOuter, l, hOut);
    assert (r1 + r2 + r3 + r4) * p == r1 * p + r2 * p + r3 * p + r4 * p;
  }

  /** A convection resistance scaled by pi times the length. */
  lemma ConvectionPerLength(d: real, l: real, h: real)
    requires d != 0.0 && l != 0.0 && h != 0.0
    ensures RConvection(d, l, h) * (PI * l) == 1.0 / (d * h)
  {
    var r := RConvection(d, l, h);
    assert (r * (PI * l)) * (d * h) == r * (PI * d * l * h);
  }

  /** A conduction resistance scaled by pi times the length. */
  lemma ConductionPerLength(ln: real -> real, dOuter: real, dInner: real, l: real, k: real)
    requires dInner != 0.0 && l != 0.0 && k != 0.0
    ensures RConduction(ln, dOuter, dInner, l, k) * (PI * l) == ln(dOuter / dInner) / (2.0 * k)
  {
    var r := RConduction(ln, dOuter, dInner, l, k);
    assert (r * (PI * l)) * (2.0 * k) == r * (2.0 * PI * l * k);
  }

  // ------------------------------------------------------------- heat flows

  /** Heat flow loss [W] through a resistance between the fluid and the ambient. */
  function HeatFlowLoss(rTot: real, tOuter: real, tInner: real): (q: real)
    requires rTot != 0.0
    ensures q * rTot == tInner - tOuter
    ensures rTot > 0.0 ==> (q > 0.0 <==> tInner > tOuter) && (q == 0.0 <==> tInner == tOuter)
  {
    (tInner - tOuter) / rTot
  }

  /** Heat flow [W] carried by a mass flow between two temperatures. */
  function HeatFlow(tHigh: real, tLow: real, mdot: real, cp: real): (q: real)
    ensures tHigh == tLow ==> q == 0.0
    ensures mdot * cp > 0.0 ==> (q > 0.0 <==> tHigh > tLow)
  {
    var c := mdot * cp;
    PositiveProductSign(c, tHigh - tLow);
    c * (tHigh - tLow)
  }

  lemma PositiveProductSign(c: real, x: real)
    ensures c > 0.0 ==> (c * x > 0.0 <==> x > 0.0)
  {
    if c > 0.0 && x <= 0.0 {
      assert c * x <= c * 0.0;
    }
  }

  /** Flow velocity [m/s] of a mass flow through a circular cross-section. */
  function FlowVelocity(den: real, mdot: real, dPipeInner: real): (v: real)
    requires den != 0.0 && dPipeInner != 0.0
    ensures den * v * (PI * dPipeInner * dPipeInner / 4.0) == mdot  // mass flow = density * velocity * area
  {
    // 4 mdot / (pi den d^2), divided out one factor at a time
    (4.0 * mdot) / (PI * den) / dPipeInner / dPipeInner
  }

  // ---------------------------------------------------------------- diameters

  /** Internal diameter of a pipe from its external diameter and wall thickness. */
  function PipeInternalDiameter(dExternal: real, thPipe: real): (d: real)
    ensures thPipe > 0.0 ==> d < dExternal
  {
    dExternal - 2.0 * thPipe
  }

  /** External diameter of the insulation around a pipe. */
  function InsulationExternalDiameter(dExternal: real, thInsulation: real): (d: real)
    ensures thInsulation > 0.0 ==> d > dExternal
  {
    dExternal + 2.0 * thInsulation
  }

  /** Removing a wall and adding a layer of the same thickness are inverse. */
  lemma DiameterRoundTrip(d: real, th: real)
    ensures InsulationExternalDiameter(PipeInternalDiameter(d, th), th) == d
    ensures PipeInternalDiameter(InsulationExternalDiameter(d, th), th) == d
  {
  }

  // ----------------------------------------------------------------- lookups

  /** The three installation locations the lookups accept. */
  predicate IsLocation(location: string) {
    location == SURFACE || location == CHANNEL || location == SOIL
  }

  /** Heat transfer coefficient from the insulation to the ambient [W/m2K]. */
  function SelectHeatTransferCoeff(location: string): (r: Result<real>)
    ensures r.Ok? <==> IsLocation(location)
    ensures location == SURFACE ==> r == Ok(H_SURFACE)
    ensures location == CHANNEL ==> r == Ok(H_CHANNEL)
    ensures location == SOIL ==> r == Ok(H_SOIL)
    ensures r.Err? ==> r.error == UnknownLocation(location) && r.error.Exception() == ValueError
  {
    if location == SURFACE then Ok(H_SURFACE)
    else if location == CHANNEL then Ok(H_CHANNEL)
    else if location == SOIL then Ok(H_SOIL)
    else Err(UnknownLocation(location))
  }

  /** Ambient temperature around the pipe [degrees C]. */
  function SelectAmbientTemperature(location: string): (r: Result<real>)
    ensures r.Ok? <==> IsLocation(location)
    ensures location == SURFACE ==> r == Ok(T_SURFACE)
    ensures location == CHANNEL ==> r == Ok(T_CHANNEL)
    ensures location == SOIL ==> r == Ok(T_SOIL)
    ensures r.Err? ==> r.error == UnknownLocation(location) && r.error.Exception() == ValueError
  {
    if location == SURFACE then Ok(T_SURFACE)
    else if location == CHANNEL then Ok(T_CHANNEL)
    else if location == SOIL then Ok(T_SOIL)
    else Err(UnknownLocation(location))
  }

  /** Both lookups accept the same strings, and each gives the three locations
      three different values, so a location is determined by either value. */
  lemma LocationLookupsAgree(a: string, b: string)
    ensures SelectHeatTransferCoeff(a).Ok? <==> SelectAmbientTemperature(a).Ok?
    ensures SelectHeatTransferCoeff(a).Ok? && SelectHeatTransferCoeff(b).Ok? ==>
              (SelectHeatTransferCoeff(a).value == SelectHeatTransferCoeff(b).value <==> a == b)
    ensures SelectAmbientTemperature(a).Ok? && SelectAmbientTemperature(b).Ok? ==>
              (SelectAmbientTemperature(a).value == SelectAmbientTemperature(b).value <==> a == b)
  {
  }

  /** Standard insulation thickness [m] for a location and nominal size, from a
      catalog in millimetres keyed by location and then by nominal size. */
  function InsulationThickness(location: string, nominal: int,
                               table: map<string, map<int, real>>): (r: Result<real>)
    ensures location !in table ==> r == Err(UnknownInsulationLocation(location))
    ensures location in table && nominal !in table[location] ==>
              r == Err(UnknownInsulationSize(location, nominal))
    ensures r.Err? ==> r.error.Exception() == ValueError
    ensures r.Ok? ==> location in table && nominal in table[location]
                      && r.value * 1000.0 == table[location][nominal]
  {
    if location !in table then Err(UnknownInsulationLocation(location))
    else
      var thData := table[location];
      if nominal !in thData then Err(UnknownInsulationSize(location, nominal))
      else Ok(thData[nominal] / 1000.0)
  }

  // ---------------------------------------------------------- average velocity

  function Sum(v: seq<real>): real {
    if v == [] then 0.0 else Sum(v[..|v| - 1]) + v[|v| - 1]
  }

  /** What the program computes as the average flow velocity: the sum of all
      values except the last, divided by the number of values. */
  function AverageFlowVelocity(v: seq<real>): Result<real> {
    if |v| == 0 then Err(DivisionByZero) else Ok(Sum(v[..|v| - 1]) / (|v| as real))
  }

  method CalculateAverageFlowVelocity(v: seq<real>) returns (r: Result<real>)
    ensures r == AverageFlowVelocity(v)
  {
    var vSum := 0.0;
    var i := 0;
    while i < |v| - 1
      invariant 0 <= i <= if |v| == 0 then 0 else |v| - 1
      invariant vSum == Sum(v[..i])
    {
      assert v[..i + 1][..i] == v[..i];
      vSum := vSum + v[i];
      i := i + 1;
    }
    if |v| == 0 {
      return Err(DivisionByZero);
    }
    r := Ok(vSum / (|v| as real));
  }

  /** The average velocity: the sum of all values divided by their number. */
  function MeanFlowVelocity(v: seq<real>): Result<real> {
    if |v| == 0 then Err(DivisionByZero) else Ok(Sum(v) / (|v| as real))
  }

  lemma {:induction false} SumBounds(v: seq<real>, lo: real, hi: real)
    requires forall k :: 0 <= k < |v| ==> lo <= v[k] <= hi
    ensures (|v| as real) * lo <= Sum(v) <= (|v| as real) * hi
  {
    if v != [] {
      SumBounds(v[..|v| - 1], lo, hi);
    }
  }

  /** The mean lies between any bounds of the values. */
  lemma MeanWithinBounds(v: seq<real>, lo: real, hi: real)
    requires |v| > 0
    requires forall k :: 0 <= k < |v| ==> lo <= v[k] <= hi
    ensures MeanFlowVelocity(v).Ok?
    ensures lo <= MeanFlowVelocity(v).value <= hi
  {
    SumBounds(v, lo, hi);
    var n := |v| as real;
    assert Sum(v) / n >= lo by {
      assert Sum(v) >= n * lo;
    }
    assert Sum(v) / n <= hi by {
      assert Sum(v) <= n * hi;
    }
  }

  /** The program's average is the mean less the last value's share. */
  lemma AverageDropsLastValue(v: seq<real>)
    requires |v| > 0
    ensures AverageFlowVelocity(v).Ok? && MeanFlowVelocity(v).Ok?
    ensures AverageFlowVelocity(v).value == MeanFlowVelocity(v).value - v[|v| - 1] / (|v| as real)
  {
  }

  /** A single segment flowing at 2 m/s averages to 0 m/s, outside the range
      of its own values. */
  lemma AverageOfOneVelocity()
    ensures AverageFlowVelocity([2.0]) == Ok(0.0)
    ensures MeanFlowVelocity([2.0]) == Ok(2.0)
  {
    assert [2.0][..0] == [];
  }
}
