/** The records a branch works on: the input segments of a pipe line, the
    output rows, the validated setup made by the Branch constructor, and the
    per-segment geometry (internal diameter, insulation and total thermal
    resistance) that both line calculations share. */
module BranchData {
  import opened Common
  import opened Parameters
  import opened Functions
  import opened Validation
  import opened Outlet

  /** The fluid the segment loops ask the property library for: they call it
      without a fluid argument, so its default applies. */
  const WATER: string := "Water"

  /** Relative tolerance of the outlet temperature iteration. */
  const TOLERANCE: real := 0.001

  // Keys of the thickness catalogue
  const TH_PIPE: string := "th_pipe"
  const SUPPLY_KEYS: seq<string> :=
    ["th_insulation_channel_supply", "th_insulation_surface_supply", "th_insulation_soil_supply"]
  const RETURN_KEYS: seq<string> :=
    ["th_insulation_channel_return", "th_insulation_surface_return", "th_insulation_soil_return"]

  /** Thicknesses [mm] keyed by nominal pipe size. */
  type Table = map<int, real>

  /** One input row of a pipe line: nominal size DN [mm], external diameter
      [m], length [m], installation location, recorded insulation state, mass
      flow taken off at the segment's end [kg/s], and coordinates. */
  datatype Segment = Segment(
    nominal: int,
    dExternal: real,
    length: real,
    location: string,
    insulation: real,
    takeOff: real,
    lat: real,
    lon: real)

  /** One output row of a line calculation. `temperature` is the outlet
      temperature of the segment; `mdot` the mass flow entering it. */
  datatype PipeRow = PipeRow(
    lat: real,
    lon: real,
    lTot: real,
    temperature: real,
    mdot: real,
    qLoss: real,
    qNormLoss: real,
    qLossTot: real,
    velocity: real,
    mdotConsumer: real,
    qConsumerAbs: real,
    qConsumerAct: real,
    qTot: real)

  /** One output row of the system heat flow [MW]. */
  datatype SystemRow = SystemRow(lat: real, lon: real, lTot: real, qSystem: real)

  /** What the model takes from outside: the natural logarithm, the fluid
      property library (pressure [Pa], temperature [K], fluid name), and the
      offset TZERO between the Celsius scale and the one the library expects. */
  datatype Externals = Externals(
    ln: real -> real,
    density: (real, real, string) -> real,
    specificHeat: (real, real, string) -> real,
    tZero: real)

  /** The state the Branch constructor establishes. */
  datatype Setup = Setup(
    iv: Config,
    thPipe: Table,
    insSupply: map<string, Table>,
    insReturn: map<string, Table>,
    damage: Damage,
    ext: Externals,
    maxIter: nat)

  function FluidDensity(s: Setup, t: real): real {
    s.ext.density(s.iv.pNominal, t - s.ext.tZero, s.iv.fluid)
  }

  function SpecificHeat(s: Setup, t: real, fluid: string): real {
    s.ext.specificHeat(s.iv.pNominal, t - s.ext.tZero, fluid)
  }

  // ------------------------------------------------------------ construction

  /** The catalogue in use: the one given, or the one read from file when the
      given one is empty (or absent). */
  function ChosenCatalogue(thValues: map<string, Table>, thFile: map<string, Table>): map<string, Table> {
    if thValues == map[] then thFile else thValues
  }

  /** Every key of `keys` is in the catalogue. */
  predicate HasKeys(thAll: map<string, Table>, keys: seq<string>) {
    forall k :: 0 <= k < |keys| ==> keys[k] in thAll
  }

  /** The catalogue holds the pipe wall table and all six insulation tables. */
  predicate CatalogueComplete(thAll: map<string, Table>) {
    TH_PIPE in thAll && HasKeys(thAll, SUPPLY_KEYS) && HasKeys(thAll, RETURN_KEYS)
  }

  /** The first key of `keys` missing from the catalogue, if any. */
  function FirstMissing(keys: seq<string>, thAll: map<string, Table>): (r: Option<string>)
    ensures r.None? <==> HasKeys(thAll, keys)
    ensures r.Some? ==> exists i :: 0 <= i < |keys| && keys[i] == r.value && keys[i] !in thAll &&
                                    forall k :: 0 <= k < i ==> keys[k] in thAll
  {
    if keys == [] then None
    else if keys[0] !in thAll then Some(keys[0])
    else
      var r := FirstMissing(keys[1..], thAll);
      if r.Some? then
        ghost var i :| 0 <= i < |keys[1..]| && keys[1..][i] == r.value && keys[1..][i] !in thAll &&
                       forall k :: 0 <= k < i ==> keys[1..][k] in thAll;
        assert keys[i + 1] == r.value && forall k :: 0 <= k < i + 1 ==> keys[k] in thAll;
        r
      else r
  }

  /** The three per-location tables named by `keys` (channel, surface, soil). */
  function LocationTables(thAll: map<string, Table>, keys: seq<string>): (m: map<string, Table>)
    requires |keys| == 3 && HasKeys(thAll, keys)
    ensures forall loc :: loc in m <==> IsLocation(loc)
    ensures CHANNEL in m && SURFACE in m && SOIL in m
    ensures m[CHANNEL] == thAll[keys[0]] && m[SURFACE] == thAll[keys[1]] && m[SOIL] == thAll[keys[2]]
  {
    map[CHANNEL := thAll[keys[0]], SURFACE := thAll[keys[1]], SOIL := thAll[keys[2]]]
  }

  /** The damage value used when none is given: the configured average
      thickness in average mode, an empty list otherwise. */
  function DamageGiven(mode: string, damage: Option<PyValue>, cfg: Config): PyValue {
    if damage.Some? then damage.value
    else if mode == AVERAGE then PyFloat(cfg.thAvgDamage)
    else PyList([])
  }

  /** Branch.__init__: configuration, catalogue, damage validation and the
      per-location insulation tables, failing at the first missing key. */
  function MakeSetup(iv: Option<Config>, thValues: map<string, Table>, thFile: map<string, Table>,
                     mode: string, damage: Option<PyValue>, ext: Externals, maxIter: nat): (r: Result<Setup>)
    ensures var thAll := ChosenCatalogue(thValues, thFile);
            var cfg := if iv.Some? then iv.value else DEFAULT_CONFIG;
            var given := DamageGiven(mode, damage, cfg);
            && (TH_PIPE !in thAll ==> r == Err(MissingCatalogKey(TH_PIPE)))
            && (TH_PIPE in thAll && ValidateDamage(mode, given).Err? ==> r == Err(ValidateDamage(mode, given).error))
            && (r.Ok? <==> CatalogueComplete(thAll) && ValidDamage(mode, given))
            && (r.Err? && r.error.MissingCatalogKey? ==> r.error.key !in thAll)
            // the insulation keys are read supply before return, each in channel, surface, soil order
            && (TH_PIPE in thAll && ValidDamage(mode, given) && !HasKeys(thAll, SUPPLY_KEYS) ==>
                  r == Err(MissingCatalogKey(FirstMissing(SUPPLY_KEYS, thAll).value)))
            && (TH_PIPE in thAll && ValidDamage(mode, given) && HasKeys(thAll, SUPPLY_KEYS)
                && !HasKeys(thAll, RETURN_KEYS) ==>
                  r == Err(MissingCatalogKey(FirstMissing(RETURN_KEYS, thAll).value)))
            && (r.Ok? ==> && r.value.iv == cfg
                          && r.value.thPipe == thAll[TH_PIPE]
                          && r.value.damage == ValidateDamage(mode, given).value
                          && (forall loc :: loc in r.value.insSupply <==> IsLocation(loc))
                          && (forall loc :: loc in r.value.insReturn <==> IsLocation(loc))
                          && r.value.insSupply[CHANNEL] == thAll[SUPPLY_KEYS[0]]
                          && r.value.insSupply[SURFACE] == thAll[SUPPLY_KEYS[1]]
                          && r.value.insSupply[SOIL] == thAll[SUPPLY_KEYS[2]]
                          && r.value.insReturn[CHANNEL] == thAll[RETURN_KEYS[0]]
                          && r.value.insReturn[SURFACE] == thAll[RETURN_KEYS[1]]
                          && r.value.insReturn[SOIL] == thAll[RETURN_KEYS[2]])
  {
    var cfg := if iv.Some? then iv.value else DEFAULT_CONFIG;
    var thAll := ChosenCatalogue(thValues, thFile);
    if TH_PIPE !in thAll then Err(MissingCatalogKey(TH_PIPE))
    else
      match ValidateDamage(mode, DamageGiven(mode, damage, cfg))
      case Err(e) => Err(e)
      case Ok(d) =>
        match FirstMissing(SUPPLY_KEYS, thAll)
        case Some(key) => Err(MissingCatalogKey(key))
        case None =>
          match FirstMissing(RETURN_KEYS, thAll)
          case Some(key) => Err(MissingCatalogKey(key))
          case None =>
            Ok(Setup(cfg, thAll[TH_PIPE], LocationTables(thAll, SUPPLY_KEYS), LocationTables(thAll, RETURN_KEYS),
                     d, ext, maxIter))
  }

  /** With no damage given in average mode, the configured average thickness
      is validated: the branch can be built exactly when it lies in [0, 1] (and
      the catalogue is complete), and it is then the damage in use. */
  lemma DefaultAverageDamage(iv: Option<Config>, thValues: map<string, Table>, thFile: map<string, Table>,
                             ext: Externals, maxIter: nat)
    requires CatalogueComplete(ChosenCatalogue(thValues, thFile))
    ensures var cfg := if iv.Some? then iv.value else DEFAULT_CONFIG;
            var r := MakeSetup(iv, thValues, thFile, AVERAGE, None, ext, maxIter);
            (r.Ok? <==> 0.0 <= cfg.thAvgDamage <= 1.0) &&
            (r.Ok? ==> r.value.damage == AverageDamage(cfg.thAvgDamage)) &&
            (r.Err? ==> r.error == DamageOutOfRange)
  {
  }

  /** With no damage given in element mode the damage list is empty, which is
      always accepted. */
  lemma DefaultElementDamage(iv: Option<Config>, thValues: map<string, Table>, thFile: map<string, Table>,
                             ext: Externals, maxIter: nat)
    requires CatalogueComplete(ChosenCatalogue(thValues, thFile))
    ensures var r := MakeSetup(iv, thValues, thFile, ELEMENT, None, ext, maxIter);
            r.Ok? && r.value.damage == ElementDamage([])
  {
  }

  /** The default configuration passes validation: its average damage
      thickness, 0.017, lies in [0, 1]. */
  lemma DefaultConfigAccepted(thValues: map<string, Table>, thFile: map<string, Table>, ext: Externals, maxIter: nat)
    requires CatalogueComplete(ChosenCatalogue(thValues, thFile))
    ensures MakeSetup(None, thValues, thFile, AVERAGE, None, ext, maxIter).Ok?
    ensures MakeSetup(None, thValues, thFile, AVERAGE, None, ext, maxIter).value.damage == AverageDamage(0.017)
  {
    DefaultAverageDamage(None, thValues, thFile, ext, maxIter);
  }

  // ---------------------------------------------------------------- geometry

  /** Branch._calculate_internal_diameter: the wall thickness of the nominal
      size comes from the catalogue in millimetres; an unknown size is a
      KeyError. */
  function InternalDiameter(thPipe: Table, nominal: int, dExternal: real): (r: Result<real>)
    ensures r.Ok? <==> nominal in thPipe
    ensures r.Err? ==> r.error == UnknownPipeSize(nominal) && r.error.Exception() == KeyError
    ensures r.Ok? ==> InsulationExternalDiameter(r.value, thPipe[nominal] / 1000.0) == dExternal
  {
    if nominal !in thPipe then Err(UnknownPipeSize(nominal))
    else Ok(PipeInternalDiameter(dExternal, thPipe[nominal] / 1000.0))
  }

  /** Insulation thickness [m] and conductivity [W/mK] of one segment. */
  datatype Insulation = Insulation(thickness: real, k: real)

  /** Average damage replaces the insulation of segments recorded as 0 by the
      validated average thickness; elsewhere the catalogue thickness is used,
      scaled by the recorded value in element mode. */
  predicate UsesAverageThickness(d: Damage, seg: Segment) {
    d.AverageDamage? && seg.insulation == 0.0
  }

  function InsulationChoice(d: Damage, seg: Segment, tables: map<string, Table>): (r: Result<Insulation>)
    ensures UsesAverageThickness(d, seg) ==> r == Ok(Insulation(d.thickness, K_INS_DAMAGED))
    ensures !UsesAverageThickness(d, seg) ==>
              var cat := InsulationThickness(seg.location, seg.nominal, tables);
              (r.Ok? <==> cat.Ok?) && (cat.Err? ==> r == Err(cat.error)) &&
              (r.Ok? ==> r.value.k == K_INS &&
                         r.value.thickness * 1000.0 ==
                           tables[seg.location][seg.nominal] * (if d.ElementDamage? then seg.insulation else 1.0))
  {
    if UsesAverageThickness(d, seg) then Ok(Insulation(d.thickness, K_INS_DAMAGED))
    else
      match InsulationThickness(seg.location, seg.nominal, tables)
      case Err(e) => Err(e)
      case Ok(th) =>
        if d.ElementDamage? then Ok(Insulation(th * seg.insulation, K_INS))
        else Ok(Insulation(th, K_INS))
  }

  /** An element recorded as fully intact (1.0) gets the same insulation in
      element mode as a segment with any nonzero record in average mode: the
      element list passed to the constructor plays no part. */
  lemma IntactElementMatchesAverage(fractions: seq<PyValue>, avg: real, seg: Segment,
                                    tables: map<string, Table>, recorded: real)
    requires recorded != 0.0
    ensures InsulationChoice(ElementDamage(fractions), seg.(insulation := 1.0), tables) ==
            InsulationChoice(AverageDamage(avg), seg.(insulation := recorded), tables)
  {
  }

  /** An element recorded as 0 in element mode has no insulation at all: the
      insulation outer diameter is the pipe's own. */
  lemma BareElement(fractions: seq<PyValue>, seg: Segment, tables: map<string, Table>)
    requires seg.insulation == 0.0
    requires InsulationChoice(ElementDamage(fractions), seg, tables).Ok?
    ensures InsulationChoice(ElementDamage(fractions), seg, tables).value.thickness == 0.0
    ensures InsulationExternalDiameter(seg.dExternal,
              InsulationChoice(ElementDamage(fractions), seg, tables).value.thickness) == seg.dExternal
  {
  }

  /** Diameters, coefficients and the total thermal resistance of a segment. */
  datatype Geometry = Geometry(dInternal: real, hOut: real, insulation: Insulation, dInsulation: real, rTot: real)

  /** The first part of each loop pass: pipe wall lookup (KeyError), heat
      transfer coefficient (ValueError), insulation, resistance. A zero
      diameter, length or coefficient under a division stops the pass. */
  function SegmentGeometry(s: Setup, seg: Segment, tables: map<string, Table>): (r: Result<Geometry>)
    ensures seg.nominal !in s.thPipe ==> r == Err(UnknownPipeSize(seg.nominal))
    ensures seg.nominal in s.thPipe && !IsLocation(seg.location) ==> r == Err(UnknownLocation(seg.location))
    ensures r.Ok? ==> seg.nominal in s.thPipe && IsLocation(seg.location)
    ensures r.Ok? ==>
              var g := r.value;
              && g.dInternal == seg.dExternal - 2.0 * (s.thPipe[seg.nominal] / 1000.0)
              && SelectHeatTransferCoeff(seg.location) == Ok(g.hOut)
              && InsulationChoice(s.damage, seg, tables) == Ok(g.insulation)
              && g.dInsulation == seg.dExternal + 2.0 * g.insulation.thickness
              && RTotalDefined(g.dInternal, seg.length, H_WATER, seg.dExternal, K_PIPE,
                               g.dInsulation, g.insulation.k, g.hOut)
              && g.rTot == RConvection(g.dInternal, seg.length, H_WATER)
                           + RConduction(s.ext.ln, seg.dExternal, g.dInternal, seg.length, K_PIPE)
                           + RConduction(s.ext.ln, g.dInsulation, seg.dExternal, seg.length, g.insulation.k)
                           + RConvection(g.dInsulation, seg.length, g.hOut)
  {
    match InternalDiameter(s.thPipe, seg.nominal, seg.dExternal)
    case Err(e) => Err(e)
    case Ok(dInt) =>
      match SelectHeatTransferCoeff(seg.location)
      case Err(e) => Err(e)
      case Ok(h) =>
        match InsulationChoice(s.damage, seg, tables)
        case Err(e) => Err(e)
        case Ok(ins) =>
          var dIns := InsulationExternalDiameter(seg.dExternal, ins.thickness);
          if !RTotalDefined(dInt, seg.length, H_WATER, seg.dExternal, K_PIPE, dIns, ins.k, h) then
            Err(DivisionByZero)
          else
            Ok(Geometry(dInt, h, ins, dIns,
                        RTotal(s.ext.ln, dInt, seg.length, H_WATER, seg.dExternal, K_PIPE, dIns, ins.k, h)))
  }

  // ---------------------------------------------------------- line marches

  /** The variables a line calculation threads from segment to segment:
      inlet temperature [degrees C], mass flow [kg/s], position [m],
      cumulative loss [W] and total heat flow [W]. */
  datatype Flow = Flow(tIn: real, mdot: real, lTot: real, qLossTot: real, qTot: real)

  /** Mass flow [kg/s] of a volume flow [m3/h] at temperature t. */
  function MassFlow(s: Setup, vdot: real, t: real): real {
    vdot * FluidDensity(s, t) / 3600.0
  }

  /** Heat carried by a mass flow at temperature t, measured from TZERO, with
      the specific heat of the configured fluid. */
  function HeatContent(s: Setup, mdot: real, t: real): real {
    mdot * (t - s.ext.tZero) * SpecificHeat(s, t, s.iv.fluid)
  }

  /** The heat a consumer takes, measured from TZERO, splits into the useful
      part, measured from the release temperature, and the part it returns. */
  lemma ConsumerHeatSplit(c: real, tOut: real, tZero: real, tRelease: real)
    ensures c * (tOut - tZero) - c * (tOut - tRelease) == c * (tRelease - tZero)
  {
  }

  /** The outlet-temperature problem of a segment with the given geometry. */
  function SegmentProblem(s: Setup, seg: Segment, g: Geometry, f: Flow): Problem
    requires IsLocation(seg.location)
  {
    Problem(f.tIn, SelectAmbientTemperature(seg.location).value, f.mdot,
            SpecificHeat(s, f.tIn, WATER), g.rTot, TOLERANCE)
  }

  /** The values a row derives from the outlet temperature and loss: the loss
      per metre, the consumer heat flows with the loop's specific heat, and the
      velocity from the density at the inlet temperature. */
  predicate RowValues(s: Setup, seg: Segment, dInternal: real, f: Flow, row: PipeRow) {
    var cp := SpecificHeat(s, f.tIn, WATER);
    && row.qNormLoss * seg.length == row.qLoss
    && row.qConsumerAbs == Abs(seg.takeOff) * cp * (row.temperature - s.ext.tZero)
    && row.qConsumerAbs - row.qConsumerAct == Abs(seg.takeOff) * cp * (s.iv.tConsumerRelease - s.ext.tZero)
    && FluidDensity(s, f.tIn) * row.velocity * (PI * dInternal * dInternal / 4.0) == f.mdot
  }

  // -------------------------------------------------------------- running sums

  /** Sum of the segment lengths. */
  function LengthSum(segs: seq<Segment>): real {
    if segs == [] then 0.0 else LengthSum(segs[..|segs| - 1]) + segs[|segs| - 1].length
  }

  /** Sum of the heat losses of the rows. */
  function LossSum(rows: seq<PipeRow>): real {
    if rows == [] then 0.0 else LossSum(rows[..|rows| - 1]) + rows[|rows| - 1].qLoss
  }

  /** Sum of the absolute consumer heat flows of the rows. */
  function ConsumerHeatSum(rows: seq<PipeRow>): real {
    if rows == [] then 0.0 else ConsumerHeatSum(rows[..|rows| - 1]) + rows[|rows| - 1].qConsumerAbs
  }

  /** Sum of the consumer mass flows of the rows. */
  function ConsumerFlowSum(rows: seq<PipeRow>): real {
    if rows == [] then 0.0 else ConsumerFlowSum(rows[..|rows| - 1]) + rows[|rows| - 1].mdotConsumer
  }

  /** Appending a row leaves the earlier prefixes alone and adds the row to
      each sum. */
  lemma AppendRow(rows: seq<PipeRow>, row: PipeRow)
    ensures forall k :: 0 <= k <= |rows| ==> (rows + [row])[..k] == rows[..k]
    ensures LossSum(rows + [row]) == LossSum(rows) + row.qLoss
    ensures ConsumerHeatSum(rows + [row]) == ConsumerHeatSum(rows) + row.qConsumerAbs
    ensures ConsumerFlowSum(rows + [row]) == ConsumerFlowSum(rows) + row.mdotConsumer
  {
    assert (rows + [row])[..|rows|] == rows;
  }

  /** Each sum over a prefix one longer adds the next item. */
  lemma PrefixSums(segs: seq<Segment>, rows: seq<PipeRow>, k: nat)
    ensures k < |segs| ==> LengthSum(segs[..k + 1]) == LengthSum(segs[..k]) + segs[k].length
    ensures k < |rows| ==> LossSum(rows[..k + 1]) == LossSum(rows[..k]) + rows[k].qLoss
    ensures k < |rows| ==> ConsumerHeatSum(rows[..k + 1]) == ConsumerHeatSum(rows[..k]) + rows[k].qConsumerAbs
    ensures k < |rows| ==> ConsumerFlowSum(rows[..k + 1]) == ConsumerFlowSum(rows[..k]) + rows[k].mdotConsumer
  {
    if k < |segs| {
      assert segs[..k + 1][..k] == segs[..k];
    }
    if k < |rows| {
      assert rows[..k + 1][..k] == rows[..k];
    }
  }
}
