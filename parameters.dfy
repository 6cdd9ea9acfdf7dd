/** The constant tables of the program: thermal coefficients of the pipe and
    insulation materials, ambient temperatures per installation location, the
    installation location names, and the default branch configuration. */
module Parameters {

  // Convective heat transfer coefficients [W/m2K]
  const H_WATER: real := 3000.0     // water to pipe wall
  const H_SURFACE: real := 200.0    // insulation to surface air
  const H_CHANNEL: real := 100.0    // insulation to channel air
  const H_SOIL: real := 3.0         // insulation to surrounding soil

  // Thermal conductivities [W/mK]
  const K_PIPE: real := 43.0
  const K_INS: real := 0.03         // intact insulation
  const K_INS_DAMAGED: real := 0.03 // damaged insulation (same value as intact)

  // Ambient temperatures [degrees C]
  const T_SURFACE: real := 3.5
  const T_CHANNEL: real := 30.0
  const T_SOIL: real := 10.0

  // Installation location names
  const CHANNEL: string := "channel"
  const SURFACE: string := "surface"
  const SOIL: string := "soil"

  /** The branch configuration: fluid name, nominal pressure [Pa], inlet
      temperatures of the supply and return lines and the temperature at which
      consumers release fluid into the return line [degrees C], volume flow at
      the head of the supply line [m3/h], and the average thickness of damaged
      insulation [m]. */
  datatype Config = Config(
    fluid: string,
    pNominal: real,
    tInSupply: real,
    tInReturn: real,
    tConsumerRelease: real,
    vdot: real,
    thAvgDamage: real)

  /** The configuration used when none is given. */
  const DEFAULT_CONFIG: Config :=
    Config("Water", 1600000.0, 134.443, 84.4, 85.0, 189.92, 0.017)
}
