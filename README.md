# dhnpype branch model in Dafny

This project models how dhnpype calculates the thermal behaviour of one
branch of a district heating network. A branch is a supply line and a return
line, each a sequence of pipe segments. Each segment has a position, a length,
a nominal pipe size, an external diameter, a location (channel, surface or
soil), an insulation condition and a consumer take-off.

The model covers four parts of the source:

- **Heat transfer helpers** (`src/utils/functions.py`), in modules `Functions`
  and `Outlet`:
  - the conduction and convection resistances, and the total resistance of
    pipe, wall, insulation and surroundings;
  - heat flow loss, heat flow and flow velocity;
  - the location lookups and the insulation catalogue lookup;
  - the iterative outlet temperature of one segment
    (`Outlet.CalculateOutputTemperature`, proved against `Outlet.OutputTemperature`).
- **Damage validation** (`src/utils/validation.py`), in module `Validation`.
  The damage setting comes in one of two modes:
  - "average": one insulation damage thickness;
  - "element": one insulation fraction per segment.
- **Branch construction** (`Branch.__init__`), in module `BranchData`. It picks
  the thickness catalogue, validates the damage setting and builds the
  per-location insulation tables.
- **The three calculations of `Branch`**, as the class `BranchEngine.Branch`.
  Its fields are the setup, the two input tables and the three output tables.
  Each method is proved equal to a recursive specification function, whose
  properties are proved as lemmas:
  - `CalculateSupply` marches from the plant to the branch end
    (`SupplyLine.Supply`). Each pass:
    1. computes a segment's geometry and thermal resistance;
    2. iterates its outlet temperature;
    3. writes a row;
    4. hands on the temperature and the reduced mass flow.
  - `CalculateReturn` marches back (`ReturnLine.Return`). A cursor walks down
    the supply table to find which supply consumer's flow returns at each
    return consumer, and that flow is mixed into the line.
  - `CalculateSystemHeatFlow` aligns the two output tables and writes supply
    total minus return total, in MW (`SystemFlow.System`).

Python floats are modelled as `real`. Modelled errors:

- Every exception the source raises is a constructor of `Common.Error`, and
  `Exception()` maps it to its Python class.
- The model also gives an error where numpy would divide by zero, and where a
  loop would not stop.

A failed step stops a march. Rows written before the failure stay written, as
in the source, which appends row by row.

Three outside values reach the model through the `Externals` part of the setup,
not as code:

- the natural logarithm (`np.log`);
- CoolProp's density and specific heat;
- the constant `TZERO`.

## Model

| member | source | states |
|---|---|---|
| Common.Abs | src/branch.py:229-232 | the absolute value used for consumer heat flows is non-negative and equals x or -x |
| Functions.RConduction | src/utils/functions.py:9-21 | the conduction resistance times 2·π·l·k equals ln(d_outer/d_inner) |
| Functions.RConvection | src/utils/functions.py:24-35 | the convection resistance times π·d·l·h equals 1 |
| Functions.RTotalPerLength | src/utils/functions.py:38-59 | the total resistance times π·l equals the sum of the four per-length layer terms: inner film, pipe wall, insulation, outer film |
| Functions.ConvectionPerLength | src/utils/functions.py:24-35 | a film resistance per unit length is 1/(d·h), independent of l |
| Functions.ConductionPerLength | src/utils/functions.py:9-21 | a wall resistance per unit length is ln(d_outer/d_inner)/(2k), independent of l |
| Functions.HeatFlowLoss | src/utils/functions.py:62-73 | q·R equals the temperature difference; for R > 0, heat flows outward exactly when the inside is warmer, and is zero exactly at equal temperatures |
| Functions.HeatFlow | src/utils/functions.py:76-89 | zero at equal temperatures; positive exactly when t_high > t_low if mdot·cp > 0 |
| Functions.PositiveProductSign | src/utils/functions.py:76-89 | a positive factor keeps the sign of a heat flow |
| Functions.FlowVelocity | src/utils/functions.py:92-103 | density × velocity × cross-section area equals the mass flow |
| Functions.PipeInternalDiameter | src/utils/functions.py:165-175 | a positive wall thickness gives a smaller internal diameter |
| Functions.InsulationExternalDiameter | src/utils/functions.py:178-188 | a positive insulation thickness gives a larger external diameter |
| Functions.DiameterRoundTrip | src/utils/functions.py:165-188 | subtracting then adding twice a thickness (and the reverse) returns the diameter |
| Functions.SelectHeatTransferCoeff | src/utils/functions.py:123-141 | succeeds exactly for the three locations; gives each location its own coefficient; otherwise raises ValueError |
| Functions.SelectAmbientTemperature | src/utils/functions.py:144-162 | succeeds exactly for the three locations; gives each location its own ambient temperature; otherwise raises ValueError |
| Functions.LocationLookupsAgree | src/utils/functions.py:123-162 | both lookups accept the same locations, and each is one-to-one on them |
| Functions.InsulationThickness | src/utils/functions.py:191-211 | an unknown location, then an unknown size, raises ValueError in that order; on success the result in mm is the catalogue entry |
| Functions.CalculateAverageFlowVelocity | src/utils/functions.py:106-120 | the loop computes the function as written: the sum of all but the last value, divided by the count; an empty list is a division by zero |
| Functions.SumBounds | src/utils/functions.py:114-120 | a sum of n values within [lo, hi] lies within [n·lo, n·hi] |
| Functions.MeanWithinBounds | src/utils/functions.py:106-120 | the intended average of a non-empty list lies between the smallest and largest bounds of its values |
| Functions.AverageDropsLastValue | src/utils/functions.py:114-120 | the function as written is the true mean minus last/len |
| Functions.AverageOfOneVelocity | src/utils/functions.py:114-120 | for the list [2.0] the code gives 0.0 where the mean is 2.0 |
| Validation.AllNumbers | src/utils/validation.py:33-40 | true exactly when every item is an int, float or bool |
| Validation.AnyOutOfRange | src/utils/validation.py:37-40 | true exactly when some item lies outside [0, 1] |
| Validation.ValidateDamage | src/utils/validation.py:5-43 | accepts exactly the valid settings; average mode returns the number; element mode returns the list; unknown mode raises ValueError; type checks come before range checks; an in-type value outside [0, 1] raises the range ValueError; the only ValueErrors are unknown mode and out of range |
| Validation.TypeCheckedBeforeRange | src/utils/validation.py:33-40 | a non-number in a list raises TypeError even when another item is out of range; the empty list and True are accepted |
| Validation.AcceptedValuesInRange | src/utils/validation.py:26-40 | every accepted damage value lies in [0, 1] |
| Outlet.LogMean | src/utils/functions.py:248-251 | when the logarithms differ, the logarithmic mean times ln(a) − ln(b) equals a − b |
| Outlet.Seed | src/utils/functions.py:231-236 | the first estimate starts from t_in, takes the loss over the full inlet difference, and cools the flow by that loss |
| Outlet.CooledTo | src/utils/functions.py:235-256 | the outlet temperature of a loss q is the one whose heat flow from t_in is q |
| Outlet.Refine | src/utils/functions.py:244-256 | fails with ValueError exactly when t_in or t_out is not positive; otherwise the loss comes from the log mean and the new outlet is balanced with it |
| Outlet.CalculateOutputTemperature | src/utils/functions.py:214-258 | the while loop computes the iteration function |
| Outlet.ScaleMonotone | src/utils/functions.py:238-242 | multiplying by a positive factor keeps order |
| Outlet.ConvergeExit | src/utils/functions.py:238-256 | on exit the estimate is within tolerance and balanced, or clamped to the ambient temperature with a loss at least the full heat flow to ambient |
| Outlet.ConvergeErrors | src/utils/functions.py:244-246 | the only failures are the non-positive-temperature ValueError, raised with the outlet still above ambient, and the iteration bound |
| Outlet.OutputTemperatureExit | src/utils/functions.py:214-258 | a returned loss is the heat flow from inlet to returned outlet, unless the outlet was clamped to ambient |
| Outlet.PositiveTemperaturesNeverRaise | src/utils/functions.py:244-246 | with a positive inlet and non-negative ambient the ValueError never occurs |
| Outlet.SeedWithinTolerance | src/utils/functions.py:238 | when the first estimate is already within tolerance, it is returned unchanged |
| BranchData.FirstMissing | src/branch.py:51-71 | reports the first catalogue key that is missing, and nothing exactly when all are present |
| BranchData.LocationTables | src/branch.py:62-71 | the table has exactly the three locations, each holding its catalogue entry |
| BranchData.MakeSetup | src/branch.py:44-71 | the missing th_pipe key raises KeyError first, then a damage validation error, then the first missing insulation key, supply keys before return keys; success happens exactly when the catalogue is complete and the damage is valid; the configuration, pipe table, validated damage and both location tables are kept |
| BranchData.DefaultAverageDamage | src/branch.py:57-59 | with no damage given in average mode, the configured average thickness is validated and used |
| BranchData.DefaultElementDamage | src/branch.py:57-59 | with no damage given in element mode, the empty list is accepted |
| BranchData.DefaultConfigAccepted | src/branch.py:44-59 | the default configuration builds a branch with average damage 0.017 |
| BranchData.InternalDiameter | src/branch.py:81-96 | an unknown size raises KeyError; otherwise adding back twice the wall thickness gives the external diameter |
| BranchData.InsulationChoice | src/branch.py:187-202 | in average mode a segment recorded as 0 uses the validated average thickness with k_ins_damaged; otherwise the catalogue thickness, scaled by the element fraction in element mode, with k_ins; catalogue errors propagate |
| BranchData.IntactElementMatchesAverage | src/branch.py:187-202 | an element fraction of 1 gives the same insulation as an intact segment in average mode |
| BranchData.BareElement | src/branch.py:187-202 | an element fraction of 0 leaves the pipe bare |
| BranchData.SegmentGeometry | src/branch.py:170-205 | pipe size errors come before location errors; on success it gives the internal diameter, outer coefficient, insulation, insulated diameter and total resistance of the segment |
| BranchData.ConsumerHeatSplit | src/branch.py:229-232 | absolute minus actual consumer heat equals the heat of the take-off from TZERO to the release temperature |
| BranchData.AppendRow | src/branch.py:254 | appending a row keeps the earlier prefixes and adds its loss, consumer heat and consumer flow to the sums |
| BranchData.PrefixSums | src/branch.py:219-235 | each running sum over a prefix one longer adds the next element |
| SupplyLine.SupplyStartValues | src/branch.py:148-163 | the march starts at the supply inlet temperature, at position 0 with no loss, with mass flow vdot·ρ/3600 and the heat content of that flow |
| SupplyLine.SupplyRecord | src/branch.py:214-254 | fails only on a zero density; otherwise the row takes the outlet temperature and loss, carries position, losses, heat and mass on, and derives the per-metre loss, consumer heats and velocity |
| SupplyLine.SupplyStep | src/branch.py:167-259 | a successful pass carries the running values on |
| SupplyLine.SupplyStepOrder | src/branch.py:167-259 | a pass fails first on geometry, then on the outlet iteration, and otherwise records the segment |
| SupplyLine.SupplyFrom | src/branch.py:167-259 | a march has no error exactly when it wrote one row per pass |
| SupplyLine.SupplyAdvance | src/branch.py:167-259 | one loop pass appends the row and hands on its variables, or stops with the pass's error |
| SupplyLine.SupplyStops | src/branch.py:167-259 | once a pass fails, later passes change nothing |
| SupplyLine.SupplyStepKeeps | src/branch.py:219-259 | the position, heat-balance and mass-flow invariants survive one pass |
| SupplyLine.SupplyFromCases | src/branch.py:167-259 | the march over n segments follows from the march over n−1 in one of three ways |
| SupplyLine.SupplyHoldsStep | src/branch.py:219-259 | the march invariant survives each of those three ways |
| SupplyLine.SupplyMarchKeeps | src/branch.py:167-259 | the march invariant holds at n if it holds at n−1 |
| SupplyLine.SupplyInvariants | src/branch.py:140-259 | after any number of passes: row k sits at the summed length of segments 0..k; the total heat is the initial heat minus losses and consumer heats so far; the mass flow is the initial flow plus take-offs so far |
| SupplyLine.SupplyEndsAtBranchLength | src/branch.py:124-135 | a completed supply march ends at the branch length |
| SupplyLine.PrefixLengthBounds | src/branch.py:219 | with non-negative lengths, prefix sums are non-negative and grow with the prefix |
| SupplyLine.PositionsOrdered | src/branch.py:219 | row positions are ordered and lie within the branch |
| SupplyLine.SupplyPositionsWithinBranch | src/branch.py:219-254 | all supply row positions are non-decreasing and lie between 0 and the branch length |
| ReturnLine.NextConsumer | src/branch.py:349-350 | the inner while loop finds the nearest nonzero take-off at or below j, or runs off the table with KeyError −1 |
| ReturnLine.MatchConsumer | src/branch.py:348-355 | zero take-off leaves the cursor; otherwise it picks the nearest supply consumer at or below the cursor, negates its flow and moves the cursor below it, or raises KeyError at the index it could not read |
| ReturnLine.ConsumerExample | src/branch.py:348-355 | a five-segment example of cursor moves, picks and the KeyError |
| ReturnLine.Mix | src/branch.py:358 | the mixed temperature is the mass-weighted average; with no consumer it is the outlet temperature |
| ReturnLine.MixBetween | src/branch.py:358 | with non-negative flows the mixed temperature lies between the two inlet temperatures |
| ReturnLine.ReturnRecord | src/branch.py:358-403 | fails exactly on a zero mixed mass flow or zero density; otherwise carries position, losses, heat and mass on and takes the consumer match |
| ReturnLine.ReturnPass | src/branch.py:298-403 | a successful pass carries the running values on, using the consumer match |
| ReturnLine.ReturnPassOrder | src/branch.py:298-403 | a pass fails first on geometry, then on the outlet iteration, then on the consumer match, and otherwise records the segment |
| ReturnLine.ReturnStart | src/branch.py:279-296 | the return march starts at the return inlet temperature, with the last supply mass flow, at the branch length, with the cursor on the last supply segment |
| ReturnLine.ReturnFrom | src/branch.py:298-403 | a march has no error exactly when it wrote one row per pass, and the cursor stays in range |
| ReturnLine.ReturnAdvance | src/branch.py:298-403 | one loop pass appends the row, the pick and the cursor, or stops with the pass's error |
| ReturnLine.ReturnStops | src/branch.py:298-403 | once a pass fails, later passes change nothing |
| ReturnLine.ConsumersPrefix | src/branch.py:348 | the consumer count grows by one exactly at a nonzero take-off |
| ReturnLine.ConsumersSkipZeros | src/branch.py:349-350 | skipped zero take-offs do not change the consumer count |
| ReturnLine.ReturnPassKeeps | src/branch.py:363-403 | the position, heat-balance and mass-flow invariants survive one pass |
| ReturnLine.ReturnPositionsKeep | src/branch.py:363 | the position invariant survives one pass |
| ReturnLine.ReturnSumsKeep | src/branch.py:370-403 | the heat-balance and mass-flow invariants survive one pass |
| ReturnLine.PicksExtend | src/branch.py:349-352 | picking the nearest consumer keeps picks decreasing, complete above the cursor and counted |
| ReturnLine.PicksKeep | src/branch.py:348-355 | every consumer match keeps the pick invariant |
| ReturnLine.MatchedKeep | src/branch.py:348-355 | every consumer match keeps row k's consumer flow tied to the pick numbered by the return consumers before k |
| ReturnLine.ReturnFromCases | src/branch.py:298-403 | the march over n segments follows from the march over n−1 in one of three ways |
| ReturnLine.ReturnHoldsStep | src/branch.py:363-403 | the march invariant survives each of those three ways |
| ReturnLine.ReturnInvariants | src/branch.py:267-403 | after any number of passes: row k sits at the branch length minus the return lengths 0..k; the total heat is the initial heat minus losses plus return consumer heats; the mass flow is the last supply flow plus returned consumer flows |
| ReturnLine.MatchingStep | src/branch.py:348-355 | the matching invariants survive each of the three ways |
| ReturnLine.ReturnMatching | src/branch.py:296-355 | after any number of passes, the n-th return consumer takes back the negated flow of the n-th supply consumer counted from the far end |
| ReturnLine.ReturnNeedsSupplyConsumers | src/branch.py:348-352 | a completed return march has no more consumers than the supply line |
| ReturnLine.ReturnEndsAtPlant | src/branch.py:363 | a completed return march ends at the supply length minus the return length |
| SystemFlow.ShorterLength | src/branch.py:419-422 | the shorter of the two table lengths |
| SystemFlow.TailOffset | src/branch.py:424-428 | the return length minus the offset is the shorter length, so both return tables are read at the same index |
| SystemFlow.Emit | src/branch.py:442-448 | a row copies the supply position and length and the last value; a missing supply input row raises KeyError; an unbound value raises UnboundLocalError |
| SystemFlow.SystemPass | src/branch.py:430-448 | the supply read index never passes the row index |
| SystemFlow.SystemFrom | src/branch.py:430-448 | the loop has no error exactly when it wrote one row per pass |
| SystemFlow.SystemStops | src/branch.py:430-448 | once a pass fails, later passes change nothing |
| SystemFlow.SystemPassKeeps | src/branch.py:430-448 | the row, value and tracking invariants survive one pass |
| SystemFlow.SystemInvariants | src/branch.py:410-448 | every row has the supply position; a hit row holds the next supply total minus the aligned return total, in MW; other rows repeat the previous value |
| SystemFlow.SystemNeedsShorterSupply | src/branch.py:419-431 | when the supply output is not shorter than the return output, the first pass reads one past the end of the return input and raises KeyError |
| SystemFlow.SystemCompletes | src/branch.py:419-448 | with a shorter supply output, the loop completes exactly when the supply input is long enough and the first pass is a hit |
| SystemFlow.SystemRuns | src/branch.py:430-448 | under those conditions no pass fails |
| BranchEngine.Branch.New | src/branch.py:44-76 | constructing a branch succeeds exactly when the setup can be made, and otherwise raises the setup's error; a new branch holds the setup and its inputs, with empty output tables |
| BranchEngine.Branch.constructor | src/branch.py:44-76 | a branch holds its setup and inputs, and empty output tables |
| BranchEngine.Branch.SupplySegment | src/branch.py:167-259 | one loop body computes a supply pass |
| BranchEngine.Branch.CalculateSupply | src/branch.py:140-259 | the supply loop appends exactly the rows of the supply march and reports its error |
| BranchEngine.Branch.FindConsumer | src/branch.py:348-355 | the inner while loop computes the consumer match |
| BranchEngine.Branch.ReturnSegment | src/branch.py:298-403 | one loop body computes a return pass |
| BranchEngine.Branch.CalculateReturn | src/branch.py:267-403 | with no supply output it raises SupplyDataMissingError and writes nothing; otherwise it appends exactly the rows of the return march and reports its error |
| BranchEngine.Branch.SystemRowAt | src/branch.py:431-448 | one loop body computes a system pass |
| BranchEngine.Branch.CalculateSystemHeatFlow | src/branch.py:410-448 | the system loop appends exactly the rows of the system march and reports its error |

## Left out

- Console output, plots, and CSV/JSON reading and writing are left out: they are I/O.
  - `print_input_data` is not modelled.
  - The catalogue file and the input tables are passed in as values.
- The instance counter (`get_class_instance_count` and the `name` keyword) is
  not modelled. It is bookkeeping with no effect on the calculations.
- The module-global pandas DataFrames become fields of the `Branch` object. Their
  sharing between `Branch` objects is not modelled.
- CoolProp, `np.log` and `TZERO` are supplied as values in `Externals`. The model
  states nothing about the fluid properties themselves.
- Floating point is modelled as exact real arithmetic, so rounding is not modelled.
- Outlet.OutputTemperature: it carries an iteration bound (`maxIter`) and fails with
  `NoConvergence` when the bound is reached. The source loop has no bound, and the
  model does not prove that the iteration converges.
- Division by zero: every division in the modelled code is guarded, and a zero
  divisor fails with `DivisionByZero` instead of dividing. The guards are:
  - a zero diameter, length, heat transfer coefficient or conductivity in the
    resistance of a segment (`BranchData.SegmentGeometry`);
  - a zero total resistance, a zero mdot·cp or a zero inlet temperature in the
    outlet iteration (`Outlet.OutputTemperature`);
  - a zero density (`SupplyLine.SupplyRecord`, `ReturnLine.ReturnRecord`);
  - a zero mixed mass flow (`ReturnLine.ReturnRecord`);
  - the empty velocity list (`Functions.AverageFlowVelocity`). This one matches
    the source, where Python raises `ZeroDivisionError`.
  Where the divisor is a numpy value, the source would give inf or NaN and
  carry on. The model stops instead.
- Nominal sizes are integer keys. The source uses the catalogue's keys directly.
- BranchData.MakeSetup: the damage mode is a required argument. The source
  defaults it to "average"; that default is the caller passing `AVERAGE`, as
  `BranchData.DefaultAverageDamage` does.
- Functions.RTotal: it has no contract of its own. What it means is stated by
  `Functions.RTotalPerLength`.
- BranchEngine.Branch.BranchLength: it has no contract of its own. It is the
  length sum that `SupplyLine.SupplyEndsAtBranchLength` and
  `ReturnLine.ReturnStart` use.
- SupplyLine.SupplyRecord: the per-metre loss is stated as
  `qNormLoss · length == qLoss` for each row. There is no lemma over the whole table.
- Checks that a lookup result `is None` cannot fire on the modelled lookups,
  which raise instead. They are left out.

## Notes on the source

These are behaviours the model keeps exactly as the code has them.

- The fallback in `calculate_output_temperature` (`(t_in - t_out) / 2`) runs
  only on a `ZeroDivisionError`. `np.log` of two positive floats does not raise
  one, so the fallback is modelled but is likely never reached.
- `k_ins_damaged` equals `k_ins` in the model parameters. So damaged and intact
  insulation differ only in thickness.
- In element mode the insulation fraction comes from the segment's own input
  column. The validated list is checked but not otherwise used.
- The specific heat inside both loops uses the default fluid "Water". The
  initial total heat flow uses the configured fluid.
- The system loop reads the return output and the return input at the same
  aligned index. It completes only when the supply output is strictly shorter
  than the return output (`SystemFlow.SystemNeedsShorterSupply`,
  `SystemFlow.SystemCompletes`).

## Findings

| source | as written | input that shows it | evidently intended | confidence | as-written member | corrected member |
|---|---|---|---|---|---|---|
| src/utils/functions.py:114-120 | the loop sums only the first len−1 velocities but divides by len | `[2.0]` gives 0.0 | the mean of all velocities, 2.0 | not executed | Functions.AverageFlowVelocity (Functions.AverageOfOneVelocity, Functions.AverageDropsLastValue) | Functions.MeanFlowVelocity (Functions.MeanWithinBounds) |
