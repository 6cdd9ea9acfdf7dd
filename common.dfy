/** Shared vocabulary: optional values, results, and the failures the
    branch calculation can stop with. Each failure names the Python exception
    class the original program raises for it, so that the order in which
    checks run stays observable even where two checks raise the same class. */
module Common {

  datatype Option<+T> = None | Some(value: T)

  datatype Result<+T> = Ok(value: T) | Err(error: Error)

  /** The Python exception classes raised by the modelled code. */
  datatype PyException =
    | KeyError
    | ValueError
    | TypeError
    | ZeroDivisionError
    | UnboundLocalError
    | SupplyDataMissingError
    | IterationLimit   // no counterpart: the source loops without bound

  datatype Error =
    | MissingCatalogKey(key: string)              // th_all[...] in Branch.__init__
    | UnknownPipeSize(nominal: int)               // th_pipe[DN]
    | UnknownLocation(location: string)           // select_heat_transfer_coeff / select_ambient_temperature
    | UnknownInsulationLocation(location: string) // calculate_insulation_thickness, first check
    | UnknownInsulationSize(location: string, nominal: int) // calculate_insulation_thickness, second check
    | DamageNotNumber                             // validate_damage, mode "average"
    | DamageNotList                               // validate_damage, mode "element"
    | DamageItemNotNumber                         // validate_damage, mode "element"
    | DamageOutOfRange                            // validate_damage, both modes
    | DamageModeUnknown                           // validate_damage, any other mode
    | NonPositiveTemperature(tIn: real, tOut: real) // calculate_output_temperature
    | DivisionByZero
    | SupplyDataMissing                           // calculate_return before calculate_supply
    | IndexOutOfRange(index: int)                 // label lookup past either end of a column
    | UnboundValue                                // qdot_system_i_w read before assignment
    | NoConvergence                               // the iteration bound of the outlet solver ran out
  {
    /** The exception class the source raises for this failure. */
    function Exception(): PyException {
      match this
      case MissingCatalogKey(_) => KeyError
      case UnknownPipeSize(_) => KeyError
      case UnknownLocation(_) => ValueError
      case UnknownInsulationLocation(_) => ValueError
      case UnknownInsulationSize(_, _) => ValueError
      case DamageNotNumber => TypeError
      case DamageNotList => TypeError
      case DamageItemNotNumber => TypeError
      case DamageOutOfRange => ValueError
      case DamageModeUnknown => ValueError
      case NonPositiveTemperature(_, _) => ValueError
      case DivisionByZero => ZeroDivisionError
      case SupplyDataMissing => SupplyDataMissingError
      case IndexOutOfRange(_) => KeyError
      case UnboundValue => UnboundLocalError
      case NoConvergence => IterationLimit
    }
  }

  function Abs(x: real): (r: real)
    ensures r >= 0.0 && (r == x || r == -x)
  {
    if x < 0.0 then -x else x
  }

}
