/** Validation of the insulation damage specification given to a branch: a
    mode string and a dynamically typed value. */
module Validation {
  import opened Common

  const AVERAGE: string := "average"
  const ELEMENT: string := "element"

  /** The Python values a caller can pass as the damage value. `bool` is a
      subclass of `int` in Python, so it passes the numeric type check. */
  datatype PyValue =
    | PyFloat(f: real)
    | PyInt(i: int)
    | PyBool(b: bool)
    | PyList(items: seq<PyValue>)
    | PyOther   // None, a string, a dict, ...

  /** isinstance(v, (float, int)) */
  predicate IsNumber(v: PyValue) {
    v.PyFloat? || v.PyInt? || v.PyBool?
  }

  /** float(v) for a numeric value. */
  function AsReal(v: PyValue): real
    requires IsNumber(v)
  {
    match v
    case PyFloat(f) => f
    case PyInt(i) => i as real
    case PyBool(b) => if b then 1.0 else 0.0
  }

  predicate InUnitRange(x: real) {
    0.0 <= x <= 1.0
  }

  /** A validated damage specification: one thickness applied wherever a
      segment records no damage, or a list of per-element fractions. */
  datatype Damage = AverageDamage(thickness: real) | ElementDamage(fractions: seq<PyValue>)

  /** all(isinstance(x, (float, int)) for x in items) */
  function AllNumbers(items: seq<PyValue>): (b: bool)
    ensures b <==> forall k :: 0 <= k < |items| ==> IsNumber(items[k])
  {
    if items == [] then true
    else IsNumber(items[0]) && AllNumbers(items[1..])
  }

  /** any(x < 0 or x > 1 for x in items) */
  function AnyOutOfRange(items: seq<PyValue>): (b: bool)
    requires forall k :: 0 <= k < |items| ==> IsNumber(items[k])
    ensures b <==> exists k :: 0 <= k < |items| && !InUnitRange(AsReal(items[k]))
  {
    if items == [] then false
    else AsReal(items[0]) < 0.0 || AsReal(items[0]) > 1.0 || AnyOutOfRange(items[1..])
  }

  /** When a damage specification is acceptable, stated without the order of
      the checks. */
  predicate ValidDamage(mode: string, percent: PyValue) {
    (mode == AVERAGE && IsNumber(percent) && InUnitRange(AsReal(percent))) ||
    (mode == ELEMENT && percent.PyList? &&
       forall k :: 0 <= k < |percent.items| ==>
         IsNumber(percent.items[k]) && InUnitRange(AsReal(percent.items[k])))
  }

  /** validate_damage: checks the mode, then the type, then the range. */
  function ValidateDamage(mode: string, percent: PyValue): (r: Result<Damage>)
    ensures r.Ok? <==> ValidDamage(mode, percent)
    ensures r.Ok? && mode == AVERAGE ==> r.value == AverageDamage(AsReal(percent))
    ensures r.Ok? && mode == ELEMENT ==> r.value == ElementDamage(percent.items)
    ensures mode != AVERAGE && mode != ELEMENT ==> r == Err(DamageModeUnknown)
    // type errors are raised before range errors
    ensures mode == AVERAGE && !IsNumber(percent) ==> r == Err(DamageNotNumber)
    ensures mode == ELEMENT && !percent.PyList? ==> r == Err(DamageNotList)
    ensures mode == ELEMENT && percent.PyList? &&
            (exists k :: 0 <= k < |percent.items| && !IsNumber(percent.items[k])) ==>
              r == Err(DamageItemNotNumber)
    // an in-type value outside [0, 1] is a range error
    ensures mode == AVERAGE && IsNumber(percent) && !InUnitRange(AsReal(percent)) ==>
              r == Err(DamageOutOfRange)
    ensures mode == ELEMENT && percent.PyList? && AllNumbers(percent.items) && AnyOutOfRange(percent.items) ==>
              r == Err(DamageOutOfRange)
    ensures r.Err? && r.error.Exception() == ValueError ==>
              r.error == DamageModeUnknown || r.error == DamageOutOfRange
  {
    if mode == AVERAGE then
      if !IsNumber(percent) then Err(DamageNotNumber)
      else if !(0.0 <= AsReal(percent) <= 1.0) then Err(DamageOutOfRange)
      else Ok(AverageDamage(AsReal(percent)))
    else if mode == ELEMENT then
      if !percent.PyList? then Err(DamageNotList)
      else if !AllNumbers(percent.items) then Err(DamageItemNotNumber)
      else if AnyOutOfRange(percent.items) then Err(DamageOutOfRange)
      else Ok(ElementDamage(percent.items))
    else Err(DamageModeUnknown)
  }

  /** A list holding both a non-number and an out-of-range number is a type
      error, and an empty list is accepted. */
  lemma TypeCheckedBeforeRange()
    ensures ValidateDamage(ELEMENT, PyList([PyFloat(2.0), PyOther])) == Err(DamageItemNotNumber)
    ensures ValidateDamage(ELEMENT, PyList([PyFloat(2.0), PyFloat(0.5)])) == Err(DamageOutOfRange)
    ensures ValidateDamage(ELEMENT, PyList([])) == Ok(ElementDamage([]))
    ensures ValidateDamage(AVERAGE, PyBool(true)) == Ok(AverageDamage(1.0))
  {
    var bad := [PyFloat(2.0), PyOther];
    assert !IsNumber(bad[1]);
    var high := [PyFloat(2.0), PyFloat(0.5)];
    assert !InUnitRange(AsReal(high[0]));
  }

  /** Every accepted value is in [0, 1]: the average value itself, or each
      element of the list. */
  lemma AcceptedValuesInRange(mode: string, percent: PyValue)
    requires ValidateDamage(mode, percent).Ok?
    ensures match ValidateDamage(mode, percent).value
            case AverageDamage(x) => InUnitRange(x)
            case ElementDamage(fs) => forall k :: 0 <= k < |fs| ==>
                                        IsNumber(fs[k]) && InUnitRange(AsReal(fs[k]))
  {
  }
}
