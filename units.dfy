/**
 * Length conversions between millimetres, metres and Revit's internal unit, the foot.
 * The library helpers first pass their argument through Python's `float()` and return
 * 0.0 when that raises; the clash script's own fallbacks take a number and do not.
 */
module Units {

  /** `_MM_PER_FOOT` */
  const MM_PER_FOOT: real := 304.8
  /** `_FEET_PER_METER` */
  const FEET_PER_METER: real := 3.28083989501312
  /** `_METERS_PER_FOOT` */
  const METERS_PER_FOOT: real := 0.3048

  /** What `float(value)` makes of an argument: a number, or an exception. */
  datatype FloatInput = Parsed(value: real) | Unparsable

  /** `mm_to_internal`: millimetres to feet. */
  function MmToInternal(valueMm: FloatInput): (feet: real)
    ensures valueMm.Parsed? ==> feet * MM_PER_FOOT == valueMm.value
    ensures valueMm.Unparsable? ==> feet == 0.0
  {
    match valueMm
    case Parsed(v) => v / MM_PER_FOOT
    case Unparsable => 0.0
  }

  /** `feet_to_m`: feet to metres, dividing by the feet-per-metre constant. */
  function FeetToM(valueFeet: FloatInput): (metres: real)
    ensures valueFeet.Parsed? ==> metres * FEET_PER_METER == valueFeet.value
    ensures valueFeet.Unparsable? ==> metres == 0.0
  {
    match valueFeet
    case Parsed(v) => v / FEET_PER_METER
    case Unparsable => 0.0
  }

  /** `feet_to_mm` of the shared units module. */
  function FeetToMm(value: FloatInput): (mm: real)
    ensures value.Parsed? ==> mm / MM_PER_FOOT == value.value
    ensures value.Unparsable? ==> mm == 0.0
  {
    match value
    case Parsed(v) => v * MM_PER_FOOT
    case Unparsable => 0.0
  }

  /** The clash script's fallback `mm_to_feet` (no exception handling). */
  function ClashMmToFeet(mm: real): (feet: real)
    ensures feet * MM_PER_FOOT == mm
  {
    mm / MM_PER_FOOT
  }

  /** The clash script's fallback `feet_to_mm` (no exception handling). */
  function ClashFeetToMm(feet: real): (mm: real)
    ensures mm / MM_PER_FOOT == feet
  {
    feet * MM_PER_FOOT
  }

  /** Converting millimetres to feet and back gives the millimetres again. */
  lemma FeetToMmAfterMmToInternal(x: real)
    ensures FeetToMm(Parsed(MmToInternal(Parsed(x)))) == x
  {
  }

  /** Converting feet to millimetres and back gives the feet again. */
  lemma MmToInternalAfterFeetToMm(x: real)
    ensures MmToInternal(Parsed(FeetToMm(Parsed(x)))) == x
  {
  }

  /** `feet_to_mm` is strictly increasing on numbers and maps 0 to 0. */
  lemma FeetToMmStrictlyIncreasing(a: real, b: real)
    requires a < b
    ensures FeetToMm(Parsed(a)) < FeetToMm(Parsed(b))
    ensures FeetToMm(Parsed(0.0)) == 0.0
  {
  }

  /** The shared `feet_to_mm` and the clash script's fallback agree on every number. */
  lemma FeetToMmAgreesWithClashFallback(x: real)
    ensures FeetToMm(Parsed(x)) == ClashFeetToMm(x)
    ensures MmToInternal(Parsed(x)) == ClashMmToFeet(x)
  {
  }

  /**
   * `feet_to_m` divides by 3.28083989501312 while other helpers multiply by 0.3048;
   * over the reals the first is slightly larger in magnitude, by less than 4e-16 of the input.
   */
  lemma FeetToMNearMetersPerFoot(x: real)
    ensures x >= 0.0 ==> x * METERS_PER_FOOT <= FeetToM(Parsed(x)) <= x * METERS_PER_FOOT + x * 0.0000000000000004
    ensures x < 0.0 ==> x * METERS_PER_FOOT + x * 0.0000000000000004 <= FeetToM(Parsed(x)) <= x * METERS_PER_FOOT
  {
    assert METERS_PER_FOOT * FEET_PER_METER < 1.0;
    assert (METERS_PER_FOOT + 0.0000000000000004) * FEET_PER_METER > 1.0;
  }
}
