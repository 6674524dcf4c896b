/** The plane-angle catalog (phys_calc/src/base/angle.rs): multipliers to
    radians, several of them derived from pi. */
module BaseAngle {

  type Positive = r: real | r > 0.0 witness 1.0

  /** The source's `f64` value of pi, kept abstract: every fact proved here
      holds for any positive value. */
  const Pi: Positive

  datatype AngleUnit = Arcsecond | Arcminute | Degree | MilliRadian | Radian | Gradian

  function Multiplier(u: AngleUnit): (r: real)
    ensures r > 0.0
  {
    match u
    case Arcsecond => Pi / 180.0 / 60.0 / 60.0
    case Arcminute => Pi / 180.0 / 60.0
    case Degree => Pi / 180.0
    case MilliRadian => 1.0e-3
    case Radian => 1.0
    case Gradian => Pi / 200.0
  }

  function Symbol(u: AngleUnit): string
  {
    match u
    case Arcsecond => "″"
    case Arcminute => "′"
    case Degree => "°"
    case MilliRadian => "mrad"
    case Radian => "rad"
    case Gradian => "grad"
  }

  /** Distinct units display distinct symbols. */
  lemma SymbolsDistinct(u: AngleUnit, v: AngleUnit)
    requires u != v
    ensures Symbol(u) != Symbol(v)
  {
  }
}
