/** The time catalog (phys_calc/src/base/time.rs): multipliers to seconds. */
module BaseTime {

  datatype TimeUnit =
    | Picosecond | Nanosecond | Microsecond | Millisecond | Second
    | Minute | Hour | Day | Month | Year | AgeOfUniverse

  function Multiplier(u: TimeUnit): (r: real)
    ensures r > 0.0
    ensures r == 1.0 <==> u == Second
  {
    match u
    case Picosecond => 1.0e-12
    case Nanosecond => 1.0e-9
    case Microsecond => 1.0e-6
    case Millisecond => 1.0e-3
    case Second => 1.0
    case Minute => 60.0
    case Hour => 3600.0
    case Day => 86400.0
    case Month => 2629800.0
    case Year => 31557600.0
    case AgeOfUniverse => 4.348e17
  }

  function Symbol(u: TimeUnit): string
  {
    match u
    case Picosecond => "ps"
    case Nanosecond => "ns"
    case Microsecond => "μs"
    case Millisecond => "ms"
    case Second => "s"
    case Minute => "min"
    case Hour => "hr"
    case Day => "day"
    case Month => "month"
    case Year => "yr"
    case AgeOfUniverse => "AgeOfUniverse"
  }

  /** Distinct units display distinct symbols. */
  lemma SymbolsDistinct(u: TimeUnit, v: TimeUnit)
    requires u != v
    ensures Symbol(u) != Symbol(v)
  {
  }
}
