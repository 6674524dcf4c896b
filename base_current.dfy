/** The electric-current catalog (phys_calc/src/base/current.rs):
    multipliers to amperes. */
module BaseCurrent {

  datatype CurrentUnit = Nanoampere | Microampere | Milliampere | Ampere | Kiloampere

  function Multiplier(u: CurrentUnit): (r: real)
    ensures r > 0.0
    ensures r == 1.0 <==> u == Ampere
  {
    match u
    case Nanoampere => 1.0e-9
    case Microampere => 1.0e-6
    case Milliampere => 1.0e-3
    case Ampere => 1.0
    case Kiloampere => 1.0e3
  }

  /** The microampere symbol is stored mis-encoded in the source, and kept so. */
  function Symbol(u: CurrentUnit): string
  {
    match u
    case Nanoampere => "nA"
    case Microampere => "Î¼A"
    case Milliampere => "mA"
    case Ampere => "A"
    case Kiloampere => "kA"
  }

  /** Distinct units display distinct symbols. */
  lemma SymbolsDistinct(u: CurrentUnit, v: CurrentUnit)
    requires u != v
    ensures Symbol(u) != Symbol(v)
  {
  }
}
