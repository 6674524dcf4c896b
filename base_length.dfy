/** The length catalog (phys_calc/src/base/length.rs): each unit with the
    multiplier that takes it to metres and its symbol. */
module BaseLength {

  datatype LengthUnit =
    | Picometer | Nanometer | Micrometer | Millimeter | Centimeter | Decimeter
    | Meter | Kilometer | AstronomicalUnit | Lightyear | Parsec
    | Inch | Foot | Yard | Mile

  function Multiplier(u: LengthUnit): (r: real)
    ensures r > 0.0
    ensures r == 1.0 <==> u == Meter
  {
    match u
    case Picometer => 1.0e-12
    case Nanometer => 1.0e-9
    case Micrometer => 1.0e-6
    case Millimeter => 1.0e-3
    case Centimeter => 0.01
    case Decimeter => 0.1
    case Meter => 1.0
    case Kilometer => 1000.0
    case AstronomicalUnit => 1.495978707e11
    case Lightyear => 9.4607304725808e15
    case Parsec => 3.085677581e16
    case Inch => 0.0254
    case Foot => 0.3048
    case Yard => 0.9144
    case Mile => 1609.34
  }

  function Symbol(u: LengthUnit): string
  {
    match u
    case Picometer => "pm"
    case Nanometer => "nm"
    case Micrometer => "μm"
    case Millimeter => "mm"
    case Centimeter => "cm"
    case Decimeter => "dm"
    case Meter => "m"
    case Kilometer => "km"
    case AstronomicalUnit => "au"
    case Lightyear => "ly"
    case Parsec => "pc"
    case Inch => "in"
    case Foot => "ft"
    case Yard => "yd"
    case Mile => "mi"
  }

  /** Distinct units display distinct symbols. */
  lemma SymbolsDistinct(u: LengthUnit, v: LengthUnit)
    requires u != v
    ensures Symbol(u) != Symbol(v)
  {
  }
}
