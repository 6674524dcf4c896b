/** The mass catalog (phys_calc/src/base/mass.rs): multipliers to kilograms. */
module BaseMass {

  datatype MassUnit =
    | Picogram | Nanogram | Microgram | Milligram | Gram | Kilogram | Tonne
    | Ounce | Pound | ShortTon | LongTon

  function Multiplier(u: MassUnit): (r: real)
    ensures r > 0.0
    ensures r == 1.0 <==> u == Kilogram
  {
    match u
    case Picogram => 1.0e-15
    case Nanogram => 1.0e-12
    case Microgram => 1.0e-9
    case Milligram => 1.0e-6
    case Gram => 1.0e-3
    case Kilogram => 1.0
    case Tonne => 1000.0
    case Ounce => 0.0283495
    case Pound => 0.453592
    case ShortTon => 907.185
    case LongTon => 1016.05
  }

  function Symbol(u: MassUnit): string
  {
    match u
    case Picogram => "pg"
    case Nanogram => "ng"
    case Microgram => "μg"
    case Milligram => "mg"
    case Gram => "g"
    case Kilogram => "kg"
    case Tonne => "t"
    case Ounce => "oz"
    case Pound => "lb"
    case ShortTon => "shortton"
    case LongTon => "longton"
  }

  /** Distinct units display distinct symbols. */
  lemma SymbolsDistinct(u: MassUnit, v: MassUnit)
    requires u != v
    ensures Symbol(u) != Symbol(v)
  {
  }
}
