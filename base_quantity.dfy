/** The amount-of-substance catalog (phys_calc/src/base/quantity.rs):
    multipliers to single entities. */
module BaseQuantity {

  datatype QuantityUnit = Single | Mole

  function Multiplier(u: QuantityUnit): (r: real)
    ensures r > 0.0
    ensures r == 1.0 <==> u == Single
  {
    match u
    case Single => 1.0
    case Mole => 6.022e23
  }

  function Symbol(u: QuantityUnit): string
  {
    match u
    case Single => ""
    case Mole => "mol"
  }

  /** Distinct units display distinct symbols. */
  lemma SymbolsDistinct(u: QuantityUnit, v: QuantityUnit)
    requires u != v
    ensures Symbol(u) != Symbol(v)
  {
  }
}
