/** The luminous-intensity catalog
    (phys_calc/src/base/luminous_intensity.rs): multipliers to candelas. */
module BaseLuminousIntensity {

  datatype LuminousIntensityUnit = Candela | CandlePower | HefnerLamp

  function Multiplier(u: LuminousIntensityUnit): (r: real)
    ensures r > 0.0
    ensures r == 1.0 <==> u == Candela
  {
    match u
    case Candela => 1.0
    case CandlePower => 0.981
    case HefnerLamp => 0.920
  }

  function Symbol(u: LuminousIntensityUnit): string
  {
    match u
    case Candela => "cd"
    case CandlePower => "cp"
    case HefnerLamp => "HK"
  }

  /** Distinct units display distinct symbols. */
  lemma SymbolsDistinct(u: LuminousIntensityUnit, v: LuminousIntensityUnit)
    requires u != v
    ensures Symbol(u) != Symbol(v)
  {
  }
}
