/** The temperature catalog (phys_calc/src/base/temperature.rs).  Unlike the
    other dimensions, each unit gives its own affine pair of conversions to
    and from kelvin; the `mult()` values are declared but not used by them. */
module BaseTemperature {

  datatype TempUnit = Kelvin | Celsius | Fahrenheit

  /** The `mult()` values the source declares (1, 1 and 1.8): the number
      of the unit's degrees in one kelvin, so 1 exactly for the scales
      whose degree is the kelvin. */
  function Multiplier(u: TempUnit): (r: real)
    ensures r > 0.0
    ensures r * DegreeSize(u) == 1.0
    ensures r == 1.0 <==> DegreeSize(u) == 1.0
  {
    match u
    case Kelvin => 1.0
    case Celsius => 1.0
    case Fahrenheit => 1.8
  }

  function Symbol(u: TempUnit): string
  {
    match u
    case Kelvin => "K"
    case Celsius => "°C"
    case Fahrenheit => "°F"
  }

  /** Distinct units display distinct symbols. */
  lemma SymbolsDistinct(u: TempUnit, v: TempUnit)
    requires u != v
    ensures Symbol(u) != Symbol(v)
  {
  }

  /** The reading of the freezing point of water, 273.15 K, on each scale. */
  function FreezingPoint(u: TempUnit): real
  {
    match u
    case Kelvin => 273.15
    case Celsius => 0.0
    case Fahrenheit => 32.0
  }

  /** The size of one degree of each scale, in kelvin. */
  function DegreeSize(u: TempUnit): (r: real)
    ensures r > 0.0
  {
    match u
    case Kelvin => 1.0
    case Celsius => 1.0
    case Fahrenheit => 5.0 / 9.0
  }

  /** `to_base` of each unit: a reading in that unit to kelvin.  Each scale
      is fixed by where water freezes and by the size of its degree. */
  function ToKelvin(u: TempUnit, x: real): (k: real)
    ensures k - 273.15 == (x - FreezingPoint(u)) * DegreeSize(u)
  {
    match u
    case Kelvin => x
    case Celsius => x + 273.15
    case Fahrenheit => (x - 32.0) * (5.0 / 9.0) + 273.15
  }

  /** `from_base` of each unit: kelvin to a reading in that unit. */
  function FromKelvin(u: TempUnit, k: real): (x: real)
    ensures ToKelvin(u, x) == k
  {
    match u
    case Kelvin => k
    case Celsius => k - 273.15
    case Fahrenheit => (k - 273.15) * (9.0 / 5.0) + 32.0
  }

  /** Each `from_base` undoes its `to_base` exactly, and conversely. */
  lemma AffinePairsInvert(u: TempUnit, x: real)
    ensures FromKelvin(u, ToKelvin(u, x)) == x
    ensures ToKelvin(u, FromKelvin(u, x)) == x
  {
  }
}
