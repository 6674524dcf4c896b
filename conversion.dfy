/** Unit conversion within one dimension: the `to_base`, `from_base` and
    `convert` that every file under phys_calc/src/base/ defines.  Nine
    dimensions share the trait default (multiply by `mult()` on the way
    to the base unit, divide on the way back); temperature gives each unit
    its own affine pair instead. */
module Conversion {
  import opened Wrappers
  import opened Units
  import BaseLength
  import BaseTime
  import BaseTemperature
  import BaseMass
  import BaseCurrent
  import BaseLuminousIntensity
  import BaseQuantity
  import BaseAngle
  import BaseSolidAngle
  import BaseDigitalInformation

  /** A single-dimension quantity such as `Length<Kilometer>`: a magnitude,
      the dimension (the struct) and the unit type parameter. */
  datatype Measure = Measure(inner: real, dim: Dim, unit: UnitSlot)

  /** The type parameter is bounded by the dimension's unit trait. */
  predicate WellTyped(m: Measure)
  {
    Fits(m.unit, m.dim)
  }

  /** The unit whose multiplier is 1 in each catalog: the scale `to_base`
      actually produces. */
  function BaseUnitOf(d: Dim): (u: BaseUnit)
    ensures DimOf(u) == d
    ensures UnitMultiplier(u) == 1.0
  {
    match d
    case Length => OfLength(BaseLength.Meter)
    case Time => OfTime(BaseTime.Second)
    case Temp => OfTemp(BaseTemperature.Kelvin)
    case Mass => OfMass(BaseMass.Kilogram)
    case Current => OfCurrent(BaseCurrent.Ampere)
    case LuminousIntensity => OfLuminousIntensity(BaseLuminousIntensity.Candela)
    case Quantity => OfQuantity(BaseQuantity.Single)
    case Angle => OfAngle(BaseAngle.Radian)
    case SolidAngle => OfSolidAngle(BaseSolidAngle.Steradian)
    case DigitalInformation => OfDigitalInformation(BaseDigitalInformation.Bit)
  }

  /** The unit named in each `to_base` signature.  It agrees with
      `BaseUnitOf` except for digital information, whose `to_base` is typed
      `DigitalInformation<Byte>`. */
  function DeclaredBaseUnit(d: Dim): (u: BaseUnit)
    ensures DimOf(u) == d
    ensures d != DigitalInformation <==> u == BaseUnitOf(d)
  {
    if d == DigitalInformation then OfDigitalInformation(BaseDigitalInformation.Byte)
    else BaseUnitOf(d)
  }

  /** The magnitude of a measure on its dimension's base scale. */
  function Amount(m: Measure): (a: real)
    requires m.unit.Concrete?
    ensures a / UnitMultiplier(m.unit.unit) == m.inner
  {
    ToBaseScale(m.inner, UnitMultiplier(m.unit.unit))
  }

  /** A magnitude in a unit of multiplier `k`, on the base scale; `Rescale`
      is its inverse. */
  function ToBaseScale(x: real, k: real): (b: real)
    requires k > 0.0
    ensures b / k == x
  {
    MultiplyThenDivide(x, k);
    x * k
  }

  /** `to_base` as the source writes it: the magnitude on the base scale,
      tagged with the unit of the signature. */
  function ToBaseAsWritten(m: Measure): (r: Result<Measure>)
    requires WellTyped(m)
    ensures r.Err? <==> m.unit.NoneUnit?
    ensures r.Err? ==> r.error == PlaceholderUnit
    ensures r.Ok? ==> r.value.dim == m.dim && r.value.unit == Concrete(DeclaredBaseUnit(m.dim))
    ensures r.Ok? && m.dim != Temp ==> r.value.inner == Amount(m)
  {
    match m.unit
    case NoneUnit => Err(PlaceholderUnit)
    case Concrete(u) =>
      var x := if m.dim == Temp then BaseTemperature.ToKelvin(u.temp, m.inner) else Amount(m);
      Ok(Measure(x, m.dim, Concrete(DeclaredBaseUnit(m.dim))))
  }

  /** `to_base`, with the result tagged by the unit whose scale it is on.
      The rest of the model uses this one. */
  function ToBase(m: Measure): (r: Result<Measure>)
    requires WellTyped(m)
    ensures r.Err? <==> m.unit.NoneUnit?
    ensures r.Err? ==> r.error == PlaceholderUnit
    ensures r.Ok? ==> r.value.dim == m.dim && r.value.unit == Concrete(BaseUnitOf(m.dim))
    ensures r.Ok? && m.dim != Temp ==> r.value.inner == Amount(m)
    ensures r.Ok? && m.dim == Temp ==> r.value.inner == BaseTemperature.ToKelvin(m.unit.unit.temp, m.inner)
  {
    match m.unit
    case NoneUnit => Err(PlaceholderUnit)
    case Concrete(u) =>
      var x := if m.dim == Temp then BaseTemperature.ToKelvin(u.temp, m.inner) else Amount(m);
      Ok(Measure(x, m.dim, Concrete(BaseUnitOf(m.dim))))
  }

  /** `from_base` of the target unit: a magnitude on the base scale,
      expressed in `target`. */
  function FromBase(b: real, d: Dim, target: UnitSlot): (r: Result<Measure>)
    requires Fits(target, d)
    ensures r.Err? <==> target.NoneUnit?
    ensures r.Err? ==> r.error == PlaceholderUnit
    ensures r.Ok? ==> r.value.dim == d && r.value.unit == target
    ensures r.Ok? && d != Temp ==> Amount(r.value) == b
    ensures r.Ok? && d == Temp ==> BaseTemperature.ToKelvin(target.unit.temp, r.value.inner) == b
  {
    match target
    case NoneUnit => Err(PlaceholderUnit)
    case Concrete(u) =>
      if d == Temp then
        Ok(Measure(BaseTemperature.FromKelvin(u.temp, b), d, target))
      else
        Ok(Measure(Rescale(b, UnitMultiplier(u)), d, target))
  }

  /** A base-scale magnitude expressed in a unit of multiplier `k`: the
      number that `k` scales back to it. */
  function Rescale(b: real, k: real): (x: real)
    requires k > 0.0
    ensures x * k == b
  {
    DivideThenMultiply(b, k);
    b / k
  }

  /** `convert::<D>()`: `D::from_base(L::to_base(self))`. */
  function Convert(m: Measure, target: UnitSlot): (r: Result<Measure>)
    requires WellTyped(m) && Fits(target, m.dim)
    ensures r.Err? <==> m.unit.NoneUnit? || target.NoneUnit?
    ensures r.Err? ==> r.error == PlaceholderUnit
    ensures r.Ok? ==> r.value.dim == m.dim && r.value.unit == target
    ensures r.Ok? && m.dim != Temp ==> Amount(r.value) == Amount(m)
    ensures r.Ok? && m.dim == Temp ==>
      BaseTemperature.ToKelvin(target.unit.temp, r.value.inner) == BaseTemperature.ToKelvin(m.unit.unit.temp, m.inner)
  {
    match ToBase(m)
    case Err(e) => Err(e)
    case Ok(b) => FromBase(b.inner, m.dim, target)
  }

  lemma DivideThenMultiply(x: real, k: real)
    requires k > 0.0
    ensures x / k * k == x
  {
  }

  lemma MultiplyThenDivide(x: real, k: real)
    requires k > 0.0
    ensures x * k / k == x
  {
  }

  /** Outside temperature, converting takes the amount on the base scale
      (the magnitude times the source unit's multiplier) and divides it by
      the target's multiplier. */
  lemma ConvertScales(m: Measure, target: BaseUnit)
    requires WellTyped(m) && m.unit.Concrete? && DimOf(target) == m.dim && m.dim != Temp
    ensures Convert(m, Concrete(target)) == Ok(Measure(Amount(m) / UnitMultiplier(target), m.dim, Concrete(target)))
  {
    var b := ToBase(m).value;
    assert b.inner == Amount(m);
  }

  /** Converting there and back returns the original measure, in every
      dimension including temperature. */
  lemma ConvertRoundTrip(m: Measure, target: BaseUnit)
    requires WellTyped(m) && m.unit.Concrete? && DimOf(target) == m.dim
    ensures Convert(m, Concrete(target)).Ok?
    ensures Convert(Convert(m, Concrete(target)).value, m.unit) == Ok(m)
  {
    if m.dim == Temp {
      TemperatureRoundTrip(m, target);
    } else {
      ScaledRoundTrip(m, target);
    }
  }

  lemma TemperatureRoundTrip(m: Measure, target: BaseUnit)
    requires WellTyped(m) && m.unit.Concrete? && DimOf(target) == m.dim && m.dim == Temp
    ensures Convert(m, Concrete(target)).Ok?
    ensures Convert(Convert(m, Concrete(target)).value, m.unit) == Ok(m)
  {
    var u, t := m.unit.unit.temp, target.temp;
    var k := BaseTemperature.ToKelvin(u, m.inner);
    var there := Convert(m, Concrete(target)).value;
    assert there == Measure(BaseTemperature.FromKelvin(t, k), Temp, Concrete(target));
    BaseTemperature.AffinePairsInvert(t, k);
    var back := Convert(there, m.unit).value;
    assert back == Measure(BaseTemperature.FromKelvin(u, k), Temp, m.unit);
    BaseTemperature.AffinePairsInvert(u, m.inner);
  }

  lemma ScaledRoundTrip(m: Measure, target: BaseUnit)
    requires WellTyped(m) && m.unit.Concrete? && DimOf(target) == m.dim && m.dim != Temp
    ensures Convert(m, Concrete(target)).Ok?
    ensures Convert(Convert(m, Concrete(target)).value, m.unit) == Ok(m)
  {
    var there := Convert(m, Concrete(target)).value;
    var back := Convert(there, m.unit).value;
    SameAmountSameInner(back, m);
  }

  /** Two measures in the same unit and the same amount are equal. */
  lemma SameAmountSameInner(x: Measure, y: Measure)
    requires x.unit.Concrete? && x.unit == y.unit && x.dim == y.dim
    requires Amount(x) == Amount(y)
    ensures x == y
  {
    assert x.inner == Amount(x) / UnitMultiplier(x.unit.unit);
  }

  /** Converting a measure to its own unit changes nothing. */
  lemma ConvertToSelf(m: Measure)
    requires WellTyped(m) && m.unit.Concrete?
    ensures Convert(m, m.unit) == Ok(m)
  {
    if m.dim == Temp {
      BaseTemperature.AffinePairsInvert(m.unit.unit.temp, m.inner);
    } else {
      SameAmountSameInner(Convert(m, m.unit).value, m);
    }
  }

  /** Converting to the base unit is `to_base`. */
  lemma ConvertToBaseIsToBase(m: Measure)
    requires WellTyped(m) && m.unit.Concrete?
    ensures Convert(m, Concrete(BaseUnitOf(m.dim))) == ToBase(m)
  {
  }

  /** The corrected `to_base` keeps the amount the measure stands for. */
  lemma ToBaseKeepsAmount(m: Measure)
    requires WellTyped(m) && m.unit.Concrete? && m.dim != Temp
    ensures ToBase(m).Ok? && Amount(ToBase(m).value) == Amount(m)
  {
    var b := ToBase(m).value;
    assert UnitMultiplier(b.unit.unit) == 1.0;
    assert Amount(b) == b.inner * 1.0;
  }

  /** `convert` over `to_base` as the source writes it. */
  function ConvertAsWritten(m: Measure, target: UnitSlot): (r: Result<Measure>)
    requires WellTyped(m) && Fits(target, m.dim)
    ensures r.Err? <==> m.unit.NoneUnit? || target.NoneUnit?
    ensures r.Ok? ==> r.value.dim == m.dim && r.value.unit == target
  {
    match ToBaseAsWritten(m)
    case Err(e) => Err(e)
    case Ok(b) => FromBase(b.inner, m.dim, target)
  }

  /** The mislabelled tag is the only difference: `to_base` as written
      carries the same magnitude as the corrected one, so `convert`, which
      reads only the magnitude, gives the same result either way. */
  lemma MislabelLeavesConvertUnchanged(m: Measure, target: UnitSlot)
    requires WellTyped(m) && Fits(target, m.dim)
    ensures ToBaseAsWritten(m).Ok? <==> ToBase(m).Ok?
    ensures ToBaseAsWritten(m).Ok? ==> ToBaseAsWritten(m).value.inner == ToBase(m).value.inner
    ensures ConvertAsWritten(m, target) == Convert(m, target)
  {
  }

  /** As written, digital information's `to_base` reports one byte as eight
      bytes: the magnitude is on the bit scale but the tag says `Byte`. */
  lemma ToBaseAsWrittenMislabelsBytes()
    ensures var m := Measure(1.0, DigitalInformation, Concrete(OfDigitalInformation(BaseDigitalInformation.Byte)));
      ToBaseAsWritten(m) == Ok(Measure(8.0, DigitalInformation, Concrete(OfDigitalInformation(BaseDigitalInformation.Byte))))
      && Amount(ToBaseAsWritten(m).value) == 64.0 && Amount(m) == 8.0
  {
  }
}
