/** The ten base dimensions, the units that can fill a dimension's slot,
    and the placeholder unit `None` (phys_calc/src/unit.rs) with the
    `EqualsOrZero` merge rule that multiply and divide apply slot by slot
    (phys_calc/src/unit.rs and the impls `derive(Unit)` generates in
    phys_calc_macros/src/lib.rs). */
module Units {
  import opened Wrappers
  import BaseLength
  import BaseTime
  import BaseTemperature
  import BaseMass
  import BaseCurrent
  import BaseLuminousIntensity
  import BaseQuantity
  import BaseAngle
  import BaseSolidAngle
  import BaseDigitalInformation

  /** The base dimensions, in the slot order of `Derived`. */
  datatype Dim =
    | Length | Time | Temp | Mass | Current
    | LuminousIntensity | Quantity | Angle | SolidAngle | DigitalInformation

  const SlotCount: nat := 10

  /** The dimension held by slot `i` of a ten-slot vector. */
  function DimAt(i: nat): Dim
    requires i < SlotCount
  {
    [Length, Time, Temp, Mass, Current, LuminousIntensity, Quantity, Angle, SolidAngle, DigitalInformation][i]
  }

  /** The slot of a dimension: the inverse of `DimAt`. */
  function SlotOf(d: Dim): (i: nat)
    ensures i < SlotCount && DimAt(i) == d
  {
    match d
    case Length => 0
    case Time => 1
    case Temp => 2
    case Mass => 3
    case Current => 4
    case LuminousIntensity => 5
    case Quantity => 6
    case Angle => 7
    case SolidAngle => 8
    case DigitalInformation => 9
  }

  lemma SlotOfDimAt(i: nat)
    requires i < SlotCount
    ensures SlotOf(DimAt(i)) == i
  {
  }

  /** A concrete unit: one unit struct of one of the ten catalogs. */
  datatype BaseUnit =
    | OfLength(length: BaseLength.LengthUnit)
    | OfTime(time: BaseTime.TimeUnit)
    | OfTemp(temp: BaseTemperature.TempUnit)
    | OfMass(mass: BaseMass.MassUnit)
    | OfCurrent(current: BaseCurrent.CurrentUnit)
    | OfLuminousIntensity(luminous: BaseLuminousIntensity.LuminousIntensityUnit)
    | OfQuantity(quantity: BaseQuantity.QuantityUnit)
    | OfAngle(angle: BaseAngle.AngleUnit)
    | OfSolidAngle(solid: BaseSolidAngle.SolidAngleUnit)
    | OfDigitalInformation(data: BaseDigitalInformation.DigitalInformationUnit)

  /** The unit trait a concrete unit implements. */
  function DimOf(u: BaseUnit): Dim
  {
    match u
    case OfLength(_) => Length
    case OfTime(_) => Time
    case OfTemp(_) => Temp
    case OfMass(_) => Mass
    case OfCurrent(_) => Current
    case OfLuminousIntensity(_) => LuminousIntensity
    case OfQuantity(_) => Quantity
    case OfAngle(_) => Angle
    case OfSolidAngle(_) => SolidAngle
    case OfDigitalInformation(_) => DigitalInformation
  }

  /** `mult()` of a concrete unit, read from its catalog. */
  function UnitMultiplier(u: BaseUnit): (r: real)
    ensures r > 0.0
  {
    match u
    case OfLength(x) => BaseLength.Multiplier(x)
    case OfTime(x) => BaseTime.Multiplier(x)
    case OfTemp(x) => BaseTemperature.Multiplier(x)
    case OfMass(x) => BaseMass.Multiplier(x)
    case OfCurrent(x) => BaseCurrent.Multiplier(x)
    case OfLuminousIntensity(x) => BaseLuminousIntensity.Multiplier(x)
    case OfQuantity(x) => BaseQuantity.Multiplier(x)
    case OfAngle(x) => BaseAngle.Multiplier(x)
    case OfSolidAngle(x) => BaseSolidAngle.Multiplier(x)
    case OfDigitalInformation(x) => BaseDigitalInformation.Multiplier(x)
  }

  /** `unit()` of a concrete unit, read from its catalog. */
  function UnitSymbol(u: BaseUnit): string
  {
    match u
    case OfLength(x) => BaseLength.Symbol(x)
    case OfTime(x) => BaseTime.Symbol(x)
    case OfTemp(x) => BaseTemperature.Symbol(x)
    case OfMass(x) => BaseMass.Symbol(x)
    case OfCurrent(x) => BaseCurrent.Symbol(x)
    case OfLuminousIntensity(x) => BaseLuminousIntensity.Symbol(x)
    case OfQuantity(x) => BaseQuantity.Symbol(x)
    case OfAngle(x) => BaseAngle.Symbol(x)
    case OfSolidAngle(x) => BaseSolidAngle.Symbol(x)
    case OfDigitalInformation(x) => BaseDigitalInformation.Symbol(x)
  }

  /** What a unit slot holds: the placeholder `None`, or a concrete unit. */
  datatype UnitSlot = NoneUnit | Concrete(unit: BaseUnit)

  /** A slot may hold a unit of its own dimension; `None` implements every
      unit trait, so it fits every dimension. */
  predicate Fits(s: UnitSlot, d: Dim)
  {
    s.NoneUnit? || DimOf(s.unit) == d
  }

  /** `mult()` through a slot: the placeholder panics. */
  function Multiplier(s: UnitSlot): (r: Result<real>)
    ensures r.Err? <==> s.NoneUnit?
    ensures r.Err? ==> r.error == PlaceholderUnit
    ensures r.Ok? ==> r.value > 0.0
  {
    match s
    case NoneUnit => Err(PlaceholderUnit)
    case Concrete(u) => Ok(UnitMultiplier(u))
  }

  /** `unit()` through a slot: the placeholder panics. */
  function Symbol(s: UnitSlot): (r: Result<string>)
    ensures r.Err? <==> s.NoneUnit?
    ensures r.Err? ==> r.error == PlaceholderUnit
  {
    match s
    case NoneUnit => Err(PlaceholderUnit)
    case Concrete(u) => Ok(UnitSymbol(u))
  }

  /** The `EqualsOrZero` impls: `None` takes on whatever the other side is
      (`None` included), and a concrete unit merges with itself or with
      `None`.  No other impl exists, so any other pair is a conflict. */
  function EqualsOrZero(a: UnitSlot, b: UnitSlot): (r: Result<UnitSlot>)
    ensures a.NoneUnit? ==> r == Ok(b)
    ensures a.Concrete? && (b.NoneUnit? || b == a) ==> r == Ok(a)
    ensures a.Concrete? && b.Concrete? && b != a ==> r == Err(UnitConflict)
  {
    match (a, b)
    case (NoneUnit, _) => Ok(b)
    case (Concrete(_), NoneUnit) => Ok(a)
    case (Concrete(x), Concrete(y)) => if x == y then Ok(a) else Err(UnitConflict)
  }

  /** Reference definition of the merge: the concrete units the two slots
      mention. */
  function Mentioned(a: UnitSlot, b: UnitSlot): set<BaseUnit>
  {
    (if a.Concrete? then {a.unit} else {}) + (if b.Concrete? then {b.unit} else {})
  }

  /** The merge succeeds exactly when the two slots mention at most one
      concrete unit, and then yields that unit, or `None` if there is none. */
  lemma EqualsOrZeroMatchesMentioned(a: UnitSlot, b: UnitSlot)
    ensures EqualsOrZero(a, b).Ok? <==> |Mentioned(a, b)| <= 1
    ensures EqualsOrZero(a, b).Ok? ==>
      (EqualsOrZero(a, b).value.NoneUnit? <==> Mentioned(a, b) == {})
    ensures EqualsOrZero(a, b).Ok? && EqualsOrZero(a, b).value.Concrete? ==>
      Mentioned(a, b) == {EqualsOrZero(a, b).value.unit}
  {
    if a.Concrete? && b.Concrete? && a != b {
      assert a.unit != b.unit;
      assert {a.unit, b.unit} == Mentioned(a, b);
      assert |{a.unit, b.unit}| == 2;
    }
  }

  /** The merge does not depend on operand order. */
  lemma EqualsOrZeroCommutes(a: UnitSlot, b: UnitSlot)
    ensures EqualsOrZero(a, b) == EqualsOrZero(b, a)
  {
  }

  /** Merging a slot with itself gives it back. */
  lemma EqualsOrZeroIdempotent(a: UnitSlot)
    ensures EqualsOrZero(a, a) == Ok(a)
  {
  }

  /** A merge of two slots of dimension `d` is again a slot of dimension `d`. */
  lemma EqualsOrZeroKeepsDimension(a: UnitSlot, b: UnitSlot, d: Dim)
    requires Fits(a, d) && Fits(b, d)
    ensures EqualsOrZero(a, b).Ok? ==> Fits(EqualsOrZero(a, b).value, d)
  {
  }
}
