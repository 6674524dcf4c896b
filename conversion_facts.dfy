/** What the unit catalogs promise once `convert` is applied to them: the
    familiar ratios between units of one dimension. */
module ConversionFacts {
  import opened Wrappers
  import opened Units
  import opened Conversion
  import BaseLength
  import BaseTime
  import BaseTemperature
  import BaseMass
  import BaseCurrent
  import BaseLuminousIntensity
  import BaseQuantity
  import BaseAngle
  import BaseSolidAngle
  import BaseDigitalInformation

  /** A magnitude in a concrete unit, e.g. `5 km`. */
  function In(x: real, u: BaseUnit): (m: Measure)
    ensures WellTyped(m) && m.unit.Concrete?
  {
    Measure(x, DimOf(u), Concrete(u))
  }

  /** `In(x, from).convert::<to>()` gives `y`. */
  predicate Converts(x: real, from: BaseUnit, y: real, to: BaseUnit)
    requires DimOf(from) == DimOf(to)
  {
    Convert(In(x, from), Concrete(to)) == Ok(In(y, to))
  }

  /** Outside temperature, `y` in `to` is `x` in `from` exactly when both
      stand for the same amount on the base scale. */
  lemma ConvertsWhenAmountsAgree(x: real, from: BaseUnit, y: real, to: BaseUnit)
    requires DimOf(from) == DimOf(to) && DimOf(from) != Temp
    ensures Converts(x, from, y, to) <==> Amount(In(y, to)) == Amount(In(x, from))
  {
    var m, n := In(x, from), In(y, to);
    var r := Convert(m, Concrete(to)).value;
    assert r.unit == n.unit && r.dim == n.dim;
    if Amount(n) == Amount(m) {
      SameAmountSameInner(r, n);
    }
  }

  /** Scaling the argument of a square by `c` scales the square by `c * c`. */
  lemma SquareScales(c: real, a: real)
    ensures BaseSolidAngle.Square(c * a) == c * c * BaseSolidAngle.Square(a)
  {
  }

  // Length

  lemma FiveKilometersAreFiveThousandMeters()
    ensures Converts(5.0, OfLength(BaseLength.Kilometer), 5000.0, OfLength(BaseLength.Meter))
  {
  }

  lemma YardIsThreeFeetIsThirtySixInches()
    ensures Converts(1.0, OfLength(BaseLength.Yard), 3.0, OfLength(BaseLength.Foot))
    ensures Converts(1.0, OfLength(BaseLength.Yard), 36.0, OfLength(BaseLength.Inch))
    ensures Converts(1.0, OfLength(BaseLength.Foot), 12.0, OfLength(BaseLength.Inch))
  {
  }

  // Time

  lemma HourIsSixtyMinutesIsThreeThousandSixHundredSeconds()
    ensures Converts(1.0, OfTime(BaseTime.Hour), 60.0, OfTime(BaseTime.Minute))
    ensures Converts(1.0, OfTime(BaseTime.Hour), 3600.0, OfTime(BaseTime.Second))
  {
  }

  lemma DayIsTwentyFourHours()
    ensures Converts(1.0, OfTime(BaseTime.Day), 24.0, OfTime(BaseTime.Hour))
  {
  }

  lemma YearIsTwelveMonths()
    ensures Converts(1.0, OfTime(BaseTime.Year), 12.0, OfTime(BaseTime.Month))
  {
  }

  // Mass

  lemma TonneIsThousandKilogramsIsMillionGrams()
    ensures Converts(1.0, OfMass(BaseMass.Tonne), 1000.0, OfMass(BaseMass.Kilogram))
    ensures Converts(1.0, OfMass(BaseMass.Tonne), 1000000.0, OfMass(BaseMass.Gram))
  {
  }

  // Current

  lemma KiloampereIsMillionMilliamperes()
    ensures Converts(1.0, OfCurrent(BaseCurrent.Kiloampere), 1000000.0, OfCurrent(BaseCurrent.Milliampere))
  {
  }

  // Luminous intensity

  lemma CandlePowerAndHefnerLampInCandela()
    ensures Converts(1.0, OfLuminousIntensity(BaseLuminousIntensity.CandlePower),
                     0.981, OfLuminousIntensity(BaseLuminousIntensity.Candela))
    ensures Converts(1.0, OfLuminousIntensity(BaseLuminousIntensity.HefnerLamp),
                     0.920, OfLuminousIntensity(BaseLuminousIntensity.Candela))
  {
  }

  // Quantity

  lemma MoleInSingles()
    ensures Converts(1.0, OfQuantity(BaseQuantity.Mole), 6.022e23, OfQuantity(BaseQuantity.Single))
  {
  }

  lemma SingleToSingleIsIdentity(x: real)
    ensures Converts(x, OfQuantity(BaseQuantity.Single), x, OfQuantity(BaseQuantity.Single))
    ensures BaseQuantity.Symbol(BaseQuantity.Single) == ""
  {
  }

  // Plane angle

  lemma HalfTurnInRadians()
    ensures Converts(180.0, OfAngle(BaseAngle.Degree), BaseAngle.Pi, OfAngle(BaseAngle.Radian))
  {
    ConvertsWhenAmountsAgree(180.0, OfAngle(BaseAngle.Degree), BaseAngle.Pi, OfAngle(BaseAngle.Radian));
  }

  lemma DegreeIsSixtyArcminutesIsThreeThousandSixHundredArcseconds()
    ensures Converts(1.0, OfAngle(BaseAngle.Degree), 60.0, OfAngle(BaseAngle.Arcminute))
    ensures Converts(1.0, OfAngle(BaseAngle.Degree), 3600.0, OfAngle(BaseAngle.Arcsecond))
  {
    ConvertsWhenAmountsAgree(1.0, OfAngle(BaseAngle.Degree), 60.0, OfAngle(BaseAngle.Arcminute));
    ConvertsWhenAmountsAgree(1.0, OfAngle(BaseAngle.Degree), 3600.0, OfAngle(BaseAngle.Arcsecond));
  }

  lemma TwoHundredGradiansAreOneHundredEightyDegrees()
    ensures Converts(200.0, OfAngle(BaseAngle.Gradian), 180.0, OfAngle(BaseAngle.Degree))
  {
    ConvertsWhenAmountsAgree(200.0, OfAngle(BaseAngle.Gradian), 180.0, OfAngle(BaseAngle.Degree));
  }

  lemma MilliradianInRadians()
    ensures Converts(1.0, OfAngle(BaseAngle.MilliRadian), 0.001, OfAngle(BaseAngle.Radian))
  {
  }

  // Solid angle

  lemma SquareDegreeInSquareMinutesAndSeconds()
    ensures Converts(1.0, OfSolidAngle(BaseSolidAngle.SquareDegree), 3600.0, OfSolidAngle(BaseSolidAngle.SquareMinute))
    ensures Converts(1.0, OfSolidAngle(BaseSolidAngle.SquareDegree), 12960000.0, OfSolidAngle(BaseSolidAngle.SquareSecond))
  {
    var pi := BaseAngle.Pi;
    SquareScales(60.0, pi / (60.0 * 180.0));
    assert 60.0 * (pi / (60.0 * 180.0)) == pi / 180.0;
    ConvertsWhenAmountsAgree(1.0, OfSolidAngle(BaseSolidAngle.SquareDegree), 3600.0, OfSolidAngle(BaseSolidAngle.SquareMinute));
    SquareScales(3600.0, pi / (60.0 * 60.0 * 180.0));
    assert 3600.0 * (pi / (60.0 * 60.0 * 180.0)) == pi / 180.0;
    ConvertsWhenAmountsAgree(1.0, OfSolidAngle(BaseSolidAngle.SquareDegree), 12960000.0, OfSolidAngle(BaseSolidAngle.SquareSecond));
  }

  lemma SquareDegreeInSteradians()
    ensures Converts(1.0, OfSolidAngle(BaseSolidAngle.SquareDegree),
                     BaseSolidAngle.Square(BaseAngle.Pi / 180.0), OfSolidAngle(BaseSolidAngle.Steradian))
  {
  }

  // Digital information

  lemma KibibyteIsEightThousandOneHundredNinetyTwoBits()
    ensures Converts(1.0, OfDigitalInformation(BaseDigitalInformation.Kibibyte),
                     8192.0, OfDigitalInformation(BaseDigitalInformation.Bit))
  {
  }

  /** Every byte unit is eight of its bit counterpart: `x` B is `8x` bit,
      `x` KB is `8x` Kb, `x` KiB is `8x` Kib, and so on up to EiB. */
  lemma ByteUnitIsEightBitUnits(x: real, u: BaseDigitalInformation.DigitalInformationUnit)
    requires BaseDigitalInformation.IsByteUnit(u)
    ensures Converts(x, OfDigitalInformation(u),
                     8.0 * x, OfDigitalInformation(BaseDigitalInformation.BitCounterpart(u)))
  {
    var b := BaseDigitalInformation.BitCounterpart(u);
    var n := BaseDigitalInformation.Bits(b) as real;
    assert BaseDigitalInformation.Multiplier(u) == 8.0 * n;
    assert x * (8.0 * n) == (8.0 * x) * n;
    ConvertsWhenAmountsAgree(x, OfDigitalInformation(u), 8.0 * x, OfDigitalInformation(b));
  }

  lemma KibiScalesByTwentyFourKiloByThousand()
    ensures Converts(1.0, OfDigitalInformation(BaseDigitalInformation.Kibibit),
                     1024.0, OfDigitalInformation(BaseDigitalInformation.Bit))
    ensures Converts(1.0, OfDigitalInformation(BaseDigitalInformation.Kilobit),
                     1000.0, OfDigitalInformation(BaseDigitalInformation.Bit))
  {
    ConvertsWhenAmountsAgree(1.0, OfDigitalInformation(BaseDigitalInformation.Kibibit),
                             1024.0, OfDigitalInformation(BaseDigitalInformation.Bit));
    ConvertsWhenAmountsAgree(1.0, OfDigitalInformation(BaseDigitalInformation.Kilobit),
                             1000.0, OfDigitalInformation(BaseDigitalInformation.Bit));
  }

  lemma ByteThroughBitAndBack(x: real)
    ensures var byte := OfDigitalInformation(BaseDigitalInformation.Byte);
            var bit := OfDigitalInformation(BaseDigitalInformation.Bit);
            Convert(In(x, byte), Concrete(bit)).Ok?
            && Convert(Convert(In(x, byte), Concrete(bit)).value, Concrete(byte)) == Ok(In(x, byte))
  {
    ConvertRoundTrip(In(x, OfDigitalInformation(BaseDigitalInformation.Byte)),
                     OfDigitalInformation(BaseDigitalInformation.Bit));
  }

  // Temperature

  lemma FreezingPointInKelvin()
    ensures Converts(0.0, OfTemp(BaseTemperature.Celsius), 273.15, OfTemp(BaseTemperature.Kelvin))
    ensures Converts(32.0, OfTemp(BaseTemperature.Fahrenheit), 273.15, OfTemp(BaseTemperature.Kelvin))
  {
  }

  lemma BoilingPointInFahrenheit()
    ensures Converts(100.0, OfTemp(BaseTemperature.Celsius), 212.0, OfTemp(BaseTemperature.Fahrenheit))
  {
  }

  lemma KelvinConversionIsIdentity(x: real)
    ensures Converts(x, OfTemp(BaseTemperature.Kelvin), x, OfTemp(BaseTemperature.Kelvin))
  {
  }

  /** Temperature conversion is the affine pair alone: a reading in `from`
      is taken to kelvin by `from`'s `to_base` and out again by `to`'s
      `from_base`, with no `mult()` anywhere. */
  lemma TemperatureConvertIsAffine(x: real, from: BaseTemperature.TempUnit, to: BaseTemperature.TempUnit)
    ensures Converts(x, OfTemp(from), BaseTemperature.FromKelvin(to, BaseTemperature.ToKelvin(from, x)), OfTemp(to))
  {
    var k := BaseTemperature.ToKelvin(from, x);
    assert ToBase(In(x, OfTemp(from))) == Ok(Measure(k, Temp, Concrete(BaseUnitOf(Temp))));
  }

  /** In particular, scaling by the Fahrenheit multiplier 1.8 is not what
      `convert` does: 32 °F is 273.15 K, not 32 × 1.8 K. */
  lemma TemperatureIgnoresMultiplier()
    ensures Converts(32.0, OfTemp(BaseTemperature.Fahrenheit), 273.15, OfTemp(BaseTemperature.Kelvin))
    ensures !Converts(32.0, OfTemp(BaseTemperature.Fahrenheit),
                      32.0 * UnitMultiplier(OfTemp(BaseTemperature.Fahrenheit)), OfTemp(BaseTemperature.Kelvin))
  {
    TemperatureConvertIsAffine(32.0, BaseTemperature.Fahrenheit, BaseTemperature.Kelvin);
  }
}
