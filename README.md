# phys_calc dimensional algebra, modelled in Dafny

`phys_calc` is a Rust library for physical quantities whose dimensions are
checked by the type system. A quantity such as `Length<Kilometer>` stores a
magnitude (`inner`). Its unit lives only in a type parameter. To multiply or
divide two quantities, the library:

1. turns each operand into a ten-slot dimension vector `Derived`, with one
   exponent and one unit type per base dimension;
2. combines the two vectors slot by slot: exponents are added, or the
   divisor's are negated and added, and unit types are merged by the
   `EqualsOrZero` rule;
3. resolves the resulting vector back to the kind registered for its
   exponent pattern.

Exponents are marker types for -5..5 plus an absorbing `Invalid`. Their
addition is a 144-entry trait table. Kinds are registered by the procedural
macro `impl_derived_conversions!`. Units are declared by `derive(Unit)`.
Each base dimension has a catalog of units with multipliers and a
`to_base` / `from_base` / `convert` triple. Temperature uses affine
conversions instead of multipliers. A two-dimension prototype in
`src/main.rs` hand-writes the same machinery for Length, Time, Speed and
Area.

The model turns each "no impl" compile error and each panic into an `Err`
value. This lets the proofs state exactly when each failure happens.

Modules:

- `Exponents`: the exponent markers, the `Add` table, `Neg`, and the
  value-level `add` that always panics.
- `Units`: the ten dimensions, the per-dimension unit catalogs, the
  placeholder `None` and the `EqualsOrZero` merge.
- `BaseLength` … `BaseDigitalInformation`: one module per
  `phys_calc/src/base/*.rs` file, each holding that file's multiplier and
  symbol tables.
- `Registry`: the `Derived` vector, registered kinds, `to_derived` and the
  generated resolver `to_unit`.
- `Combination`: `multiply` and `divide`.
- `ConversionsMacro`: `impl_derived_conversions!`. Its table-building loop
  and read-out loops are methods proved against a functional specification.
- `UnitMacro`: the attribute checks of `derive(Unit)`.
- `Library`: the four kinds the library registers and what follows from
  them.
- `Prototype`: the two-dimension prototype and its `main`.
- `Conversion`, `ConversionFacts`: unit conversion and the catalog ratios
  it implies.
- `QuantityMath`: same-type arithmetic from `impl_math!`. The compound
  assignments are methods of a `Variable` class.

Magnitudes (`f64`) are modelled as `real`, and π as an opaque positive
constant. Every conversion fact is proved exactly, for any value of π.

- A vector with no registered kind is a failure (`Unregistered`). The
  code has no generic fallback.
- The unit merge keys on `None`, not on a zero exponent. For example,
  `km / km` has exponent `Zero` in the length slot but still carries
  `Kilometer` there (`Combination.CombineOverSelf`).

## Model

| member | source | states |
|---|---|---|
| Exponents.Value | phys_calc/src/math.rs:120-134 | each concrete marker stands for one integer in [-5, 5] |
| Exponents.FromInt | phys_calc/src/math.rs:137-144 | reference definition: the marker of `n` is `Invalid` exactly outside [-5, 5], and otherwise stands for `n` |
| Exponents.Add | phys_calc/src/math.rs:137-144 | a sum is `Invalid` exactly when an operand is `Invalid` or the integer sum leaves [-5, 5]; otherwise it stands for the integer sum |
| Exponents.AddTable | phys_calc/src/math.rs:146-300 | every one of the 144 `impl_math!` entries equals the clipped sum `Add` |
| Exponents.InvalidAbsorbs | phys_calc/src/math.rs:289-300 | `Invalid + x` and `x + Invalid` are `Invalid` in the table, for all twelve `x` |
| Exponents.ZeroIsIdentity | phys_calc/src/math.rs:211-222 | `Zero + x == x + Zero == x` in the table, for all twelve `x` |
| Exponents.AddCommutes | phys_calc/src/math.rs:146-300 | the table is symmetric |
| Exponents.Neg | phys_calc/src/math.rs:83-118 | `Neg` is `Invalid` exactly on `Invalid`, and maps the marker of `n` to that of `-n` |
| Exponents.NegInvolution | phys_calc/src/math.rs:83-118 | `Neg(Neg(a)) == a` |
| Exponents.AddNegIsZero | phys_calc/src/math.rs:146-288 | `a + Neg(a) == Zero` for every concrete `a` |
| Exponents.MarkerAdd | phys_calc/src/math.rs:72-80 | the value-level `add` of any two markers always fails |
| Units.SlotOf | phys_calc/src/math_helpers.rs:63-80 | each dimension has one slot among the ten, and `DimAt` inverts it |
| Units.UnitMultiplier | phys_calc_macros/src/lib.rs:77-84 | `mult()` of every concrete unit is positive |
| Units.Multiplier | phys_calc/src/unit.rs:21-28 | `mult()` through a unit slot fails exactly on the placeholder `None`, and is positive otherwise |
| Units.Symbol | phys_calc/src/unit.rs:16-33 | `unit()` through a unit slot fails exactly on the placeholder `None` |
| Units.EqualsOrZero | phys_calc/src/unit.rs:11-13 | `None` merges with anything into the other side; a concrete unit merges with itself or `None` into itself; two different concrete units conflict |
| Units.EqualsOrZeroMatchesMentioned | phys_calc_macros/src/lib.rs:85-90 | the merge succeeds exactly when the two slots mention at most one concrete unit, and then yields that unit, or `None` when they mention none |
| Units.EqualsOrZeroCommutes | phys_calc/src/unit.rs:11-13 | the merge does not depend on operand order |
| Units.EqualsOrZeroIdempotent | phys_calc_macros/src/lib.rs:85-87 | a slot merged with itself gives itself back |
| Units.EqualsOrZeroKeepsDimension | phys_calc/src/math_helpers.rs:145-156 | merging two units of one dimension gives a unit of that dimension, which is the bound the `where` clause demands |
| BaseLength.Multiplier | phys_calc/src/base/length.rs:64-152 | every length multiplier is positive, and it is 1 exactly for Meter |
| BaseTime.Multiplier | phys_calc/src/base/time.rs:63-127 | every time multiplier is positive, and it is 1 exactly for Second |
| BaseMass.Multiplier | phys_calc/src/base/mass.rs:65-129 | every mass multiplier is positive, and it is 1 exactly for Kilogram |
| BaseCurrent.Multiplier | phys_calc/src/base/current.rs:62-90 | every current multiplier is positive, and it is 1 exactly for Ampere |
| BaseLuminousIntensity.Multiplier | phys_calc/src/base/luminous_intensity.rs:62-78 | every luminous-intensity multiplier is positive, and it is 1 exactly for Candela |
| BaseQuantity.Multiplier | phys_calc/src/base/quantity.rs:63-73 | both quantity multipliers are positive, and it is 1 exactly for Single |
| BaseAngle.Multiplier | phys_calc/src/base/angle.rs:79-113 | every plane-angle multiplier is positive, for any positive π |
| BaseSolidAngle.Multiplier | phys_calc/src/base/solid_angle.rs:81-103 | every solid-angle multiplier, a square of an angle one, is positive |
| BaseDigitalInformation.Bits | phys_calc/src/base/digital_information.rs:64-218 | every multiplier counts at least one bit, and exactly one for Bit |
| BaseDigitalInformation.Multiplier | phys_calc/src/base/digital_information.rs:64-218 | every digital-information multiplier is positive, and it is 1 exactly for Bit |
| BaseDigitalInformation.MultipliersFitTheirIntegerTypes | phys_calc/src/base/digital_information.rs:64-218 | no multiplier expression overflows its integer type: `u64` where the source writes the suffix, `i32` elsewhere |
| BaseLength.SymbolsDistinct | phys_calc/src/base/length.rs:64-152 | the `unit()` symbols of the length units are pairwise distinct, so a symbol names one unit |
| BaseTime.SymbolsDistinct | phys_calc/src/base/time.rs:63-127 | the `unit()` symbols of the time units are pairwise distinct, so a symbol names one unit |
| BaseMass.SymbolsDistinct | phys_calc/src/base/mass.rs:65-129 | the `unit()` symbols of the mass units are pairwise distinct, so a symbol names one unit |
| BaseCurrent.SymbolsDistinct | phys_calc/src/base/current.rs:62-90 | the `unit()` symbols of the current units are pairwise distinct, so a symbol names one unit |
| BaseLuminousIntensity.SymbolsDistinct | phys_calc/src/base/luminous_intensity.rs:62-78 | the `unit()` symbols of the luminous-intensity units are pairwise distinct, so a symbol names one unit |
| BaseQuantity.SymbolsDistinct | phys_calc/src/base/quantity.rs:63-73 | the `unit()` symbols of the quantity units are pairwise distinct, so a symbol names one unit |
| BaseAngle.SymbolsDistinct | phys_calc/src/base/angle.rs:79-113 | the `unit()` symbols of the plane-angle units are pairwise distinct, so a symbol names one unit |
| BaseSolidAngle.SymbolsDistinct | phys_calc/src/base/solid_angle.rs:81-103 | the `unit()` symbols of the solid-angle units are pairwise distinct, so a symbol names one unit |
| BaseDigitalInformation.SymbolsDistinct | phys_calc/src/base/digital_information.rs:64-218 | the `unit()` symbols of the digital-information units are pairwise distinct, so a symbol names one unit |
| BaseTemperature.Multiplier | phys_calc/src/base/temperature.rs:67-125 | the declared `mult()` of each unit (1, 1 and 1.8) is positive and is the number of that unit's degrees in one kelvin: it times the degree size is 1, and it is 1 exactly when the degree is the kelvin |
| BaseTemperature.SymbolsDistinct | phys_calc/src/base/temperature.rs:51-126 | the `unit()` symbols of the temperature units are pairwise distinct, so a symbol names one unit |
| BaseDigitalInformation.BitCounterpart | phys_calc/src/base/digital_information.rs:64-218 | each of the thirteen byte units is exactly eight of the bit unit with the same prefix (B and bit, KB and Kb, KiB and Kib, … EiB and Eib) |
| BaseDigitalInformation.CounterpartSymbol | phys_calc/src/base/digital_information.rs:64-218 | apart from `B`, a byte unit's symbol is its bit counterpart's with the final `b` written `B` |
| BaseTemperature.ToKelvin | phys_calc/src/base/temperature.rs:56-111 | each unit's `to_base` measures from its freezing point in degrees of its own size: kelvin = 273.15 + (x - freezing point) × degree size, with Kelvin (0 K at 0, size 1), Celsius (0 °C at 273.15 K, size 1) and Fahrenheit (32 °F at 273.15 K, size 5/9) |
| BaseTemperature.FromKelvin | phys_calc/src/base/temperature.rs:56-118 | each unit's `from_base` gives the reading that its `to_base` takes back to the same kelvin value |
| BaseTemperature.AffinePairsInvert | phys_calc/src/base/temperature.rs:56-118 | `from_base` after `to_base`, and `to_base` after `from_base`, are the identity for Kelvin, Celsius and Fahrenheit |
| Registry.ToDerived | phys_calc_macros/src/lib.rs:228-250 | a value's vector has one slot per dimension and the kind's exponents; each slot holds the value's unit where the kind names a parameter and `None` elsewhere; the magnitude is unchanged |
| Registry.Resolve | phys_calc_macros/src/lib.rs:199-226 | the resolver succeeds exactly when some registered kind has the vector's exponents, fails with `Unregistered` otherwise, and copies the magnitude |
| Registry.ResolveFindsKind | phys_calc_macros/src/lib.rs:187-226 | with no pattern registered twice, the resolver returns the kind with the vector's exponents, and reads each parameter from the slot of its generic letter |
| Registry.FirstMatch | phys_calc_macros/src/lib.rs:199-226 | the kind chosen for a pattern has that pattern and no earlier kind has it; none is chosen exactly when no kind has it |
| Registry.ResolveUndoesToDerived | phys_calc_macros/src/lib.rs:199-250 | resolving a value's vector gives the value back |
| Registry.ResolveKeepsExponents | phys_calc_macros/src/lib.rs:187-226 | whatever the resolver returns turns back into a vector with the same exponents |
| Registry.ResolveRejectsInvalid | phys_calc/src/math_helpers.rs:181-222 | a vector with an `Invalid` exponent never resolves |
| Combination.Magnitude | phys_calc/src/math_helpers.rs:421-427 | the result magnitude is the product of the two magnitudes, or the number that times the divisor gives the dividend |
| Combination.Combine | phys_calc/src/math_helpers.rs:129-274 | the combined vector exists exactly when every slot's units merge (otherwise `UnitConflict`); slot `i` holds the sum, or difference, of the operands' slot-`i` exponents and their merged unit; the magnitude is `Magnitude` |
| Combination.Apply | phys_calc/src/math_helpers.rs:276-428 | `multiply` / `divide` fail only with a unit conflict or an unregistered pattern, and a result names a registered kind |
| Combination.ApplyIsCombineThenResolve | phys_calc/src/math_helpers.rs:129-274 | `multiply` / `divide` fail with a unit conflict exactly when some slot's units do not merge; otherwise they succeed exactly when a kind is registered for the combined exponents, and the result carries the raw product or quotient |
| Combination.ApplyOfCombined | phys_calc/src/math_helpers.rs:267-273 | once the two vectors combine, the operation is the resolution of the combined vector |
| Combination.CombinedVectorExps | phys_calc/src/math_helpers.rs:158-221 | the combined vector's exponents are the slotwise sums of the two kinds' exponents |
| Combination.CombineTimesCommutes | phys_calc/src/math_helpers.rs:129-274 | multiplying vectors is symmetric, units and magnitude included |
| Combination.CombineOverSelf | phys_calc/src/math_helpers.rs:276-428 | dividing a vector by itself gives all-`Zero` exponents but keeps every unit, with magnitude 1 |
| ConversionsMacro.InitialTable | phys_calc_macros/src/lib.rs:123-144 | the table starts with every dimension at `Zero`, unit `None` and its own generic letter, in the fixed order |
| ConversionsMacro.KeyIndex | phys_calc_macros/src/lib.rs:152-155 | a key is found at a position holding it, and not found exactly when no entry has it |
| ConversionsMacro.LastForIsLast | phys_calc_macros/src/lib.rs:146-157 | the mapping that wins for a dimension is one for that dimension that no later mapping for it follows; there is none exactly when no mapping names it |
| ConversionsMacro.FirstUnknown | phys_calc_macros/src/lib.rs:146-154 | no unknown dimension is reported exactly when every mapping names one of the ten, and a reported one is not among them |
| ConversionsMacro.FirstUnknownIsFirst | phys_calc_macros/src/lib.rs:146-154 | the dimension reported is that of the first mapping that names none of the ten |
| ConversionsMacro.UnknownAfterKnown | phys_calc_macros/src/lib.rs:152-154 | when the loop finds a key missing after only known ones, it is the first unknown |
| ConversionsMacro.TableAfter | phys_calc_macros/src/lib.rs:146-157 | the final table keeps every dimension's key and generic letter in place |
| ConversionsMacro.ApplyOne | phys_calc_macros/src/lib.rs:155-156 | one pass of the loop overwrites the named dimension's exponent and unit letter and keeps its generic letter |
| ConversionsMacro.ImplDerivedConversions | phys_calc_macros/src/lib.rs:113-253 | the macro's expansion, or its panic, is `ExpansionOf` of its input |
| ConversionsMacro.ApplyMappings | phys_calc_macros/src/lib.rs:146-157 | the mapping loop stops on the first unknown dimension, and otherwise leaves the table that the last mapping per dimension defines |
| ConversionsMacro.ReadOut | phys_calc_macros/src/lib.rs:174-194 | the push loops read the exponent, unit and letter columns of the table in key order |
| ConversionsMacro.ExpansionSlots | phys_calc_macros/src/lib.rs:123-194 | in an expansion, every slot has the exponent and unit of the last mapping for its dimension, or `Zero` and `None` when there is none, and always its own generic letter |
| ConversionsMacro.ExpansionOf | phys_calc_macros/src/lib.rs:120-154 | the macro fails with `EmptyMappings` exactly on an empty list; it succeeds exactly when the list is non-empty and every mapping names one of the ten dimensions; an `UnknownDimension` failure names a key outside the ten |
| ConversionsMacro.LastFor | phys_calc_macros/src/lib.rs:146-157 | the mapping that wins for a dimension names it, and there is none exactly when no mapping names that dimension |
| ConversionsMacro.MappingOrderIrrelevant | phys_calc_macros/src/lib.rs:146-157 | any reordering of a list of mappings that name distinct dimensions is accepted exactly when the original is, and then expands to the same kind and pattern |
| ConversionsMacro.LastForAgrees | phys_calc_macros/src/lib.rs:146-157 | reordering mappings with distinct dimensions does not change which mapping wins for any dimension |
| UnitMacro.FindAttribute | phys_calc_macros/src/lib.rs:27 | the attribute found is the first with that name, and none is found exactly when no attribute has it |
| UnitMacro.TypeParamIdents | phys_calc_macros/src/lib.rs:18-25 | the generics are read exactly when all are type parameters, and then as their identifiers in order |
| UnitMacro.DeriveUnit | phys_calc_macros/src/lib.rs:11-65 | a non-type generic is rejected with `NonTypeGeneric`; every other failure names `multiplier`, `unit` or `unit_impl` as missing or malformed; a success keeps the struct's name and its type parameters in order |
| UnitMacro.DeriveUnitAccepts | phys_calc_macros/src/lib.rs:11-65 | `derive(Unit)` succeeds exactly when all generics are type parameters and the first `multiplier`, `unit` and `unit_impl` attributes have their required shapes; it then keeps the struct's name and type parameters and reads the multiplier, symbol and marker trait out of the first attribute of each name |
| UnitMacro.FirstShapeFound | phys_calc_macros/src/lib.rs:27-65 | "the first attribute of a name has the shape" is the shape test on the one `find` returns |
| UnitMacro.MultiplierCheckedFirst | phys_calc_macros/src/lib.rs:27-35 | once the generics pass, a missing `multiplier` or a first `multiplier` that is not a list is reported before anything else, as missing or malformed respectively |
| UnitMacro.UnitCheckedSecond | phys_calc_macros/src/lib.rs:37-50 | with a well-formed `multiplier`, a missing `unit` or a first `unit` that is not a list holding a string literal is reported before anything about `unit_impl` |
| UnitMacro.UnitImplCheckedLast | phys_calc_macros/src/lib.rs:52-65 | with well-formed `multiplier` and `unit`, a missing `unit_impl` or a first `unit_impl` that is not a list holding a path is what is reported |
| UnitMacro.LaterAttributesIgnored | phys_calc_macros/src/lib.rs:27-65 | appending attributes to an accepted unit changes nothing |
| Library.LibraryKindsAreExpansions | phys_calc/src/base/length.rs:155 | the four kinds of `LibraryKinds`, the registrations of Length, Mass, SolidAngle and DigitalInformation each expand to exponent `One` and the kind's parameter in its own slot, `Zero` and `None` elsewhere |
| Library.SingleExpansion | phys_calc_macros/src/lib.rs:113-253 | a call with one generic and one mapping `Dim: One, P` expands to a kind with `One` and `P` in that dimension's slot, `Zero` and `None` elsewhere, on the default letters |
| Library.SingleKindSound | phys_calc_macros/src/lib.rs:199-250 | such a kind, whose parameter is its slot's letter, is well formed and canonical |
| Library.LibraryIsSound | phys_calc_macros/src/lib.rs:199-226 | the four registered kinds are well formed and canonical, and no exponent pattern is registered twice |
| Library.SingleKindsAreClosedOut | phys_calc/src/math_helpers.rs:158-221 | the product or quotient of two single-dimension patterns is never a single-dimension pattern |
| Library.LibraryProductsDoNotResolve | phys_calc/src/math_helpers.rs:129-274 | no product and no quotient of two values of registered library kinds resolves |
| Library.OnlyFourDimensionsRegistered | phys_calc/src/base/time.rs:128-161 | time, temperature, current, luminous intensity, quantity and plane angle have no registered kind |
| Library.LibraryRoundTrip | phys_calc/src/base/solid_angle.rs:106 | a value of a registered library kind survives the round trip through its vector |
| Prototype.ProtoIsSound | src/main.rs:108-228 | the four prototype kinds are well formed and canonical, and their patterns are distinct |
| Prototype.ProtoResolvesExactly | src/main.rs:108-213 | a two-slot vector resolves exactly when its pattern is (1,0), (0,1), (1,-1) or (2,0) |
| Prototype.ResolvesToLength | src/main.rs:108-121 | pattern (1,0) resolves to a Length in the length slot's unit (the kind `LengthK`) |
| Prototype.ResolvesToTime | src/main.rs:137-151 | pattern (0,1) resolves to a Time in the time slot's unit (the kind `TimeK`) |
| Prototype.ResolvesToSpeed | src/main.rs:168-182 | pattern (1,-1) resolves to a Speed in the length and time slots' units (the kind `SpeedK`) |
| Prototype.ResolvesToArea | src/main.rs:199-213 | pattern (2,0) resolves to an Area in the length slot's unit (the kind `AreaK`) |
| Prototype.MainAreas | src/main.rs:337-338 | 5 m × 5 m is an area of 25 m², and 5 km × 5 km one of 25 km² |
| Prototype.MainSpeeds | src/main.rs:339-342 | 5 km ÷ 2 s is a speed of 2.5 km/s, and 5 m ÷ 2 s one of 2.5 m/s |
| Prototype.LengthTimesLength | src/main.rs:240-272 | the vectors of two lengths in one unit combine into pattern (2,0) in that unit with the product magnitude |
| Prototype.AreaOfLengths | src/main.rs:240-272 | two lengths in one unit multiply to an area in that unit |
| Prototype.LengthOverTime | src/main.rs:274-320 | a length's and a time's vectors divide into pattern (1,-1) with both units kept |
| Prototype.SpeedOfLengthOverTime | src/main.rs:274-320 | a length divided by a time is a speed in those two units |
| Prototype.SpeedTimesTime | src/main.rs:240-272 | a speed's and a time's vectors in one time unit multiply into pattern (1,0) in the speed's length unit |
| Prototype.SpeedTimesTimeIsLength | src/main.rs:240-272 | a speed times a time in the same time unit is a length in the speed's length unit |
| Prototype.AreaOverLength | src/main.rs:274-320 | an area's and a length's vectors in one unit divide into pattern (1,0) in that unit |
| Prototype.AreaOverLengthIsLength | src/main.rs:274-320 | an area divided by a length in the same unit is a length |
| Prototype.MeterTimesKilometerConflicts | src/main.rs:245-249 | meters times kilometers fails with a unit conflict |
| Prototype.LengthOverLength | src/main.rs:274-320 | a length divided by a length gives pattern (0,0) |
| Prototype.LengthOverLengthUnregistered | src/main.rs:274-320 | a length divided by a length is rejected as unregistered |
| Conversion.BaseUnitOf | phys_calc/src/base/length.rs:100-104 | each dimension's base unit belongs to that dimension and has multiplier 1 |
| Conversion.DeclaredBaseUnit | phys_calc/src/base/digital_information.rs:17 | the unit in each `to_base` signature is the base unit everywhere except digital information, where it is `Byte` |
| Conversion.Amount | phys_calc/src/base/length.rs:17-22 | a measure's amount on the base scale, divided by its unit's multiplier, is its magnitude |
| Conversion.SameAmountSameInner | phys_calc/src/base/length.rs:17-22 | two measures in one unit that stand for the same amount are equal |
| Conversion.ToBaseScale | phys_calc/src/base/length.rs:17-22 | scaling to the base scale can be undone by dividing by the multiplier |
| Conversion.Rescale | phys_calc/src/base/length.rs:23-28 | the magnitude `from_base` gives, times the target's multiplier, is the base amount |
| Conversion.ToBaseAsWritten | phys_calc/src/base/digital_information.rs:17-22 | `to_base` as written fails exactly on `None`, gives the amount on the base scale outside temperature, and tags it with the signature's unit |
| Conversion.ToBase | phys_calc/src/base/length.rs:17-22 | `to_base` fails exactly on `None`; it gives the amount on the base scale, or the kelvin reading for temperature, tagged with the base unit |
| Conversion.FromBase | phys_calc/src/base/length.rs:23-28 | `from_base` fails exactly on `None`; the measure it gives stands for the base amount, or kelvin reading, it was given |
| Conversion.Convert | phys_calc/src/base/length.rs:40-44 | `convert` fails exactly when either unit is `None`; it keeps the dimension, takes the target unit and keeps the amount, or for temperature the kelvin reading |
| Conversion.ConvertScales | phys_calc/src/base/length.rs:40-44 | outside temperature, converting gives the magnitude times the source multiplier divided by the target multiplier |
| Conversion.ConvertRoundTrip | phys_calc/src/base/length.rs:17-44 | converting there and back returns the original measure in every dimension, temperature included |
| Conversion.ScaledRoundTrip | phys_calc/src/base/length.rs:17-44 | outside temperature, converting to any unit of the dimension and back returns the original measure |
| Conversion.TemperatureRoundTrip | phys_calc/src/base/temperature.rs:27-31 | converting a temperature there and back returns it |
| Conversion.ConvertToSelf | phys_calc/src/base/length.rs:40-44 | converting to the measure's own unit changes nothing |
| Conversion.ConvertToBaseIsToBase | phys_calc/src/base/length.rs:100-104 | converting to the base unit is `to_base` |
| Conversion.ToBaseKeepsAmount | phys_calc/src/base/digital_information.rs:17-22 | the corrected `to_base` keeps the amount a measure stands for |
| Conversion.ConvertAsWritten | phys_calc/src/base/digital_information.rs:17-43 | `convert` over `to_base` as written fails exactly when either unit is `None`, and otherwise lands in the target unit of the same dimension |
| Conversion.MislabelLeavesConvertUnchanged | phys_calc/src/base/digital_information.rs:17-43 | `to_base` as written and the corrected one fail on the same inputs and carry the same magnitude, so `convert` gives the same result with either |
| Conversion.ToBaseAsWrittenMislabelsBytes | phys_calc/src/base/digital_information.rs:17-22 | as written, one byte's `to_base` is labelled 8 bytes: 64 bits instead of 8 |
| ConversionFacts.ConvertsWhenAmountsAgree | phys_calc/src/base/length.rs:40-44 | outside temperature, a reading converts to another exactly when both stand for the same amount |
| ConversionFacts.FiveKilometersAreFiveThousandMeters | phys_calc/src/base/length.rs:100-110 | 5 km converts to 5000 m |
| ConversionFacts.YardIsThreeFeetIsThirtySixInches | phys_calc/src/base/length.rs:130-146 | 1 yd converts to 3 ft and 36 in, and 1 ft to 12 in |
| ConversionFacts.HourIsSixtyMinutesIsThreeThousandSixHundredSeconds | phys_calc/src/base/time.rs:88-103 | 1 h converts to 60 min and 3600 s |
| ConversionFacts.DayIsTwentyFourHours | phys_calc/src/base/time.rs:100-109 | 1 day converts to 24 h |
| ConversionFacts.YearIsTwelveMonths | phys_calc/src/base/time.rs:112-121 | 1 year converts to 12 months |
| ConversionFacts.TonneIsThousandKilogramsIsMillionGrams | phys_calc/src/base/mass.rs:90-105 | 1 t converts to 1000 kg and 10⁶ g |
| ConversionFacts.KiloampereIsMillionMilliamperes | phys_calc/src/base/current.rs:75-90 | 1 kA converts to 10⁶ mA |
| ConversionFacts.CandlePowerAndHefnerLampInCandela | phys_calc/src/base/luminous_intensity.rs:63-78 | 1 cp converts to 0.981 cd and 1 HK to 0.920 cd |
| ConversionFacts.MoleInSingles | phys_calc/src/base/quantity.rs:64-73 | 1 mol converts to 6.022e23 Single |
| ConversionFacts.SingleToSingleIsIdentity | phys_calc/src/base/quantity.rs:64-67 | Single to Single is the identity, and Single's symbol is empty |
| ConversionFacts.HalfTurnInRadians | phys_calc/src/base/angle.rs:92-107 | 180° converts to π rad |
| ConversionFacts.DegreeIsSixtyArcminutesIsThreeThousandSixHundredArcseconds | phys_calc/src/base/angle.rs:80-95 | 1° converts to 60′ and 3600″ |
| ConversionFacts.TwoHundredGradiansAreOneHundredEightyDegrees | phys_calc/src/base/angle.rs:92-113 | 200 grad converts to 180° |
| ConversionFacts.MilliradianInRadians | phys_calc/src/base/angle.rs:98-107 | 1 mrad converts to 0.001 rad |
| ConversionFacts.SquareDegreeInSquareMinutesAndSeconds | phys_calc/src/base/solid_angle.rs:82-97 | 1 deg² converts to 3600 arcmin² and 3600² arcsec² |
| ConversionFacts.SquareDegreeInSteradians | phys_calc/src/base/solid_angle.rs:94-103 | 1 deg² converts to (π/180)² sr |
| ConversionFacts.KibibyteIsEightThousandOneHundredNinetyTwoBits | phys_calc/src/base/digital_information.rs:65-98 | 1 KiB converts to 8192 bit |
| ConversionFacts.ByteUnitIsEightBitUnits | phys_calc/src/base/digital_information.rs:65-218 | for every one of the thirteen byte units, `x` of it converts to `8x` of the bit unit with the same prefix |
| ConversionFacts.KibiScalesByTwentyFourKiloByThousand | phys_calc/src/base/digital_information.rs:65-86 | 1 Kib converts to 1024 bit and 1 Kb to 1000 bit |
| ConversionFacts.ByteThroughBitAndBack | phys_calc/src/base/digital_information.rs:17-44 | bytes converted to bits and back are unchanged |
| ConversionFacts.FreezingPointInKelvin | phys_calc/src/base/temperature.rs:56-111 | 0 °C and 32 °F both convert to 273.15 K |
| ConversionFacts.BoilingPointInFahrenheit | phys_calc/src/base/temperature.rs:27-118 | 100 °C converts to 212 °F |
| ConversionFacts.KelvinConversionIsIdentity | phys_calc/src/base/temperature.rs:56-62 | kelvin to kelvin is the identity |
| ConversionFacts.TemperatureConvertIsAffine | phys_calc/src/base/temperature.rs:27-125 | for every pair of temperature units and every reading, `convert` gives the target's `from_base` of the source's `to_base`, with no `mult()` involved |
| ConversionFacts.TemperatureIgnoresMultiplier | phys_calc/src/base/temperature.rs:123-125 | 32 °F converts to 273.15 K and not to the `mult()`-scaled 32 × 1.8 K |
| QuantityMath.Add | phys_calc/src/math_impl.rs:4-15 | `+` is defined exactly between values of one type, sums the magnitudes and keeps the type |
| QuantityMath.Sub | phys_calc/src/math_impl.rs:25-36 | `-` is defined exactly between values of one type, subtracts the magnitudes and keeps the type |
| QuantityMath.Scale | phys_calc/src/math_impl.rs:67-78 | `x * k` scales the magnitude and keeps the type |
| QuantityMath.DivScalar | phys_calc/src/math_impl.rs:88-99 | `x / k` gives the magnitude that times `k` is the original, and keeps the type |
| QuantityMath.Ratio | phys_calc/src/math_impl.rs:109-117 | `x / y` is defined exactly between values of one type, and is the number that times `y`'s magnitude gives `x`'s |
| QuantityMath.SubUndoesAdd | phys_calc/src/math_impl.rs:9-35 | `(x + y) - y == x` |
| QuantityMath.AddCommutes | phys_calc/src/math_impl.rs:4-15 | `x + y == y + x` |
| QuantityMath.DivScalarUndoesScale | phys_calc/src/math_impl.rs:67-99 | `(x * k) / k == x` for nonzero `k` |
| QuantityMath.RatioOfScaled | phys_calc/src/math_impl.rs:67-117 | `(x * k) / x == k` |
| QuantityMath.AmountRatio | phys_calc/src/math_impl.rs:109-117 | the ratio of two magnitudes in one unit is the ratio of the amounts they stand for |
| QuantityMath.RatioIgnoresCommonUnit | phys_calc/src/math_impl.rs:109-117 | outside temperature, converting both operands to another unit does not change their ratio |
| QuantityMath.Variable.AddAssign | phys_calc/src/math_impl.rs:17-23 | `x += y` leaves `x` equal to `x + y` |
| QuantityMath.Variable.SubAssign | phys_calc/src/math_impl.rs:38-44 | `x -= y` leaves `x` equal to `x - y` |
| QuantityMath.Variable.MulAssign | phys_calc/src/math_impl.rs:80-86 | `x *= k` leaves `x` equal to `x * k` |
| QuantityMath.Variable.DivAssign | phys_calc/src/math_impl.rs:101-107 | `x /= k` leaves `x` equal to `x / k` |

## Findings

| source | as written | input that shows it | evidently intended | confidence | as-written member | corrected member |
|---|---|---|---|---|---|---|
| phys_calc/src/base/digital_information.rs:17-22 | `to_base` multiplies by `mult()`, which counts bits (Bit has multiplier 1), but types its result `DigitalInformation<Byte>` | `1 B`: `to_base` gives magnitude 8 tagged `Byte`, which reads as 64 bits instead of 8 | the base-scale result is tagged with the unit of multiplier 1 (`Bit`), or the magnitude is divided by 8; `convert` is unaffected either way | medium, not executed | Conversion.ToBaseAsWrittenMislabelsBytes | Conversion.ToBaseKeepsAmount |

## Left out

- Display and `LowerExp` formatting of quantities: this is text output only. The symbol tables are kept as data.
- IEEE-754 rounding of `f64`: magnitudes are reals, so every conversion round trip and catalog ratio holds exactly. π is an opaque positive constant rather than the `f64` value of `Pi::pi()`.
- Combination.Magnitude, Combination.Combine, Combination.Apply: require a nonzero divisor for `divide`. In `f64` a zero divisor gives an infinity or NaN, which reals cannot represent.
- QuantityMath.DivScalar, QuantityMath.Ratio, QuantityMath.Variable.DivAssign: require a nonzero divisor, for the same reason.
- Token parsing with `syn` and code emission with `quote!` in phys_calc_macros/src/lib.rs: the `Parse` impls and the `DeriveInput` parse are replaced by datatypes (`Generic`, `Mapping`, `Attribute`). An emitted impl is modelled by what it states: the kind, the resolver letters, or the unit's attributes.
- The `Mul` / `Div` forwarding that `derive(Unit)` attaches to unit marker types, and the prototype's `Mul` impl for `Length`: each forwards to `multiply` / `divide`, which `Combination.Apply` models directly.
- phys_calc/src/specialization.rs: every registered kind is treated as unspecialised (`Bool = False`), which is all the registrations use.
- Trait-bound checks in the `where` clauses of `multiply` / `divide`: a unit that fits its dimension is `Fits`, and `Units.EqualsOrZeroKeepsDimension` shows that the merged unit meets the bound. The `Output: Number` bounds hold for all twelve markers and are not modelled.
- Registry.Resolve: when two registered kinds share an exponent pattern, the model resolves to the first of them (`Registry.FirstMatch`). Rust rejects such a registration outright, because the two resolver impls conflict (E0119). The model does not make that rejection a precondition. Instead, `Registry.ResolveFindsKind`, `Registry.ResolveKeepsExponents` and the lemmas built on them assume `Registry.Unambiguous`, and `Library.LibraryIsSound` and `Prototype.ProtoIsSound` prove it for the registrations the source makes. `Combination.Apply` inherits the same first-match choice.
- The prototype lemmas in `Prototype` take any unit slots, not only units of the right dimension, so they are more general than the typed source.
- The prototype's units `Meter`, `Kilometer` and `Second` are taken from the catalogs. The prototype's own `Unit` trait with `mult()` has no impls and is not modelled.
- `None`'s impls of the unit traits other than `LengthUnit` and `TimeUnit` are not in phys_calc/src/unit.rs. The model assumes they exist and panic in the same way, since the ten-slot vectors need them.
- src/main_backup.rs, phys_calc/src/main.rs, phys_calc/src/lib.rs and phys_calc/src/base/mod.rs are not part of this model: one is a superseded snapshot, one a benchmark, and two hold only module declarations.
