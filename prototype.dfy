/** The two-dimension prototype in src/main.rs: vectors with a length and a
    time slot, four hand-written kinds (Length, Time, Speed, Area) each
    with its `to_derived` and its resolver rule, and the computations of
    its `main`.  Its units Meter, Kilometer and Second are the catalog
    units of the same names. */
module Prototype {
  import opened Wrappers
  import opened Exponents
  import opened Units
  import opened Registry
  import opened Combination
  import BaseLength
  import BaseTime

  /** The resolver's generics, one per slot: length, then time. */
  const ProtoLetters: seq<string> := ["L", "T"]

  const LengthK: Kind := Kind("Length", ["L"], [One, Zero], ["L", NoneIdent])
  const TimeK: Kind := Kind("Time", ["T"], [Zero, One], [NoneIdent, "T"])
  const SpeedK: Kind := Kind("Speed", ["L", "T"], [One, NegOne], ["L", "T"])
  const AreaK: Kind := Kind("Area", ["L"], [Two, Zero], ["L", NoneIdent])

  const ProtoKinds: seq<Kind> := [LengthK, TimeK, SpeedK, AreaK]

  const Meter: UnitSlot := Concrete(OfLength(BaseLength.Meter))
  const Kilometer: UnitSlot := Concrete(OfLength(BaseLength.Kilometer))
  const Second: UnitSlot := Concrete(OfTime(BaseTime.Second))

  function LengthOf(l: UnitSlot, x: real): Value { Value("Length", [l], x) }
  function TimeOf(t: UnitSlot, x: real): Value { Value("Time", [t], x) }
  function SpeedOf(l: UnitSlot, t: UnitSlot, x: real): Value { Value("Speed", [l, t], x) }
  function AreaOf(l: UnitSlot, x: real): Value { Value("Area", [l], x) }

  /** The four kinds are well formed, canonical and pairwise distinct in
      their exponent patterns. */
  lemma ProtoIsSound()
    ensures AllWellFormed(ProtoKinds, ProtoLetters)
    ensures Unambiguous(ProtoKinds)
    ensures forall k :: k in ProtoKinds ==> Canonical(k, ProtoLetters)
  {
  }

  /** The four kinds are well formed: what `Apply` needs of them. */
  lemma ProtoWellFormed()
    ensures WellFormed(LengthK, ProtoLetters) && WellFormed(TimeK, ProtoLetters)
    ensures WellFormed(SpeedK, ProtoLetters) && WellFormed(AreaK, ProtoLetters)
    ensures AllWellFormed(ProtoKinds, ProtoLetters)
  {
    ProtoIsSound();
  }

  /** A two-slot vector resolves exactly when its exponents are one of the
      four registered patterns. */
  lemma ProtoResolvesExactly(d: Derived)
    requires |d.slots| == 2
    ensures AllWellFormed(ProtoKinds, ProtoLetters)
    ensures Resolve(ProtoKinds, ProtoLetters, d).Ok? <==>
      Exps(d) == [One, Zero] || Exps(d) == [Zero, One] || Exps(d) == [One, NegOne] || Exps(d) == [Two, Zero]
  {
    ProtoIsSound();
    if Resolve(ProtoKinds, ProtoLetters, d).Ok? {
      var k :| k in ProtoKinds && k.exps == Exps(d);
    }
  }

  /** The two generic letters sit in their own slots. */
  lemma ProtoIndices()
    ensures IndexIn(ProtoLetters, "L") == 0 && IndexIn(ProtoLetters, "T") == 1
  {
  }

  /** The Length resolver: pattern `[One, Zero]`, its unit read from the
      length slot. */
  lemma ResolvesToLength(d: Derived)
    requires |d.slots| == 2 && Exps(d) == [One, Zero]
    ensures AllWellFormed(ProtoKinds, ProtoLetters)
    ensures Resolve(ProtoKinds, ProtoLetters, d) == Ok(LengthOf(d.slots[0].unit, d.inner))
  {
    ProtoIsSound();
    ProtoIndices();
    ResolveFindsKind(ProtoKinds, ProtoLetters, d, 0);
    assert Resolve(ProtoKinds, ProtoLetters, d).value.args == [d.slots[0].unit];
  }

  /** The Time resolver: pattern `[Zero, One]`, its unit read from the
      time slot. */
  lemma ResolvesToTime(d: Derived)
    requires |d.slots| == 2 && Exps(d) == [Zero, One]
    ensures AllWellFormed(ProtoKinds, ProtoLetters)
    ensures Resolve(ProtoKinds, ProtoLetters, d) == Ok(TimeOf(d.slots[1].unit, d.inner))
  {
    ProtoIsSound();
    ProtoIndices();
    ResolveFindsKind(ProtoKinds, ProtoLetters, d, 1);
    assert Resolve(ProtoKinds, ProtoLetters, d).value.args == [d.slots[1].unit];
  }

  /** The Speed resolver: pattern `[One, NegOne]`, its units read from the
      length and the time slot. */
  lemma ResolvesToSpeed(d: Derived)
    requires |d.slots| == 2 && Exps(d) == [One, NegOne]
    ensures AllWellFormed(ProtoKinds, ProtoLetters)
    ensures Resolve(ProtoKinds, ProtoLetters, d) == Ok(SpeedOf(d.slots[0].unit, d.slots[1].unit, d.inner))
  {
    ProtoIsSound();
    ProtoIndices();
    ResolveFindsKind(ProtoKinds, ProtoLetters, d, 2);
    var args := Resolve(ProtoKinds, ProtoLetters, d).value.args;
    assert ProtoKinds[2].params == ["L", "T"];
    assert args[0] == d.slots[IndexIn(ProtoLetters, "L")].unit;
    assert args[1] == d.slots[IndexIn(ProtoLetters, "T")].unit;
    assert args == [d.slots[0].unit, d.slots[1].unit];
  }

  /** The Area resolver: pattern `[Two, Zero]`, its unit read from the
      length slot. */
  lemma ResolvesToArea(d: Derived)
    requires |d.slots| == 2 && Exps(d) == [Two, Zero]
    ensures AllWellFormed(ProtoKinds, ProtoLetters)
    ensures Resolve(ProtoKinds, ProtoLetters, d) == Ok(AreaOf(d.slots[0].unit, d.inner))
  {
    ProtoIsSound();
    ProtoIndices();
    ResolveFindsKind(ProtoKinds, ProtoLetters, d, 3);
    assert Resolve(ProtoKinds, ProtoLetters, d).value.args == [d.slots[0].unit];
  }

  /** `main`: `meter * meter` is an area of 25 square meters, and
      `kilometer.multiply(kilometer)` one of 25 square kilometers. */
  lemma MainAreas()
    ensures Apply(ProtoKinds, ProtoLetters, LengthK, LengthOf(Meter, 5.0), LengthK, LengthOf(Meter, 5.0), Times)
         == Ok(AreaOf(Meter, 25.0))
    ensures Apply(ProtoKinds, ProtoLetters, LengthK, LengthOf(Kilometer, 5.0), LengthK, LengthOf(Kilometer, 5.0), Times)
         == Ok(AreaOf(Kilometer, 25.0))
  {
    AreaOfLengths(Meter, 5.0, 5.0);
    AreaOfLengths(Kilometer, 5.0, 5.0);
  }

  /** `main`: `kilometer.divide(sec)` is a speed of 2.5 km/s, and
      `meter.divide(sec)` one of 2.5 m/s. */
  lemma MainSpeeds()
    ensures Apply(ProtoKinds, ProtoLetters, LengthK, LengthOf(Kilometer, 5.0), TimeK, TimeOf(Second, 2.0), Over)
         == Ok(SpeedOf(Kilometer, Second, 2.5))
    ensures Apply(ProtoKinds, ProtoLetters, LengthK, LengthOf(Meter, 5.0), TimeK, TimeOf(Second, 2.0), Over)
         == Ok(SpeedOf(Meter, Second, 2.5))
  {
    SpeedOfLengthOverTime(Kilometer, Second, 5.0, 2.0);
    SpeedOfLengthOverTime(Meter, Second, 5.0, 2.0);
  }

  lemma TwoSlotExps(d: Derived)
    requires |d.slots| == 2
    ensures Exps(d) == [d.slots[0].exp, d.slots[1].exp]
  {
  }

  /** Two lengths in the same unit multiply to an area in that unit. */
  lemma AreaOfLengths(l: UnitSlot, x: real, y: real)
    ensures AllWellFormed(ProtoKinds, ProtoLetters) && LengthK in ProtoKinds
    ensures Apply(ProtoKinds, ProtoLetters, LengthK, LengthOf(l, x), LengthK, LengthOf(l, y), Times) == Ok(AreaOf(l, x * y))
  {
    ProtoWellFormed();
    var d := LengthTimesLength(l, x, y);
    ApplyOfCombined(ProtoKinds, ProtoLetters, LengthK, LengthOf(l, x), LengthK, LengthOf(l, y), Times, d);
    TwoSlotExps(d);
    ResolvesToArea(d);
  }

  lemma LengthTimesLength(l: UnitSlot, x: real, y: real) returns (d: Derived)
    ensures WellFormed(LengthK, ProtoLetters)
    ensures Combine(ToDerived(LengthK, LengthOf(l, x), ProtoLetters), ToDerived(LengthK, LengthOf(l, y), ProtoLetters), Times)
         == Ok(d)
    ensures |d.slots| == 2 && d.slots[0].exp == Two && d.slots[1].exp == Zero && d.slots[0].unit == l && d.inner == x * y
  {
    ProtoWellFormed();
    var dx := ToDerived(LengthK, LengthOf(l, x), ProtoLetters);
    var dy := ToDerived(LengthK, LengthOf(l, y), ProtoLetters);
    EqualsOrZeroIdempotent(l);
    assert dx.slots[0].unit == l && dy.slots[0].unit == l;
    assert dx.slots[1].unit == NoneUnit && dy.slots[1].unit == NoneUnit;
    assert UnitsMerge(dx, dy);
    d := Combine(dx, dy, Times).value;
  }

  /** A length divided by a time is a speed in those two units. */
  lemma SpeedOfLengthOverTime(l: UnitSlot, t: UnitSlot, x: real, y: real)
    requires y != 0.0
    ensures AllWellFormed(ProtoKinds, ProtoLetters) && LengthK in ProtoKinds && TimeK in ProtoKinds
    ensures Apply(ProtoKinds, ProtoLetters, LengthK, LengthOf(l, x), TimeK, TimeOf(t, y), Over)
         == Ok(SpeedOf(l, t, x / y))
  {
    ProtoWellFormed();
    var d := LengthOverTime(l, t, x, y);
    ApplyOfCombined(ProtoKinds, ProtoLetters, LengthK, LengthOf(l, x), TimeK, TimeOf(t, y), Over, d);
    TwoSlotExps(d);
    ResolvesToSpeed(d);
  }

  lemma LengthOverTime(l: UnitSlot, t: UnitSlot, x: real, y: real) returns (d: Derived)
    requires y != 0.0
    ensures WellFormed(LengthK, ProtoLetters) && WellFormed(TimeK, ProtoLetters)
    ensures Combine(ToDerived(LengthK, LengthOf(l, x), ProtoLetters), ToDerived(TimeK, TimeOf(t, y), ProtoLetters), Over)
         == Ok(d)
    ensures |d.slots| == 2 && d.slots[0].exp == One && d.slots[1].exp == NegOne && d.slots[0].unit == l && d.slots[1].unit == t && d.inner == x / y
  {
    ProtoWellFormed();
    var dx := ToDerived(LengthK, LengthOf(l, x), ProtoLetters);
    var dy := ToDerived(TimeK, TimeOf(t, y), ProtoLetters);
    d := Combine(dx, dy, Over).value;
    assert d.slots[0].unit == l && d.slots[1].unit == t;
  }

  /** A speed times a time in the same time unit is a length in the
      speed's length unit: the time unit cancels. */
  lemma SpeedTimesTimeIsLength(l: UnitSlot, t: UnitSlot, x: real, y: real)
    ensures AllWellFormed(ProtoKinds, ProtoLetters) && SpeedK in ProtoKinds && TimeK in ProtoKinds
    ensures Apply(ProtoKinds, ProtoLetters, SpeedK, SpeedOf(l, t, x), TimeK, TimeOf(t, y), Times)
         == Ok(LengthOf(l, x * y))
  {
    ProtoWellFormed();
    var d := SpeedTimesTime(l, t, x, y);
    ApplyOfCombined(ProtoKinds, ProtoLetters, SpeedK, SpeedOf(l, t, x), TimeK, TimeOf(t, y), Times, d);
    TwoSlotExps(d);
    ResolvesToLength(d);
  }

  lemma SpeedTimesTime(l: UnitSlot, t: UnitSlot, x: real, y: real) returns (d: Derived)
    ensures WellFormed(SpeedK, ProtoLetters) && WellFormed(TimeK, ProtoLetters)
    ensures Combine(ToDerived(SpeedK, SpeedOf(l, t, x), ProtoLetters), ToDerived(TimeK, TimeOf(t, y), ProtoLetters), Times)
         == Ok(d)
    ensures |d.slots| == 2 && d.slots[0].exp == One && d.slots[1].exp == Zero && d.slots[0].unit == l && d.inner == x * y
  {
    ProtoWellFormed();
    var dx := ToDerived(SpeedK, SpeedOf(l, t, x), ProtoLetters);
    var dy := ToDerived(TimeK, TimeOf(t, y), ProtoLetters);
    EqualsOrZeroIdempotent(t);
    assert dx.slots[0].unit == l && dy.slots[0].unit == NoneUnit;
    assert dx.slots[1].unit == t && dy.slots[1].unit == t;
    assert UnitsMerge(dx, dy);
    d := Combine(dx, dy, Times).value;
  }

  /** An area divided by a length in the same unit is a length. */
  lemma AreaOverLengthIsLength(l: UnitSlot, x: real, y: real)
    requires y != 0.0
    ensures AllWellFormed(ProtoKinds, ProtoLetters) && AreaK in ProtoKinds && LengthK in ProtoKinds
    ensures Apply(ProtoKinds, ProtoLetters, AreaK, AreaOf(l, x), LengthK, LengthOf(l, y), Over)
         == Ok(LengthOf(l, x / y))
  {
    ProtoWellFormed();
    var d := AreaOverLength(l, x, y);
    ApplyOfCombined(ProtoKinds, ProtoLetters, AreaK, AreaOf(l, x), LengthK, LengthOf(l, y), Over, d);
    TwoSlotExps(d);
    ResolvesToLength(d);
  }

  lemma AreaOverLength(l: UnitSlot, x: real, y: real) returns (d: Derived)
    requires y != 0.0
    ensures WellFormed(AreaK, ProtoLetters) && WellFormed(LengthK, ProtoLetters)
    ensures Combine(ToDerived(AreaK, AreaOf(l, x), ProtoLetters), ToDerived(LengthK, LengthOf(l, y), ProtoLetters), Over)
         == Ok(d)
    ensures |d.slots| == 2 && d.slots[0].exp == One && d.slots[1].exp == Zero && d.slots[0].unit == l && d.inner == x / y
  {
    ProtoWellFormed();
    var dx := ToDerived(AreaK, AreaOf(l, x), ProtoLetters);
    var dy := ToDerived(LengthK, LengthOf(l, y), ProtoLetters);
    EqualsOrZeroIdempotent(l);
    d := Combine(dx, dy, Over).value;
  }

  /** Meters and kilometers do not merge: their product does not compile. */
  lemma MeterTimesKilometerConflicts(x: real, y: real)
    ensures AllWellFormed(ProtoKinds, ProtoLetters) && LengthK in ProtoKinds
    ensures Apply(ProtoKinds, ProtoLetters, LengthK, LengthOf(Meter, x), LengthK, LengthOf(Kilometer, y), Times)
         == Err(UnitConflict)
  {
    ProtoWellFormed();
    var dx := ToDerived(LengthK, LengthOf(Meter, x), ProtoLetters);
    var dy := ToDerived(LengthK, LengthOf(Kilometer, y), ProtoLetters);
    assert dx.slots[0].unit == Meter && dy.slots[0].unit == Kilometer;
    assert !UnitsMerge(dx, dy);
  }

  /** A length over a length is dimensionless, and no kind is registered
      for that: the quotient does not compile. */
  lemma LengthOverLengthUnregistered(l: UnitSlot, x: real, y: real)
    requires y != 0.0
    ensures AllWellFormed(ProtoKinds, ProtoLetters) && LengthK in ProtoKinds
    ensures Apply(ProtoKinds, ProtoLetters, LengthK, LengthOf(l, x), LengthK, LengthOf(l, y), Over)
         == Err(Unregistered)
  {
    ProtoWellFormed();
    var d := LengthOverLength(l, x, y);
    ApplyOfCombined(ProtoKinds, ProtoLetters, LengthK, LengthOf(l, x), LengthK, LengthOf(l, y), Over, d);
    TwoSlotExps(d);
    ProtoResolvesExactly(d);
  }

  lemma LengthOverLength(l: UnitSlot, x: real, y: real) returns (d: Derived)
    requires y != 0.0
    ensures WellFormed(LengthK, ProtoLetters)
    ensures Combine(ToDerived(LengthK, LengthOf(l, x), ProtoLetters), ToDerived(LengthK, LengthOf(l, y), ProtoLetters), Over)
         == Ok(d)
    ensures |d.slots| == 2 && d.slots[0].exp == Zero && d.slots[1].exp == Zero
  {
    ProtoWellFormed();
    var dx := ToDerived(LengthK, LengthOf(l, x), ProtoLetters);
    var dy := ToDerived(LengthK, LengthOf(l, y), ProtoLetters);
    EqualsOrZeroIdempotent(l);
    d := Combine(dx, dy, Over).value;
  }
}
