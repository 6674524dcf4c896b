/** `multiply` and `divide` between values of registered kinds
    (phys_calc/src/math_helpers.rs): both operands are turned into vectors,
    the vectors are combined slot by slot (exponents added, or the
    divisor's negated and added; units merged by `EqualsOrZero`), the
    magnitudes multiplied or divided, and the result resolved to the kind
    registered for its exponents.  A unit conflict or an unregistered
    result is a compile error in the source, an `Err` here. */
module Combination {
  import opened Wrappers
  import opened Exponents
  import opened Units
  import opened Registry

  datatype Op = Times | Over

  /** The exponent a slot of the result gets. */
  function CombineExp(a: Exponent, b: Exponent, op: Op): Exponent
  {
    match op
    case Times => Add(a, b)
    case Over => Add(a, Neg(b))
  }

  /** Every slot's units merge. */
  predicate UnitsMerge(x: Derived, y: Derived)
    requires |x.slots| == |y.slots|
  {
    forall i :: 0 <= i < |x.slots| ==> EqualsOrZero(x.slots[i].unit, y.slots[i].unit).Ok?
  }

  /** The magnitude of `x op y`: the product, or the quotient by a nonzero
      divisor. */
  function Magnitude(a: real, b: real, op: Op): (r: real)
    requires op == Over ==> b != 0.0
    ensures op == Times ==> r == a * b
    ensures op == Over ==> r * b == a
  {
    if op == Times then a * b else a / b
  }

  /** The vector of `x op y`, before it is resolved. */
  function Combine(x: Derived, y: Derived, op: Op): (r: Result<Derived>)
    requires |x.slots| == |y.slots|
    requires op == Over ==> y.inner != 0.0
    ensures r.Ok? <==> UnitsMerge(x, y)
    ensures r.Err? ==> r.error == UnitConflict
    ensures r.Ok? ==> |r.value.slots| == |x.slots|
    ensures r.Ok? ==> forall i :: 0 <= i < |x.slots| ==>
      r.value.slots[i].exp == CombineExp(x.slots[i].exp, y.slots[i].exp, op)
      && Ok(r.value.slots[i].unit) == EqualsOrZero(x.slots[i].unit, y.slots[i].unit)
    ensures r.Ok? ==> r.value.inner == Magnitude(x.inner, y.inner, op)
  {
    if UnitsMerge(x, y) then
      var slots := seq(|x.slots|, i requires 0 <= i < |x.slots| =>
        Slot(CombineExp(x.slots[i].exp, y.slots[i].exp, op), EqualsOrZero(x.slots[i].unit, y.slots[i].unit).value));
      Ok(Derived(slots, Magnitude(x.inner, y.inner, op)))
    else
      Err(UnitConflict)
  }

  /** The exponents of the product or quotient of two kinds. */
  function CombinedExps(kx: Kind, ky: Kind, op: Op): (r: seq<Exponent>)
    requires |kx.exps| == |ky.exps|
    ensures |r| == |kx.exps|
    ensures forall i :: 0 <= i < |r| ==> r[i] == CombineExp(kx.exps[i], ky.exps[i], op)
  {
    seq(|kx.exps|, i requires 0 <= i < |kx.exps| => CombineExp(kx.exps[i], ky.exps[i], op))
  }

  /** `x.multiply(y)` (`op == Times`) or `x.divide(y)` (`op == Over`), for
      `x` of kind `kx` and `y` of kind `ky`. */
  function Apply(reg: seq<Kind>, letters: seq<string>, kx: Kind, x: Value, ky: Kind, y: Value, op: Op): (r: Result<Value>)
    requires AllWellFormed(reg, letters) && kx in reg && ky in reg
    requires |x.args| == |kx.params| && |y.args| == |ky.params|
    requires op == Over ==> y.inner != 0.0
    ensures r.Err? ==> r.error == UnitConflict || r.error == Unregistered
    ensures r.Ok? ==> exists k :: k in reg && k.name == r.value.kind
  {
    var dx, dy := ToDerived(kx, x, letters), ToDerived(ky, y, letters);
    match Combine(dx, dy, op)
    case Err(e) => Err(e)
    case Ok(d) => Resolve(reg, letters, d)
  }

  /** Once the two vectors are known to combine into `d`, `Apply` is the
      resolution of `d`. */
  lemma ApplyOfCombined(reg: seq<Kind>, letters: seq<string>, kx: Kind, x: Value, ky: Kind, y: Value, op: Op, d: Derived)
    requires AllWellFormed(reg, letters) && kx in reg && ky in reg
    requires |x.args| == |kx.params| && |y.args| == |ky.params|
    requires op == Over ==> y.inner != 0.0
    requires WellFormed(kx, letters) && WellFormed(ky, letters)
    requires Combine(ToDerived(kx, x, letters), ToDerived(ky, y, letters), op) == Ok(d)
    ensures |d.slots| == |letters|
    ensures Apply(reg, letters, kx, x, ky, y, op) == Resolve(reg, letters, d)
  {
  }

  /** What `Apply` does, in terms of the two vectors: it fails with a unit
      conflict exactly when some slot's units do not merge, and otherwise
      resolves the combined exponents and carries the combined magnitude. */
  lemma ApplyIsCombineThenResolve(reg: seq<Kind>, letters: seq<string>, kx: Kind, x: Value, ky: Kind, y: Value, op: Op)
    requires AllWellFormed(reg, letters) && kx in reg && ky in reg
    requires IsValueOf(x, kx) && IsValueOf(y, ky)
    requires op == Over ==> y.inner != 0.0
    ensures var dx, dy := ToDerived(kx, x, letters), ToDerived(ky, y, letters);
      && (Apply(reg, letters, kx, x, ky, y, op) == Err(UnitConflict) <==> !UnitsMerge(dx, dy))
      && (UnitsMerge(dx, dy) ==>
            (Apply(reg, letters, kx, x, ky, y, op).Ok? <==> exists k :: k in reg && k.exps == CombinedExps(kx, ky, op)))
      && (Apply(reg, letters, kx, x, ky, y, op).Ok? ==> Apply(reg, letters, kx, x, ky, y, op).value.inner == Magnitude(x.inner, y.inner, op))
  {
    assert WellFormed(kx, letters) && WellFormed(ky, letters);
    var dx, dy := ToDerived(kx, x, letters), ToDerived(ky, y, letters);
    if UnitsMerge(dx, dy) {
      var d := Combine(dx, dy, op).value;
      CombinedVectorExps(kx, x, ky, y, op, letters);
      ApplyOfCombined(reg, letters, kx, x, ky, y, op, d);
    }
  }

  /** The combined vector carries the combined exponents of the two kinds. */
  lemma CombinedVectorExps(kx: Kind, x: Value, ky: Kind, y: Value, op: Op, letters: seq<string>)
    requires WellFormed(kx, letters) && WellFormed(ky, letters)
    requires |x.args| == |kx.params| && |y.args| == |ky.params|
    requires op == Over ==> y.inner != 0.0
    requires UnitsMerge(ToDerived(kx, x, letters), ToDerived(ky, y, letters))
    ensures |kx.exps| == |ky.exps|
    ensures Exps(Combine(ToDerived(kx, x, letters), ToDerived(ky, y, letters), op).value) == CombinedExps(kx, ky, op)
  {
    var d := Combine(ToDerived(kx, x, letters), ToDerived(ky, y, letters), op).value;
    assert Exps(d) == CombinedExps(kx, ky, op);
  }

  /** Multiplication is symmetric in its operands, up to which side's
      concrete units the result keeps (they are the same whenever both
      sides have one). */
  lemma CombineTimesCommutes(x: Derived, y: Derived)
    requires |x.slots| == |y.slots|
    ensures Combine(x, y, Times) == Combine(y, x, Times)
  {
    forall i | 0 <= i < |x.slots|
      ensures EqualsOrZero(x.slots[i].unit, y.slots[i].unit) == EqualsOrZero(y.slots[i].unit, x.slots[i].unit)
      ensures Add(x.slots[i].exp, y.slots[i].exp) == Add(y.slots[i].exp, x.slots[i].exp)
    {
      EqualsOrZeroCommutes(x.slots[i].unit, y.slots[i].unit);
    }
    if UnitsMerge(x, y) {
      assert UnitsMerge(y, x);
      var a, b := Combine(x, y, Times).value, Combine(y, x, Times).value;
      assert a.slots == b.slots;
    }
  }

  /** Dividing a vector by itself gives every slot exponent `Zero`, with
      the vector's own units kept: `km / km` is dimensionless but still
      carries `Kilometer` in its length slot. */
  lemma CombineOverSelf(x: Derived)
    requires x.inner != 0.0
    requires forall i :: 0 <= i < |x.slots| ==> x.slots[i].exp != Invalid
    ensures Combine(x, x, Over).Ok?
    ensures forall i :: 0 <= i < |x.slots| ==>
      Combine(x, x, Over).value.slots[i] == Slot(Zero, x.slots[i].unit)
    ensures Combine(x, x, Over).value.inner == 1.0
  {
    forall i | 0 <= i < |x.slots|
      ensures EqualsOrZero(x.slots[i].unit, x.slots[i].unit) == Ok(x.slots[i].unit)
      ensures Add(x.slots[i].exp, Neg(x.slots[i].exp)) == Zero
    {
      EqualsOrZeroIdempotent(x.slots[i].unit);
      AddNegIsZero(x.slots[i].exp);
    }
  }
}
