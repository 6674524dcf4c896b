/** Same-kind arithmetic on single-dimension quantities: what `impl_math!`
    (phys_calc/src/math_impl.rs) gives every base quantity struct. */
module QuantityMath {
  import opened Wrappers
  import opened Units
  import opened Conversion

  /** Two values have the same Rust type: same struct, same unit parameter. */
  predicate SameType(x: Measure, y: Measure)
  {
    x.dim == y.dim && x.unit == y.unit
  }

  /** `x + y`: only defined between values of one type; the magnitudes add
      and the type is kept. */
  function Add(x: Measure, y: Measure): (r: Result<Measure>)
    ensures r.Ok? <==> SameType(x, y)
    ensures r.Err? ==> r.error == KindMismatch
    ensures r.Ok? ==> SameType(r.value, x) && r.value.inner == x.inner + y.inner
  {
    if SameType(x, y) then Ok(x.(inner := x.inner + y.inner)) else Err(KindMismatch)
  }

  /** `x - y`, under the same rule as `+`. */
  function Sub(x: Measure, y: Measure): (r: Result<Measure>)
    ensures r.Ok? <==> SameType(x, y)
    ensures r.Err? ==> r.error == KindMismatch
    ensures r.Ok? ==> SameType(r.value, x) && r.value.inner == x.inner - y.inner
  {
    if SameType(x, y) then Ok(x.(inner := x.inner - y.inner)) else Err(KindMismatch)
  }

  /** `x * k` for a plain number `k`: the type is kept. */
  function Scale(x: Measure, k: real): (r: Measure)
    ensures SameType(r, x) && r.inner == x.inner * k
  {
    x.(inner := x.inner * k)
  }

  /** `x / k` for a plain number `k`: the type is kept. */
  function DivScalar(x: Measure, k: real): (r: Measure)
    requires k != 0.0
    ensures SameType(r, x) && r.inner * k == x.inner
  {
    DivideByNonzero(x.inner, k);
    x.(inner := x.inner / k)
  }

  /** `x / y` between values of one type: a plain number. */
  function Ratio(x: Measure, y: Measure): (r: Result<real>)
    requires y.inner != 0.0
    ensures r.Ok? <==> SameType(x, y)
    ensures r.Err? ==> r.error == KindMismatch
    ensures r.Ok? ==> r.value * y.inner == x.inner
  {
    if SameType(x, y) then DivideByNonzero(x.inner, y.inner); Ok(x.inner / y.inner) else Err(KindMismatch)
  }

  lemma DivideByNonzero(x: real, k: real)
    requires k != 0.0
    ensures x / k * k == x
  {
  }

  lemma ProductByNonzeroCancels(x: real, y: real, k: real)
    requires k != 0.0 && x * k == y * k
    ensures x == y
  {
    DivideByNonzero(x * k, k);
    DivideByNonzero(y * k, k);
    calc {
      x;
    ==  { NonzeroMultiplyThenDivide(x, k); }
      x * k / k;
    ==
      y * k / k;
    ==  { NonzeroMultiplyThenDivide(y, k); }
      y;
    }
  }

  lemma NonzeroMultiplyThenDivide(x: real, k: real)
    requires k != 0.0
    ensures x * k / k == x
  {
  }

  /** Subtracting what was added gives the original value back. */
  lemma SubUndoesAdd(x: Measure, y: Measure)
    requires SameType(x, y)
    ensures Add(x, y).Ok? && Sub(Add(x, y).value, y) == Ok(x)
  {
  }

  /** Addition does not depend on operand order. */
  lemma AddCommutes(x: Measure, y: Measure)
    requires SameType(x, y)
    ensures Add(x, y) == Add(y, x)
  {
  }

  /** Dividing by the number one multiplied by gives the value back. */
  lemma DivScalarUndoesScale(x: Measure, k: real)
    requires k != 0.0
    ensures DivScalar(Scale(x, k), k) == x
  {
    var r := DivScalar(Scale(x, k), k);
    ProductByNonzeroCancels(r.inner, x.inner, k);
  }

  /** The ratio of a scaled value to the original is the scale factor. */
  lemma RatioOfScaled(x: Measure, k: real)
    requires x.inner != 0.0
    ensures Ratio(Scale(x, k), x) == Ok(k)
  {
    var r := Ratio(Scale(x, k), x).value;
    assert r * x.inner == x.inner * k;
    ProductByNonzeroCancels(r, k, x.inner);
  }

  /** The ratio of two values does not depend on the unit they are written
      in: converting both to any other unit of the dimension keeps it
      (outside temperature, whose conversions are affine). */
  lemma RatioIgnoresCommonUnit(x: Measure, y: Measure, target: BaseUnit)
    requires WellTyped(x) && SameType(x, y) && x.unit.Concrete? && x.dim != Temp
    requires DimOf(target) == x.dim && y.inner != 0.0
    ensures Convert(x, Concrete(target)).Ok? && Convert(y, Concrete(target)).Ok?
    ensures Convert(y, Concrete(target)).value.inner != 0.0
    ensures Ratio(Convert(x, Concrete(target)).value, Convert(y, Concrete(target)).value) == Ratio(x, y)
  {
    var a, b := Convert(x, Concrete(target)).value, Convert(y, Concrete(target)).value;
    AmountRatio(x, y);
    NonzeroAmount(b);
    AmountRatio(a, b);
  }

  /** For two values in one concrete unit, the ratio of the magnitudes is
      the ratio of the amounts they stand for. */
  lemma AmountRatio(x: Measure, y: Measure)
    requires SameType(x, y) && x.unit.Concrete? && y.inner != 0.0
    ensures Amount(y) != 0.0 && Ratio(x, y) == Ok(Amount(x) / Amount(y))
  {
    QuotientOfAmounts(x.inner, y.inner, UnitMultiplier(x.unit.unit));
    assert Ratio(x, y) == Ok(x.inner / y.inner);
  }

  /** A magnitude is zero exactly when the amount it stands for is. */
  lemma NonzeroAmount(x: Measure)
    requires x.unit.Concrete?
    ensures x.inner != 0.0 <==> Amount(x) != 0.0
  {
    ProductNonzero(x.inner, UnitMultiplier(x.unit.unit));
  }

  lemma ProductNonzero(a: real, b: real)
    requires b != 0.0
    ensures a * b != 0.0 <==> a != 0.0
  {
  }

  /** Scaling numerator and denominator alike leaves a quotient unchanged. */
  lemma QuotientOfAmounts(x: real, y: real, c: real)
    requires c > 0.0 && y != 0.0
    ensures ToBaseScale(y, c) != 0.0 && ToBaseScale(x, c) / ToBaseScale(y, c) == x / y
  {
    QuotientOfScaled(x, y, c);
  }

  lemma QuotientOfScaled(x: real, y: real, c: real)
    requires c > 0.0 && y != 0.0
    ensures y * c != 0.0 && (x * c) / (y * c) == x / y
  {
  }

  /** A mutable binding of a base quantity, the receiver of the compound
      assignments `+=`, `-=`, `*=` and `/=`, each of which overwrites the
      binding with the result of the plain operator. */
  class Variable {
    var value: Measure

    constructor (v: Measure)
      ensures value == v
    {
      value := v;
    }

    method AddAssign(rhs: Measure)
      requires SameType(value, rhs)
      modifies this
      ensures Add(old(value), rhs) == Ok(value)
      ensures SameType(value, old(value)) && value.inner == old(value.inner) + rhs.inner
    {
      value := Add(value, rhs).value;
    }

    method SubAssign(rhs: Measure)
      requires SameType(value, rhs)
      modifies this
      ensures Sub(old(value), rhs) == Ok(value)
      ensures SameType(value, old(value)) && value.inner == old(value.inner) - rhs.inner
    {
      value := Sub(value, rhs).value;
    }

    method MulAssign(k: real)
      modifies this
      ensures value == Scale(old(value), k)
      ensures SameType(value, old(value)) && value.inner == old(value.inner) * k
    {
      value := Scale(value, k);
    }

    method DivAssign(k: real)
      requires k != 0.0
      modifies this
      ensures value == DivScalar(old(value), k)
      ensures SameType(value, old(value)) && value.inner * k == old(value.inner)
    {
      value := DivScalar(value, k);
    }
  }
}
