/** Bounded dimension exponents (phys_calc/src/math.rs).  The source encodes
    each exponent as a marker type and addition as one trait impl per pair;
    here the markers are the constructors of one datatype and the impls are
    the rows of one table. */
module Exponents {
  import opened Wrappers

  /** The twelve exponent markers: -5..5 and the absorbing `Invalid`. */
  datatype Exponent =
    | NegFive | NegFour | NegThree | NegTwo | NegOne
    | Zero
    | One | Two | Three | Four | Five
    | Invalid

  /** The integer a concrete marker stands for (the `m` table of the
      generator script in math.rs). */
  function Value(e: Exponent): (n: int)
    requires !e.Invalid?
    ensures -5 <= n <= 5
  {
    match e
    case NegFive => -5
    case NegFour => -4
    case NegThree => -3
    case NegTwo => -2
    case NegOne => -1
    case Zero => 0
    case One => 1
    case Two => 2
    case Three => 3
    case Four => 4
    case Five => 5
  }

  /** Reference definition: the marker for an integer, `Invalid` outside
      the representable range. */
  function FromInt(n: int): (e: Exponent)
    ensures !e.Invalid? <==> -5 <= n <= 5
    ensures !e.Invalid? ==> Value(e) == n
  {
    if n == -5 then NegFive
    else if n == -4 then NegFour
    else if n == -3 then NegThree
    else if n == -2 then NegTwo
    else if n == -1 then NegOne
    else if n == 0 then Zero
    else if n == 1 then One
    else if n == 2 then Two
    else if n == 3 then Three
    else if n == 4 then Four
    else if n == 5 then Five
    else Invalid
  }

  /** The `Add` table as the source writes it: one
      `impl_math!(lhs, rhs, result)` entry per pair.  Every one of the 144
      entries is the clipped sum `Add`. */
  function AddTable(a: Exponent, b: Exponent): (r: Exponent)
    ensures r == Add(a, b)
  {
    match (a, b)
    case (NegFive, NegFive) => Invalid
    case (NegFive, NegFour) => Invalid
    case (NegFive, NegThree) => Invalid
    case (NegFive, NegTwo) => Invalid
    case (NegFive, NegOne) => Invalid
    case (NegFive, Zero) => NegFive
    case (NegFive, One) => NegFour
    case (NegFive, Two) => NegThree
    case (NegFive, Three) => NegTwo
    case (NegFive, Four) => NegOne
    case (NegFive, Five) => Zero
    case (NegFive, Invalid) => Invalid

    case (NegFour, NegFive) => Invalid
    case (NegFour, NegFour) => Invalid
    case (NegFour, NegThree) => Invalid
    case (NegFour, NegTwo) => Invalid
    case (NegFour, NegOne) => NegFive
    case (NegFour, Zero) => NegFour
    case (NegFour, One) => NegThree
    case (NegFour, Two) => NegTwo
    case (NegFour, Three) => NegOne
    case (NegFour, Four) => Zero
    case (NegFour, Five) => One
    case (NegFour, Invalid) => Invalid

    case (NegThree, NegFive) => Invalid
    case (NegThree, NegFour) => Invalid
    case (NegThree, NegThree) => Invalid
    case (NegThree, NegTwo) => NegFive
    case (NegThree, NegOne) => NegFour
    case (NegThree, Zero) => NegThree
    case (NegThree, One) => NegTwo
    case (NegThree, Two) => NegOne
    case (NegThree, Three) => Zero
    case (NegThree, Four) => One
    case (NegThree, Five) => Two
    case (NegThree, Invalid) => Invalid

    case (NegTwo, NegFive) => Invalid
    case (NegTwo, NegFour) => Invalid
    case (NegTwo, NegThree) => NegFive
    case (NegTwo, NegTwo) => NegFour
    case (NegTwo, NegOne) => NegThree
    case (NegTwo, Zero) => NegTwo
    case (NegTwo, One) => NegOne
    case (NegTwo, Two) => Zero
    case (NegTwo, Three) => One
    case (NegTwo, Four) => Two
    case (NegTwo, Five) => Three
    case (NegTwo, Invalid) => Invalid

    case (NegOne, NegFive) => Invalid
    case (NegOne, NegFour) => NegFive
    case (NegOne, NegThree) => NegFour
    case (NegOne, NegTwo) => NegThree
    case (NegOne, NegOne) => NegTwo
    case (NegOne, Zero) => NegOne
    case (NegOne, One) => Zero
    case (NegOne, Two) => One
    case (NegOne, Three) => Two
    case (NegOne, Four) => Three
    case (NegOne, Five) => Four
    case (NegOne, Invalid) => Invalid

    case (Zero, NegFive) => NegFive
    case (Zero, NegFour) => NegFour
    case (Zero, NegThree) => NegThree
    case (Zero, NegTwo) => NegTwo
    case (Zero, NegOne) => NegOne
    case (Zero, Zero) => Zero
    case (Zero, One) => One
    case (Zero, Two) => Two
    case (Zero, Three) => Three
    case (Zero, Four) => Four
    case (Zero, Five) => Five
    case (Zero, Invalid) => Invalid

    case (One, NegFive) => NegFour
    case (One, NegFour) => NegThree
    case (One, NegThree) => NegTwo
    case (One, NegTwo) => NegOne
    case (One, NegOne) => Zero
    case (One, Zero) => One
    case (One, One) => Two
    case (One, Two) => Three
    case (One, Three) => Four
    case (One, Four) => Five
    case (One, Five) => Invalid
    case (One, Invalid) => Invalid

    case (Two, NegFive) => NegThree
    case (Two, NegFour) => NegTwo
    case (Two, NegThree) => NegOne
    case (Two, NegTwo) => Zero
    case (Two, NegOne) => One
    case (Two, Zero) => Two
    case (Two, One) => Three
    case (Two, Two) => Four
    case (Two, Three) => Five
    case (Two, Four) => Invalid
    case (Two, Five) => Invalid
    case (Two, Invalid) => Invalid

    case (Three, NegFive) => NegTwo
    case (Three, NegFour) => NegOne
    case (Three, NegThree) => Zero
    case (Three, NegTwo) => One
    case (Three, NegOne) => Two
    case (Three, Zero) => Three
    case (Three, One) => Four
    case (Three, Two) => Five
    case (Three, Three) => Invalid
    case (Three, Four) => Invalid
    case (Three, Five) => Invalid
    case (Three, Invalid) => Invalid

    case (Four, NegFive) => NegOne
    case (Four, NegFour) => Zero
    case (Four, NegThree) => One
    case (Four, NegTwo) => Two
    case (Four, NegOne) => Three
    case (Four, Zero) => Four
    case (Four, One) => Five
    case (Four, Two) => Invalid
    case (Four, Three) => Invalid
    case (Four, Four) => Invalid
    case (Four, Five) => Invalid
    case (Four, Invalid) => Invalid

    case (Five, NegFive) => Zero
    case (Five, NegFour) => One
    case (Five, NegThree) => Two
    case (Five, NegTwo) => Three
    case (Five, NegOne) => Four
    case (Five, Zero) => Five
    case (Five, One) => Invalid
    case (Five, Two) => Invalid
    case (Five, Three) => Invalid
    case (Five, Four) => Invalid
    case (Five, Five) => Invalid
    case (Five, Invalid) => Invalid

    case (Invalid, NegFive) => Invalid
    case (Invalid, NegFour) => Invalid
    case (Invalid, NegThree) => Invalid
    case (Invalid, NegTwo) => Invalid
    case (Invalid, NegOne) => Invalid
    case (Invalid, Zero) => Invalid
    case (Invalid, One) => Invalid
    case (Invalid, Two) => Invalid
    case (Invalid, Three) => Invalid
    case (Invalid, Four) => Invalid
    case (Invalid, Five) => Invalid
    case (Invalid, Invalid) => Invalid
  }

  /** `Number::Neg`, the associated negation of each marker. */
  function Neg(a: Exponent): (r: Exponent)
    ensures r.Invalid? <==> a.Invalid?
    ensures !a.Invalid? ==> Value(r) == -Value(a)
  {
    match a
    case NegFive => Five
    case NegFour => Four
    case NegThree => Three
    case NegTwo => Two
    case NegOne => One
    case Zero => Zero
    case One => NegOne
    case Two => NegTwo
    case Three => NegThree
    case Four => NegFour
    case Five => NegFive
    case Invalid => Invalid
  }

  /** The value-level `add` generated for every pair: it exists only so that
      the trait is implemented, and panics whenever it is called. */
  function MarkerAdd(a: Exponent, b: Exponent): (r: Result<Exponent>)
    ensures r.Err? && r.error == MarkerArithmetic
  {
    Err(MarkerArithmetic)
  }

  /** `Add::Output`: integer addition clipped to [-5, 5], with `Invalid`
      absorbing.  The rest of the model uses this form of the table. */
  function Add(a: Exponent, b: Exponent): (r: Exponent)
    ensures r.Invalid? <==> a.Invalid? || b.Invalid? || !(-5 <= Value(a) + Value(b) <= 5)
    ensures !r.Invalid? ==> Value(r) == Value(a) + Value(b)
  {
    if a.Invalid? || b.Invalid? then Invalid else FromInt(Value(a) + Value(b))
  }

  /** `Invalid` absorbs on either side of the table. */
  lemma InvalidAbsorbs(x: Exponent)
    ensures AddTable(Invalid, x) == Invalid && AddTable(x, Invalid) == Invalid
  {
  }

  /** `Zero` is the table's identity on either side. */
  lemma ZeroIsIdentity(x: Exponent)
    ensures AddTable(Zero, x) == x && AddTable(x, Zero) == x
  {
    if !x.Invalid? {
      FromIntValue(x);
    }
  }

  /** The table is symmetric. */
  lemma AddCommutes(a: Exponent, b: Exponent)
    ensures AddTable(a, b) == AddTable(b, a)
  {
  }

  lemma FromIntValue(x: Exponent)
    requires !x.Invalid?
    ensures FromInt(Value(x)) == x
  {
  }

  lemma NegInvolution(a: Exponent)
    ensures Neg(Neg(a)) == a
  {
  }

  lemma AddNegIsZero(a: Exponent)
    requires !a.Invalid?
    ensures Add(a, Neg(a)) == Zero
  {
  }
}
