/** The solid-angle catalog (phys_calc/src/base/solid_angle.rs):
    multipliers to steradians, squares of the plane-angle ones. */
module BaseSolidAngle {
  import opened BaseAngle

  datatype SolidAngleUnit = SquareSecond | SquareMinute | SquareDegree | Steradian

  /** `x.powi(2)` of the source, over reals. */
  function Square(x: real): real
  {
    x * x
  }

  lemma SquarePositive(x: real)
    requires x > 0.0
    ensures Square(x) > 0.0
  {
    calc {
      Square(x);
    ==
      x * x;
    > { ProductPositive(x, x); }
      0.0;
    }
  }

  lemma ProductPositive(x: real, y: real)
    requires x > 0.0 && y > 0.0
    ensures x * y > 0.0
  {
  }

  function Multiplier(u: SolidAngleUnit): (r: real)
    ensures r > 0.0
  {
    match u
    case SquareSecond => SquarePositive(Pi / (60.0 * 60.0 * 180.0)); Square(Pi / (60.0 * 60.0 * 180.0))
    case SquareMinute => SquarePositive(Pi / (60.0 * 180.0)); Square(Pi / (60.0 * 180.0))
    case SquareDegree => SquarePositive(Pi / 180.0); Square(Pi / 180.0)
    case Steradian => 1.0
  }

  function Symbol(u: SolidAngleUnit): string
  {
    match u
    case SquareSecond => "arcsec²"
    case SquareMinute => "arcmin²"
    case SquareDegree => "deg²"
    case Steradian => "sr"
  }

  /** Distinct units display distinct symbols. */
  lemma SymbolsDistinct(u: SolidAngleUnit, v: SolidAngleUnit)
    requires u != v
    ensures Symbol(u) != Symbol(v)
  {
  }
}
