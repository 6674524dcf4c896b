/** Linear search over a sequence.  The source searches in three places:
    `Iterator::find` over a struct's attributes in `derive(Unit)`
    (phys_calc_macros/src/lib.rs), the key lookup of the dimension table
    in `impl_derived_conversions!`, and the compiler's choice of the one
    resolver impl whose exponent pattern a vector has.  All three are
    instances of `FirstIndex`. */
module Sequences {
  import opened Wrappers

  /** The position of the first element that passes `p`, or `Nothing`
      when none does. */
  function FirstIndex<T>(s: seq<T>, p: T -> bool): (r: Option<nat>)
    ensures r.Some? ==> r.value < |s| && p(s[r.value])
    ensures r.Some? ==> forall j :: 0 <= j < r.value ==> !p(s[j])
    ensures r.Nothing? <==> forall j :: 0 <= j < |s| ==> !p(s[j])
  {
    if |s| == 0 then Nothing
    else if p(s[0]) then Some(0)
    else match FirstIndex(s[1..], p)
      case Nothing => Nothing
      case Some(j) => Some(j + 1)
  }
}
