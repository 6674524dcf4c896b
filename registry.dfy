/** The dimension vector `Derived` (phys_calc/src/math_helpers.rs) and the
    registered kinds with the two conversions generated for each of them
    (phys_calc_macros/src/lib.rs): `to_derived`, from a value of the kind to
    its vector, and the resolver `to_unit`, from a vector back to the one
    kind whose exponent pattern it has.  Vectors have as many slots as there
    are letters: ten in the library, two in the prototype of src/main.rs,
    whose slots are the library's first two. */
module Registry {
  import opened Wrappers
  import opened Exponents
  import opened Units
  import opened Sequences

  /** One `XPower<Exp, Unit>` of a vector. */
  datatype Slot = Slot(exp: Exponent, unit: UnitSlot)

  /** `Derived<...>`: one slot per base dimension, and the magnitude. */
  datatype Derived = Derived(slots: seq<Slot>, inner: real)

  function Exps(d: Derived): (r: seq<Exponent>)
    ensures |r| == |d.slots|
    ensures forall i :: 0 <= i < |r| ==> r[i] == d.slots[i].exp
  {
    seq(|d.slots|, i requires 0 <= i < |d.slots| => d.slots[i].exp)
  }

  /** The identifier that names the placeholder unit in a mapping. */
  const NoneIdent: string := "None"

  /** A registered kind such as `Speed<L, T>`: its name, its unit
      parameters, and per slot the exponent and the unit type, which is
      `None` or one of the parameters. */
  datatype Kind = Kind(name: string, params: seq<string>, exps: seq<Exponent>, units: seq<string>)

  /** A value of a registered kind: the kind's name, one unit per
      parameter, and the magnitude. */
  datatype Value = Value(kind: string, args: seq<UnitSlot>, inner: real)

  predicate Distinct(s: seq<string>)
  {
    forall i, j :: 0 <= i < j < |s| ==> s[i] != s[j]
  }

  /** What it takes for the generated impls to compile: one exponent and one
      unit per slot, distinct parameters, each parameter one of the
      resolver's slot generics and none of them shadowing `None`, and each
      unit type in scope. */
  predicate WellFormed(k: Kind, letters: seq<string>)
  {
    && |k.exps| == |letters| && |k.units| == |letters|
    && Distinct(k.params) && NoneIdent !in k.params
    && (forall p :: p in k.params ==> p in letters)
    && (forall i :: 0 <= i < |k.units| ==> k.units[i] == NoneIdent || k.units[i] in k.params)
  }

  predicate AllWellFormed(reg: seq<Kind>, letters: seq<string>)
  {
    forall k :: k in reg ==> WellFormed(k, letters)
  }

  /** No two kinds register the same exponent pattern (two would be
      conflicting impls). */
  predicate Unambiguous(reg: seq<Kind>)
  {
    forall i, j :: 0 <= i < j < |reg| ==> reg[i].exps != reg[j].exps
  }

  /** Each parameter is used as the unit of the slot whose generic letter
      it is, so that the resolver reads it back from where `to_derived`
      put it. */
  predicate Canonical(k: Kind, letters: seq<string>)
  {
    forall i :: 0 <= i < |letters| && i < |k.units| && letters[i] in k.params ==> k.units[i] == letters[i]
  }

  /** The first position of `x` in `s`. */
  function IndexIn(s: seq<string>, x: string): (i: nat)
    requires x in s
    ensures i < |s| && s[i] == x
    ensures forall j :: 0 <= j < i ==> s[j] != x
  {
    if s[0] == x then 0 else 1 + IndexIn(s[1..], x)
  }

  lemma IndexInDistinct(s: seq<string>, j: nat)
    requires Distinct(s) && j < |s|
    ensures IndexIn(s, s[j]) == j
  {
  }

  /** A value is of kind `k` when it names it, has one unit per parameter,
      and each parameter's unit fits every slot that uses it. */
  predicate IsValueOf(v: Value, k: Kind)
  {
    && v.kind == k.name && |v.args| == |k.params|
    && forall i :: 0 <= i < |k.units| && k.units[i] in k.params ==>
         i < SlotCount && Fits(v.args[IndexIn(k.params, k.units[i])], DimAt(i))
  }

  /** The unit `to_derived` puts in slot `i`. */
  function UnitAt(k: Kind, args: seq<UnitSlot>, i: nat): UnitSlot
    requires i < |k.units| && |args| == |k.params|
    requires k.units[i] == NoneIdent || k.units[i] in k.params
  {
    if k.units[i] == NoneIdent then NoneUnit else args[IndexIn(k.params, k.units[i])]
  }

  /** `to_derived`: the kind's exponents, the value's units where the kind
      names a parameter and `None` elsewhere, and the magnitude unchanged. */
  function ToDerived(k: Kind, v: Value, letters: seq<string>): (d: Derived)
    requires WellFormed(k, letters) && |v.args| == |k.params|
    ensures |d.slots| == |letters| && Exps(d) == k.exps && d.inner == v.inner
    ensures forall i :: 0 <= i < |d.slots| ==> d.slots[i].unit == UnitAt(k, v.args, i)
  {
    Derived(seq(|k.exps|, i requires 0 <= i < |k.exps| => Slot(k.exps[i], UnitAt(k, v.args, i))), v.inner)
  }

  /** The position of the first kind registered for an exponent pattern. */
  function FirstMatch(reg: seq<Kind>, exps: seq<Exponent>): (r: Option<nat>)
    ensures r.Some? ==> r.value < |reg| && reg[r.value].exps == exps
    ensures r.Some? ==> forall j :: 0 <= j < r.value ==> reg[j].exps != exps
    ensures r.Nothing? <==> forall j :: 0 <= j < |reg| ==> reg[j].exps != exps
  {
    FirstIndex(reg, (k: Kind) => k.exps == exps)
  }

  /** The generated resolver `to_unit`: the kind registered for the
      vector's exponents, each parameter taking the unit of the slot whose
      generic letter it is; the unit slots take part in no match. */
  function Resolve(reg: seq<Kind>, letters: seq<string>, d: Derived): (r: Result<Value>)
    requires AllWellFormed(reg, letters) && |d.slots| == |letters|
    ensures r.Ok? <==> exists k :: k in reg && k.exps == Exps(d)
    ensures r.Err? ==> r.error == Unregistered
    ensures r.Ok? ==> r.value.inner == d.inner
  {
    match FirstMatch(reg, Exps(d))
    case Nothing => Err(Unregistered)
    case Some(i) =>
      var k := reg[i];
      assert WellFormed(k, letters);
      Ok(Value(k.name, seq(|k.params|, j requires 0 <= j < |k.params| => d.slots[IndexIn(letters, k.params[j])].unit), d.inner))
  }

  /** With an unambiguous registry the resolver picks the one kind with the
      vector's exponents, and reads every parameter off its letter's slot. */
  lemma ResolveFindsKind(reg: seq<Kind>, letters: seq<string>, d: Derived, i: nat)
    requires AllWellFormed(reg, letters) && |d.slots| == |letters| && Unambiguous(reg)
    requires i < |reg| && reg[i].exps == Exps(d)
    ensures Resolve(reg, letters, d).Ok?
    ensures var v := Resolve(reg, letters, d).value;
      && v.kind == reg[i].name && |v.args| == |reg[i].params|
      && forall j :: 0 <= j < |v.args| ==> reg[i].params[j] in letters && v.args[j] == d.slots[IndexIn(letters, reg[i].params[j])].unit
  {
    forall j | 0 <= j < |reg| && j != i
      ensures reg[j].exps != Exps(d)
    {
      if j < i { assert reg[j].exps != reg[i].exps; } else { assert reg[i].exps != reg[j].exps; }
    }
    assert FirstMatch(reg, Exps(d)) == Some(i);
    assert WellFormed(reg[i], letters);
  }

  /** Resolving the vector of a value gives the value back: `to_unit`
      undoes `to_derived` for every registered, canonical kind. */
  lemma ResolveUndoesToDerived(reg: seq<Kind>, letters: seq<string>, i: nat, v: Value)
    requires AllWellFormed(reg, letters) && Unambiguous(reg) && i < |reg|
    requires Canonical(reg[i], letters) && IsValueOf(v, reg[i])
    ensures Resolve(reg, letters, ToDerived(reg[i], v, letters)) == Ok(v)
  {
    var k := reg[i];
    assert WellFormed(k, letters);
    var d := ToDerived(k, v, letters);
    ResolveFindsKind(reg, letters, d, i);
    var r := Resolve(reg, letters, d).value;
    assert |r.args| == |v.args|;
    forall j | 0 <= j < |r.args|
      ensures r.args[j] == v.args[j]
    {
      var p := k.params[j];
      var s := IndexIn(letters, p);
      assert k.units[s] == p;
      IndexInDistinct(k.params, j);
      assert r.args[j] == d.slots[s].unit;
      assert d.slots[s].unit == UnitAt(k, v.args, s) == v.args[IndexIn(k.params, p)];
    }
    assert r.args == v.args;
  }

  /** Whatever the resolver returns has the vector's exponents: turning it
      back into a vector restores every exponent. */
  lemma ResolveKeepsExponents(reg: seq<Kind>, letters: seq<string>, d: Derived)
    requires AllWellFormed(reg, letters) && |d.slots| == |letters| && Unambiguous(reg)
    requires Resolve(reg, letters, d).Ok?
    ensures var v := Resolve(reg, letters, d).value;
      exists k :: k in reg && k.name == v.kind && |v.args| == |k.params|
        && Exps(ToDerived(k, v, letters)) == Exps(d)
  {
    var i := FirstMatch(reg, Exps(d)).value;
    ResolveFindsKind(reg, letters, d, i);
    assert reg[i] in reg;
  }

  /** A vector with an `Invalid` exponent never resolves, as long as no
      kind registers `Invalid`. */
  lemma ResolveRejectsInvalid(reg: seq<Kind>, letters: seq<string>, d: Derived, s: nat)
    requires AllWellFormed(reg, letters) && |d.slots| == |letters|
    requires forall k :: k in reg ==> Invalid !in k.exps
    requires s < |d.slots| && d.slots[s].exp == Invalid
    ensures Resolve(reg, letters, d) == Err(Unregistered)
  {
    forall k | k in reg
      ensures k.exps != Exps(d)
    {
      assert Exps(d)[s] == Invalid;
    }
  }
}
