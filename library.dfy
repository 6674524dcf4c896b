/** The kinds the library registers with `impl_derived_conversions!`: Length
    (phys_calc/src/base/length.rs), Mass (mass.rs), SolidAngle
    (solid_angle.rs) and DigitalInformation (digital_information.rs), each
    with exponent `One` in its own slot and its single unit parameter
    there.  No other base quantity is registered, and no composite kind is:
    so no product or quotient of two registered values resolves. */
module Library {
  import opened Wrappers
  import opened Exponents
  import opened Units
  import opened Registry
  import opened Combination
  import opened ConversionsMacro

  /** A kind of one base dimension, `Name<P>` with `Name: One, P`. */
  function SingleKind(name: string, param: string, s: nat): (k: Kind)
    requires s < SlotCount
    ensures |k.exps| == SlotCount && |k.units| == SlotCount
    ensures forall i :: 0 <= i < SlotCount ==>
      k.exps[i] == (if i == s then One else Zero) && k.units[i] == (if i == s then param else NoneIdent)
  {
    Kind(name, [param],
         seq(SlotCount, i requires 0 <= i < SlotCount => if i == s then One else Zero),
         seq(SlotCount, i requires 0 <= i < SlotCount => if i == s then param else NoneIdent))
  }

  /** The four `impl_derived_conversions!` calls of the base files, as
      name, unit parameter and its bound; each maps its own dimension to
      `One` with its parameter as unit. */
  const LibraryNames: seq<string> := ["Length", "Mass", "SolidAngle", "DigitalInformation"]
  const LibraryParams: seq<string> := ["L", "M", "S", "D"]
  const LibraryBounds: seq<string> := ["LengthUnit", "MassUnit", "SolidAngleUnit", "DigitalInformationUnit"]

  /** The slot of each library kind, in registry order. */
  const LibrarySlots: seq<nat> := [SlotOf(Length), SlotOf(Mass), SlotOf(SolidAngle), SlotOf(DigitalInformation)]

  const LibraryKinds: seq<Kind> :=
    seq(4, j requires 0 <= j < 4 => SingleKind(LibraryNames[j], LibraryParams[j], LibrarySlots[j]))

  lemma LibraryKindAt(j: nat)
    requires j < |LibraryKinds|
    ensures LibrarySlots[j] < SlotCount && DimNames[LibrarySlots[j]] == LibraryNames[j]
    ensures LibraryParams[j] == DefaultLetters[LibrarySlots[j]]
    ensures LibraryKinds[j] == SingleKind(LibraryNames[j], LibraryParams[j], LibrarySlots[j])
  {
  }

  /** Each base file's macro call expands to its library kind, with the
      resolver's pattern on the default letters. */
  lemma LibraryKindsAreExpansions(j: nat)
    requires j < |LibraryKinds|
    ensures ExpansionOf(LibraryNames[j], [Generic(LibraryParams[j], LibraryBounds[j])],
                        [Mapping(LibraryNames[j], One, LibraryParams[j])])
         == Ok(Expansion(LibraryKinds[j], DefaultLetters))
  {
    LibraryKindAt(j);
    SingleExpansion(LibraryNames[j], LibraryParams[j], LibraryBounds[j], LibrarySlots[j]);
  }

  lemma SingleExpansion(name: string, param: string, bound: string, s: nat)
    requires s < SlotCount && DimNames[s] == name
    ensures ExpansionOf(name, [Generic(param, bound)], [Mapping(name, One, param)])
         == Ok(Expansion(SingleKind(name, param, s), DefaultLetters))
  {
    var ms := [Mapping(name, One, param)];
    var g := [Generic(param, bound)];
    DimNamesDistinct();
    assert ms[..0] == [];
    forall i | 0 <= i < SlotCount
      ensures LastFor(ms, DimNames[i]) == if i == s then Some(ms[0]) else Nothing
    {
      assert ms[0].typ == DimNames[s];
    }
    assert FirstUnknown(ms).Nothing?;
    ExpansionSlots(name, g, ms);
    var e := ExpansionOf(name, g, ms).value;
    var k := SingleKind(name, param, s);
    assert e.kind.exps == k.exps;
    assert e.kind.units == k.units;
    assert e.kind.params == [param];
  }

  lemma DimNamesDistinct()
    ensures forall i, j :: 0 <= i < j < |DimNames| ==> DimNames[i] != DimNames[j]
  {
  }

  lemma DefaultLettersDistinct()
    ensures forall i, j :: 0 <= i < j < |DefaultLetters| ==> DefaultLetters[i] != DefaultLetters[j]
    ensures NoneIdent !in DefaultLetters
  {
  }

  /** A single-dimension kind whose parameter is its slot's letter is well
      formed and canonical. */
  lemma SingleKindSound(name: string, param: string, s: nat)
    requires s < SlotCount && param == DefaultLetters[s]
    ensures WellFormed(SingleKind(name, param, s), DefaultLetters)
    ensures Canonical(SingleKind(name, param, s), DefaultLetters)
  {
    DefaultLettersDistinct();
  }

  /** The library registry is one the resolver can work with: every kind
      is well formed and canonical, and no exponent pattern is registered
      twice. */
  lemma LibraryIsSound()
    ensures AllWellFormed(LibraryKinds, DefaultLetters)
    ensures Unambiguous(LibraryKinds)
    ensures forall k :: k in LibraryKinds ==> Canonical(k, DefaultLetters)
  {
    forall j | 0 <= j < |LibraryKinds|
      ensures WellFormed(LibraryKinds[j], DefaultLetters) && Canonical(LibraryKinds[j], DefaultLetters)
    {
      LibraryKindAt(j);
      SingleKindSound(LibraryNames[j], LibraryParams[j], LibrarySlots[j]);
    }
    forall i, j | 0 <= i < j < |LibraryKinds|
      ensures LibraryKinds[i].exps != LibraryKinds[j].exps
    {
      LibraryKindAt(i);
      LibraryKindAt(j);
      assert LibraryKinds[i].exps[LibrarySlots[i]] == One != LibraryKinds[j].exps[LibrarySlots[i]];
    }
  }

  /** The product or quotient of two single-dimension kinds has an exponent
      pattern no single-dimension kind has: `Two` or two nonzero slots for
      a product, all `Zero` or a `NegOne` for a quotient. */
  lemma SingleKindsAreClosedOut(a: nat, b: nat, c: nat, nx: string, px: string, ny: string, py: string, n: string, p: string, op: Op)
    requires a < SlotCount && b < SlotCount && c < SlotCount
    ensures CombinedExps(SingleKind(nx, px, a), SingleKind(ny, py, b), op) != SingleKind(n, p, c).exps
  {
    var kx, ky, k := SingleKind(nx, px, a), SingleKind(ny, py, b), SingleKind(n, p, c);
    var e := CombinedExps(kx, ky, op);
    if op == Times {
      if a == b {
        assert e[a] == Two;
        assert k.exps[a] != Two;
      } else if c != a {
        assert e[a] == One && k.exps[a] == Zero;
      } else {
        assert e[b] == One && k.exps[b] == Zero;
      }
    } else {
      if a == b {
        assert e[c] == Zero && k.exps[c] == One;
      } else {
        assert e[b] == NegOne && k.exps[b] != NegOne;
      }
    }
  }

  /** No product and no quotient of two values of library kinds resolves:
      it fails with a unit conflict or with an unregistered pattern. */
  lemma LibraryProductsDoNotResolve(ix: nat, x: Value, iy: nat, y: Value, op: Op)
    requires ix < |LibraryKinds| && iy < |LibraryKinds|
    requires IsValueOf(x, LibraryKinds[ix]) && IsValueOf(y, LibraryKinds[iy])
    requires op == Over ==> y.inner != 0.0
    ensures LibraryKinds[ix] in LibraryKinds && LibraryKinds[iy] in LibraryKinds
    ensures AllWellFormed(LibraryKinds, DefaultLetters)
    ensures Apply(LibraryKinds, DefaultLetters, LibraryKinds[ix], x, LibraryKinds[iy], y, op).Err?
  {
    var kx, ky := LibraryKinds[ix], LibraryKinds[iy];
    LibraryIsSound();
    ApplyIsCombineThenResolve(LibraryKinds, DefaultLetters, kx, x, ky, y, op);
    LibraryKindAt(ix);
    LibraryKindAt(iy);
    forall j | 0 <= j < |LibraryKinds|
      ensures LibraryKinds[j].exps != CombinedExps(kx, ky, op)
    {
      LibraryKindAt(j);
      SingleKindsAreClosedOut(LibrarySlots[ix], LibrarySlots[iy], LibrarySlots[j], LibraryNames[ix], LibraryParams[ix],
                              LibraryNames[iy], LibraryParams[iy], LibraryNames[j], LibraryParams[j], op);
    }
  }

  /** Time, temperature, current, luminous intensity, quantity and plane
      angle have no registered kind: no library kind has a nonzero
      exponent in their slots. */
  lemma OnlyFourDimensionsRegistered(d: Dim)
    requires d !in {Length, Mass, SolidAngle, DigitalInformation}
    ensures forall k :: k in LibraryKinds ==> k.exps[SlotOf(d)] == Zero
  {
    forall j | 0 <= j < |LibraryKinds|
      ensures LibraryKinds[j].exps[SlotOf(d)] == Zero
    {
      LibraryKindAt(j);
    }
  }

  /** A value of a library kind survives the round trip through its
      vector. */
  lemma LibraryRoundTrip(i: nat, v: Value)
    requires i < |LibraryKinds|
    requires IsValueOf(v, LibraryKinds[i])
    ensures AllWellFormed(LibraryKinds, DefaultLetters) && WellFormed(LibraryKinds[i], DefaultLetters)
    ensures Resolve(LibraryKinds, DefaultLetters, ToDerived(LibraryKinds[i], v, DefaultLetters)) == Ok(v)
  {
    LibraryIsSound();
    assert LibraryKinds[i] in LibraryKinds;
    ResolveUndoesToDerived(LibraryKinds, DefaultLetters, i, v);
  }
}
