/** `impl_derived_conversions!` (phys_calc_macros/src/lib.rs): from a kind's
    name, its generics and its list of `Dimension: Exp, UnitLetter`
    mappings, the table of ten slots that both generated impls are read
    from.  The table starts with every dimension at `Zero`, unit `None`
    and its own generic letter, in the fixed dimension order; each mapping
    overwrites its dimension's exponent and unit but keeps the letter and
    the position, so a later mapping for the same dimension wins. */
module ConversionsMacro {
  import opened Wrappers
  import opened Exponents
  import opened Registry
  import opened Sequences

  /** The base dimensions by name, in slot order. */
  const DimNames: seq<string> :=
    ["Length", "Time", "Temp", "Mass", "Current", "LuminousIntensity", "Quantity", "Angle", "SolidAngle", "DigitalInformation"]

  /** The resolver's generic for each slot. */
  const DefaultLetters: seq<string> := ["L", "T", "TMP", "M", "C", "LI", "Q", "A", "S", "D"]

  /** A generic parameter of the kind, `L: LengthUnit`. */
  datatype Generic = Generic(ident: string, bound: string)

  /** One `Dimension: Exp, UnitLetter` mapping. */
  datatype Mapping = Mapping(typ: string, exp: Exponent, unitLetter: string)

  /** One entry of the table: the dimension key, its exponent, its unit
      type and its generic letter. */
  datatype Entry = Entry(typ: string, exp: Exponent, unit: string, letter: string)

  /** The two impls the macro expands to: the kind, read by `to_derived`,
      and the generic letter of each slot of the resolver's pattern. */
  datatype Expansion = Expansion(kind: Kind, patternLetters: seq<string>)

  /** The table before any mapping is applied. */
  function InitialTable(): (t: seq<Entry>)
    ensures |t| == |DimNames|
    ensures forall i :: 0 <= i < |t| ==> t[i] == Entry(DimNames[i], Zero, NoneIdent, DefaultLetters[i])
  {
    seq(|DimNames|, i requires 0 <= i < |DimNames| => Entry(DimNames[i], Zero, NoneIdent, DefaultLetters[i]))
  }

  /** The position of key `typ` in a table, if the table has that key. */
  function KeyIndex(t: seq<Entry>, typ: string): (r: Option<nat>)
    ensures r.Some? ==> r.value < |t| && t[r.value].typ == typ
    ensures r.Nothing? <==> forall i :: 0 <= i < |t| ==> t[i].typ != typ
  {
    FirstIndex(t, (e: Entry) => e.typ == typ)
  }

  /** The last mapping for dimension `typ`. */
  function LastFor(ms: seq<Mapping>, typ: string): (r: Option<Mapping>)
    ensures r.Nothing? <==> forall k :: 0 <= k < |ms| ==> ms[k].typ != typ
    ensures r.Some? ==> r.value.typ == typ
  {
    if |ms| == 0 then Nothing
    else if ms[|ms| - 1].typ == typ then Some(ms[|ms| - 1])
    else LastFor(ms[..|ms| - 1], typ)
  }

  /** `LastFor` finds the mapping for `typ` that no later mapping for `typ`
      follows. */
  lemma {:induction false} LastForIsLast(ms: seq<Mapping>, typ: string)
    ensures LastFor(ms, typ).Some? ==>
      exists k :: 0 <= k < |ms| && ms[k] == LastFor(ms, typ).value && ms[k].typ == typ
        && forall l :: k < l < |ms| ==> ms[l].typ != typ
  {
    if |ms| == 0 {
    } else if ms[|ms| - 1].typ == typ {
      assert ms[|ms| - 1] == LastFor(ms, typ).value;
    } else {
      var front := ms[..|ms| - 1];
      LastForIsLast(front, typ);
      assert forall k :: 0 <= k < |front| ==> front[k] == ms[k];
      if LastFor(front, typ).Some? {
        var k :| 0 <= k < |front| && front[k] == LastFor(front, typ).value && front[k].typ == typ
          && forall l :: k < l < |front| ==> front[l].typ != typ;
        assert ms[k] == LastFor(ms, typ).value;
      }
    }
  }

  /** The first mapping whose dimension is not a key of the table. */
  function FirstUnknown(ms: seq<Mapping>): (r: Option<string>)
    ensures r.Nothing? <==> forall k :: 0 <= k < |ms| ==> ms[k].typ in DimNames
    ensures r.Some? ==> r.value !in DimNames
  {
    if |ms| == 0 then Nothing
    else if ms[0].typ !in DimNames then Some(ms[0].typ)
    else
      assert forall k :: 1 <= k < |ms| ==> ms[k] == ms[1..][k - 1];
      FirstUnknown(ms[1..])
  }

  /** `FirstUnknown` is the dimension of the first mapping that names none
      of the ten. */
  lemma {:induction false} FirstUnknownIsFirst(ms: seq<Mapping>, k: nat)
    requires k < |ms| && ms[k].typ !in DimNames
    requires forall l :: 0 <= l < k ==> ms[l].typ in DimNames
    ensures FirstUnknown(ms) == Some(ms[k].typ)
  {
    if k > 0 {
      assert ms[0].typ in DimNames;
      assert ms[1..][k - 1] == ms[k];
      FirstUnknownIsFirst(ms[1..], k - 1);
    }
  }

  /** The loop's failure: a mapping whose key is not in the table, after
      only known ones, is the first unknown. */
  lemma UnknownAfterKnown(ms: seq<Mapping>, j: nat)
    requires j < |ms| && AllKnown(ms[..j])
    requires KeyIndex(TableAfter(ms[..j]), ms[j].typ).Nothing?
    ensures FirstUnknown(ms) == Some(ms[j].typ)
  {
    var t := TableAfter(ms[..j]);
    assert ms[j].typ !in DimNames by {
      forall i | 0 <= i < |DimNames|
        ensures DimNames[i] != ms[j].typ
      {
        assert t[i].typ == DimNames[i];
      }
    }
    AllKnownMeans(ms[..j]);
    assert forall l :: 0 <= l < j ==> ms[..j][l] == ms[l];
    FirstUnknownIsFirst(ms, j);
  }

  /** The table once every mapping has been applied. */
  function TableAfter(ms: seq<Mapping>): (t: seq<Entry>)
    ensures |t| == |DimNames|
    ensures forall i :: 0 <= i < |t| ==> t[i].typ == DimNames[i] && t[i].letter == DefaultLetters[i]
  {
    seq(|DimNames|, i requires 0 <= i < |DimNames| =>
      match LastFor(ms, DimNames[i])
      case Nothing => Entry(DimNames[i], Zero, NoneIdent, DefaultLetters[i])
      case Some(m) => Entry(DimNames[i], m.exp, m.unitLetter, DefaultLetters[i]))
  }

  function Idents(generics: seq<Generic>): (r: seq<string>)
    ensures |r| == |generics| && forall i :: 0 <= i < |r| ==> r[i] == generics[i].ident
  {
    seq(|generics|, i requires 0 <= i < |generics| => generics[i].ident)
  }

  /** The exponent column of a table, in key order. */
  function ExpsOf(t: seq<Entry>): (r: seq<Exponent>)
    ensures |r| == |t| && forall i :: 0 <= i < |t| ==> r[i] == t[i].exp
  {
    if |t| == 0 then [] else ExpsOf(t[..|t| - 1]) + [t[|t| - 1].exp]
  }

  /** The unit column of a table, in key order. */
  function UnitsOf(t: seq<Entry>): (r: seq<string>)
    ensures |r| == |t| && forall i :: 0 <= i < |t| ==> r[i] == t[i].unit
  {
    if |t| == 0 then [] else UnitsOf(t[..|t| - 1]) + [t[|t| - 1].unit]
  }

  /** The generic-letter column of a table, in key order. */
  function LettersOf(t: seq<Entry>): (r: seq<string>)
    ensures |r| == |t| && forall i :: 0 <= i < |t| ==> r[i] == t[i].letter
  {
    if |t| == 0 then [] else LettersOf(t[..|t| - 1]) + [t[|t| - 1].letter]
  }

  /** What the macro expands to, or the panic it stops with: it stops on
      an empty list, and otherwise on the first mapping whose dimension is
      not one of the ten; any list of known dimensions expands. */
  function ExpansionOf(name: string, generics: seq<Generic>, ms: seq<Mapping>): (r: Result<Expansion>)
    ensures r == Err(EmptyMappings) <==> |ms| == 0
    ensures r.Ok? <==> |ms| > 0 && forall k :: 0 <= k < |ms| ==> ms[k].typ in DimNames
    ensures r.Err? && r.error.UnknownDimension? ==> |ms| > 0 && r.error.name !in DimNames
  {
    if |ms| == 0 then Err(EmptyMappings)
    else match FirstUnknown(ms)
      case Some(typ) => Err(UnknownDimension(typ))
      case Nothing =>
        var t := TableAfter(ms);
        Ok(Expansion(Kind(name, Idents(generics), ExpsOf(t), UnitsOf(t)), LettersOf(t)))
  }

  /** The macro: the empty check, then the loop that applies the mappings
      to the table in order, then the loops that read the table out. */
  method ImplDerivedConversions(name: string, generics: seq<Generic>, ms: seq<Mapping>) returns (r: Result<Expansion>)
    ensures r == ExpansionOf(name, generics, ms)
  {
    if |ms| == 0 {
      return Err(EmptyMappings);
    }
    var applied := ApplyMappings(ms);
    if applied.Err? {
      return Err(applied.error);
    }
    var exps, units, letters := ReadOut(applied.value);
    r := Ok(Expansion(Kind(name, Idents(generics), exps, units), letters));
  }

  /** The loop over the mappings: each one's dimension is looked up in
      the table (an unknown one stops the macro) and its entry
      overwritten, keeping the entry's generic letter. */
  method ApplyMappings(ms: seq<Mapping>) returns (r: Result<seq<Entry>>)
    ensures FirstUnknown(ms).Some? ==> r == Err(UnknownDimension(FirstUnknown(ms).value))
    ensures FirstUnknown(ms).Nothing? ==> r == Ok(TableAfter(ms))
  {
    var table := InitialTable();
    var j := 0;
    while j < |ms|
      invariant 0 <= j <= |ms|
      invariant AllKnown(ms[..j])
      invariant table == TableAfter(ms[..j])
    {
      var m := ms[j];
      var slot := KeyIndex(table, m.typ);
      if slot.Nothing? {
        UnknownAfterKnown(ms, j);
        return Err(UnknownDimension(m.typ));
      }
      assert m.typ == DimNames[slot.value];
      var letter := table[slot.value].letter;
      table := table[slot.value := Entry(m.typ, m.exp, m.unitLetter, letter)];
      ApplyOne(ms, j, slot.value);
      assert ms[..j + 1][..j] == ms[..j];
      j := j + 1;
    }
    assert ms[..j] == ms;
    AllKnownMeans(ms);
    r := Ok(table);
  }

  /** The loops that read the final table out, key by key: the
      associated types of `to_derived` and the resolver's pattern. */
  method ReadOut(table: seq<Entry>) returns (exps: seq<Exponent>, units: seq<string>, letters: seq<string>)
    ensures exps == ExpsOf(table) && units == UnitsOf(table) && letters == LettersOf(table)
  {
    exps, units := [], [];
    var i := 0;
    while i < |table|
      invariant 0 <= i <= |table|
      invariant exps == ExpsOf(table[..i]) && units == UnitsOf(table[..i])
    {
      assert table[..i + 1][..i] == table[..i];
      exps := exps + [table[i].exp];
      units := units + [table[i].unit];
      i := i + 1;
    }
    assert table[..i] == table;
    letters := [];
    i := 0;
    while i < |table|
      invariant 0 <= i <= |table|
      invariant letters == LettersOf(table[..i])
    {
      assert table[..i + 1][..i] == table[..i];
      letters := letters + [table[i].letter];
      i := i + 1;
    }
    assert table[..i] == table;
  }

  /** Every mapping names one of the ten dimensions. */
  predicate AllKnown(ms: seq<Mapping>)
  {
    |ms| == 0 || (AllKnown(ms[..|ms| - 1]) && ms[|ms| - 1].typ in DimNames)
  }

  lemma {:induction false} AllKnownMeans(ms: seq<Mapping>)
    ensures AllKnown(ms) <==> forall k :: 0 <= k < |ms| ==> ms[k].typ in DimNames
  {
    if |ms| > 0 {
      var front := ms[..|ms| - 1];
      AllKnownMeans(front);
      assert forall k :: 0 <= k < |front| ==> front[k] == ms[k];
    }
  }

  /** Applying mapping `j` to the table for `ms[..j]` at its key's slot
      gives the table for `ms[..j + 1]`. */
  lemma ApplyOne(ms: seq<Mapping>, j: nat, s: nat)
    requires j < |ms| && s < |DimNames| && DimNames[s] == ms[j].typ
    ensures TableAfter(ms[..j])[s := Entry(ms[j].typ, ms[j].exp, ms[j].unitLetter, TableAfter(ms[..j])[s].letter)]
         == TableAfter(ms[..j + 1])
  {
    var front, next := ms[..j], ms[..j + 1];
    assert next[..j] == front;
    forall i | 0 <= i < |DimNames|
      ensures LastFor(next, DimNames[i]) == if i == s then Some(ms[j]) else LastFor(front, DimNames[i])
    {
    }
  }

  /** What a successful expansion says about every slot: the exponent and
      unit of the last mapping for that slot's dimension, `Zero` and `None`
      when no mapping names it, and always the slot's own generic letter. */
  lemma ExpansionSlots(name: string, generics: seq<Generic>, ms: seq<Mapping>)
    requires ExpansionOf(name, generics, ms).Ok?
    ensures var e := ExpansionOf(name, generics, ms).value;
      && e.kind.name == name && e.kind.params == Idents(generics)
      && e.patternLetters == DefaultLetters
      && |e.kind.exps| == |DimNames| && |e.kind.units| == |DimNames|
      && forall i :: 0 <= i < |DimNames| ==>
           (LastFor(ms, DimNames[i]).Nothing? ==> e.kind.exps[i] == Zero && e.kind.units[i] == NoneIdent)
           && (LastFor(ms, DimNames[i]).Some? ==>
                 e.kind.exps[i] == LastFor(ms, DimNames[i]).value.exp
                 && e.kind.units[i] == LastFor(ms, DimNames[i]).value.unitLetter)
  {
    var e := ExpansionOf(name, generics, ms).value;
    assert e.patternLetters == DefaultLetters;
  }

  /** No two mappings name the same dimension. */
  predicate DistinctDims(ms: seq<Mapping>)
  {
    forall i, j :: 0 <= i < j < |ms| ==> ms[i].typ != ms[j].typ
  }

  /** Mappings that name distinct dimensions can be given in any order:
      any reordering is accepted exactly when the original is, and then
      expands to the same kind and pattern.  (When some mapping names an
      unknown dimension, the panic names the first unknown one, which
      does depend on the order.) */
  lemma MappingOrderIrrelevant(name: string, generics: seq<Generic>, ms: seq<Mapping>, ns: seq<Mapping>)
    requires multiset(ms) == multiset(ns) && DistinctDims(ms)
    ensures ExpansionOf(name, generics, ms).Ok? <==> ExpansionOf(name, generics, ns).Ok?
    ensures ExpansionOf(name, generics, ms).Ok? ==> ExpansionOf(name, generics, ns) == ExpansionOf(name, generics, ms)
  {
    assert |ms| == |multiset(ms)| == |ns|;
    SameKnownDims(ms, ns);
    forall i | 0 <= i < |DimNames|
      ensures LastFor(ms, DimNames[i]) == LastFor(ns, DimNames[i])
    {
      LastForAgrees(ms, ns, DimNames[i]);
    }
    assert TableAfter(ms) == TableAfter(ns);
  }

  /** A reordering names the same dimensions. */
  lemma SameKnownDims(ms: seq<Mapping>, ns: seq<Mapping>)
    requires multiset(ms) == multiset(ns)
    ensures (forall k :: 0 <= k < |ms| ==> ms[k].typ in DimNames) <==> (forall k :: 0 <= k < |ns| ==> ns[k].typ in DimNames)
  {
    if forall k :: 0 <= k < |ms| ==> ms[k].typ in DimNames {
      forall k | 0 <= k < |ns|
        ensures ns[k].typ in DimNames
      {
        assert ns[k] in multiset(ms);
      }
    }
    if forall k :: 0 <= k < |ns| ==> ns[k].typ in DimNames {
      forall k | 0 <= k < |ms|
        ensures ms[k].typ in DimNames
      {
        assert ms[k] in multiset(ns);
      }
    }
  }

  /** Under a reordering of mappings with distinct dimensions, the mapping
      that wins for a dimension is the same one. */
  lemma LastForAgrees(ms: seq<Mapping>, ns: seq<Mapping>, typ: string)
    requires multiset(ms) == multiset(ns) && DistinctDims(ms)
    ensures LastFor(ms, typ) == LastFor(ns, typ)
  {
    LastForIsLast(ms, typ);
    LastForIsLast(ns, typ);
    if LastFor(ms, typ).Some? {
      var k :| 0 <= k < |ms| && ms[k] == LastFor(ms, typ).value && ms[k].typ == typ
        && forall l :: k < l < |ms| ==> ms[l].typ != typ;
      assert ms[k] in multiset(ns);
      var l :| 0 <= l < |ns| && ns[l] == ms[k];
      assert LastFor(ns, typ).Some?;
      var l2 :| 0 <= l2 < |ns| && ns[l2] == LastFor(ns, typ).value && ns[l2].typ == typ
        && forall l' :: l2 < l' < |ns| ==> ns[l'].typ != typ;
      assert ns[l2] in multiset(ms);
      var k2 :| 0 <= k2 < |ms| && ms[k2] == ns[l2];
      assert k2 == k;
    }
    if LastFor(ns, typ).Some? {
      var l :| 0 <= l < |ns| && ns[l] == LastFor(ns, typ).value && ns[l].typ == typ
        && forall l' :: l < l' < |ns| ==> ns[l'].typ != typ;
      assert ns[l] in multiset(ms);
      var k :| 0 <= k < |ms| && ms[k] == ns[l];
      assert LastFor(ms, typ).Some?;
    }
  }
}
