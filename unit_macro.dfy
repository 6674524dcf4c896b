/** `derive(Unit)` (phys_calc_macros/src/lib.rs): the checks it makes on the
    unit struct it is attached to, and what it reads from it.  Every
    generic must be a type parameter; then `multiplier`, `unit` and
    `unit_impl` are looked up, in that order, each by the first attribute
    of that name.  `multiplier` must be a list and any tokens are taken;
    `unit` must be a list holding exactly a string literal; `unit_impl`
    must be a list holding exactly a path.  The impls it then emits (the
    marker trait's `mult()` and `unit()`, `EqualsOrZero` with itself and
    with `None`, and the `*` and `/` forwarding) are modelled by the
    catalogs, `Units.EqualsOrZero` and `Combination.Apply`. */
module UnitMacro {
  import opened Wrappers
  import opened Sequences

  datatype GenericParam = TypeParam(ident: string) | LifetimeParam(name: string) | ConstParam(name: string)

  /** The tokens inside an attribute's parentheses, as far as the macro
      tells them apart. */
  datatype Tokens = StrLit(value: string) | PathTokens(segments: seq<string>) | OtherTokens(text: string)

  /** The three shapes of an attribute: `#[a]`, `#[a(...)]`, `#[a = ...]`. */
  datatype Meta = PathMeta | ListMeta(tokens: Tokens) | NameValueMeta(value: Tokens)

  datatype Attribute = Attribute(name: string, meta: Meta)

  /** What the macro reads from a well-formed unit struct. */
  datatype UnitImpl = UnitImpl(ident: string, params: seq<string>, multiplier: Tokens, symbol: string, markerTrait: seq<string>)

  /** `attrs.iter().find(|attr| attr.path().is_ident(name))`: the position
      of the first attribute called `name`. */
  function FindAttribute(attrs: seq<Attribute>, name: string): (r: Option<nat>)
    ensures r.Some? ==> r.value < |attrs| && attrs[r.value].name == name
    ensures r.Some? ==> forall j :: 0 <= j < r.value ==> attrs[j].name != name
    ensures r.Nothing? <==> forall j :: 0 <= j < |attrs| ==> attrs[j].name != name
  {
    FirstIndex(attrs, (a: Attribute) => a.name == name)
  }

  /** Tokens `syn` parses as a path. */
  predicate IsPath(t: Tokens)
  {
    t.PathTokens? && |t.segments| > 0
  }

  /** The identifiers of the generics, when all of them are type parameters. */
  function TypeParamIdents(generics: seq<GenericParam>): (r: Option<seq<string>>)
    ensures r.Some? <==> forall i :: 0 <= i < |generics| ==> generics[i].TypeParam?
    ensures r.Some? ==> |r.value| == |generics| && forall i :: 0 <= i < |generics| ==> r.value[i] == generics[i].ident
  {
    if |generics| == 0 then Some([])
    else if !generics[0].TypeParam? then Nothing
    else match TypeParamIdents(generics[1..])
      case Nothing => Nothing
      case Some(rest) => Some([generics[0].ident] + rest)
  }

  /** The expansion of `derive(Unit)`, or the panic it stops with. */
  function DeriveUnit(ident: string, generics: seq<GenericParam>, attrs: seq<Attribute>): (r: Result<UnitImpl>)
    ensures TypeParamIdents(generics).Nothing? ==> r == Err(NonTypeGeneric)
    ensures r.Err? ==>
      (r.error == NonTypeGeneric
       || ((r.error.MissingAttribute? || r.error.MalformedAttribute?) && r.error.name in ["multiplier", "unit", "unit_impl"]))
    ensures r.Ok? ==> r.value.ident == ident && r.value.params == TypeParamIdents(generics).value
  {
    match TypeParamIdents(generics)
    case Nothing => Err(NonTypeGeneric)
    case Some(params) =>
      match FindAttribute(attrs, "multiplier")
      case Nothing => Err(MissingAttribute("multiplier"))
      case Some(im) =>
        if !attrs[im].meta.ListMeta? then Err(MalformedAttribute("multiplier"))
        else match FindAttribute(attrs, "unit")
        case Nothing => Err(MissingAttribute("unit"))
        case Some(iu) =>
          if !attrs[iu].meta.ListMeta? || !attrs[iu].meta.tokens.StrLit? then Err(MalformedAttribute("unit"))
          else match FindAttribute(attrs, "unit_impl")
          case Nothing => Err(MissingAttribute("unit_impl"))
          case Some(it) =>
            if !attrs[it].meta.ListMeta? || !IsPath(attrs[it].meta.tokens) then Err(MalformedAttribute("unit_impl"))
            else Ok(UnitImpl(ident, params, attrs[im].meta.tokens, attrs[iu].meta.tokens.value, attrs[it].meta.tokens.segments))
  }

  /** Reference definition of an acceptable attribute list: among the
      attributes of each of the three names, the first has the required
      shape. */
  predicate FirstHasShape(attrs: seq<Attribute>, name: string, shape: Meta -> bool)
  {
    exists i :: 0 <= i < |attrs| && attrs[i].name == name && shape(attrs[i].meta)
      && forall j :: 0 <= j < i ==> attrs[j].name != name
  }

  predicate MultiplierShape(m: Meta) { m.ListMeta? }
  predicate UnitShape(m: Meta) { m.ListMeta? && m.tokens.StrLit? }
  predicate UnitImplShape(m: Meta) { m.ListMeta? && IsPath(m.tokens) }

  /** `derive(Unit)` succeeds exactly on a struct whose generics are all
      type parameters and whose first `multiplier`, `unit` and `unit_impl`
      attributes have the required shapes; it then reads the multiplier,
      the symbol and the marker trait from the first attribute of each
      name, and the parameters from the generics in order. */
  lemma DeriveUnitAccepts(ident: string, generics: seq<GenericParam>, attrs: seq<Attribute>)
    ensures DeriveUnit(ident, generics, attrs).Ok? <==>
      (forall i :: 0 <= i < |generics| ==> generics[i].TypeParam?)
      && FirstHasShape(attrs, "multiplier", MultiplierShape)
      && FirstHasShape(attrs, "unit", UnitShape)
      && FirstHasShape(attrs, "unit_impl", UnitImplShape)
    ensures DeriveUnit(ident, generics, attrs).Ok? ==>
      var u := DeriveUnit(ident, generics, attrs).value;
      && u.ident == ident && u.params == TypeParamIdents(generics).value
      && FindAttribute(attrs, "multiplier").Some?
      && FindAttribute(attrs, "unit").Some?
      && FindAttribute(attrs, "unit_impl").Some?
      && attrs[FindAttribute(attrs, "multiplier").value] == Attribute("multiplier", ListMeta(u.multiplier))
      && attrs[FindAttribute(attrs, "unit").value] == Attribute("unit", ListMeta(StrLit(u.symbol)))
      && attrs[FindAttribute(attrs, "unit_impl").value] == Attribute("unit_impl", ListMeta(PathTokens(u.markerTrait)))
  {
    FirstShapeFound(attrs, "multiplier", MultiplierShape);
    FirstShapeFound(attrs, "unit", UnitShape);
    FirstShapeFound(attrs, "unit_impl", UnitImplShape);
    var r := DeriveUnit(ident, generics, attrs);
    if r.Ok? {
      var i, j, k := FindAttribute(attrs, "multiplier").value, FindAttribute(attrs, "unit").value,
                     FindAttribute(attrs, "unit_impl").value;
      assert attrs[i] == Attribute("multiplier", ListMeta(r.value.multiplier));
      assert attrs[j] == Attribute("unit", ListMeta(StrLit(r.value.symbol)));
      assert attrs[k] == Attribute("unit_impl", ListMeta(PathTokens(r.value.markerTrait)));
    }
  }

  /** `FirstHasShape` is the shape test applied to what `FindAttribute`
      finds. */
  lemma FirstShapeFound(attrs: seq<Attribute>, name: string, shape: Meta -> bool)
    ensures FirstHasShape(attrs, name, shape) <==>
      FindAttribute(attrs, name).Some? && shape(attrs[FindAttribute(attrs, name).value].meta)
  {
    var f := FindAttribute(attrs, name);
    if FirstHasShape(attrs, name, shape) {
      var i :| 0 <= i < |attrs| && attrs[i].name == name && shape(attrs[i].meta)
        && forall j :: 0 <= j < i ==> attrs[j].name != name;
      assert f.value == i;
    }
    if f.Some? && shape(attrs[f.value].meta) {
      assert attrs[f.value].name == name;
    }
  }

  /** The checks run in the order multiplier, unit, unit_impl, and each
      one reports a missing attribute or a malformed first one.  First:
      once the generics pass, a `multiplier` that is missing, or whose
      first occurrence is not a list, is reported before anything else
      (a struct with none of the three attributes is reported as lacking
      `multiplier`). */
  lemma MultiplierCheckedFirst(ident: string, generics: seq<GenericParam>, attrs: seq<Attribute>)
    requires forall i :: 0 <= i < |generics| ==> generics[i].TypeParam?
    requires !FirstHasShape(attrs, "multiplier", MultiplierShape)
    ensures DeriveUnit(ident, generics, attrs) ==
      if forall i :: 0 <= i < |attrs| ==> attrs[i].name != "multiplier" then Err(MissingAttribute("multiplier"))
      else Err(MalformedAttribute("multiplier"))
  {
    FirstShapeFound(attrs, "multiplier", MultiplierShape);
  }

  /** Second: with a well-formed `multiplier`, a missing or malformed `unit`
      is reported before anything about `unit_impl`. */
  lemma UnitCheckedSecond(ident: string, generics: seq<GenericParam>, attrs: seq<Attribute>)
    requires forall i :: 0 <= i < |generics| ==> generics[i].TypeParam?
    requires FirstHasShape(attrs, "multiplier", MultiplierShape)
    requires !FirstHasShape(attrs, "unit", UnitShape)
    ensures DeriveUnit(ident, generics, attrs) ==
      if forall i :: 0 <= i < |attrs| ==> attrs[i].name != "unit" then Err(MissingAttribute("unit"))
      else Err(MalformedAttribute("unit"))
  {
    FirstShapeFound(attrs, "multiplier", MultiplierShape);
    FirstShapeFound(attrs, "unit", UnitShape);
  }

  /** Last: with well-formed `multiplier` and `unit`, a missing or malformed
      `unit_impl` is what is reported. */
  lemma UnitImplCheckedLast(ident: string, generics: seq<GenericParam>, attrs: seq<Attribute>)
    requires forall i :: 0 <= i < |generics| ==> generics[i].TypeParam?
    requires FirstHasShape(attrs, "multiplier", MultiplierShape)
    requires FirstHasShape(attrs, "unit", UnitShape)
    requires !FirstHasShape(attrs, "unit_impl", UnitImplShape)
    ensures DeriveUnit(ident, generics, attrs) ==
      if forall i :: 0 <= i < |attrs| ==> attrs[i].name != "unit_impl" then Err(MissingAttribute("unit_impl"))
      else Err(MalformedAttribute("unit_impl"))
  {
    FirstShapeFound(attrs, "multiplier", MultiplierShape);
    FirstShapeFound(attrs, "unit", UnitShape);
    FirstShapeFound(attrs, "unit_impl", UnitImplShape);
  }

  /** Attributes after the first of each name are never read: appending
      attributes to an accepted struct changes nothing. */
  lemma LaterAttributesIgnored(ident: string, generics: seq<GenericParam>, attrs: seq<Attribute>, more: seq<Attribute>)
    requires DeriveUnit(ident, generics, attrs).Ok?
    ensures DeriveUnit(ident, generics, attrs + more) == DeriveUnit(ident, generics, attrs)
  {
    FindInPrefix(attrs, more, "multiplier");
    FindInPrefix(attrs, more, "unit");
    FindInPrefix(attrs, more, "unit_impl");
    var im, iu, it := FindAttribute(attrs, "multiplier").value, FindAttribute(attrs, "unit").value,
                      FindAttribute(attrs, "unit_impl").value;
    assert (attrs + more)[im] == attrs[im] && (attrs + more)[iu] == attrs[iu] && (attrs + more)[it] == attrs[it];
    var params := TypeParamIdents(generics).value;
    assert DeriveUnit(ident, generics, attrs) ==
      Ok(UnitImpl(ident, params, attrs[im].meta.tokens, attrs[iu].meta.tokens.value, attrs[it].meta.tokens.segments));
  }

  lemma FindInPrefix(attrs: seq<Attribute>, more: seq<Attribute>, name: string)
    requires FindAttribute(attrs, name).Some?
    ensures FindAttribute(attrs + more, name) == FindAttribute(attrs, name)
  {
    var i := FindAttribute(attrs, name).value;
    var r := FindAttribute(attrs + more, name);
    assert (attrs + more)[i] == attrs[i];
    assert r.Some? && r.value <= i;
    assert forall j :: 0 <= j < i ==> (attrs + more)[j] == attrs[j];
  }
}
