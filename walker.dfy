/** `get_field_info`: the walk over a model and the models its fields refer to,
    filling a registry from model name to field descriptors. */
module Walker {
  import opened Python
  import opened JsonConfig
  import opened Models

  /** `ModelFieldInfo`: one table row, already formatted. */
  datatype FieldInfo = FieldInfo(name: string, typ: string, required: string, default: string)

  /** The `models` dict as a value: its keys in insertion order, and each key's list. */
  datatype RegistryValue = RegistryValue(order: seq<string>, entries: map<string, seq<FieldInfo>>)

  const EmptyRegistry := RegistryValue([], map[])

  /** The order lists every key exactly once, as a Python dict's iteration does. */
  ghost predicate OrderOk(r: RegistryValue) {
    && (forall i, j :: 0 <= i < j < |r.order| ==> r.order[i] != r.order[j])
    && (forall k :: k in r.entries <==> k in r.order)
  }

  /** `models[name] = fields` with a fresh empty list: a new key goes last, an
      existing key keeps its place. */
  function Register(r: RegistryValue, name: string): RegistryValue {
    RegistryValue(if name in r.entries then r.order else r.order + [name], r.entries[name := []])
  }

  /** The field is skipped by the exclusion rules. */
  predicate Skipped(config: Json, model: string, field: string) {
    Excluded(config, model, field) == Ok(true)
  }

  /** The descriptor built for a field that is not skipped, once its default printed as `default`. */
  function Describe(f: Field, default: string): FieldInfo {
    var annotation := AnnotationString(f.annotation);
    FieldInfo(
      HighlightName(f.name),
      if IsPydanticModel(AnnotationValue(f.annotation)) then SubmodelLink(annotation) else annotation,
      BoolString(f.required),
      default)
  }

  /** The names of the models a walk of `m` registers: `m` and, for each field
      that is not skipped and whose annotation is a model, that model's names. */
  function Names(m: Model, config: Json): set<string>
    decreases m, 1
  {
    {m.name} + NamesUpTo(m, config, |m.fields|)
  }

  /** The names registered by the walks started from the first `n` fields of `m`. */
  function NamesUpTo(m: Model, config: Json, n: nat): set<string>
    requires n <= |m.fields|
    decreases m, 0, n
  {
    if n == 0 then {}
    else NamesUpTo(m, config, n - 1) + FieldNames(m, config, n - 1)
  }

  function FieldNames(m: Model, config: Json, i: nat): set<string>
    requires i < |m.fields|
    decreases m, 0, 0
  {
    var f := m.fields[i];
    if !Skipped(config, m.name, f.name) && f.annotation.ModelAnnotation? then
      assert f.annotation.model < f;
      Names(f.annotation.model, config)
    else {}
  }

  /** `get_field_info(m, config, models)` on the registry value `r`: register `m`, then
      walk its fields. */
  function Walk(m: Model, config: Json, r: RegistryValue, pr: Printer): Result<RegistryValue>
    decreases m, 1
  {
    WalkFields(m, config, 0, WalkState(Register(r, m.name), [], true), pr)
  }

  /** The state of one walk's loop: the registry, the walk's own list so far, and
      whether `models[m.name]` is still that list, which stops being so once a nested
      walk registers a model of the same name. */
  datatype WalkState = WalkState(registry: RegistryValue, acc: seq<FieldInfo>, owned: bool)

  /** The loop of `get_field_info` from field `i` on. */
  function WalkFields(m: Model, config: Json, i: nat, s: WalkState, pr: Printer): Result<RegistryValue>
    requires i <= |m.fields|
    decreases m, 0, |m.fields| - i
  {
    if i == |m.fields| then Ok(s.registry)
    else
      match FieldStep(m, config, i, s, pr)
      case Err(e) => Err(e)
      case Ok(s') => WalkFields(m, config, i + 1, s', pr)
  }

  /** One pass of the loop body, on field `i`: the exclusion test, the default (which
      can raise before the nested walk starts), the nested walk for a model annotation,
      and the append. */
  function FieldStep(m: Model, config: Json, i: nat, s: WalkState, pr: Printer): Result<WalkState>
    requires i < |m.fields|
    decreases m, 0, 0
  {
    var f := m.fields[i];
    match Excluded(config, m.name, f.name)
    case Err(e) => Err(e)
    case Ok(true) => Ok(s)
    case Ok(false) =>
      match DefaultString(f.default, pr)
      case Err(e) => Err(e)
      case Ok(default) =>
        var acc' := s.acc + [Describe(f, default)];
        if IsPydanticModel(AnnotationValue(f.annotation)) then
          assert f.annotation.model < f;
          match Walk(f.annotation.model, config, s.registry, pr)
          case Err(e) => Err(e)
          case Ok(r1) =>
            var owned' := s.owned && m.name !in Names(f.annotation.model, config);
            Ok(WalkState(Appended(r1, m.name, acc', owned'), acc', owned'))
        else
          Ok(WalkState(Appended(s.registry, m.name, acc', s.owned), acc', s.owned))
  }

  /** `fields.append(...)`, seen through the registry: visible only while the entry is the walk's own list. */
  function Appended(r: RegistryValue, name: string, items: seq<FieldInfo>, owned: bool): RegistryValue {
    if owned then r.(entries := r.entries[name := items]) else r
  }

  /** One more field of the loop adds its names to those registered so far. */
  lemma NamesUpToNext(m: Model, config: Json, i: nat)
    requires i < |m.fields|
    ensures NamesUpTo(m, config, i + 1) == NamesUpTo(m, config, i) + FieldNames(m, config, i)
  {
  }

  /** The rest of the walk from field `i` is one `FieldStep` followed by the rest from `i + 1`. */
  lemma WalkFieldsNext(m: Model, config: Json, i: nat, s: WalkState, pr: Printer)
    requires i < |m.fields|
    ensures FieldStep(m, config, i, s, pr).Err? ==> WalkFields(m, config, i, s, pr) == Err(FieldStep(m, config, i, s, pr).error)
    ensures FieldStep(m, config, i, s, pr).Ok? ==> WalkFields(m, config, i, s, pr) == WalkFields(m, config, i + 1, FieldStep(m, config, i, s, pr).value, pr)
  {
  }
}

module WalkerProperties {
  import opened Python
  import opened JsonConfig
  import opened Models
  import opened Walker

  /** What a field contributes to its model's own entry: nothing when skipped,
      else its descriptor. Over a list of fields, in declaration order. A field whose
      default does not print contributes nothing either, but no walk that returns has
      one: it raises first (`WalkPrints`). */
  function ExpectedEntry(config: Json, model: string, fs: seq<Field>, pr: Printer): seq<FieldInfo> {
    if fs == [] then []
    else
      var d := DefaultString(fs[0].default, pr);
      (if Skipped(config, model, fs[0].name) || d.Err? then [] else [Describe(fs[0], d.value)])
      + ExpectedEntry(config, model, fs[1..], pr)
  }

  lemma {:induction false} FieldNamesWithin(m: Model, config: Json, i: nat, n: nat)
    requires i < n <= |m.fields|
    ensures FieldNames(m, config, i) <= NamesUpTo(m, config, n)
    decreases n
  {
    if i < n - 1 {
      FieldNamesWithin(m, config, i, n - 1);
    }
  }

  /** A walk registers exactly `Names(m, config)`, leaves every other entry as it was,
      only appends to the key order, and keeps that order a faithful list of the keys;
      a model that was not yet a key is appended at the first free position. */
  lemma {:induction false} WalkKeys(m: Model, config: Json, r: RegistryValue, pr: Printer)
    requires Walk(m, config, r, pr).Ok?
    ensures var r' := Walk(m, config, r, pr).value;
      && r'.entries.Keys == r.entries.Keys + Names(m, config)
      && (forall k :: k in r.entries && k !in Names(m, config) ==> r'.entries[k] == r.entries[k])
      && r.order <= r'.order
      && (OrderOk(r) ==> OrderOk(r'))
      && (m.name !in r.entries ==> |r.order| < |r'.order| && r'.order[|r.order|] == m.name)
    decreases m, 1
  {
    var r0 := Register(r, m.name);
    var out := Walk(m, config, r, pr).value;
    RegisterKeys(r, m.name);
    assert KeysGrow(m, config, r0, out, NamesUpTo(m, config, |m.fields|)) by {
      WalkFieldsKeys(m, config, 0, WalkState(r0, [], true), pr, out);
    }
    assert r0.order <= out.order;
  }

  /** Registering a name adds it as a key, touches no other key and only appends to the order. */
  lemma RegisterKeys(r: RegistryValue, name: string)
    ensures var r0 := Register(r, name);
      && r0.entries.Keys == r.entries.Keys + {name}
      && (forall k :: k in r.entries && k != name ==> r0.entries[k] == r.entries[k])
      && r.order <= r0.order
      && (OrderOk(r) ==> OrderOk(r0))
      && (name !in r.entries ==> |r.order| < |r0.order| && r0.order[|r.order|] == name)
  {
  }

  /** The registry facts a walk of field `i`'s model adds, one loop pass at a time. */
  ghost predicate KeysGrow(m: Model, config: Json, r: RegistryValue, r': RegistryValue, names: set<string>) {
    && r'.entries.Keys == r.entries.Keys + names
    && (forall k :: k in r.entries && k != m.name && k !in names ==> r'.entries[k] == r.entries[k])
    && r.order <= r'.order
    && (OrderOk(r) ==> OrderOk(r'))
  }

  /** An append touches only its own key. */
  lemma AppendedKeeps(r: RegistryValue, name: string, items: seq<FieldInfo>, owned: bool)
    requires name in r.entries
    ensures var r' := Appended(r, name, items, owned);
      && r'.entries.Keys == r.entries.Keys && r'.order == r.order
      && (forall k :: k in r.entries && k != name ==> r'.entries[k] == r.entries[k])
      && (OrderOk(r) ==> OrderOk(r'))
  {
  }

  lemma {:induction false} FieldStepKeys(m: Model, config: Json, i: nat, s: WalkState, pr: Printer)
    requires i < |m.fields|
    requires FieldStep(m, config, i, s, pr).Ok?
    requires m.name in s.registry.entries
    ensures KeysGrow(m, config, s.registry, FieldStep(m, config, i, s, pr).value.registry, FieldNames(m, config, i))
    decreases m, 0, 0
  {
    var f := m.fields[i];
    var s' := FieldStep(m, config, i, s, pr).value;
    AnnotationIsModel(f.annotation);
    if Excluded(config, m.name, f.name) == Ok(true) {
      assert s' == s;
      assert FieldNames(m, config, i) == {};
    } else {
      assert Excluded(config, m.name, f.name) == Ok(false);
      var acc' := s.acc + [Describe(f, DefaultString(f.default, pr).value)];
      if IsPydanticModel(AnnotationValue(f.annotation)) {
        var sub := f.annotation.model;
        assert sub < f;
        WalkKeys(sub, config, s.registry, pr);
        var r1 := Walk(sub, config, s.registry, pr).value;
        var owned' := s.owned && m.name !in Names(sub, config);
        assert s'.registry == Appended(r1, m.name, acc', owned');
        assert FieldNames(m, config, i) == Names(sub, config);
        AppendedKeeps(r1, m.name, acc', owned');
      } else {
        assert s'.registry == Appended(s.registry, m.name, acc', s.owned);
        assert FieldNames(m, config, i) == {};
        AppendedKeeps(s.registry, m.name, acc', s.owned);
      }
    }
  }

  lemma {:induction false} WalkFieldsKeys(m: Model, config: Json, i: nat, s: WalkState, pr: Printer, out: RegistryValue)
    requires i <= |m.fields|
    requires WalkFields(m, config, i, s, pr) == Ok(out)
    requires m.name in s.registry.entries
    requires NamesUpTo(m, config, i) <= s.registry.entries.Keys
    ensures KeysGrow(m, config, s.registry, out, NamesUpTo(m, config, |m.fields|))
    decreases m, 0, |m.fields| - i
  {
    if i < |m.fields| {
      var s' := FieldStep(m, config, i, s, pr).value;
      var j := i + 1;
      assert WalkFields(m, config, j, s', pr) == Ok(out)
          && KeysGrow(m, config, s.registry, s'.registry, FieldNames(m, config, i))
          && FieldNames(m, config, i) <= NamesUpTo(m, config, |m.fields|) by {
        WalkFieldsNext(m, config, i, s, pr);
        FieldStepKeys(m, config, i, s, pr);
        FieldNamesWithin(m, config, i, |m.fields|);
      }
      assert NamesUpTo(m, config, j) <= s'.registry.entries.Keys by {
        NamesUpToNext(m, config, i);
      }
      WalkFieldsKeys(m, config, j, s', pr, out);
      KeysGrowTrans(m, config, s.registry, s'.registry, out, FieldNames(m, config, i), NamesUpTo(m, config, |m.fields|));
    } else {
      assert out == s.registry;
    }
  }

  lemma KeysGrowTrans(m: Model, config: Json, a: RegistryValue, b: RegistryValue, c: RegistryValue, n1: set<string>, n2: set<string>)
    requires KeysGrow(m, config, a, b, n1) && KeysGrow(m, config, b, c, n2) && n1 <= n2
    ensures KeysGrow(m, config, a, c, n2)
  {
  }

  /** `get_field_info(m, config)` puts the root model's name first. */
  lemma WalkFromEmpty(m: Model, config: Json, pr: Printer)
    requires Walk(m, config, EmptyRegistry, pr).Ok?
    ensures var r := Walk(m, config, EmptyRegistry, pr).value;
      && r.order != [] && r.order[0] == m.name
      && OrderOk(r)
      && r.entries.Keys == Names(m, config)
  {
    WalkKeys(m, config, EmptyRegistry, pr);
  }

  /** Unless a nested model shares its name, the root's entry lists, in declaration order,
      the descriptors of exactly the fields the exclusion rules do not skip. */
  lemma {:induction false} WalkOwnEntry(m: Model, config: Json, r: RegistryValue, pr: Printer)
    requires Walk(m, config, r, pr).Ok?
    requires m.name !in NamesUpTo(m, config, |m.fields|)
    ensures m.name in Walk(m, config, r, pr).value.entries
    ensures Walk(m, config, r, pr).value.entries[m.name] == ExpectedEntry(config, m.name, m.fields, pr)
  {
    WalkFieldsOwnEntry(m, config, 0, WalkState(Register(r, m.name), [], true), pr, Walk(m, config, r, pr).value);
    assert m.fields[0..] == m.fields;
  }

  /** A loop pass keeps the walk owning its entry and extends the entry as `ExpectedEntry` does. */
  lemma {:induction false} FieldStepOwnEntry(m: Model, config: Json, i: nat, s: WalkState, pr: Printer)
    requires i < |m.fields|
    requires FieldStep(m, config, i, s, pr).Ok?
    requires s.owned && m.name in s.registry.entries && s.registry.entries[m.name] == s.acc
    requires m.name !in FieldNames(m, config, i)
    ensures var s' := FieldStep(m, config, i, s, pr).value;
      && s'.owned && m.name in s'.registry.entries && s'.registry.entries[m.name] == s'.acc
      && s'.acc == s.acc + ExpectedEntry(config, m.name, [m.fields[i]], pr)
  {
    var f := m.fields[i];
    assert [f][1..] == [];
    if Excluded(config, m.name, f.name) == Ok(false) && IsPydanticModel(AnnotationValue(f.annotation)) {
      var sub := f.annotation.model;
      assert sub < f;
      WalkKeys(sub, config, s.registry, pr);
    }
  }

  lemma {:induction false} WalkFieldsOwnEntry(m: Model, config: Json, i: nat, s: WalkState, pr: Printer, r: RegistryValue)
    requires i <= |m.fields|
    requires WalkFields(m, config, i, s, pr) == Ok(r)
    requires s.owned && m.name in s.registry.entries && s.registry.entries[m.name] == s.acc
    requires m.name !in NamesUpTo(m, config, |m.fields|)
    ensures m.name in r.entries
    ensures r.entries[m.name] == s.acc + ExpectedEntry(config, m.name, m.fields[i..], pr)
    decreases |m.fields| - i
  {
    if i == |m.fields| {
      assert m.fields[i..] == [];
    } else {
      var s' := FieldStep(m, config, i, s, pr).value;
      var j := i + 1;
      assert WalkFields(m, config, j, s', pr) == Ok(r) && s'.owned && m.name in s'.registry.entries
          && s'.registry.entries[m.name] == s'.acc
          && s'.acc == s.acc + ExpectedEntry(config, m.name, [m.fields[i]], pr) by {
        WalkFieldsNext(m, config, i, s, pr);
        FieldNamesWithin(m, config, i, |m.fields|);
        FieldStepOwnEntry(m, config, i, s, pr);
      }
      WalkFieldsOwnEntry(m, config, j, s', pr, r);
      var head := ExpectedEntry(config, m.name, [m.fields[i]], pr);
      var rest := ExpectedEntry(config, m.name, m.fields[j..], pr);
      assert ExpectedEntry(config, m.name, m.fields[i..], pr) == head + rest by {
        ExpectedEntryFrom(config, m.name, m.fields, i, pr);
      }
      ConcatAssoc(s.acc, head, rest);
    }
  }

  lemma ConcatAssoc<T>(a: seq<T>, b: seq<T>, c: seq<T>)
    ensures (a + b) + c == a + (b + c)
  {
  }

  /** The suffix from `i` is field `i`'s part followed by the suffix from `i + 1`. */
  lemma ExpectedEntryFrom(config: Json, model: string, fs: seq<Field>, i: nat, pr: Printer)
    requires i < |fs|
    ensures ExpectedEntry(config, model, fs[i..], pr)
         == ExpectedEntry(config, model, [fs[i]], pr) + ExpectedEntry(config, model, fs[i + 1..], pr)
  {
    assert fs[i..] == [fs[i]] + fs[i + 1..];
    ExpectedEntryAppend(config, model, [fs[i]], fs[i + 1..], pr);
  }

  lemma {:induction false} ExpectedEntryAppend(config: Json, model: string, a: seq<Field>, b: seq<Field>, pr: Printer)
    ensures ExpectedEntry(config, model, a + b, pr) == ExpectedEntry(config, model, a, pr) + ExpectedEntry(config, model, b, pr)
  {
    if a == [] {
      assert a + b == b;
    } else {
      assert (a + b)[1..] == a[1..] + b;
      ExpectedEntryAppend(config, model, a[1..], b, pr);
    }
  }

  /** `byName` maps the name of every model a walk of `m` reaches to that model, so
      within the graph a name determines its model (a model reached along two paths,
      as in a diamond, is the same model both times). */
  predicate Catalogued(m: Model, config: Json, byName: map<string, Model>)
    decreases m, 1
  {
    m.name in byName && byName[m.name] == m && CataloguedFrom(m, config, byName, 0)
  }

  predicate CataloguedFrom(m: Model, config: Json, byName: map<string, Model>, i: nat)
    requires i <= |m.fields|
    decreases m, 0, |m.fields| - i
  {
    i == |m.fields| || (FieldCatalogued(m, config, byName, i) && CataloguedFrom(m, config, byName, i + 1))
  }

  predicate FieldCatalogued(m: Model, config: Json, byName: map<string, Model>, i: nat)
    requires i < |m.fields|
    decreases m, 0, 0
  {
    var f := m.fields[i];
    || Skipped(config, m.name, f.name)
    || !f.annotation.ModelAnnotation?
    || (assert f.annotation.model < f; Catalogued(f.annotation.model, config, byName))
  }

  /** Every name in `names` holds the descriptors of its model's fields as declared. */
  ghost predicate EntriesAsDeclared(config: Json, names: set<string>, byName: map<string, Model>, r: RegistryValue, pr: Printer) {
    forall k :: k in names ==> k in byName && k in r.entries && r.entries[k] == ExpectedEntry(config, k, byName[k].fields, pr)
  }

  /** Every name in `names` belongs to a model nested strictly inside `m`. */
  ghost predicate NestedIn(names: set<string>, byName: map<string, Model>, m: Model) {
    forall k :: k in names ==> k in byName && byName[k] < m
  }

  /** When names determine models, a walk leaves every model it reaches, the nested ones
      included, holding the descriptors of that model's fields that are not skipped, in
      declaration order; a model walked twice is re-registered and filled the same way. */
  lemma {:induction false} WalkEntries(m: Model, config: Json, r: RegistryValue, pr: Printer, byName: map<string, Model>, out: RegistryValue)
    requires Catalogued(m, config, byName)
    requires Walk(m, config, r, pr) == Ok(out)
    ensures EntriesAsDeclared(config, Names(m, config), byName, out, pr)
    ensures NestedIn(NamesUpTo(m, config, |m.fields|), byName, m)
    decreases m, 2
  {
    var s0 := WalkState(Register(r, m.name), [], true);
    assert NamesUpTo(m, config, 0) == {};
    WalkFieldsEntries(m, config, 0, s0, pr, byName, out);
    assert m.name !in NamesUpTo(m, config, |m.fields|);
    WalkOwnEntry(m, config, r, pr);
  }

  lemma {:induction false} WalkFieldsEntries(m: Model, config: Json, i: nat, s: WalkState, pr: Printer, byName: map<string, Model>, out: RegistryValue)
    requires i <= |m.fields| && WalkFields(m, config, i, s, pr) == Ok(out)
    requires m.name in byName && byName[m.name] == m && CataloguedFrom(m, config, byName, i)
    requires m.name in s.registry.entries
    requires NestedIn(NamesUpTo(m, config, i), byName, m)
    requires EntriesAsDeclared(config, NamesUpTo(m, config, i), byName, s.registry, pr)
    ensures NestedIn(NamesUpTo(m, config, |m.fields|), byName, m)
    ensures EntriesAsDeclared(config, NamesUpTo(m, config, |m.fields|), byName, out, pr)
    decreases m, 1, |m.fields| - i
  {
    if i == |m.fields| {
      assert out == s.registry;
    } else {
      var s' := FieldStep(m, config, i, s, pr).value;
      var j := i + 1;
      assert WalkFields(m, config, j, s', pr) == Ok(out) && m.name in s'.registry.entries
          && NestedIn(NamesUpTo(m, config, j), byName, m)
          && EntriesAsDeclared(config, NamesUpTo(m, config, j), byName, s'.registry, pr) by {
        WalkFieldsNext(m, config, i, s, pr);
        FieldStepEntries(m, config, i, s, pr, byName);
      }
      WalkFieldsEntries(m, config, j, s', pr, byName, out);
    }
  }

  lemma {:induction false} FieldStepEntries(m: Model, config: Json, i: nat, s: WalkState, pr: Printer, byName: map<string, Model>)
    requires i < |m.fields| && FieldStep(m, config, i, s, pr).Ok?
    requires m.name in byName && byName[m.name] == m && FieldCatalogued(m, config, byName, i)
    requires m.name in s.registry.entries
    requires NestedIn(NamesUpTo(m, config, i), byName, m)
    requires EntriesAsDeclared(config, NamesUpTo(m, config, i), byName, s.registry, pr)
    ensures var r' := FieldStep(m, config, i, s, pr).value.registry;
      && m.name in r'.entries
      && NestedIn(NamesUpTo(m, config, i + 1), byName, m)
      && EntriesAsDeclared(config, NamesUpTo(m, config, i + 1), byName, r', pr)
    decreases m, 0, 1
  {
    NamesUpToNext(m, config, i);
    var f := m.fields[i];
    var before := NamesUpTo(m, config, i);
    var r' := FieldStep(m, config, i, s, pr).value.registry;
    AnnotationIsModel(f.annotation);
    if Excluded(config, m.name, f.name) == Ok(false) && f.annotation.ModelAnnotation? {
      var sub := f.annotation.model;
      assert sub < f && f < m;
      var r1 := Walk(sub, config, s.registry, pr).value;
      var acc' := s.acc + [Describe(f, DefaultString(f.default, pr).value)];
      var owned' := s.owned && m.name !in Names(sub, config);
      assert r' == Appended(r1, m.name, acc', owned');
      assert FieldNames(m, config, i) == Names(sub, config);
      NestedWalkEntries(m, sub, config, s.registry, pr, byName, r1, before);
      AppendKeepsEntries(config, before + Names(sub, config), byName, r1, m.name, acc', owned', pr);
    } else {
      assert FieldNames(m, config, i) == {};
      if r' != s.registry {
        var acc' := s.acc + [Describe(f, DefaultString(f.default, pr).value)];
        assert r' == Appended(s.registry, m.name, acc', s.owned);
        AppendKeepsEntries(config, before, byName, s.registry, m.name, acc', s.owned, pr);
      }
    }
  }

  /** The nested walk of a field's model `sub` fills the entries of the names it reaches
      and leaves those already filled, none of which is `m`'s, as they were. */
  lemma {:induction false} NestedWalkEntries(m: Model, sub: Model, config: Json, r: RegistryValue, pr: Printer, byName: map<string, Model>, r1: RegistryValue, names: set<string>)
    requires sub < m && Catalogued(sub, config, byName) && Walk(sub, config, r, pr) == Ok(r1)
    requires m.name in byName && byName[m.name] == m && m.name in r.entries
    requires NestedIn(names, byName, m) && EntriesAsDeclared(config, names, byName, r, pr)
    ensures m.name in r1.entries && m.name !in names + Names(sub, config)
    ensures NestedIn(names + Names(sub, config), byName, m)
    ensures EntriesAsDeclared(config, names + Names(sub, config), byName, r1, pr)
    decreases m, 0, 0
  {
    WalkEntries(sub, config, r, pr, byName, r1);
    WalkKeys(sub, config, r, pr);
    assert NestedIn(Names(sub, config), byName, m);
  }

  /** Appending to a list no name in `names` holds keeps their entries. */
  lemma AppendKeepsEntries(config: Json, names: set<string>, byName: map<string, Model>, r: RegistryValue, name: string, items: seq<FieldInfo>, owned: bool, pr: Printer)
    requires name in r.entries && name !in names
    requires EntriesAsDeclared(config, names, byName, r, pr)
    ensures name in Appended(r, name, items, owned).entries
    ensures EntriesAsDeclared(config, names, byName, Appended(r, name, items, owned), pr)
  {
  }

  /** A field whose annotation is a model `T` is shown as a link `[T](#t)`,
      and `T` becomes a key of the registry. */
  lemma SubmodelRegistered(m: Model, config: Json, r: RegistryValue, pr: Printer, i: nat)
    requires Walk(m, config, r, pr).Ok?
    requires i < |m.fields| && m.fields[i].annotation.ModelAnnotation?
    requires !Skipped(config, m.name, m.fields[i].name)
    ensures m.fields[i].annotation.model.name in Walk(m, config, r, pr).value.entries
    ensures DefaultString(m.fields[i].default, pr).Ok?
    ensures Describe(m.fields[i], DefaultString(m.fields[i].default, pr).value).typ == SubmodelLink(m.fields[i].annotation.model.name)
  {
    WalkKeys(m, config, r, pr);
    FieldNamesWithin(m, config, i, |m.fields|);
    WalkPrints(m, config, r, pr);
    assert FieldDefaultsPrint(m, config, i);
  }

  /** Every field of `m` that is not skipped has a default that prints, and so does
      every field of the models such fields refer to. */
  predicate DefaultsPrint(m: Model, config: Json)
    decreases m, 1
  {
    DefaultsPrintFrom(m, config, 0)
  }

  /** The same, for the fields of `m` from `i` on. */
  predicate DefaultsPrintFrom(m: Model, config: Json, i: nat)
    requires i <= |m.fields|
    decreases m, 0, |m.fields| - i
  {
    i == |m.fields| || (FieldDefaultsPrint(m, config, i) && DefaultsPrintFrom(m, config, i + 1))
  }

  predicate FieldDefaultsPrint(m: Model, config: Json, i: nat)
    requires i < |m.fields|
    decreases m, 0, 0
  {
    var f := m.fields[i];
    || Skipped(config, m.name, f.name)
    || (&& !IsPydanticModel(f.default)
        && (f.annotation.ModelAnnotation? ==> (assert f.annotation.model < f; DefaultsPrint(f.annotation.model, config))))
  }

  /** A walk that returns has printed the default of every field it reached. */
  lemma {:induction false} WalkPrints(m: Model, config: Json, r: RegistryValue, pr: Printer)
    requires Walk(m, config, r, pr).Ok?
    ensures DefaultsPrint(m, config)
    ensures forall j :: 0 <= j < |m.fields| ==> FieldDefaultsPrint(m, config, j)
    decreases m, 1
  {
    WalkFieldsPrints(m, config, 0, WalkState(Register(r, m.name), [], true), pr);
  }

  lemma {:induction false} WalkFieldsPrints(m: Model, config: Json, i: nat, s: WalkState, pr: Printer)
    requires i <= |m.fields| && WalkFields(m, config, i, s, pr).Ok?
    ensures DefaultsPrintFrom(m, config, i)
    ensures forall j :: i <= j < |m.fields| ==> FieldDefaultsPrint(m, config, j)
    decreases m, 0, |m.fields| - i
  {
    if i < |m.fields| {
      var f := m.fields[i];
      WalkFieldsNext(m, config, i, s, pr);
      AnnotationIsModel(f.annotation);
      if Excluded(config, m.name, f.name) == Ok(false) && f.annotation.ModelAnnotation? {
        var sub := f.annotation.model;
        assert sub < f;
        WalkPrints(sub, config, s.registry, pr);
      }
      WalkFieldsPrints(m, config, i + 1, FieldStep(m, config, i, s, pr).value, pr);
    }
  }

  /** On a well-shaped configuration the walk raises exactly when it reaches a field
      whose default does not print. */
  lemma {:induction false} WalkTotal(m: Model, config: Json, r: RegistryValue, pr: Printer)
    requires WellShaped(config)
    ensures Walk(m, config, r, pr).Ok? <==> DefaultsPrint(m, config)
    decreases m, 1
  {
    WalkFieldsTotal(m, config, 0, WalkState(Register(r, m.name), [], true), pr);
  }

  lemma {:induction false} WalkFieldsTotal(m: Model, config: Json, i: nat, s: WalkState, pr: Printer)
    requires WellShaped(config) && i <= |m.fields|
    ensures WalkFields(m, config, i, s, pr).Ok? <==> DefaultsPrintFrom(m, config, i)
    decreases m, 0, |m.fields| - i
  {
    if i < |m.fields| {
      var f := m.fields[i];
      WalkFieldsNext(m, config, i, s, pr);
      ExcludedRaises(config, m.name, f.name);
      AnnotationIsModel(f.annotation);
      if Excluded(config, m.name, f.name) == Ok(false) && !IsPydanticModel(f.default) && f.annotation.ModelAnnotation? {
        var sub := f.annotation.model;
        assert sub < f;
        WalkTotal(sub, config, s.registry, pr);
      }
      if FieldStep(m, config, i, s, pr).Ok? {
        WalkFieldsTotal(m, config, i + 1, FieldStep(m, config, i, s, pr).value, pr);
      }
    }
  }

  /** A configuration that is not a JSON object makes the walk raise AttributeError
      at the first field; a model without fields never looks at it. */
  lemma WalkNeedsObjectConfig(m: Model, config: Json, r: RegistryValue, pr: Printer)
    requires !config.Object?
    ensures |m.fields| > 0 ==> Walk(m, config, r, pr) == Err(AttributeError)
    ensures |m.fields| == 0 ==> Walk(m, config, r, pr) == Ok(Register(r, m.name))
  {
    var s := WalkState(Register(r, m.name), [], true);
    if |m.fields| > 0 {
      assert FieldStep(m, config, 0, s, pr) == Err(AttributeError);
    }
  }
}
