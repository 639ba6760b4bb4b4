/** `render_table`: resolve the directive's path, walk the model, and lay out one
    section per registered model, in registration order. `tabulate` is a parameter. */
module Render {
  import opened Python
  import opened Text
  import opened JsonConfig
  import opened Models
  import opened Resolver
  import opened Walker
  import opened WalkerProperties
  import opened Registries

  /** `tabulate.tabulate(rows, headers=..., tablefmt="github")`. */
  type Tabulate = (seq<string>, seq<seq<string>>) -> string

  const Headers: seq<string> := ["Name", "Type", "Required", "Default"]

  /** `list(field)`: a descriptor as a table row, in header order. */
  function Row(f: FieldInfo): seq<string> {
    [f.name, f.typ, f.required, f.default]
  }

  function Rows(fs: seq<FieldInfo>): (rows: seq<seq<string>>)
    ensures |rows| == |fs|
    ensures forall i :: 0 <= i < |fs| ==> rows[i] == Row(fs[i])
  {
    if fs == [] then [] else [Row(fs[0])] + Rows(fs[1..])
  }

  /** `f"\n### {cls}\n\n{table}\n"`. */
  function Section(cls: string, table: string): string {
    "\n### " + cls + "\n\n" + table + "\n"
  }

  /** The list a registry holds for `cls`; every key of a walk's order has one
      (`WalkFromEmpty`), so the empty default is never used for them. */
  function Entry(r: RegistryValue, cls: string): seq<FieldInfo> {
    if cls in r.entries then r.entries[cls] else []
  }

  /** The section of every key in `keys`, in that order. */
  function Sections(r: RegistryValue, keys: seq<string>, tab: Tabulate): (parts: seq<string>)
    ensures |parts| == |keys|
    ensures forall i :: 0 <= i < |keys| ==> parts[i] == Section(keys[i], tab(Headers, Rows(Entry(r, keys[i]))))
  {
    if keys == [] then []
    else [Section(keys[0], tab(Headers, Rows(Entry(r, keys[0]))))] + Sections(r, keys[1..], tab)
  }

  /** The text `render_table` returns for a registry: its sections joined by newlines. */
  function Document(r: RegistryValue, tab: Tabulate): string {
    Join("\n", Sections(r, r.order, tab))
  }

  /** `render_table(path, config)`, with the import, the walk and `tabulate` made explicit:
      a path `import_class` refuses raises, a missing module or attribute and a falsy attribute
      give `""`, an attribute that is not a model raises AttributeError (it has no
      fields to walk), and an error from the walk propagates. */
  function Rendered(path: string, config: Json, modules: Modules, pr: Printer, tab: Tabulate): Result<string> {
    match ImportClass(path, modules)
    case Err(e) => Err(e)
    case Ok(None) => Ok("")
    case Ok(Some(FalsyAttribute)) => Ok("")
    case Ok(Some(OtherAttribute)) => Err(AttributeError)
    case Ok(Some(ModelAttribute(m))) =>
      match Walk(m, config, EmptyRegistry, pr)
      case Err(e) => Err(e)
      case Ok(r) => Ok(Document(r, tab))
  }

  /** The path names nothing that can be rendered. */
  predicate NotFound(path: string, modules: Modules) {
    match ImportClass(path, modules)
    case Err(_) => false
    case Ok(None) => true
    case Ok(Some(a)) => a.FalsyAttribute?
  }

  /** The document of a walk from an empty dict opens with the root model's heading,
      so it is never empty. */
  lemma DocumentStartsWithRoot(m: Model, config: Json, pr: Printer, tab: Tabulate, r: RegistryValue)
    requires Walk(m, config, EmptyRegistry, pr) == Ok(r)
    ensures StartsWith(Document(r, tab), "\n### " + m.name + "\n\n")
  {
    WalkFromEmpty(m, config, pr);
    var parts := Sections(r, r.order, tab);
    var doc := Join("\n", parts);
    var head := "\n### " + m.name + "\n\n";
    assert StartsWith(doc, parts[0]);
    assert parts[0] == head + tab(Headers, Rows(Entry(r, m.name))) + "\n";
    assert parts[0][..|head|] == head;
    assert doc[..|head|] == parts[0][..|head|];
  }

  /** When names determine models, the document has one section per model the walk
      reaches, the root's first: its heading is the model's name and its table lists the
      model's fields that are not skipped, in declaration order. */
  lemma DocumentSections(m: Model, config: Json, pr: Printer, tab: Tabulate, r: RegistryValue, byName: map<string, Model>)
    requires Catalogued(m, config, byName)
    requires Walk(m, config, EmptyRegistry, pr) == Ok(r)
    ensures r.order != [] && r.order[0] == m.name
    ensures forall k :: k in r.order <==> k in Names(m, config)
    ensures forall i :: 0 <= i < |r.order| ==>
      && r.order[i] in byName
      && Sections(r, r.order, tab)[i] == Section(r.order[i], tab(Headers, Rows(ExpectedEntry(config, r.order[i], byName[r.order[i]].fields, pr))))
  {
    WalkFromEmpty(m, config, pr);
    WalkEntries(m, config, EmptyRegistry, pr, byName, r);
  }

  /** Section `i` of the document comes after the first `i` sections and one newline. */
  lemma SectionInDocument(r: RegistryValue, tab: Tabulate, i: nat)
    requires 0 < i < |r.order|
    ensures var parts := Sections(r, r.order, tab);
      Document(r, tab) == Join("\n", parts[..i]) + "\n" + Join("\n", parts[i..])
      && StartsWith(Join("\n", parts[i..]), parts[i])
  {
    var parts := Sections(r, r.order, tab);
    assert parts == parts[..i] + parts[i..];
    JoinAppend("\n", parts[..i], parts[i..]);
  }

  /** `render_table` returns `""` exactly when nothing usable is found at the path. */
  lemma RenderedEmptyIffNotFound(path: string, config: Json, modules: Modules, pr: Printer, tab: Tabulate)
    ensures Rendered(path, config, modules, pr, tab) == Ok("") <==> NotFound(path, modules)
  {
    match ImportClass(path, modules)
    case Ok(Some(ModelAttribute(m))) =>
      if Walk(m, config, EmptyRegistry, pr).Ok? {
        DocumentStartsWithRoot(m, config, pr, tab, Walk(m, config, EmptyRegistry, pr).value);
      }
    case _ =>
  }

  /** The rendered text opens with the heading of the model the path names. */
  lemma RenderedStartsWithRoot(path: string, config: Json, modules: Modules, pr: Printer, tab: Tabulate, m: Model)
    requires ImportClass(path, modules) == Ok(Some(ModelAttribute(m)))
    requires Rendered(path, config, modules, pr, tab).Ok?
    ensures StartsWith(Rendered(path, config, modules, pr, tab).value, "\n### " + m.name + "\n\n")
  {
    DocumentStartsWithRoot(m, config, pr, tab, Walk(m, config, EmptyRegistry, pr).value);
  }

  /** A path without a dot is rejected before anything is imported. */
  lemma RenderedBadPath(path: string, config: Json, modules: Modules, pr: Printer, tab: Tabulate)
    requires '.' !in path
    ensures Rendered(path, config, modules, pr, tab) == Err(ValueError("Invalid path: " + path))
  {
  }

  /** With a well-shaped configuration, a model found at the path renders exactly when
      every field the walk reaches has a default that prints. */
  lemma RenderedTotal(path: string, config: Json, modules: Modules, pr: Printer, tab: Tabulate, m: Model)
    requires ImportClass(path, modules) == Ok(Some(ModelAttribute(m)))
    requires WellShaped(config)
    ensures Rendered(path, config, modules, pr, tab).Ok? <==> DefaultsPrint(m, config)
  {
    WalkTotal(m, config, EmptyRegistry, pr);
  }

  /** `render_table(model_path, config)` as the source runs it: the dict is filled in
      place by `get_field_info`, then the comprehensions turn each entry into a section. */
  method RenderTable(path: string, config: Json, modules: Modules, pr: Printer, tab: Tabulate)
    returns (r: Result<string>)
    ensures r == Rendered(path, config, modules, pr, tab)
  {
    var imported := ImportClass(path, modules);
    if imported.Err? {
      return Err(imported.error);
    }
    if imported.value.None? || imported.value.value.FalsyAttribute? {
      return Ok("");
    }
    if imported.value.value.OtherAttribute? {
      return Err(AttributeError);
    }
    var m := imported.value.value.model;
    var registry := new Registry();
    assert registry.Value() == EmptyRegistry;
    var e := registry.GetFieldInfo(m, config, pr);
    if e.Some? {
      return Err(e.value);
    }
    r := Ok(Document(registry.Value(), tab));
  }
}
