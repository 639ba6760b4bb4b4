/** The pydantic side of the preprocessor, as plain values, and the small
    pure helpers of docdantic/__init__.py that describe a field. */
module Models {
  import opened Python
  import opened Text

  /** A pydantic model class: its `__name__` and its `__fields__`, in declaration
      order. Being a datatype, a model graph is finite and acyclic. */
  datatype Model = Model(name: string, fields: seq<Field>)

  /** One entry of `__fields__`: its name, `annotation`, `default` and what
      `is_required()` answers. */
  datatype Field = Field(name: string, annotation: Annotation, default: PyValue, required: bool)

  /** A field annotation: `None`, or a type with a `__name__`, which is either a
      pydantic model or some other type. */
  datatype Annotation =
    | NoAnnotation
    | ClassAnnotation(className: string)
    | ModelAnnotation(model: Model)

  /** A Python value as far as `is_pydantic_model` and `get_default_string` look at it. */
  datatype PyValue =
    | Undefined                     // pydantic's `PydanticUndefined` sentinel
    | NoneValue
    | Items(items: seq<PyValue>)    // a list or a tuple
    | ModelClass(model: Model)      // a class deriving from `BaseModel`
    | OtherClass(className: string) // any other class
    | Instance(repr: string)        // any other value, model instances included

  /** What Python computes for a value the preprocessor only prints: `str(v)`. */
  datatype Printer = Printer(str: PyValue -> string)

  /** The annotation as the value `is_pydantic_model` receives. */
  function AnnotationValue(a: Annotation): PyValue {
    match a
    case NoAnnotation => NoneValue
    case ClassAnnotation(n) => OtherClass(n)
    case ModelAnnotation(m) => ModelClass(m)
  }

  /** `is_pydantic_model(obj)`: a model class, or a list or tuple holding one at any depth. */
  function IsPydanticModel(v: PyValue): bool {
    match v
    case NoneValue => false
    case Items(xs) => exists i :: 0 <= i < |xs| && IsPydanticModel(xs[i])
    case ModelClass(_) => true
    case _ => false
  }

  /** The value reached from `v` by indexing nested lists and tuples along `path`. */
  function At(v: PyValue, path: seq<nat>): Option<PyValue>
    decreases |path|
  {
    if path == [] then Some(v)
    else if v.Items? && path[0] < |v.items| then At(v.items[path[0]], path[1..])
    else None
  }

  /** `is_pydantic_model` holds exactly when some index path leads to a model class. */
  lemma {:induction false} IsPydanticModelFindsClass(v: PyValue)
    ensures IsPydanticModel(v) <==> exists path :: At(v, path).Some? && At(v, path).value.ModelClass?
  {
    if IsPydanticModel(v) {
      var path := ModelPath(v);
    }
    if exists path :: At(v, path).Some? && At(v, path).value.ModelClass? {
      var path :| At(v, path).Some? && At(v, path).value.ModelClass?;
      PathFindsModel(v, path);
    }
  }

  lemma {:induction false} ModelPath(v: PyValue) returns (path: seq<nat>)
    requires IsPydanticModel(v)
    ensures At(v, path).Some? && At(v, path).value.ModelClass?
  {
    match v
    case ModelClass(_) => path := [];
    case Items(xs) =>
      var i :| 0 <= i < |xs| && IsPydanticModel(xs[i]);
      var rest := ModelPath(xs[i]);
      path := [i] + rest;
      assert path[1..] == rest;
  }

  lemma {:induction false} PathFindsModel(v: PyValue, path: seq<nat>)
    requires At(v, path).Some? && At(v, path).value.ModelClass?
    ensures IsPydanticModel(v)
    decreases |path|
  {
    if path != [] {
      PathFindsModel(v.items[path[0]], path[1..]);
    }
  }

  /** Only a model annotation makes `is_pydantic_model(field.annotation)` true. */
  lemma AnnotationIsModel(a: Annotation)
    ensures IsPydanticModel(AnnotationValue(a)) <==> a.ModelAnnotation?
  {
  }

  /** `get_default_string`: the sentinel prints as `...`, `None` as nothing and any other
      value through `str`, except one that `is_pydantic_model` accepts. That value is
      a model class or a list or tuple holding one, never an instance, so calling
      `model_dump()` on it raises: a class has no `self` to bind (TypeError), and a list
      or tuple has no such attribute (AttributeError). */
  function DefaultString(v: PyValue, pr: Printer): (r: Result<string>)
    ensures r.Err? <==> IsPydanticModel(v)
    ensures v.ModelClass? ==> r == Err(TypeError)
    ensures v.Items? && r.Err? ==> r == Err(AttributeError)
    ensures v.Undefined? ==> r == Ok("...")
    ensures v.NoneValue? ==> r == Ok("")
    ensures (v.Instance? || v.OtherClass? || v.Items?) && r.Ok? ==> r == Ok(pr.str(v))
  {
    if v == Undefined then Ok("...")
    else if v != NoneValue && IsPydanticModel(v) then
      if v.ModelClass? then Err(TypeError) else Err(AttributeError)
    else if v != NoneValue then Ok(pr.str(v))
    else Ok("")
  }

  /** A default value fails to print exactly when a model class can be reached in it
      through nested lists and tuples. */
  lemma DefaultRaisesIffModelReachable(v: PyValue, pr: Printer)
    ensures DefaultString(v, pr).Err? <==> exists path :: At(v, path).Some? && At(v, path).value.ModelClass?
  {
    IsPydanticModelFindsClass(v);
  }

  /** The branch meant for model values never prints: a model class fails with TypeError,
      and a list holding one with AttributeError. */
  lemma ModelDefaultNeverPrints(m: Model, pr: Printer)
    ensures DefaultString(ModelClass(m), pr) == Err(TypeError)
    ensures DefaultString(Items([ModelClass(m)]), pr) == Err(AttributeError)
    ensures DefaultString(Instance(m.name), pr) == Ok(pr.str(Instance(m.name)))
  {
    assert IsPydanticModel(Items([ModelClass(m)]).items[0]);
  }

  /** `get_annotation_string`: `"None"`, or the type's `__name__`. */
  function AnnotationString(a: Annotation): (r: string)
    ensures a.NoAnnotation? ==> r == "None"
    ensures a.ClassAnnotation? ==> r == a.className
    ensures a.ModelAnnotation? ==> r == a.model.name
  {
    match a
    case NoAnnotation => "None"
    case ClassAnnotation(n) => n
    case ModelAnnotation(m) => m.name
  }

  /** `submodel_link`: `[Name](#name)`, the anchor being the name in lower case. */
  function SubmodelLink(name: string): string {
    "[" + name + "](#" + Lower(name) + ")"
  }

  /** Reads `[text](#target)` back into its text and target; the text stops at the first `]`. */
  function LinkParts(link: string): Option<(string, string)> {
    if |link| < 2 || link[0] != '[' || link[|link| - 1] != ')' then None
    else
      match FirstIndexOf(link, ']')
      case None => None
      case Some(k) =>
        if k + 3 <= |link| - 1 && link[k + 1..k + 3] == "(#" then Some((link[1..k], link[k + 3..|link| - 1]))
        else None
  }

  /** A link to a model whose name has no `]` shows the name and points at the name
      in lower case. */
  lemma SubmodelLinkParts(name: string)
    requires ']' !in name
    ensures LinkParts(SubmodelLink(name)) == Some((name, Lower(name)))
  {
    LinkReadsBack(name, Lower(name));
  }

  /** `[text](#target)` reads back as `text` and `target` when `text` has no `]`. */
  lemma LinkReadsBack(text: string, target: string)
    requires ']' !in text
    ensures LinkParts("[" + text + "](#" + target + ")") == Some((text, target))
  {
    var link := "[" + text + "](#" + target + ")";
    var k := |text| + 1;
    assert link[..k] == "[" + text;
    assert link[k] == ']';
    assert FirstIndexOf(link, ']') == Some(k);
    assert link[1..k] == text;
    assert link[k + 1..k + 3] == "(#";
    assert link[k + 3..|link| - 1] == target;
  }

  /** `highlight_name`: `**name**`. */
  function HighlightName(name: string): string {
    "**" + name + "**"
  }

  /** Drops the bold markers `highlight_name` adds. */
  function Unhighlight(s: string): Option<string> {
    if |s| >= 4 && s[..2] == "**" && s[|s| - 2..] == "**" then Some(s[2..|s| - 2]) else None
  }

  lemma HighlightRoundTrip(name: string)
    ensures Unhighlight(HighlightName(name)) == Some(name)
  {
    var s := HighlightName(name);
    assert s[..2] == "**" && s[|s| - 2..] == "**" && s[2..|s| - 2] == name;
  }
}
