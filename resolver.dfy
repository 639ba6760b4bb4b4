/** `import_class`: from a dotted path to the object it names. Python's import
    machinery is replaced by a map from module names to their attributes. */
module Resolver {
  import opened Python
  import opened Text
  import opened Models

  /** An attribute `getattr` can return: a model, a falsy value (which
      `render_table` treats as "not found"), or any other object. */
  datatype Attribute = ModelAttribute(model: Model) | FalsyAttribute | OtherAttribute

  /** The modules that can be imported, each with its attributes by name. */
  type Modules = map<string, map<string, Attribute>>

  /** `path.rsplit(".", 1)`, with the ValueError raised when there is no dot. */
  function SplitPath(path: string): (r: Result<(string, string)>)
    ensures r.Err? <==> '.' !in path
    ensures r.Err? ==> r.error == ValueError("Invalid path: " + path)
    ensures r.Ok? ==> r.value.0 + "." + r.value.1 == path && '.' !in r.value.1
  {
    match LastIndexOf(path, '.')
    case None => Err(ValueError("Invalid path: " + path))
    case Some(k) =>
      assert path == path[..k] + "." + path[k + 1..];
      Ok((path[..k], path[k + 1..]))
  }

  /** The split is the only one with those two properties: the class name is
      everything after the last dot. */
  lemma SplitPathIsLastDot(path: string, moduleName: string, className: string)
    requires moduleName + "." + className == path && '.' !in className
    ensures SplitPath(path) == Ok((moduleName, className))
  {
    var r := SplitPath(path);
    assert path[|moduleName|] == '.';
    var m', c' := r.value.0, r.value.1;
    assert |m'| == |moduleName|;
    assert m' == path[..|moduleName|] == moduleName;
  }

  /** `import_class(path)`: a missing module or attribute is `None`, not an error.
      A path without a dot raises, and so does one whose module part `import_module`
      refuses: an empty name raises ValueError, and a name starting with a dot is a
      relative import with no package, which raises TypeError. */
  function ImportClass(path: string, modules: Modules): (r: Result<Option<Attribute>>)
    ensures r.Err? <==> '.' !in path || path[0] == '.'
    ensures '.' !in path ==> r == Err(ValueError("Invalid path: " + path))
    ensures '.' in path && path[0] == '.' ==> r == Err(if '.' in path[1..] then TypeError else ValueError("Empty module name"))
    ensures r.Ok? ==> var (moduleName, className) := SplitPath(path).value;
      r.value == if moduleName in modules && className in modules[moduleName] then Some(modules[moduleName][className]) else None
  {
    match SplitPath(path)
    case Err(e) => Err(e)
    case Ok((moduleName, className)) =>
      assert path == moduleName + "." + className;
      assert moduleName != [] ==> path[0] == moduleName[0] && path[|moduleName|] == '.';
      assert moduleName == [] ==> path[1..] == className;
      if moduleName == "" then Err(ValueError("Empty module name"))
      else if moduleName[0] == '.' then Err(TypeError)   // relative import without a package
      else if moduleName !in modules then Ok(None)       // ModuleNotFoundError is caught
      else if className !in modules[moduleName] then Ok(None)  // getattr(module, class_name, None)
      else Ok(Some(modules[moduleName][className]))
  }
}
