# docdantic, modelled in Dafny

docdantic is a Python-Markdown extension. Its preprocessor scans a Markdown
document for directive lines `!docdantic: package.module.Model`. It reads the
indented JSON configuration block that may follow a directive, imports the named
pydantic model and walks it together with every model that one of its fields is
annotated with directly. It then
replaces the directive with one GitHub-style table per model: the model's fields
with their type, whether they are required and their default value.

This project models that preprocessor and proves what it does:

- `python.dfy` (module `Python`): `Option`, `Result` and the exceptions that can escape
  (`ValueError`, `TypeError`, `AttributeError`), and `str()` of a bool.
- `text.dfy` (module `Text`): the pieces of Python's `str` the code relies on
  (`strip`, `lower`, `in`, `rsplit` on the last dot, `join`).
- `json.dfy` (module `JsonConfig`): the value `json.loads` returns, and the
  exclusion test `model in config.get("exclude", {}) and name in config["exclude"][model]`
  with Python's semantics for `in` and indexing on every JSON shape. That includes the
  exceptions raised on shapes that do not support them.
- `models.dfy` (module `Models`): models, fields, annotations and default values as
  datatypes, plus `is_pydantic_model`, `get_default_string`, `get_annotation_string`,
  `submodel_link` and `highlight_name`.
- `resolver.dfy` (module `Resolver`): `import_class`, with the import machinery
  given as a map from module names to their attributes.
- `walker.dfy` (modules `Walker`, `WalkerProperties`): `get_field_info` as a
  function on registry values, and what it guarantees.
  - The function tracks whether `models[name]` is still the list the walk appends
    to. It stops being that list once a nested model of the same name re-registers it.
- `registry.dfy` (module `Registries`): `get_field_info` as the source runs it.
  - A `Registry` object holds the `models` dict, and `FieldList` objects are the lists
    shared by reference between the dict and the walk that fills them.
  - Each method is proved to do what the functional walk computes.
- `render.dfy` (module `Render`): `render_table`.
- `scanner.dfy` (module `Scanner`): `extract_configuration`, `process_line` and
  the preprocessor's `run` loop.

Calls into code outside the core are parameters:
- `json.loads` is `parse: string -> Option<Json>`, where `None` is a JSONDecodeError.
- `tabulate.tabulate(rows, headers, tablefmt="github")` is `tab`.
- `str(value)` is `Printer.str`.

Where the project's documentation and its code disagree, the model follows the code:
- `get_field_info` has no guard against circular references, although its docstring
  mentions one. Model graphs here are finite datatypes and so acyclic.
- The exclusion rules have no `"*"` wildcard: `{"exclude": {"M": "*"}}` skips only
  fields whose name is a substring of `"*"` (`JsonConfig.NoWildcard`).
- The configuration block is not delimited by counting braces. It is every following
  line that starts with two spaces or tabs, and the comment's "a tab or 2-4 spaces"
  is not what the regex `^[ \t]{2,4}` tests (`Scanner.Indented`).
- Types are rendered by `__name__` only, so `Optional[X]` shows as `Optional`.
- Nested models are followed only through a field annotated with the model class itself.
  `is_pydantic_model` does not look inside `Optional[B]`, `Union[B, C]` or `list[B]`, so
  such a field gets neither a link nor a table of its own, although the walk is meant to
  reach the models inside unions too (`Models.AnnotationIsModel`).
- `get_default_string` means to print a model default through `model_dump()`, but
  `is_pydantic_model` only accepts a model class or a list or tuple holding one. For
  those values the call raises: a class has no `self` to bind (TypeError), and a list
  or tuple has no `model_dump` (AttributeError). Such a default on a field that is not
  excluded makes the whole walk raise (`Models.ModelDefaultNeverPrints`, `WalkerProperties.WalkTotal`). A model
  instance is not accepted, so it is printed with `str`.

## Model

| member | source | states |
|---|---|---|
| Python.BoolString | docdantic/__init__.py:129 | `str(field.is_required())` is `"True"` exactly when the field is required and `"False"` exactly when it is not |
| Text.StripIsStripped | docdantic/__init__.py:165 | `strip()` removes only whitespace from both ends, and what remains neither starts nor ends with whitespace |
| Text.Lower | docdantic/__init__.py:71 | `lower()` keeps the length and maps each character through the ASCII case mapping |
| Text.LowerIsIdempotent | docdantic/__init__.py:71 | lower-casing twice equals lower-casing once, and no upper-case ASCII letter remains |
| Text.IsSubstring | docdantic/__init__.py:123 | Python's `x in s` on strings holds exactly when `x` occurs at some position of `s` |
| Text.LastIndexOf | docdantic/__init__.py:92 | the index found holds the character and no later position does; none is found exactly when the character is absent |
| Text.Join | docdantic/__init__.py:198-201 | a non-empty join starts with its first part |
| Text.JoinAppend | docdantic/__init__.py:198-201 | joining two non-empty runs of parts gives the join of the first, one separator, then the join of the second, so every part appears in order with one separator between neighbours |
| JsonConfig.Contains | docdantic/__init__.py:123 | `x in v` is true exactly for a key of an object, an element of a list or a substring of a string, and raises TypeError exactly on null, bools and numbers |
| JsonConfig.ExcludedMeans | docdantic/__init__.py:123 | a field is skipped exactly when the configuration is an object whose `exclude` object has the model, and that entry contains the field name |
| JsonConfig.ExcludedRaises | docdantic/__init__.py:123 | a configuration that is not an object raises AttributeError; a well-shaped one never raises; a raise for one field is a raise for every field of that model |
| JsonConfig.ExcludeListSkips | docdantic/__init__.py:123 | with `{"exclude": {M: [names]}}` a field of `M` is skipped exactly when listed, and no field of another model is skipped |
| JsonConfig.NoWildcard | docdantic/__init__.py:123 | `"*"` is not a wildcard: it skips only the fields named `""` or `"*"` |
| Models.IsPydanticModelFindsClass | docdantic/__init__.py:19-32 | `is_pydantic_model` holds exactly when some path through nested lists and tuples reaches a model class |
| Models.ModelPath | docdantic/__init__.py:28-31 | when `is_pydantic_model` holds, a path to a model class exists |
| Models.PathFindsModel | docdantic/__init__.py:28-31 | a path to a model class makes `is_pydantic_model` hold |
| Models.AnnotationIsModel | docdantic/__init__.py:131 | a field's annotation passes `is_pydantic_model` exactly when it is a model class |
| Models.DefaultString | docdantic/__init__.py:35-49 | raises exactly when `is_pydantic_model` accepts the default: TypeError for a model class, AttributeError for a list or tuple holding one; otherwise the sentinel prints as `...`, `None` as the empty string and any other value through `str` |
| Models.DefaultRaisesIffModelReachable | docdantic/__init__.py:35-49 | a default fails to print exactly when some path through nested lists and tuples reaches a model class |
| Models.ModelDefaultNeverPrints | docdantic/__init__.py:44-45 | the `model_dump` branch never produces text: a model class raises TypeError, a list holding one raises AttributeError, while a model instance prints through `str` |
| Models.AnnotationString | docdantic/__init__.py:51-61 | no annotation prints as `"None"`, any other annotation as its type's name |
| Models.SubmodelLinkParts | docdantic/__init__.py:64-72 | `submodel_link(name)` reads back as a link whose text is `name` and whose target is `name` in lower case |
| Models.LinkReadsBack | docdantic/__init__.py:72 | a link `[text](#target)` reads back as `text` and `target` whenever `text` has no `]` |
| Models.HighlightRoundTrip | docdantic/__init__.py:75-82 | `highlight_name` wraps the name in bold markers that can be removed to give it back |
| Resolver.SplitPath | docdantic/__init__.py:92-97 | the split fails with `ValueError("Invalid path: " + path)` exactly when the path has no dot; otherwise the module name, a dot and a dot-free class name give back the path |
| Resolver.SplitPathIsLastDot | docdantic/__init__.py:92 | any split of the path into a module part and a dot-free class part is the one `rsplit(".", 1)` returns |
| Resolver.ImportClass | docdantic/__init__.py:85-103 | in the model, it raises exactly for a path without a dot (ValueError "Invalid path") and for one starting with a dot: an empty module name raises ValueError "Empty module name", a relative one TypeError; otherwise a missing module or attribute gives `None` and a present one is returned |
| WalkerProperties.WalkKeys | docdantic/__init__.py:106-139 | a walk adds exactly the names of the model and of the models it reaches through fields that are not skipped; it leaves every other entry unchanged, only appends to the key order, keeps the order a duplicate-free list of the keys, and appends a model that was not yet a key |
| WalkerProperties.RegisterKeys | docdantic/__init__.py:118-120 | `models[name] = fields` adds `name` as a key and leaves every other entry and the existing order as they were |
| WalkerProperties.AppendedKeeps | docdantic/__init__.py:135-137 | appending to a walk's list changes no key and no other model's entry |
| WalkerProperties.FieldStepKeys | docdantic/__init__.py:122-137 | one pass of the loop adds the names of the field's model and leaves every other entry alone |
| WalkerProperties.WalkFieldsKeys | docdantic/__init__.py:122-137 | the rest of the loop adds the names registered by the remaining fields and leaves every other entry alone |
| WalkerProperties.FieldNamesWithin | docdantic/__init__.py:122-133 | the names a field registers are among those of the fields walked so far |
| WalkerProperties.WalkFromEmpty | docdantic/__init__.py:115-120 | from an empty dict the root model is the first key, the order lists each key once, and the keys are exactly the names the walk reaches |
| WalkerProperties.WalkOwnEntry | docdantic/__init__.py:118-137 | unless a nested model shares its name, the root's entry holds one descriptor per field that is not skipped, in declaration order |
| WalkerProperties.FieldStepOwnEntry | docdantic/__init__.py:123-137 | a pass that keeps the entry as the walk's own list appends the field's descriptor, or nothing when the field is skipped |
| WalkerProperties.WalkFieldsOwnEntry | docdantic/__init__.py:122-137 | the rest of the loop appends, in order, the descriptors of the remaining fields that are not skipped |
| WalkerProperties.ExpectedEntryFrom | docdantic/__init__.py:122-137 | the fields from `i` on contribute field `i`'s descriptor, if it is not skipped, followed by those of the fields after it |
| WalkerProperties.ExpectedEntryAppend | docdantic/__init__.py:122-137 | the descriptors of two runs of fields are those of the first run followed by those of the second |
| WalkerProperties.SubmodelRegistered | docdantic/__init__.py:126-133 | a field annotated with a model `T` that is not skipped has a default that printed, shows the link `[T](#t)`, and `T` becomes a key |
| WalkerProperties.WalkTotal | docdantic/__init__.py:122-133 | with a well-shaped configuration the walk returns exactly when every field it reaches, in the root and in every nested model, has a default that prints |
| WalkerProperties.WalkFieldsTotal | docdantic/__init__.py:122-137 | with a well-shaped configuration the rest of the loop returns exactly when every remaining field it reaches has a default that prints |
| WalkerProperties.WalkPrints | docdantic/__init__.py:122-133 | whatever the configuration, a walk that returns has printed the default of every field it reached |
| WalkerProperties.WalkFieldsPrints | docdantic/__init__.py:122-137 | a loop that returns has printed the default of every remaining field it reached |
| WalkerProperties.WalkEntries | docdantic/__init__.py:106-139 | when names determine models, every model the walk reaches, nested ones included, is a key holding the descriptors of its fields that are not skipped, in declaration order; every name the fields reach belongs to a model nested strictly inside the root |
| WalkerProperties.WalkFieldsEntries | docdantic/__init__.py:122-137 | the rest of the loop leaves every model reached through the fields holding its declared descriptors |
| WalkerProperties.FieldStepEntries | docdantic/__init__.py:123-137 | one pass fills the entries of the models its field reaches and keeps the entries already filled |
| WalkerProperties.NestedWalkEntries | docdantic/__init__.py:131-133 | the nested walk fills the entries of the models it reaches, never re-registers the model being walked, and keeps the other filled entries |
| WalkerProperties.AppendKeepsEntries | docdantic/__init__.py:135-137 | appending to one model's list leaves the entries of all other names as they were |
| WalkerProperties.WalkNeedsObjectConfig | docdantic/__init__.py:122-123 | a configuration that is not an object raises AttributeError at the first field; a model with no fields never reads it |
| Registries.FieldList.constructor | docdantic/__init__.py:118 | a new list is empty |
| Registries.Registry.constructor | docdantic/__init__.py:115-116 | a new dict has no keys |
| Registries.Registry.GetFieldInfo | docdantic/__init__.py:106-139 | the in-place walk raises exactly when the functional walk does, and otherwise leaves the dict holding what it computes; the new keys are the names reached, each with a newly allocated list, and every other key keeps its list |
| Registries.Registry.Enter | docdantic/__init__.py:118-120 | a new, empty list is stored under the model's name, which keeps its place in the order or goes last |
| Registries.Registry.Fill | docdantic/__init__.py:122-137 | the field loop leaves the dict as the functional loop computes, or raises as it does; it adds the names the fields reach, each with a new list, and leaves other keys alone |
| Registries.Registry.Advance | docdantic/__init__.py:122-137 | one pass advances the functional loop by one field and extends the set of registered names by that field's |
| Registries.Registry.WalkField | docdantic/__init__.py:123-137 | one pass does what the functional pass computes: the exclusion test, a default that raises before the nested walk starts, the nested walk, and the append; it also tells whether `models[name]` is still the walk's own list |
| Registries.Registry.Append | docdantic/__init__.py:135-137 | `fields.append` extends the list, and the dict shows the new item under the model's name exactly when that entry is this list |
| Render.Rows | docdantic/__init__.py:190-191 | one row per descriptor, in order, holding its name, type, required flag and default |
| Render.Sections | docdantic/__init__.py:198-201 | one `\n### cls\n\n<table>\n` section per model, in the dict's order |
| Render.DocumentStartsWithRoot | docdantic/__init__.py:186-201 | the rendered text of a walk opens with the heading of the root model, so it is never empty |
| Render.DocumentSections | docdantic/__init__.py:186-201 | when names determine models, the sections are those of exactly the models reached, the root first, each headed by the model's name over the table of its fields that are not skipped, in declaration order |
| Render.SectionInDocument | docdantic/__init__.py:198-201 | section `i` of the text follows the first `i` sections and one newline |
| Render.RenderedEmptyIffNotFound | docdantic/__init__.py:184-204 | `render_table` returns `""` exactly when the path names no module, no attribute or a falsy attribute |
| Render.RenderedStartsWithRoot | docdantic/__init__.py:186-201 | a path naming a model renders text that opens with that model's heading |
| Render.RenderedBadPath | docdantic/__init__.py:92-95 | a path without a dot raises ValueError before anything is imported |
| Render.RenderedTotal | docdantic/__init__.py:184-201 | with a well-shaped configuration, a model found at the path renders exactly when every field the walk reaches has a default that prints |
| Render.RenderTable | docdantic/__init__.py:176-204 | the method, which fills a fresh dict in place, returns what `Rendered` specifies, including each exception |
| Scanner.DirectivePath | docdantic/__init__.py:216-217 | a recognised line is the prefix `!docdantic: ` followed by a newline-free path, optionally with one final newline |
| Scanner.DirectivePathRoundTrip | docdantic/__init__.py:216-217 | every newline-free path after the prefix is recognised, with or without a final newline |
| Scanner.BlockEnd | docdantic/__init__.py:158-162 | the block ends at or after the directive and inside the document |
| Scanner.BlockEndIsLongestRun | docdantic/__init__.py:158-162 | every line of the block starts with two spaces or tabs, and the line after it is missing or does not |
| Scanner.LongestParse | docdantic/__init__.py:163-171 | the chosen prefix of the block parses, unless it is empty, and no longer prefix does |
| Scanner.LastParsedIsLongest | docdantic/__init__.py:150-171 | the configuration is `{}` when no accumulated string parses, and otherwise the parse of the longest one that does; a failed parse never stops the scan |
| Scanner.ExtractConfiguration | docdantic/__init__.py:142-173 | the loop stops after the last directly following indented line, and returns the configuration `LastParsed` gives for that block |
| Scanner.ProcessLine | docdantic/__init__.py:207-222 | the method returns what `ProcessedLine` specifies: a non-directive unchanged with the same index; a directive as its rendered text, or unchanged when nothing renders, with its block consumed; an exception propagates |
| Scanner.ProcessedLineAdvances | docdantic/__init__.py:215-222 | the index returned is never before the line and never past the document |
| Scanner.Run | docdantic/__init__.py:229-238 | the loop returns what `Scan` specifies for the whole document |
| Scanner.RunStep | docdantic/__init__.py:233-236 | one pass of the loop appends the processed line and strictly advances the index |
| Scanner.ScanWithoutDirectives | docdantic/__init__.py:229-238 | a document without a line starting `!docdantic: ` comes back unchanged |
| Scanner.ScanShrinks | docdantic/__init__.py:229-238 | `run` emits at most one element per input line |
| Scanner.UnresolvedDirectiveKept | docdantic/__init__.py:218-222 | a directive naming nothing renderable stays as written, and its configuration block is still consumed |
| Scanner.ResolvedDirectiveReplaced | docdantic/__init__.py:218-221 | a directive naming a model is replaced by text that opens with that model's heading |

## Left out

- Importing: `importlib.import_module` and `getattr` are a finite map of modules and attributes. The names `import_module` rejects before looking anything up are modelled: an empty module name raises ValueError, and one starting with a dot raises TypeError because no package is given. Only `ModuleNotFoundError` is caught by the source and modelled as "not found". Any other exception raised while importing, such as one raised by the imported module's own code, is not modelled.
- pydantic reflection: a model is its `__name__` and its `__fields__`. Annotations are `None`, a named type or a model class. An annotation without `__name__` (which raises AttributeError in `get_annotation_string`) is not modelled.
- Circular model graphs: the source recurses without limit on them, and models here are acyclic datatypes, so that case is not modelled.
- `json.loads`, `tabulate.tabulate` and `str()` are parameters: their output is not modelled, only how the core uses it.
- The `print` in `render_table` when no model is found is left out; it does not affect the result.
- `Docdantic.extendMarkdown`, `makeExtension`, `DocdanticPreprocessor.__init__` and `__version__` register the extension with Markdown and read package metadata; they hold no logic to verify.
- Text.Lower: lower-cases ASCII letters only, where Python's `str.lower` also lower-cases other scripts. Link anchors (`Models.SubmodelLink`) are therefore exact only for ASCII model names.
- Models.SubmodelLinkParts: requires that the model name contains no `]`, because the read-back splits the link at the first `]`. pydantic names a parametrised generic model like `Response[int]`; for such names only `Models.SubmodelLink`'s own definition (`[` name `](#` lower-cased name `)`) describes the link.
- WalkerProperties.WalkEntries: describes every entry only when names determine models across the graph. When two different models share a name, the later walk replaces the earlier one's list; for that case the model states the keys (`WalkerProperties.WalkKeys`) and the root's own entry (`WalkerProperties.WalkOwnEntry`), not the contents of the other entries.
- Registries.Registry.GetFieldInfo: the list it appends to is shown to be the one stored under the model's name only while no nested model of the same name has replaced it. The model does not otherwise describe which other lists alias each other.
