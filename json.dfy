/** The configuration block attached to a directive: the JSON value that
    `json.loads` gives back, and the field-exclusion lookup that
    `get_field_info` performs on it with Python's `in` and `[...]`. */
module JsonConfig {
  import opened Python
  import opened Text

  /** A value `json.loads` can return. An object keeps the last value of a repeated key,
      as `json.loads` does; numbers only need to be told apart from strings here. */
  datatype Json =
    | Null
    | Bool(b: bool)
    | Number(literal: string)
    | Str(s: string)
    | Array(items: seq<Json>)
    | Object(members: map<string, Json>)

  /** `{}`: the configuration when no block parses. */
  const EmptyConfig: Json := Object(map[])

  /** Python's `x in v` for a string `x` and a JSON value `v`: a key of a dict,
      an element of a list, a substring of a str; any other value raises TypeError. */
  function Contains(v: Json, x: string): (r: Result<bool>)
    ensures r.Err? <==> (v.Null? || v.Bool? || v.Number?)
    ensures r == Ok(true) <==>
      || (v.Object? && x in v.members)
      || (v.Array? && Str(x) in v.items)
      || (v.Str? && exists i :: OccursAt(x, v.s, i))
  {
    match v
    case Object(ms) => Ok(x in ms)
    case Array(items) => Ok(Str(x) in items)
    case Str(s) => Ok(IsSubstring(x, s))
    case _ => Err(TypeError)
  }

  /** `config.get("exclude", {})`, for a configuration that is an object. */
  function ExcludeRules(config: Json): Json
    requires config.Object?
  {
    if "exclude" in config.members then config.members["exclude"] else EmptyConfig
  }

  /** The test at the head of `get_field_info`'s loop:
      `model in config.get("exclude", {}) and field in config["exclude"][model]`. */
  function Excluded(config: Json, model: string, field: string): (r: Result<bool>)
  {
    if !config.Object? then Err(AttributeError)
    else
      var rules := ExcludeRules(config);
      match Contains(rules, model)
      case Err(e) => Err(e)
      case Ok(false) => Ok(false)
      case Ok(true) =>
        if rules.Object? then Contains(rules.members[model], field)
        else Err(TypeError)  // a str or a list indexed by a str
  }

  /** A configuration whose lookups never raise: an object whose `exclude`, when
      present, maps model names to lists, strings or objects. */
  predicate WellShaped(config: Json) {
    && config.Object?
    && var rules := ExcludeRules(config);
    && rules.Object?
    && forall m :: m in rules.members ==> rules.members[m].Array? || rules.members[m].Str? || rules.members[m].Object?
  }

  /** Exclusion is membership only: a field is skipped exactly when the model's rule
      lists it, contains it as a substring, or has it as a key. */
  lemma ExcludedMeans(config: Json, model: string, field: string)
    ensures Excluded(config, model, field) == Ok(true) <==>
      && config.Object?
      && ExcludeRules(config).Object?
      && model in ExcludeRules(config).members
      && Contains(ExcludeRules(config).members[model], field) == Ok(true)
  {
  }

  /** The lookup fails, for every field, exactly when the configuration is badly shaped
      for this model; on a well-shaped configuration it never fails. */
  lemma ExcludedRaises(config: Json, model: string, field: string)
    ensures !config.Object? ==> Excluded(config, model, field) == Err(AttributeError)
    ensures WellShaped(config) ==> Excluded(config, model, field).Ok?
    ensures Excluded(config, model, field).Err? ==> forall other :: Excluded(config, model, other).Err?
  {
  }

  /** `{"exclude": {model: names}}`. */
  function ExcludeList(model: string, names: seq<string>): Json {
    Object(map["exclude" := Object(map[model := Array(seq(|names|, i requires 0 <= i < |names| => Str(names[i])))])])
  }

  /** With `{"exclude": {M: [names]}}`, a field of `M` is skipped exactly when it is
      one of the names, and no field of any other model is skipped. */
  lemma ExcludeListSkips(model: string, names: seq<string>, other: string, field: string)
    ensures Excluded(ExcludeList(model, names), model, field) == Ok(field in names)
    ensures other != model ==> Excluded(ExcludeList(model, names), other, field) == Ok(false)
  {
    var items := seq(|names|, i requires 0 <= i < |names| => Str(names[i]));
    if field in names {
      var i :| 0 <= i < |names| && names[i] == field;
      assert items[i] == Str(field);
    }
  }

  /** There is no `"*"` wildcard: `{"exclude": {M: "*"}}` skips only the fields whose
      name is a substring of `"*"`, that is `""` and `"*"` itself. */
  lemma NoWildcard(model: string, field: string)
    ensures var config := Object(map["exclude" := Object(map[model := Str("*")])]);
            Excluded(config, model, field) == Ok(field == "" || field == "*")
  {
    var config := Object(map["exclude" := Object(map[model := Str("*")])]);
    if field != "" && field != "*" {
      assert forall i :: !OccursAt(field, "*", i);
    } else {
      assert OccursAt(field, "*", 0) || OccursAt(field, "*", 1);
    }
  }
}
