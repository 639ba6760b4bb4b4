/** `get_field_info` as the source runs it: a recursive walk that mutates the
    shared `models` dict and appends to each model's list in place. */
module Registries {
  import opened Python
  import opened JsonConfig
  import opened Models
  import opened Walker

  /** A Python list of descriptors, shared by reference between the walk that
      fills it and the dict entry that points at it. */
  class FieldList {
    var items: seq<FieldInfo>

    constructor()
      ensures items == []
    {
      items := [];
    }
  }

  /** The `models` dict: its keys in insertion order, and the list each key holds. */
  class Registry {
    var order: seq<string>
    var models: map<string, FieldList>

    /** `models = {}`. */
    constructor()
      ensures order == [] && models == map[]
    {
      order := [];
      models := map[];
    }

    /** What the dict holds: each key with the current contents of its list. */
    function Value(): RegistryValue
      reads this, models.Values
    {
      RegistryValue(order, map k | k in models :: models[k].items)
    }

    /** `get_field_info(m, config, self)`. It raises exactly when `Walk` does and otherwise
        leaves the dict holding what `Walk` computes; the keys it adds are those of
        `Names(m, config)`, each pointing at a list the walk allocated, and every
        other key keeps its list. */
    method GetFieldInfo(m: Model, config: Json, pr: Printer) returns (err: Option<PyError>)
      modifies this
      decreases m, 3
      ensures err.Some? ==> Walk(m, config, old(Value()), pr) == Err(err.value)
      ensures err.None? ==> Walk(m, config, old(Value()), pr) == Ok(Value())
      ensures err.None? ==> models.Keys == old(models.Keys) + Names(m, config)
      ensures err.None? ==> forall k :: k in old(models) && k !in Names(m, config) ==> models[k] == old(models[k])
      ensures err.None? ==> forall k :: k in Names(m, config) ==> k in models && fresh(models[k])
    {
      var fields := Enter(m.name);
      ghost var walk := Walk(m, config, old(Value()), pr);
      assert walk == WalkFields(m, config, 0, WalkState(Value(), [], true), pr);
      err := Fill(m, config, pr, fields, walk);
    }

    /** The loop of `get_field_info`: each field of `m` in turn, appending to `fields`,
        the list `m.name` was just given. */
    method Fill(m: Model, config: Json, pr: Printer, fields: FieldList, ghost walk: Result<RegistryValue>)
      returns (err: Option<PyError>)
      requires m.name in models && models[m.name] == fields
      requires forall k :: k in models && k != m.name ==> models[k] != fields
      requires walk == WalkFields(m, config, 0, WalkState(Value(), fields.items, true), pr)
      modifies this, fields
      decreases m, 2
      ensures err.Some? ==> walk == Err(err.value)
      ensures err.None? ==> walk == Ok(Value())
      ensures err.None? ==> models.Keys == old(models.Keys) + NamesUpTo(m, config, |m.fields|)
      ensures err.None? ==> forall k :: k in old(models) && k != m.name && k !in NamesUpTo(m, config, |m.fields|) ==> models[k] == old(models[k])
      ensures err.None? ==> forall k :: k in NamesUpTo(m, config, |m.fields|) ==> fresh(models[k])
      ensures err.None? ==> m.name in models && (models[m.name] == fields || fresh(models[m.name]))
    {
      ghost var owned := true;
      ghost var models0 := models;
      var i := 0;
      ghost var done: set<string> := {};
      ghost var st := WalkState(Value(), fields.items, true);
      while i < |m.fields|
        invariant 0 <= i <= |m.fields|
        invariant done == NamesUpTo(m, config, i)
        invariant m.name in models
        invariant owned <==> models[m.name] == fields
        invariant forall k :: k in models && k != m.name ==> models[k] != fields
        invariant st == WalkState(Value(), fields.items, owned)
        invariant walk == WalkFields(m, config, i, st, pr)
        invariant models.Keys == models0.Keys + done
        invariant forall k :: k in models0 && k != m.name && k !in done ==> models[k] == models0[k]
        invariant forall k :: k in models && k in done ==> fresh(models[k])
        invariant owned || fresh(models[m.name])
      {
        err, owned, done, st := Advance(m, config, pr, i, fields, owned, done, st, walk);
        if err.Some? {
          return;
        }
        i := i + 1;
      }
      assert i == |m.fields|;
      err := None;
    }

    /** `fields = []; models[name] = fields`: a new key goes to the end of the order,
        an existing key keeps its place and now holds the new, empty list. */
    method Enter(name: string) returns (fields: FieldList)
      modifies this
      ensures fresh(fields) && fields.items == []
      ensures models == old(models)[name := fields]
      ensures Value() == Register(old(Value()), name)
    {
      fields := new FieldList();
      if name !in models {
        order := order + [name];
      }
      models := models[name := fields];
    }

    /** One pass of `get_field_info`'s loop, stated the way the loop's invariant needs it:
        the rest of the walk moves on by one field, `done` grows to the names registered
        through field `i`, and every list the pass leaves in the dict is old or new. */
    method Advance(m: Model, config: Json, pr: Printer, i: nat, fields: FieldList, ghost owned: bool, ghost done: set<string>, ghost st: WalkState, ghost walk: Result<RegistryValue>)
      returns (err: Option<PyError>, ghost owned': bool, ghost done': set<string>, ghost st': WalkState)
      requires i < |m.fields| && done == NamesUpTo(m, config, i) && done <= models.Keys
      requires m.name in models && (owned <==> models[m.name] == fields)
      requires forall k :: k in models && k != m.name ==> models[k] != fields
      requires st == WalkState(Value(), fields.items, owned)
      requires walk == WalkFields(m, config, i, st, pr)
      modifies this, fields
      decreases m, 1
      ensures err.Some? ==> walk == Err(err.value)
      ensures err.None? ==> st' == WalkState(Value(), fields.items, owned')
      ensures err.None? ==> walk == WalkFields(m, config, i + 1, st', pr)
      ensures err.None? ==> done' == NamesUpTo(m, config, i + 1)
      ensures err.None? ==> m.name in models && (owned' <==> models[m.name] == fields)
      ensures err.None? ==> forall k :: k in models && k != m.name ==> models[k] != fields
      ensures err.None? ==> models.Keys == old(models.Keys) + done'
      ensures err.None? ==> forall k :: k in old(models) && k !in done' ==> models[k] == old(models[k])
      ensures err.None? ==> forall k :: k in done' && k !in done ==> fresh(models[k])
      ensures err.None? ==> forall k :: k in models ==> (k in old(models) && models[k] == old(models[k])) || fresh(models[k])
    {
      NamesUpToNext(m, config, i);
      WalkFieldsNext(m, config, i, st, pr);
      err, owned' := WalkField(m, config, pr, i, fields, owned);
      done' := done + FieldNames(m, config, i);
      st' := WalkState(Value(), fields.items, owned');
    }

    /** One pass of `get_field_info`'s loop, on field `i` of `m`, appending to `fields`:
        it does what `FieldStep` computes, adds the keys `FieldNames` names, each with a
        new list, and keeps `owned` telling whether `models[m.name]` is still `fields`. */
    method WalkField(m: Model, config: Json, pr: Printer, i: nat, fields: FieldList, ghost owned: bool)
      returns (err: Option<PyError>, ghost owned': bool)
      requires i < |m.fields|
      requires m.name in models && (owned <==> models[m.name] == fields)
      requires forall k :: k in models && k != m.name ==> models[k] != fields
      modifies this, fields
      decreases m, 0
      ensures err.Some? ==> FieldStep(m, config, i, old(WalkState(Value(), fields.items, owned)), pr) == Err(err.value)
      ensures err.None? ==> FieldStep(m, config, i, old(WalkState(Value(), fields.items, owned)), pr)
                            == Ok(WalkState(Value(), fields.items, owned'))
      ensures err.None? ==> m.name in models && (owned' <==> models[m.name] == fields)
      ensures err.None? ==> forall k :: k in models && k != m.name ==> models[k] != fields
      ensures err.None? ==> models.Keys == old(models.Keys) + FieldNames(m, config, i)
      ensures err.None? ==> forall k :: k in old(models) && k !in FieldNames(m, config, i) ==> models[k] == old(models[k])
      ensures err.None? ==> forall k :: k in FieldNames(m, config, i) ==> fresh(models[k])
    {
      owned' := owned;
      var f := m.fields[i];
      AnnotationIsModel(f.annotation);
      var skip := Excluded(config, m.name, f.name);
      if skip.Err? {
        return Some(skip.error), owned';
      }
      if !skip.value {
        var annotation := AnnotationString(f.annotation);
        var default := DefaultString(f.default, pr);
        if default.Err? {
          return Some(default.error), owned';
        }
        var required := BoolString(f.required);
        if IsPydanticModel(AnnotationValue(f.annotation)) {
          annotation := SubmodelLink(annotation);
          var e := GetFieldInfo(f.annotation.model, config, pr);
          if e.Some? {
            return e, owned';
          }
          owned' := owned && m.name !in Names(f.annotation.model, config);
        }
        Append(m.name, fields, FieldInfo(HighlightName(f.name), annotation, required, default.value), owned');
      }
      err := None;
    }

    /** `fields.append(info)`: the dict shows the new item under `name` exactly when
        `fields` is still the list `name` holds. */
    method Append(name: string, fields: FieldList, info: FieldInfo, ghost owned: bool)
      requires name in models && (owned <==> models[name] == fields)
      requires forall k :: k in models && k != name ==> models[k] != fields
      modifies fields
      ensures fields.items == old(fields.items) + [info]
      ensures Value() == Appended(old(Value()), name, fields.items, owned)
    {
      ghost var before := Value();
      fields.items := fields.items + [info];
      if owned {
        forall k | k in models
          ensures Value().entries[k] == before.entries[name := fields.items][k]
        {
          if k != name {
            assert models[k] != fields;
          }
        }
        assert Value().entries == before.entries[name := fields.items];
      } else {
        assert fields !in models.Values;
        assert Value() == before;
      }
    }
  }
}
