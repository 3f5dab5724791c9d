/** The schema filter of the model generator (`scripts/generate_models.py`):
    the `$ref` names a schema mentions, and the worklist that closes the
    required schemas under those references. */
module GenerateModels {
  import opened Wrappers
  import opened JsonValue
  import opened Text

  const SchemaRefPrefix: string := "#/components/schemas/"

  /** `REQUIRED_SCHEMAS`, in the order the script lists them; the script
      holds them in a set, and the filter does not depend on their order. */
  const RequiredSchemas: seq<string> := [
    "Account", "Vehicle", "Sensor", "VehicleState", "Interpretation",
    "DefaultLanguageEnum", "TimezoneEnum", "BlankEnum", "NullEnum", "FuelUsedSource", "FuelTypeEnum",
    "Activity2", "Workhour", "Type12", "Location12", "Trail", "Interpretation1"]

  // ---------------------------------------------------------------------
  // References

  /** The name an object's own `$ref` contributes: the last path segment of
      a reference into the schemas, nothing for any other reference. */
  function OwnRef(fields: map<string, Json>): (r: set<string>)
    ensures r != {} <==> "$ref" in fields && fields["$ref"].JStr? && StartsWith(fields["$ref"].s, SchemaRefPrefix)
    ensures |r| <= 1
    ensures forall n :: n in r ==> '/' !in n
  {
    if "$ref" in fields && fields["$ref"].JStr? && StartsWith(fields["$ref"].s, SchemaRefPrefix) then
      {LastSegment(fields["$ref"].s, '/')}
    else {}
  }

  /** The schema names referenced anywhere in a JSON value, at any depth of
      objects and arrays. */
  function Refs(j: Json): (r: set<string>)
    ensures forall n :: n in r ==> '/' !in n
    decreases j
  {
    match j
    case JArr(items) => set i, n | 0 <= i < |items| && n in Refs(items[i]) :: n
    case JObj(fields) => OwnRef(fields) + set k, n | k in fields && n in Refs(fields[k]) :: n
    case _ => {}
  }

  /** The references under some of an object's keys. */
  ghost function Under(fields: map<string, Json>, keys: set<string>): set<string>
  {
    set k, n | k in keys && k in fields && n in Refs(fields[k]) :: n
  }

  /** The references of the first `i` items of an array. */
  ghost function Upto(items: seq<Json>, i: nat): set<string>
  {
    set j, n | 0 <= j < i && j < |items| && n in Refs(items[j]) :: n
  }

  lemma UnderAdd(fields: map<string, Json>, keys: set<string>, k: string)
    requires k in fields
    ensures Under(fields, keys + {k}) == Under(fields, keys) + Refs(fields[k])
  {
    forall n | n in Under(fields, keys + {k})
      ensures n in Under(fields, keys) + Refs(fields[k])
    {
      var k' :| k' in keys + {k} && k' in fields && n in Refs(fields[k']);
      if k' != k {
        assert n in Under(fields, keys);
      }
    }
    forall n | n in Refs(fields[k])
      ensures n in Under(fields, keys + {k})
    {
    }
  }

  lemma UnderAll(fields: map<string, Json>)
    ensures OwnRef(fields) + Under(fields, fields.Keys) == Refs(JObj(fields))
  {
  }

  lemma UptoAdd(items: seq<Json>, i: nat)
    requires i < |items|
    ensures Upto(items, i + 1) == Upto(items, i) + Refs(items[i])
  {
    forall n | n in Upto(items, i + 1)
      ensures n in Upto(items, i) + Refs(items[i])
    {
      var j :| 0 <= j < i + 1 && j < |items| && n in Refs(items[j]);
      if j != i {
        assert n in Upto(items, i);
      }
    }
    forall n | n in Refs(items[i])
      ensures n in Upto(items, i + 1)
    {
    }
  }

  lemma UptoAll(items: seq<Json>)
    ensures Upto(items, |items|) == Refs(JArr(items))
  {
  }

  /** An object's references include those of every value it holds: a
      schema name referenced at any depth is collected. */
  lemma RefsOfObject(fields: map<string, Json>, k: string)
    requires k in fields
    ensures Refs(fields[k]) <= Refs(JObj(fields))
  {
  }

  /** A reference into the schemas names its last segment. */
  lemma RefNamesLastSegment(fields: map<string, Json>, name: string)
    requires "$ref" in fields && fields["$ref"] == JStr(SchemaRefPrefix + name) && '/' !in name
    ensures name in Refs(JObj(fields))
  {
    var s := SchemaRefPrefix + name;
    assert s[..|SchemaRefPrefix|] == SchemaRefPrefix;
    LastSegmentAfterSlash(SchemaRefPrefix, name);
  }

  lemma {:induction false} LastSegmentAfterSlash(prefix: string, name: string)
    requires '/' !in name && |prefix| > 0 && prefix[|prefix| - 1] == '/'
    ensures LastSegment(prefix + name, '/') == name
    decreases |name|
  {
    if name == [] {
      assert prefix + name == prefix;
    } else {
      var init := name[..|name| - 1];
      assert (prefix + name)[..|prefix + name| - 1] == prefix + init;
      LastSegmentAfterSlash(prefix, init);
      assert init + [name[|name| - 1]] == name;
    }
  }

  /** `search(obj)` in `find_schema_dependencies`: a recursive walk adding
      each reference to the shared `deps` set. */
  method Search(obj: Json, deps: set<string>) returns (out: set<string>)
    ensures out == deps + Refs(obj)
    decreases obj, 1
  {
    match obj {
      case JObj(fields) =>
        out := SearchFields(obj, fields, deps + OwnRef(fields));
        UnderAll(fields);
        assert out == deps + (OwnRef(fields) + Under(fields, fields.Keys));
      case JArr(items) =>
        out := SearchItems(obj, items, deps);
        UptoAll(items);
      case _ =>
        out := deps;
    }
  }

  /** `for value in obj.values(): search(value)` */
  method SearchFields(ghost parent: Json, fields: map<string, Json>, deps: set<string>) returns (out: set<string>)
    requires parent == JObj(fields)
    ensures out == deps + Under(fields, fields.Keys)
    decreases parent, 0
  {
    out := deps;
    var keys := fields.Keys;
    ghost var done: set<string> := {};
    while keys != {}
      invariant keys + done == fields.Keys && keys !! done
      invariant out == deps + Under(fields, done)
      decreases |keys|
    {
      var k :| k in keys;
      out := Search(fields[k], out);
      UnderAdd(fields, done, k);
      keys := keys - {k};
      done := done + {k};
    }
  }

  /** `for item in obj: search(item)` */
  method SearchItems(ghost parent: Json, items: seq<Json>, deps: set<string>) returns (out: set<string>)
    requires parent == JArr(items)
    ensures out == deps + Upto(items, |items|)
    decreases parent, 0
  {
    out := deps;
    for i := 0 to |items|
      invariant out == deps + Upto(items, i)
    {
      UptoAdd(items, i);
      ghost var before := out;
      out := Search(items[i], out);
      assert out == deps + (Upto(items, i) + Refs(items[i])) by {
        assert before == deps + Upto(items, i);
      }
    }
  }

  /** `find_schema_dependencies` */
  method FindSchemaDependencies(schema: Json) returns (deps: set<string>)
    ensures deps == Refs(schema)
  {
    deps := Search(schema, {});
  }

  // ---------------------------------------------------------------------
  // The worklist

  /** Every name a schema refers to, across all schemas. */
  ghost function AllRefs(schemas: map<string, Json>): set<string>
  {
    set name, n | name in schemas && n in Refs(schemas[name]) :: n
  }

  /** A set of names closed under the references of the schemas it holds. */
  ghost predicate Closed(names: set<string>, schemas: map<string, Json>)
  {
    forall name :: name in names && name in schemas ==> Refs(schemas[name]) <= names
  }

  /** Every root is among the names. */
  ghost predicate HasRoots(names: set<string>, roots: seq<string>)
  {
    forall i :: 0 <= i < |roots| ==> roots[i] in names
  }

  /** The names lie inside every set that holds the roots and is closed
      under references: only what the roots reach. */
  ghost predicate Reached(names: set<string>, schemas: map<string, Json>, roots: seq<string>)
  {
    forall s :: HasRoots(s, roots) && Closed(s, schemas) ==> names <= s
  }

  /** Requiring the references of a required schema keeps the required
      names reachable. */
  lemma ReachedExpand(schemas: map<string, Json>, roots: seq<string>, required: set<string>,
                      name: string, added: set<string>)
    requires Reached(required, schemas, roots)
    requires name in required && name in schemas && added <= Refs(schemas[name])
    ensures Reached(required + added, schemas, roots)
  {
    forall s | HasRoots(s, roots) && Closed(s, schemas) ensures required + added <= s {
      assert name in s;
    }
  }

  /** The inner loop: each dependency not yet processed is required and
      queued. */
  method Enqueue(deps: set<string>, processed: set<string>, required: set<string>, queue: seq<string>)
    returns (required': set<string>, queue': seq<string>)
    ensures required' == required + (deps - processed)
    ensures forall x :: x in queue' <==> x in queue || x in deps - processed
  {
    required' := required;
    queue' := queue;
    var rest := deps;
    while rest != {}
      invariant rest <= deps
      invariant forall x :: x in required' <==> x in required || (x in deps && x !in rest && x !in processed)
      invariant forall x :: x in queue' <==> x in queue || (x in deps && x !in rest && x !in processed)
      decreases rest
    {
      var dep :| dep in rest;
      if dep !in processed {
        required' := required' + {dep};
        queue' := queue' + [dep];
      }
      rest := rest - {dep};
    }
    assert required' == required + (deps - processed);
  }

  /** The state of the worklist between pops: every required name was
      processed or waits in the queue; every reference of a processed schema
      was processed or waits; `expanded` lists the processed names that have
      a schema, each once. */
  ghost predicate Visited(schemas: map<string, Json>, roots: seq<string>, universe: set<string>,
                          required: set<string>, queue: seq<string>, processed: set<string>, expanded: seq<string>)
  {
    processed <= required <= universe
    && (forall n :: n in queue ==> n in required)
    && (forall i :: 0 <= i < |roots| ==> roots[i] in required)
    && (forall n :: n in required ==> n in processed || n in queue)
    && (forall n, d :: n in processed && n in schemas && d in Refs(schemas[n]) ==> d in processed || d in queue)
    && (forall i, j :: 0 <= i < j < |expanded| ==> expanded[i] != expanded[j])
    && (forall n :: n in expanded <==> n in processed && n in schemas)
  }

  /** Popping a name already processed changes nothing else. */
  lemma PopProcessed(schemas: map<string, Json>, roots: seq<string>, universe: set<string>,
                     required: set<string>, queue: seq<string>, processed: set<string>, expanded: seq<string>)
    requires Visited(schemas, roots, universe, required, queue, processed, expanded)
    requires queue != [] && queue[|queue| - 1] in processed
    ensures Visited(schemas, roots, universe, required, queue[..|queue| - 1], processed, expanded)
  {
    var init := queue[..|queue| - 1];
    assert forall x :: x in queue ==> x in init || x == queue[|queue| - 1];
  }

  /** Popping a name without a schema marks it processed. */
  lemma PopMissing(schemas: map<string, Json>, roots: seq<string>, universe: set<string>,
                   required: set<string>, queue: seq<string>, processed: set<string>, expanded: seq<string>)
    requires Visited(schemas, roots, universe, required, queue, processed, expanded)
    requires queue != [] && queue[|queue| - 1] !in schemas
    ensures queue[|queue| - 1] in universe
    ensures Visited(schemas, roots, universe, required, queue[..|queue| - 1],
                    processed + {queue[|queue| - 1]}, expanded)
  {
    var init := queue[..|queue| - 1];
    assert forall x :: x in queue ==> x in init || x == queue[|queue| - 1];
  }

  /** Popping a name with a schema marks it processed, appends it to
      `expanded`, and requires and queues its unprocessed references. */
  lemma PopExpand(schemas: map<string, Json>, roots: seq<string>, universe: set<string>,
                  required: set<string>, queue: seq<string>, processed: set<string>, expanded: seq<string>,
                  required': set<string>, queue': seq<string>)
    requires Visited(schemas, roots, universe, required, queue, processed, expanded)
    requires queue != [] && queue[|queue| - 1] !in processed && queue[|queue| - 1] in schemas
    requires Refs(schemas[queue[|queue| - 1]]) <= universe
    requires var done := processed + {queue[|queue| - 1]};
      required' == required + (Refs(schemas[queue[|queue| - 1]]) - done)
      && forall x :: x in queue' <==> x in queue[..|queue| - 1] || x in Refs(schemas[queue[|queue| - 1]]) - done
    ensures queue[|queue| - 1] in universe
    ensures Visited(schemas, roots, universe, required', queue',
                    processed + {queue[|queue| - 1]}, expanded + [queue[|queue| - 1]])
  {
    var name := queue[|queue| - 1];
    var init := queue[..|queue| - 1];
    var done := processed + {name};
    var deps := Refs(schemas[name]);
    assert forall x :: x in queue ==> x in init || x == name;
    assert name in required;
    forall n | n in required'
      ensures n in done || n in queue'
    {
      if n in required && n !in done {
        assert n in queue;
      }
    }
    forall n, d | n in done && n in schemas && d in Refs(schemas[n])
      ensures d in done || d in queue'
    {
      if n == name {
        assert d in deps;
      } else if d !in done {
        assert d in queue;
      }
    }
    var e := expanded + [name];
    assert forall i :: 0 <= i < |expanded| ==> e[i] == expanded[i];
    assert name !in expanded;
  }

  /** The `while to_process` loop of `extract_required_schemas`: from the
      roots, pop a name, skip it if already processed, mark it processed,
      and queue the unprocessed dependencies of its schema if it has one.
      `expanded` lists the schemas whose dependencies were read, in order. */
  method Close(schemas: map<string, Json>, roots: seq<string>) returns (required: set<string>, expanded: seq<string>)
    ensures forall i :: 0 <= i < |roots| ==> roots[i] in required
    ensures Closed(required, schemas)
    ensures required <= (set i | 0 <= i < |roots| :: roots[i]) + AllRefs(schemas)
    ensures Reached(required, schemas, roots)
    ensures forall i, j :: 0 <= i < j < |expanded| ==> expanded[i] != expanded[j]
    ensures forall n :: n in expanded <==> n in required && n in schemas
  {
    ghost var universe := (set i | 0 <= i < |roots| :: roots[i]) + AllRefs(schemas);
    required := set i | 0 <= i < |roots| :: roots[i];
    var queue := roots;
    var processed: set<string> := {};
    expanded := [];
    while queue != []
      invariant Visited(schemas, roots, universe, required, queue, processed, expanded)
      invariant Reached(required, schemas, roots)
      decreases |universe - processed|, |queue|
    {
      var name := queue[|queue| - 1];
      if name in processed {
        PopProcessed(schemas, roots, universe, required, queue, processed, expanded);
        queue := queue[..|queue| - 1];
        continue;
      }
      if name !in schemas {
        PopMissing(schemas, roots, universe, required, queue, processed, expanded);
        assert universe - (processed + {name}) < universe - processed;
        queue, processed := queue[..|queue| - 1], processed + {name};
        continue;
      }
      var deps := FindSchemaDependencies(schemas[name]);
      assert deps <= AllRefs(schemas);
      var required', queue' := Enqueue(deps, processed + {name}, required, queue[..|queue| - 1]);
      PopExpand(schemas, roots, universe, required, queue, processed, expanded, required', queue');
      ReachedExpand(schemas, roots, required, name, deps - (processed + {name}));
      assert universe - (processed + {name}) < universe - processed;
      required, queue, processed, expanded := required', queue', processed + {name}, expanded + [name];
    }
  }

  /** `spec.get("components", {}).get("schemas", {})` for a spec whose
      components and schemas are objects. */
  function Schemas(spec: map<string, Json>): map<string, Json>
  {
    var components := Get(spec, "components", JObj(map[]));
    if components.JObj? then
      var schemas := Get(components.fields, "schemas", JObj(map[]));
      if schemas.JObj? then schemas.fields else map[]
    else map[]
  }

  /** The filtered spec around the kept schemas. */
  function FilteredSpec(spec: map<string, Json>, kept: map<string, Json>): (r: map<string, Json>)
    ensures r.Keys == {"openapi", "info", "paths", "components"}
    ensures r["openapi"] == Get(spec, "openapi", JStr("3.0.3")) && r["info"] == Get(spec, "info", JObj(map[]))
    ensures r["paths"] == JObj(map[]) && r["components"] == JObj(map["schemas" := JObj(kept)])
  {
    map["openapi" := Get(spec, "openapi", JStr("3.0.3")), "info" := Get(spec, "info", JObj(map[])),
        "paths" := JObj(map[]), "components" := JObj(map["schemas" := JObj(kept)])]
  }

  /** `extract_required_schemas` from the given roots: the kept schemas are
      input schemas with their values unchanged, every root the input has is
      kept, every reference of a kept schema that the input has is kept too,
      and nothing is kept that the roots do not reach. */
  method ExtractRequiredSchemas(spec: map<string, Json>, roots: seq<string>)
    returns (out: map<string, Json>, kept: map<string, Json>)
    ensures out == FilteredSpec(spec, kept)
    ensures forall n :: n in kept ==> n in Schemas(spec) && kept[n] == Schemas(spec)[n]
    ensures forall i :: 0 <= i < |roots| && roots[i] in Schemas(spec) ==> roots[i] in kept
    ensures forall n, d :: n in kept && d in Refs(kept[n]) && d in Schemas(spec) ==> d in kept
    ensures Reached(kept.Keys, Schemas(spec), roots)
  {
    var schemas := Schemas(spec);
    var required, _ := Close(schemas, roots);
    kept := map k | k in schemas && k in required :: schemas[k];
    out := FilteredSpec(spec, kept);
  }

  /** `extract_required_schemas(spec)` as the script calls it, with
      `REQUIRED_SCHEMAS` as the roots: every required schema the input has
      is kept, with everything it references, and nothing else. */
  method ExtractModelSchemas(spec: map<string, Json>) returns (out: map<string, Json>, kept: map<string, Json>)
    ensures out == FilteredSpec(spec, kept)
    ensures forall n :: n in kept ==> n in Schemas(spec) && kept[n] == Schemas(spec)[n]
    ensures forall n :: n in RequiredSchemas && n in Schemas(spec) ==> n in kept
    ensures forall n, d :: n in kept && d in Refs(kept[n]) && d in Schemas(spec) ==> d in kept
    ensures Reached(kept.Keys, Schemas(spec), RequiredSchemas)
  {
    out, kept := ExtractRequiredSchemas(spec, RequiredSchemas);
  }
}
