/** From an event type's mapping to the strict schema of the event store
    (workflow/EventDB.go), and back. */
module MappingCompiler {
  import opened Json

  // ---------------------------------------------------------------- type names

  const SCALAR_TYPES := {
    "string", "long", "integer", "short", "byte", "double", "float", "date", "boolean",
    "binary", "geo_point", "geo_shape", "ip", "completion"}

  predicate IsScalarType(s: string) {
    s in SCALAR_TYPES
  }

  /** A scalar type name in square brackets. */
  predicate IsArrayType(s: string) {
    |s| >= 2 && s[0] == '[' && s[|s| - 1] == ']' && IsScalarType(s[1..|s| - 1])
  }

  predicate IsGeoType(s: string) {
    s == "geo_point" || s == "geo_shape"
  }

  /** The type of the values: the name without its brackets. */
  function ElementType(s: string): string {
    if IsArrayType(s) then s[1..|s| - 1] else s
  }

  predicate IsValidMappingType(v: Json) {
    v.Str? && (IsScalarType(v.s) || IsArrayType(v.s))
  }

  predicate IsValidArrayTypeMapping(v: Json) {
    v.Str? && IsArrayType(v.s)
  }

  // ---------------------------------------------------------------- the compiler

  /** Every leaf is the name of a type. */
  ghost predicate ValidMapping(m: Json)
    decreases m
  {
    if m.Obj? then forall k | k in m.fields :: ValidMapping(m.fields[k]) else IsValidMappingType(m)
  }

  /** The schema of one leaf. */
  function LeafSchema(s: string): Json {
    Obj(map["type" := Str(ElementType(s))])
  }

  /** The schema of a nested object with the given properties. */
  function TreeSchema(properties: Fields): Json {
    Obj(map["dynamic" := Str("strict"), "properties" := Obj(properties)])
  }

  ghost function Schema(m: Json): Json
    requires ValidMapping(m)
    decreases m, 1
  {
    if m.Obj? then TreeSchema(SchemaFields(m)) else LeafSchema(m.s)
  }

  ghost function SchemaFields(m: Json): Fields
    requires m.Obj? && ValidMapping(m)
    decreases m, 0
  {
    map k | k in m.fields :: Schema(m.fields[k])
  }

  // ---------------------------------------------------------------- the types in a schema

  /** The mapping has the leaf s at the path. */
  ghost predicate LeafIs(m: Json, path: seq<string>, s: string)
    decreases |path|
  {
    if path == [] then m == Str(s)
    else m.Obj? && path[0] in m.fields && LeafIs(m.fields[path[0]], path[1..], s)
  }

  /** The schema has the type t, and nothing else, at the path of properties. */
  ghost predicate TypeAt(schema: Json, path: seq<string>, t: string)
    decreases |path|
  {
    if path == [] then schema == Obj(map["type" := Str(t)])
    else
      && schema.Obj? && "properties" in schema.fields && schema.fields["properties"].Obj?
      && path[0] in schema.fields["properties"].fields
      && TypeAt(schema.fields["properties"].fields[path[0]], path[1..], t)
  }

  /** The schema has a type where the mapping has a leaf: a scalar type, for the name of the
      type itself and for the name in square brackets. */
  ghost predicate HasTypesOf(schema: Json, m: Json) {
    forall path, t ::
      TypeAt(schema, path, t) <==> IsScalarType(t) && (LeafIs(m, path, t) || LeafIs(m, path, "[" + t + "]"))
  }

  /** The brackets are recognised around the scalar type names and nowhere else. */
  lemma LeafTypes(s: string)
    ensures IsArrayType(s) <==> exists t :: IsScalarType(t) && s == "[" + t + "]"
    ensures IsValidMappingType(Str(s)) <==>
            exists t :: IsScalarType(t) && (s == t || s == "[" + t + "]")
    ensures forall t :: IsScalarType(t) && (s == t || s == "[" + t + "]") ==>
            LeafSchema(s) == Obj(map["type" := Str(t)])
  {
    if IsArrayType(s) { Brackets(s, s[1..|s| - 1]); }
    forall t | s == "[" + t + "]" ensures s[1..|s| - 1] == t { Brackets(s, t); }
    assert forall t :: IsScalarType(t) ==> t != "" && t[0] != '[';
  }

  lemma Brackets(s: string, t: string)
    ensures s == "[" + t + "]" <==> |s| >= 2 && s[0] == '[' && s[|s| - 1] == ']' && s[1..|s| - 1] == t
  {
    if |s| >= 2 && s[0] == '[' && s[|s| - 1] == ']' && s[1..|s| - 1] == t {
      var u := "[" + t + "]";
      assert |u| == |s| && forall i | 0 <= i < |s| :: u[i] == s[i];
    }
  }

  lemma {:induction false} SchemaHasTypes(m: Json, path: seq<string>, t: string)
    requires ValidMapping(m)
    ensures TypeAt(Schema(m), path, t) <==>
            IsScalarType(t) && (LeafIs(m, path, t) || LeafIs(m, path, "[" + t + "]"))
    decreases |path|
  {
    if m.Str? {
      LeafHasType(m.s, path, t);
    } else if path == [] {
      assert "dynamic" in Schema(m).fields;
    } else {
      assert Schema(m).fields["properties"] == Obj(SchemaFields(m));
      if path[0] in m.fields { SchemaHasTypes(m.fields[path[0]], path[1..], t); }
    }
  }

  lemma LeafHasType(s: string, path: seq<string>, t: string)
    requires IsValidMappingType(Str(s))
    ensures TypeAt(LeafSchema(s), path, t) <==>
            IsScalarType(t) && (LeafIs(Str(s), path, t) || LeafIs(Str(s), path, "[" + t + "]"))
  {
    LeafTypes(s);
    var u :| IsScalarType(u) && (s == u || s == "[" + u + "]");
    assert LeafSchema(s).fields["type"] == Str(u) && "properties" !in LeafSchema(s).fields;
    SameElement(s, t, u);
  }

  /** A leaf names one type. */
  lemma SameElement(s: string, t: string, u: string)
    requires IsScalarType(u) && (s == u || s == "[" + u + "]")
    ensures IsScalarType(t) && (s == t || s == "[" + t + "]") <==> t == u
  {
    assert forall v :: IsScalarType(v) ==> v != "" && v[0] != '[';
    if s == "[" + t + "]" { assert s[1..|s| - 1] == t; }
    if s == "[" + u + "]" { assert s[1..|s| - 1] == u; }
  }

  /** What the compiled schema says of the types. */
  lemma TypesOfSchema(m: Json)
    requires ValidMapping(m)
    ensures HasTypesOf(Schema(m), m)
  {
    forall path, t
      ensures TypeAt(Schema(m), path, t) <==>
              IsScalarType(t) && (LeafIs(m, path, t) || LeafIs(m, path, "[" + t + "]"))
    {
      SchemaHasTypes(m, path, t);
    }
  }

  // ---------------------------------------------------------------- the walk

  datatype Compiled = Ok(schema: Fields) | Failed

  /** visitNodeE: fails exactly when some leaf is not a type name, whatever the
      iteration order; otherwise the schema has the mapping's shape, and the types that its
      leaves name. */
  method VisitNode(input: Fields) returns (r: Compiled)
    ensures r.Ok? <==> ValidMapping(Obj(input))
    ensures r.Ok? ==> r.schema == SchemaFields(Obj(input)) && HasTypesOf(TreeSchema(r.schema), Obj(input))
    decreases Obj(input)
  {
    ghost var m := Obj(input);
    var output: Fields := map[];
    var todo := input.Keys;
    while todo != {}
      invariant todo <= input.Keys && output.Keys == input.Keys - todo
      invariant forall k | k in output :: ValidMapping(input[k]) && output[k] == Schema(input[k])
      decreases |todo|
    {
      var k :| k in todo;
      var v := input[k];
      if v.Str? {
        if !IsValidMappingType(v) { return Failed; }
        output := output[k := LeafSchema(v.s)];
      } else if v.Obj? {
        var subtree := VisitNode(v.fields);
        if subtree.Failed? { return Failed; }
        output := output[k := TreeSchema(subtree.schema)];
      } else {
        return Failed;
      }
      todo := todo - {k};
    }
    assert output == SchemaFields(m);
    TypesOfSchema(m);
    return Ok(output);
  }

  /** The nested part of ConstructEventMappingSchema: the schema under "data". */
  method ConstructEventMappingSchema(mapping: Fields) returns (r: Compiled)
    ensures r.Ok? <==> ValidMapping(Obj(mapping))
    ensures r.Ok? ==> Obj(r.schema) == Schema(Obj(mapping)) && HasTypesOf(Obj(r.schema), Obj(mapping))
  {
    var properties := VisitNode(mapping);
    if properties.Failed? { return Failed; }
    r := Ok(TreeSchema(properties.schema).fields);
  }

  // ---------------------------------------------------------------- decompiling

  /** u is the mapping m with the brackets of its array types removed. */
  ghost predicate IsUnbracketed(m: Json, u: Json)
    decreases m
  {
    if m.Obj? then
      u.Obj? && u.fields.Keys == m.fields.Keys && forall k | k in m.fields :: IsUnbracketed(m.fields[k], u.fields[k])
    else u.Str? && IsScalarType(u.s) && (m == u || m == Str("[" + u.s + "]"))
  }

  /** Reads a schema as a mapping. */
  ghost function Decompile(s: Json): Json
    decreases s
  {
    if s.Obj? && "properties" in s.fields && s.fields["properties"].Obj? then
      var ps := s.fields["properties"];
      assert ps < s;
      Obj(map k | k in ps.fields :: Decompile(ps.fields[k]))
    else if s.Obj? && "type" in s.fields then s.fields["type"]
    else Null
  }

  /** The schema tells everything about the mapping but the brackets. */
  lemma {:induction false} DecompileSchema(m: Json)
    requires ValidMapping(m)
    ensures IsUnbracketed(m, Decompile(Schema(m)))
    decreases m
  {
    if m.Obj? {
      forall k | k in m.fields ensures IsUnbracketed(m.fields[k], Decompile(Schema(m.fields[k]))) {
        DecompileSchema(m.fields[k]);
      }
      var ps := Obj(SchemaFields(m));
      assert Schema(m).fields["properties"] == ps;
    } else {
      LeafTypes(m.s);
    }
  }

  /** Every object of the schema that has properties is strict. */
  ghost predicate StrictThroughout(s: Json)
    decreases s
  {
    s.Obj? && "properties" in s.fields && s.fields["properties"].Obj? ==>
      && "dynamic" in s.fields && s.fields["dynamic"] == Str("strict")
      && var ps := s.fields["properties"];
         assert ps < s;
         forall k | k in ps.fields :: StrictThroughout(ps.fields[k])
  }

  lemma {:induction false} SchemaIsStrict(m: Json)
    requires ValidMapping(m)
    ensures StrictThroughout(Schema(m))
    decreases m
  {
    if m.Obj? {
      forall k | k in m.fields ensures StrictThroughout(Schema(m.fields[k])) { SchemaIsStrict(m.fields[k]); }
      assert Schema(m).fields["properties"] == Obj(SchemaFields(m));
    }
  }

  // ---------------------------------------------------------------- how the store uses it

  /** Whether the store can parse a value of the given kind as the given type. */
  type Parser = (string, Json) -> bool

  /** A field of a basic type takes a value or an array of values, and null; only
      geographic types take objects. */
  predicate LeafAccepts(parses: Parser, typ: string, v: Json)
    decreases v
  {
    match v
    case Null => true
    case Arr(xs) => forall i | 0 <= i < |xs| :: LeafAccepts(parses, typ, xs[i])
    case Obj(_) => IsGeoType(typ) && parses(typ, v)
    case _ => parses(typ, v)
  }

  /** The store's check of a value against a compiled schema: an object field takes an
      object, null, or an array of those, and a strict one no undeclared keys. */
  predicate SchemaAccepts(parses: Parser, schema: Json, v: Json)
    decreases v
  {
    if !schema.Obj? then false
    else if "properties" in schema.fields then
      match v
      case Null => true
      case Arr(xs) => forall i | 0 <= i < |xs| :: SchemaAccepts(parses, schema, xs[i])
      case Obj(m) =>
        var ps := schema.fields["properties"];
        ps.Obj? && forall k | k in m ::
          if k in ps.fields then SchemaAccepts(parses, ps.fields[k], m[k])
          else !("dynamic" in schema.fields && schema.fields["dynamic"] == Str("strict"))
      case _ => false
    else "type" in schema.fields && schema.fields["type"].Str? && LeafAccepts(parses, schema.fields["type"].s, v)
  }

  /** The same said of the mapping itself. */
  ghost predicate Conforms(parses: Parser, m: Json, v: Json)
    decreases v
  {
    match m
    case Obj(ms) =>
      (match v
       case Null => true
       case Arr(xs) => forall i | 0 <= i < |xs| :: Conforms(parses, m, xs[i])
       case Obj(vs) => forall k | k in vs :: k in ms && Conforms(parses, ms[k], vs[k])
       case _ => false)
    case Str(t) => LeafAccepts(parses, ElementType(t), v)
    case _ => false
  }

  /** What conforms to a leaf: null, any array of what conforms, an object if the type is
      geographic and the store can parse it, and any other value that it can parse; the
      brackets make no difference. */
  lemma LeafConforms(parses: Parser, t: string, v: Json)
    requires IsScalarType(t)
    ensures Conforms(parses, Str("[" + t + "]"), v) <==> Conforms(parses, Str(t), v)
    ensures Conforms(parses, Str(t), Null)
    ensures v.Arr? ==>
              (Conforms(parses, Str(t), v) <==>
               forall i | 0 <= i < |v.items| :: Conforms(parses, Str(t), v.items[i]))
    ensures v.Obj? ==> (Conforms(parses, Str(t), v) <==> t in {"geo_point", "geo_shape"} && parses(t, v))
    ensures v.Bool? || v.Num? || v.Str? ==> (Conforms(parses, Str(t), v) <==> parses(t, v))
  {
    ElementOf(t);
  }

  lemma ElementOf(t: string)
    requires IsScalarType(t)
    ensures ElementType(t) == t && ElementType("[" + t + "]") == t
  {
    var s := "[" + t + "]";
    assert s[1..|s| - 1] == t;
    assert t != "" && t[0] != '[';
  }

  /** The compiled schema accepts exactly what conforms to the mapping. */
  lemma {:induction false} SchemaMeaning(parses: Parser, m: Json, v: Json)
    requires ValidMapping(m)
    ensures SchemaAccepts(parses, Schema(m), v) == Conforms(parses, m, v)
    decreases v
  {
    if m.Obj? {
      var schema := Schema(m);
      assert schema.fields["properties"] == Obj(SchemaFields(m)) && schema.fields["dynamic"] == Str("strict");
      match v
      case Arr(xs) =>
        forall i | 0 <= i < |xs| ensures SchemaAccepts(parses, schema, xs[i]) == Conforms(parses, m, xs[i]) {
          SchemaMeaning(parses, m, xs[i]);
        }
      case Obj(vs) =>
        forall k | k in vs && k in m.fields
          ensures SchemaAccepts(parses, Schema(m.fields[k]), vs[k]) == Conforms(parses, m.fields[k], vs[k])
        {
          SchemaMeaning(parses, m.fields[k], vs[k]);
        }
      case _ =>
    } else {
      assert "properties" !in LeafSchema(m.s).fields;
    }
  }
}
