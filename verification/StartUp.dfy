/** The two event types that the service posts when it starts (workflow/Service.go:154-192):
    that they are accepted, and that nothing takes them away. */
module StartUp {
  import opened Json
  import opened Records
  import opened Flattening
  import opened MappingCompiler
  import opened ServiceSpec
  import opened ServiceInvariants
  import opened ServiceRuns
  import opened ServiceContracts
  import DottedNames
  import Example
  import ServiceHistory

  function IngestType(user: string): EventType {
    EventType("", "piazza:ingest",
      map["dataId" := Str("string"), "dataType" := Str("string"), "epsg" := Str("integer"),
          "minX" := Str("double"), "minY" := Str("double"), "maxX" := Str("double"), "maxY" := Str("double"),
          "hosted" := Str("boolean")],
      user, "")
  }

  function ExecuteType(user: string): EventType {
    EventType("", "piazza:executionComplete",
      map["jobId" := Str("string"), "status" := Str("string"), "dataId" := Str("string")], user, "")
  }

  /** A leaf of a mapping may have one of these names, with or without brackets. */
  lemma TypeNames(t: string)
    ensures ValidMapping(Str(t)) && ValidMapping(Str("[" + t + "]")) <==>
            t in {"string", "long", "integer", "short", "byte", "double", "float", "date", "boolean", "binary",
                  "geo_point", "geo_shape", "ip", "completion"}
  {
    BothForms(t);
  }

  lemma BothForms(t: string)
    ensures ValidMapping(Str(t)) && ValidMapping(Str("[" + t + "]")) <==> IsScalarType(t)
  {
    var s := "[" + t + "]";
    assert s[1..|s| - 1] == t;
    if IsArrayType(t) { assert t[0] == '['; }
  }

  /** A mapping without nested objects whose fields all have type names. */
  ghost predicate IsFlat(m: Fields) {
    forall k | k in m :: IsValidMappingType(m[k]) && '~' !in k
  }

  lemma FlatIsSound(m: Fields)
    requires IsFlat(m)
    ensures ValidMapping(Obj(m)) && !HasTildePath(m)
  {
    forall p, x | LeafAt(Obj(m), [], {}, p, x) ensures '~' !in DottedNames.Join(p) { assert p == [p[0]]; }
  }

  lemma SystemTypesAreFlat(user: string)
    ensures IsFlat(IngestType(user).mapping) && IsFlat(ExecuteType(user).mapping)
  {
  }

  /** If no call fails a type with a flat mapping and a free name is answered with 201. */
  lemma FlatTypeCreated(env: Env, s: State, et: EventType, id: Id, now: string, s': State, status: Status, r: EventType)
    requires Integrity(env, s) && NameFree(s, et.name) && IsFlat(et.mapping)
    requires PostsEventType(s, et, id, now, {}, s', status, r)
    ensures status == Created && Integrity(env, s') && HasType(s', et, id, now)
    ensures forall name | name != et.name && NameFree(s, name) :: NameFree(s', name)
  {
    FlatTypeAnswer(env, s, et, id, now, s', status, r);
    PostEventTypeKeeps(env, s, et, id, now, {}, s', status, r);
    CreatedTypeStored(s, et, id, now, {}, s', r);
    OtherNamesFree(s, et, id, now, s');
  }

  lemma FlatTypeAnswer(env: Env, s: State, et: EventType, id: Id, now: string, s': State, status: Status, r: EventType)
    requires Integrity(env, s) && NameFree(s, et.name) && IsFlat(et.mapping)
    requires PostsEventType(s, et, id, now, {}, s', status, r)
    ensures status == Created
  {
    FlatIsSound(et.mapping);
    PostEventTypeMeans(env, s, et, id, now, {}, s', status, r);
  }

  lemma OtherNamesFree(s: State, et: EventType, id: Id, now: string, s': State)
    requires s'.eventTypes == s.eventTypes[id := StoredType(et, id, now)]
    requires s'.schemas.Keys == s.schemas.Keys + {et.name}
    ensures HasType(s', et, id, now)
    ensures forall name | name != et.name && NameFree(s, name) :: NameFree(s', name)
  {
  }

  ghost predicate HasType(s: State, et: EventType, id: Id, now: string) {
    && id in s.eventTypes
    && s.eventTypes[id] == EventType(id, et.name, map[et.name := Obj(et.mapping)], et.createdBy, now)
  }

  /** Where neither name is taken and no call fails, start-up is answered with 201 twice;
      and both types are stored for good, whatever is requested and whatever fails. */
  lemma SystemTypesStay(env: Env, s: State, user: string, now: string, ingest: Id, s1: State, status: Status,
                        r: EventType,
                        execute: Id, s2: State, status': Status, r': EventType, steps: seq<Step>, s3: State)
    requires Integrity(env, s) && NameFree(s, "piazza:ingest") && NameFree(s, "piazza:executionComplete")
    requires PostsEventType(s, IngestType(user), ingest, now, {}, s1, status, r)
    requires PostsEventType(s1, ExecuteType(user), execute, now, {}, s2, status', r')
    requires Runs(env, s2, steps, s3)
    ensures status == status' == Created
    ensures HasType(s3, IngestType(user), ingest, now) && HasType(s3, ExecuteType(user), execute, now)
  {
    SystemTypesAreFlat(user);
    FlatTypeCreated(env, s, IngestType(user), ingest, now, s1, status, r);
    FlatTypeCreated(env, s1, ExecuteType(user), execute, now, s2, status', r');
    TypeKept(env, s1, ExecuteType(user), execute, now, s2, status', r', IngestType(user), ingest);
    SystemTypeStays(env, s2, steps, s3, IngestType(user), ingest, now);
    SystemTypeStays(env, s2, steps, s3, ExecuteType(user), execute, now);
  }

  lemma TypeKept(env: Env, s: State, et: EventType, id: Id, now: string, s': State, status: Status, r: EventType,
                 old': EventType, other: Id)
    requires Integrity(env, s) && PostsEventType(s, et, id, now, {}, s', status, r) && HasType(s, old', other, now)
    ensures HasType(s', old', other, now)
  {
    if id !in s.issued {
      UnusedId(env, s, id);
      PostsEventTypeEffect(s, et, id, now, {}, s', status, r);
    }
  }

  lemma SystemTypeStays(env: Env, s: State, steps: seq<Step>, s': State, et: EventType, id: Id, now: string)
    requires Integrity(env, s) && Runs(env, s, steps, s') && HasType(s, et, id, now)
             && ServiceHistory.IsSystemName(et.name)
    ensures HasType(s', et, id, now)
  {
    ServiceHistory.SystemEventsOnlyGrow(env, s, steps, s');
  }

  /** The service can start from empty stores. */
  lemma CanStart(env: Env, user: string, now: string, ingest: Id, execute: Id)
    returns (s1: State, r: EventType, s2: State, r': EventType)
    requires ingest != execute
    ensures PostsEventType(Initial(map[]), IngestType(user), ingest, now, {}, s1, Created, r)
    ensures PostsEventType(s1, ExecuteType(user), execute, now, {}, s2, Created, r')
  {
    SystemTypesAreFlat(user);
    s1, r := FlatTypePosted(env, Initial(map[]), IngestType(user), ingest, now);
    s2, r' := FlatTypePosted(env, s1, ExecuteType(user), execute, now);
  }

  lemma FlatTypePosted(env: Env, s: State, et: EventType, id: Id, now: string) returns (s': State, r: EventType)
    requires Integrity(env, s) && NameFree(s, et.name) && IsFlat(et.mapping) && id !in s.issued
    ensures PostsEventType(s, et, id, now, {}, s', Created, r) && Integrity(env, s') && s'.issued == s.issued + {id}
    ensures forall name | name != et.name && NameFree(s, name) :: NameFree(s', name)
  {
    FlatIsSound(et.mapping);
    NamedIsEmpty(s, et.name);
    Example.TypePosted(s, et, id, now);
    s', r := Example.WithSchema(s, et, id, now), et.(eventTypeId := id, createdOn := now);
    FlatTypeCreated(env, s, et, id, now, s', Created, r);
  }
}
