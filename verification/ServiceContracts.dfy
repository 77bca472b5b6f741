/** What a caller of each operation gets from sound stores: exactly when it succeeds, what
    is then true of the stores, and what an unsuccessful call leaves behind. */
module ServiceContracts {
  import opened Json
  import opened Records
  import opened Flattening
  import opened MappingCompiler
  import opened ServiceSpec
  import opened ServiceInvariants
  import opened ServiceRuns
  import CronAgreement
  import DottedNames
  import EndToEnd
  import EventValidator
  import FanOut
  import FanOutSafety
  import JobsSent
  import JobTemplate
  import Orphans
  import Precheck
  import ServiceHistory
  import TriggerHistory

  // ---------------------------------------------------------------- event types

  /** A leaf of the mapping has a tilde in its dotted path. */
  ghost predicate HasTildePath(m: Fields) {
    exists p, x :: LeafAt(Obj(m), [], {}, p, x) && '~' in DottedNames.Join(p)
  }

  lemma TildeInEveryOutcome(m: Fields, vars: map<string, Var>)
    requires IsVars(m, {}, vars)
    ensures HasTilde(vars) <==> HasTildePath(m)
  {
    VarsCollected(m, {}, vars);
    if HasTilde(vars) {
      var k :| k in vars && '~' in k;
      var p :| LeafAt(Obj(m), [], {}, p, vars[k]) && k == DottedNames.Join([] + p);
      assert [] + p == p;
    }
    if HasTildePath(m) {
      var p, x :| LeafAt(Obj(m), [], {}, p, x) && '~' in DottedNames.Join(p);
      assert [] + p == p && p[0] in m.Keys;
      assert DottedNames.Join(p) in vars;
    }
  }

  predicate NewTypeCallsWork(fails: Faults) {
    ReadSchemas !in fails && FindName !in fails && WriteType !in fails && WriteSchema !in fails
  }

  /** Neither a stored type nor the event index has the name. */
  predicate NameFree(s: State, name: string) {
    name !in s.schemas && forall id | id in s.eventTypes :: s.eventTypes[id].name != name
  }

  /** An event type is created if and only if its name is free, every leaf of its mapping is
      a type name, no dotted path has a tilde and no call fails. It is then stored under a
      new id, and the index takes the data that conforms to the mapping. */
  ghost predicate TypeContract(env: Env, s: State, et: EventType, id: Id, now: string, fails: Faults,
                               s': State, status: Status)
  {
    && (status == Created <==>
          && NameFree(s, et.name) && ValidMapping(Obj(et.mapping)) && !HasTildePath(et.mapping)
          && NewTypeCallsWork(fails))
    && (status == Created ==>
          && id !in s.issued
          && s'.eventTypes ==
               s.eventTypes[id := EventType(id, et.name, map[et.name := Obj(et.mapping)], et.createdBy, now)]
          && (forall d :: IndexTakes(env, s', et.name, AddUniqueParams(et.name, d)) <==>
                          Conforms(env.parses, Obj(et.mapping), Obj(d))))
    && (status != Created ==>
          && s'.schemas == s.schemas
          && (ServiceHistory.SameStores(s, s') <==> !ServiceHistory.TypeStranded(fails, status)))
    && s' == s.(eventTypes := s'.eventTypes, schemas := s'.schemas, issued := s'.issued)
    && TypeAnswer(s, et, fails, status)
  }

  /** A type that is not created is answered with 400 if its name is taken or has a tilde in
      a dotted path, with 500 if a call fails that is made, else with either. */
  ghost predicate TypeAnswer(s: State, et: EventType, fails: Faults, status: Status) {
    && (status == Created || status == BadRequest || status == InternalError)
    && (ReadSchemas in fails || (FindName in fails && et.name !in s.schemas) ==> status == InternalError)
    && (ReadSchemas !in fails && FindName !in fails && (!NameFree(s, et.name) || HasTildePath(et.mapping)) ==>
          status == BadRequest)
    && (NameFree(s, et.name) && ValidMapping(Obj(et.mapping)) && !HasTildePath(et.mapping) ==>
          (status == InternalError <==> !NewTypeCallsWork(fails)))
  }

  lemma RefusedKeepsSchemas(s: State, et: EventType, id: Id, now: string, fails: Faults,
                            s': State, status: Status, r: EventType)
    requires PostsEventType(s, et, id, now, fails, s', status, r)
    ensures status != Created ==> s'.schemas == s.schemas
    ensures id in s.issued ==> s' == s && status != Created
  {
    if s' != s {
      var s0 := s.(issued := s.issued + {id});
      NewTypeOrNothing(s0, et, id, now, fails, s', status, r);
      if s' != s0 && status != Created { MappingRefused(s0, et, id, now, fails, s', status, r); }
    }
  }

  lemma MappingRefused(s: State, et: EventType, id: Id, now: string, fails: Faults,
                       s': State, status: Status, r: EventType)
    requires AddsMapping(s, et, id, now, fails, s', status, r) && status != Created
    ensures s'.schemas == s.schemas
  {
  }

  lemma TypeFrame(s: State, et: EventType, id: Id, now: string, fails: Faults, s': State, status: Status, r: EventType)
    requires PostsEventType(s, et, id, now, fails, s', status, r) && (id !in s.issued ==> id !in s.eventTypes)
    ensures status != Created ==> s'.schemas == s.schemas
    ensures s' == s.(eventTypes := s'.eventTypes, schemas := s'.schemas, issued := s'.issued)
  {
    RefusedKeepsSchemas(s, et, id, now, fails, s', status, r);
    if id !in s.issued { PostsEventTypeEffect(s, et, id, now, fails, s', status, r); }
  }

  lemma NewTypeStored(s: State, et: EventType, id: Id, now: string, fails: Faults, s': State, r: EventType)
    requires StoresNewType(s, et, id, now, fails, s', Created, r)
    ensures !HasTildePath(et.mapping) && AddsMapping(s, et, id, now, fails, s', Created, r) && WriteType !in fails
  {
    var vars, leaves :| IsVars(et.mapping, {}, vars) && IsVars(AddUniqueParams(et.name, et.mapping), {}, leaves)
                        && !HasTilde(vars) && EventValidator.AllTypes(leaves)
                        && WriteType !in fails && AddsMapping(s, et, id, now, fails, s', Created, r);
    TildeInEveryOutcome(et.mapping, vars);
  }

  lemma CreatedTypeStored(s: State, et: EventType, id: Id, now: string, fails: Faults, s': State, r: EventType)
    requires PostsEventType(s, et, id, now, fails, s', Created, r)
    ensures et.name !in s.schemas && Named(s, et.name) == {} && !HasTildePath(et.mapping) && NewTypeCallsWork(fails)
    ensures ValidMapping(Obj(StoredType(et, id, now).mapping)) && id !in s.issued
    ensures s' == s.(issued := s.issued + {id}, eventTypes := s.eventTypes[id := StoredType(et, id, now)],
                     schemas := s.schemas[et.name := Schema(Obj(StoredType(et, id, now).mapping))])
  {
    NewTypeStored(s.(issued := s.issued + {id}), et, id, now, fails, s', r);
  }

  lemma ValidNested(name: string, m: Fields)
    ensures ValidMapping(Obj(AddUniqueParams(name, m))) <==> ValidMapping(Obj(m))
  {
    assert Obj(AddUniqueParams(name, m)).fields[name] == Obj(m);
  }

  lemma SoundTypeCreated(s: State, et: EventType, id: Id, now: string, fails: Faults,
                         s': State, status: Status, r: EventType)
    requires PostsEventType(s, et, id, now, fails, s', status, r)
    requires et.name !in s.schemas && Named(s, et.name) == {} && ValidMapping(Obj(et.mapping))
    requires !HasTildePath(et.mapping) && NewTypeCallsWork(fails)
    ensures status == Created
  {
    var s0 := s.(issued := s.issued + {id});
    var nested := AddUniqueParams(et.name, et.mapping);
    ValidNested(et.name, et.mapping);
    forall vars | IsVars(et.mapping, {}, vars) ensures !HasTilde(vars) { TildeInEveryOutcome(et.mapping, vars); }
    forall leaves | IsVars(nested, {}, leaves) ensures EventValidator.AllTypes(leaves) {
      Precheck.ValidPasses(nested, leaves);
    }
    assert StoresNewType(s0, et, id, now, fails, s', status, r);
  }

  lemma PostEventTypeMeans(env: Env, s: State, et: EventType, id: Id, now: string, fails: Faults,
                           s': State, status: Status, r: EventType)
    requires Integrity(env, s) && PostsEventType(s, et, id, now, fails, s', status, r)
    ensures TypeContract(env, s, et, id, now, fails, s', status)
  {
    if id !in s.issued { UnusedId(env, s, id); }
    assert NameFree(s, et.name) <==> et.name !in s.schemas && Named(s, et.name) == {} by { NamedIsEmpty(s, et.name); }
    ValidNested(et.name, et.mapping);
    ServiceHistory.RefusedTypeRestores(env, s, et, id, now, fails, s', status, r);
    ServiceHistory.OneNamed(env, s, et.name);
    TypeAnswered(s, et, id, now, fails, s', status, r);
    TypeMeans(env, s, et, id, now, fails, s', status, r);
  }

  lemma TypeAnswered(s: State, et: EventType, id: Id, now: string, fails: Faults, s': State, status: Status,
                     r: EventType)
    requires PostsEventType(s, et, id, now, fails, s', status, r) && |Named(s, et.name)| <= 1
    requires NameFree(s, et.name) <==> et.name !in s.schemas && Named(s, et.name) == {}
    ensures TypeAnswer(s, et, fails, status)
  {
    if ReadSchemas !in fails && FindName !in fails && NameFree(s, et.name) {
      NewTypeAnswered(s.(issued := s.issued + {id}), et, id, now, fails, s', status, r);
    }
  }

  lemma NewTypeAnswered(s: State, et: EventType, id: Id, now: string, fails: Faults, s': State, status: Status,
                        r: EventType)
    requires StoresNewType(s, et, id, now, fails, s', status, r)
    ensures status == Created || status == BadRequest || status == InternalError
    ensures HasTildePath(et.mapping) ==> status == BadRequest
    ensures ValidMapping(Obj(et.mapping)) && !HasTildePath(et.mapping) ==>
              (status == InternalError <==> WriteType in fails || WriteSchema in fails)
  {
    var nested := AddUniqueParams(et.name, et.mapping);
    forall vars | IsVars(et.mapping, {}, vars) ensures HasTilde(vars) <==> HasTildePath(et.mapping) {
      TildeInEveryOutcome(et.mapping, vars);
    }
    ValidNested(et.name, et.mapping);
    if ValidMapping(Obj(et.mapping)) {
      forall leaves | IsVars(nested, {}, leaves) ensures EventValidator.AllTypes(leaves) {
        Precheck.ValidPasses(nested, leaves);
      }
    }
  }

  lemma NamedIsEmpty(s: State, name: string)
    ensures Named(s, name) == {} <==> forall id | id in s.eventTypes :: s.eventTypes[id].name != name
  {
    assert forall id :: id in Named(s, name) <==> id in s.eventTypes && s.eventTypes[id].name == name;
  }

  lemma TypeMeans(env: Env, s: State, et: EventType, id: Id, now: string, fails: Faults,
                  s': State, status: Status, r: EventType)
    requires PostsEventType(s, et, id, now, fails, s', status, r) && (id !in s.issued ==> id !in s.eventTypes)
    requires NameFree(s, et.name) <==> et.name !in s.schemas && Named(s, et.name) == {}
    requires ValidMapping(Obj(AddUniqueParams(et.name, et.mapping))) <==> ValidMapping(Obj(et.mapping))
    requires status != Created ==> (ServiceHistory.SameStores(s, s') <==> !ServiceHistory.TypeStranded(fails, status))
    requires TypeAnswer(s, et, fails, status)
    ensures TypeContract(env, s, et, id, now, fails, s', status)
  {
    TypeFrame(s, et, id, now, fails, s', status, r);
    if status == Created {
      CreatedTypeStored(s, et, id, now, fails, s', r);
      forall d
        ensures IndexTakes(env, s', et.name, AddUniqueParams(et.name, d)) <==>
                Conforms(env.parses, Obj(et.mapping), Obj(d))
      {
        EventValidator.StoreMeaning(env.parses, et.name, et.mapping, d);
      }
    } else if NameFree(s, et.name) && ValidMapping(Obj(et.mapping)) && !HasTildePath(et.mapping)
              && NewTypeCallsWork(fails) {
      SoundTypeCreated(s, et, id, now, fails, s', status, r);
    }
  }

  /** No stored event or trigger names the type. */
  predicate Unnamed(s: State, id: Id) {
    && (forall t | t in s.triggers :: s.triggers[t].eventTypeId != id)
    && (forall slot | slot in s.events :: s.events[slot].eventTypeId != id)
  }

  predicate DeleteTypeCallsWork(fails: Faults) {
    ReadType !in fails && FindTriggers !in fails && FindEvents !in fails && DeleteType !in fails
  }

  predicate MayDeleteType(s: State, id: Id) {
    && id in s.eventTypes && !ServiceHistory.IsSystemName(s.eventTypes[id].name)
    && s.eventTypes[id].name in s.schemas && Unnamed(s, id)
  }

  /** A type is deleted if and only if it is stored, no system type, known to the index and
      named by no event or trigger, and no call fails; otherwise nothing changes. */
  predicate TypeDeleted(s: State, id: Id, fails: Faults, s': State, status: Status) {
    && (status == OK <==> MayDeleteType(s, id) && DeleteTypeCallsWork(fails))
    && s' == (if status == OK then s.(eventTypes := s.eventTypes - {id}) else s)
    && (id in s.eventTypes && ServiceHistory.IsSystemName(s.eventTypes[id].name) && ReadType !in fails ==>
          status == BadRequest)
    && (DeleteTypeCallsWork(fails) ==> status == DeleteTypeAnswer(s, id))
  }

  /** 404 for no type, 400 for a system type and for one the index does not know, 403 for
      one that an event or a trigger names. */
  function DeleteTypeAnswer(s: State, id: Id): Status {
    if id !in s.eventTypes then NotFound
    else if ServiceHistory.IsSystemName(s.eventTypes[id].name) then BadRequest
    else if !Unnamed(s, id) then Forbidden
    else if s.eventTypes[id].name !in s.schemas then BadRequest
    else OK
  }

  lemma DeleteEventTypeMeans(env: Env, s: State, id: Id, fails: Faults, s': State, status: Status)
    requires Integrity(env, s) && DeletesEventType(s, id, fails, s', status)
    ensures TypeDeleted(s, id, fails, s', status)
  {
    if id in s.eventTypes {
      forall slot | slot in s.events && s.events[slot].eventTypeId == id
        ensures slot.typeName == s.eventTypes[id].name && slot.typeName in s.schemas
      {
        assert EventOk(env, s, slot);
      }
      DeletedTypeMeans(s, id, fails, s', status);
    }
  }

  lemma DeletedTypeMeans(s: State, id: Id, fails: Faults, s': State, status: Status)
    requires DeletesEventType(s, id, fails, s', status) && id in s.eventTypes
    requires forall slot | slot in s.events && s.events[slot].eventTypeId == id ::
             slot.typeName == s.eventTypes[id].name && slot.typeName in s.schemas
    ensures TypeDeleted(s, id, fails, s', status)
  {
  }

  // ---------------------------------------------------------------- deleting events

  /** The id is that of a stored event of a type that may be deleted from. */
  predicate MayDeleteEvent(s: State, id: Id) {
    exists slot | slot in s.events ::
      slot.id == id && slot.typeName !in {"", "_default_", ".percolator"} && !ServiceHistory.IsSystemName(slot.typeName)
  }

  /** The id is that of a stored event of a system type. */
  predicate OfSystemType(s: State, id: Id) {
    exists slot | slot in s.events :: slot.id == id && ServiceHistory.IsSystemName(slot.typeName)
  }

  predicate DeleteCallsWork(s: State, id: Id, fails: Faults) {
    LookUpEvent !in fails && RemoveEvent !in fails && LookUpCron !in fails && (id in s.crons ==> RemoveCron !in fails)
  }

  /** An event is deleted if and only if it is stored, of no system type, and no call fails
      that is needed. Then nothing else goes, it is no cron event, and no scheduler entry
      with its id can run. A failing call leaves the stores as they were, or the event gone
      and the cron store and the scheduler untouched. */
  ghost predicate EventDeleted(s: State, id: Id, fails: Faults, s': State, status: Status) {
    && (status == OK <==> MayDeleteEvent(s, id) && DeleteCallsWork(s, id, fails))
    && (status == OK ==>
          && (exists slot | slot in s.events :: slot.id == id && s'.events == s.events - {slot}) && id !in EventIds(s')
          && s'.crons == s.crons - {id} && forall job | job in s'.jobs && job.Key() == id :: id in s'.removed)
    && (status != OK ==>
          && s' == s.(events := s'.events)
          && (s' == s || ((LookUpCron in fails || RemoveCron in fails) && id !in EventIds(s'))))
    && s' == s.(events := s'.events, crons := s'.crons, removed := s'.removed)
    && (OfSystemType(s, id) && LookUpEvent !in fails ==> s' == s && status == BadRequest)
    && (!OfSystemType(s, id) && !MayDeleteEvent(s, id) ==> s' == s && status == NotFound)
  }

  lemma OneSlot(s: State, id: Id, name: string)
    requires forall a, b | a in s.events && b in s.events && a.id == b.id :: a == b
    requires name in TypesHolding(s, id)
    ensures TypesHolding(s, id) == {name} && Slot(name, id) in s.events
    ensures MayDeleteEvent(s, id) <==> name != "" && !IsSystemEvent(name)
    ensures OfSystemType(s, id) <==> IsSystemEvent(name)
    ensures EventIds(s.(events := s.events - {Slot(name, id)})) == EventIds(s) - {id}
  {
    assert Slot(name, id) in s.events;
    var s' := s.(events := s.events - {Slot(name, id)});
    forall slot | slot in s.events && slot.id != id ensures slot.id in EventIds(s') { assert slot in s'.events; }
  }

  lemma BackedEvent(s: State, id: Id, name: string)
    requires JobsBacked(s) && Slot(name, id) in s.events
    ensures id in JobKeys(s) ==> id in s.crons
  {
    assert id in EventIds(s);
  }

  lemma NoSlot(s: State, id: Id)
    requires TypesHolding(s, id) == {}
    ensures !MayDeleteEvent(s, id) && !OfSystemType(s, id)
  {
    forall slot | slot in s.events && slot.id == id ensures IsReserved(slot.typeName) {
      assert slot.typeName !in TypesHolding(s, id);
    }
  }

  lemma DeleteEventMeans(env: Env, s: State, id: Id, fails: Faults, s': State, status: Status)
    requires Integrity(env, s) && DeletesEvent(s, id, fails, s', status)
    ensures EventDeleted(s, id, fails, s', status)
  {
    if TypesHolding(s, id) == {} {
      NoSlot(s, id);
    } else {
      var name :| name in TypesHolding(s, id);
      OneSlot(s, id, name);
      BackedEvent(s, id, name);
      DeletedEventMeans(s, id, name, fails, s', status);
    }
  }

  lemma DeletedEventMeans(s: State, id: Id, name: string, fails: Faults, s': State, status: Status)
    requires DeletesEvent(s, id, fails, s', status) && TypesHolding(s, id) == {name} && Slot(name, id) in s.events
    requires MayDeleteEvent(s, id) <==> name != "" && !IsSystemEvent(name)
    requires OfSystemType(s, id) <==> IsSystemEvent(name)
    requires EventIds(s.(events := s.events - {Slot(name, id)})) == EventIds(s) - {id}
    requires id in JobKeys(s) ==> id in s.crons
    ensures EventDeleted(s, id, fails, s', status)
  {
    assert LookUpEvent !in fails ==> DeletesEventOf(s, Slot(name, id), fails, s', status);
    forall job | job in s'.jobs && job.Key() == id && s'.jobs == s.jobs ensures id in s.crons {
      assert id in JobKeys(s);
    }
    if s' != s {
      assert s'.events == s.events - {Slot(name, id)};
      assert EventIds(s') == EventIds(s.(events := s.events - {Slot(name, id)}));
      assert id !in s.crons ==> s.crons - {id} == s.crons;
    }
  }

  // ---------------------------------------------------------------- triggers

  predicate RegisterCallsWork(fails: Faults) {
    ReadType !in fails && CheckService !in fails && WriteQuery !in fails && WriteTrigger !in fails
  }

  /** The data of the trigger's job names a service. */
  predicate HasServiceId(t: Trigger) {
    var data := t.job.jobType.data;
    "serviceId" in data && data["serviceId"].Str?
  }

  /** A trigger is created if and only if its type is stored, its job names a service and no
      call fails. It is then stored as posted under a new id, its condition encoded, and the
      percolator has the condition rewritten for the type. Otherwise every store is as it
      was, or the query alone is left, its rollback having failed. */
  ghost predicate TriggerCreated(s: State, t: Trigger, id: Id, now: string, fails: Faults, s': State, status: Status) {
    && (status == Created <==>
          t.eventTypeId in s.eventTypes && t.eventTypeId != "" && HasServiceId(t) && RegisterCallsWork(fails))
    && (status == Created ==>
          && id !in s.triggers && id in s'.triggers && id in s'.queries && id !in s.queries
          && s'.triggers == s.triggers[id := s'.triggers[id]] && s'.queries == s.queries[id := s'.queries[id]]
          && s'.triggers[id] == t.(triggerId := id, createdOn := now, percolationId := id,
                                   condition := s'.triggers[id].condition)
          && StoredForms(s.eventTypes[t.eventTypeId].name, t.condition, s'.queries[id], s'.triggers[id].condition))
    && (status != Created ==>
          && status == BadRequest && s'.triggers == s.triggers
          && (s'.queries == s.queries <==> !ServiceHistory.QueryStranded(s, t, fails)))
    && s' == s.(issued := s'.issued, queries := s'.queries, triggers := s'.triggers)
  }

  lemma PostTriggerMeans(env: Env, s: State, t: Trigger, id: Id, now: string, fails: Faults,
                         s': State, status: Status, r: Trigger)
    requires Integrity(env, s) && PostsTrigger(s, t, id, now, fails, s', status, r)
    ensures TriggerCreated(s, t, id, now, fails, s', status)
  {
    UnusedId(env, s, id);
    PostedTriggerMeans(s, t, id, now, fails, s', status, r);
  }

  /** The request gets as far as registering the query. */
  predicate MayRegister(s: State, t: Trigger, fails: Faults) {
    && t.eventTypeId in s.eventTypes && t.eventTypeId != "" && NamesService(t.job)
    && ReadType !in fails && CheckService !in fails && WriteQuery !in fails
  }

  lemma PostedTriggerMeans(s: State, t: Trigger, id: Id, now: string, fails: Faults,
                           s': State, status: Status, r: Trigger)
    requires PostsTrigger(s, t, id, now, fails, s', status, r) && id !in s.triggers && id !in s.queries
    ensures TriggerCreated(s, t, id, now, fails, s', status)
  {
    if MayRegister(s, t, fails) {
      var query, encoded := RegisteredForms(s, t, id, now, fails, s', status, r);
      RegisteredMeans(s, s.(issued := s.issued + {id}), t, id, now, fails, query, encoded, s', status, r);
    }
  }

  lemma RegisteredForms(s: State, t: Trigger, id: Id, now: string, fails: Faults, s': State, status: Status, r: Trigger)
    returns (query: Fields, encoded: Fields)
    requires PostsTrigger(s, t, id, now, fails, s', status, r) && MayRegister(s, t, fails)
    ensures StoredForms(s.eventTypes[t.eventTypeId].name, t.condition, query, encoded)
    ensures Registered(s.(issued := s.issued + {id}), t, id, now, fails, query, encoded, s', status, r)
  {
    query, encoded :| StoredForms(s.eventTypes[t.eventTypeId].name, t.condition, query, encoded)
                      && Registered(s.(issued := s.issued + {id}), t, id, now, fails, query, encoded, s', status, r);
  }

  lemma RegisteredMeans(s: State, s0: State, t: Trigger, id: Id, now: string, fails: Faults, query: Fields,
                        encoded: Fields, s': State, status: Status, r: Trigger)
    requires MayRegister(s, t, fails) && id !in s.triggers && id !in s.queries && s0 == s.(issued := s0.issued)
    requires StoredForms(s.eventTypes[t.eventTypeId].name, t.condition, query, encoded)
    requires Registered(s0, t, id, now, fails, query, encoded, s', status, r)
    ensures TriggerCreated(s, t, id, now, fails, s', status)
  {
    if WriteTrigger in fails {
      ServiceHistory.RefusedRegistration(s0, t, id, now, fails, query, encoded, s', status, r);
      assert s'.queries == s.queries <==> s' == s0;
    } else {
      assert s'.queries[id] == query && s'.triggers[id].condition == encoded;
    }
  }

  /** An update succeeds if and only if the trigger is stored and no call fails. It then sets
      Enabled, and the trigger keeps all else but that its condition was read and encoded
      and its job's data encoded; otherwise nothing changes. */
  ghost predicate TriggerUpdated(s: State, id: Id, enabled: bool, fails: Faults, s': State, status: Status) {
    && (status == OK <==> id in s.triggers && ReadTrigger !in fails && RewriteTrigger !in fails)
    && (status != OK ==>
          s' == s && status == if id in s.triggers && ReadTrigger !in fails then BadRequest else NotFound)
    && (status == OK ==>
          && id in s'.triggers && s' == s.(triggers := s.triggers[id := s'.triggers[id]])
          && TriggerHistory.Rewritten(s.triggers[id], enabled, s'.triggers[id]))
  }

  lemma PutTriggerMeans(s: State, id: Id, enabled: bool, fails: Faults, s': State, status: Status)
    requires PutsTrigger(s, id, enabled, fails, s', status)
    ensures TriggerUpdated(s, id, enabled, fails, s', status)
  {
    if status == OK { TriggerHistory.PutRewrites(s, id, enabled, fails, s'); }
  }

  predicate DeleteTriggerCallsWork(fails: Faults) {
    ReadTrigger !in fails && RemoveTrigger !in fails
  }

  /** A trigger is deleted with its query if and only if it is stored and no call fails.
      Otherwise nothing changes, or the trigger goes and its query stays behind. */
  predicate TriggerDeleted(s: State, id: Id, fails: Faults, s': State, status: Status) {
    && (status == OK <==> id in s.triggers && DeleteTriggerCallsWork(fails) && RemoveQuery !in fails)
    && (status == OK ==> s' == s.(triggers := s.triggers - {id}, queries := s.queries - {id}))
    && (status != OK ==>
          status == NotFound &&
          if id in s.triggers && DeleteTriggerCallsWork(fails) then
            s' == s.(triggers := s.triggers - {id}) && Orphans.Orphan(s', id)
          else s' == s)
  }

  lemma DeleteTriggerMeans(env: Env, s: State, id: Id, fails: Faults, s': State, status: Status)
    requires Integrity(env, s) && DeletesTrigger(s, id, fails, s', status)
    ensures TriggerDeleted(s, id, fails, s', status)
  {
    if id in s.triggers { assert TriggerOk(s, id); }
  }

  // ---------------------------------------------------------------- posting events

  /** The index knows the type, its mapping is unambiguous and the data has its shape. */
  ghost predicate Decidable(s: State, ev: Event) {
    && ev.eventTypeId in s.eventTypes && s.eventTypes[ev.eventTypeId].name in s.schemas
    && EventValidator.Unambiguous(Obj(Mapping(s.eventTypes[ev.eventTypeId])))
    && EventValidator.Shaped(Obj(Mapping(s.eventTypes[ev.eventTypeId])), Obj(ev.data))
  }

  ghost predicate EventTyped(env: Env, s: State, ev: Event)
    requires ev.eventTypeId in s.eventTypes
  {
    EventValidator.Typed(env.parses, Obj(Mapping(s.eventTypes[ev.eventTypeId])), Obj(ev.data))
  }

  /** The event as it is stored: with its new id, and its data nested under the type's name. */
  predicate StoredAs(s': State, s: State, ev: Event, name: string, id: Id, now: string) {
    var e := Event(id, ev.eventTypeId, map[name := Obj(ev.data)], ev.createdBy, now, ev.cronSchedule);
    s'.events == s.events[Slot(name, id) := e]
  }

  /** An event that is answered with 201 is stored as posted, nested under its type's name,
      and each stored trigger has a new job on the queue and a new alert if and only if it is
      enabled, of its type and its query matches; no query without a trigger matches it. */
  ghost predicate EventPosted(env: Env, s: State, ev: Event, id: Id, now: string, s': State) {
    && id !in s.issued && ev.eventTypeId in s.eventTypes
    && StoredAs(s', s, ev, s.eventTypes[ev.eventTypeId].name, id, now)
    && (forall t | t in s.triggers ::
          (EndToEnd.RaisesAlert(s, s', t, id) <==> JobsSent.Concerned(env, s, ev, t))
          && (JobsSent.SentFor(s, s', t) <==> JobsSent.Concerned(env, s, ev, t)))
    && (forall t | Orphans.Orphan(s, t) :: !Orphans.QueryMatches(env, s, t, ev))
  }

  /** The calls without which no event is stored. */
  predicate StoreCallsWork(fails: Faults) {
    ReadType !in fails && ReadTypeAgain !in fails && WriteEvent !in fails
  }

  /** Whatever it is answered with, the event is stored or not and nothing but alerts and
      jobs comes of it; it is stored if and only if it is typed and the calls work. What is
      put on the queue are jobs of triggers that it concerns, substituted, one for each at
      most, and every new alert is for one of them. */
  ghost predicate EventContract(env: Env, s: State, ev: Event, id: Id, now: string, fails: Faults, s': State,
                                status: Status)
  {
    && (status == Created ==> EventPosted(env, s, ev, id, now, s'))
    && (Decidable(s, ev) ==>
          (id in EventIds(s') && id !in EventIds(s) <==> EventTyped(env, s, ev) && StoreCallsWork(fails)))
    && s' == s.(events := s'.events, alerts := s'.alerts, queue := s'.queue, issued := s'.issued)
    && JobsSent.SendsJobs(env, s, ev, s') && JobsSent.AddsAlerts(s, s', id, now)
    && EventAnswer(env, s, ev, fails, s', status)
  }

  /** 400 for an event without a type, or whose queries cannot be had, or that is not
      stored; 201 for one that is stored and that no query matches. */
  ghost predicate EventAnswer(env: Env, s: State, ev: Event, fails: Faults, s': State, status: Status) {
    && (ev.eventTypeId !in s.eventTypes || ReadType in fails ==> s' == s && status == BadRequest)
    && (Percolate in fails ==> status == BadRequest)
    && (Decidable(s, ev) ==>
          if !EventTyped(env, s, ev) || !StoreCallsWork(fails) then status == BadRequest
          else Percolate !in fails && NoQueryMatches(env, s, ev) ==> status == Created)
  }

  ghost predicate NoQueryMatches(env: Env, s: State, ev: Event) {
    forall t :: !Orphans.QueryMatches(env, s, t, ev)
  }

  lemma CreatedEventPosted(env: Env, s: State, ev: Event, id: Id, now: string, fails: Faults, s': State, r: Event)
    requires Integrity(env, s) && PostsEvent(env, s, ev, id, now, fails, s', Created, r)
    ensures EventPosted(env, s, ev, id, now, s')
  {
    var call, f := EndToEnd.CreatedEvent(env, s, ev, id, now, fails, s', r);
    forall t | t in s.triggers
      ensures EndToEnd.RaisesAlert(s, s', t, id) <==> JobsSent.Concerned(env, s, ev, t)
      ensures JobsSent.SentFor(s, s', t) <==> JobsSent.Concerned(env, s, ev, t)
    {
      EndToEnd.PostedEventAlerts(env, s, ev, id, now, fails, s', r, t);
      JobsSent.CreatedEventSends(env, s, ev, id, now, fails, s', r, t);
    }
    forall t | Orphans.Orphan(s, t) ensures !Orphans.QueryMatches(env, s, t, ev) {
      if Orphans.QueryMatches(env, s, t, ev) { Orphans.OrphanFailsEvent(env, s, ev, id, now, fails, s', r, t); }
    }
    assert id !in s.issued;
  }

  lemma AcceptedIsTyped(env: Env, s: State, ev: Event, id: Id, now: string, fails: Faults, ok: bool)
    requires Types(s) && Decidable(s, ev) && ReadType !in fails
    requires var name := s.eventTypes[ev.eventTypeId].name;
             Accepts(env, s, name, StoredEvent(ev, name, id, now), fails, ok)
    ensures ok <==> EventTyped(env, s, ev) && StoreCallsWork(fails)
  {
    if ReadTypeAgain in fails {
      return;
    }
    assert TypeOk(s, ev.eventTypeId);
    var et := s.eventTypes[ev.eventTypeId];
    var e := StoredEvent(ev, et.name, id, now);
    var m := Mapping(et);
    assert UnwrapOr(et.name, et.mapping) == m && UnwrapOr(et.name, e.data) == ev.data;
    ValidNested(et.name, m);
    var mv, dv :| EventValidator.Flattened(m, ev.data, mv, dv)
                  && (ok <==> (EventValidator.Agree(mv, dv) && IndexTakes(env, s, et.name, e.data)
                               && WriteEvent !in fails));
    EventValidator.ValidatorAndSchemaAreTyping(env.parses, et.name, m, ev.data, mv, dv);
  }

  lemma StoredOrNot(env: Env, s: State, ev: Event, id: Id, now: string, fails: Faults,
                    s': State, status: Status, r: Event)
    returns (ok: bool)
    requires PostsEvent(env, s, ev, id, now, fails, s', status, r) && ev.eventTypeId in s.eventTypes
             && ReadType !in fails
    ensures var name := s.eventTypes[ev.eventTypeId].name;
            var s0, e := s.(issued := s.issued + {id}), StoredEvent(ev, name, id, now);
            && id !in s.issued && Accepts(env, s0, name, e, fails, ok)
            && s'.events == if ok then s.events[Slot(name, id) := e] else s.events
  {
    var name := s.eventTypes[ev.eventTypeId].name;
    var s0 := s.(issued := s.issued + {id});
    var e := StoredEvent(ev, name, id, now);
    var s1 := s0.(events := s.events[Slot(name, id) := e]);
    ok := !(Accepts(env, s0, name, e, fails, false) && s' == s0 && status == BadRequest);
    if ok && Percolate !in fails {
      RunsTriggersEffect(env, s1, s.eventTypes[ev.eventTypeId], ev, e, now, s', status, r);
    }
  }

  lemma TypedIsStored(env: Env, s: State, ev: Event, id: Id, now: string, fails: Faults,
                      s': State, status: Status, r: Event)
    requires Integrity(env, s) && Decidable(s, ev) && PostsEvent(env, s, ev, id, now, fails, s', status, r)
    ensures id in EventIds(s') && id !in EventIds(s) <==> EventTyped(env, s, ev) && StoreCallsWork(fails)
  {
    if ReadType !in fails {
      var name := s.eventTypes[ev.eventTypeId].name;
      var ok := StoredOrNot(env, s, ev, id, now, fails, s', status, r);
      var s0 := s.(issued := s.issued + {id});
      IssueKeeps(env, s, s0);
      AcceptedIsTyped(env, s0, ev, id, now, fails, ok);
      UnusedId(env, s, id);
      if ok { EventAdded(s, s', Slot(name, id), StoredEvent(ev, name, id, now)); }
    }
  }

  lemma UnmatchedIsCreated(env: Env, s: State, ev: Event, id: Id, now: string, fails: Faults,
                           s': State, status: Status, r: Event)
    requires Types(s) && PostsEvent(env, s, ev, id, now, fails, s', status, r) && NoQueryMatches(env, s, ev)
    requires !JobsSent.Stops(env, s, ev, id, now, fails, s', status)
    ensures status == Created
  {
    var s1, call, f := JobsSent.FannedOut(env, s, ev, id, now, fails, s', status, r);
    forall t ensures t !in call.matches { JobsSent.MatchedMeansQuery(env, s, ev, id, now, s1, call, t); }
    NothingMatched(call, s1.issued, f);
  }

  lemma NothingMatched(call: FanOut.Call, issued: set<Id>, f: FanOut.State)
    requires JobTemplate.Distinct(call.matches) && GoroutinesLeave(call, issued, f) && forall t :: t !in call.matches
    ensures f.results == map[]
  {
    FanOutSafety.ReachableSafe(call, issued, f);
    forall t ensures t !in f.results { assert t !in f.phases.Keys; }
  }

  /** The event's data, or a call, kept it from being stored. */
  lemma UntypedStops(env: Env, s: State, ev: Event, id: Id, now: string, fails: Faults,
                     s': State, status: Status, r: Event)
    requires Integrity(env, s) && Decidable(s, ev) && PostsEvent(env, s, ev, id, now, fails, s', status, r)
    requires ReadType !in fails && Percolate !in fails
    ensures JobsSent.Stops(env, s, ev, id, now, fails, s', status) <==>
            !(EventTyped(env, s, ev) && StoreCallsWork(fails))
  {
    var name := s.eventTypes[ev.eventTypeId].name;
    var s0 := s.(issued := s.issued + {id});
    IssueKeeps(env, s, s0);
    forall ok | Accepts(env, s0, name, StoredEvent(ev, name, id, now), fails, ok)
      ensures ok <==> EventTyped(env, s, ev) && StoreCallsWork(fails)
    {
      AcceptedIsTyped(env, s0, ev, id, now, fails, ok);
    }
  }

  lemma EventAnswered(env: Env, s: State, ev: Event, id: Id, now: string, fails: Faults,
                      s': State, status: Status, r: Event)
    requires Integrity(env, s) && PostsEvent(env, s, ev, id, now, fails, s', status, r)
    ensures EventAnswer(env, s, ev, fails, s', status)
  {
    if JobsSent.Stops(env, s, ev, id, now, fails, s', status) {
      JobsSent.Stopped(env, s, ev, id, now, fails, s', status, r);
    }
    if Decidable(s, ev) && ReadType !in fails && Percolate !in fails {
      UntypedStops(env, s, ev, id, now, fails, s', status, r);
      if EventTyped(env, s, ev) && StoreCallsWork(fails) && NoQueryMatches(env, s, ev) {
        UnmatchedIsCreated(env, s, ev, id, now, fails, s', status, r);
      }
    }
  }

  lemma PostEventMeans(env: Env, s: State, ev: Event, id: Id, now: string, fails: Faults,
                       s': State, status: Status, r: Event)
    requires Integrity(env, s) && PostsEvent(env, s, ev, id, now, fails, s', status, r)
    ensures EventContract(env, s, ev, id, now, fails, s', status)
  {
    PostsEventEffect(env, s, ev, id, now, fails, s', status, r);
    if status == Created { CreatedEventPosted(env, s, ev, id, now, fails, s', r); }
    if Decidable(s, ev) { TypedIsStored(env, s, ev, id, now, fails, s', status, r); }
    JobsSent.PostedEventSends(env, s, ev, id, now, fails, s', status, r);
    EventAnswered(env, s, ev, id, now, fails, s', status, r);
  }

  // ---------------------------------------------------------------- repeating events

  /** A repeating event is answered with 201 if and only if its type is stored, its schedule
      parses, it is typed and the calls work. It is then stored, a cron event, and has an
      entry that can run; one that is not leaves events, and if the cron store's calls work
      the cron store and the entries that can run, as they were. */
  ghost predicate RepeatingEventContract(env: Env, s: State, ev: Event, id: Id, now: string, fails: Faults,
                                         s': State, status: Status)
  {
    && (status == Created ==>
          && id !in s.issued && ev.eventTypeId in s.eventTypes && env.cronParses(ev.cronSchedule)
          && RepeatingEventStored(s, ev, s.eventTypes[ev.eventTypeId].name, id, now, s'))
    && (status != Created ==>
          && s'.events == s.events
          && (CronAgreement.CronCallsWork(fails) ==>
                s'.crons == s.crons && ServiceHistory.LiveJobs(s') == ServiceHistory.LiveJobs(s)))
    && s' == s.(events := s'.events, crons := s'.crons, jobs := s'.jobs, removed := s'.removed, issued := s'.issued)
    && RepeatingEventAnswer(env, s, ev, fails, status)
    && (ev.eventTypeId !in s.eventTypes || ReadType in fails || !env.cronParses(ev.cronSchedule) ==>
          s' == s && status == BadRequest)
  }

  ghost predicate RepeatingEventStored(s: State, ev: Event, name: string, id: Id, now: string, s': State) {
    var e := Event(id, ev.eventTypeId, map[name := Obj(ev.data)], ev.createdBy, now, ev.cronSchedule);
    && s'.events == s.events[Slot(name, id) := e] && s'.crons == s.crons[id := e]
    && s'.jobs == s.jobs + [CronJob(e, name, ev.cronSchedule)] && s'.removed == s.removed
    && CronJob(e, name, ev.cronSchedule) in ServiceHistory.LiveJobs(s')
  }

  ghost predicate RepeatingEventAnswer(env: Env, s: State, ev: Event, fails: Faults, status: Status) {
    (ev.eventTypeId in s.eventTypes ==> Decidable(s, ev)) ==>
      && (status == Created <==>
            && ev.eventTypeId in s.eventTypes && env.cronParses(ev.cronSchedule) && EventTyped(env, s, ev)
            && StoreCallsWork(fails) && WriteCron !in fails)
      && (ev.eventTypeId in s.eventTypes && ReadType !in fails && env.cronParses(ev.cronSchedule) ==>
            status == Created || status == InternalError)
  }

  lemma AcceptedOrNot(env: Env, s: State, ev: Event, id: Id, now: string, fails: Faults,
                      s': State, status: Status, r: Event)
    requires PostsRepeatingEvent(env, s, ev, id, now, fails, s', status, r) && ev.eventTypeId in s.eventTypes
    requires ReadType !in fails && env.cronParses(ev.cronSchedule) && WriteCron !in fails
    ensures id !in s.issued
    ensures var name := s.eventTypes[ev.eventTypeId].name;
            Accepts(env, s.(issued := s.issued + {id}), name, StoredEvent(ev, name, id, now), fails, status == Created)
  {
  }

  lemma AnsweredIffTyped(env: Env, s: State, ev: Event, id: Id, now: string, fails: Faults,
                         s': State, status: Status, r: Event)
    requires Types(s) && PostsRepeatingEvent(env, s, ev, id, now, fails, s', status, r)
    ensures RepeatingEventAnswer(env, s, ev, fails, status)
  {
    if ev.eventTypeId in s.eventTypes && ReadType !in fails && env.cronParses(ev.cronSchedule) && WriteCron !in fails
       && Decidable(s, ev)
    {
      AcceptedOrNot(env, s, ev, id, now, fails, s', status, r);
      var s0 := s.(issued := s.issued + {id});
      TypesFrame(s, s0);
      AcceptedIsTyped(env, s0, ev, id, now, fails, status == Created);
    } else {
      RefusedEarly(env, s, ev, id, now, fails, s', status, r);
    }
  }

  lemma RefusedEarly(env: Env, s: State, ev: Event, id: Id, now: string, fails: Faults,
                     s': State, status: Status, r: Event)
    requires PostsRepeatingEvent(env, s, ev, id, now, fails, s', status, r)
    requires ev.eventTypeId !in s.eventTypes || ReadType in fails || !env.cronParses(ev.cronSchedule)
             || WriteCron in fails
             || !Decidable(s, ev)
    ensures RepeatingEventAnswer(env, s, ev, fails, status)
  {
  }

  lemma PostRepeatingEventMeans(env: Env, s: State, ev: Event, id: Id, now: string, fails: Faults,
                                s': State, status: Status, r: Event)
    requires Integrity(env, s) && PostsRepeatingEvent(env, s, ev, id, now, fails, s', status, r)
    ensures RepeatingEventContract(env, s, ev, id, now, fails, s', status)
  {
    AnsweredIffTyped(env, s, ev, id, now, fails, s', status, r);
    RepeatingEventFrame(env, s, ev, id, now, fails, s', status, r);
    if status == Created {
      UnusedId(env, s, id);
      CreatedRepeatingEvent(env, s, ev, id, now, fails, s', r);
    } else {
      RefusedRepeatingEvent(env, s, ev, id, now, fails, s', status, r);
    }
  }

  lemma RepeatingEventFrame(env: Env, s: State, ev: Event, id: Id, now: string, fails: Faults,
                            s': State, status: Status, r: Event)
    requires PostsRepeatingEvent(env, s, ev, id, now, fails, s', status, r)
    ensures s' == s.(events := s'.events, crons := s'.crons, jobs := s'.jobs, removed := s'.removed,
            issued := s'.issued)
    ensures ev.eventTypeId !in s.eventTypes || ReadType in fails || !env.cronParses(ev.cronSchedule) ==>
              s' == s && status == BadRequest
  {
    if s' != s { PostsRepeatingEventEffect(env, s, ev, id, now, fails, s', status, r); }
  }

  lemma CreatedRepeatingEvent(env: Env, s: State, ev: Event, id: Id, now: string, fails: Faults, s': State, r: Event)
    requires PostsRepeatingEvent(env, s, ev, id, now, fails, s', Created, r) && id !in s.removed
    ensures id !in s.issued && ev.eventTypeId in s.eventTypes && env.cronParses(ev.cronSchedule)
    ensures RepeatingEventStored(s, ev, s.eventTypes[ev.eventTypeId].name, id, now, s')
  {
    var name := s.eventTypes[ev.eventTypeId].name;
    var job := CronJob(StoredEvent(ev, name, id, now), name, ev.cronSchedule);
    assert s'.jobs == s.jobs + [job] && s'.jobs[|s.jobs|] == job;
  }

  lemma RefusedRepeatingEvent(env: Env, s: State, ev: Event, id: Id, now: string, fails: Faults,
                              s': State, status: Status, r: Event)
    requires Integrity(env, s) && PostsRepeatingEvent(env, s, ev, id, now, fails, s', status, r) && status != Created
    ensures s'.events == s.events
    ensures CronAgreement.CronCallsWork(fails) ==>
              s'.crons == s.crons && ServiceHistory.LiveJobs(s') == ServiceHistory.LiveJobs(s)
  {
    ServiceHistory.RefusedRepeatingEventRestores(env, s, ev, id, now, fails, s', status, r);
    RefusedKeepsEvents(env, s, ev, id, now, fails, s', status, r);
  }

  lemma RefusedKeepsEvents(env: Env, s: State, ev: Event, id: Id, now: string, fails: Faults,
                           s': State, status: Status, r: Event)
    requires PostsRepeatingEvent(env, s, ev, id, now, fails, s', status, r) && status != Created
    ensures s'.events == s.events
  {
  }

  // ---------------------------------------------------------------- firings

  /** The event a firing posts for an entry: the entry's data, no longer nested, created by
      the entry's event. */
  ghost predicate FiredFor(job: CronJob, now: string, ev: Event) {
    && ev == Event("", job.event.eventTypeId, ev.data, job.event.eventId, now, "")
    && forall d :: job.event.data == map[job.typeName := Obj(d)] ==> ev.data == d
  }

  /** A marked entry goes with its mark and posts nothing. Any other posts its event, and
      goes if it fires only once. */
  ghost predicate FiringContract(env: Env, s: State, i: nat, id: Id, now: string, fails: Faults, s': State,
                                 status: Status)
    requires i < |s.jobs|
  {
    var job, others := s.jobs[i], s.jobs[..i] + s.jobs[i + 1..];
    if job.event.eventId in s.removed then
      s' == s.(jobs := others, removed := s.removed - {job.event.eventId}) && status == OK
    else
      && s'.jobs == (if job.schedule == "@now" then others else s.jobs)
      && exists ev :: FiredFor(job, now, ev) && EventContract(env, s, ev, id, now, fails, s'.(jobs := s.jobs), status)
  }

  lemma FireMeans(env: Env, s: State, i: nat, id: Id, now: string, fails: Faults, s': State, status: Status)
    requires Integrity(env, s) && Fires(env, s, i, id, now, fails, s', status)
    ensures i < |s.jobs| && FiringContract(env, s, i, id, now, fails, s', status)
  {
    if s.jobs[i].Key() !in s.removed {
      FiredEntryPosts(env, s, i, id, now, fails, s', status);
      FiredForEntry(s.jobs[i], now);
    }
  }

  lemma FiredForEntry(job: CronJob, now: string)
    ensures FiredFor(job, now, FiredEvent(job, now))
  {
  }

  lemma FiredEntryPosts(env: Env, s: State, i: nat, id: Id, now: string, fails: Faults, s': State, status: Status)
    requires Integrity(env, s) && Fires(env, s, i, id, now, fails, s', status) && s.jobs[i].Key() !in s.removed
    ensures s'.jobs == if IsOneShot(s.jobs[i].schedule) then Dropped(s.jobs, i) else s.jobs
    ensures EventContract(env, s, FiredEvent(s.jobs[i], now), id, now, fails, s'.(jobs := s.jobs), status)
  {
    var mid, r := FiredEventPosted(env, s, i, id, now, fails, s', status);
    PostEventMeans(env, s, FiredEvent(s.jobs[i], now), id, now, fails, mid, status, r);
    assert s'.(jobs := s.jobs) == mid;
  }
}
