/** The service object of workflow/Service.go over its stores. Of each operation there is
    the code step by step, and around it the handler with what a caller gets. */
module Service {
  import opened Json
  import opened Records
  import opened ConditionTrees
  import opened TriggerConditions
  import opened Flattening
  import opened MappingCompiler
  import opened ServiceSpec
  import opened ServiceInvariants
  import opened ServiceContracts
  import EventValidator
  import FanOut
  import FanOutJoin
  import JobsSent
  import JobTemplate
  import DottedNames
  import ServiceHistory
  import TriggerUpdates

  class Service {
    const env: Env
    var eventTypes: map<Id, EventType>
    var schemas: map<string, Json>
    var events: map<Slot, Event>
    var triggers: map<Id, Trigger>
    var queries: map<Id, Fields>
    var alerts: map<Id, Alert>
    var crons: map<Id, Event>
    var jobs: seq<CronJob>
    var removed: set<Id>
    var queue: seq<FanOut.Message>
    var issued: set<Id>

    function Stores(): State
      reads this
    {
      State(eventTypes, schemas, events, triggers, queries, alerts, crons, jobs, removed, queue, issued)
    }

    ghost predicate Valid()
      reads this
    {
      Integrity(env, Stores())
    }

    constructor (env: Env, s: State)
      requires Integrity(env, s)
      ensures Valid() && this.env == env && Stores() == s
    {
      this.env := env;
      eventTypes, schemas, events, triggers := s.eventTypes, s.schemas, s.events, s.triggers;
      queries, alerts, crons := s.queries, s.alerts, s.crons;
      jobs, removed, queue, issued := s.jobs, s.removed, s.queue, s.issued;
    }

    method NewIdent() returns (id: Id)
      modifies this`issued
      ensures id !in old(issued) && issued == old(issued) + {id}
    {
      ghost var unused := FanOutJoin.FreshId(issued);
      id :| id !in issued;
      issued := issued + {id};
    }

    method GetEventType(id: Id, fails: Faults) returns (et: Option<EventType>)
      ensures et == LookUpType(Stores(), id, fails)
    {
      if ReadType in fails || id !in eventTypes {
        return None;
      }
      return Some(eventTypes[id]);
    }

    // -------------------------------------------------------------- event types

    method PostEventType(et: EventType, now: string, fails: Faults)
      returns (id: Id, status: Status, response: EventType)
      requires Valid()
      modifies this
      ensures Valid()
      ensures TypeContract(env, old(Stores()), et, id, now, fails, Stores(), status)
      ensures status == Created ==> response == et.(eventTypeId := id, createdOn := now)
      ensures PostsEventType(old(Stores()), et, id, now, fails, Stores(), status, response)
    {
      id, status, response := PostEventTypeSteps(et, now, fails);
      PostEventTypeKeeps(env, old(Stores()), et, id, now, fails, Stores(), status, response);
      PostEventTypeMeans(env, old(Stores()), et, id, now, fails, Stores(), status, response);
      ServiceHistory.RefusedTypeRestores(env, old(Stores()), et, id, now, fails, Stores(), status, response);
    }

    method PostEventTypeSteps(et: EventType, now: string, fails: Faults)
      returns (id: Id, status: Status, response: EventType)
      modifies this
      ensures PostsEventType(old(Stores()), et, id, now, fails, Stores(), status, response)
    {
      id, response := "", et;
      if ReadSchemas in fails {
        return id, InternalError, response;
      }
      if et.name in schemas {
        return id, BadRequest, response;
      }
      var named := set i | i in eventTypes && eventTypes[i].name == et.name;
      if FindName in fails || |named| > 1 {
        return id, InternalError, response;
      }
      if named != {} {
        return id, BadRequest, response;
      }
      id := NewIdent();
      status, response := StoreNewType(et, id, now, fails);
    }

    method StoreNewType(et: EventType, id: Id, now: string, fails: Faults)
      returns (status: Status, response: EventType)
      modifies this
      ensures StoresNewType(old(Stores()), et, id, now, fails, Stores(), status, response)
    {
      var vars := GetVarsFromStructSkip(et.mapping, {});
      response := et.(eventTypeId := id, createdOn := now);
      var stored := response.(mapping := AddUniqueParams(et.name, et.mapping));
      var typesOk := EventValidator.LeafTypesAreValid(stored.mapping);
      ghost var leaves :| IsVars(stored.mapping, {}, leaves) && (typesOk <==> EventValidator.AllTypes(leaves));
      if HasTilde(vars) {
        return BadRequest, response;
      }
      if !typesOk {
        return BadRequest, response;
      }
      if WriteType in fails {
        return InternalError, response;
      }
      eventTypes := eventTypes[id := stored];
      var schema := ConstructEventMappingSchema(stored.mapping);
      if schema.Failed? || WriteSchema in fails {
        if UndoType !in fails {
          eventTypes := eventTypes - {id};
        }
        return InternalError, response;
      }
      schemas := schemas[et.name := Obj(schema.schema)];
      status := Created;
    }

    method DeleteEventType(id: Id, fails: Faults) returns (status: Status)
      requires Valid()
      modifies this`eventTypes
      ensures Valid()
      ensures status == OK <==> old(MayDeleteType(Stores(), id)) && DeleteTypeCallsWork(fails)
      ensures eventTypes == if status == OK then old(eventTypes) - {id} else old(eventTypes)
      ensures status == OK ==> Unnamed(Stores(), id)
      ensures DeletesEventType(old(Stores()), id, fails, Stores(), status)
    {
      status := DeleteEventTypeSteps(id, fails);
      DeleteEventTypeKeeps(env, old(Stores()), id, fails, Stores(), status);
      DeleteEventTypeMeans(env, old(Stores()), id, fails, Stores(), status);
    }

    method DeleteEventTypeSteps(id: Id, fails: Faults) returns (status: Status)
      modifies this`eventTypes
      ensures DeletesEventType(old(Stores()), id, fails, Stores(), status)
    {
      var found := GetEventType(id, fails);
      if found.None? {
        return NotFound;
      }
      var et := found.value;
      if IsSystemEvent(et.name) {
        return BadRequest;
      }
      if FindTriggers in fails {
        return BadRequest;
      }
      if exists t | t in triggers :: triggers[t].eventTypeId == id {
        return Forbidden;
      }
      if FindEvents in fails || et.name !in schemas {
        return BadRequest;
      }
      if exists slot | slot in events :: slot.typeName == et.name && events[slot].eventTypeId == id {
        return Forbidden;
      }
      if DeleteType in fails {
        return NotFound;
      }
      eventTypes := eventTypes - {id};
      status := OK;
    }

    // -------------------------------------------------------------- events

    /** EventDB.PostData. */
    method StoreEvent(e: Event, typeName: string, fails: Faults) returns (ok: bool)
      modifies this`events
      ensures Accepts(env, old(Stores()), typeName, e, fails, ok)
      ensures events == if ok then old(events)[Slot(typeName, e.eventId) := e] else old(events)
    {
      if ReadTypeAgain in fails || e.eventTypeId !in eventTypes {
        return false;
      }
      var et := eventTypes[e.eventTypeId];
      var verdict := EventValidator.VerifyEventReadyToPost(UnwrapOr(et.name, et.mapping), UnwrapOr(et.name, e.data));
      if !verdict.Ready? {
        return false;
      }
      if !IndexTakes(env, Stores(), typeName, e.data) || WriteEvent in fails {
        return false;
      }
      events := events[Slot(typeName, e.eventId) := e];
      ok := true;
    }

    method PostEvent(ev: Event, now: string, fails: Faults) returns (id: Id, status: Status, response: Event)
      requires Valid()
      modifies this
      ensures Valid()
      ensures EventContract(env, old(Stores()), ev, id, now, fails, Stores(), status)
      ensures status == Created ==> response == ev.(eventId := id, createdOn := now)
      ensures PostsEvent(env, old(Stores()), ev, id, now, fails, Stores(), status, response)
    {
      id, status, response := PostEventSteps(ev, now, fails);
      PostEventKeeps(env, old(Stores()), ev, id, now, fails, Stores(), status, response);
      PostEventMeans(env, old(Stores()), ev, id, now, fails, Stores(), status, response);
      if status == Created {
        JobsSent.CreatedResponse(env, old(Stores()), ev, id, now, fails, Stores(), response);
      }
    }

    method PostEventSteps(ev: Event, now: string, fails: Faults) returns (id: Id, status: Status, response: Event)
      modifies this
      ensures PostsEvent(env, old(Stores()), ev, id, now, fails, Stores(), status, response)
    {
      id, response := "", ev;
      var found := GetEventType(ev.eventTypeId, fails);
      if found.None? {
        return id, BadRequest, response;
      }
      id := NewIdent();
      status, response := StoreAndFire(found.value, ev, id, now, fails);
    }

    method StoreAndFire(et: EventType, ev: Event, id: Id, now: string, fails: Faults)
      returns (status: Status, response: Event)
      modifies this
      ensures StoresAndFires(env, old(Stores()), et, ev, id, now, fails, Stores(), status, response)
    {
      response := ev.(eventId := id, createdOn := now);
      var e := response.(data := AddUniqueParams(et.name, ev.data));
      var ok := StoreEvent(e, et.name, fails);
      if !ok {
        return BadRequest, response;
      }
      if Percolate in fails {
        return BadRequest, response;
      }
      status := RunTriggers(et, ev, e, now);
    }

    /** The ids of the matching queries, in any order. */
    method PercolateEventData(data: Fields) returns (matches: seq<Id>)
      ensures JobTemplate.IsOrdering(matches, MatchingQueries(env, Stores(), data))
    {
      var ids := MatchingQueries(env, Stores(), data);
      ghost var order := JobTemplate.SomeOrdering(ids);
      matches :| JobTemplate.IsOrdering(matches, ids);
    }

    method RunTriggers(et: EventType, ev: Event, e: Event, now: string) returns (status: Status)
      modifies this`alerts, this`queue, this`issued
      ensures RunsTriggers(env, old(Stores()), et, ev, e, now, Stores(), status,
                           ev.(eventId := e.eventId, createdOn := now))
    {
      var matches := PercolateEventData(e.data);
      var f;
      f, status := RunGoroutines(FanOutCall(env, Stores(), et, e, ev.data, matches, now));
      alerts, queue, issued := alerts + AlertMap(f.posted), queue + f.published, f.issued;
    }

    method RunGoroutines(call: FanOut.Call) returns (f: FanOut.State, status: Status)
      requires JobTemplate.Distinct(call.matches)
      ensures GoroutinesLeave(call, issued, f) && Answers(f, status)
    {
      var error, failure;
      f, error, failure := FanOutJoin.RunGoroutines(call, issued);
      status := if error then failure else Created;
    }

    method PostRepeatingEvent(ev: Event, now: string, fails: Faults) returns (id: Id, status: Status, response: Event)
      requires Valid()
      modifies this
      ensures Valid()
      ensures RepeatingEventContract(env, old(Stores()), ev, id, now, fails, Stores(), status)
      ensures status == Created ==> response == ev.(eventId := id, createdOn := now)
      ensures PostsRepeatingEvent(env, old(Stores()), ev, id, now, fails, Stores(), status, response)
    {
      id, status, response := PostRepeatingEventSteps(ev, now, fails);
      PostRepeatingEventKeeps(env, old(Stores()), ev, id, now, fails, Stores(), status, response);
      PostRepeatingEventMeans(env, old(Stores()), ev, id, now, fails, Stores(), status, response);
      ServiceHistory.RefusedRepeatingEventRestores(env, old(Stores()), ev, id, now, fails, Stores(), status, response);
    }

    method PostRepeatingEventSteps(ev: Event, now: string, fails: Faults)
      returns (id: Id, status: Status, response: Event)
      modifies this
      ensures PostsRepeatingEvent(env, old(Stores()), ev, id, now, fails, Stores(), status, response)
    {
      id, response := "", ev;
      var found := GetEventType(ev.eventTypeId, fails);
      if found.None? {
        return id, BadRequest, response;
      }
      if !env.cronParses(ev.cronSchedule) {
        return id, BadRequest, response;
      }
      id := NewIdent();
      status, response := ScheduleEvent(found.value, ev, id, now, fails);
    }

    method ScheduleEvent(et: EventType, ev: Event, id: Id, now: string, fails: Faults)
      returns (status: Status, response: Event)
      modifies this
      ensures Schedules(env, old(Stores()), et, ev, id, now, fails, Stores(), status, response)
    {
      response := ev.(eventId := id, createdOn := now);
      var e := response.(data := AddUniqueParams(et.name, ev.data));
      jobs := jobs + [CronJob(e, et.name, ev.cronSchedule)];
      if WriteCron in fails {
        return InternalError, response;
      }
      crons := crons[id := e];
      var ok := StoreEvent(e, et.name, fails);
      if !ok {
        if UndoCron !in fails {
          crons := crons - {id};
        }
        removed := removed + {id};
        return InternalError, response;
      }
      status := Created;
    }

    method DeleteEvent(id: Id, fails: Faults) returns (status: Status)
      requires Valid()
      modifies this`events, this`crons, this`removed
      ensures Valid()
      ensures status == OK <==> old(MayDeleteEvent(Stores(), id)) && DeleteCallsWork(old(Stores()), id, fails)
      ensures status == OK ==> id !in EventIds(Stores()) && id !in crons
      ensures status == OK ==> forall job | job in jobs && job.Key() == id :: id in removed
      ensures EventDeleted(old(Stores()), id, fails, Stores(), status)
      ensures DeletesEvent(old(Stores()), id, fails, Stores(), status)
    {
      status := DeleteEventSteps(id, fails);
      DeleteEventKeeps(env, old(Stores()), id, fails, Stores(), status);
      DeleteEventMeans(env, old(Stores()), id, fails, Stores(), status);
    }

    method DeleteEventSteps(id: Id, fails: Faults) returns (status: Status)
      modifies this`events, this`crons, this`removed
      ensures DeletesEvent(old(Stores()), id, fails, Stores(), status)
    {
      var types := TypesHolding(Stores(), id);
      if LookUpEvent in fails || types == {} {
        return NotFound;
      }
      var typeName :| typeName in types;
      if typeName == "" {
        return NotFound;
      }
      if IsSystemEvent(typeName) {
        return BadRequest;
      }
      if RemoveEvent in fails {
        return NotFound;
      }
      events := events - {Slot(typeName, id)};
      if LookUpCron in fails {
        return BadRequest;
      }
      if id in crons {
        if RemoveCron in fails {
          return NotFound;
        }
        crons := crons - {id};
        removed := removed + {id};
      }
      status := OK;
    }

    // -------------------------------------------------------------- triggers

    method PostTrigger(t: Trigger, now: string, fails: Faults) returns (id: Id, status: Status, response: Trigger)
      requires Valid()
      modifies this`issued, this`queries, this`triggers
      ensures Valid()
      ensures TriggerCreated(old(Stores()), t, id, now, fails, Stores(), status)
      ensures status == Created ==> response == t.(triggerId := id, createdOn := now)
      ensures PostsTrigger(old(Stores()), t, id, now, fails, Stores(), status, response)
    {
      id, status, response := PostTriggerSteps(t, now, fails);
      PostTriggerKeeps(env, old(Stores()), t, id, now, fails, Stores(), status, response);
      PostTriggerMeans(env, old(Stores()), t, id, now, fails, Stores(), status, response);
      ServiceHistory.RefusedTriggerRestores(env, old(Stores()), t, id, now, fails, Stores(), status, response);
    }

    method PostTriggerSteps(t: Trigger, now: string, fails: Faults) returns (id: Id, status: Status, response: Trigger)
      modifies this`issued, this`queries, this`triggers
      ensures PostsTrigger(old(Stores()), t, id, now, fails, Stores(), status, response)
    {
      id := NewIdent();
      response := t.(triggerId := id, createdOn := now);
      if t.eventTypeId == "" {
        return id, BadRequest, response;
      }
      var found := GetEventType(t.eventTypeId, fails);
      if found.None? {
        return id, BadRequest, response;
      }
      if !NamesService(t.job) || CheckService in fails || WriteQuery in fails {
        return id, BadRequest, response;
      }
      status := Register(found.value, t, id, now, fails);
    }

    method Register(et: EventType, t: Trigger, id: Id, now: string, fails: Faults) returns (status: Status)
      modifies this`queries, this`triggers
      ensures Registers(old(Stores()), et, t, id, now, fails, Stores(), status, t.(triggerId := id, createdOn := now))
    {
      var query := RewriteCondition(et.name, t.condition);
      queries := queries[id := query];
      var encoded := EncodeCondition(query);
      assert StoredForms(et.name, t.condition, query, encoded);
      if WriteTrigger in fails {
        if UndoQuery !in fails {
          queries := queries - {id};
        }
        return BadRequest;
      }
      triggers := triggers[id := t.(triggerId := id, createdOn := now, percolationId := id, condition := encoded)];
      status := Created;
    }

    method PutTrigger(id: Id, enabled: bool, fails: Faults) returns (status: Status)
      requires Valid()
      modifies this`triggers
      ensures Valid()
      ensures TriggerUpdated(old(Stores()), id, enabled, fails, Stores(), status)
      ensures PutsTrigger(old(Stores()), id, enabled, fails, Stores(), status)
    {
      status := PutTriggerSteps(id, enabled, fails);
      PutTriggerKeeps(env, old(Stores()), id, enabled, fails, Stores(), status);
      PutTriggerMeans(old(Stores()), id, enabled, fails, Stores(), status);
    }

    method PutTriggerSteps(id: Id, enabled: bool, fails: Faults) returns (status: Status)
      modifies this`triggers
      ensures PutsTrigger(old(Stores()), id, enabled, fails, Stores(), status)
    {
      if ReadTrigger in fails || id !in triggers {
        return NotFound;
      }
      if RewriteTrigger in fails {
        return BadRequest;
      }
      var condition := DecodeCondition(triggers[id].condition);
      var seen := triggers[id].(condition := condition);
      var doc := TriggerUpdates.UpdatedDocument(seen, enabled);
      var t := Reparse(seen.(enabled := enabled), doc);
      triggers := triggers[id := t];
      status := OK;
    }

    /** The stored document read as a trigger. */
    static method Reparse(t: Trigger, doc: Fields) returns (stored: Trigger)
      requires Renames(Encode(), Obj(TriggerTree(t)), Obj(doc))
      ensures doc == TriggerTree(stored)
    {
      forall leaf, k | DottedNames.DotFree(k) ensures Encode()(leaf, k) == k { TriggerUpdates.ToTildesDotFree(k); }
      ghost var c, d := TriggerUpdates.EncodedTrigger(Encode(), t, doc);
      TriggerUpdates.TriggerLeaves(TriggerUpdates.WithTrees(t, c, d));
      var condition, data := doc["condition"].fields, doc["job"].fields["jobType"].fields["data"].fields;
      stored := TriggerUpdates.WithTrees(t, condition, data);
    }

    method DeleteTrigger(id: Id, fails: Faults) returns (status: Status)
      requires Valid()
      modifies this`triggers, this`queries
      ensures Valid()
      ensures status == OK <==> id in old(triggers) && DeleteTriggerCallsWork(fails) && RemoveQuery !in fails
      ensures status == OK ==> triggers == old(triggers) - {id} && queries == old(queries) - {id}
      ensures TriggerDeleted(old(Stores()), id, fails, Stores(), status)
      ensures DeletesTrigger(old(Stores()), id, fails, Stores(), status)
    {
      status := DeleteTriggerSteps(id, fails);
      DeleteTriggerKeeps(env, old(Stores()), id, fails, Stores(), status);
      DeleteTriggerMeans(env, old(Stores()), id, fails, Stores(), status);
    }

    method DeleteTriggerSteps(id: Id, fails: Faults) returns (status: Status)
      modifies this`triggers, this`queries
      ensures DeletesTrigger(old(Stores()), id, fails, Stores(), status)
    {
      if ReadTrigger in fails || id !in triggers {
        return NotFound;
      }
      var query := triggers[id].percolationId;
      if RemoveTrigger in fails {
        return NotFound;
      }
      triggers := triggers - {id};
      if RemoveQuery in fails || query !in queries {
        return NotFound;
      }
      queries := queries - {query};
      status := OK;
    }

    // -------------------------------------------------------------- the scheduler

    method Fire(i: nat, now: string, fails: Faults) returns (id: Id, status: Status)
      requires Valid() && i < |jobs|
      modifies this
      ensures Valid()
      ensures FiringContract(env, old(Stores()), i, id, now, fails, Stores(), status)
      ensures Fires(env, old(Stores()), i, id, now, fails, Stores(), status)
    {
      id, status := FireSteps(i, now, fails);
      FireKeeps(env, old(Stores()), i, id, now, fails, Stores(), status);
      FireMeans(env, old(Stores()), i, id, now, fails, Stores(), status);
    }

    method FireSteps(i: nat, now: string, fails: Faults) returns (id: Id, status: Status)
      requires i < |jobs|
      modifies this
      ensures Fires(env, old(Stores()), i, id, now, fails, Stores(), status)
    {
      var job := jobs[i];
      if job.Key() in removed {
        jobs, removed := Dropped(jobs, i), removed - {job.Key()};
        return "", OK;
      }
      var response;
      id, status, response := PostEventSteps(FiredEvent(job, now), now, fails);
      PostsEventJobs(env, old(Stores()), FiredEvent(job, now), id, now, fails, Stores(), status, response);
      if IsOneShot(job.schedule) {
        jobs := Dropped(jobs, i);
      }
    }
  }
}
