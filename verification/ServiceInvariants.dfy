/** What every operation keeps, whatever store calls fail. */
module ServiceInvariants {
  import opened Json
  import opened Records
  import opened ConditionTrees
  import opened TriggerConditions
  import opened MappingCompiler
  import opened ServiceSpec
  import DottedNames
  import EventValidator
  import FanOut
  import FanOutSafety
  import JobTemplate
  import TriggerUpdates

  // ---------------------------------------------------------------- the invariant

  function Mapping(et: EventType): Fields {
    UnwrapOr(et.name, et.mapping)
  }

  /** A stored type is filed under its id, its mapping nested under its name; if the
      event index knows the name, it has the schema compiled from that mapping. */
  ghost predicate TypeOk(s: State, id: Id) {
    && id in s.issued && id in s.eventTypes
    && var et := s.eventTypes[id];
       && et.eventTypeId == id && et.mapping == AddUniqueParams(et.name, Mapping(et))
       && (et.name in s.schemas ==>
             ValidMapping(Obj(et.mapping)) && s.schemas[et.name] == Schema(Obj(et.mapping)))
  }

  ghost predicate Types(s: State) {
    && (forall id | id in s.eventTypes :: TypeOk(s, id))
    && (forall i, j | i in s.eventTypes && j in s.eventTypes && s.eventTypes[i].name == s.eventTypes[j].name :: i == j)
  }

  /** A stored event names a stored type, sits under that type's name, with its data
      nested once under it, and has passed the validator and the schema. */
  ghost predicate EventOk(env: Env, s: State, slot: Slot) {
    && slot in s.events && slot.id in s.issued
    && var e := s.events[slot];
       && e.eventId == slot.id && e.eventTypeId in s.eventTypes
       && var et := s.eventTypes[e.eventTypeId];
          && et.name == slot.typeName && et.name in s.schemas
          && e.data == AddUniqueParams(et.name, UnwrapOr(et.name, e.data))
          && EventValidator.MayBeStored(env.parses, et.name, Mapping(et), UnwrapOr(et.name, e.data))
  }

  ghost predicate Events(env: Env, s: State) {
    && (forall slot | slot in s.events :: EventOk(env, s, slot))
    && (forall a, b | a in s.events && b in s.events && a.id == b.id :: a == b)
  }

  /** A stored trigger names a stored type and has its own percolation query. */
  ghost predicate TriggerOk(s: State, id: Id) {
    && id in s.triggers && id in s.issued && id in s.queries
    && s.triggers[id].triggerId == id && s.triggers[id].percolationId == id
    && s.triggers[id].eventTypeId in s.eventTypes
  }

  ghost predicate Triggers(s: State) {
    forall id | id in s.triggers :: TriggerOk(s, id)
  }

  ghost predicate Issued(s: State) {
    && s.queries.Keys <= s.issued && s.alerts.Keys <= s.issued
    && s.crons.Keys <= s.issued && s.removed <= s.issued
    && (forall i | 0 <= i < |s.jobs| :: s.jobs[i].Key() in s.issued)
  }

  /** A scheduler entry for a stored event is for a stored cron event. */
  ghost predicate JobsBacked(s: State) {
    JobKeys(s) * EventIds(s) <= s.crons.Keys
  }

  function JobKeys(s: State): set<Id> {
    set job | job in s.jobs :: job.Key()
  }

  function EventIds(s: State): set<Id> {
    set slot | slot in s.events :: slot.id
  }

  ghost predicate Integrity(env: Env, s: State) {
    Types(s) && Events(env, s) && Triggers(s) && Issued(s) && JobsBacked(s)
  }

  // ---------------------------------------------------------------- frames

  lemma TypesFrame(s: State, s': State)
    requires Types(s) && s.issued <= s'.issued && s'.schemas == s.schemas
    requires forall id | id in s'.eventTypes :: id in s.eventTypes && s'.eventTypes[id] == s.eventTypes[id]
    ensures Types(s')
  {
    forall id | id in s'.eventTypes ensures TypeOk(s', id) { assert TypeOk(s, id); }
  }

  /** The types that the events of s' name are still there. */
  ghost predicate TypesUsed(s: State, s': State) {
    && s.issued <= s'.issued && s.schemas.Keys <= s'.schemas.Keys
    && forall slot | slot in s'.events && slot in s.events && s.events[slot].eventTypeId in s.eventTypes ::
         var id := s.events[slot].eventTypeId;
         id in s'.eventTypes && s'.eventTypes[id] == s.eventTypes[id]
  }

  lemma TypesStillUsed(s: State, s': State)
    requires s.issued <= s'.issued && s.schemas.Keys <= s'.schemas.Keys
    requires forall id | id in s.eventTypes :: id in s'.eventTypes && s'.eventTypes[id] == s.eventTypes[id]
    ensures TypesUsed(s, s')
  {
  }

  lemma EventOkFrame(env: Env, s: State, s': State, slot: Slot)
    requires EventOk(env, s, slot) && TypesUsed(s, s') && slot in s'.events && s'.events[slot] == s.events[slot]
    ensures EventOk(env, s', slot)
  {
  }

  lemma EventsFrame(env: Env, s: State, s': State)
    requires Events(env, s) && TypesUsed(s, s')
    requires forall slot | slot in s'.events :: slot in s.events && s'.events[slot] == s.events[slot]
    ensures Events(env, s')
  {
    forall slot | slot in s'.events ensures EventOk(env, s', slot) {
      assert EventOk(env, s, slot);
      EventOkFrame(env, s, s', slot);
    }
  }

  lemma TriggersFrame(s: State, s': State)
    requires Triggers(s) && s.issued <= s'.issued && s.queries.Keys <= s'.queries.Keys && s'.triggers == s.triggers
    requires forall id | id in s.triggers && s.triggers[id].eventTypeId in s.eventTypes ::
               s.triggers[id].eventTypeId in s'.eventTypes
    ensures Triggers(s')
  {
    forall id | id in s'.triggers ensures TriggerOk(s', id) { assert TriggerOk(s, id); }
  }

  /** Operations that leave types, events and triggers alone. */
  lemma Untouched(env: Env, s: State, s': State)
    requires Integrity(env, s) && s.issued <= s'.issued && s.queries == s'.queries && Issued(s') && JobsBacked(s')
    requires s'.eventTypes == s.eventTypes && s'.schemas == s.schemas
    requires s'.events == s.events && s'.triggers == s.triggers
    ensures Integrity(env, s')
  {
    TypesFrame(s, s');
    EventsFrame(env, s, s');
    TriggersFrame(s, s');
  }

  /** Everything stored has an issued id. */
  ghost predicate IdsIssued(s: State) {
    && (forall slot | slot in s.events :: slot.id in s.issued)
    && s.eventTypes.Keys <= s.issued && s.triggers.Keys <= s.issued && s.queries.Keys <= s.issued
  }

  lemma IntegrityIds(env: Env, s: State)
    requires Integrity(env, s)
    ensures IdsIssued(s)
  {
    forall slot | slot in s.events ensures slot.id in s.issued { assert EventOk(env, s, slot); }
    forall id | id in s.eventTypes ensures id in s.issued { assert TypeOk(s, id); }
    forall id | id in s.triggers ensures id in s.issued { assert TriggerOk(s, id); }
  }

  // ---------------------------------------------------------------- event types

  lemma PostEventTypeKeeps(env: Env, s: State, et: EventType, id: Id, now: string, fails: Faults,
                           s': State, status: Status, response: EventType)
    requires Integrity(env, s) && PostsEventType(s, et, id, now, fails, s', status, response)
    ensures Integrity(env, s')
  {
    if s' != s {
      var s0 := s.(issued := s.issued + {id});
      assert forall i | i in s.eventTypes ::
        TypeOk(s, i) && (s.eventTypes[i].name == et.name ==> i in Named(s, et.name));
      IssueKeeps(env, s, s0);
      if s' != s0 {
        NewTypeKeeps(env, s0, et, id, now, fails, s', status, response);
      }
    }
  }

  lemma IssueKeeps(env: Env, s: State, s': State)
    requires Integrity(env, s) && s' == s.(issued := s'.issued) && s.issued <= s'.issued
    ensures Integrity(env, s')
  {
    Untouched(env, s, s');
  }

  /** A new type is refused with nothing changed, or added. */
  lemma NewTypeOrNothing(s: State, et: EventType, id: Id, now: string, fails: Faults,
                         s': State, status: Status, response: EventType)
    requires StoresNewType(s, et, id, now, fails, s', status, response)
    ensures (s' == s && status != Created && (status == InternalError ==> WriteType in fails))
            || (WriteType !in fails && AddsMapping(s, et, id, now, fails, s', status, response))
  {
  }

  lemma AddsMappingEffect(s: State, et: EventType, id: Id, now: string, fails: Faults,
                          s': State, status: Status, response: EventType)
    requires id !in s.eventTypes && AddsMapping(s, et, id, now, fails, s', status, response)
    ensures s' == s || s' == WithType(s, et, id, now, s.schemas)
            || (ValidMapping(Obj(StoredType(et, id, now).mapping))
                && s' == WithType(s, et, id, now, s.schemas[et.name := Schema(Obj(StoredType(et, id, now).mapping))]))
  {
    assert s.eventTypes[id := StoredType(et, id, now)] - {id} == s.eventTypes;
  }

  function WithType(s: State, et: EventType, id: Id, now: string, schemas: map<string, Json>): State {
    s.(eventTypes := s.eventTypes[id := StoredType(et, id, now)], schemas := schemas)
  }

  lemma NewTypes(s: State, et: EventType, id: Id, now: string, s': State)
    requires Types(s) && id in s.issued && et.name !in s.schemas
    requires forall i | i in s.eventTypes :: s.eventTypes[i].name != et.name
    requires s' == WithType(s, et, id, now, s'.schemas)
    requires s'.schemas == s.schemas
             || (ValidMapping(Obj(StoredType(et, id, now).mapping))
                 && s'.schemas == s.schemas[et.name := Schema(Obj(StoredType(et, id, now).mapping))])
    ensures Types(s')
  {
    var stored := StoredType(et, id, now);
    assert Mapping(stored) == et.mapping;
    forall i | i in s'.eventTypes ensures TypeOk(s', i) { if i != id { assert TypeOk(s, i); } }
  }

  lemma NewTypeKeeps(env: Env, s: State, et: EventType, id: Id, now: string, fails: Faults,
                     s': State, status: Status, response: EventType)
    requires Integrity(env, s) && id in s.issued && id !in s.eventTypes && et.name !in s.schemas
    requires forall i | i in s.eventTypes :: s.eventTypes[i].name != et.name
    requires AddsMapping(s, et, id, now, fails, s', status, response)
    ensures Integrity(env, s')
  {
    AddsMappingEffect(s, et, id, now, fails, s', status, response);
    if s' != s {
      NewTypes(s, et, id, now, s');
      AddedTypeKeeps(env, s, id, s');
    }
  }

  lemma AddedTypeKeeps(env: Env, s: State, id: Id, s': State)
    requires Integrity(env, s) && Types(s') && s.schemas.Keys <= s'.schemas.Keys && id !in s.eventTypes
             && id in s'.eventTypes
    requires s' == s.(eventTypes := s.eventTypes[id := s'.eventTypes[id]], schemas := s'.schemas)
    ensures Integrity(env, s')
  {
    TypesStillUsed(s, s');
    EventsFrame(env, s, s');
    TriggersFrame(s, s');
  }

  lemma DeletesEventTypeEffect(s: State, id: Id, fails: Faults, s': State, status: Status)
    requires DeletesEventType(s, id, fails, s', status) && s' != s
    ensures id in s.eventTypes && s' == s.(eventTypes := s.eventTypes - {id})
    ensures !IsSystemEvent(s.eventTypes[id].name)
    ensures forall t | t in s.triggers :: s.triggers[t].eventTypeId != id
    ensures forall slot | slot in s.events ::
              slot.typeName == s.eventTypes[id].name ==> s.events[slot].eventTypeId != id
  {
  }

  lemma EventNamesOther(env: Env, s: State, id: Id, slot: Slot)
    requires EventOk(env, s, slot) && id in s.eventTypes
    requires slot.typeName == s.eventTypes[id].name ==> s.events[slot].eventTypeId != id
    ensures s.events[slot].eventTypeId != id
  {
  }

  lemma DeletedTypeUnused(env: Env, s: State, id: Id, s': State)
    requires Events(env, s) && id in s.eventTypes && s' == s.(eventTypes := s.eventTypes - {id})
    requires forall slot | slot in s.events ::
               slot.typeName == s.eventTypes[id].name ==> s.events[slot].eventTypeId != id
    ensures Events(env, s')
  {
    forall slot | slot in s.events ensures s.events[slot].eventTypeId != id { EventNamesOther(env, s, id, slot); }
    EventsFrame(env, s, s');
  }

  lemma DeleteEventTypeKeeps(env: Env, s: State, id: Id, fails: Faults, s': State, status: Status)
    requires Integrity(env, s) && DeletesEventType(s, id, fails, s', status)
    ensures Integrity(env, s')
  {
    if s' != s {
      DeletesEventTypeEffect(s, id, fails, s', status);
      DeletedTypeUnused(env, s, id, s');
      TypesFrame(s, s');
      TriggersFrame(s, s');
    }
  }

  // ---------------------------------------------------------------- events

  /** What EventDB.PostData lets through satisfies both checks. */
  lemma AcceptedMayBeStored(env: Env, s: State, et: EventType, e: Event, fails: Faults)
    requires e.eventTypeId in s.eventTypes && s.eventTypes[e.eventTypeId] == et && TypeOk(s, e.eventTypeId)
    requires e.data == AddUniqueParams(et.name, UnwrapOr(et.name, e.data))
    requires Accepts(env, s, et.name, e, fails, true)
    ensures et.name in s.schemas
    ensures EventValidator.MayBeStored(env.parses, et.name, Mapping(et), UnwrapOr(et.name, e.data))
  {
    var m, d := Mapping(et), UnwrapOr(et.name, e.data);
    assert et.mapping == AddUniqueParams(et.name, m) && ValidMapping(Obj(et.mapping));
    assert ValidMapping(Obj(et.mapping).fields[et.name]);
    var mv, dv :| EventValidator.Flattened(m, d, mv, dv) && EventValidator.Agree(mv, dv);
  }

  lemma NewEventOk(env: Env, s: State, et: EventType, ev: Event, id: Id, now: string, fails: Faults, s': State)
    requires Types(s) && id in s.issued && ev.eventTypeId in s.eventTypes && s.eventTypes[ev.eventTypeId] == et
    requires var e := StoredEvent(ev, et.name, id, now);
             Accepts(env, s, et.name, e, fails, true) && s' == s.(events := s.events[Slot(et.name, id) := e])
    ensures EventOk(env, s', Slot(et.name, id))
  {
    var e := StoredEvent(ev, et.name, id, now);
    assert TypeOk(s, ev.eventTypeId);
    assert UnwrapOr(et.name, e.data) == ev.data;
    AcceptedMayBeStored(env, s, et, e, fails);
  }

  lemma StoreEventKeeps(env: Env, s: State, et: EventType, ev: Event, id: Id, now: string, fails: Faults, s': State)
    requires Integrity(env, s) && id in s.issued
    requires ev.eventTypeId in s.eventTypes && s.eventTypes[ev.eventTypeId] == et
    requires forall slot | slot in s.events :: slot.id != id
    requires id !in JobKeys(s)
    requires var e := StoredEvent(ev, et.name, id, now);
             Accepts(env, s, et.name, e, fails, true) && s' == s.(events := s.events[Slot(et.name, id) := e])
    ensures Integrity(env, s')
  {
    NewEventOk(env, s, et, ev, id, now, fails, s');
    OneMoreEvent(env, s, s', Slot(et.name, id));
    TypesFrame(s, s');
    TriggersFrame(s, s');
    NewEventBacked(s, s', Slot(et.name, id));
  }

  lemma NewEventBacked(s: State, s': State, slot: Slot)
    requires JobsBacked(s) && s'.jobs == s.jobs && s'.crons == s.crons
    requires slot in s'.events && s'.events == s.events[slot := s'.events[slot]] && slot.id !in JobKeys(s)
    ensures JobsBacked(s')
  {
    assert EventIds(s') == EventIds(s) + {slot.id};
  }

  lemma OneMoreEvent(env: Env, s: State, s': State, slot: Slot)
    requires Events(env, s) && slot in s'.events && s' == s.(events := s.events[slot := s'.events[slot]])
    requires EventOk(env, s', slot) && forall other | other in s.events :: other.id != slot.id
    ensures Events(env, s')
  {
    forall other | other in s'.events ensures EventOk(env, s', other) {
      if other != slot {
        assert EventOk(env, s, other);
        EventOkFrame(env, s, s', other);
      }
    }
  }

  lemma {:induction false} AlertMapKeys(posted: seq<Alert>)
    ensures AlertMap(posted).Keys == set a | a in posted :: a.alertId
  {
    if posted != [] {
      var init, last := posted[..|posted| - 1], posted[|posted| - 1];
      AlertMapKeys(init);
      assert posted == init + [last];
    }
  }

  lemma FanOutWitness(env: Env, s: State, et: EventType, ev: Event, e: Event, now: string,
                      s': State, status: Status, response: Event)
    returns (matches: seq<Id>, f: FanOut.State)
    requires RunsTriggers(env, s, et, ev, e, now, s', status, response)
    ensures JobTemplate.IsOrdering(matches, MatchingQueries(env, s, e.data))
    ensures GoroutinesLeave(FanOutCall(env, s, et, e, ev.data, matches, now), s.issued, f)
    ensures s' == AfterFanOut(s, f) && Answers(f, status)
    ensures f.results == map[] ==> response == ev.(eventId := e.eventId, createdOn := now)
  {
    matches, f :|
      && JobTemplate.IsOrdering(matches, MatchingQueries(env, s, e.data))
      && GoroutinesLeave(FanOutCall(env, s, et, e, ev.data, matches, now), s.issued, f)
      && s' == AfterFanOut(s, f)
      && Answers(f, status) && (f.results == map[] ==> response == ev.(eventId := e.eventId, createdOn := now));
  }

  lemma AfterFanOutEffect(s: State, call: FanOut.Call, f: FanOut.State)
    requires JobTemplate.Distinct(call.matches) && GoroutinesLeave(call, s.issued, f)
    ensures s.issued <= f.issued && AfterFanOut(s, f).alerts.Keys <= s.alerts.Keys + f.issued
  {
    PostedIssued(call, s.issued, f);
  }

  lemma RunsTriggersEffect(env: Env, s: State, et: EventType, ev: Event, e: Event, now: string,
                           s': State, status: Status, response: Event)
    requires RunsTriggers(env, s, et, ev, e, now, s', status, response)
    ensures s' == s.(alerts := s'.alerts, queue := s'.queue, issued := s'.issued)
    ensures s.issued <= s'.issued && s'.alerts.Keys <= s.alerts.Keys + s'.issued
  {
    var matches, f := FanOutWitness(env, s, et, ev, e, now, s', status, response);
    assert JobTemplate.Distinct(matches);
    AfterFanOutEffect(s, FanOutCall(env, s, et, e, ev.data, matches, now), f);
  }

  lemma FanOutKeeps(env: Env, s: State, et: EventType, ev: Event, e: Event, now: string,
                    s': State, status: Status, response: Event)
    requires Integrity(env, s) && RunsTriggers(env, s, et, ev, e, now, s', status, response)
    ensures Integrity(env, s')
  {
    RunsTriggersEffect(env, s, et, ev, e, now, s', status, response);
    AlertsKeep(env, s, s');
  }

  lemma PostedIssued(call: FanOut.Call, issued: set<Id>, f: FanOut.State)
    requires JobTemplate.Distinct(call.matches) && FanOutSafety.Reachable(call, issued, f)
    ensures AlertMap(f.posted).Keys <= f.issued && issued <= f.issued
  {
    FanOutSafety.ReachableSafe(call, issued, f);
    AlertMapKeys(f.posted);
    forall a | a in f.posted ensures a.alertId in f.issued { assert FanOutSafety.AlertOk(call, f, a); }
  }

  lemma AlertsKeep(env: Env, s: State, s': State)
    requires Integrity(env, s) && s' == s.(alerts := s'.alerts, queue := s'.queue, issued := s'.issued)
    requires s.issued <= s'.issued && s'.alerts.Keys <= s.alerts.Keys + s'.issued
    ensures Integrity(env, s')
  {
    Untouched(env, s, s');
  }

  lemma PostEventKeeps(env: Env, s: State, ev: Event, id: Id, now: string, fails: Faults,
                       s': State, status: Status, response: Event)
    requires Integrity(env, s) && PostsEvent(env, s, ev, id, now, fails, s', status, response)
    ensures Integrity(env, s')
  {
    if LookUpType(s, ev.eventTypeId, fails).Some? {
      var et := s.eventTypes[ev.eventTypeId];
      var s0 := s.(issued := s.issued + {id});
      IssueKeeps(env, s, s0);
      UnusedId(env, s, id);
      var e := StoredEvent(ev, et.name, id, now);
      var s1 := s0.(events := s.events[Slot(et.name, id) := e]);
      if s' != s0 || !Accepts(env, s0, et.name, e, fails, false) {
        StoreEventKeeps(env, s0, et, ev, id, now, fails, s1);
        if Percolate !in fails { FanOutKeeps(env, s1, et, ev, e, now, s', status, response); }
      }
    }
  }

  lemma UnusedId(env: Env, s: State, id: Id)
    requires Integrity(env, s) && id !in s.issued
    ensures forall slot | slot in s.events :: slot.id != id
    ensures id !in s.triggers && id !in s.queries && id !in s.crons && id !in s.eventTypes && id !in s.removed
    ensures id !in JobKeys(s)
  {
    forall slot | slot in s.events ensures slot.id != id { assert EventOk(env, s, slot); }
    assert id in s.triggers ==> TriggerOk(s, id);
    assert id in s.eventTypes ==> TypeOk(s, id);
  }

  lemma CronKeeps(env: Env, s: State, s': State)
    requires Integrity(env, s) && s' == s.(crons := s'.crons, jobs := s'.jobs, removed := s'.removed)
    requires Issued(s') && JobsBacked(s')
    ensures Integrity(env, s')
  {
    Untouched(env, s, s');
  }

  lemma ScheduleShape(env: Env, s: State, et: EventType, ev: Event, id: Id, now: string, fails: Faults,
                      s': State, status: Status, response: Event)
    requires Schedules(env, s, et, ev, id, now, fails, s', status, response)
    ensures var job := CronJob(StoredEvent(ev, et.name, id, now), et.name, ev.cronSchedule);
            s' == s.(events := s'.events, jobs := s.jobs + [job], crons := s'.crons, removed := s'.removed)
  {
  }

  lemma ScheduledCrons(env: Env, s: State, et: EventType, ev: Event, id: Id, now: string, fails: Faults,
                       s': State, status: Status, response: Event)
    requires Schedules(env, s, et, ev, id, now, fails, s', status, response)
    ensures s'.crons.Keys <= s.crons.Keys + {id} && s'.removed <= s.removed + {id}
  {
    var crons := s.crons[id := StoredEvent(ev, et.name, id, now)];
    assert crons.Keys == s.crons.Keys + {id} && (crons - {id}).Keys <= crons.Keys;
    assert s'.crons == s.crons || s'.crons == crons || s'.crons == crons - {id};
  }

  lemma ScheduledEvents(env: Env, s: State, et: EventType, ev: Event, id: Id, now: string, fails: Faults,
                        s': State, status: Status, response: Event)
    requires Schedules(env, s, et, ev, id, now, fails, s', status, response)
    ensures var e := StoredEvent(ev, et.name, id, now);
            s'.events == s.events
            || (Accepts(env, s, et.name, e, fails, true) && s'.events == s.events[Slot(et.name, id) := e])
  {
  }

  lemma SchedulesEffect(env: Env, s: State, et: EventType, ev: Event, id: Id, now: string, fails: Faults,
                        s': State, status: Status, response: Event)
    requires Schedules(env, s, et, ev, id, now, fails, s', status, response)
    ensures var e := StoredEvent(ev, et.name, id, now);
            && s' == s.(events := s'.events, jobs := s.jobs + [CronJob(e, et.name, ev.cronSchedule)],
                        crons := s'.crons, removed := s'.removed)
            && s'.crons.Keys <= s.crons.Keys + {id} && s'.removed <= s.removed + {id}
            && (s'.events == s.events
                || (Accepts(env, s, et.name, e, fails, true) && s'.events == s.events[Slot(et.name, id) := e]))
  {
    ScheduleShape(env, s, et, ev, id, now, fails, s', status, response);
    ScheduledCrons(env, s, et, ev, id, now, fails, s', status, response);
    ScheduledEvents(env, s, et, ev, id, now, fails, s', status, response);
  }

  lemma IssuedAfterSchedule(s: State, s': State, job: CronJob)
    requires Issued(s) && job.Key() in s.issued
    requires s' == s.(events := s'.events, jobs := s.jobs + [job], crons := s'.crons, removed := s'.removed)
    requires s'.crons.Keys <= s.crons.Keys + {job.Key()} && s'.removed <= s.removed + {job.Key()}
    ensures Issued(s')
  {
  }

  lemma ScheduleKeeps(env: Env, s: State, et: EventType, ev: Event, id: Id, now: string, fails: Faults,
                      s': State, status: Status, response: Event)
    requires Integrity(env, s) && id in s.issued
    requires ev.eventTypeId in s.eventTypes && s.eventTypes[ev.eventTypeId] == et
    requires forall slot | slot in s.events :: slot.id != id
    requires id !in JobKeys(s)
    requires Schedules(env, s, et, ev, id, now, fails, s', status, response)
    ensures Integrity(env, s')
  {
    SchedulesEffect(env, s, et, ev, id, now, fails, s', status, response);
    ScheduleBacked(env, s, et, ev, id, now, fails, s', status, response);
    var s1 := s.(events := s'.events);
    if s'.events != s.events { StoreEventKeeps(env, s, et, ev, id, now, fails, s1); }
    IssuedAfterSchedule(s1, s', CronJob(StoredEvent(ev, et.name, id, now), et.name, ev.cronSchedule));
    CronKeeps(env, s1, s');
  }

  lemma ScheduleBacked(env: Env, s: State, et: EventType, ev: Event, id: Id, now: string, fails: Faults,
                       s': State, status: Status, response: Event)
    requires JobsBacked(s) && id !in EventIds(s) && Schedules(env, s, et, ev, id, now, fails, s', status, response)
    ensures JobsBacked(s')
  {
    var e := StoredEvent(ev, et.name, id, now);
    ScheduleShape(env, s, et, ev, id, now, fails, s', status, response);
    JobsAppended(s, s', CronJob(e, et.name, ev.cronSchedule));
    if status == Created {
      assert EventIds(s') == EventIds(s) + {id} by {
        assert s'.events == s.events[Slot(et.name, id) := e];
        EventAdded(s, s', Slot(et.name, id), e);
      }
      assert s'.crons == s.crons[id := e];
    } else {
      CronsKept(env, s, et, ev, id, now, fails, s', status, response);
    }
  }

  lemma JobsAppended(s: State, s': State, job: CronJob)
    requires s'.jobs == s.jobs + [job]
    ensures JobKeys(s') == JobKeys(s) + {job.Key()}
  {
    assert s'.jobs[|s.jobs|] == job;
  }

  lemma EventAdded(s: State, s': State, slot: Slot, e: Event)
    requires s'.events == s.events[slot := e]
    ensures EventIds(s') == EventIds(s) + {slot.id}
  {
  }

  lemma CronsKept(env: Env, s: State, et: EventType, ev: Event, id: Id, now: string, fails: Faults,
                  s': State, status: Status, response: Event)
    requires Schedules(env, s, et, ev, id, now, fails, s', status, response) && status != Created
    ensures s'.events == s.events && s.crons.Keys - {id} <= s'.crons.Keys
  {
  }

  lemma PostRepeatingEventKeeps(env: Env, s: State, ev: Event, id: Id, now: string, fails: Faults,
                                s': State, status: Status, response: Event)
    requires Integrity(env, s) && PostsRepeatingEvent(env, s, ev, id, now, fails, s', status, response)
    ensures Integrity(env, s')
  {
    if s' != s {
      var s0 := s.(issued := s.issued + {id});
      IssueKeeps(env, s, s0);
      UnusedId(env, s, id);
      ScheduleKeeps(env, s0, s.eventTypes[ev.eventTypeId], ev, id, now, fails, s', status, response);
    }
  }

  lemma IssuedAfterDelete(env: Env, s: State, id: Id, s': State)
    requires Issued(s)
    requires s' == s.(events := s'.events, crons := s'.crons, removed := s'.removed)
    requires s'.crons.Keys <= s.crons.Keys
    requires s'.removed == s.removed || (id in s.crons && s'.removed == s.removed + {id})
    ensures Issued(s')
  {
  }

  lemma DeletesEventEffect(s: State, id: Id, fails: Faults, s': State, status: Status) returns (slot: Slot)
    requires DeletesEvent(s, id, fails, s', status) && s' != s
    ensures slot in s.events && slot.id == id && !IsSystemEvent(slot.typeName)
    ensures s' == s.(events := s.events - {slot}, crons := s'.crons, removed := s'.removed)
    ensures if status == OK && id in s.crons then s'.crons == s.crons - {id} && s'.removed == s.removed + {id}
            else s'.crons == s.crons && s'.removed == s.removed
  {
    var name :| name in TypesHolding(s, id) && DeletesEventOf(s, Slot(name, id), fails, s', status);
    slot := Slot(name, id);
  }

  lemma DeleteEventKeeps(env: Env, s: State, id: Id, fails: Faults, s': State, status: Status)
    requires Integrity(env, s) && DeletesEvent(s, id, fails, s', status)
    ensures Integrity(env, s')
  {
    if s' != s {
      var slot := DeletesEventEffect(s, id, fails, s', status);
      EventGone(env, s, slot, s');
    }
  }

  lemma EventGone(env: Env, s: State, slot: Slot, s': State)
    requires Integrity(env, s) && slot in s.events
    requires s' == s.(events := s.events - {slot}, crons := s'.crons, removed := s'.removed)
    requires (s'.crons == s.crons && s'.removed == s.removed)
             || (slot.id in s.crons && s'.crons == s.crons - {slot.id} && s'.removed == s.removed + {slot.id})
    ensures Integrity(env, s')
  {
    IssuedAfterDelete(env, s, slot.id, s');
    EventRemoved(env, s, slot, s');
    DeletedBacked(s, s', slot);
  }

  lemma EventRemoved(env: Env, s: State, slot: Slot, s': State)
    requires Types(s) && Events(env, s) && Triggers(s)
    requires s' == s.(events := s.events - {slot}, crons := s'.crons, removed := s'.removed)
    ensures Types(s') && Events(env, s') && Triggers(s')
  {
    TypesFrame(s, s');
    TypesStillUsed(s, s');
    EventsFrame(env, s, s');
    TriggersFrame(s, s');
  }

  lemma DeletedBacked(s: State, s': State, slot: Slot)
    requires JobsBacked(s) && s'.jobs == s.jobs && s'.events == s.events - {slot}
             && s.crons.Keys - {slot.id} <= s'.crons.Keys
    requires slot in s.events && forall a, b | a in s.events && b in s.events && a.id == b.id :: a == b
    ensures JobsBacked(s') && slot.id !in EventIds(s')
  {
    assert EventIds(s') <= EventIds(s);
    assert slot.id !in EventIds(s');
  }

  lemma DroppedIssued(s: State, i: nat, s': State)
    requires Issued(s) && JobsBacked(s) && i < |s.jobs|
    requires s' == s.(jobs := Dropped(s.jobs, i), removed := s'.removed) && s'.removed <= s.removed
    ensures Issued(s') && JobsBacked(s')
  {
    assert forall j | 0 <= j < |s'.jobs| :: s'.jobs[j] == s.jobs[if j < i then j else j + 1];
    assert JobKeys(s') <= JobKeys(s);
  }

  lemma DropKeeps(env: Env, s: State, i: nat, s': State)
    requires Integrity(env, s) && i < |s.jobs|
    requires s' == s.(jobs := Dropped(s.jobs, i), removed := s'.removed) && s'.removed <= s.removed
    ensures Integrity(env, s')
  {
    DroppedIssued(s, i, s');
    CronKeeps(env, s, s');
  }

  /** PostEvent leaves the scheduler alone. */
  lemma PostsEventJobs(env: Env, s: State, ev: Event, id: Id, now: string, fails: Faults,
                       s': State, status: Status, response: Event)
    requires PostsEvent(env, s, ev, id, now, fails, s', status, response)
    ensures s'.jobs == s.jobs
  {
    if s' != s {
      var et := s.eventTypes[ev.eventTypeId];
      var s0 := s.(issued := s.issued + {id});
      var e := StoredEvent(ev, et.name, id, now);
      var s1 := s0.(events := s.events[Slot(et.name, id) := e]);
      if s' != s0 && s' != s1 {
        RunsTriggersEffect(env, s1, et, ev, e, now, s', status, response);
      }
    }
  }

  lemma FireKeeps(env: Env, s: State, i: nat, id: Id, now: string, fails: Faults, s': State, status: Status)
    requires Integrity(env, s) && Fires(env, s, i, id, now, fails, s', status)
    ensures Integrity(env, s')
  {
    if s.jobs[i].Key() in s.removed {
      DropKeeps(env, s, i, s');
    } else {
      var mid, response := FiredEventPosted(env, s, i, id, now, fails, s', status);
      PostEventKeeps(env, s, FiredEvent(s.jobs[i], now), id, now, fails, mid, status, response);
      if s' != mid { DropKeeps(env, mid, i, s'); }
    }
  }

  lemma FiredEventPosted(env: Env, s: State, i: nat, id: Id, now: string, fails: Faults, s': State, status: Status)
    returns (mid: State, response: Event)
    requires Fires(env, s, i, id, now, fails, s', status) && s.jobs[i].Key() !in s.removed
    ensures PostsEvent(env, s, FiredEvent(s.jobs[i], now), id, now, fails, mid, status, response)
    ensures mid.jobs == s.jobs && s' == if IsOneShot(s.jobs[i].schedule) then mid.(jobs := Dropped(s.jobs, i)) else mid
  {
    mid, response :|
      && PostsEvent(env, s, FiredEvent(s.jobs[i], now), id, now, fails, mid, status, response)
      && s' == (if IsOneShot(s.jobs[i].schedule) then mid.(jobs := Dropped(s.jobs, i)) else mid);
    PostsEventJobs(env, s, FiredEvent(s.jobs[i], now), id, now, fails, mid, status, response);
  }

  // ---------------------------------------------------------------- triggers

  lemma TriggersKeep(env: Env, s: State, s': State)
    requires Integrity(env, s) && s' == s.(triggers := s'.triggers, queries := s'.queries)
    requires s'.queries.Keys <= s.issued && Triggers(s')
    ensures Integrity(env, s')
  {
    TypesFrame(s, s');
    EventsFrame(env, s, s');
  }

  lemma RegisteredQueries(s: State, t: Trigger, id: Id, now: string, fails: Faults, query: Fields, encoded: Fields,
                          s': State, status: Status, response: Trigger)
    requires Registered(s, t, id, now, fails, query, encoded, s', status, response)
    ensures s' == s.(queries := s'.queries, triggers := s'.triggers)
    ensures s.queries.Keys - {id} <= s'.queries.Keys <= s.queries.Keys + {id}
    ensures forall q | q in s.queries && q != id :: s'.queries[q] == s.queries[q]
  {
    assert s'.queries == s.queries[id := query] || s'.queries == s.queries[id := query] - {id};
  }

  lemma RegisteredTriggers(s: State, t: Trigger, id: Id, now: string, fails: Faults, query: Fields, encoded: Fields,
                           s': State, status: Status, response: Trigger)
    requires Registered(s, t, id, now, fails, query, encoded, s', status, response)
    ensures s'.triggers == s.triggers
            || (status == Created && id in s'.queries && id in s'.triggers
                && s'.triggers == s.triggers[id := s'.triggers[id]]
                && s'.triggers[id].triggerId == id && s'.triggers[id].percolationId == id
                && s'.triggers[id].eventTypeId == t.eventTypeId)
  {
  }

  lemma RegistersEffect(s: State, et: EventType, t: Trigger, id: Id, now: string, fails: Faults,
                        s': State, status: Status, response: Trigger)
    requires Registers(s, et, t, id, now, fails, s', status, response)
    ensures s' == s.(queries := s'.queries, triggers := s'.triggers)
    ensures s.queries.Keys - {id} <= s'.queries.Keys <= s.queries.Keys + {id}
    ensures forall q | q in s.queries && q != id :: s'.queries[q] == s.queries[q]
    ensures s'.triggers == s.triggers
            || (status == Created && id in s'.queries && id in s'.triggers
                && s'.triggers == s.triggers[id := s'.triggers[id]]
                && s'.triggers[id].triggerId == id && s'.triggers[id].percolationId == id
                && s'.triggers[id].eventTypeId == t.eventTypeId)
  {
    var query, encoded :|
      StoredForms(et.name, t.condition, query, encoded)
      && Registered(s, t, id, now, fails, query, encoded, s', status, response);
    RegisteredQueries(s, t, id, now, fails, query, encoded, s', status, response);
    RegisteredTriggers(s, t, id, now, fails, query, encoded, s', status, response);
  }

  lemma PostsTriggerEffect(s: State, t: Trigger, id: Id, now: string, fails: Faults,
                           s': State, status: Status, response: Trigger)
    requires PostsTrigger(s, t, id, now, fails, s', status, response)
    ensures id !in s.issued
    ensures s' == s.(issued := s.issued + {id}, queries := s'.queries, triggers := s'.triggers)
    ensures s.queries.Keys - {id} <= s'.queries.Keys <= s.queries.Keys + {id}
    ensures forall q | q in s.queries && q != id :: s'.queries[q] == s.queries[q]
    ensures s'.triggers == s.triggers
            || (status == Created && id in s'.queries && id in s'.triggers
                && s'.triggers == s.triggers[id := s'.triggers[id]]
                && s'.triggers[id].triggerId == id && s'.triggers[id].percolationId == id
                && s'.triggers[id].eventTypeId == t.eventTypeId && t.eventTypeId in s.eventTypes)
  {
    var s0 := s.(issued := s.issued + {id});
    if s' != s0 && LookUpType(s, t.eventTypeId, fails).Some? {
      RegistersEffect(s0, s.eventTypes[t.eventTypeId], t, id, now, fails, s', status, response);
    }
  }

  lemma NewTriggers(s: State, id: Id, s': State)
    requires Triggers(s) && id !in s.triggers && id !in s.queries
    requires s' == s.(issued := s.issued + {id}, queries := s'.queries, triggers := s'.triggers)
    requires s.queries.Keys - {id} <= s'.queries.Keys
    requires s'.triggers == s.triggers
             || (id in s'.triggers && s'.triggers == s.triggers[id := s'.triggers[id]] && TriggerOk(s', id))
    ensures Triggers(s')
  {
    forall i | i in s'.triggers ensures TriggerOk(s', i) { if i != id { assert TriggerOk(s, i); } }
  }

  lemma PostTriggerKeeps(env: Env, s: State, t: Trigger, id: Id, now: string, fails: Faults,
                         s': State, status: Status, response: Trigger)
    requires Integrity(env, s) && PostsTrigger(s, t, id, now, fails, s', status, response)
    ensures Integrity(env, s')
  {
    PostsTriggerEffect(s, t, id, now, fails, s', status, response);
    var s0 := s.(issued := s.issued + {id});
    IssueKeeps(env, s, s0);
    UnusedId(env, s, id);
    NewTriggers(s, id, s');
    TriggersKeep(env, s0, s');
  }

  /** What an update stores: only the condition and the job's data are walked. */
  lemma PutWalksTrees(seen: Trigger, t: Trigger)
    requires Renames(Encode(), Obj(TriggerTree(seen)), Obj(TriggerTree(t)))
    ensures t == TriggerUpdates.WithTrees(seen, t.condition, t.job.jobType.data)
    ensures Renames(Encode(), Obj(seen.condition), Obj(t.condition))
    ensures Renames(Encode(), Obj(seen.job.jobType.data), Obj(t.job.jobType.data))
  {
    forall leaf, k | DottedNames.DotFree(k) ensures Encode()(leaf, k) == k { TriggerUpdates.ToTildesDotFree(k); }
    var c, d := TriggerUpdates.EncodedTrigger(Encode(), seen, TriggerTree(t));
    TriggerUpdates.TriggerTreeInjective(t, TriggerUpdates.WithTrees(seen, c, d));
  }

  lemma PutsTriggerEffect(s: State, id: Id, enabled: bool, fails: Faults, s': State, status: Status)
    requires PutsTrigger(s, id, enabled, fails, s', status)
    ensures s' == s || (id in s.triggers && id in s'.triggers && s' == s.(triggers := s.triggers[id := s'.triggers[id]])
                        && var t, t' := s.triggers[id], s'.triggers[id];
                           t'.triggerId == t.triggerId && t'.percolationId == t.percolationId
                           && t'.eventTypeId == t.eventTypeId && t'.enabled == enabled)
  {
    if status == OK { PutKeepsTrigger(s, id, enabled, fails, s'); }
  }

  lemma PutStored(s: State, id: Id, enabled: bool, fails: Faults, s': State) returns (seen: Trigger)
    requires PutsTrigger(s, id, enabled, fails, s', OK)
    ensures id in s.triggers && id in s'.triggers && s' == s.(triggers := s.triggers[id := s'.triggers[id]])
    ensures Reads(s.triggers[id], seen)
    ensures Renames(Encode(), Obj(TriggerTree(seen.(enabled := enabled))), Obj(TriggerTree(s'.triggers[id])))
  {
    var t;
    seen, t :|
      && Reads(s.triggers[id], seen) && s' == s.(triggers := s.triggers[id := t])
      && Renames(Encode(), Obj(TriggerTree(seen.(enabled := enabled))), Obj(TriggerTree(t)));
  }

  lemma PutKeepsTrigger(s: State, id: Id, enabled: bool, fails: Faults, s': State)
    requires PutsTrigger(s, id, enabled, fails, s', OK)
    ensures id in s.triggers && id in s'.triggers && s' == s.(triggers := s.triggers[id := s'.triggers[id]])
    ensures var t, t' := s.triggers[id], s'.triggers[id];
            && t'.enabled == enabled && t'.triggerId == t.triggerId && t'.percolationId == t.percolationId
            && t'.eventTypeId == t.eventTypeId
  {
    var seen := PutStored(s, id, enabled, fails, s');
    PutWalksTrees(seen.(enabled := enabled), s'.triggers[id]);
  }

  lemma PutTriggerKeeps(env: Env, s: State, id: Id, enabled: bool, fails: Faults, s': State, status: Status)
    requires Integrity(env, s) && PutsTrigger(s, id, enabled, fails, s', status)
    ensures Integrity(env, s')
  {
    PutsTriggerEffect(s, id, enabled, fails, s', status);
    if s' != s {
      UpdatedTriggers(s, id, s');
      TriggersKeep(env, s, s');
    }
  }

  lemma UpdatedTriggers(s: State, id: Id, s': State)
    requires Triggers(s) && id in s.triggers && id in s'.triggers
    requires s' == s.(triggers := s.triggers[id := s'.triggers[id]])
    requires s'.triggers[id].triggerId == s.triggers[id].triggerId
    requires s'.triggers[id].percolationId == s.triggers[id].percolationId
    requires s'.triggers[id].eventTypeId == s.triggers[id].eventTypeId
    ensures Triggers(s')
  {
    forall i | i in s'.triggers ensures TriggerOk(s', i) { assert TriggerOk(s, i); }
  }

  lemma DeletesTriggerEffect(s: State, id: Id, fails: Faults, s': State, status: Status)
    requires DeletesTrigger(s, id, fails, s', status)
    ensures s' == s.(triggers := s'.triggers, queries := s'.queries) && s'.triggers.Keys <= s.triggers.Keys
  {
  }

  lemma DeleteTriggerKeeps(env: Env, s: State, id: Id, fails: Faults, s': State, status: Status)
    requires Integrity(env, s) && DeletesTrigger(s, id, fails, s', status)
    ensures Integrity(env, s')
  {
    if s' != s {
      assert TriggerOk(s, id);
      forall i | i in s'.triggers ensures TriggerOk(s', i) { assert TriggerOk(s, i); }
      TriggersKeep(env, s, s');
    }
  }
}
