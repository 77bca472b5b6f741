/** What holds over whole runs: what is never lost, and what never happens twice. */
module ServiceHistory {
  import opened Json
  import opened Records
  import opened ServiceSpec
  import opened ServiceInvariants
  import opened ServiceRuns

  // ---------------------------------------------------------------- system types and events

  /** The names of the two types that the service posts when it starts. */
  predicate IsSystemName(name: string) {
    name == "piazza:ingest" || name == "piazza:executionComplete"
  }

  ghost predicate KeepsSystem(s: State, s': State) {
    && (forall id | id in s.eventTypes && IsSystemName(s.eventTypes[id].name) ::
          id in s'.eventTypes && s'.eventTypes[id] == s.eventTypes[id])
    && (forall slot | slot in s.events && IsSystemName(slot.typeName) ::
          slot in s'.events && s'.events[slot] == s.events[slot])
  }

  /** New events under unused ids, new types under unused ids. */
  lemma AddingKeepsSystem(s: State, s': State, id: Id)
    requires s'.events == s.events || (OneNewEvent(s, id, s') && forall slot | slot in s.events :: slot.id != id)
    requires s'.eventTypes == s.eventTypes
             || (id !in s.eventTypes && id in s'.eventTypes && s'.eventTypes == s.eventTypes[id := s'.eventTypes[id]])
    ensures KeepsSystem(s, s')
  {
  }

  lemma PostEventTypeKeepsSystem(s: State, et: EventType, id: Id, now: string, fails: Faults,
                                 s': State, status: Status, r: EventType)
    requires IdsIssued(s) && PostsEventType(s, et, id, now, fails, s', status, r)
    ensures KeepsSystem(s, s')
  {
    if s' != s {
      PostsEventTypeEffect(s, et, id, now, fails, s', status, r);
      AddingKeepsSystem(s, s', id);
    }
  }

  lemma PostEventKeepsSystem(env: Env, s: State, ev: Event, id: Id, now: string, fails: Faults,
                             s': State, status: Status, r: Event)
    requires IdsIssued(s) && PostsEvent(env, s, ev, id, now, fails, s', status, r)
    ensures KeepsSystem(s, s')
  {
    PostsEventEffect(env, s, ev, id, now, fails, s', status, r);
    if s'.events != s.events { assert Slot(s.eventTypes[ev.eventTypeId].name, id) in s'.events; }
    AddingKeepsSystem(s, s', id);
  }

  lemma PostRepeatingEventKeepsSystem(env: Env, s: State, ev: Event, id: Id, now: string, fails: Faults,
                                      s': State, status: Status, r: Event)
    requires IdsIssued(s) && PostsRepeatingEvent(env, s, ev, id, now, fails, s', status, r)
    ensures KeepsSystem(s, s')
  {
    if s' != s {
      PostsRepeatingEventEffect(env, s, ev, id, now, fails, s', status, r);
      if s'.events != s.events { assert Slot(s.eventTypes[ev.eventTypeId].name, id) in s'.events; }
      AddingKeepsSystem(s, s', id);
    }
  }

  lemma FireKeepsSystem(env: Env, s: State, i: nat, id: Id, now: string, fails: Faults, s': State, status: Status)
    requires IdsIssued(s) && Fires(env, s, i, id, now, fails, s', status)
    ensures KeepsSystem(s, s')
  {
    FiresEffect(env, s, i, id, now, fails, s', status);
    AddingKeepsSystem(s, s', id);
  }

  lemma DeletesKeepSystem(s: State, id: Id, fails: Faults, s': State, status: Status)
    requires DeletesEventType(s, id, fails, s', status) || DeletesEvent(s, id, fails, s', status)
    ensures KeepsSystem(s, s')
  {
    if s' != s {
      if DeletesEventType(s, id, fails, s', status) {
        DeletesEventTypeEffect(s, id, fails, s', status);
      } else {
        var slot := DeletesEventEffect(s, id, fails, s', status);
      }
    }
  }

  lemma TakesKeepsSystem(env: Env, s: State, step: Step, s': State)
    requires IdsIssued(s) && Takes(env, s, step, s')
    ensures KeepsSystem(s, s')
  {
    var Step(request, id, now, fails, status) := step;
    match request {
      case PostEventType(et) =>
        var r :| PostsEventType(s, et, id, now, fails, s', status, r);
        PostEventTypeKeepsSystem(s, et, id, now, fails, s', status, r);
      case DeleteEventType(typeId) => DeletesKeepSystem(s, typeId, fails, s', status);
      case PostEvent(ev) =>
        var r :| PostsEvent(env, s, ev, id, now, fails, s', status, r);
        PostEventKeepsSystem(env, s, ev, id, now, fails, s', status, r);
      case PostRepeatingEvent(ev) =>
        var r :| PostsRepeatingEvent(env, s, ev, id, now, fails, s', status, r);
        PostRepeatingEventKeepsSystem(env, s, ev, id, now, fails, s', status, r);
      case DeleteEvent(eventId) => DeletesKeepSystem(s, eventId, fails, s', status);
      case Fire(i) => FireKeepsSystem(env, s, i, id, now, fails, s', status);
      case _ => TriggerStepFrame(env, s, step, s');
    }
  }

  /** Over every run the stored types "piazza:ingest" and "piazza:executionComplete" stay,
      and the events stored under them only grow. */
  lemma {:induction false} SystemEventsOnlyGrow(env: Env, s: State, steps: seq<Step>, s': State)
    requires Integrity(env, s) && Runs(env, s, steps, s')
    ensures KeepsSystem(s, s')
    decreases |steps|
  {
    if steps != [] {
      var mid :| Takes(env, s, steps[0], mid) && Runs(env, mid, steps[1..], s');
      IntegrityIds(env, s);
      TakesKeepsSystem(env, s, steps[0], mid);
      TakesKeeps(env, s, steps[0], mid);
      SystemEventsOnlyGrow(env, mid, steps[1..], s');
    }
  }

  // ---------------------------------------------------------------- names

  lemma SchemasStay(env: Env, s: State, step: Step, s': State)
    requires IdsIssued(s) && Takes(env, s, step, s')
    ensures s.schemas.Keys <= s'.schemas.Keys
  {
    if step.request.PostEventType? { NewTypeFrame(env, s, step, s'); } else { StepFrame(env, s, step, s'); }
  }

  predicate Creates(step: Step, name: string) {
    step.request.PostEventType? && step.request.et.name == name && step.status == Created
  }

  function Creations(steps: seq<Step>, name: string): nat {
    if steps == [] then 0 else (if Creates(steps[0], name) then 1 else 0) + Creations(steps[1..], name)
  }

  /** At most one PostEventType per name ever answers 201 in a whole run, deletions of the
      type in between notwithstanding, and none if the index knew the name before. */
  lemma {:induction false} NameCreatedOnce(env: Env, s: State, steps: seq<Step>, s': State, name: string)
    requires Integrity(env, s) && Runs(env, s, steps, s')
    ensures Creations(steps, name) <= if name in s.schemas then 0 else 1
    decreases |steps|
  {
    if steps != [] {
      var mid :| Takes(env, s, steps[0], mid) && Runs(env, mid, steps[1..], s');
      TakesKeeps(env, s, steps[0], mid);
      IntegrityIds(env, s);
      SchemasStay(env, s, steps[0], mid);
      if steps[0].request.PostEventType? { NewTypeFrame(env, s, steps[0], mid); }
      NameCreatedOnce(env, mid, steps[1..], s', name);
    }
  }

  // ---------------------------------------------------------------- failed posts

  /** Everything but the identifiers issued. */
  ghost predicate SameStores(s: State, s': State) {
    s' == s.(issued := s'.issued)
  }

  /** The entries of the scheduler that can still run. */
  function LiveJobs(s: State): set<CronJob> {
    set job | job in s.jobs && job.Key() !in s.removed
  }

  /** The type was stored, its mapping was refused, and the rollback failed. */
  predicate TypeStranded(fails: Faults, status: Status) {
    status == InternalError && UndoType in fails
    && ReadSchemas !in fails && FindName !in fails && WriteType !in fails
  }

  /** A PostEventType that is refused leaves every store as it was if and only if it did
      not get as far as a failing rollback; one that succeeds answers with the caller's own
      mapping. */
  lemma RefusedTypeRestores(env: Env, s: State, et: EventType, id: Id, now: string, fails: Faults,
                            s': State, status: Status, r: EventType)
    requires Integrity(env, s) && PostsEventType(s, et, id, now, fails, s', status, r)
    ensures status != Created ==> (SameStores(s, s') <==> !TypeStranded(fails, status))
    ensures status == Created ==> r == et.(eventTypeId := id, createdOn := now)
                                  && s'.eventTypes == s.eventTypes[id := StoredType(et, id, now)]
  {
    OneNamed(env, s, et.name);
    IntegrityIds(env, s);
    RefusedType(s, et, id, now, fails, s', status, r);
  }

  lemma OneNamed(env: Env, s: State, name: string)
    requires Integrity(env, s)
    ensures |Named(s, name)| <= 1
  {
    if i :| i in Named(s, name) {
      assert Named(s, name) == {i};
    } else {
      assert Named(s, name) == {};
    }
  }

  lemma RefusedType(s: State, et: EventType, id: Id, now: string, fails: Faults,
                    s': State, status: Status, r: EventType)
    requires IdsIssued(s) && |Named(s, et.name)| <= 1 && PostsEventType(s, et, id, now, fails, s', status, r)
    ensures status != Created ==> (SameStores(s, s') <==> !TypeStranded(fails, status))
    ensures status == Created ==> r == et.(eventTypeId := id, createdOn := now)
                                  && s'.eventTypes == s.eventTypes[id := StoredType(et, id, now)]
  {
    if id !in s.issued && ReadSchemas !in fails && FindName !in fails {
      var s0 := s.(issued := s.issued + {id});
      if StoresNewType(s0, et, id, now, fails, s', status, r) { RefusedNewType(s0, et, id, now, fails, s', status, r); }
    }
  }

  lemma RefusedNewType(s: State, et: EventType, id: Id, now: string, fails: Faults,
                       s': State, status: Status, r: EventType)
    requires id !in s.eventTypes && StoresNewType(s, et, id, now, fails, s', status, r)
    requires ReadSchemas !in fails && FindName !in fails
    ensures status != Created ==> (SameStores(s, s') <==> !TypeStranded(fails, status)) && s'.issued == s.issued
    ensures status == Created ==> r == et.(eventTypeId := id, createdOn := now)
                                  && s'.eventTypes == s.eventTypes[id := StoredType(et, id, now)]
  {
    NewTypeOrNothing(s, et, id, now, fails, s', status, r);
    if WriteType !in fails && AddsMapping(s, et, id, now, fails, s', status, r) {
      RefusedMapping(s, et, id, now, fails, s', status, r);
    }
  }

  lemma RefusedMapping(s: State, et: EventType, id: Id, now: string, fails: Faults,
                       s': State, status: Status, r: EventType)
    requires id !in s.eventTypes && AddsMapping(s, et, id, now, fails, s', status, r)
    ensures status != Created ==> (SameStores(s, s') <==> UndoType !in fails) && s'.issued == s.issued
    ensures status != Created ==> status == InternalError
    ensures status == Created ==> r == et.(eventTypeId := id, createdOn := now)
                                  && s'.eventTypes == s.eventTypes[id := StoredType(et, id, now)]
  {
    assert s.eventTypes[id := StoredType(et, id, now)] - {id} == s.eventTypes;
    assert id in s.eventTypes[id := StoredType(et, id, now)];
  }

  /** The query was registered, the trigger could not be stored, and the rollback failed. */
  predicate QueryStranded(s: State, t: Trigger, fails: Faults) {
    && LookUpType(s, t.eventTypeId, fails).Some? && t.eventTypeId != "" && NamesService(t.job)
    && CheckService !in fails && WriteQuery !in fails && WriteTrigger in fails && UndoQuery in fails
  }

  lemma RefusedTriggerRestores(env: Env, s: State, t: Trigger, id: Id, now: string, fails: Faults,
                               s': State, status: Status, r: Trigger)
    requires Integrity(env, s) && PostsTrigger(s, t, id, now, fails, s', status, r)
    ensures status != Created ==> (SameStores(s, s') <==> !QueryStranded(s, t, fails))
    ensures status == Created ==> r == t.(triggerId := id, createdOn := now) && id in s'.triggers
  {
    IntegrityIds(env, s);
    RefusedTrigger(s, t, id, now, fails, s', status, r);
  }

  lemma RefusedTrigger(s: State, t: Trigger, id: Id, now: string, fails: Faults, s': State, status: Status, r: Trigger)
    requires IdsIssued(s) && PostsTrigger(s, t, id, now, fails, s', status, r)
    ensures status != Created ==> (SameStores(s, s') <==> !QueryStranded(s, t, fails))
    ensures status == Created ==> r == t.(triggerId := id, createdOn := now) && id in s'.triggers
    ensures QueryStranded(s, t, fails) ==> status != Created
  {
    var s0 := s.(issued := s.issued + {id});
    if LookUpType(s, t.eventTypeId, fails).Some? && t.eventTypeId != "" && NamesService(t.job)
       && CheckService !in fails && WriteQuery !in fails && WriteTrigger in fails
    {
      var query, encoded :| StoredForms(s.eventTypes[t.eventTypeId].name, t.condition, query, encoded)
                            && Registered(s0, t, id, now, fails, query, encoded, s', status, r);
      RefusedRegistration(s0, t, id, now, fails, query, encoded, s', status, r);
    }
  }

  lemma RefusedRegistration(s: State, t: Trigger, id: Id, now: string, fails: Faults, query: Fields, encoded: Fields,
                            s': State, status: Status, r: Trigger)
    requires Registered(s, t, id, now, fails, query, encoded, s', status, r) && WriteTrigger in fails
             && id !in s.queries
    ensures s' == s <==> UndoQuery !in fails
    ensures s' == s.(queries := s'.queries) && status == BadRequest
  {
    assert s.queries[id := query] - {id} == s.queries;
    assert id in s.queries[id := query];
  }

  /** A PostRepeatingEvent that is refused leaves the stores and the jobs that can run as
      they were if and only if it was refused before anything was written, or neither the
      write to the cron store nor its rollback failed. */
  lemma RefusedRepeatingEventRestores(env: Env, s: State, ev: Event, id: Id, now: string, fails: Faults,
                                      s': State, status: Status, r: Event)
    requires Integrity(env, s) && PostsRepeatingEvent(env, s, ev, id, now, fails, s', status, r)
    ensures status != Created ==>
              (LiveJobs(s') == LiveJobs(s) && SameStores(s, s'.(jobs := s.jobs, removed := s.removed)) <==>
               LookUpType(s, ev.eventTypeId, fails).None? || !env.cronParses(ev.cronSchedule)
               || (WriteCron !in fails && UndoCron !in fails))
    ensures status == Created ==> r == ev.(eventId := id, createdOn := now)
  {
    if status != Created && LookUpType(s, ev.eventTypeId, fails).Some? && env.cronParses(ev.cronSchedule) {
      UnusedId(env, s, id);
      var et := s.eventTypes[ev.eventTypeId];
      var job := CronJob(StoredEvent(ev, et.name, id, now), et.name, ev.cronSchedule);
      if WriteCron in fails {
        StrayJob(s, job, s');
      } else {
        RefusedSchedule(env, s, ev, id, now, fails, s', status, r);
      }
    }
  }

  lemma StrayJob(s: State, job: CronJob, s': State)
    requires job.Key() !in JobKeys(s) && job.Key() !in s.removed
    requires s'.jobs == s.jobs + [job] && s'.removed == s.removed
    ensures job in LiveJobs(s') && job !in LiveJobs(s)
  {
    assert s'.jobs[|s.jobs|] == job;
  }

  lemma RefusedSchedule(env: Env, s: State, ev: Event, id: Id, now: string, fails: Faults,
                        s': State, status: Status, r: Event)
    requires PostsRepeatingEvent(env, s, ev, id, now, fails, s', status, r)
    requires LookUpType(s, ev.eventTypeId, fails).Some? && env.cronParses(ev.cronSchedule)
    requires id !in s.crons && id !in JobKeys(s) && status != Created && WriteCron !in fails
    ensures LiveJobs(s') == LiveJobs(s)
    ensures SameStores(s, s'.(jobs := s.jobs, removed := s.removed)) <==> UndoCron !in fails
  {
    var et := s.eventTypes[ev.eventTypeId];
    var e := StoredEvent(ev, et.name, id, now);
    RefusedShape(env, s.(issued := s.issued + {id}), et, ev, id, now, fails, s', status, r);
    assert id in s.crons[id := e];
    SameLiveJobs(s, CronJob(e, et.name, ev.cronSchedule), s');
  }

  lemma RefusedShape(env: Env, s: State, et: EventType, ev: Event, id: Id, now: string, fails: Faults,
                     s': State, status: Status, r: Event)
    requires Schedules(env, s, et, ev, id, now, fails, s', status, r) && status != Created && WriteCron !in fails
    requires id !in s.crons
    ensures var e := StoredEvent(ev, et.name, id, now);
            s' == s.(jobs := s.jobs + [CronJob(e, et.name, ev.cronSchedule)], removed := s.removed + {id},
                     crons := if UndoCron in fails then s.crons[id := e] else s.crons)
  {
    ScheduleShape(env, s, et, ev, id, now, fails, s', status, r);
    RefusedMarks(env, s, et, ev, id, now, fails, s', status, r);
    assert s.crons[id := StoredEvent(ev, et.name, id, now)] - {id} == s.crons;
  }

  lemma RefusedMarks(env: Env, s: State, et: EventType, ev: Event, id: Id, now: string, fails: Faults,
                     s': State, status: Status, r: Event)
    requires Schedules(env, s, et, ev, id, now, fails, s', status, r) && status != Created && WriteCron !in fails
    ensures s'.removed == s.removed + {id} && s'.events == s.events
    ensures var crons := s.crons[id := StoredEvent(ev, et.name, id, now)];
            s'.crons == if UndoCron in fails then crons else crons - {id}
  {
  }

  lemma SameLiveJobs(s: State, job: CronJob, s': State)
    requires job.Key() !in JobKeys(s)
    requires s'.jobs == s.jobs + [job] && s'.removed == s.removed + {job.Key()}
    ensures LiveJobs(s') == LiveJobs(s)
  {
    forall j | j in s.jobs ensures j.Key() != job.Key() { assert j.Key() in JobKeys(s); }
  }

  /** If the write to the cron store fails the job stays scheduled, though its event was
      never stored. */
  lemma UnstoredJobStays(env: Env, s: State, ev: Event, id: Id, now: string, fails: Faults,
                         s': State, status: Status, r: Event)
    requires Integrity(env, s) && PostsRepeatingEvent(env, s, ev, id, now, fails, s', status, r)
    requires WriteCron in fails && s' != s
    ensures status == InternalError && (exists job :: job in LiveJobs(s') && job.Key() == id)
    ensures id !in s'.crons && forall slot | slot in s'.events :: slot.id != id
  {
    UnusedId(env, s, id);
    var et := s.eventTypes[ev.eventTypeId];
    StrayJob(s, CronJob(StoredEvent(ev, et.name, id, now), et.name, ev.cronSchedule), s');
  }
}
