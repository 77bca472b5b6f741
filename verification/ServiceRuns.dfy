/** Runs of the service: any sequence of requests and scheduler firings, with any store
    calls failing in each. */
module ServiceRuns {
  import opened Json
  import opened Records
  import opened ServiceSpec
  import opened ServiceInvariants
  import EventValidator

  datatype Request =
    | PostEventType(et: EventType)
    | DeleteEventType(typeId: Id)
    | PostEvent(ev: Event)
    | PostRepeatingEvent(ev: Event)
    | DeleteEvent(eventId: Id)
    | PostTrigger(t: Trigger)
    | PutTrigger(triggerId: Id, enabled: bool)
    | DeleteTrigger(triggerId: Id)
    | Fire(i: nat)

  datatype Step = Step(request: Request, id: Id, now: string, fails: Faults, status: Status)

  ghost predicate Takes(env: Env, s: State, step: Step, s': State) {
    var Step(request, id, now, fails, status) := step;
    match request
    case PostEventType(et) => exists r :: PostsEventType(s, et, id, now, fails, s', status, r)
    case DeleteEventType(typeId) => DeletesEventType(s, typeId, fails, s', status)
    case PostEvent(ev) => exists r :: PostsEvent(env, s, ev, id, now, fails, s', status, r)
    case PostRepeatingEvent(ev) => exists r :: PostsRepeatingEvent(env, s, ev, id, now, fails, s', status, r)
    case DeleteEvent(eventId) => DeletesEvent(s, eventId, fails, s', status)
    case PostTrigger(t) => exists r :: PostsTrigger(s, t, id, now, fails, s', status, r)
    case PutTrigger(triggerId, enabled) => PutsTrigger(s, triggerId, enabled, fails, s', status)
    case DeleteTrigger(triggerId) => DeletesTrigger(s, triggerId, fails, s', status)
    case Fire(i) => Fires(env, s, i, id, now, fails, s', status)
  }

  ghost predicate Runs(env: Env, s: State, steps: seq<Step>, s': State)
    decreases |steps|
  {
    if steps == [] then s == s'
    else exists mid :: Takes(env, s, steps[0], mid) && Runs(env, mid, steps[1..], s')
  }

  lemma StepThenRun(env: Env, s: State, step: Step, mid: State, steps: seq<Step>, s': State)
    requires Takes(env, s, step, mid) && Runs(env, mid, steps, s')
    ensures Runs(env, s, [step] + steps, s')
  {
    assert ([step] + steps)[1..] == steps;
  }

  /** A run with the states it goes through. */
  ghost predicate Path(env: Env, states: seq<State>, steps: seq<Step>) {
    |states| == |steps| + 1 && forall i | 0 <= i < |steps| :: Takes(env, states[i], steps[i], states[i + 1])
  }

  /** Empty stores; the event index may already have types. */
  function Initial(schemas: map<string, Json>): State {
    State(map[], schemas, map[], map[], map[], map[], map[], [], {}, [], {})
  }

  // ---------------------------------------------------------------- integrity

  lemma TakesKeeps(env: Env, s: State, step: Step, s': State)
    requires Integrity(env, s) && Takes(env, s, step, s')
    ensures Integrity(env, s')
  {
    var Step(request, id, now, fails, status) := step;
    match request {
      case PostEventType(et) =>
        var r :| PostsEventType(s, et, id, now, fails, s', status, r);
        PostEventTypeKeeps(env, s, et, id, now, fails, s', status, r);
      case DeleteEventType(typeId) => DeleteEventTypeKeeps(env, s, typeId, fails, s', status);
      case PostEvent(ev) =>
        var r :| PostsEvent(env, s, ev, id, now, fails, s', status, r);
        PostEventKeeps(env, s, ev, id, now, fails, s', status, r);
      case PostRepeatingEvent(ev) =>
        var r :| PostsRepeatingEvent(env, s, ev, id, now, fails, s', status, r);
        PostRepeatingEventKeeps(env, s, ev, id, now, fails, s', status, r);
      case DeleteEvent(eventId) => DeleteEventKeeps(env, s, eventId, fails, s', status);
      case PostTrigger(t) =>
        var r :| PostsTrigger(s, t, id, now, fails, s', status, r);
        PostTriggerKeeps(env, s, t, id, now, fails, s', status, r);
      case PutTrigger(triggerId, enabled) => PutTriggerKeeps(env, s, triggerId, enabled, fails, s', status);
      case DeleteTrigger(triggerId) => DeleteTriggerKeeps(env, s, triggerId, fails, s', status);
      case Fire(i) => FireKeeps(env, s, i, id, now, fails, s', status);
    }
  }

  lemma {:induction false} RunsKeep(env: Env, s: State, steps: seq<Step>, s': State)
    requires Integrity(env, s) && Runs(env, s, steps, s')
    ensures Integrity(env, s')
    decreases |steps|
  {
    if steps != [] {
      var mid :| Takes(env, s, steps[0], mid) && Runs(env, mid, steps[1..], s');
      TakesKeeps(env, s, steps[0], mid);
      RunsKeep(env, mid, steps[1..], s');
    }
  }

  ghost predicate Reachable(env: Env, s: State) {
    exists schemas, steps :: Runs(env, Initial(schemas), steps, s)
  }

  lemma ReachableKeeps(env: Env, s: State)
    requires Reachable(env, s)
    ensures Integrity(env, s)
  {
    var schemas, steps :| Runs(env, Initial(schemas), steps, s);
    RunsKeep(env, Initial(schemas), steps, s);
  }

  /** In every reachable state, whatever failed on the way: every stored event and trigger
      names a stored type, and every event sits under that type's name, nested once
      under it, and satisfies both the validator and the compiled schema. */
  lemma ReferentialIntegrity(env: Env, s: State)
    requires Reachable(env, s)
    ensures forall slot | slot in s.events ::
              var e := s.events[slot];
              && e.eventId == slot.id && e.eventTypeId in s.eventTypes
              && s.eventTypes[e.eventTypeId].name == slot.typeName
              && e.data == AddUniqueParams(slot.typeName, UnwrapOr(slot.typeName, e.data))
              && EventValidator.MayBeStored(env.parses, slot.typeName, Mapping(s.eventTypes[e.eventTypeId]),
                                            UnwrapOr(slot.typeName, e.data))
    ensures forall t | t in s.triggers :: s.triggers[t].eventTypeId in s.eventTypes
  {
    ReachableKeeps(env, s);
    forall slot | slot in s.events ensures EventOk(env, s, slot) { }
    forall t | t in s.triggers ensures s.triggers[t].eventTypeId in s.eventTypes { assert TriggerOk(s, t); }
  }

  /** Stored types have distinct names, a failed rollback included. */
  lemma NamesAreUnique(env: Env, s: State, i: Id, j: Id)
    requires Reachable(env, s) && i in s.eventTypes && j in s.eventTypes
    ensures s.eventTypes[i].name == s.eventTypes[j].name <==> i == j
  {
    ReachableKeeps(env, s);
  }

  /** Every stored trigger has its own percolation query. */
  lemma TriggersHaveQueries(env: Env, s: State)
    requires Reachable(env, s)
    ensures s.triggers.Keys <= s.queries.Keys
    ensures forall t | t in s.triggers :: s.triggers[t].percolationId == t
  {
    ReachableKeeps(env, s);
    forall t | t in s.triggers ensures t in s.queries && s.triggers[t].percolationId == t { assert TriggerOk(s, t); }
  }

  // ---------------------------------------------------------------- what a step leaves alone

  lemma PostsEventEffect(env: Env, s: State, ev: Event, id: Id, now: string, fails: Faults,
                         s': State, status: Status, r: Event)
    requires PostsEvent(env, s, ev, id, now, fails, s', status, r)
    ensures s' == s.(events := s'.events, alerts := s'.alerts, queue := s'.queue, issued := s'.issued)
    ensures s.issued <= s'.issued
    ensures s'.events == s.events
            || (&& ev.eventTypeId in s.eventTypes && id !in s.issued
                && var name := s.eventTypes[ev.eventTypeId].name;
                   s'.events == s.events[Slot(name, id) := StoredEvent(ev, name, id, now)])
  {
    if s' != s {
      var et := s.eventTypes[ev.eventTypeId];
      var s0 := s.(issued := s.issued + {id});
      var e := StoredEvent(ev, et.name, id, now);
      var s1 := s0.(events := s.events[Slot(et.name, id) := e]);
      if s' != s0 && s' != s1 {
        RunsTriggersEffect(env, s1, et, ev, e, now, s', status, r);
      }
    }
  }

  lemma PostsEventTypeEffect(s: State, et: EventType, id: Id, now: string, fails: Faults,
                             s': State, status: Status, r: EventType)
    requires PostsEventType(s, et, id, now, fails, s', status, r) && id !in s.eventTypes
    ensures s' == s.(eventTypes := s'.eventTypes, schemas := s'.schemas, issued := s'.issued)
    ensures s.issued <= s'.issued <= s.issued + {id}
    ensures s'.eventTypes == s.eventTypes
            || (id in s'.eventTypes && s'.eventTypes == s.eventTypes[id := s'.eventTypes[id]])
    ensures s.schemas.Keys <= s'.schemas.Keys
    ensures status == Created ==> et.name !in s.schemas && et.name in s'.schemas
  {
    if s' != s {
      var s0 := s.(issued := s.issued + {id});
      NewTypeOrNothing(s0, et, id, now, fails, s', status, r);
      if s' != s0 { NewTypeEffects(s0, et, id, now, fails, s', status, r); }
    }
  }

  lemma NewTypeEffects(s: State, et: EventType, id: Id, now: string, fails: Faults,
                       s': State, status: Status, r: EventType)
    requires id !in s.eventTypes && AddsMapping(s, et, id, now, fails, s', status, r)
    ensures s' == s.(eventTypes := s'.eventTypes, schemas := s'.schemas)
    ensures s'.eventTypes == s.eventTypes
            || (id in s'.eventTypes && s'.eventTypes == s.eventTypes[id := s'.eventTypes[id]])
    ensures s.schemas.Keys <= s'.schemas.Keys && (status == Created ==> et.name in s'.schemas)
  {
    AddsMappingEffect(s, et, id, now, fails, s', status, r);
  }

  lemma PostsRepeatingEventEffect(env: Env, s: State, ev: Event, id: Id, now: string, fails: Faults,
                                  s': State, status: Status, r: Event)
    requires PostsRepeatingEvent(env, s, ev, id, now, fails, s', status, r) && s' != s
    ensures s' == s.(events := s'.events, jobs := s'.jobs, crons := s'.crons, removed := s'.removed,
                     issued := s.issued + {id})
    ensures ev.eventTypeId in s.eventTypes && id !in s.issued
    ensures var name := s.eventTypes[ev.eventTypeId].name;
            var e := StoredEvent(ev, name, id, now);
            s'.jobs == s.jobs + [CronJob(e, name, ev.cronSchedule)]
            && (s'.events == s.events || s'.events == s.events[Slot(name, id) := e])
  {
    var s0 := s.(issued := s.issued + {id});
    SchedulesEffect(env, s0, s.eventTypes[ev.eventTypeId], ev, id, now, fails, s', status, r);
  }

  ghost predicate OneNewEvent(s: State, id: Id, s': State) {
    exists slot | slot in s'.events :: slot.id == id && s'.events == s.events[slot := s'.events[slot]]
  }

  lemma FiresEffect(env: Env, s: State, i: nat, id: Id, now: string, fails: Faults, s': State, status: Status)
    requires Fires(env, s, i, id, now, fails, s', status)
    ensures i < |s.jobs| && s.issued <= s'.issued
    ensures s' == s.(events := s'.events, alerts := s'.alerts, queue := s'.queue, jobs := s'.jobs,
                     removed := s'.removed, issued := s'.issued)
    ensures s'.events == s.events || (id !in s.issued && OneNewEvent(s, id, s'))
    ensures var marked := s.jobs[i].Key() in s.removed;
            && s'.removed == (if marked then s.removed - {s.jobs[i].Key()} else s.removed)
            && s'.jobs == (if marked || IsOneShot(s.jobs[i].schedule) then Dropped(s.jobs, i) else s.jobs)
            && (marked ==> s'.events == s.events && s'.alerts == s.alerts && s'.queue == s.queue)
  {
    if s.jobs[i].Key() !in s.removed {
      var mid, r := FiredEventPosted(env, s, i, id, now, fails, s', status);
      PostsOneEvent(env, s, FiredEvent(s.jobs[i], now), id, now, fails, mid, status, r);
      SameNewEvent(s, id, mid, s');
    }
  }

  lemma SameNewEvent(s: State, id: Id, mid: State, s': State)
    requires s'.events == mid.events
    ensures OneNewEvent(s, id, mid) <==> OneNewEvent(s, id, s')
  {
  }

  lemma PostsOneEvent(env: Env, s: State, ev: Event, id: Id, now: string, fails: Faults,
                      s': State, status: Status, r: Event)
    requires PostsEvent(env, s, ev, id, now, fails, s', status, r)
    ensures s.issued <= s'.issued
    ensures s' == s.(events := s'.events, alerts := s'.alerts, queue := s'.queue, issued := s'.issued)
    ensures s'.events == s.events || (id !in s.issued && OneNewEvent(s, id, s'))
  {
    PostsEventEffect(env, s, ev, id, now, fails, s', status, r);
    if s'.events != s.events {
      var name := s.eventTypes[ev.eventTypeId].name;
      assert Slot(name, id) in s'.events;
    }
  }

  predicate IsTriggerRequest(request: Request) {
    request.PostTrigger? || request.PutTrigger? || request.DeleteTrigger?
  }

  lemma TriggerStepFrame(env: Env, s: State, step: Step, s': State)
    requires Takes(env, s, step, s') && IsTriggerRequest(step.request)
    ensures s' == s.(triggers := s'.triggers, queries := s'.queries, issued := s'.issued)
    ensures s.issued <= s'.issued
  {
    var Step(request, id, now, fails, status) := step;
    match request {
      case PostTrigger(t) =>
        var r :| PostsTrigger(s, t, id, now, fails, s', status, r);
        PostsTriggerEffect(s, t, id, now, fails, s', status, r);
      case PutTrigger(triggerId, enabled) => PutsTriggerEffect(s, triggerId, enabled, fails, s', status);
      case DeleteTrigger(triggerId) => DeletesTriggerEffect(s, triggerId, fails, s', status);
    }
  }

  lemma EventStepFrame(env: Env, s: State, step: Step, s': State)
    requires Takes(env, s, step, s')
    requires step.request.PostEvent? || step.request.PostRepeatingEvent? || step.request.Fire?
    ensures s'.schemas == s.schemas && s'.queries == s.queries && s'.triggers == s.triggers
    ensures s'.eventTypes == s.eventTypes
  {
    var Step(request, id, now, fails, status) := step;
    match request {
      case PostEvent(ev) =>
        var r :| PostsEvent(env, s, ev, id, now, fails, s', status, r);
        PostsEventEffect(env, s, ev, id, now, fails, s', status, r);
      case PostRepeatingEvent(ev) =>
        var r :| PostsRepeatingEvent(env, s, ev, id, now, fails, s', status, r);
        if s' != s { PostsRepeatingEventEffect(env, s, ev, id, now, fails, s', status, r); }
      case Fire(i) => FiresEffect(env, s, i, id, now, fails, s', status);
    }
  }

  lemma DeleteStepFrame(env: Env, s: State, step: Step, s': State)
    requires Takes(env, s, step, s') && (step.request.DeleteEvent? || step.request.DeleteEventType?)
    ensures s'.schemas == s.schemas && s'.queries == s.queries && s'.triggers == s.triggers
  {
    var Step(request, id, now, fails, status) := step;
    if s' != s {
      match request {
        case DeleteEvent(eventId) => var slot := DeletesEventEffect(s, eventId, fails, s', status);
        case DeleteEventType(typeId) => DeletesEventTypeEffect(s, typeId, fails, s', status);
      }
    }
  }

  /** Only trigger requests touch triggers and queries, only PostEventType the type mappings. */
  lemma StepFrame(env: Env, s: State, step: Step, s': State)
    requires Takes(env, s, step, s') && !step.request.PostEventType?
    ensures s'.schemas == s.schemas
    ensures if IsTriggerRequest(step.request) then s'.eventTypes == s.eventTypes && s'.events == s.events
            else s'.queries == s.queries && s'.triggers == s.triggers
  {
    if IsTriggerRequest(step.request) {
      TriggerStepFrame(env, s, step, s');
    } else if step.request.DeleteEvent? || step.request.DeleteEventType? {
      DeleteStepFrame(env, s, step, s');
    } else {
      EventStepFrame(env, s, step, s');
    }
  }

  /** A PostEventType touches no triggers and forgets no type mapping. */
  lemma NewTypeFrame(env: Env, s: State, step: Step, s': State)
    requires IdsIssued(s) && Takes(env, s, step, s') && step.request.PostEventType?
    ensures s.schemas.Keys <= s'.schemas.Keys && s'.queries == s.queries && s'.triggers == s.triggers
    ensures s'.events == s.events && s'.crons == s.crons && s'.jobs == s.jobs && s'.removed == s.removed
    ensures step.status == Created ==> step.request.et.name !in s.schemas && step.request.et.name in s'.schemas
  {
    NewTypeEffect(env, s, step, s');
  }

  lemma NewTypeEffect(env: Env, s: State, step: Step, s': State)
    requires Takes(env, s, step, s') && step.request.PostEventType?
    requires step.id !in s.issued ==> step.id !in s.eventTypes
    ensures s' == s.(eventTypes := s'.eventTypes, schemas := s'.schemas, issued := s'.issued)
    ensures s.schemas.Keys <= s'.schemas.Keys && s.issued <= s'.issued
    ensures step.status == Created ==> step.request.et.name !in s.schemas && step.request.et.name in s'.schemas
  {
    var Step(request, id, now, fails, status) := step;
    var r :| PostsEventType(s, request.et, id, now, fails, s', status, r);
    if id !in s.issued { PostsEventTypeEffect(s, request.et, id, now, fails, s', status, r); }
  }
}
