/** What the service is for: an enabled trigger raises an alert for exactly those events
    of its type that satisfy the condition as its author wrote it. */
module EndToEnd {
  import opened Json
  import opened Records
  import opened DottedNames
  import opened ConditionTrees
  import opened TriggerConditions
  import opened ServiceSpec
  import opened ServiceInvariants
  import opened ServiceRuns
  import CronAgreement
  import FanOut
  import FanOutSafety
  import FanOutJoin
  import JobTemplate
  import Percolation

  // ---------------------------------------------------------------- alerts of one fan-out

  lemma {:induction false} FreshAlerts(call: FanOut.Call, issued: set<Id>, s: FanOut.State, trace: seq<FanOut.Step>,
                                       s': FanOut.State)
    requires FanOut.Runs(call, s, trace, s') && issued <= s.issued && forall a | a in s.posted :: a.alertId !in issued
    ensures forall a | a in s'.posted :: a.alertId !in issued
    decreases |trace|
  {
    if trace != [] {
      FreshAlerts(call, issued, FanOut.Next(call, s, trace[0]), trace[1..], s');
    }
  }

  lemma {:induction false} AlertMapHolds(posted: seq<Alert>)
    requires forall i, j | 0 <= i < j < |posted| :: posted[i].alertId != posted[j].alertId
    ensures forall a | a in posted :: a.alertId in AlertMap(posted) && AlertMap(posted)[a.alertId] == a
    ensures forall k | k in AlertMap(posted) :: AlertMap(posted)[k] in posted
  {
    if posted != [] {
      var init, last := posted[..|posted| - 1], posted[|posted| - 1];
      assert posted == init + [last];
      AlertMapHolds(init);
    }
  }

  /** If PostEvent answers 201, then exactly the matched triggers that are enabled and of
      the event's type have an alert among the new ones, each for this event. */
  lemma AlertedExactly(call: FanOut.Call, issued: set<Id>, f: FanOut.State, t: Id)
    requires JobTemplate.Distinct(call.matches) && GoroutinesLeave(call, issued, f) && f.results == map[]
    ensures (t in call.matches && t in call.triggers && FanOut.Eligible(call, call.triggers[t])) <==>
            exists a :: a in f.posted && a.triggerId == t
    ensures forall a | a in f.posted :: a.eventId == call.event.eventId && a.alertId !in issued
  {
    FanOutJoin.CreatedMeansAllHandled(call, issued, f);
    FanOutSafety.ReachableSafe(call, issued, f);
    var trace :| FanOut.Runs(call, FanOut.Initial(call, issued), trace, f);
    FreshAlerts(call, issued, FanOut.Initial(call, issued), trace, f);
    forall a | a in f.posted
      ensures a.triggerId in call.matches && a.triggerId in FanOutSafety.AlertedSet(f)
      ensures a.eventId == call.event.eventId
    {
      assert FanOutSafety.AlertOk(call, f, a);
      assert a.triggerId in f.phases.Keys;
    }
    if t in FanOutSafety.AlertedSet(f) { FanOutSafety.AlertFor(call, f, t); }
  }

  /** The trigger has a new alert for the event. */
  ghost predicate RaisesAlert(s: State, s': State, trigger: Id, event: Id) {
    exists k :: k in s'.alerts && k !in s.alerts
                && s'.alerts[k].triggerId == trigger && s'.alerts[k].eventId == event
  }

  lemma NewAlerts(s: State, call: FanOut.Call, f: FanOut.State, t: Id)
    requires JobTemplate.Distinct(call.matches) && GoroutinesLeave(call, s.issued, f) && f.results == map[]
    requires s.alerts.Keys <= s.issued
    ensures RaisesAlert(s, AfterFanOut(s, f), t, call.event.eventId) <==>
            t in call.matches && t in call.triggers && FanOut.Eligible(call, call.triggers[t])
  {
    AlertedExactly(call, s.issued, f, t);
    FanOutSafety.ReachableSafe(call, s.issued, f);
    AlertMapHolds(f.posted);
    var s' := AfterFanOut(s, f);
    if a :| a in f.posted && a.triggerId == t {
      assert a.alertId in s'.alerts && a.alertId !in s.alerts;
    }
    forall k | k in s'.alerts && k !in s.alerts ensures s'.alerts[k] in f.posted { assert k in AlertMap(f.posted); }
  }

  /** The stores just before PostEvent starts its goroutines. */
  function WithEvent(s: State, ev: Event, id: Id, now: string): State
    requires ev.eventTypeId in s.eventTypes
  {
    var name := s.eventTypes[ev.eventTypeId].name;
    s.(issued := s.issued + {id}, events := s.events[Slot(name, id) := StoredEvent(ev, name, id, now)])
  }

  lemma CreatedEvent(env: Env, s: State, ev: Event, id: Id, now: string, fails: Faults, s': State, r: Event)
    returns (call: FanOut.Call, f: FanOut.State)
    requires PostsEvent(env, s, ev, id, now, fails, s', Created, r)
    ensures ev.eventTypeId in s.eventTypes
    ensures var s1, et := WithEvent(s, ev, id, now), s.eventTypes[ev.eventTypeId];
            var e := StoredEvent(ev, et.name, id, now);
            && call == FanOutCall(env, s1, et, e, ev.data, call.matches, now)
            && JobTemplate.IsOrdering(call.matches, MatchingQueries(env, s1, e.data))
            && GoroutinesLeave(call, s1.issued, f) && s' == AfterFanOut(s1, f)
            && Answers(f, Created)
  {
    var et := s.eventTypes[ev.eventTypeId];
    var e := StoredEvent(ev, et.name, id, now);
    var s1 := WithEvent(s, ev, id, now);
    assert s1 == s.(issued := s.issued + {id}).(events := s.events[Slot(et.name, id) := e]);
    var matches;
    matches, f := FanOutWitness(env, s1, et, ev, e, now, s', Created, r);
    call := FanOutCall(env, s1, et, e, ev.data, matches, now);
  }

  lemma NeverRecordsCreated(call: FanOut.Call, issued: set<Id>, f: FanOut.State)
    requires JobTemplate.Distinct(call.matches) && GoroutinesLeave(call, issued, f) && Answers(f, Created)
    ensures f.results == map[]
  {
    var trace :| FanOut.Runs(call, FanOut.Initial(call, issued), trace, f);
    ErrorsOnly(call, FanOut.Initial(call, issued), trace, f);
  }

  lemma {:induction false} ErrorsOnly(call: FanOut.Call, s: FanOut.State, trace: seq<FanOut.Step>, s': FanOut.State)
    requires FanOut.Runs(call, s, trace, s') && forall t | t in s.results :: s.results[t] != Created
    ensures forall t | t in s'.results :: s'.results[t] != Created
    decreases |trace|
  {
    if trace != [] { ErrorsOnly(call, FanOut.Next(call, s, trace[0]), trace[1..], s'); }
  }

  /** An event that PostEvent answers with 201 raises an alert for a stored trigger exactly
      when the trigger is enabled, of the event's type, and its query matches. */
  lemma PostedEventAlerts(env: Env, s: State, ev: Event, id: Id, now: string, fails: Faults, s': State, r: Event, t: Id)
    requires Integrity(env, s) && PostsEvent(env, s, ev, id, now, fails, s', Created, r) && t in s.triggers
    ensures t in s.queries && ev.eventTypeId in s.eventTypes
    ensures RaisesAlert(s, s', t, id) <==>
            && s.triggers[t].enabled && s.triggers[t].eventTypeId == ev.eventTypeId
            && env.queryMatches(Obj(s.queries[t]),
                 Percolation.PercolationDocument(s.eventTypes[ev.eventTypeId].name, ev.data))
  {
    var call, f := CreatedEvent(env, s, ev, id, now, fails, s', r);
    assert TriggerOk(s, t) && TypeOk(s, ev.eventTypeId);
    OneEvent(env, s, ev, id, now, call, f, t);
  }

  lemma OneEvent(env: Env, s: State, ev: Event, id: Id, now: string, call: FanOut.Call, f: FanOut.State, t: Id)
    requires ev.eventTypeId in s.eventTypes && s.alerts.Keys <= s.issued && t in s.triggers && t in s.queries
    requires s.eventTypes[ev.eventTypeId].eventTypeId == ev.eventTypeId
    requires var s1, et := WithEvent(s, ev, id, now), s.eventTypes[ev.eventTypeId];
             var e := StoredEvent(ev, et.name, id, now);
             && call == FanOutCall(env, s1, et, e, ev.data, call.matches, now)
             && JobTemplate.IsOrdering(call.matches, MatchingQueries(env, s1, e.data))
             && GoroutinesLeave(call, s1.issued, f) && Answers(f, Created)
    ensures RaisesAlert(s, AfterFanOut(WithEvent(s, ev, id, now), f), t, id) <==>
            && s.triggers[t].enabled && s.triggers[t].eventTypeId == ev.eventTypeId
            && env.queryMatches(Obj(s.queries[t]),
                 Percolation.PercolationDocument(s.eventTypes[ev.eventTypeId].name, ev.data))
  {
    var s1 := WithEvent(s, ev, id, now);
    assert JobTemplate.Distinct(call.matches);
    NeverRecordsCreated(call, s1.issued, f);
    NewAlerts(s1, call, f, t);
    var name := s.eventTypes[ev.eventTypeId].name;
    MatchedOrNot(env, s1, StoredEvent(ev, name, id, now), name, ev.data, call.matches, t);
  }

  lemma MatchedOrNot(env: Env, s: State, e: Event, name: string, data: Fields, matches: seq<Id>, t: Id)
    requires e.data == AddUniqueParams(name, data) && t in s.queries
    requires JobTemplate.IsOrdering(matches, MatchingQueries(env, s, e.data))
    ensures t in matches <==> env.queryMatches(Obj(s.queries[t]), Percolation.PercolationDocument(name, data))
  {
  }

  // ---------------------------------------------------------------- a trigger over a run

  /** A trigger keeps its query, its type and its type's record. */
  ghost predicate SameTrigger(s: State, s': State, t: Id) {
    && t in s.triggers && t in s'.triggers && t in s.queries && t in s'.queries
    && s'.queries[t] == s.queries[t] && s'.triggers[t].eventTypeId == s.triggers[t].eventTypeId
    && var id := s.triggers[t].eventTypeId;
       id in s.eventTypes && id in s'.eventTypes && s'.eventTypes[id] == s.eventTypes[id]
  }

  lemma TypesStay(env: Env, s: State, step: Step, s': State, t: Id)
    requires Integrity(env, s) && Takes(env, s, step, s') && t in s.triggers
    ensures var id := s.triggers[t].eventTypeId;
            id in s.eventTypes && id in s'.eventTypes && s'.eventTypes[id] == s.eventTypes[id]
  {
    assert TriggerOk(s, t);
    assert TypeOk(s, s.triggers[t].eventTypeId);
    if step.id !in s.issued { UnusedId(env, s, step.id); }
    TypesStayUsed(env, s, step, s', t);
  }

  lemma TypesStayUsed(env: Env, s: State, step: Step, s': State, t: Id)
    requires Takes(env, s, step, s') && t in s.triggers && s.triggers[t].eventTypeId in s.eventTypes
    requires step.id !in s.issued ==> step.id !in s.eventTypes
    ensures var id := s.triggers[t].eventTypeId; id in s'.eventTypes && s'.eventTypes[id] == s.eventTypes[id]
  {
    var Step(request, newId, now, fails, status) := step;
    match request {
      case PostEventType(et) =>
        var r :| PostsEventType(s, et, newId, now, fails, s', status, r);
        if newId !in s.issued { PostsEventTypeEffect(s, et, newId, now, fails, s', status, r); }
      case DeleteEventType(typeId) => if s' != s { DeletesEventTypeEffect(s, typeId, fails, s', status); }
      case DeleteEvent(eventId) => if s' != s { var slot := DeletesEventEffect(s, eventId, fails, s', status); }
      case PostTrigger(_) => TriggerStepFrame(env, s, step, s');
      case PutTrigger(_, _) => TriggerStepFrame(env, s, step, s');
      case DeleteTrigger(_) => TriggerStepFrame(env, s, step, s');
      case _ => EventStepFrame(env, s, step, s');
    }
  }

  ghost predicate SameQuery(s: State, s': State, t: Id) {
    && t in s.triggers && t in s'.triggers && t in s.queries && t in s'.queries
    && s'.queries[t] == s.queries[t] && s'.triggers[t].eventTypeId == s.triggers[t].eventTypeId
  }

  lemma PostKeepsQuery(s: State, tr: Trigger, id: Id, now: string, fails: Faults, s': State, status: Status, r: Trigger,
                       t: Id)
    requires PostsTrigger(s, tr, id, now, fails, s', status, r)
    requires t in s.issued && t in s.triggers && t in s.queries
    ensures SameQuery(s, s', t)
  {
    PostsTriggerEffect(s, tr, id, now, fails, s', status, r);
  }

  lemma DeleteKeepsQuery(s: State, id: Id, fails: Faults, s': State, status: Status, t: Id)
    requires DeletesTrigger(s, id, fails, s', status) && t in s.triggers && t in s'.triggers && t in s.queries
    requires id in s.triggers ==> s.triggers[id].percolationId == id
    ensures SameQuery(s, s', t)
  {
  }

  lemma QueriesStay(env: Env, s: State, step: Step, s': State, t: Id)
    requires Integrity(env, s) && Takes(env, s, step, s') && t in s.triggers && t in s'.triggers
    ensures SameQuery(s, s', t)
  {
    assert TriggerOk(s, t);
    var Step(request, id, now, fails, status) := step;
    if request.PostTrigger? {
      var r :| PostsTrigger(s, request.t, id, now, fails, s', status, r);
      PostKeepsQuery(s, request.t, id, now, fails, s', status, r, t);
    } else if request.PutTrigger? {
      PutsTriggerEffect(s, request.triggerId, request.enabled, fails, s', status);
    } else if request.DeleteTrigger? {
      if request.triggerId in s.triggers { assert TriggerOk(s, request.triggerId); }
      DeleteKeepsQuery(s, request.triggerId, fails, s', status, t);
    } else if step.request.PostEventType? {
      IntegrityIds(env, s);
      NewTypeFrame(env, s, step, s');
    } else {
      StepFrame(env, s, step, s');
    }
  }

  /** Identifiers are never taken back, and a trigger that is gone does not return. */
  lemma GoneStaysGone(env: Env, s: State, step: Step, s': State, t: Id)
    requires Integrity(env, s) && Takes(env, s, step, s') && t in s.issued
    ensures t in s'.issued && (t !in s.triggers ==> t !in s'.triggers)
  {
    if step.id !in s.issued { UnusedId(env, s, step.id); }
    IssuedStays(env, s, step, s');
    if IsTriggerRequest(step.request) {
      if t !in s.triggers { NoOldTrigger(env, s, step, s', t); }
    } else if step.request.PostEventType? {
      NewTypeEffect(env, s, step, s');
    } else {
      StepFrame(env, s, step, s');
    }
  }

  lemma IssuedStays(env: Env, s: State, step: Step, s': State)
    requires Takes(env, s, step, s') && (step.id !in s.issued ==> step.id !in s.eventTypes)
    ensures s.issued <= s'.issued
  {
    var Step(request, id, now, fails, status) := step;
    match request {
      case Fire(i) => FiresEffect(env, s, i, id, now, fails, s', status);
      case PostRepeatingEvent(ev) =>
        var r :| PostsRepeatingEvent(env, s, ev, id, now, fails, s', status, r);
        if s' != s { PostsRepeatingEventEffect(env, s, ev, id, now, fails, s', status, r); }
      case _ => CronAgreement.EntriesStay(env, s, step, s');
    }
  }

  lemma NoOldTrigger(env: Env, s: State, step: Step, s': State, t: Id)
    requires Takes(env, s, step, s') && IsTriggerRequest(step.request) && t in s.issued && t !in s.triggers
    ensures t !in s'.triggers
  {
    var Step(request, id, now, fails, status) := step;
    match request {
      case PostTrigger(tr) =>
        var r :| PostsTrigger(s, tr, id, now, fails, s', status, r);
        PostsTriggerEffect(s, tr, id, now, fails, s', status, r);
      case PutTrigger(triggerId, enabled) => PutsTriggerEffect(s, triggerId, enabled, fails, s', status);
      case DeleteTrigger(triggerId) => DeletesTriggerEffect(s, triggerId, fails, s', status);
    }
  }

  lemma {:induction false} GoneForRun(env: Env, s: State, steps: seq<Step>, s': State, t: Id)
    requires Integrity(env, s) && Runs(env, s, steps, s') && t in s.issued && t !in s.triggers
    ensures t !in s'.triggers
    decreases |steps|
  {
    if steps != [] {
      var mid :| Takes(env, s, steps[0], mid) && Runs(env, mid, steps[1..], s');
      TakesKeeps(env, s, steps[0], mid);
      GoneStaysGone(env, s, steps[0], mid, t);
      GoneForRun(env, mid, steps[1..], s', t);
    }
  }

  lemma {:induction false} TriggerOverRun(env: Env, s: State, steps: seq<Step>, s': State, t: Id)
    requires Integrity(env, s) && Runs(env, s, steps, s') && t in s.triggers && t in s'.triggers
    ensures SameTrigger(s, s', t)
    decreases |steps|
  {
    assert TriggerOk(s, t);
    if steps != [] {
      var mid :| Takes(env, s, steps[0], mid) && Runs(env, mid, steps[1..], s');
      TakesKeeps(env, s, steps[0], mid);
      GoneStaysGone(env, s, steps[0], mid, t);
      if t !in mid.triggers { GoneForRun(env, mid, steps[1..], s', t); }
      QueriesStay(env, s, steps[0], mid, t);
      TypesStay(env, s, steps[0], mid, t);
      TriggerOverRun(env, mid, steps[1..], s', t);
    }
  }

  // ---------------------------------------------------------------- the theorem

  /** The stored trigger's query is the condition c rewritten for its type, which has a
      name without dots. */
  ghost predicate Guards(s: State, id: Id, c: Fields) {
    && id in s.triggers && id in s.queries && s.triggers[id].eventTypeId in s.eventTypes
    && var name := s.eventTypes[s.triggers[id].eventTypeId].name;
       DotFree(name) && Renames(Rewrite(name), Obj(c), Obj(s.queries[id]))
  }

  lemma RegisteredGuards(s: State, t: Trigger, id: Id, now: string, fails: Faults, s': State, r: Trigger)
    requires PostsTrigger(s, t, id, now, fails, s', Created, r) && DotFree(s.eventTypes[t.eventTypeId].name)
    ensures Guards(s', id, t.condition) && s'.triggers[id].eventTypeId == t.eventTypeId
  {
  }

  /** The query matches the percolated event exactly when the condition holds of the event
      as posted. */
  lemma GuardsAsWritten(env: Env, s: State, id: Id, c: Fields, ev: Event)
    requires forall q, d :: env.queryMatches(q, d) == Percolation.Matches(q, d)
    requires Guards(s, id, c) && AllKeys(Percolation.NotExists, Obj(c)) && ev.eventTypeId == s.triggers[id].eventTypeId
    ensures env.queryMatches(Obj(s.queries[id]),
              Percolation.PercolationDocument(s.eventTypes[ev.eventTypeId].name, ev.data)) <==>
            Percolation.Matches(Obj(c), Percolation.UserDocument(ev.data))
  {
    var name := s.eventTypes[s.triggers[id].eventTypeId].name;
    Percolation.RewritingPreservesMeaning(name, Obj(c), Obj(s.queries[id]), ev.data);
  }

  /** A trigger posted with condition c, after any run in which it is not deleted: an
      event of its type answered with 201 raises its alert exactly when the trigger is
      enabled and c, as posted, holds of the event's data, as posted. */
  lemma TriggersAlertAsWritten(env: Env, s0: State, t: Trigger, id: Id, now: string, fails: Faults, s1: State,
                               r: Trigger, steps: seq<Step>, s2: State,
                               ev: Event, evId: Id, now': string, fails': Faults, s3: State, r': Event)
    requires forall q, d :: env.queryMatches(q, d) == Percolation.Matches(q, d)
    requires Integrity(env, s0) && PostsTrigger(s0, t, id, now, fails, s1, Created, r)
    requires DotFree(s0.eventTypes[t.eventTypeId].name) && AllKeys(Percolation.NotExists, Obj(t.condition))
    requires Runs(env, s1, steps, s2) && id in s2.triggers
    requires PostsEvent(env, s2, ev, evId, now', fails', s3, Created, r') && ev.eventTypeId == t.eventTypeId
    ensures RaisesAlert(s2, s3, id, evId) <==>
            s2.triggers[id].enabled && Percolation.Matches(Obj(t.condition), Percolation.UserDocument(ev.data))
  {
    PostTriggerKeeps(env, s0, t, id, now, fails, s1, Created, r);
    RegisteredGuards(s0, t, id, now, fails, s1, r);
    TriggerOverRun(env, s1, steps, s2, id);
    RunsKeep(env, s1, steps, s2);
    PostedEventAlerts(env, s2, ev, evId, now', fails', s3, r', id);
    GuardsAsWritten(env, s2, id, t.condition, ev);
  }
}
