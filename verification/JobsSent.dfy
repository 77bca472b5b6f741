/** What posting an event puts on the job queue and among the alerts, said of the event's
    data, the stored triggers, and the text of jobs and values. */
module JobsSent {
  import opened Records
  import opened ServiceSpec
  import opened ServiceInvariants
  import EndToEnd
  import FanOut
  import FanOutAnswers
  import FanOutJoin
  import FanOutSafety
  import JobTemplate
  import Orphans

  // ---------------------------------------------------------------- what is promised

  /** The trigger is enabled, of the event's type, and its query matches the event. */
  ghost predicate Concerned(env: Env, s: State, ev: Event, t: Id) {
    && t in s.triggers && s.triggers[t].enabled && s.triggers[t].eventTypeId == ev.eventTypeId
    && Orphans.QueryMatches(env, s, t, ev)
  }

  /** Every "$key" of the template was replaced by the key's value, key after key in some
      order; where the order does not matter, all at once. */
  ghost predicate Substituted(template: string, values: map<string, string>, body: string) {
    && (exists order ::
          JobTemplate.IsOrdering(order, values.Keys) && body == JobTemplate.Sequential(template, values, order))
    && (JobTemplate.PlainValues(values) && JobTemplate.Settled(template, values.Keys) ==>
          body == JobTemplate.Simultaneous(template, values))
  }

  /** The message is the job of a trigger that the event concerns, for the event's data. */
  ghost predicate IsJob(env: Env, s: State, ev: Event, m: FanOut.Message) {
    && Concerned(env, s, ev, m.triggerId) && m.jobId !in s.issued
    && var trigger := s.triggers[m.triggerId];
       && m.createdBy == trigger.createdBy
       && Substituted(env.jobText(trigger.job), map k | k in ev.data :: env.format(ev.data[k]), m.body)
  }

  /** The queue grows by such messages, at most one for each trigger. */
  ghost predicate SendsJobs(env: Env, s: State, ev: Event, s': State) {
    && s.queue <= s'.queue
    && (forall i | |s.queue| <= i < |s'.queue| :: IsJob(env, s, ev, s'.queue[i]))
    && (forall i, j | |s.queue| <= i < j < |s'.queue| ::
          s'.queue[i].triggerId != s'.queue[j].triggerId && s'.queue[i].jobId != s'.queue[j].jobId)
  }

  ghost predicate SentFor(s: State, s': State, t: Id) {
    exists i | |s.queue| <= i < |s'.queue| :: s'.queue[i].triggerId == t
  }

  ghost predicate JobSent(s: State, s': State, t: Id, job: Id) {
    exists i | |s.queue| <= i < |s'.queue| :: s'.queue[i].triggerId == t && s'.queue[i].jobId == job
  }

  /** The alert is for the event and names the trigger and the job that was sent for it. */
  ghost predicate IsAlert(s: State, s': State, event: Id, now: string, a: Alert) {
    && a.eventId == event && a.createdOn == now
    && a.triggerId in s.triggers && a.createdBy == s.triggers[a.triggerId].createdBy
    && JobSent(s, s', a.triggerId, a.jobId)
  }

  /** The alerts grow by such alerts, at most one for each trigger. */
  ghost predicate AddsAlerts(s: State, s': State, event: Id, now: string) {
    && (forall k | k in s.alerts :: k in s'.alerts && s'.alerts[k] == s.alerts[k])
    && (forall k | k in s'.alerts && k !in s.alerts ::
          s'.alerts[k].alertId == k && IsAlert(s, s', event, now, s'.alerts[k]))
    && (forall k, l | k in s'.alerts && k !in s.alerts && l in s'.alerts && l !in s.alerts && k != l ::
          s'.alerts[k].triggerId != s'.alerts[l].triggerId)
  }

  // ---------------------------------------------------------------- ids and dates of one fan-out

  /** Every job and alert has a new id, and every alert the date of the call. */
  ghost predicate Fresh(call: FanOut.Call, issued: set<Id>, f: FanOut.State) {
    && issued <= f.issued
    && (forall t | t in f.phases && f.phases[t].HasJob() :: f.phases[t].jobId !in issued)
    && (forall a | a in f.posted :: a.alertId !in issued && a.createdOn == call.now)
  }

  lemma {:induction false} StaysFresh(call: FanOut.Call, issued: set<Id>, f: FanOut.State, trace: seq<FanOut.Step>,
                                      f': FanOut.State)
    requires FanOut.Runs(call, f, trace, f') && Fresh(call, issued, f)
    ensures Fresh(call, issued, f')
    decreases |trace|
  {
    if trace != [] {
      StepFresh(call, issued, f, trace[0]);
      StaysFresh(call, issued, FanOut.Next(call, f, trace[0]), trace[1..], f');
    }
  }

  lemma StepFresh(call: FanOut.Call, issued: set<Id>, f: FanOut.State, step: FanOut.Step)
    requires Fresh(call, issued, f) && FanOut.Enabled(call, f, step)
    ensures Fresh(call, issued, FanOut.Next(call, f, step))
  {
    FreshJob(call, issued, f, step);
  }

  lemma FreshJob(call: FanOut.Call, issued: set<Id>, f: FanOut.State, step: FanOut.Step)
    requires Fresh(call, issued, f) && FanOut.Enabled(call, f, step)
    ensures var p := FanOut.NextPhase(call, f, step); p.HasJob() ==> p.jobId !in issued
    ensures forall a | a in FanOut.Raised(call, f, step) :: a.alertId !in issued && a.createdOn == call.now
  {
  }

  lemma LeavesFresh(call: FanOut.Call, issued: set<Id>, f: FanOut.State)
    requires GoroutinesLeave(call, issued, f)
    ensures Fresh(call, issued, f)
  {
    var trace :| FanOut.Runs(call, FanOut.Initial(call, issued), trace, f);
    StaysFresh(call, issued, FanOut.Initial(call, issued), trace, f);
  }

  // ---------------------------------------------------------------- the jobs of one fan-out

  /** The message is the job of a match, for the data of the call. */
  ghost predicate JobOf(call: FanOut.Call, issued: set<Id>, m: FanOut.Message) {
    && m.triggerId in call.matches && m.triggerId in call.triggers && m.jobId !in issued
    && var trigger := call.triggers[m.triggerId];
       && FanOut.Eligible(call, trigger) && m.createdBy == trigger.createdBy
       && Substituted(call.jobText(trigger.job), FanOut.Values(call), m.body)
  }

  lemma BodySubstituted(call: FanOut.Call, trigger: Trigger, order: seq<string>)
    requires JobTemplate.IsOrdering(order, call.data.Keys)
    ensures Substituted(call.jobText(trigger.job), FanOut.Values(call), FanOut.JobBody(call, trigger, order))
  {
    var template, values := call.jobText(trigger.job), FanOut.Values(call);
    assert values.Keys == call.data.Keys;
    if JobTemplate.PlainValues(values) && JobTemplate.Settled(template, values.Keys) {
      JobTemplate.OrderDoesNotMatter(template, values, order);
    }
  }

  lemma MessageIsJob(call: FanOut.Call, issued: set<Id>, f: FanOut.State, m: FanOut.Message)
    requires FanOutSafety.MessageOk(call, f, m) && Fresh(call, issued, f)
    requires f.phases.Keys == set t | t in call.matches
    ensures JobOf(call, issued, m)
  {
    var trigger := call.triggers[m.triggerId];
    var order :| JobTemplate.IsOrdering(order, call.data.Keys) && m.body == FanOut.JobBody(call, trigger, order);
    BodySubstituted(call, trigger, order);
    assert m.triggerId in f.phases.Keys;
  }

  /** What the goroutines leave. */
  ghost predicate Jobs(call: FanOut.Call, issued: set<Id>, f: FanOut.State) {
    && (forall i | 0 <= i < |f.published| :: JobOf(call, issued, f.published[i]))
    && (forall i, j | 0 <= i < j < |f.published| ::
          f.published[i].triggerId != f.published[j].triggerId && f.published[i].jobId != f.published[j].jobId)
  }

  lemma GoroutinesSendJobs(call: FanOut.Call, issued: set<Id>, f: FanOut.State)
    requires JobTemplate.Distinct(call.matches) && GoroutinesLeave(call, issued, f)
    ensures Jobs(call, issued, f)
  {
    LeavesFresh(call, issued, f);
    FanOutSafety.ReachableSafe(call, issued, f);
    FanOutSafety.DifferentJobs(call, f);
    forall i | 0 <= i < |f.published| ensures JobOf(call, issued, f.published[i]) {
      assert FanOutSafety.MessageOk(call, f, f.published[i]);
      MessageIsJob(call, issued, f, f.published[i]);
    }
  }

  /** The alert names a match and the job that was sent for it. */
  ghost predicate AlertOf(call: FanOut.Call, issued: set<Id>, f: FanOut.State, a: Alert) {
    && a.eventId == call.event.eventId && a.createdOn == call.now && a.alertId !in issued
    && a.triggerId in call.triggers && a.createdBy == call.triggers[a.triggerId].createdBy
    && exists i | 0 <= i < |f.published| :: f.published[i].triggerId == a.triggerId && f.published[i].jobId == a.jobId
  }

  ghost predicate AlertsOf(call: FanOut.Call, issued: set<Id>, f: FanOut.State) {
    && (forall a | a in f.posted :: AlertOf(call, issued, f, a))
    && (forall i, j | 0 <= i < j < |f.posted| ::
          f.posted[i].triggerId != f.posted[j].triggerId && f.posted[i].alertId != f.posted[j].alertId)
  }

  lemma GoroutinesRaiseAlerts(call: FanOut.Call, issued: set<Id>, f: FanOut.State)
    requires JobTemplate.Distinct(call.matches) && GoroutinesLeave(call, issued, f)
    ensures AlertsOf(call, issued, f)
  {
    LeavesFresh(call, issued, f);
    FanOutSafety.ReachableSafe(call, issued, f);
    forall a | a in f.posted ensures AlertOf(call, issued, f, a) { AlertHasJob(call, issued, f, a); }
  }

  lemma AlertHasJob(call: FanOut.Call, issued: set<Id>, f: FanOut.State, a: Alert)
    requires FanOutSafety.Queue(call, f) && FanOutSafety.Alerts(call, f) && Fresh(call, issued, f) && a in f.posted
    ensures AlertOf(call, issued, f, a)
  {
    var i :| 0 <= i < |f.posted| && f.posted[i] == a;
    assert FanOutSafety.AlertOk(call, f, f.posted[i]) && f.phases[a.triggerId].HasPublished();
    assert FanOutSafety.SentFor(f, a.triggerId);
    var j :| 0 <= j < |f.published| && f.published[j].triggerId == a.triggerId;
    assert FanOutSafety.MessageOk(call, f, f.published[j]);
  }

  /** If no error is recorded, every eligible match has its job. */
  lemma EligibleHasJob(call: FanOut.Call, issued: set<Id>, f: FanOut.State, t: Id)
    requires JobTemplate.Distinct(call.matches) && GoroutinesLeave(call, issued, f) && f.results == map[]
    requires t in call.matches && t in call.triggers && FanOut.Eligible(call, call.triggers[t])
    ensures exists i | 0 <= i < |f.published| :: f.published[i].triggerId == t
  {
    FanOutJoin.CreatedMeansAllHandled(call, issued, f);
    FanOutSafety.ReachableSafe(call, issued, f);
    assert f.phases[t].HasPublished();
    assert FanOutSafety.SentFor(f, t);
  }

  // ---------------------------------------------------------------- on the stores

  /** s1 is s with the event stored; the call is the one that PostEvent makes there. */
  ghost predicate CallFor(env: Env, s: State, ev: Event, id: Id, now: string, s1: State, call: FanOut.Call) {
    && ev.eventTypeId in s.eventTypes && s1 == EndToEnd.WithEvent(s, ev, id, now)
    && var et := s.eventTypes[ev.eventTypeId];
       && et.eventTypeId == ev.eventTypeId
       && call == FanOutCall(env, s1, et, StoredEvent(ev, et.name, id, now), ev.data, call.matches, now)
       && JobTemplate.IsOrdering(call.matches, MatchingQueries(env, s1, StoredEvent(ev, et.name, id, now).data))
  }

  lemma MatchedMeansQuery(env: Env, s: State, ev: Event, id: Id, now: string, s1: State, call: FanOut.Call, t: Id)
    requires CallFor(env, s, ev, id, now, s1, call)
    ensures t in call.matches <==> Orphans.QueryMatches(env, s, t, ev)
  {
    var name := s.eventTypes[ev.eventTypeId].name;
    if t in s1.queries {
      EndToEnd.MatchedOrNot(env, s1, StoredEvent(ev, name, id, now), name, ev.data, call.matches, t);
    }
  }

  lemma EligibleMeansConcerned(env: Env, s: State, ev: Event, id: Id, now: string, s1: State, call: FanOut.Call, t: Id)
    requires CallFor(env, s, ev, id, now, s1, call)
    ensures t in call.matches && t in call.triggers && FanOut.Eligible(call, call.triggers[t]) <==>
            Concerned(env, s, ev, t)
  {
    MatchedMeansQuery(env, s, ev, id, now, s1, call, t);
  }

  lemma ValuesOfCall(env: Env, s: State, ev: Event, id: Id, now: string, s1: State, call: FanOut.Call)
    requires CallFor(env, s, ev, id, now, s1, call)
    ensures FanOut.Values(call) == map k | k in ev.data :: env.format(ev.data[k])
    ensures call.triggers == s.triggers && call.jobText == env.jobText && call.now == now && call.event.eventId == id
  {
  }

  lemma JobOnQueue(env: Env, s: State, ev: Event, id: Id, now: string, s1: State, call: FanOut.Call, m: FanOut.Message)
    requires CallFor(env, s, ev, id, now, s1, call) && JobOf(call, s1.issued, m)
    ensures IsJob(env, s, ev, m)
  {
    EligibleMeansConcerned(env, s, ev, id, now, s1, call, m.triggerId);
    ValuesOfCall(env, s, ev, id, now, s1, call);
    assert s.issued <= s1.issued;
  }

  lemma JobsOnQueue(env: Env, s: State, ev: Event, id: Id, now: string, s1: State, call: FanOut.Call, f: FanOut.State)
    requires CallFor(env, s, ev, id, now, s1, call) && Jobs(call, s1.issued, f)
    ensures SendsJobs(env, s, ev, AfterFanOut(s1, f))
  {
    var s' := AfterFanOut(s1, f);
    assert s'.queue == s.queue + f.published;
    forall i | |s.queue| <= i < |s'.queue| ensures IsJob(env, s, ev, s'.queue[i]) {
      JobOnQueue(env, s, ev, id, now, s1, call, f.published[i - |s.queue|]);
    }
  }

  lemma SentOnQueue(s: State, s1: State, f: FanOut.State, i: nat)
    requires s1.queue == s.queue && i < |f.published|
    ensures JobSent(s, AfterFanOut(s1, f), f.published[i].triggerId, f.published[i].jobId)
    ensures SentFor(s, AfterFanOut(s1, f), f.published[i].triggerId)
  {
    assert AfterFanOut(s1, f).queue[|s.queue| + i] == f.published[i];
  }

  lemma AlertOnStore(env: Env, s: State, ev: Event, id: Id, now: string, s1: State, call: FanOut.Call, f: FanOut.State,
                     a: Alert)
    requires CallFor(env, s, ev, id, now, s1, call) && AlertOf(call, s1.issued, f, a)
    ensures IsAlert(s, AfterFanOut(s1, f), id, now, a)
  {
    ValuesOfCall(env, s, ev, id, now, s1, call);
    var i :| 0 <= i < |f.published| && f.published[i].triggerId == a.triggerId && f.published[i].jobId == a.jobId;
    SentOnQueue(s, s1, f, i);
  }

  lemma AlertsOnStore(env: Env, s: State, ev: Event, id: Id, now: string, s1: State, call: FanOut.Call, f: FanOut.State)
    requires CallFor(env, s, ev, id, now, s1, call) && AlertsOf(call, s1.issued, f) && s.alerts.Keys <= s.issued
    ensures AddsAlerts(s, AfterFanOut(s1, f), id, now)
  {
    var s', added := AfterFanOut(s1, f), AlertMap(f.posted);
    AlertMapIds(f.posted);
    forall k | k in added ensures k !in s.alerts && IsAlert(s, s', id, now, added[k]) {
      AlertOnStore(env, s, ev, id, now, s1, call, f, added[k]);
    }
    OneForEach(f.posted);
    AlertsAdded(s, s', id, now, added);
  }

  lemma AlertsAdded(s: State, s': State, id: Id, now: string, added: map<Id, Alert>)
    requires s'.alerts == s.alerts + added
    requires forall k | k in added :: k !in s.alerts && added[k].alertId == k && IsAlert(s, s', id, now, added[k])
    requires forall k, l | k in added && l in added && k != l :: added[k].triggerId != added[l].triggerId
    ensures AddsAlerts(s, s', id, now)
  {
  }

  lemma {:induction false} AlertMapIds(posted: seq<Alert>)
    ensures forall k | k in AlertMap(posted) :: AlertMap(posted)[k].alertId == k
    ensures forall k | k in AlertMap(posted) :: AlertMap(posted)[k] in posted
  {
    if posted != [] {
      AlertMapIds(posted[..|posted| - 1]);
    }
  }

  lemma OneForEach(posted: seq<Alert>)
    requires forall i, j | 0 <= i < j < |posted| :: posted[i].triggerId != posted[j].triggerId
    ensures var added := AlertMap(posted);
            forall k, l | k in added && l in added && k != l :: added[k].triggerId != added[l].triggerId
  {
    AlertMapIds(posted);
  }

  // ---------------------------------------------------------------- PostEvent

  /** PostEvent answers before it starts its goroutines. */
  ghost predicate Stops(env: Env, s: State, ev: Event, id: Id, now: string, fails: Faults, s': State, status: Status) {
    LookUpType(s, ev.eventTypeId, fails).None? || Percolate in fails
    || (&& s' == s.(issued := s.issued + {id}) && status == BadRequest
        && var name := s.eventTypes[ev.eventTypeId].name;
           Accepts(env, s', name, StoredEvent(ev, name, id, now), fails, false))
  }

  lemma Stopped(env: Env, s: State, ev: Event, id: Id, now: string, fails: Faults, s': State, status: Status, r: Event)
    requires PostsEvent(env, s, ev, id, now, fails, s', status, r) && Stops(env, s, ev, id, now, fails, s', status)
    ensures s'.queue == s.queue && s'.alerts == s.alerts && status == BadRequest
  {
  }

  lemma FannedOut(env: Env, s: State, ev: Event, id: Id, now: string, fails: Faults, s': State, status: Status,
                  r: Event)
    returns (s1: State, call: FanOut.Call, f: FanOut.State)
    requires Types(s) && PostsEvent(env, s, ev, id, now, fails, s', status, r)
    requires !Stops(env, s, ev, id, now, fails, s', status)
    ensures CallFor(env, s, ev, id, now, s1, call) && GoroutinesLeave(call, s1.issued, f)
    ensures s' == AfterFanOut(s1, f) && Answers(f, status)
  {
    var et := s.eventTypes[ev.eventTypeId];
    var e := StoredEvent(ev, et.name, id, now);
    assert TypeOk(s, ev.eventTypeId);
    s1 := EndToEnd.WithEvent(s, ev, id, now);
    StartsGoroutines(env, s, ev, id, now, fails, s1, s', status, r);
    var matches;
    matches, f := FanOutWitness(env, s1, et, ev, e, now, s', status, r);
    call := FanOutCall(env, s1, et, e, ev.data, matches, now);
  }

  lemma StartsGoroutines(env: Env, s: State, ev: Event, id: Id, now: string, fails: Faults, s1: State,
                         s': State, status: Status, r: Event)
    requires PostsEvent(env, s, ev, id, now, fails, s', status, r) && !Stops(env, s, ev, id, now, fails, s', status)
    requires s1 == EndToEnd.WithEvent(s, ev, id, now)
    ensures var et := s.eventTypes[ev.eventTypeId];
            RunsTriggers(env, s1, et, ev, StoredEvent(ev, et.name, id, now), now, s', status, r)
  {
    var s0 := s.(issued := s.issued + {id});
    var et := s.eventTypes[ev.eventTypeId];
    assert s1 == s0.(events := s0.events[Slot(et.name, id) := StoredEvent(ev, et.name, id, now)]);
  }

  /** Whatever it answers, PostEvent sends the jobs of triggers that the event concerns
      and nothing else, and adds alerts for jobs that were sent. */
  lemma PostedEventSends(env: Env, s: State, ev: Event, id: Id, now: string, fails: Faults,
                         s': State, status: Status, r: Event)
    requires Integrity(env, s) && PostsEvent(env, s, ev, id, now, fails, s', status, r)
    ensures SendsJobs(env, s, ev, s') && AddsAlerts(s, s', id, now)
  {
    if Stops(env, s, ev, id, now, fails, s', status) {
      Stopped(env, s, ev, id, now, fails, s', status, r);
    } else {
      var s1, call, f := FannedOut(env, s, ev, id, now, fails, s', status, r);
      assert JobTemplate.Distinct(call.matches);
      GoroutinesSendJobs(call, s1.issued, f);
      GoroutinesRaiseAlerts(call, s1.issued, f);
      JobsOnQueue(env, s, ev, id, now, s1, call, f);
      AlertsOnStore(env, s, ev, id, now, s1, call, f);
    }
  }

  /** If it answers 201, a trigger has its job on the queue if and only if the event
      concerns it. */
  lemma CreatedEventSends(env: Env, s: State, ev: Event, id: Id, now: string, fails: Faults, s': State, r: Event, t: Id)
    requires Integrity(env, s) && PostsEvent(env, s, ev, id, now, fails, s', Created, r)
    ensures SentFor(s, s', t) <==> Concerned(env, s, ev, t)
  {
    PostedEventSends(env, s, ev, id, now, fails, s', Created, r);
    if Concerned(env, s, ev, t) {
      if Stops(env, s, ev, id, now, fails, s', Created) { Stopped(env, s, ev, id, now, fails, s', Created, r); }
      var s1, call, f := FannedOut(env, s, ev, id, now, fails, s', Created, r);
      EligibleMeansConcerned(env, s, ev, id, now, s1, call, t);
      assert JobTemplate.Distinct(call.matches);
      EndToEnd.NeverRecordsCreated(call, s1.issued, f);
      EligibleHasJob(call, s1.issued, f, t);
      var i :| 0 <= i < |f.published| && f.published[i].triggerId == t;
      SentOnQueue(s, s1, f, i);
    }
  }

  /** If PostEvent comes to its goroutines, its answer is 201 if and only if none of them had
      a failing answer, and else the status of one that had. */
  lemma AnswerExplained(env: Env, s: State, ev: Event, id: Id, now: string, fails: Faults,
                        s': State, status: Status, r: Event)
    returns (s1: State, call: FanOut.Call, f: FanOut.State, trace: seq<FanOut.Step>)
    requires Integrity(env, s) && PostsEvent(env, s, ev, id, now, fails, s', status, r)
    requires !Stops(env, s, ev, id, now, fails, s', status)
    ensures CallFor(env, s, ev, id, now, s1, call) && s' == AfterFanOut(s1, f)
    ensures FanOut.Runs(call, FanOut.Initial(call, s1.issued), trace, f) && FanOut.Joined(call, f)
    ensures status == Created <==> forall t | t in call.matches :: !FanOutAnswers.SomeFailure(trace, t)
    ensures status != Created ==> exists t | t in call.matches :: FanOutAnswers.Explains(trace, t, status)
  {
    s1, call, f := FannedOut(env, s, ev, id, now, fails, s', status, r);
    trace :| FanOut.Runs(call, FanOut.Initial(call, s1.issued), trace, f);
    assert JobTemplate.Distinct(call.matches);
    StatusExplained(call, s1.issued, trace, f, status);
  }

  lemma StatusExplained(call: FanOut.Call, issued: set<Id>, trace: seq<FanOut.Step>, f: FanOut.State, status: Status)
    requires JobTemplate.Distinct(call.matches) && FanOut.Runs(call, FanOut.Initial(call, issued), trace, f)
    requires Answers(f, status)
    ensures status == Created <==> forall t | t in call.matches :: !FanOutAnswers.SomeFailure(trace, t)
    ensures status != Created ==> exists t | t in call.matches :: FanOutAnswers.Explains(trace, t, status)
  {
    forall t | t in call.matches ensures t in f.results <==> FanOutAnswers.SomeFailure(trace, t) {
      FanOutAnswers.FailureMeansAnswer(call, issued, trace, f, t);
    }
    forall t | t in f.results ensures t in call.matches && FanOutAnswers.Explains(trace, t, f.results[t]) {
      FanOutAnswers.FailureExplained(call, issued, trace, f, t);
    }
  }

  /** The response to 201 is the event as posted, with its id and date. */
  lemma CreatedResponse(env: Env, s: State, ev: Event, id: Id, now: string, fails: Faults, s': State, r: Event)
    requires PostsEvent(env, s, ev, id, now, fails, s', Created, r)
    ensures r == Event(id, ev.eventTypeId, ev.data, ev.createdBy, now, ev.cronSchedule)
  {
    var et, s1 := s.eventTypes[ev.eventTypeId], EndToEnd.WithEvent(s, ev, id, now);
    var e := StoredEvent(ev, et.name, id, now);
    assert s1 == s.(issued := s.issued + {id}).(events := s.events[Slot(et.name, id) := e]);
    var matches, f := FanOutWitness(env, s1, et, ev, e, now, s', Created, r);
    assert JobTemplate.Distinct(matches);
    EndToEnd.NeverRecordsCreated(FanOutCall(env, s1, et, e, ev.data, matches, now), s1.issued, f);
  }
}
