/** A run from empty stores in which the premises of the end-to-end theorem hold and its
    alert is raised: a type with one field, a trigger with a clause on it, one event. */
module Example {
  import opened Json
  import opened Records
  import opened ConditionTrees
  import opened TriggerConditions
  import opened Flattening
  import opened MappingCompiler
  import opened ServiceSpec
  import opened ServiceInvariants
  import opened ServiceRuns
  import ConditionKeys
  import DottedNames
  import EndToEnd
  import EventValidator
  import FanOut
  import JobTemplate
  import Orphans
  import Percolation
  import Precheck
  import ServiceContracts

  // ---------------------------------------------------------------- one goroutine

  /** A lone goroutine after k of its steps. */
  function Stage(call: FanOut.Call, issued: set<Id>, t: Id, jobId: Id, alertId: Id, order: seq<string>, k: nat)
    : FanOut.State
    requires t in call.triggers && JobTemplate.IsOrdering(order, call.data.Keys) && 1 <= k <= 6
  {
    var trigger := call.triggers[t];
    var sent := [FanOut.Message(t, jobId, FanOut.JobBody(call, trigger, order), trigger.createdBy)];
    var raised := [Alert(alertId, t, call.event.eventId, jobId, trigger.createdBy, call.now)];
    var phase :=
      if k == 1 then FanOut.Fetching
      else if k == 2 then FanOut.Filtering(trigger)
      else if k == 3 then FanOut.Authorising(trigger, jobId)
      else if k == 4 then FanOut.Publishing(trigger, jobId)
      else if k == 5 then FanOut.Alerting(trigger, jobId)
      else FanOut.Alerted(jobId, alertId);
    FanOut.State(1, if k < 6 then 1 else 0, map[t := phase],
      if k < 5 then [] else sent, if k < 6 then [] else raised, map[],
      if k < 3 then issued else if k < 6 then issued + {jobId} else issued + {jobId} + {alertId})
  }

  function StepAt(t: Id, jobId: Id, alertId: Id, order: seq<string>, k: nat): FanOut.Step {
    if k == 0 then FanOut.Launch
    else if k == 1 then FanOut.Fetch(t, FanOut.Found)
    else if k == 2 then FanOut.Filter(t, jobId)
    else if k == 3 then FanOut.Authorise(t, FanOut.Granted)
    else if k == 4 then FanOut.Publish(t, order, true)
    else FanOut.PostAlert(t, alertId, true)
  }

  ghost predicate Alone(call: FanOut.Call, issued: set<Id>, t: Id, jobId: Id, alertId: Id, order: seq<string>) {
    && call.matches == [t] && t in call.triggers && FanOut.Eligible(call, call.triggers[t])
    && jobId !in issued && alertId !in issued && jobId != alertId
    && JobTemplate.IsOrdering(order, call.data.Keys)
  }

  ghost predicate Leads(call: FanOut.Call, issued: set<Id>, t: Id, jobId: Id, alertId: Id, order: seq<string>, k: nat)
    requires Alone(call, issued, t, jobId, alertId, order) && 1 <= k < 6
  {
    var s, step := Stage(call, issued, t, jobId, alertId, order, k), StepAt(t, jobId, alertId, order, k);
    FanOut.Enabled(call, s, step) && FanOut.Next(call, s, step) == Stage(call, issued, t, jobId, alertId, order, k + 1)
  }

  lemma EarlyStage(call: FanOut.Call, issued: set<Id>, t: Id, jobId: Id, alertId: Id, order: seq<string>, k: nat)
    requires Alone(call, issued, t, jobId, alertId, order) && 1 <= k < 4
    ensures Leads(call, issued, t, jobId, alertId, order, k)
  {
    if k == 1 { } else if k == 2 { } else { }
  }

  lemma PublishStage(call: FanOut.Call, issued: set<Id>, t: Id, jobId: Id, alertId: Id, order: seq<string>)
    requires Alone(call, issued, t, jobId, alertId, order)
    ensures Leads(call, issued, t, jobId, alertId, order, 4)
  {
  }

  lemma AlertStage(call: FanOut.Call, issued: set<Id>, t: Id, jobId: Id, alertId: Id, order: seq<string>)
    requires Alone(call, issued, t, jobId, alertId, order)
    ensures Leads(call, issued, t, jobId, alertId, order, 5)
  {
  }

  lemma NextStage(call: FanOut.Call, issued: set<Id>, t: Id, jobId: Id, alertId: Id, order: seq<string>, k: nat)
    requires Alone(call, issued, t, jobId, alertId, order) && 1 <= k < 6
    ensures Leads(call, issued, t, jobId, alertId, order, k)
  {
    if k < 4 {
      EarlyStage(call, issued, t, jobId, alertId, order, k);
    } else if k == 4 {
      PublishStage(call, issued, t, jobId, alertId, order);
    } else {
      AlertStage(call, issued, t, jobId, alertId, order);
    }
  }

  lemma FirstStage(call: FanOut.Call, issued: set<Id>, t: Id, jobId: Id, alertId: Id, order: seq<string>)
    requires Alone(call, issued, t, jobId, alertId, order)
    ensures var s := FanOut.Initial(call, issued);
            FanOut.Enabled(call, s, FanOut.Launch)
            && FanOut.Next(call, s, FanOut.Launch) == Stage(call, issued, t, jobId, alertId, order, 1)
  {
  }

  lemma {:induction false} ReachesStage(call: FanOut.Call, issued: set<Id>, t: Id, jobId: Id, alertId: Id,
                                        order: seq<string>, k: nat)
    returns (trace: seq<FanOut.Step>)
    requires Alone(call, issued, t, jobId, alertId, order) && 1 <= k <= 6
    ensures FanOut.Runs(call, FanOut.Initial(call, issued), trace, Stage(call, issued, t, jobId, alertId, order, k))
    decreases k
  {
    var s := FanOut.Initial(call, issued);
    if k == 1 {
      FirstStage(call, issued, t, jobId, alertId, order);
      FanOut.RunsSnoc(call, s, [], s, FanOut.Launch);
      return [] + [FanOut.Launch];
    }
    trace := ReachesStage(call, issued, t, jobId, alertId, order, k - 1);
    NextStage(call, issued, t, jobId, alertId, order, k - 1);
    var step := StepAt(t, jobId, alertId, order, k - 1);
    FanOut.RunsSnoc(call, s, trace, Stage(call, issued, t, jobId, alertId, order, k - 1), step);
    trace := trace + [step];
  }

  /** A single eligible match can always come to its alert. */
  lemma OneTriggerAlerts(call: FanOut.Call, issued: set<Id>, t: Id, jobId: Id, alertId: Id, order: seq<string>)
    returns (f: FanOut.State)
    requires Alone(call, issued, t, jobId, alertId, order)
    ensures GoroutinesLeave(call, issued, f) && f.results == map[] && Answers(f, Created)
    ensures f.posted == [Alert(alertId, t, call.event.eventId, jobId, call.triggers[t].createdBy, call.now)]
  {
    f := Stage(call, issued, t, jobId, alertId, order, 6);
    var trace := ReachesStage(call, issued, t, jobId, alertId, order, 6);
  }

  // ---------------------------------------------------------------- requests that succeed

  ghost function WithSchema(s: State, et: EventType, id: Id, now: string): State
    requires ValidMapping(Obj(StoredType(et, id, now).mapping))
  {
    s.(issued := s.issued + {id}, eventTypes := s.eventTypes[id := StoredType(et, id, now)],
       schemas := s.schemas[et.name := Schema(Obj(StoredType(et, id, now).mapping))])
  }

  /** A sound type can be posted. */
  lemma TypePosted(s: State, et: EventType, id: Id, now: string)
    requires et.name !in s.schemas && Named(s, et.name) == {} && id !in s.issued
    requires ValidMapping(Obj(et.mapping)) && !ServiceContracts.HasTildePath(et.mapping)
    ensures ValidMapping(Obj(StoredType(et, id, now).mapping))
    ensures PostsEventType(s, et, id, now, {}, WithSchema(s, et, id, now), Created,
                           et.(eventTypeId := id, createdOn := now))
  {
    var nested := AddUniqueParams(et.name, et.mapping);
    ServiceContracts.ValidNested(et.name, et.mapping);
    var vars := Precheck.SomeOutcome(Obj(et.mapping), et.mapping.Keys, [], {}, map[]);
    var leaves := Precheck.SomeOutcome(Obj(nested), nested.Keys, [], {}, map[]);
    ServiceContracts.TildeInEveryOutcome(et.mapping, vars);
    Precheck.ValidPasses(nested, leaves);
    var s', r := WithSchema(s, et, id, now), et.(eventTypeId := id, createdOn := now);
    assert AddsMapping(s.(issued := s.issued + {id}), et, id, now, {}, s', Created, r);
    assert IsVars(et.mapping, {}, vars) && IsVars(nested, {}, leaves);
    assert StoresNewType(s.(issued := s.issued + {id}), et, id, now, {}, s', Created, r);
  }

  /** Nested data that is typed is accepted. */
  lemma TypedAccepted(env: Env, s: State, ev: Event, id: Id, now: string)
    requires Types(s) && ServiceContracts.Decidable(s, ev) && ServiceContracts.EventTyped(env, s, ev)
    ensures var name := s.eventTypes[ev.eventTypeId].name;
            Accepts(env, s, name, StoredEvent(ev, name, id, now), {}, true)
  {
    assert TypeOk(s, ev.eventTypeId);
    var et := s.eventTypes[ev.eventTypeId];
    var m, e := Mapping(et), StoredEvent(ev, et.name, id, now);
    var mv := Precheck.SomeOutcome(Obj(m), m.Keys, [], {}, map[]);
    var dv := Precheck.SomeOutcome(Obj(ev.data), ev.data.Keys, [], EventValidator.GeoKeys(mv), map[]);
    assert EventValidator.Flattened(UnwrapOr(et.name, et.mapping), UnwrapOr(et.name, e.data), mv, dv);
    ServiceContracts.ValidNested(et.name, m);
    EventValidator.ValidatorAndSchemaAreTyping(env.parses, et.name, m, ev.data, mv, dv);
  }

  /** An accepted event is answered with 201 if its goroutines can all end well. */
  lemma EventPosted(env: Env, s: State, ev: Event, id: Id, now: string, matches: seq<Id>, f: FanOut.State)
    returns (s': State, r: Event)
    requires ev.eventTypeId in s.eventTypes && id !in s.issued
    requires var s1, et := EndToEnd.WithEvent(s, ev, id, now), s.eventTypes[ev.eventTypeId];
             var e := StoredEvent(ev, et.name, id, now);
             && Accepts(env, s.(issued := s.issued + {id}), et.name, e, {}, true)
             && JobTemplate.IsOrdering(matches, MatchingQueries(env, s1, e.data))
             && GoroutinesLeave(FanOutCall(env, s1, et, e, ev.data, matches, now), s1.issued, f) && f.results == map[]
    ensures PostsEvent(env, s, ev, id, now, {}, s', Created, r)
    ensures s' == AfterFanOut(EndToEnd.WithEvent(s, ev, id, now), f)
  {
    var s0, s1, et := s.(issued := s.issued + {id}), EndToEnd.WithEvent(s, ev, id, now), s.eventTypes[ev.eventTypeId];
    var e := StoredEvent(ev, et.name, id, now);
    s', r := AfterFanOut(s1, f), ev.(eventId := e.eventId, createdOn := now);
    assert RunsTriggers(env, s1, et, ev, e, now, s', Created, r);
    assert s1 == s0.(events := s0.events[Slot(et.name, id) := e]);
    assert StoresAndFires(env, s0, et, ev, id, now, {}, s', Created, r);
  }

  // ---------------------------------------------------------------- the run

  const FIELDS: Fields := map["x" := Str("boolean")]
  const VALUES: Fields := map["x" := Bool(true)]
  const FIELD_TYPE := EventType("", "t", FIELDS, "", "")

  lemma FieldsAreSound()
    ensures ValidMapping(Obj(FIELDS)) && !ServiceContracts.HasTildePath(FIELDS)
    ensures EventValidator.Unambiguous(Obj(FIELDS))
  {
    assert FIELDS.Keys == {"x"} && IsScalarType("boolean");
    assert AllKeys(DottedNames.DotFree, Obj(FIELDS));
    EventValidator.DotFreeIsUnambiguous(Obj(FIELDS));
    forall p, x | LeafAt(Obj(FIELDS), [], {}, p, x) ensures '~' !in DottedNames.Join(p) { assert p == ["x"]; }
  }

  lemma ValuesAreTyped(parses: Parser)
    requires parses("boolean", Bool(true))
    ensures EventValidator.Typed(parses, Obj(FIELDS), Obj(VALUES)) && EventValidator.Shaped(Obj(FIELDS), Obj(VALUES))
  {
    assert FIELDS.Keys == {"x"} && VALUES.Keys == {"x"};
    assert !IsArrayType("boolean");
    assert EventValidator.Typed(parses, FIELDS["x"], VALUES["x"]);
  }

  ghost function Start(): State
    requires ValidMapping(Obj(StoredType(FIELD_TYPE, "e", "").mapping))
  {
    WithSchema(Initial(map[]), FIELD_TYPE, "e", "")
  }

  lemma Starts(env: Env)
    ensures ValidMapping(Obj(StoredType(FIELD_TYPE, "e", "").mapping))
    ensures PostsEventType(Initial(map[]), FIELD_TYPE, "e", "", {}, Start(), Created, FIELD_TYPE.(eventTypeId := "e"))
    ensures Integrity(env, Initial(map[])) && Integrity(env, Start())
  {
    FieldsAreSound();
    TypePosted(Initial(map[]), FIELD_TYPE, "e", "");
    PostEventTypeKeeps(env, Initial(map[]), FIELD_TYPE, "e", "", {}, Start(), Created, FIELD_TYPE.(eventTypeId := "e"));
  }

  /** An event of the type that makes its clause true. */
  lemma ValuesDecidable(env: Env, s: State, ev: Event)
    requires env.parses("boolean", Bool(true)) && ev.eventTypeId == "e" && ev.data == VALUES
    requires "e" in s.eventTypes && s.eventTypes["e"] == StoredType(FIELD_TYPE, "e", "") && "t" in s.schemas
    ensures ServiceContracts.Decidable(s, ev) && ServiceContracts.EventTyped(env, s, ev)
  {
    FieldsAreSound();
    ValuesAreTyped(env.parses);
    assert Mapping(s.eventTypes["e"]) == FIELDS;
  }

  const FIELD := DottedNames.Join(["data", "x"])
  const CONDITION := Percolation.TermQuery(FIELD).fields
  const JOB := JobRequest("", JobType(map["serviceId" := Str("")], ""))
  const TRIGGER := Trigger("", "", "e", CONDITION, JOB, "", "", "", true)
  const EVENT := Event("", "e", VALUES, "", "", "")

  function Query(): string {
    ConditionKeys.Insert("t", FIELD)
  }

  /** The trigger's query and its encoded condition. */
  lemma Forms()
    ensures StoredForms("t", CONDITION, Percolation.TermQuery(Query()).fields,
                        Percolation.TermQuery(ConditionKeys.ToTildes(Query())).fields)
  {
    Percolation.TermRewritten("t", FIELD);
    Percolation.OneRenamed(Encode(), Query(), Bool(true), Bool(true));
    Percolation.OneRenamed(Encode(), "term", Obj(map[Query() := Bool(true)]),
                           Obj(map[ConditionKeys.ToTildes(Query()) := Bool(true)]));
  }

  lemma ConditionHolds()
    ensures AllKeys(Percolation.NotExists, Obj(CONDITION))
    ensures Percolation.Matches(Obj(CONDITION), Percolation.UserDocument(VALUES))
  {
    DottedNames.SplitJoin(["data", "x"]);
    Percolation.TermKeys(FIELD);
    Percolation.TermMeaning(FIELD, Percolation.UserDocument(VALUES));
    Percolation.FoundAtX(VALUES);
  }

  ghost function Armed(s: State): State {
    var encoded := Percolation.TermQuery(ConditionKeys.ToTildes(Query())).fields;
    s.(issued := s.issued + {"a"}, queries := s.queries["a" := Percolation.TermQuery(Query()).fields],
       triggers := s.triggers["a" := TRIGGER.(triggerId := "a", percolationId := "a", condition := encoded)])
  }

  lemma ArmedByPost(s: State)
    requires "a" !in s.issued && "e" in s.eventTypes && s.eventTypes["e"].name == "t"
    ensures PostsTrigger(s, TRIGGER, "a", "", {}, Armed(s), Created, TRIGGER.(triggerId := "a"))
  {
    Forms();
    assert Registered(s.(issued := s.issued + {"a"}), TRIGGER, "a", "", {}, Percolation.TermQuery(Query()).fields,
                      Percolation.TermQuery(ConditionKeys.ToTildes(Query())).fields, Armed(s), Created,
                      TRIGGER.(triggerId := "a"));
    assert NamesService(TRIGGER.job);
  }

  /** For a stored type, and if no call fails: a job without a "serviceId", or with one that
      is no string, is refused with 400, and a job that names a service is accepted. */
  lemma ServiceIdNeeded(env: Env, s: State, t: Trigger, id: Id, now: string, s': State, status: Status, r: Trigger,
                        service: string)
    requires Integrity(env, s) && t.eventTypeId in s.eventTypes && t.eventTypeId != ""
    requires PostsTrigger(s, t, id, now, {}, s', status, r)
    ensures t.job.jobType.data == map[] ==> status == BadRequest
    ensures t.job.jobType.data == map["serviceId" := Num(1.0)] ==> status == BadRequest
    ensures t.job.jobType.data == map["serviceId" := Str(service)] ==> status == Created
  {
    ServiceIdDecides(env, s, t, id, now, s', status, r);
  }

  lemma ServiceIdDecides(env: Env, s: State, t: Trigger, id: Id, now: string, s': State, status: Status, r: Trigger)
    requires Integrity(env, s) && t.eventTypeId in s.eventTypes && t.eventTypeId != ""
    requires PostsTrigger(s, t, id, now, {}, s', status, r)
    ensures status == if ServiceContracts.HasServiceId(t) then Created else BadRequest
  {
    ServiceContracts.PostTriggerMeans(env, s, t, id, now, {}, s', status, r);
  }

  lemma OnlyMatch(env: Env, s: State, t: Id, data: Fields)
    requires s.queries.Keys == {t} && env.queryMatches(Obj(s.queries[t]), Obj(map["data" := Obj(data)]))
    ensures JobTemplate.IsOrdering([t], MatchingQueries(env, s, data))
  {
    assert MatchingQueries(env, s, data) == {t};
  }

  /** The type, the trigger and its query are stored, and nothing else. */
  ghost predicate IsArmed(s: State) {
    && Types(s) && s.issued == {"e", "a"} && s.queries.Keys == {"a"} && "t" in s.schemas
    && "e" in s.eventTypes && s.eventTypes["e"] == StoredType(FIELD_TYPE, "e", "")
    && "a" in s.triggers && s.triggers["a"].enabled && s.triggers["a"].eventTypeId == "e"
  }

  lemma ValuesAccepted(env: Env, s: State)
    requires IsArmed(s) && env.parses("boolean", Bool(true))
    ensures Accepts(env, s.(issued := s.issued + {"b"}), "t", StoredEvent(EVENT, "t", "b", ""), {}, true)
  {
    var s0 := s.(issued := s.issued + {"b"});
    TypesFrame(s, s0);
    ValuesDecidable(env, s0, EVENT);
    TypedAccepted(env, s0, EVENT, "b", "");
  }

  /** The goroutine of the only match ends in its alert. */
  lemma LoneAlert(env: Env, s: State) returns (f: FanOut.State)
    requires IsArmed(s)
    ensures var s1, e := EndToEnd.WithEvent(s, EVENT, "b", ""), StoredEvent(EVENT, "t", "b", "");
            GoroutinesLeave(FanOutCall(env, s1, s.eventTypes["e"], e, VALUES, ["a"], ""), s1.issued, f)
              && f.results == map[]
  {
    var s1, e := EndToEnd.WithEvent(s, EVENT, "b", ""), StoredEvent(EVENT, "t", "b", "");
    var call := FanOutCall(env, s1, s.eventTypes["e"], e, VALUES, ["a"], "");
    assert JobTemplate.IsOrdering(["x"], call.data.Keys);
    f := OneTriggerAlerts(call, s1.issued, "a", "j", "k", ["x"]);
  }

  lemma EventAlerts(env: Env, s: State) returns (s': State, r: Event)
    requires IsArmed(s) && env.parses("boolean", Bool(true))
    requires env.queryMatches(Obj(s.queries["a"]), Percolation.PercolationDocument("t", VALUES))
    ensures PostsEvent(env, s, EVENT, "b", "", {}, s', Created, r)
  {
    ValuesAccepted(env, s);
    var f := LoneAlert(env, s);
    s', r := LoneMatchPosted(env, s, EVENT, "b", "a", f);
  }

  /** An event that one query matches is answered with 201 if its goroutine can end well. */
  lemma LoneMatchPosted(env: Env, s: State, ev: Event, id: Id, t: Id, f: FanOut.State) returns (s': State, r: Event)
    requires ev.eventTypeId in s.eventTypes && id !in s.issued && s.queries.Keys == {t}
    requires var s1, et := EndToEnd.WithEvent(s, ev, id, ""), s.eventTypes[ev.eventTypeId];
             var e := StoredEvent(ev, et.name, id, "");
             && env.queryMatches(Obj(s.queries[t]), Obj(map["data" := Obj(e.data)]))
             && Accepts(env, s.(issued := s.issued + {id}), et.name, e, {}, true)
             && GoroutinesLeave(FanOutCall(env, s1, et, e, ev.data, [t], ""), s1.issued, f) && f.results == map[]
    ensures PostsEvent(env, s, ev, id, "", {}, s', Created, r)
  {
    OnlyMatch(env, EndToEnd.WithEvent(s, ev, id, ""), t,
              StoredEvent(ev, s.eventTypes[ev.eventTypeId].name, id, "").data);
    s', r := EventPosted(env, s, ev, id, "", [t], f);
  }

  /** From empty stores the type and the trigger can be posted. */
  lemma Arms(env: Env) returns (s0: State, s1: State)
    ensures PostsEventType(Initial(map[]), FIELD_TYPE, "e", "", {}, s0, Created, FIELD_TYPE.(eventTypeId := "e"))
    ensures PostsTrigger(s0, TRIGGER, "a", "", {}, s1, Created, TRIGGER.(triggerId := "a"))
    ensures Integrity(env, s0) && IsArmed(s1) && s0.eventTypes["e"].name == "t"
    ensures DottedNames.DotFree(s0.eventTypes["e"].name)
  {
    Starts(env);
    s0 := Start();
    s1 := ThenArmed(s0);
  }

  lemma ThenArmed(s: State) returns (s': State)
    requires Types(s) && s.issued == {"e"} && s.queries == map[] && "t" in s.schemas
    requires "e" in s.eventTypes && s.eventTypes["e"] == StoredType(FIELD_TYPE, "e", "")
    ensures PostsTrigger(s, TRIGGER, "a", "", {}, s', Created, TRIGGER.(triggerId := "a")) && IsArmed(s')
  {
    s' := Armed(s);
    ArmedByPost(s);
    ArmedIsArmed(s);
  }

  lemma ArmedIsArmed(s: State)
    requires Types(s) && s.issued == {"e"} && s.queries == map[] && "t" in s.schemas
    requires "e" in s.eventTypes && s.eventTypes["e"] == StoredType(FIELD_TYPE, "e", "")
    ensures IsArmed(Armed(s))
  {
    TypesFrame(s, Armed(s));
  }

  /** The query matches the event. */
  lemma ArmedMatches(env: Env, s0: State, s1: State)
    requires forall q, d :: env.queryMatches(q, d) == Percolation.Matches(q, d)
    requires "e" in s0.eventTypes && s0.eventTypes["e"].name == "t" && IsArmed(s1)
    requires PostsTrigger(s0, TRIGGER, "a", "", {}, s1, Created, TRIGGER.(triggerId := "a"))
    ensures env.queryMatches(Obj(s1.queries["a"]), Percolation.PercolationDocument("t", VALUES))
  {
    ConditionHolds();
    EndToEnd.RegisteredGuards(s0, TRIGGER, "a", "", {}, s1, TRIGGER.(triggerId := "a"));
    EndToEnd.GuardsAsWritten(env, s1, "a", CONDITION, EVENT);
  }

  /** From empty stores a type, a trigger and an event can be posted such that the premises
      of TriggersAlertAsWritten hold, and by it the alert is raised. */
  lemma AnAlertIsRaised(env: Env) returns (s0: State, s1: State, s2: State, r: Event)
    requires forall q, d :: env.queryMatches(q, d) == Percolation.Matches(q, d)
    requires env.parses("boolean", Bool(true))
    ensures PostsEventType(Initial(map[]), FIELD_TYPE, "e", "", {}, s0, Created, FIELD_TYPE.(eventTypeId := "e"))
    ensures PostsTrigger(s0, TRIGGER, "a", "", {}, s1, Created, TRIGGER.(triggerId := "a"))
    ensures PostsEvent(env, s1, EVENT, "b", "", {}, s2, Created, r)
    ensures EndToEnd.RaisesAlert(s1, s2, "a", "b")
  {
    s0, s1 := Arms(env);
    ArmedMatches(env, s0, s1);
    s2, r := EventAlerts(env, s1);
    ConditionHolds();
    AlertAsWritten(env, s0, TRIGGER, s1, TRIGGER.(triggerId := "a"), EVENT, s2, r);
  }

  /** The end-to-end theorem, for the run without further steps. */
  lemma AlertAsWritten(env: Env, s0: State, t: Trigger, s1: State, r: Trigger, ev: Event, s2: State, r': Event)
    requires forall q, d :: env.queryMatches(q, d) == Percolation.Matches(q, d)
    requires Integrity(env, s0) && "e" in s0.eventTypes && DottedNames.DotFree(s0.eventTypes["e"].name)
    requires AllKeys(Percolation.NotExists, Obj(t.condition))
             && Percolation.Matches(Obj(t.condition), Percolation.UserDocument(ev.data))
    requires ev.eventTypeId == "e" && t.eventTypeId == "e" && PostsTrigger(s0, t, "a", "", {}, s1, Created, r)
    requires PostsEvent(env, s1, ev, "b", "", {}, s2, Created, r')
    requires "a" in s1.triggers && s1.triggers["a"].enabled
    ensures EndToEnd.RaisesAlert(s1, s2, "a", "b")
  {
    WithoutSteps(env, s0, t, "a", s1, r, ev, "b", s2, r');
  }

  lemma WithoutSteps(env: Env, s0: State, t: Trigger, id: Id, s1: State, r: Trigger, ev: Event, evId: Id, s2: State,
                     r': Event)
    requires forall q, d :: env.queryMatches(q, d) == Percolation.Matches(q, d)
    requires Integrity(env, s0) && PostsTrigger(s0, t, id, "", {}, s1, Created, r) && id in s1.triggers
    requires DottedNames.DotFree(s0.eventTypes[t.eventTypeId].name) && AllKeys(Percolation.NotExists, Obj(t.condition))
    requires PostsEvent(env, s1, ev, evId, "", {}, s2, Created, r') && ev.eventTypeId == t.eventTypeId
    requires s1.triggers[id].enabled && Percolation.Matches(Obj(t.condition), Percolation.UserDocument(ev.data))
    ensures EndToEnd.RaisesAlert(s1, s2, id, evId)
  {
    EndToEnd.TriggersAlertAsWritten(env, s0, t, id, "", {}, s1, r, [], s1, ev, evId, "", {}, s2, r');
  }

  /** If then the trigger is deleted and the removal of its query fails, the same event can
      no longer be answered with 201. */
  lemma AnOrphanBlocks(env: Env) returns (s: State, s': State)
    requires forall q, d :: env.queryMatches(q, d) == Percolation.Matches(q, d)
    ensures Reachable(env, s) && DeletesTrigger(s, "a", {RemoveQuery}, s', NotFound) && Orphans.Orphan(s', "a")
    ensures forall id, now, fails, after, r :: !PostsEvent(env, s', EVENT, id, now, fails, after, Created, r)
  {
    var s0;
    s0, s := Arms(env);
    ArmedMatches(env, s0, s);
    TwoPosts(env, s0, s);
    s' := TriggerGone(env, s, "a", EVENT);
  }

  lemma TriggerGone(env: Env, s: State, t: Id, ev: Event) returns (s': State)
    requires t in s.triggers && Orphans.QueryMatches(env, s, t, ev)
    ensures DeletesTrigger(s, t, {RemoveQuery}, s', NotFound) && Orphans.Orphan(s', t)
    ensures forall id, now, fails, after, r :: !PostsEvent(env, s', ev, id, now, fails, after, Created, r)
  {
    s' := s.(triggers := s.triggers - {t});
    forall id, now, fails, after, r ensures !PostsEvent(env, s', ev, id, now, fails, after, Created, r) {
      Orphans.OrphanFailsEvent(env, s', ev, id, now, fails, after, r, t);
    }
  }

  lemma TwoPosts(env: Env, s0: State, s: State)
    requires PostsEventType(Initial(map[]), FIELD_TYPE, "e", "", {}, s0, Created, FIELD_TYPE.(eventTypeId := "e"))
    requires PostsTrigger(s0, TRIGGER, "a", "", {}, s, Created, TRIGGER.(triggerId := "a"))
    ensures Reachable(env, s)
  {
    TypeThenTrigger(env, map[], FIELD_TYPE, "e", s0, FIELD_TYPE.(eventTypeId := "e"), TRIGGER, "a", s,
                    TRIGGER.(triggerId := "a"));
  }

  lemma TypeThenTrigger(env: Env, schemas: map<string, Json>, et: EventType, id: Id, s0: State, r: EventType,
                        t: Trigger, id': Id, s: State, r': Trigger)
    requires PostsEventType(Initial(schemas), et, id, "", {}, s0, Created, r)
    requires PostsTrigger(s0, t, id', "", {}, s, Created, r')
    ensures Reachable(env, s)
  {
    TypeTakes(env, Initial(schemas), et, id, s0, r);
    TriggerTakes(env, s0, t, id', s, r');
    var first, second := Step(PostEventType(et), id, "", {}, Created), Step(PostTrigger(t), id', "", {}, Created);
    TwoSteps(env, schemas, first, s0, second, s);
  }

  lemma TwoSteps(env: Env, schemas: map<string, Json>, first: Step, s0: State, second: Step, s: State)
    requires Takes(env, Initial(schemas), first, s0) && Takes(env, s0, second, s)
    ensures Reachable(env, s)
  {
    StepThenRun(env, s0, second, s, [], s);
    StepThenRun(env, Initial(schemas), first, s0, [second], s);
  }

  lemma TypeTakes(env: Env, s: State, et: EventType, id: Id, s': State, r: EventType)
    requires PostsEventType(s, et, id, "", {}, s', Created, r)
    ensures Takes(env, s, Step(PostEventType(et), id, "", {}, Created), s')
  {
  }

  lemma TriggerTakes(env: Env, s: State, t: Trigger, id: Id, s': State, r: Trigger)
    requires PostsTrigger(s, t, id, "", {}, s', Created, r)
    ensures Takes(env, s, Step(PostTrigger(t), id, "", {}, Created), s')
  {
  }
}
