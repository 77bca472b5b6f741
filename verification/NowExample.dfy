/** A run with the schedule "@now": the event fires once and stays in the cron store, and a
    restart fires it again. */
module NowExample {
  import opened Json
  import opened Records
  import opened ServiceSpec
  import opened ServiceInvariants
  import opened ServiceRuns
  import CronHistory
  import CronRestart
  import EndToEnd
  import Example
  import FanOut
  import JobTemplate
  import ServiceContracts

  // ---------------------------------------------------------------- posting without triggers

  lemma NothingToLaunch(env: Env, s: State, et: EventType, e: Event, data: Fields) returns (f: FanOut.State)
    ensures GoroutinesLeave(FanOutCall(env, s, et, e, data, [], ""), s.issued, f)
    ensures f.results == map[] && AfterFanOut(s, f) == s
  {
    var call := FanOutCall(env, s, et, e, data, [], "");
    f := FanOut.Initial(call, s.issued);
    assert FanOut.Runs(call, f, [], f);
  }

  lemma NothingMatches(env: Env, s: State, data: Fields)
    requires s.queries == map[]
    ensures JobTemplate.IsOrdering([], MatchingQueries(env, s, data))
  {
  }

  lemma AcceptedNext(env: Env, s: State, ev: Event, id: Id)
    requires Types(s) && ServiceContracts.Decidable(s, ev) && ServiceContracts.EventTyped(env, s, ev)
    ensures var name := s.eventTypes[ev.eventTypeId].name;
            Accepts(env, s.(issued := s.issued + {id}), name, StoredEvent(ev, name, id, ""), {}, true)
  {
    var s0 := s.(issued := s.issued + {id});
    TypesFrame(s, s0);
    Example.TypedAccepted(env, s0, ev, id, "");
  }

  /** With no triggers a typed event can be posted. */
  lemma QuietEventPosted(env: Env, s: State, ev: Event, id: Id) returns (r: Event)
    requires Types(s) && s.queries == map[] && id !in s.issued
    requires ServiceContracts.Decidable(s, ev) && ServiceContracts.EventTyped(env, s, ev)
    ensures PostsEvent(env, s, ev, id, "", {}, EndToEnd.WithEvent(s, ev, id, ""), Created, r)
  {
    var s1, et := EndToEnd.WithEvent(s, ev, id, ""), s.eventTypes[ev.eventTypeId];
    var e := StoredEvent(ev, et.name, id, "");
    AcceptedNext(env, s, ev, id);
    var f := NothingToLaunch(env, s1, et, e, ev.data);
    NothingMatches(env, s1, e.data);
    var s';
    s', r := Example.EventPosted(env, s, ev, id, "", [], f);
  }

  function Scheduled(s: State, ev: Event, id: Id): State
    requires ev.eventTypeId in s.eventTypes
  {
    var name := s.eventTypes[ev.eventTypeId].name;
    var e := StoredEvent(ev, name, id, "");
    s.(issued := s.issued + {id}, jobs := s.jobs + [CronJob(e, name, ev.cronSchedule)], crons := s.crons[id := e],
       events := s.events[Slot(name, id) := e])
  }

  lemma RepeatingEventPosted(env: Env, s: State, ev: Event, id: Id)
    requires Types(s) && id !in s.issued && env.cronParses(ev.cronSchedule)
    requires ServiceContracts.Decidable(s, ev) && ServiceContracts.EventTyped(env, s, ev)
    ensures PostsRepeatingEvent(env, s, ev, id, "", {}, Scheduled(s, ev, id), Created,
                                ev.(eventId := id, createdOn := ""))
  {
    var s0 := s.(issued := s.issued + {id});
    AcceptedNext(env, s, ev, id);
    assert Schedules(env, s0, s.eventTypes[ev.eventTypeId], ev, id, "", {}, Scheduled(s, ev, id), Created,
                     ev.(eventId := id, createdOn := ""));
  }

  /** With no triggers a live "@now" entry can fire. */
  lemma OnceFired(env: Env, s: State, i: nat, id: Id) returns (s': State)
    requires Types(s) && s.queries == map[] && id !in s.issued && i < |s.jobs|
    requires s.jobs[i].Key() !in s.removed && IsOneShot(s.jobs[i].schedule)
    requires ServiceContracts.Decidable(s, FiredEvent(s.jobs[i], ""))
    requires ServiceContracts.EventTyped(env, s, FiredEvent(s.jobs[i], ""))
    ensures Fires(env, s, i, id, "", {}, s', Created) && id in EventIds(s')
    ensures s' == EndToEnd.WithEvent(s, FiredEvent(s.jobs[i], ""), id, "").(jobs := Dropped(s.jobs, i))
  {
    var ev := FiredEvent(s.jobs[i], "");
    var r := QuietEventPosted(env, s, ev, id);
    var mid := EndToEnd.WithEvent(s, ev, id, "");
    s' := mid.(jobs := Dropped(s.jobs, i));
    assert Slot(s.eventTypes[ev.eventTypeId].name, id) in s'.events;
  }

  // ---------------------------------------------------------------- the run

  const ONCE := Example.EVENT.(cronSchedule := "@now")

  /** The type of the example is stored, and no trigger. */
  ghost predicate OneType(s: State) {
    && Types(s) && s.queries == map[] && "t" in s.schemas
    && "e" in s.eventTypes && s.eventTypes["e"] == StoredType(Example.FIELD_TYPE, "e", "")
  }

  lemma SameType(s: State, s': State)
    requires OneType(s) && s.issued <= s'.issued && s'.queries == s.queries
    requires s'.schemas == s.schemas && s'.eventTypes == s.eventTypes
    ensures OneType(s')
  {
    TypesFrame(s, s');
  }

  function OnceJob(id: Id): CronJob {
    CronJob(StoredEvent(ONCE, "t", id, ""), "t", "@now")
  }

  lemma OnceScheduled(env: Env, s: State, id: Id) returns (s': State)
    requires OneType(s) && id !in s.issued && env.cronParses("@now") && env.parses("boolean", Bool(true))
    ensures PostsRepeatingEvent(env, s, ONCE, id, "", {}, s', Created, ONCE.(eventId := id)) && OneType(s')
    ensures s'.jobs == s.jobs + [OnceJob(id)] && s'.crons == s.crons[id := OnceJob(id).event]
    ensures s'.issued == s.issued + {id} && s'.removed == s.removed
  {
    s' := Scheduled(s, ONCE, id);
    Example.ValuesDecidable(env, s, ONCE);
    RepeatingEventPosted(env, s, ONCE, id);
    SameType(s, s');
  }

  lemma OnceJobFires(env: Env, s: State, id: Id, newId: Id) returns (s': State)
    requires OneType(s) && s.jobs == [OnceJob(id)] && s.removed == {} && newId !in s.issued
    requires env.parses("boolean", Bool(true))
    ensures Fires(env, s, 0, newId, "", {}, s', Created) && newId in EventIds(s') && OneType(s')
    ensures s'.jobs == [] && s'.crons == s.crons && s'.removed == {} && s'.issued == s.issued + {newId}
  {
    var ev := FiredEvent(OnceJob(id), "");
    assert ev.data == Example.VALUES;
    Example.ValuesDecidable(env, s, ev);
    s' := OnceFired(env, s, 0, newId);
    SameType(s, s');
  }

  lemma NoEntries(s: State, id: Id)
    requires s.jobs == [] && id in s.crons
    ensures CronHistory.LiveKeys(s) == {} && !CronHistory.SameIds(s)
  {
  }

  lemma Begun(env: Env) returns (s: State)
    ensures PostsEventType(Initial(map[]), Example.FIELD_TYPE, "e", "", {}, s, Created,
                           Example.FIELD_TYPE.(eventTypeId := "e"))
    ensures OneType(s) && s.issued == {"e"} && s.jobs == [] && s.removed == {} && s.crons == map[]
  {
    Example.Starts(env);
    s := Example.Start();
  }

  function Rebooted(s: State, id: Id): State
    requires id in s.crons
  {
    CronRestart.Restarted(s, CronRestart.CopiedJobs(s.eventTypes, CronRestart.Listing(s.crons, [id])))
  }

  lemma SpentFires(env: Env, s: State, id: Id, newId: Id) returns (again: State)
    requires OneType(s) && s.crons == map[id := OnceJob(id).event]
    requires newId !in s.issued && env.parses("boolean", Bool(true))
    ensures Fires(env, Rebooted(s, id), 0, newId, "", {}, again, Created) && newId in EventIds(again)
  {
    var r := Rebooted(s, id);
    assert r.jobs == [OnceJob(id)];
    SameType(s, r);
    again := OnceJobFires(env, r, id, newId);
  }

  lemma FiredOnce(env: Env, s: State, a: Id, b: Id) returns (s': State)
    requires OneType(s) && s.jobs == [OnceJob(a)] && s.removed == {} && s.crons == map[a := OnceJob(a).event]
    requires b !in s.issued && env.parses("boolean", Bool(true))
    ensures Fires(env, s, 0, b, "", {}, s', Created) && b in EventIds(s')
    ensures OneType(s') && s'.crons == s.crons && s'.issued == s.issued + {b}
    ensures CronHistory.LiveKeys(s') == {} && !CronHistory.SameIds(s')
  {
    s' := OnceJobFires(env, s, a, b);
    NoEntries(s', a);
  }

  lemma FiredAndRestarted(env: Env, s: State, a: Id, b: Id, c: Id) returns (s': State, again: State)
    requires OneType(s) && s.jobs == [OnceJob(a)] && s.removed == {} && s.crons == map[a := OnceJob(a).event]
    requires b !in s.issued && c !in s.issued && b != c && env.parses("boolean", Bool(true))
    ensures Fires(env, s, 0, b, "", {}, s', Created) && b in EventIds(s')
    ensures s'.crons.Keys == {a} && CronHistory.LiveKeys(s') == {} && !CronHistory.SameIds(s')
    ensures Fires(env, Rebooted(s', a), 0, c, "", {}, again, Created) && c in EventIds(again)
  {
    s' := FiredOnce(env, s, a, b);
    again := SpentFires(env, s', a, c);
  }

  lemma OnceAndAgain(env: Env, s0: State, a: Id, b: Id, c: Id) returns (s1: State, s2: State, again: State)
    requires OneType(s0) && s0.jobs == [] && s0.removed == {} && s0.crons == map[]
    requires a !in s0.issued && b !in s0.issued && c !in s0.issued && a != b && a != c && b != c
    requires env.cronParses("@now") && env.parses("boolean", Bool(true))
    ensures PostsRepeatingEvent(env, s0, ONCE, a, "", {}, s1, Created, ONCE.(eventId := a))
    ensures Fires(env, s1, 0, b, "", {}, s2, Created) && b in EventIds(s2)
    ensures s2.crons.Keys == {a} && CronHistory.LiveKeys(s2) == {} && !CronHistory.SameIds(s2)
    ensures Fires(env, Rebooted(s2, a), 0, c, "", {}, again, Created) && c in EventIds(again)
  {
    s1 := OnceScheduled(env, s0, a);
    s2, again := FiredAndRestarted(env, s1, a, b, c);
  }

  /** From empty stores: a type is posted, an event with the schedule "@now" is posted, and
      fires. Then the cron store has it and the scheduler has no entry. A restart, even one
      with a copy of the loop variable per iteration, makes its entry again, and that can
      fire again. */
  lemma FiresAgainAfterRestart(env: Env) returns (s0: State, s1: State, s2: State, again: State)
    requires env.cronParses("@now") && env.parses("boolean", Bool(true))
    ensures PostsEventType(Initial(map[]), Example.FIELD_TYPE, "e", "", {}, s0, Created,
                           Example.FIELD_TYPE.(eventTypeId := "e"))
    ensures PostsRepeatingEvent(env, s0, ONCE, "c", "", {}, s1, Created, ONCE.(eventId := "c"))
    ensures Fires(env, s1, 0, "d", "", {}, s2, Created) && "d" in EventIds(s2)
    ensures s2.crons.Keys == {"c"} && CronHistory.LiveKeys(s2) == {} && !CronHistory.SameIds(s2)
    ensures Fires(env, Rebooted(s2, "c"), 0, "f", "", {}, again, Created) && "f" in EventIds(again)
  {
    s0 := Begun(env);
    s1, s2, again := OnceAndAgain(env, s0, "c", "d", "f");
  }
}
