/** How the cron store, the scheduler and the event store agree in every run in which the
    cron store's calls do not fail, and that a deleted event never fires again. The
    scheduler drops a "@now" entry when it fires, the cron store does not. */
module CronAgreement {
  import opened Json
  import opened Records
  import opened ServiceSpec
  import opened ServiceInvariants
  import opened ServiceRuns

  ghost predicate HasJob(s: State, id: Id) {
    exists i | 0 <= i < |s.jobs| :: s.jobs[i].Key() == id
  }

  /** No two entries have one key. */
  ghost predicate OneEntryEach(s: State) {
    forall i, j | 0 <= i < j < |s.jobs| :: s.jobs[i].Key() != s.jobs[j].Key()
  }

  /** An entry that can still run is in the cron store, its event is stored, and it has
      that event's schedule. */
  ghost predicate JobAgrees(s: State, job: CronJob) {
    job.Key() !in s.removed ==>
      && job.Key() in s.crons && s.crons[job.Key()] == job.event && job.schedule == job.event.cronSchedule
      && Slot(job.typeName, job.Key()) in s.events && s.events[Slot(job.typeName, job.Key())] == job.event
  }

  /** A stored cron event is a stored event with a schedule that parses; it has an entry,
      unless it is of the kind that fires once. */
  ghost predicate CronAgrees(env: Env, s: State, id: Id)
    requires id in s.crons
  {
    && id !in s.removed && env.cronParses(s.crons[id].cronSchedule)
    && (exists slot | slot in s.events :: slot.id == id && s.events[slot] == s.crons[id])
    && (HasJob(s, id) || IsOneShot(s.crons[id].cronSchedule))
  }

  ghost predicate Agreement(env: Env, s: State) {
    && OneEntryEach(s)
    && (forall i | 0 <= i < |s.jobs| :: JobAgrees(s, s.jobs[i]))
    && (forall id | id in s.crons :: CronAgrees(env, s, id))
  }

  predicate CronCallsWork(fails: Faults) {
    WriteCron !in fails && UndoCron !in fails && LookUpCron !in fails && RemoveCron !in fails
  }

  // ---------------------------------------------------------------- steps

  /** Stored cron events agree again if they are still stored, unmarked and scheduled. */
  lemma CronsAgreeStill(env: Env, s: State, s': State)
    requires forall id | id in s.crons :: CronAgrees(env, s, id)
    requires forall id | id in s'.crons :: id in s.crons && s'.crons[id] == s.crons[id] && id !in s'.removed
    requires forall id | id in s'.crons && HasJob(s, id) :: HasJob(s', id) || IsOneShot(s'.crons[id].cronSchedule)
    requires forall slot | slot in s.events && slot.id in s'.crons ::
             slot in s'.events && s'.events[slot] == s.events[slot]
    ensures forall id | id in s'.crons :: CronAgrees(env, s', id)
  {
    forall id | id in s'.crons ensures CronAgrees(env, s', id) {
      assert CronAgrees(env, s, id);
      var slot :| slot in s.events && slot.id == id && s.events[slot] == s.crons[id];
      assert slot in s'.events;
    }
  }

  /** More events under unused ids change nothing. */
  lemma NewEventAgrees(env: Env, s: State, s': State, id: Id)
    requires Agreement(env, s) && s'.crons == s.crons && s'.jobs == s.jobs && s'.removed == s.removed
    requires s'.events == s.events || (OneNewEvent(s, id, s') && id !in JobKeys(s) && id !in s.crons)
    ensures Agreement(env, s')
  {
    forall i | 0 <= i < |s'.jobs| ensures JobAgrees(s', s'.jobs[i]) {
      assert JobAgrees(s, s.jobs[i]) && s.jobs[i].Key() in JobKeys(s);
    }
    forall c | c in s.crons && HasJob(s, c) ensures HasJob(s', c) { StillHasJob(s, s', c); }
    forall c | c in s.crons ensures c !in s.removed { assert CronAgrees(env, s, c); }
    CronsAgreeStill(env, s, s');
  }

  lemma ScheduledEffect(env: Env, s: State, ev: Event, id: Id, now: string, fails: Faults,
                        s': State, status: Status, r: Event)
    requires PostsRepeatingEvent(env, s, ev, id, now, fails, s', status, r) && s' != s && CronCallsWork(fails)
    requires id !in s.crons
    ensures ev.eventTypeId in s.eventTypes && env.cronParses(ev.cronSchedule)
    ensures var name := s.eventTypes[ev.eventTypeId].name;
            var job := CronJob(StoredEvent(ev, name, id, now), name, ev.cronSchedule);
            && s'.jobs == s.jobs + [job]
            && if status == Created then
                 && s'.crons == s.crons[id := job.event] && s'.removed == s.removed
                 && s'.events == s.events[Slot(name, id) := job.event]
               else s'.crons == s.crons && s'.removed == s.removed + {id} && s'.events == s.events
  {
    var name := s.eventTypes[ev.eventTypeId].name;
    assert s.crons[id := StoredEvent(ev, name, id, now)] - {id} == s.crons;
  }

  lemma OneMoreEntry(s: State, s': State, job: CronJob)
    requires OneEntryEach(s) && s'.jobs == s.jobs + [job] && job.Key() !in JobKeys(s)
    ensures OneEntryEach(s')
  {
    forall i | 0 <= i < |s.jobs| ensures s.jobs[i].Key() != job.Key() { assert s.jobs[i].Key() in JobKeys(s); }
  }

  lemma RefusedScheduleAgrees(env: Env, s: State, s': State, job: CronJob)
    requires Agreement(env, s) && job.Key() !in s.crons && job.Key() !in JobKeys(s)
    requires s'.jobs == s.jobs + [job] && s'.crons == s.crons && s'.removed == s.removed + {job.Key()}
    requires s'.events == s.events
    ensures Agreement(env, s')
  {
    OneMoreEntry(s, s', job);
    forall i | 0 <= i < |s'.jobs| ensures JobAgrees(s', s'.jobs[i]) {
      if i < |s.jobs| { assert JobAgrees(s, s.jobs[i]); }
    }
    forall c | c in s.crons && HasJob(s, c) ensures HasJob(s', c) { StillHasJob(s, s', c); }
    forall c | c in s.crons ensures c !in s'.removed { assert CronAgrees(env, s, c); }
    CronsAgreeStill(env, s, s');
  }

  lemma StillHasJob(s: State, s': State, id: Id)
    requires HasJob(s, id) && s.jobs <= s'.jobs
    ensures HasJob(s', id)
  {
    var i :| 0 <= i < |s.jobs| && s.jobs[i].Key() == id;
    assert s'.jobs[i] == s.jobs[i];
  }

  lemma NewScheduleAgrees(env: Env, s: State, s': State, job: CronJob)
    requires Agreement(env, s) && job.Key() !in s.removed && env.cronParses(job.schedule)
    requires job.Key() !in s.crons && job.Key() !in JobKeys(s) && job.schedule == job.event.cronSchedule
    requires s'.jobs == s.jobs + [job] && s'.crons == s.crons[job.Key() := job.event] && s'.removed == s.removed
    requires forall slot | slot in s.events :: slot.id != job.Key()
    requires s'.events == s.events[Slot(job.typeName, job.Key()) := job.event]
    ensures Agreement(env, s')
  {
    OneMoreEntry(s, s', job);
    forall i | 0 <= i < |s'.jobs| ensures JobAgrees(s', s'.jobs[i]) {
      if i < |s.jobs| { assert JobAgrees(s, s.jobs[i]) && s.jobs[i].Key() in JobKeys(s); }
    }
    forall c | c in s'.crons ensures CronAgrees(env, s', c) {
      if c == job.Key() {
        assert s'.jobs[|s.jobs|] == job;
        assert Slot(job.typeName, c) in s'.events;
      } else {
        OldCronAgrees(env, s, s', c);
      }
    }
  }

  lemma OldCronAgrees(env: Env, s: State, s': State, c: Id)
    requires c in s.crons && CronAgrees(env, s, c) && c in s'.crons && s'.crons[c] == s.crons[c]
    requires s.jobs <= s'.jobs && s'.removed == s.removed
    requires forall slot | slot in s.events :: slot in s'.events && s'.events[slot] == s.events[slot]
    ensures CronAgrees(env, s', c)
  {
    var slot :| slot in s.events && slot.id == c && s.events[slot] == s.crons[c];
    assert slot in s'.events;
    if HasJob(s, c) { StillHasJob(s, s', c); }
  }

  lemma PostRepeatingEventAgrees(env: Env, s: State, ev: Event, id: Id, now: string, fails: Faults,
                                 s': State, status: Status, r: Event)
    requires Integrity(env, s) && Agreement(env, s) && CronCallsWork(fails)
    requires PostsRepeatingEvent(env, s, ev, id, now, fails, s', status, r)
    ensures Agreement(env, s')
  {
    if s' != s {
      PostsRepeatingEventEffect(env, s, ev, id, now, fails, s', status, r);
      UnusedId(env, s, id);
      ScheduledEffect(env, s, ev, id, now, fails, s', status, r);
      var name := s.eventTypes[ev.eventTypeId].name;
      var job := CronJob(StoredEvent(ev, name, id, now), name, ev.cronSchedule);
      if status == Created { NewScheduleAgrees(env, s, s', job); } else { RefusedScheduleAgrees(env, s, s', job); }
    }
  }

  lemma DeletedAgrees(env: Env, s: State, s': State, slot: Slot)
    requires Agreement(env, s) && s'.jobs == s.jobs && s'.events == s.events - {slot}
    requires if slot.id in s.crons then s'.crons == s.crons - {slot.id} && s'.removed == s.removed + {slot.id}
             else s'.crons == s.crons && s'.removed == s.removed
    ensures Agreement(env, s')
  {
    forall i | 0 <= i < |s'.jobs| ensures JobAgrees(s', s'.jobs[i]) { assert JobAgrees(s, s.jobs[i]); }
    forall c | c in s.crons && HasJob(s, c) ensures HasJob(s', c) { StillHasJob(s, s', c); }
    forall c | c in s.crons ensures c !in s.removed { assert CronAgrees(env, s, c); }
    CronsAgreeStill(env, s, s');
  }

  lemma DeleteWithCronCalls(s: State, id: Id, fails: Faults, s': State, status: Status)
    requires DeletesEvent(s, id, fails, s', status) && s' != s && CronCallsWork(fails)
    ensures status == OK
  {
  }

  /** Dropping an entry that is marked, or that fires only once. */
  lemma DroppedAgrees(env: Env, s: State, s': State, i: nat)
    requires Agreement(env, s) && i < |s.jobs| && s'.jobs == Dropped(s.jobs, i)
    requires s.jobs[i].Key() in s.removed || IsOneShot(s.jobs[i].schedule)
    requires s'.removed == s.removed - (if s.jobs[i].Key() in s.removed then {s.jobs[i].Key()} else {})
    requires s'.events == s.events && s'.crons == s.crons
    ensures Agreement(env, s')
  {
    DroppedApart(s, s', i);
    forall j | 0 <= j < |s'.jobs| ensures JobAgrees(s', s'.jobs[j]) {
      var k := if j < i then j else j + 1;
      assert s'.jobs[j] == s.jobs[k] && JobAgrees(s, s.jobs[k]);
    }
    forall c | c in s.crons && HasJob(s, c) ensures HasJob(s', c) || IsOneShot(s.crons[c].cronSchedule) {
      assert CronAgrees(env, s, c);
      DroppedJob(s, s', i, c);
      assert JobAgrees(s, s.jobs[i]);
    }
    forall c | c in s.crons ensures c !in s'.removed { assert CronAgrees(env, s, c); }
    CronsAgreeStill(env, s, s');
  }

  lemma DroppedApart(s: State, s': State, i: nat)
    requires OneEntryEach(s) && i < |s.jobs| && s'.jobs == Dropped(s.jobs, i)
    ensures OneEntryEach(s')
  {
    assert forall j | 0 <= j < |s'.jobs| :: s'.jobs[j] == s.jobs[if j < i then j else j + 1];
  }

  /** Dropping an entry leaves all other entries. */
  lemma DroppedJob(s: State, s': State, i: nat, c: Id)
    requires OneEntryEach(s) && i < |s.jobs| && s'.jobs == Dropped(s.jobs, i)
    ensures HasJob(s', c) <==> HasJob(s, c) && c != s.jobs[i].Key()
  {
    assert forall j | 0 <= j < |s'.jobs| :: s'.jobs[j] == s.jobs[if j < i then j else j + 1];
    if HasJob(s, c) && c != s.jobs[i].Key() {
      var k :| 0 <= k < |s.jobs| && s.jobs[k].Key() == c;
      assert s'.jobs[if k < i then k else k - 1] == s.jobs[k];
    }
    if HasJob(s', c) {
      var j :| 0 <= j < |s'.jobs| && s'.jobs[j].Key() == c;
      assert s.jobs[if j < i then j else j + 1].Key() == c;
    }
  }

  lemma FireAgrees(env: Env, s: State, i: nat, id: Id, now: string, fails: Faults, s': State, status: Status)
    requires Integrity(env, s) && Agreement(env, s) && Fires(env, s, i, id, now, fails, s', status)
    ensures Agreement(env, s')
  {
    FiresEffect(env, s, i, id, now, fails, s', status);
    if s'.events != s.events { UnusedId(env, s, id); }
    FiredAgrees(env, s, i, id, s');
  }

  lemma FiredAgrees(env: Env, s: State, i: nat, id: Id, s': State)
    requires Agreement(env, s) && i < |s.jobs| && s'.crons == s.crons
    requires s'.events == s.events || (OneNewEvent(s, id, s') && id !in JobKeys(s) && id !in s.crons)
    requires var marked := s.jobs[i].Key() in s.removed;
             && s'.removed == (if marked then s.removed - {s.jobs[i].Key()} else s.removed)
             && s'.jobs == (if marked || IsOneShot(s.jobs[i].schedule) then Dropped(s.jobs, i) else s.jobs)
    ensures Agreement(env, s')
  {
    var mid := s.(events := s'.events);
    NewEventAgrees(env, s, mid, id);
    if s.jobs[i].Key() in s.removed || IsOneShot(s.jobs[i].schedule) {
      DroppedAgrees(env, mid, s', i);
    } else {
      NewEventAgrees(env, mid, s', id);
    }
  }

  lemma PostEventAgrees(env: Env, s: State, ev: Event, id: Id, now: string, fails: Faults,
                        s': State, status: Status, r: Event)
    requires Integrity(env, s) && Agreement(env, s) && PostsEvent(env, s, ev, id, now, fails, s', status, r)
    ensures Agreement(env, s')
  {
    PostsEventEffect(env, s, ev, id, now, fails, s', status, r);
    if s'.events != s.events {
      UnusedId(env, s, id);
      assert Slot(s.eventTypes[ev.eventTypeId].name, id) in s'.events;
    }
    NewEventAgrees(env, s, s', id);
  }

  /** Requests that touch neither events, cron store nor scheduler. */
  lemma QuietAgrees(env: Env, s: State, step: Step, s': State)
    requires IdsIssued(s) && Agreement(env, s) && Takes(env, s, step, s')
    requires step.request.PostEventType? || step.request.DeleteEventType? || IsTriggerRequest(step.request)
    ensures Agreement(env, s')
  {
    if step.request.PostEventType? {
      NewTypeFrame(env, s, step, s');
    } else if step.request.DeleteEventType? {
      if s' != s { DeletesEventTypeEffect(s, step.request.typeId, step.fails, s', step.status); }
    } else {
      TriggerStepFrame(env, s, step, s');
    }
    NewEventAgrees(env, s, s', step.id);
  }

  lemma DeleteEventAgrees(env: Env, s: State, id: Id, fails: Faults, s': State, status: Status)
    requires Agreement(env, s) && CronCallsWork(fails) && DeletesEvent(s, id, fails, s', status)
    ensures Agreement(env, s')
  {
    if s' != s {
      var slot := DeletesEventEffect(s, id, fails, s', status);
      DeleteWithCronCalls(s, id, fails, s', status);
      DeletedAgrees(env, s, s', slot);
    }
  }

  lemma TakesAgrees(env: Env, s: State, step: Step, s': State)
    requires Integrity(env, s) && Agreement(env, s) && Takes(env, s, step, s') && CronCallsWork(step.fails)
    ensures Agreement(env, s')
  {
    var Step(request, id, now, fails, status) := step;
    match request {
      case PostEvent(ev) =>
        var r :| PostsEvent(env, s, ev, id, now, fails, s', status, r);
        PostEventAgrees(env, s, ev, id, now, fails, s', status, r);
      case PostRepeatingEvent(ev) =>
        var r :| PostsRepeatingEvent(env, s, ev, id, now, fails, s', status, r);
        PostRepeatingEventAgrees(env, s, ev, id, now, fails, s', status, r);
      case DeleteEvent(eventId) => DeleteEventAgrees(env, s, eventId, fails, s', status);
      case Fire(i) => FireAgrees(env, s, i, id, now, fails, s', status);
      case _ =>
        IntegrityIds(env, s);
        QuietAgrees(env, s, step, s');
    }
  }

  // ---------------------------------------------------------------- over runs

  lemma {:induction false} RunsAgree(env: Env, s: State, steps: seq<Step>, s': State)
    requires Integrity(env, s) && Agreement(env, s) && Runs(env, s, steps, s')
    requires forall step | step in steps :: CronCallsWork(step.fails)
    ensures Integrity(env, s') && Agreement(env, s')
    decreases |steps|
  {
    if steps != [] {
      var mid :| Takes(env, s, steps[0], mid) && Runs(env, mid, steps[1..], s');
      assert steps[0] in steps && forall step | step in steps[1..] :: step in steps;
      TakesKeeps(env, s, steps[0], mid);
      TakesAgrees(env, s, steps[0], mid);
      RunsAgree(env, mid, steps[1..], s');
    }
  }

  /** What is known of an entry that can run. */
  lemma LiveJob(env: Env, s: State, job: CronJob)
    requires Integrity(env, s) && Agreement(env, s) && job in s.jobs && job.Key() !in s.removed
    ensures job.Key() in s.crons && s.crons[job.Key()] == job.event && job.schedule == job.event.cronSchedule
    ensures Slot(job.typeName, job.Key()) in s.events && s.events[Slot(job.typeName, job.Key())] == job.event
    ensures job.event.eventTypeId in s.eventTypes && s.eventTypes[job.event.eventTypeId].name == job.typeName
    ensures job.event.data == AddUniqueParams(job.typeName, UnwrapOr(job.typeName, job.event.data))
  {
    var i :| 0 <= i < |s.jobs| && s.jobs[i] == job;
    assert JobAgrees(s, s.jobs[i]);
    assert EventOk(env, s, Slot(job.typeName, job.Key()));
  }

  // ---------------------------------------------------------------- what a firing posts

  /** A firing that is accepted stores an event of the source's type whose data is the
      source's own, nested once, and whose creator is the source event. */
  lemma FiringReposts(env: Env, s: State, i: nat, id: Id, now: string, fails: Faults, s': State, status: Status)
    requires Integrity(env, s) && Agreement(env, s) && Fires(env, s, i, id, now, fails, s', status)
    requires s'.events != s.events
    ensures var job := s.jobs[i];
            && id !in s.issued && job.Key() !in s.removed
            && s'.events == s.events[Slot(job.typeName, id) :=
                 Event(id, job.event.eventTypeId, job.event.data, job.event.eventId, now, "")]
  {
    var job := s.jobs[i];
    FiresEffect(env, s, i, id, now, fails, s', status);
    LiveJob(env, s, job);
    var ev := FiredEvent(job, now);
    assert ev.data == UnwrapOr(job.typeName, job.event.data);
    var mid, r := FiredEventPosted(env, s, i, id, now, fails, s', status);
    PostsEventEffect(env, s, ev, id, now, fails, mid, status, r);
  }

  // ---------------------------------------------------------------- deleted events

  /** No entry for the id can run, there is at most one, and the id will not be issued again. */
  ghost predicate Dead(s: State, id: Id) {
    && id in s.issued
    && (forall i | 0 <= i < |s.jobs| && s.jobs[i].Key() == id :: id in s.removed)
    && (forall i, j | 0 <= i < j < |s.jobs| && s.jobs[i].Key() == id :: s.jobs[j].Key() != id)
  }

  lemma DeleteKills(env: Env, s: State, id: Id, fails: Faults, s': State)
    requires Integrity(env, s) && OneEntryEach(s) && DeletesEvent(s, id, fails, s', OK)
    ensures Dead(s', id)
  {
    DeleteChanges(s, id, fails, s');
    var slot := DeletesEventEffect(s, id, fails, s', OK);
    assert EventOk(env, s, slot) && id in EventIds(s);
    forall i | 0 <= i < |s'.jobs| && s'.jobs[i].Key() == id ensures id in s'.removed {
      assert s.jobs[i].Key() in JobKeys(s);
    }
  }

  lemma DeleteChanges(s: State, id: Id, fails: Faults, s': State)
    requires DeletesEvent(s, id, fails, s', OK)
    ensures s' != s
  {
  }

  /** Only PostRepeatingEvent and firings touch the entries. */
  lemma EntriesStay(env: Env, s: State, step: Step, s': State)
    requires Takes(env, s, step, s') && (step.id !in s.issued ==> step.id !in s.eventTypes)
    requires !step.request.PostRepeatingEvent? && !step.request.Fire?
    ensures s'.jobs == s.jobs && s.removed <= s'.removed && s.issued <= s'.issued
  {
    var Step(request, id, now, fails, status) := step;
    match request {
      case PostEventType(_) => NewTypeEffect(env, s, step, s');
      case DeleteEventType(typeId) => if s' != s { DeletesEventTypeEffect(s, typeId, fails, s', status); }
      case PostEvent(ev) =>
        var r :| PostsEvent(env, s, ev, id, now, fails, s', status, r);
        PostsEventEffect(env, s, ev, id, now, fails, s', status, r);
      case DeleteEvent(eventId) => if s' != s { var slot := DeletesEventEffect(s, eventId, fails, s', status); }
      case _ => TriggerStepFrame(env, s, step, s');
    }
  }

  lemma DeadStep(env: Env, s: State, step: Step, s': State, id: Id)
    requires Integrity(env, s) && Takes(env, s, step, s') && Dead(s, id)
    ensures Dead(s', id)
  {
    var Step(request, newId, now, fails, status) := step;
    match request {
      case PostRepeatingEvent(ev) =>
        var r :| PostsRepeatingEvent(env, s, ev, newId, now, fails, s', status, r);
        if s' != s { DeadSchedule(env, s, ev, newId, now, fails, s', status, r, id); }
      case Fire(i) => DeadFire(env, s, i, newId, now, fails, s', status, id);
      case _ =>
        if newId !in s.issued { UnusedId(env, s, newId); }
        EntriesStay(env, s, step, s');
    }
  }

  lemma DeadSchedule(env: Env, s: State, ev: Event, newId: Id, now: string, fails: Faults,
                     s': State, status: Status, r: Event, id: Id)
    requires PostsRepeatingEvent(env, s, ev, newId, now, fails, s', status, r) && s' != s && Dead(s, id)
    ensures Dead(s', id)
  {
    PostsRepeatingEventEffect(env, s, ev, newId, now, fails, s', status, r);
    assert s.removed <= s'.removed;
  }

  lemma DeadFire(env: Env, s: State, i: nat, newId: Id, now: string, fails: Faults, s': State, status: Status, id: Id)
    requires Fires(env, s, i, newId, now, fails, s', status) && Dead(s, id)
    ensures Dead(s', id)
  {
    FiresEffect(env, s, i, newId, now, fails, s', status);
    if s'.jobs != s.jobs { DeadDropped(s, i, s', id); }
  }

  lemma DeadDropped(s: State, i: nat, s': State, id: Id)
    requires Dead(s, id) && i < |s.jobs| && s'.jobs == Dropped(s.jobs, i) && s.issued <= s'.issued
    requires s'.removed == s.removed || s'.removed == s.removed - {s.jobs[i].Key()}
    ensures Dead(s', id)
  {
    assert forall j | 0 <= j < |s'.jobs| :: s'.jobs[j] == s.jobs[if j < i then j else j + 1];
    if s.jobs[i].Key() == id {
      forall j | 0 <= j < |s'.jobs| ensures s'.jobs[j].Key() != id {
        assert s.jobs[if j < i then j else j + 1].Key() != id;
      }
    }
  }

  lemma {:induction false} DeadRun(env: Env, s: State, steps: seq<Step>, s': State, id: Id)
    requires Integrity(env, s) && Dead(s, id) && Runs(env, s, steps, s')
    ensures Dead(s', id)
    decreases |steps|
  {
    if steps != [] {
      var mid :| Takes(env, s, steps[0], mid) && Runs(env, mid, steps[1..], s');
      TakesKeeps(env, s, steps[0], mid);
      DeadStep(env, s, steps[0], mid, id);
      DeadRun(env, mid, steps[1..], s', id);
    }
  }

  /** Without a restart entries never come to share a key, whatever calls fail. */
  lemma {:induction false} EntriesStayApart(env: Env, s: State, steps: seq<Step>, s': State)
    requires Integrity(env, s) && OneEntryEach(s) && Runs(env, s, steps, s')
    ensures OneEntryEach(s')
    decreases |steps|
  {
    if steps != [] {
      var mid :| Takes(env, s, steps[0], mid) && Runs(env, mid, steps[1..], s');
      TakesKeeps(env, s, steps[0], mid);
      StepApart(env, s, steps[0], mid);
      EntriesStayApart(env, mid, steps[1..], s');
    }
  }

  lemma StepApart(env: Env, s: State, step: Step, s': State)
    requires Integrity(env, s) && OneEntryEach(s) && Takes(env, s, step, s')
    ensures OneEntryEach(s')
  {
    if step.id !in s.issued { UnusedId(env, s, step.id); }
    var Step(request, id, now, fails, status) := step;
    match request {
      case PostRepeatingEvent(ev) =>
        var r :| PostsRepeatingEvent(env, s, ev, id, now, fails, s', status, r);
        if s' != s { ScheduleApart(env, s, ev, id, now, fails, s', status, r); }
      case Fire(i) =>
        FiresEffect(env, s, i, id, now, fails, s', status);
        if s'.jobs != s.jobs { DroppedApart(s, s', i); }
      case _ => EntriesStay(env, s, step, s');
    }
  }

  lemma ScheduleApart(env: Env, s: State, ev: Event, id: Id, now: string, fails: Faults,
                      s': State, status: Status, r: Event)
    requires PostsRepeatingEvent(env, s, ev, id, now, fails, s', status, r) && s' != s
    requires OneEntryEach(s) && (id !in s.issued ==> id !in JobKeys(s))
    ensures OneEntryEach(s')
  {
    PostsRepeatingEventEffect(env, s, ev, id, now, fails, s', status, r);
    var name := s.eventTypes[ev.eventTypeId].name;
    OneMoreEntry(s, s', CronJob(StoredEvent(ev, name, id, now), name, ev.cronSchedule));
  }

  /** Once DeleteEvent has answered OK no firing posts anything for the event, however
      long after and whatever fails in between. */
  lemma NothingFiresAfterDelete(env: Env, s: State, id: Id, fails: Faults, s1: State, steps: seq<Step>, s2: State,
                                i: nat, newId: Id, now: string, fails': Faults, s3: State, status: Status)
    requires Integrity(env, s) && OneEntryEach(s) && DeletesEvent(s, id, fails, s1, OK)
    requires Runs(env, s1, steps, s2) && Fires(env, s2, i, newId, now, fails', s3, status)
    requires s2.jobs[i].Key() == id
    ensures s3.events == s2.events && s3.alerts == s2.alerts && s3.queue == s2.queue
  {
    DeleteKills(env, s, id, fails, s1);
    DeleteEventKeeps(env, s, id, fails, s1, OK);
    DeadRun(env, s1, steps, s2, id);
    FiresEffect(env, s2, i, newId, now, fails', s3, status);
  }
}
