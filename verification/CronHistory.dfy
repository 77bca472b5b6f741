/** Which stored cron events still have an entry that can run: in every run, those whose
    "@now" has not fired. */
module CronHistory {
  import opened Json
  import opened Records
  import opened ServiceSpec
  import opened ServiceInvariants
  import opened ServiceRuns
  import opened CronAgreement

  function LiveKeys(s: State): set<Id> {
    set job | job in s.jobs && job.Key() !in s.removed :: job.Key()
  }

  /** In an agreeing state the live entries are stored cron events, those are stored
      events, and a stored cron event is live if it has an entry. */
  lemma LiveAmongCrons(env: Env, s: State)
    requires Agreement(env, s)
    ensures LiveKeys(s) <= s.crons.Keys <= EventIds(s)
    ensures forall id | id in s.crons :: id in LiveKeys(s) <==> HasJob(s, id)
  {
    forall job | job in s.jobs && job.Key() !in s.removed ensures job.Key() in s.crons && HasJob(s, job.Key()) {
      var i :| 0 <= i < |s.jobs| && s.jobs[i] == job;
      assert JobAgrees(s, s.jobs[i]);
    }
    forall id | id in s.crons ensures id in EventIds(s) && (HasJob(s, id) ==> id in LiveKeys(s)) {
      assert CronAgrees(env, s, id);
      if HasJob(s, id) {
        var i :| 0 <= i < |s.jobs| && s.jobs[i].Key() == id;
        assert s.jobs[i] in s.jobs;
      }
    }
  }

  // ---------------------------------------------------------------- runs with their states

  predicate CronCallsAllWork(steps: seq<Step>) {
    forall i | 0 <= i < |steps| :: CronCallsWork(steps[i].fails)
  }

  /** The step is the one firing of a "@now" entry for the id. */
  predicate FiresOnce(s: State, step: Step, id: Id) {
    && step.request.Fire? && step.request.i < |s.jobs|
    && var job := s.jobs[step.request.i];
       job.Key() == id && id !in s.removed && job.schedule == "@now"
  }

  predicate Spent(states: seq<State>, steps: seq<Step>, id: Id)
    requires |states| == |steps| + 1
  {
    exists i | 0 <= i < |steps| :: FiresOnce(states[i], steps[i], id)
  }

  /** An id in the cron store was there before or is new. */
  ghost predicate CronsGrow(s: State, s': State) {
    s.issued <= s'.issued && forall id | id in s'.crons && id !in s.crons :: id !in s.issued
  }

  lemma QuietStep(env: Env, s: State, step: Step, s': State)
    requires IdsIssued(s) && Takes(env, s, step, s') && !step.request.PostRepeatingEvent? && !step.request.Fire?
    ensures s'.jobs == s.jobs && s.issued <= s'.issued
    ensures forall c | c in s'.crons :: c in s.crons && s'.crons[c] == s.crons[c]
  {
    EntriesStay(env, s, step, s');
    var Step(request, id, now, fails, status) := step;
    match request {
      case PostEventType(_) => NewTypeEffect(env, s, step, s');
      case DeleteEventType(typeId) => if s' != s { DeletesEventTypeEffect(s, typeId, fails, s', status); }
      case PostEvent(ev) =>
        var r :| PostsEvent(env, s, ev, id, now, fails, s', status, r);
        PostsEventEffect(env, s, ev, id, now, fails, s', status, r);
      case DeleteEvent(eventId) => if s' != s { var slot := DeletesEventEffect(s, eventId, fails, s', status); }
      case _ => TriggerStepFrame(env, s, step, s');
    }
  }

  /** What one step does to the entry of a stored cron event. */
  ghost predicate EntryStep(s: State, step: Step, s': State) {
    && CronsGrow(s, s')
    && forall id | id in s'.crons ::
         HasJob(s', id) <==> !FiresOnce(s, step, id) && (id in s.crons ==> HasJob(s, id))
  }

  lemma SameEntries(s: State, s': State)
    requires s'.jobs == s.jobs
    ensures forall id :: HasJob(s', id) <==> HasJob(s, id)
  {
  }

  lemma ScheduleStep(env: Env, s: State, step: Step, s': State)
    requires Integrity(env, s) && Agreement(env, s) && Takes(env, s, step, s') && CronCallsWork(step.fails)
    requires step.request.PostRepeatingEvent?
    ensures EntryStep(s, step, s')
  {
    var Step(request, id, now, fails, status) := step;
    var ev := request.ev;
    var r :| PostsRepeatingEvent(env, s, ev, id, now, fails, s', status, r);
    if s' != s {
      PostsRepeatingEventEffect(env, s, ev, id, now, fails, s', status, r);
      UnusedId(env, s, id);
      ScheduledEffect(env, s, ev, id, now, fails, s', status, r);
      var name := s.eventTypes[ev.eventTypeId].name;
      AppendedEntry(s, s', CronJob(StoredEvent(ev, name, id, now), name, ev.cronSchedule));
    }
  }

  lemma AppendedEntry(s: State, s': State, job: CronJob)
    requires s'.jobs == s.jobs + [job]
    ensures forall id :: HasJob(s', id) <==> HasJob(s, id) || id == job.Key()
  {
    assert s'.jobs[|s.jobs|] == job;
    forall id | HasJob(s, id) ensures HasJob(s', id) { StillHasJob(s, s', id); }
  }

  lemma FireStep(env: Env, s: State, step: Step, s': State)
    requires Agreement(env, s) && Takes(env, s, step, s') && step.request.Fire?
    ensures EntryStep(s, step, s')
  {
    var Step(request, id, now, fails, status) := step;
    var i := request.i;
    FiresEffect(env, s, i, id, now, fails, s', status);
    forall c | c in s'.crons ensures HasJob(s', c) <==> !FiresOnce(s, step, c) && HasJob(s, c) {
      assert CronAgrees(env, s, c);
      if s'.jobs != s.jobs { DroppedJob(s, s', i, c); } else { SameEntries(s, s'); NotDropped(s, i); }
    }
  }

  lemma NotDropped(s: State, i: nat)
    requires i < |s.jobs|
    ensures Dropped(s.jobs, i) != s.jobs
  {
    assert |Dropped(s.jobs, i)| == |s.jobs| - 1;
  }

  lemma EntrySteps(env: Env, s: State, step: Step, s': State)
    requires Integrity(env, s) && Agreement(env, s) && Takes(env, s, step, s') && CronCallsWork(step.fails)
    ensures EntryStep(s, step, s')
  {
    if step.request.PostRepeatingEvent? {
      ScheduleStep(env, s, step, s');
    } else if step.request.Fire? {
      FireStep(env, s, step, s');
    } else {
      IntegrityIds(env, s);
      QuietStep(env, s, step, s');
      SameEntries(s, s');
    }
  }

  // ---------------------------------------------------------------- over a run

  ghost predicate PathFacts(env: Env, states: seq<State>, steps: seq<Step>)
    requires |states| == |steps| + 1
  {
    var s := states[|steps|];
    && Integrity(env, s) && Agreement(env, s)
    && (forall id | Spent(states, steps, id) :: id in s.issued)
    && (forall id | id in s.crons :: HasJob(s, id) <==> !Spent(states, steps, id))
  }

  lemma SpentSnoc(states: seq<State>, steps: seq<Step>, id: Id)
    requires |states| == |steps| + 1 && steps != []
    ensures var n := |steps| - 1;
            Spent(states, steps, id) <==> Spent(states[..n + 1], steps[..n], id) || FiresOnce(states[n], steps[n], id)
  {
    var n := |steps| - 1;
    if FiresOnce(states[n], steps[n], id) { assert Spent(states, steps, id); }
    if Spent(states[..n + 1], steps[..n], id) {
      var i :| 0 <= i < n && FiresOnce(states[..n + 1][i], steps[..n][i], id);
      assert FiresOnce(states[i], steps[i], id);
    }
    if Spent(states, steps, id) && !FiresOnce(states[n], steps[n], id) {
      var i :| 0 <= i < |steps| && FiresOnce(states[i], steps[i], id);
      assert FiresOnce(states[..n + 1][i], steps[..n][i], id);
    }
  }

  lemma {:induction false} PathHolds(env: Env, states: seq<State>, steps: seq<Step>)
    requires Path(env, states, steps) && CronCallsAllWork(steps)
    requires Integrity(env, states[0]) && states[0].jobs == [] && states[0].crons == map[]
    ensures PathFacts(env, states, steps)
    decreases |steps|
  {
    if steps != [] {
      var n := |steps| - 1;
      assert Path(env, states[..n + 1], steps[..n]);
      PathHolds(env, states[..n + 1], steps[..n]);
      var s, s' := states[n], states[n + 1];
      assert states[..n + 1][n] == s && Takes(env, s, steps[n], s');
      OneStepFurther(env, states, steps);
    }
  }

  lemma OneStepFurther(env: Env, states: seq<State>, steps: seq<Step>)
    requires steps != [] && Path(env, states, steps) && CronCallsAllWork(steps)
    requires var n := |steps| - 1; PathFacts(env, states[..n + 1], steps[..n])
    ensures PathFacts(env, states, steps)
  {
    var n := |steps| - 1;
    var s, s' := states[n], states[n + 1];
    assert states[..n + 1][n] == s && Takes(env, s, steps[n], s');
    TakesKeeps(env, s, steps[n], s');
    TakesAgrees(env, s, steps[n], s');
    EntrySteps(env, s, steps[n], s');
    SpentFurther(env, states, steps);
  }

  lemma SpentFurther(env: Env, states: seq<State>, steps: seq<Step>)
    requires steps != [] && |states| == |steps| + 1
    requires var n := |steps| - 1;
             && EntryStep(states[n], steps[n], states[n + 1]) && Issued(states[n])
             && (forall id | Spent(states[..n + 1], steps[..n], id) :: id in states[n].issued)
             && (forall id | id in states[n].crons ::
                   HasJob(states[n], id) <==> !Spent(states[..n + 1], steps[..n], id))
    ensures var s' := states[|steps|];
            && (forall id | Spent(states, steps, id) :: id in s'.issued)
            && (forall id | id in s'.crons :: HasJob(s', id) <==> !Spent(states, steps, id))
  {
    var n := |steps| - 1;
    forall id
      ensures Spent(states, steps, id) <==> Spent(states[..n + 1], steps[..n], id) || FiresOnce(states[n], steps[n], id)
    {
      SpentSnoc(states, steps, id);
    }
  }

  /** In every run where the cron store's calls work: the ids of the entries that can run
      are in the cron store, all of stored events; an id in the cron store is the id of
      such an entry if and only if its "@now" has not fired; and every such entry finds its
      event type under the name it was scheduled with. */
  lemma CronIdsAgree(env: Env, schemas: map<string, Json>, states: seq<State>, steps: seq<Step>)
    requires Path(env, states, steps) && CronCallsAllWork(steps) && states[0] == Initial(schemas)
    ensures var s := states[|steps|];
            && LiveKeys(s) <= s.crons.Keys <= EventIds(s)
            && (forall id | id in s.crons :: id in LiveKeys(s) <==> !Spent(states, steps, id))
            && (s.crons.Keys == LiveKeys(s) <==> forall id | id in s.crons :: !Spent(states, steps, id))
            && (forall job | job in s.jobs && job.Key() !in s.removed ::
                  && s.crons[job.Key()] == job.event && job.event.eventTypeId in s.eventTypes
                  && s.eventTypes[job.event.eventTypeId].name == job.typeName)
  {
    var s := states[|steps|];
    PathHolds(env, states, steps);
    LiveAmongCrons(env, s);
    forall job | job in s.jobs && job.Key() !in s.removed
      ensures job.Key() in s.crons && s.crons[job.Key()] == job.event && job.event.eventTypeId in s.eventTypes
      ensures s.eventTypes[job.event.eventTypeId].name == job.typeName
    {
      LiveJob(env, s, job);
    }
  }

  // ---------------------------------------------------------------- who breaks the equality

  ghost predicate SameIds(s: State) {
    s.crons.Keys == LiveKeys(s)
  }

  /** Whatever entry comes up next, the cron store's ids are those of the live entries. */
  ghost predicate SameIdsAfterFiring(env: Env, s: State) {
    forall i, id, now, fails, s', status | Fires(env, s, i, id, now, fails, s', status) :: SameIds(s')
  }

  predicate SchedulesOnce(step: Step) {
    step.request.PostRepeatingEvent? && step.status == Created && step.request.ev.cronSchedule == "@now"
  }

  ghost predicate NoneOnce(s: State) {
    forall id | id in s.crons :: !IsOneShot(s.crons[id].cronSchedule)
  }

  lemma NoneOnceStays(env: Env, s: State, step: Step, s': State)
    requires Integrity(env, s) && Takes(env, s, step, s') && CronCallsWork(step.fails)
    requires NoneOnce(s) && !SchedulesOnce(step)
    ensures NoneOnce(s')
  {
    if step.request.PostRepeatingEvent? {
      var ev := step.request.ev;
      var r :| PostsRepeatingEvent(env, s, ev, step.id, step.now, step.fails, s', step.status, r);
      if s' != s {
        PostsRepeatingEventEffect(env, s, ev, step.id, step.now, step.fails, s', step.status, r);
        UnusedId(env, s, step.id);
        ScheduleNotOnce(env, s, ev, step.id, step.now, step.fails, s', step.status, r);
      }
    } else if step.request.Fire? {
      FiresEffect(env, s, step.request.i, step.id, step.now, step.fails, s', step.status);
    } else {
      IntegrityIds(env, s);
      QuietStep(env, s, step, s');
    }
  }

  lemma ScheduleNotOnce(env: Env, s: State, ev: Event, id: Id, now: string, fails: Faults,
                        s': State, status: Status, r: Event)
    requires PostsRepeatingEvent(env, s, ev, id, now, fails, s', status, r) && s' != s && CronCallsWork(fails)
    requires id !in s.crons && NoneOnce(s) && !(status == Created && IsOneShot(ev.cronSchedule))
    ensures NoneOnce(s')
  {
    ScheduledEffect(env, s, ev, id, now, fails, s', status, r);
  }

  lemma {:induction false} NoneOnceAlong(env: Env, states: seq<State>, steps: seq<Step>, k: nat)
    requires Path(env, states, steps) && CronCallsAllWork(steps) && k <= |steps|
    requires Integrity(env, states[0]) && states[0].jobs == [] && states[0].crons == map[]
    requires forall j | 0 <= j < k :: !SchedulesOnce(steps[j])
    ensures Integrity(env, states[k]) && Agreement(env, states[k]) && NoneOnce(states[k])
    decreases k
  {
    if k > 0 {
      NoneOnceAlong(env, states, steps, k - 1);
      assert Takes(env, states[k - 1], steps[k - 1], states[k]);
      TakesKeeps(env, states[k - 1], steps[k - 1], states[k]);
      TakesAgrees(env, states[k - 1], steps[k - 1], states[k]);
      NoneOnceStays(env, states[k - 1], steps[k - 1], states[k]);
    }
  }

  lemma NoneOnceSameIds(env: Env, s: State)
    requires Integrity(env, s) && Agreement(env, s) && NoneOnce(s)
    ensures SameIds(s) && SameIdsAfterFiring(env, s)
  {
    AgreeingSameIds(env, s);
    forall i, id, now, fails, s', status | Fires(env, s, i, id, now, fails, s', status) ensures SameIds(s') {
      FireAgrees(env, s, i, id, now, fails, s', status);
      FiresEffect(env, s, i, id, now, fails, s', status);
      AgreeingSameIds(env, s');
    }
  }

  lemma AgreeingSameIds(env: Env, s: State)
    requires Agreement(env, s) && NoneOnce(s)
    ensures SameIds(s)
  {
    LiveAmongCrons(env, s);
    forall id | id in s.crons ensures HasJob(s, id) { assert CronAgrees(env, s, id); }
  }

  /** A "@now" event that is refused when it fires is gone from the scheduler and stays in
      the cron store. */
  lemma FiringDrops(env: Env, s: State, i: nat) returns (s': State)
    requires OneEntryEach(s) && i < |s.jobs| && s.jobs[i].Key() in s.crons
    requires s.jobs[i].Key() !in s.removed && IsOneShot(s.jobs[i].schedule)
    ensures Fires(env, s, i, "", "", {ReadType}, s', BadRequest) && !SameIds(s')
  {
    var job := s.jobs[i];
    s' := s.(jobs := Dropped(s.jobs, i));
    assert PostsEvent(env, s, FiredEvent(job, ""), "", "", {ReadType}, s, BadRequest, FiredEvent(job, ""));
    DroppedJob(s, s', i, job.Key());
    NoEntryNotLive(s', job.Key());
  }

  lemma NoEntryNotLive(s: State, id: Id)
    requires !HasJob(s, id)
    ensures id !in LiveKeys(s)
  {
    forall job | job in s.jobs ensures job.Key() != id {
      var i :| 0 <= i < |s.jobs| && s.jobs[i] == job;
    }
  }

  lemma ScheduledOnce(env: Env, s: State, step: Step, s': State)
    requires Integrity(env, s) && Agreement(env, s) && Takes(env, s, step, s')
    requires CronCallsWork(step.fails) && SchedulesOnce(step)
    ensures !SameIdsAfterFiring(env, s')
  {
    TakesAgrees(env, s, step, s');
    LastOnce(env, s, step, s');
    var after := FiringDrops(env, s', |s.jobs|);
  }

  lemma LastOnce(env: Env, s: State, step: Step, s': State)
    requires Integrity(env, s) && Takes(env, s, step, s') && CronCallsWork(step.fails) && SchedulesOnce(step)
    ensures |s'.jobs| == |s.jobs| + 1
    ensures var job := s'.jobs[|s.jobs|];
            job.Key() in s'.crons && job.Key() !in s'.removed && IsOneShot(job.schedule)
  {
    var Step(request, id, now, fails, status) := step;
    var ev := request.ev;
    var r :| PostsRepeatingEvent(env, s, ev, id, now, fails, s', status, r);
    PostsRepeatingEventEffect(env, s, ev, id, now, fails, s', status, r);
    UnusedId(env, s, id);
    ScheduledEffect(env, s, ev, id, now, fails, s', status, r);
  }

  /** In a run where the cron store's calls work, its ids are those of the live entries at
      every moment, and whatever entry comes up next, if and only if no repeating event was
      accepted with the schedule "@now". */
  lemma OnlyOneShotsDisagree(env: Env, schemas: map<string, Json>, states: seq<State>, steps: seq<Step>)
    requires Path(env, states, steps) && CronCallsAllWork(steps) && states[0] == Initial(schemas)
    ensures (forall k | 0 <= k <= |steps| :: SameIds(states[k]) && SameIdsAfterFiring(env, states[k])) <==>
            (forall k | 0 <= k < |steps| :: !SchedulesOnce(steps[k]))
  {
    if forall k | 0 <= k < |steps| :: !SchedulesOnce(steps[k]) {
      forall k | 0 <= k <= |steps| ensures SameIds(states[k]) && SameIdsAfterFiring(env, states[k]) {
        NoneOnceAlong(env, states, steps, k);
        NoneOnceSameIds(env, states[k]);
      }
    } else {
      var k :| 0 <= k < |steps| && SchedulesOnce(steps[k]);
      assert Path(env, states[..k + 1], steps[..k]);
      PathHolds(env, states[..k + 1], steps[..k]);
      assert states[..k + 1][k] == states[k] && Takes(env, states[k], steps[k], states[k + 1]);
      ScheduledOnce(env, states[k], steps[k], states[k + 1]);
    }
  }
}
