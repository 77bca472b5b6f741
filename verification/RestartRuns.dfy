/** Runs in which the service is also restarted, any number of times, by InitCron as it is,
    with one variable for the whole loop. */
module RestartRuns {
  import opened Json
  import opened Records
  import opened ServiceSpec
  import opened ServiceInvariants
  import opened ServiceRuns
  import CronAgreement
  import CronHistory
  import CronRestart
  import JobTemplate
  import SharedEntries

  datatype Turn = Serve(step: Step) | Restart(order: seq<Id>)

  /** The service starts if every listed cron event can be restored; `order` is the order
      in which the cron store lists them. */
  ghost predicate Starts(env: Env, s: State, order: seq<Id>, s': State) {
    && JobTemplate.IsOrdering(order, s.crons.Keys)
    && var events := CronRestart.Listing(s.crons, order);
       && (forall e | e in events :: CronRestart.Restorable(env, s.eventTypes, e))
       && s' == CronRestart.Restarted(s, CronRestart.AliasedJobs(s.eventTypes, events))
  }

  /** After a restart no entry is marked, and there is one for each stored cron event, under
      its type's name and schedule, but all for the event listed last. */
  lemma RestartBuilds(env: Env, s: State, order: seq<Id>, s': State)
    requires Starts(env, s, order, s')
    ensures s' == s.(jobs := s'.jobs, removed := {}) && |s'.jobs| == |order| == |s.crons|
    ensures forall i | 0 <= i < |order| ::
              && order[i] in s.crons && order[|order| - 1] in s.crons && s.crons[order[i]].eventTypeId in s.eventTypes
              && s'.jobs[i] == CronJob(s.crons[order[|order| - 1]],
                                       s.eventTypes[s.crons[order[i]].eventTypeId].name,
                                       s.crons[order[i]].cronSchedule)
  {
    JobTemplate.OrderingSize(order, s.crons.Keys);
    var events := CronRestart.Listing(s.crons, order);
    forall i | 0 <= i < |order|
      ensures order[i] in s.crons && order[|order| - 1] in s.crons && s.crons[order[i]].eventTypeId in s.eventTypes
    {
      assert order[i] in order && order[|order| - 1] in order;
      assert CronRestart.Restorable(env, s.eventTypes, events[i]);
    }
  }

  ghost predicate TakesTurn(env: Env, s: State, turn: Turn, s': State) {
    match turn
    case Serve(step) => Takes(env, s, step, s')
    case Restart(order) => Starts(env, s, order, s')
  }

  ghost predicate Lives(env: Env, s: State, turns: seq<Turn>, s': State)
    decreases |turns|
  {
    if turns == [] then s == s'
    else exists mid :: TakesTurn(env, s, turns[0], mid) && Lives(env, mid, turns[1..], s')
  }

  // ---------------------------------------------------------------- integrity

  lemma ScheduleFiled(env: Env, s: State, et: EventType, ev: Event, id: Id, now: string, fails: Faults,
                      s': State, status: Status, r: Event)
    requires CronRestart.CronsFiled(s) && Schedules(env, s, et, ev, id, now, fails, s', status, r)
    ensures CronRestart.CronsFiled(s')
  {
    ScheduledIn(env, s, et, ev, id, now, fails, s', status, r);
    OneMoreFiled(s, s', StoredEvent(ev, et.name, id, now));
  }

  lemma ScheduledIn(env: Env, s: State, et: EventType, ev: Event, id: Id, now: string, fails: Faults,
                    s': State, status: Status, r: Event)
    requires Schedules(env, s, et, ev, id, now, fails, s', status, r)
    ensures var crons := s.crons[id := StoredEvent(ev, et.name, id, now)];
            s'.crons == s.crons || s'.crons == crons || s'.crons == crons - {id}
  {
  }

  lemma OneMoreFiled(s: State, s': State, e: Event)
    requires CronRestart.CronsFiled(s)
    requires var crons := s.crons[e.eventId := e];
             s'.crons == s.crons || s'.crons == crons || s'.crons == crons - {e.eventId}
    ensures CronRestart.CronsFiled(s')
  {
  }

  lemma RepeatFiled(env: Env, s: State, ev: Event, id: Id, now: string, fails: Faults,
                    s': State, status: Status, r: Event)
    requires CronRestart.CronsFiled(s) && PostsRepeatingEvent(env, s, ev, id, now, fails, s', status, r)
    ensures CronRestart.CronsFiled(s')
  {
    if s' != s {
      PostsRepeatingEventEffect(env, s, ev, id, now, fails, s', status, r);
      var s0, et := s.(issued := s.issued + {id}), s.eventTypes[ev.eventTypeId];
      ScheduleFiled(env, s0, et, ev, id, now, fails, s', status, r);
    }
  }

  /** A cron event is filed under its own id. */
  lemma StepFiled(env: Env, s: State, step: Step, s': State)
    requires IdsIssued(s) && CronRestart.CronsFiled(s) && Takes(env, s, step, s')
    ensures CronRestart.CronsFiled(s')
  {
    var Step(request, id, now, fails, status) := step;
    match request {
      case PostRepeatingEvent(ev) =>
        var r :| PostsRepeatingEvent(env, s, ev, id, now, fails, s', status, r);
        RepeatFiled(env, s, ev, id, now, fails, s', status, r);
      case Fire(i) => FiresEffect(env, s, i, id, now, fails, s', status);
      case _ => CronHistory.QuietStep(env, s, step, s');
    }
  }

  lemma StartKeeps(env: Env, s: State, order: seq<Id>, s': State)
    requires Integrity(env, s) && CronRestart.CronsFiled(s) && Starts(env, s, order, s')
    ensures Integrity(env, s') && CronRestart.CronsFiled(s') && JobKeys(s') <= s.crons.Keys
  {
    CronRestart.AliasedKeys(s, order);
    CronRestart.RestartKeeps(env, s, CronRestart.AliasedJobs(s.eventTypes, CronRestart.Listing(s.crons, order)));
  }

  lemma TurnKeeps(env: Env, s: State, turn: Turn, s': State)
    requires Integrity(env, s) && CronRestart.CronsFiled(s) && TakesTurn(env, s, turn, s')
    ensures Integrity(env, s') && CronRestart.CronsFiled(s')
  {
    match turn {
      case Serve(step) =>
        TakesKeeps(env, s, step, s');
        IntegrityIds(env, s);
        StepFiled(env, s, step, s');
      case Restart(order) => StartKeeps(env, s, order, s');
    }
  }

  /** Over every run, restarts included and whatever fails, the integrity of the stores is
      kept, and every cron event is filed under its own id. */
  lemma {:induction false} RestartsKeep(env: Env, s: State, turns: seq<Turn>, s': State)
    requires Integrity(env, s) && CronRestart.CronsFiled(s) && Lives(env, s, turns, s')
    ensures Integrity(env, s') && CronRestart.CronsFiled(s')
    decreases |turns|
  {
    if turns != [] {
      var mid :| TakesTurn(env, s, turns[0], mid) && Lives(env, mid, turns[1..], s');
      TurnKeeps(env, s, turns[0], mid);
      RestartsKeep(env, mid, turns[1..], s');
    }
  }

  /** In particular from empty stores. */
  lemma SoundForLife(env: Env, schemas: map<string, Json>, turns: seq<Turn>, s: State)
    requires Lives(env, Initial(schemas), turns, s)
    ensures Integrity(env, s) && CronRestart.CronsFiled(s)
  {
    RestartsKeep(env, Initial(schemas), turns, s);
  }

  // ---------------------------------------------------------------- what a restart forgets

  /** The id was issued and is no cron event's. */
  predicate Absent(s: State, id: Id) {
    id in s.issued && id !in s.crons
  }

  /** And the scheduler has no entry for it. */
  predicate Forgotten(s: State, id: Id) {
    Absent(s, id) && id !in JobKeys(s)
  }

  lemma ScheduledKeys(env: Env, s: State, ev: Event, newId: Id, now: string, fails: Faults,
                      s': State, status: Status, r: Event, id: Id)
    requires PostsRepeatingEvent(env, s, ev, newId, now, fails, s', status, r) && s' != s
    requires id in s.issued && id !in JobKeys(s)
    ensures id !in JobKeys(s')
  {
    PostsRepeatingEventEffect(env, s, ev, newId, now, fails, s', status, r);
    var name := s.eventTypes[ev.eventTypeId].name;
    JobsAppended(s, s', CronJob(StoredEvent(ev, name, newId, now), name, ev.cronSchedule));
  }

  lemma DroppedKeys(s: State, i: nat, s': State)
    requires i < |s.jobs| && (s'.jobs == Dropped(s.jobs, i) || s'.jobs == s.jobs)
    ensures JobKeys(s') <= JobKeys(s)
  {
    SharedEntries.DroppedMembers(s.jobs, i);
  }

  lemma StepForgets(env: Env, s: State, step: Step, s': State, id: Id)
    requires IdsIssued(s) && Takes(env, s, step, s') && Absent(s, id)
    ensures Absent(s', id) && (Forgotten(s, id) ==> Forgotten(s', id))
  {
    SharedEntries.StepKey(env, s, step, s', id);
    if Forgotten(s, id) { StepAddsNone(env, s, step, s', id); }
  }

  lemma StepAddsNone(env: Env, s: State, step: Step, s': State, id: Id)
    requires IdsIssued(s) && Takes(env, s, step, s') && id in s.issued && id !in JobKeys(s)
    ensures id !in JobKeys(s')
  {
    var Step(request, newId, now, fails, status) := step;
    match request {
      case PostRepeatingEvent(ev) =>
        var r :| PostsRepeatingEvent(env, s, ev, newId, now, fails, s', status, r);
        if s' != s { ScheduledKeys(env, s, ev, newId, now, fails, s', status, r, id); }
      case Fire(i) =>
        FiresEffect(env, s, i, newId, now, fails, s', status);
        DroppedKeys(s, i, s');
      case _ => CronHistory.QuietStep(env, s, step, s');
    }
  }

  lemma TurnForgets(env: Env, s: State, turn: Turn, s': State, id: Id)
    requires Integrity(env, s) && CronRestart.CronsFiled(s) && TakesTurn(env, s, turn, s') && Absent(s, id)
    ensures Absent(s', id) && (turn.Restart? || Forgotten(s, id) ==> Forgotten(s', id))
  {
    match turn {
      case Serve(step) =>
        IntegrityIds(env, s);
        StepForgets(env, s, step, s', id);
      case Restart(order) => StartKeeps(env, s, order, s');
    }
  }

  predicate HasRestart(turns: seq<Turn>) {
    exists i | 0 <= i < |turns| :: turns[i].Restart?
  }

  /** An issued id that is absent from the cron store stays absent, whatever comes, and has
      no entry any more once the service was restarted, or if it had none. */
  lemma {:induction false} AbsentIsForgotten(env: Env, s: State, turns: seq<Turn>, s': State, id: Id)
    requires Integrity(env, s) && CronRestart.CronsFiled(s) && Lives(env, s, turns, s') && Absent(s, id)
    ensures Absent(s', id) && (HasRestart(turns) || Forgotten(s, id) ==> Forgotten(s', id))
    decreases |turns|
  {
    if turns != [] {
      var mid :| TakesTurn(env, s, turns[0], mid) && Lives(env, mid, turns[1..], s');
      TurnKeeps(env, s, turns[0], mid);
      TurnForgets(env, s, turns[0], mid, id);
      AbsentIsForgotten(env, mid, turns[1..], s', id);
      if HasRestart(turns) && !turns[0].Restart? {
        var i :| 0 <= i < |turns| && turns[i].Restart?;
        assert turns[1..][i - 1].Restart?;
      }
    }
  }

  /** Once DeleteEvent has answered OK, the first restart after it takes away every entry
      for the event that its mark left, and none comes back, however long the service lives
      and whatever fails. */
  lemma RestartEndsDeleted(env: Env, s: State, id: Id, fails: Faults, s1: State, turns: seq<Turn>, s2: State)
    requires Integrity(env, s) && CronRestart.CronsFiled(s) && DeletesEvent(s, id, fails, s1, OK)
    requires Lives(env, s1, turns, s2) && HasRestart(turns)
    ensures id !in s2.crons && forall job | job in s2.jobs :: job.Key() != id
  {
    DeletedIsAbsent(env, s, id, fails, s1);
    DeleteEventKeeps(env, s, id, fails, s1, OK);
    AbsentIsForgotten(env, s1, turns, s2, id);
    forall job | job in s2.jobs ensures job.Key() != id { assert job.Key() in JobKeys(s2); }
  }

  lemma DeletedIsAbsent(env: Env, s: State, id: Id, fails: Faults, s': State)
    requires Integrity(env, s) && CronRestart.CronsFiled(s) && DeletesEvent(s, id, fails, s', OK)
    ensures Absent(s', id) && CronRestart.CronsFiled(s')
  {
    CronAgreement.DeleteChanges(s, id, fails, s');
    var slot := DeletesEventEffect(s, id, fails, s', OK);
    assert EventOk(env, s, slot);
  }
}
