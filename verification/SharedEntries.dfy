/** Scheduler entries that share a key, as they all do after a restart: of those that
    fire more than once, deleting the event stops one at most, however long the service
    runs on without another restart. */
module SharedEntries {
  import opened Records
  import opened ServiceSpec
  import opened ServiceInvariants
  import opened ServiceRuns
  import CronAgreement
  import CronRestart
  import JobTemplate

  /** Entries with the key that do not end with their next firing. */
  function Lasting(jobs: seq<CronJob>, key: Id): nat {
    if jobs == [] then 0 else (if Lasts(jobs[0], key) then 1 else 0) + Lasting(jobs[1..], key)
  }

  predicate Lasts(job: CronJob, key: Id) {
    job.Key() == key && !IsOneShot(job.schedule)
  }

  function Mark(s: State, key: Id): nat {
    if key in s.removed then 1 else 0
  }

  predicate NoneOnceWith(jobs: seq<CronJob>, key: Id) {
    forall job | job in jobs && job.Key() == key :: !IsOneShot(job.schedule)
  }

  lemma {:induction false} LastingOfSum(xs: seq<CronJob>, ys: seq<CronJob>, key: Id)
    ensures Lasting(xs + ys, key) == Lasting(xs, key) + Lasting(ys, key)
  {
    if xs == [] {
      assert xs + ys == ys;
    } else {
      assert (xs + ys)[1..] == xs[1..] + ys;
      LastingOfSum(xs[1..], ys, key);
    }
  }

  lemma LastingDropped(jobs: seq<CronJob>, i: nat, key: Id)
    requires i < |jobs|
    ensures Lasting(jobs, key) == Lasting(Dropped(jobs, i), key) + if Lasts(jobs[i], key) then 1 else 0
  {
    LastingOfSum(jobs[..i], jobs[i + 1..], key);
    assert jobs[i..][1..] == jobs[i + 1..] && jobs == jobs[..i] + jobs[i..];
    LastingOfSum(jobs[..i], jobs[i..], key);
  }

  lemma LastingAppended(jobs: seq<CronJob>, job: CronJob, key: Id)
    requires job.Key() != key
    ensures Lasting(jobs + [job], key) == Lasting(jobs, key)
  {
    LastingOfSum(jobs, [job], key);
  }

  /** What a step does to the entries and the mark of a key that is no cron event's any
      more: none is added, and the mark is used up by dropping one entry. */
  ghost predicate KeyStep(s: State, s': State, key: Id) {
    && Mark(s', key) <= Mark(s, key) && Lasting(s'.jobs, key) <= Lasting(s.jobs, key)
    && Lasting(s.jobs, key) - Lasting(s'.jobs, key) <= Mark(s, key) - Mark(s', key)
    && (NoneOnceWith(s.jobs, key) ==>
          NoneOnceWith(s'.jobs, key)
          && Lasting(s.jobs, key) - Lasting(s'.jobs, key) == Mark(s, key) - Mark(s', key))
  }

  lemma FireKeyStep(env: Env, s: State, i: nat, id: Id, now: string, fails: Faults, s': State, status: Status, key: Id)
    requires Fires(env, s, i, id, now, fails, s', status)
    ensures KeyStep(s, s', key) && s.issued <= s'.issued && s'.crons == s.crons
  {
    FiresEffect(env, s, i, id, now, fails, s', status);
    DroppedKeyStep(s, s', i, key);
  }

  lemma DroppedKeyStep(s: State, s': State, i: nat, key: Id)
    requires i < |s.jobs|
    requires var marked := s.jobs[i].Key() in s.removed;
             && s'.removed == (if marked then s.removed - {s.jobs[i].Key()} else s.removed)
             && s'.jobs == (if marked || IsOneShot(s.jobs[i].schedule) then Dropped(s.jobs, i) else s.jobs)
    ensures KeyStep(s, s', key)
  {
    LastingDropped(s.jobs, i, key);
    assert s.jobs[i] in s.jobs;
    DroppedMembers(s.jobs, i);
  }

  lemma DroppedMembers(jobs: seq<CronJob>, i: nat)
    requires i < |jobs|
    ensures forall job | job in Dropped(jobs, i) :: job in jobs
  {
  }

  lemma ScheduleKeyStep(env: Env, s: State, ev: Event, id: Id, now: string, fails: Faults,
                        s': State, status: Status, r: Event, key: Id)
    requires PostsRepeatingEvent(env, s, ev, id, now, fails, s', status, r) && s' != s
    requires key in s.issued && key !in s.crons
    ensures KeyStep(s, s', key) && s.issued <= s'.issued && key !in s'.crons
  {
    PostsRepeatingEventEffect(env, s, ev, id, now, fails, s', status, r);
    var name := s.eventTypes[ev.eventTypeId].name;
    var s0 := s.(issued := s.issued + {id});
    ScheduledMarks(env, s0, s.eventTypes[ev.eventTypeId], ev, id, now, fails, s', status, r);
    AppendedKeyStep(s, s', CronJob(StoredEvent(ev, name, id, now), name, ev.cronSchedule), key);
  }

  lemma AppendedKeyStep(s: State, s': State, job: CronJob, key: Id)
    requires s'.jobs == s.jobs + [job] && job.Key() != key && s.removed <= s'.removed <= s.removed + {job.Key()}
    ensures KeyStep(s, s', key)
  {
    LastingAppended(s.jobs, job, key);
  }

  lemma ScheduledMarks(env: Env, s: State, et: EventType, ev: Event, id: Id, now: string, fails: Faults,
                       s': State, status: Status, r: Event)
    requires Schedules(env, s, et, ev, id, now, fails, s', status, r)
    ensures s.removed <= s'.removed <= s.removed + {id} && s'.crons.Keys <= s.crons.Keys + {id}
  {
    ScheduledCrons(env, s, et, ev, id, now, fails, s', status, r);
    MarksStay(env, s, et, ev, id, now, fails, s', status, r);
  }

  lemma MarksStay(env: Env, s: State, et: EventType, ev: Event, id: Id, now: string, fails: Faults,
                  s': State, status: Status, r: Event)
    requires Schedules(env, s, et, ev, id, now, fails, s', status, r)
    ensures s.removed <= s'.removed
  {
  }

  lemma DeleteKeyStep(s: State, id: Id, fails: Faults, s': State, status: Status, key: Id)
    requires DeletesEvent(s, id, fails, s', status) && key !in s.crons
    ensures KeyStep(s, s', key) && s'.crons.Keys <= s.crons.Keys && s'.issued == s.issued
  {
    if s' != s { var slot := DeletesEventEffect(s, id, fails, s', status); }
  }

  lemma QuietKeyStep(env: Env, s: State, step: Step, s': State, key: Id)
    requires IdsIssued(s) && Takes(env, s, step, s') && !step.request.PostRepeatingEvent? && !step.request.Fire?
    requires !step.request.DeleteEvent?
    ensures s'.jobs == s.jobs && s'.removed == s.removed && s'.crons == s.crons && s.issued <= s'.issued
  {
    var Step(request, id, now, fails, status) := step;
    match request {
      case PostEventType(_) => NewTypeEffect(env, s, step, s');
      case DeleteEventType(typeId) => if s' != s { DeletesEventTypeEffect(s, typeId, fails, s', status); }
      case PostEvent(ev) =>
        var r :| PostsEvent(env, s, ev, id, now, fails, s', status, r);
        PostsEventEffect(env, s, ev, id, now, fails, s', status, r);
      case _ => TriggerStepFrame(env, s, step, s');
    }
  }

  lemma StepKey(env: Env, s: State, step: Step, s': State, key: Id)
    requires IdsIssued(s) && Takes(env, s, step, s') && key in s.issued && key !in s.crons
    ensures KeyStep(s, s', key) && key in s'.issued && key !in s'.crons
  {
    var Step(request, id, now, fails, status) := step;
    match request {
      case PostRepeatingEvent(ev) =>
        var r :| PostsRepeatingEvent(env, s, ev, id, now, fails, s', status, r);
        if s' != s { ScheduleKeyStep(env, s, ev, id, now, fails, s', status, r, key); }
      case DeleteEvent(eventId) => DeleteKeyStep(s, eventId, fails, s', status, key);
      case Fire(i) => FireKeyStep(env, s, i, id, now, fails, s', status, key);
      case _ => QuietKeyStep(env, s, step, s', key);
    }
  }

  lemma {:induction false} KeyOverRun(env: Env, s: State, steps: seq<Step>, s': State, key: Id)
    requires Integrity(env, s) && Runs(env, s, steps, s') && key in s.issued && key !in s.crons
    ensures KeyStep(s, s', key)
    decreases |steps|
  {
    if steps != [] {
      var mid :| Takes(env, s, steps[0], mid) && Runs(env, mid, steps[1..], s');
      IntegrityIds(env, s);
      StepKey(env, s, steps[0], mid, key);
      TakesKeeps(env, s, steps[0], mid);
      KeyOverRun(env, mid, steps[1..], s', key);
    }
  }

  /** A DeleteEvent of a stored cron event stops at most one of the entries with its key
      that fire more than once, in every run that follows and whatever fails in it. If
      none of them fires only once it stops none while its mark stands and exactly one
      after that. */
  lemma DeleteStopsOneEntry(env: Env, s: State, key: Id, fails: Faults, s1: State, steps: seq<Step>, s2: State)
    requires Integrity(env, s) && key in s.crons && DeletesEvent(s, key, fails, s1, OK) && Runs(env, s1, steps, s2)
    ensures Lasting(s.jobs, key) - 1 + Mark(s2, key) <= Lasting(s2.jobs, key) <= Lasting(s.jobs, key)
    ensures NoneOnceWith(s.jobs, key) ==> Lasting(s2.jobs, key) == Lasting(s.jobs, key) - 1 + Mark(s2, key)
  {
    assert s1 != s by { CronAgreement.DeleteChanges(s, key, fails, s1); }
    var slot := DeletesEventEffect(s, key, fails, s1, OK);
    DeleteEventKeeps(env, s, key, fails, s1, OK);
    KeyOverRun(env, s1, steps, s2, key);
  }

  /** The stored cron events that fire more than once. */
  function LastingCrons(s: State): set<Id> {
    set id | id in s.crons && !IsOneShot(s.crons[id].cronSchedule)
  }

  /** As many entries last as there are ids that make them last. */
  lemma {:induction false} CountLasting(jobs: seq<CronJob>, order: seq<Id>, key: Id, lasting: set<Id>)
    requires |jobs| == |order| && JobTemplate.Distinct(order)
    requires forall i | 0 <= i < |jobs| :: Lasts(jobs[i], key) <==> order[i] in lasting
    ensures Lasting(jobs, key) == |set id | id in order && id in lasting|
    decreases |jobs|
  {
    if jobs != [] {
      var rest := order[1..];
      forall i | 0 <= i < |rest| ensures rest[i] == order[i + 1] && jobs[1..][i] == jobs[i + 1] { }
      CountLasting(jobs[1..], rest, key, lasting);
      KeptWithFirst(order, lasting);
    }
  }

  lemma KeptWithFirst(order: seq<Id>, keep: set<Id>)
    requires JobTemplate.Distinct(order) && order != []
    ensures |set id | id in order && id in keep| ==
            |set id | id in order[1..] && id in keep| + if order[0] in keep then 1 else 0
  {
    var here, there := (set id | id in order && id in keep), (set id | id in order[1..] && id in keep);
    assert order == [order[0]] + order[1..];
    forall i | 1 <= i < |order| ensures order[i] != order[0] { }
    assert here == there + if order[0] in keep then {order[0]} else {};
  }

  lemma AliasedLast(s: State, order: seq<Id>)
    requires JobTemplate.IsOrdering(order, s.crons.Keys) && CronRestart.CronsFiled(s) && order != []
    ensures var jobs := CronRestart.AliasedJobs(s.eventTypes, CronRestart.Listing(s.crons, order));
            var key := order[|order| - 1];
            key in s.crons && Lasting(jobs, key) == |LastingCrons(s)|
            && (LastingCrons(s) == s.crons.Keys ==> NoneOnceWith(jobs, key))
  {
    var jobs := CronRestart.AliasedJobs(s.eventTypes, CronRestart.Listing(s.crons, order));
    var key := order[|order| - 1];
    CronRestart.AliasedKeys(s, order);
    forall i | 0 <= i < |jobs| ensures order[i] in s.crons && (Lasts(jobs[i], key) <==> order[i] in LastingCrons(s)) {
      CronRestart.AliasedAt(s, order, i);
      assert order[i] in order;
    }
    CountLasting(jobs, order, key, LastingCrons(s));
    assert (set id | id in order && id in LastingCrons(s)) == LastingCrons(s);
    forall job | job in jobs && LastingCrons(s) == s.crons.Keys ensures !IsOneShot(job.schedule) {
      var i :| 0 <= i < |jobs| && jobs[i] == job;
      assert Lasts(jobs[i], key);
    }
  }

  /** After a restart with the shared variable all entries fire for the event listed last,
      and as many of them last as there are stored cron events that fire more than once.
      Until the next restart, deleting that event stops at most one of those; if all are such,
      exactly one once the mark is used. */
  lemma RestartOutlivesDelete(env: Env, s: State, order: seq<Id>, r: State, fails: Faults, s1: State,
                              steps: seq<Step>, s2: State)
    requires CronRestart.CronsListed(env, s, order) && order != []
    requires r == CronRestart.Restarted(s, CronRestart.AliasedJobs(s.eventTypes, CronRestart.Listing(s.crons, order)))
    requires DeletesEvent(r, order[|order| - 1], fails, s1, OK) && Runs(env, s1, steps, s2)
    ensures var key, n := order[|order| - 1], |LastingCrons(s)|;
            && Lasting(r.jobs, key) == n
            && n - 1 + Mark(s2, key) <= Lasting(s2.jobs, key) <= n
            && (LastingCrons(s) == s.crons.Keys ==> Lasting(s2.jobs, key) == n - 1 + Mark(s2, key))
  {
    CronRestart.AgreeingFiled(env, s);
    AliasedLast(s, order);
    CronRestart.SharedRestartKeeps(env, s, order);
    DeleteStopsOneEntry(env, r, order[|order| - 1], fails, s1, steps, s2);
  }
}
