/** Service.InitCron (workflow/Service.go:1382-1408): the scheduler rebuilt from the cron
    store when the service starts. */
module CronRestart {
  import opened Records
  import opened ServiceSpec
  import opened ServiceInvariants
  import opened ServiceHistory
  import opened CronAgreement
  import opened CronHistory
  import JobTemplate

  /** A Go variable that holds an event and whose address is taken. */
  class EventVar {
    var event: Event

    constructor (e: Event)
      ensures event == e
    {
      event := e;
    }
  }

  /** A scheduler entry: the event of its job is a pointer, its schedule is parsed when it
      is added. */
  datatype Entry = Entry(event: EventVar, typeName: string, schedule: string)

  predicate Restorable(env: Env, eventTypes: map<Id, EventType>, e: Event) {
    e.eventTypeId in eventTypes && env.cronParses(e.cronSchedule)
  }

  function NameOf(eventTypes: map<Id, EventType>, e: Event): string {
    if e.eventTypeId in eventTypes then eventTypes[e.eventTypeId].name else ""
  }

  /** What the entries stand for if they all point to the loop variable: every one has
      the last event, under its own event's type name and schedule. */
  function AliasedJobs(eventTypes: map<Id, EventType>, events: seq<Event>): seq<CronJob> {
    seq(|events|, i requires 0 <= i < |events| =>
      CronJob(events[|events| - 1], NameOf(eventTypes, events[i]), events[i].cronSchedule))
  }

  /** What they would stand for with a copy of the variable per iteration. */
  function CopiedJobs(eventTypes: map<Id, EventType>, events: seq<Event>): seq<CronJob> {
    seq(|events|, i requires 0 <= i < |events| =>
      CronJob(events[i], NameOf(eventTypes, events[i]), events[i].cronSchedule))
  }

  /** `typeExists` and `events` are the answers of the cron store. The loop variable is one
      variable for the whole loop, as in Go before 1.22. */
  method InitCron(env: Env, typeExists: bool, events: seq<Event>, eventTypes: map<Id, EventType>, fails: Faults)
    returns (ok: bool, entries: seq<Entry>)
    ensures ok <==> ReadCrons !in fails && (typeExists && events != [] ==>
              ReadType !in fails && forall e | e in events :: Restorable(env, eventTypes, e))
    ensures ok && !typeExists ==> entries == []
    ensures ok && typeExists ==> |entries| == |events| && forall i | 0 <= i < |events| ::
              && entries[i].event.event == events[|events| - 1] && events[i].eventTypeId in eventTypes
              && entries[i].typeName == eventTypes[events[i].eventTypeId].name
              && entries[i].schedule == events[i].cronSchedule
  {
    entries := [];
    if ReadCrons in fails {
      return false, entries;
    }
    if typeExists && |events| > 0 {
      var e := new EventVar(events[0]);
      var i := 0;
      while i < |events|
        invariant 0 <= i <= |events| && |entries| == i
        invariant i > 0 ==> ReadType !in fails && e.event == events[i - 1]
        invariant forall k | 0 <= k < i :: Restorable(env, eventTypes, events[k])
        invariant forall k | 0 <= k < i :: entries[k] == Entry(e, NameOf(eventTypes, events[k]), events[k].cronSchedule)
      {
        e.event := events[i];
        assert events[i] in events;
        if ReadType in fails || e.event.eventTypeId !in eventTypes {
          return false, entries;
        }
        if !env.cronParses(e.event.cronSchedule) {
          return false, entries;
        }
        entries := entries + [Entry(e, eventTypes[e.event.eventTypeId].name, e.event.cronSchedule)];
        i := i + 1;
      }
    }
    ok := true;
  }

  // ---------------------------------------------------------------- against the live scheduler

  /** The events of the cron store in the order the search returns them. */
  function Listing(crons: map<Id, Event>, order: seq<Id>): seq<Event>
    requires forall id | id in order :: id in crons
  {
    seq(|order|, i requires 0 <= i < |order| => assert order[i] in order; crons[order[i]])
  }

  ghost predicate CronsListed(env: Env, s: State, order: seq<Id>) {
    Integrity(env, s) && Agreement(env, s) && JobTemplate.IsOrdering(order, s.crons.Keys)
  }

  /** The scheduler starts with these entries and no marks. */
  function Restarted(s: State, jobs: seq<CronJob>): State {
    s.(jobs := jobs, removed := {})
  }

  /** The entry a stored cron event was scheduled as. */
  function JobFor(s: State, id: Id): CronJob
    requires id in s.crons
  {
    CronJob(s.crons[id], NameOf(s.eventTypes, s.crons[id]), s.crons[id].cronSchedule)
  }

  /** A stored cron event is a stored event of a stored type, and its schedule parses. */
  lemma StoredCron(env: Env, s: State, id: Id) returns (slot: Slot)
    requires Integrity(env, s) && Agreement(env, s) && id in s.crons
    ensures Restorable(env, s.eventTypes, s.crons[id]) && s.crons[id].eventId == id
    ensures slot.id == id && slot in s.events && s.events[slot] == s.crons[id]
    ensures slot.typeName == NameOf(s.eventTypes, s.crons[id])
  {
    assert CronAgrees(env, s, id);
    slot :| slot in s.events && slot.id == id && s.events[slot] == s.crons[id];
    assert EventOk(env, s, slot);
  }

  lemma InitCronSucceeds(env: Env, s: State, order: seq<Id>)
    requires CronsListed(env, s, order)
    ensures forall e | e in Listing(s.crons, order) :: Restorable(env, s.eventTypes, e)
  {
    forall e | e in Listing(s.crons, order) ensures Restorable(env, s.eventTypes, e) {
      var id := ListedId(s.crons, order, e);
      var slot := StoredCron(env, s, id);
    }
  }

  lemma ListedId(crons: map<Id, Event>, order: seq<Id>, e: Event) returns (id: Id)
    requires (forall id | id in order :: id in crons) && e in Listing(crons, order)
    ensures id in crons && crons[id] == e
  {
    var i :| 0 <= i < |order| && Listing(crons, order)[i] == e;
    assert order[i] in order;
    id := order[i];
  }

  ghost predicate CronsFiled(s: State) {
    forall id | id in s.crons :: s.crons[id].eventId == id
  }

  lemma AgreeingFiled(env: Env, s: State)
    requires Integrity(env, s) && Agreement(env, s)
    ensures CronsFiled(s)
  {
    forall id | id in s.crons ensures s.crons[id].eventId == id { var slot := StoredCron(env, s, id); }
  }

  /** The entries that can run are those of the live ids. */
  ghost predicate LiveAreStored(s: State) {
    && LiveKeys(s) <= s.crons.Keys
    && LiveJobs(s) == set id | id in LiveKeys(s) && id in s.crons :: JobFor(s, id)
  }

  lemma AgreementMeansStored(env: Env, s: State)
    requires Integrity(env, s) && Agreement(env, s)
    ensures LiveAreStored(s)
  {
    LiveAmongCrons(env, s);
    forall job | job in LiveJobs(s) ensures job.Key() in s.crons && job == JobFor(s, job.Key()) {
      LiveJob(env, s, job);
    }
    LiveByKey(s);
  }

  lemma LiveByKey(s: State)
    requires LiveKeys(s) <= s.crons.Keys
    requires forall job | job in LiveJobs(s) :: job.Key() in s.crons && job == JobFor(s, job.Key())
    ensures LiveAreStored(s)
  {
    forall id | id in LiveKeys(s) && id in s.crons ensures JobFor(s, id) in LiveJobs(s) {
      var job :| job in s.jobs && job.Key() !in s.removed && job.Key() == id;
      assert job in LiveJobs(s);
    }
    forall job | job in LiveJobs(s) ensures job.Key() in LiveKeys(s) { }
  }

  lemma {:induction false} EachOnce<T>(xs: seq<T>)
    requires forall i, j | 0 <= i < j < |xs| :: xs[i] != xs[j]
    ensures multiset(xs) == multiset(set x | x in xs)
  {
    if xs != [] {
      var rest := xs[1..];
      assert forall i | 1 <= i < |xs| :: xs[i] == rest[i - 1];
      EachOnce(rest);
      assert xs == [xs[0]] + rest;
      assert (set x | x in xs) == {xs[0]} + set x | x in rest;
    }
  }

  function Rebuilt(s: State): set<CronJob> {
    set id | id in s.crons :: JobFor(s, id)
  }

  lemma CopiedAt(s: State, order: seq<Id>, i: nat)
    requires JobTemplate.IsOrdering(order, s.crons.Keys) && i < |order|
    ensures order[i] in s.crons && CopiedJobs(s.eventTypes, Listing(s.crons, order))[i] == JobFor(s, order[i])
  {
    assert order[i] in order;
  }

  lemma CopiedAreStored(s: State, order: seq<Id>)
    requires JobTemplate.IsOrdering(order, s.crons.Keys) && CronsFiled(s)
    ensures multiset(CopiedJobs(s.eventTypes, Listing(s.crons, order))) == multiset(Rebuilt(s))
  {
    var jobs := CopiedJobs(s.eventTypes, Listing(s.crons, order));
    forall i | 0 <= i < |order| ensures order[i] in s.crons && jobs[i] == JobFor(s, order[i]) { CopiedAt(s, order, i); }
    forall id | id in s.crons ensures JobFor(s, id) in jobs {
      var i :| 0 <= i < |order| && order[i] == id;
      assert jobs[i] == JobFor(s, id);
    }
    forall i, j | 0 <= i < j < |jobs| ensures jobs[i] != jobs[j] { assert jobs[i].Key() == order[i]; }
    EachOnce(jobs);
    assert (set job | job in jobs) == Rebuilt(s);
  }

  lemma RebuiltIsLive(s: State)
    requires LiveAreStored(s) && CronsFiled(s)
    ensures Rebuilt(s) == LiveJobs(s) <==> SameIds(s)
    ensures LiveJobs(s) <= Rebuilt(s)
  {
    if Rebuilt(s) == LiveJobs(s) {
      forall id | id in s.crons ensures id in LiveKeys(s) {
        assert JobFor(s, id) in LiveJobs(s) && JobFor(s, id).Key() == id;
      }
    }
  }

  /** With a copy per iteration a restart rebuilds every entry that the live scheduler
      could run, and one for every other stored cron event: those whose "@now" has fired
      fire again. It rebuilds the live entries and no more if and only if there is none. */
  lemma CopyingRestartRefines(env: Env, s: State, order: seq<Id>)
    requires CronsListed(env, s, order)
    ensures var jobs := CopiedJobs(s.eventTypes, Listing(s.crons, order));
            && LiveKeys(Restarted(s, jobs)) == s.crons.Keys
            && multiset(LiveJobs(s)) <= multiset(jobs)
            && (multiset(jobs) == multiset(LiveJobs(s)) <==> SameIds(s))
  {
    AgreeingFiled(env, s);
    AgreementMeansStored(env, s);
    CopiedAreStored(s, order);
    RebuiltIsLive(s);
    SetsAsMultisets(LiveJobs(s), Rebuilt(s));
    CopiedKeys(s, order);
  }

  lemma SetsAsMultisets<T>(a: set<T>, b: set<T>)
    ensures multiset(a) == multiset(b) <==> a == b
    ensures a <= b ==> multiset(a) <= multiset(b)
  {
    if multiset(a) == multiset(b) {
      forall x ensures x in a <==> x in b { assert x in multiset(a) <==> x in multiset(b); }
    }
  }

  lemma CopiedKeys(s: State, order: seq<Id>)
    requires JobTemplate.IsOrdering(order, s.crons.Keys) && CronsFiled(s)
    ensures LiveKeys(Restarted(s, CopiedJobs(s.eventTypes, Listing(s.crons, order)))) == s.crons.Keys
  {
    var jobs := CopiedJobs(s.eventTypes, Listing(s.crons, order));
    forall job | job in jobs ensures job.Key() in s.crons {
      var i :| 0 <= i < |jobs| && jobs[i] == job;
      CopiedAt(s, order, i);
    }
    forall id | id in s.crons ensures id in LiveKeys(Restarted(s, jobs)) {
      var i :| 0 <= i < |order| && order[i] == id;
      CopiedAt(s, order, i);
      assert jobs[i] in jobs;
    }
  }

  // ---------------------------------------------------------------- the shared variable

  lemma AliasedAt(s: State, order: seq<Id>, i: nat)
    requires JobTemplate.IsOrdering(order, s.crons.Keys) && CronsFiled(s) && i < |order|
    ensures AliasedJobs(s.eventTypes, Listing(s.crons, order))[i].Key() == order[|order| - 1]
  {
    assert order[|order| - 1] in order;
  }

  lemma OneIteration(eventTypes: map<Id, EventType>, events: seq<Event>)
    requires |events| <= 1
    ensures AliasedJobs(eventTypes, events) == CopiedJobs(eventTypes, events)
  {
  }

  /** All aliased entries have one key, so at most one entry was live. */
  lemma AliasedAllLive(s: State, order: seq<Id>)
    requires JobTemplate.IsOrdering(order, s.crons.Keys) && CronsFiled(s) && LiveAreStored(s)
    requires multiset(AliasedJobs(s.eventTypes, Listing(s.crons, order))) == multiset(LiveJobs(s))
    ensures |order| <= 1 && SameIds(s)
  {
    var jobs := AliasedJobs(s.eventTypes, Listing(s.crons, order));
    if order != [] {
      var last := order[|order| - 1];
      assert last in order;
      forall job | job in LiveJobs(s) ensures job == JobFor(s, last) {
        assert job in multiset(jobs);
        var i :| 0 <= i < |jobs| && jobs[i] == job;
        AliasedAt(s, order, i);
      }
      assert LiveJobs(s) <= {JobFor(s, last)};
      assert jobs[0] in multiset(jobs) && jobs[0] in LiveJobs(s);
      assert LiveJobs(s) == {JobFor(s, last)};
      assert |multiset(jobs)| == |order| && |multiset(LiveJobs(s))| == 1;
      OnlyKey(s, order, last);
    }
  }

  lemma OnlyKey(s: State, order: seq<Id>, last: Id)
    requires JobTemplate.IsOrdering(order, s.crons.Keys) && order == [last] && LiveAreStored(s)
    requires CronsFiled(s) && last in s.crons && JobFor(s, last) in LiveJobs(s)
    ensures SameIds(s)
  {
    forall id | id in s.crons ensures id == last { assert id in order; }
    assert JobFor(s, last).Key() in LiveKeys(s);
  }

  lemma OneListed(s: State, order: seq<Id>)
    requires JobTemplate.IsOrdering(order, s.crons.Keys) && |order| <= 1 && CronsFiled(s) && LiveAreStored(s)
    ensures multiset(AliasedJobs(s.eventTypes, Listing(s.crons, order))) == multiset(LiveJobs(s)) <==> SameIds(s)
  {
    OneIteration(s.eventTypes, Listing(s.crons, order));
    CopiedAreStored(s, order);
    RebuiltIsLive(s);
    SetsAsMultisets(Rebuilt(s), LiveJobs(s));
  }

  /** With the shared variable a restart rebuilds the live entries if and only if at most
      one cron event is stored and it has not fired its "@now". */
  lemma SharedVariableRestart(env: Env, s: State, order: seq<Id>)
    requires CronsListed(env, s, order)
    ensures multiset(AliasedJobs(s.eventTypes, Listing(s.crons, order))) == multiset(LiveJobs(s)) <==>
            |s.crons| <= 1 && SameIds(s)
  {
    AgreeingFiled(env, s);
    AgreementMeansStored(env, s);
    JobTemplate.OrderingSize(order, s.crons.Keys);
    if |order| <= 1 {
      OneListed(s, order);
    } else if multiset(AliasedJobs(s.eventTypes, Listing(s.crons, order))) == multiset(LiveJobs(s)) {
      AliasedAllLive(s, order);
    }
  }

  // ---------------------------------------------------------------- after the restart

  lemma RestartKeeps(env: Env, s: State, jobs: seq<CronJob>)
    requires Integrity(env, s) && forall job | job in jobs :: job.Key() in s.crons
    ensures Integrity(env, Restarted(s, jobs))
  {
    var r := Restarted(s, jobs);
    forall i | 0 <= i < |jobs| ensures jobs[i].Key() in s.issued { assert jobs[i] in jobs; }
    CronKeeps(env, s, r);
  }

  /** With a copy per iteration the service starts in a state from which all that is
      proved of agreeing states holds again. */
  lemma CopyingRestartAgrees(env: Env, s: State, order: seq<Id>)
    requires CronsListed(env, s, order)
    ensures var r := Restarted(s, CopiedJobs(s.eventTypes, Listing(s.crons, order)));
            Integrity(env, r) && Agreement(env, r)
  {
    var jobs := CopiedJobs(s.eventTypes, Listing(s.crons, order));
    forall i | 0 <= i < |order| ensures AgreesAt(env, Restarted(s, jobs), order, i) { CopiedAgrees(env, s, order, i); }
    AgreesAtAll(env, Restarted(s, jobs), order);
    forall job | job in jobs ensures job.Key() in s.crons {
      var i :| 0 <= i < |jobs| && jobs[i] == job;
      assert AgreesAt(env, Restarted(s, jobs), order, i);
    }
    RestartKeeps(env, s, jobs);
  }

  ghost predicate AgreesAt(env: Env, r: State, order: seq<Id>, i: nat)
    requires i < |order|
  {
    && i < |r.jobs| && order[i] in r.crons && r.jobs[i].Key() == order[i]
    && JobAgrees(r, r.jobs[i]) && CronAgrees(env, r, order[i])
  }

  lemma AgreesAtAll(env: Env, r: State, order: seq<Id>)
    requires JobTemplate.IsOrdering(order, r.crons.Keys) && |r.jobs| == |order|
    requires forall i | 0 <= i < |order| :: AgreesAt(env, r, order, i)
    ensures Agreement(env, r)
  {
    forall i | 0 <= i < |r.jobs| ensures JobAgrees(r, r.jobs[i]) && r.jobs[i].Key() == order[i] {
      assert AgreesAt(env, r, order, i);
    }
    forall id | id in r.crons ensures CronAgrees(env, r, id) {
      var i :| 0 <= i < |order| && order[i] == id;
      assert AgreesAt(env, r, order, i);
    }
  }

  lemma CopiedAgrees(env: Env, s: State, order: seq<Id>, i: nat)
    requires CronsListed(env, s, order) && i < |order|
    ensures AgreesAt(env, Restarted(s, CopiedJobs(s.eventTypes, Listing(s.crons, order))), order, i)
  {
    CopiedAt(s, order, i);
    AgreeingFiled(env, s);
    RestoredAgrees(env, s, CopiedJobs(s.eventTypes, Listing(s.crons, order)), i, order[i]);
  }

  lemma RestoredAgrees(env: Env, s: State, jobs: seq<CronJob>, i: nat, id: Id)
    requires Integrity(env, s) && Agreement(env, s) && id in s.crons && i < |jobs| && jobs[i] == JobFor(s, id)
    ensures JobAgrees(Restarted(s, jobs), jobs[i]) && CronAgrees(env, Restarted(s, jobs), id)
  {
    var r := Restarted(s, jobs);
    var slot := StoredCron(env, s, id);
    assert slot == Slot(jobs[i].typeName, id) && r.jobs[i].Key() == id;
    assert env.cronParses(s.crons[id].cronSchedule);
  }

  lemma AliasedKeys(s: State, order: seq<Id>)
    requires JobTemplate.IsOrdering(order, s.crons.Keys) && CronsFiled(s)
    ensures var jobs := AliasedJobs(s.eventTypes, Listing(s.crons, order));
            && |jobs| == |order| && (order != [] ==> order[|order| - 1] in s.crons)
            && forall job | job in jobs :: order != [] && job.Key() == order[|order| - 1]
  {
    var jobs := AliasedJobs(s.eventTypes, Listing(s.crons, order));
    if order != [] { assert order[|order| - 1] in order; }
    forall job | job in jobs ensures order != [] && job.Key() == order[|order| - 1] {
      var i :| 0 <= i < |jobs| && jobs[i] == job;
      AliasedAt(s, order, i);
    }
  }

  /** With the shared variable the stores are sound, but all entries have one key. */
  lemma SharedRestartKeeps(env: Env, s: State, order: seq<Id>)
    requires CronsListed(env, s, order)
    ensures var r := Restarted(s, AliasedJobs(s.eventTypes, Listing(s.crons, order)));
            Integrity(env, r) && |r.jobs| == |s.crons| && forall job | job in r.jobs :: job.Key() == order[|order| - 1]
  {
    AgreeingFiled(env, s);
    JobTemplate.OrderingSize(order, s.crons.Keys);
    AliasedKeys(s, order);
    RestartKeeps(env, s, AliasedJobs(s.eventTypes, Listing(s.crons, order)));
  }
}
