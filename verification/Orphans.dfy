/** Percolation queries that no stored trigger has: which steps of a run leave one, that
    it stays for good, and that no event it matches is answered with 201. */
module Orphans {
  import opened Json
  import opened Records
  import opened ServiceSpec
  import opened ServiceInvariants
  import opened ServiceRuns
  import EndToEnd
  import FanOut
  import FanOutSafety
  import JobTemplate
  import Percolation
  import ServiceHistory

  predicate Orphan(s: State, t: Id) {
    t in s.queries && t !in s.triggers
  }

  /** The step removes the trigger and not its query, or registers a query, cannot store
      its trigger and cannot undo. */
  predicate Orphans(s: State, step: Step, t: Id) {
    if step.request.DeleteTrigger? then
      && t == step.request.triggerId && t in s.triggers && RemoveQuery in step.fails
      && ReadTrigger !in step.fails && RemoveTrigger !in step.fails
    else
      step.request.PostTrigger? && t == step.id && ServiceHistory.QueryStranded(s, step.request.t, step.fails)
  }

  // ---------------------------------------------------------------- one step

  ghost predicate OrphanStep(s: State, step: Step, s': State, t: Id) {
    && (Orphan(s', t) <==> Orphan(s, t) || Orphans(s, step, t))
    && (Orphan(s, t) ==> s'.queries[t] == s.queries[t])
  }

  lemma DeleteTriggerStep(s: State, step: Step, s': State, t: Id)
    requires Triggers(s) && step.request.DeleteTrigger?
    requires DeletesTrigger(s, step.request.triggerId, step.fails, s', step.status)
    ensures OrphanStep(s, step, s', t)
  {
    var id := step.request.triggerId;
    if id in s.triggers { assert TriggerOk(s, id); }
  }

  lemma PostTriggerStep(s: State, step: Step, s': State, r: Trigger, t: Id)
    requires IdsIssued(s) && step.request.PostTrigger?
    requires PostsTrigger(s, step.request.t, step.id, step.now, step.fails, s', step.status, r)
    ensures OrphanStep(s, step, s', t)
  {
    PostsTriggerEffect(s, step.request.t, step.id, step.now, step.fails, s', step.status, r);
    ServiceHistory.RefusedTrigger(s, step.request.t, step.id, step.now, step.fails, s', step.status, r);
    if t == step.id { PostedOrphan(s, step, s', r); }
  }

  lemma PostedOrphan(s: State, step: Step, s': State, r: Trigger)
    requires IdsIssued(s) && step.request.PostTrigger?
    requires PostsTrigger(s, step.request.t, step.id, step.now, step.fails, s', step.status, r)
    ensures Orphan(s', step.id) <==> ServiceHistory.QueryStranded(s, step.request.t, step.fails)
  {
    PostsTriggerEffect(s, step.request.t, step.id, step.now, step.fails, s', step.status, r);
    ServiceHistory.RefusedTrigger(s, step.request.t, step.id, step.now, step.fails, s', step.status, r);
    if s'.triggers == s.triggers { OnlyTheQuery(s, s', step.id); }
  }

  /** If the stores differ only in what they hold for a new id, they have a query for it. */
  lemma OnlyTheQuery(s: State, s': State, id: Id)
    requires IdsIssued(s) && id !in s.issued && s' == s.(issued := s'.issued, queries := s'.queries)
    requires s.queries.Keys - {id} <= s'.queries.Keys <= s.queries.Keys + {id}
    requires forall q | q in s.queries && q != id :: s'.queries[q] == s.queries[q]
    ensures Orphan(s', id) <==> !ServiceHistory.SameStores(s, s')
  {
    if id !in s'.queries { assert s'.queries == s.queries; }
  }

  lemma StepOrphans(env: Env, s: State, step: Step, s': State, t: Id)
    requires Integrity(env, s) && Takes(env, s, step, s')
    ensures OrphanStep(s, step, s', t)
  {
    IntegrityIds(env, s);
    var Step(request, id, now, fails, status) := step;
    match request {
      case PostTrigger(tr) =>
        var r :| PostsTrigger(s, tr, id, now, fails, s', status, r);
        PostTriggerStep(s, step, s', r, t);
      case DeleteTrigger(_) => DeleteTriggerStep(s, step, s', t);
      case _ => OtherStep(env, s, step, s', t);
    }
  }

  lemma OtherStep(env: Env, s: State, step: Step, s': State, t: Id)
    requires IdsIssued(s) && Takes(env, s, step, s') && !step.request.PostTrigger? && !step.request.DeleteTrigger?
    ensures OrphanStep(s, step, s', t)
  {
    if step.request.PutTrigger? {
      PutsTriggerEffect(s, step.request.triggerId, step.request.enabled, step.fails, s', step.status);
    } else if step.request.PostEventType? {
      NewTypeFrame(env, s, step, s');
    } else {
      StepFrame(env, s, step, s');
    }
  }

  // ---------------------------------------------------------------- runs

  ghost predicate Left(states: seq<State>, steps: seq<Step>, t: Id)
    requires |states| == |steps| + 1
  {
    exists i | 0 <= i < |steps| :: Orphans(states[i], steps[i], t)
  }

  lemma LeftSnoc(states: seq<State>, steps: seq<Step>, t: Id)
    requires |states| == |steps| + 1 && steps != []
    ensures var n := |steps| - 1;
            Left(states, steps, t) <==> Left(states[..n + 1], steps[..n], t) || Orphans(states[n], steps[n], t)
  {
    var n := |steps| - 1;
    if Orphans(states[n], steps[n], t) { assert Left(states, steps, t); }
    if Left(states[..n + 1], steps[..n], t) {
      var i :| 0 <= i < n && Orphans(states[..n + 1][i], steps[..n][i], t);
      assert Orphans(states[i], steps[i], t);
    }
    if Left(states, steps, t) && !Orphans(states[n], steps[n], t) {
      var i :| 0 <= i < |steps| && Orphans(states[i], steps[i], t);
      assert Orphans(states[..n + 1][i], steps[..n][i], t);
    }
  }

  /** Along any run a query is without a trigger if and only if it was at the start or one
      of the steps left it so. */
  lemma {:induction false} OrphansOfRun(env: Env, states: seq<State>, steps: seq<Step>, t: Id)
    requires Path(env, states, steps) && Integrity(env, states[0])
    ensures Integrity(env, states[|steps|])
    ensures Orphan(states[|steps|], t) <==> Orphan(states[0], t) || Left(states, steps, t)
    decreases |steps|
  {
    if steps != [] {
      var n := |steps| - 1;
      assert Path(env, states[..n + 1], steps[..n]);
      OrphansOfRun(env, states[..n + 1], steps[..n], t);
      assert states[..n + 1][n] == states[n] && Takes(env, states[n], steps[n], states[n + 1]);
      TakesKeeps(env, states[n], steps[n], states[n + 1]);
      StepOrphans(env, states[n], steps[n], states[n + 1], t);
      LeftSnoc(states, steps, t);
    }
  }

  /** In every run, from empty stores say, the percolator holds exactly the queries of the
      stored triggers if and only if no step left a query without its trigger. */
  lemma PercolatorMatchesTriggers(env: Env, states: seq<State>, steps: seq<Step>)
    requires Path(env, states, steps) && Integrity(env, states[0])
    requires states[0].queries.Keys == states[0].triggers.Keys
    ensures var s := states[|steps|];
            s.queries.Keys == s.triggers.Keys <==> forall t :: !Left(states, steps, t)
  {
    var s := states[|steps|];
    forall t ensures Orphan(s, t) <==> Left(states, steps, t) { OrphansOfRun(env, states, steps, t); }
    OrphansOfRun(env, states, steps, "");
    forall t | t in s.triggers ensures t in s.queries { assert TriggerOk(s, t); }
    if forall t :: !Left(states, steps, t) {
      forall t | t in s.queries ensures t in s.triggers { assert !Orphan(s, t); }
    } else {
      var t :| Left(states, steps, t);
      assert Orphan(s, t);
    }
  }

  lemma {:induction false} OrphanStays(env: Env, s: State, steps: seq<Step>, s': State, t: Id)
    requires Integrity(env, s) && Runs(env, s, steps, s') && Orphan(s, t)
    ensures Orphan(s', t) && s'.queries[t] == s.queries[t]
    decreases |steps|
  {
    if steps != [] {
      var mid :| Takes(env, s, steps[0], mid) && Runs(env, mid, steps[1..], s');
      TakesKeeps(env, s, steps[0], mid);
      StepOrphans(env, s, steps[0], mid, t);
      OrphanStays(env, mid, steps[1..], s', t);
    }
  }

  // ---------------------------------------------------------------- events

  lemma {:induction false} NoQuietMiss(call: FanOut.Call, s: FanOut.State, trace: seq<FanOut.Step>, s': FanOut.State,
                                       t: Id)
    requires FanOut.Runs(call, s, trace, s') && !call.quietMiss
    ensures FanOut.Fetch(t, FanOut.Missing) !in trace
    decreases |trace|
  {
    if trace != [] {
      NoQuietMiss(call, FanOut.Next(call, s, trace[0]), trace[1..], s', t);
      assert trace == [trace[0]] + trace[1..];
    }
  }

  lemma OrphanRecorded(call: FanOut.Call, issued: set<Id>, f: FanOut.State, t: Id)
    requires JobTemplate.Distinct(call.matches) && GoroutinesLeave(call, issued, f) && !call.quietMiss
    requires t in call.matches && t !in call.triggers
    ensures t in f.results
  {
    var trace :| FanOut.Runs(call, FanOut.Initial(call, issued), trace, f);
    NoQuietMiss(call, FanOut.Initial(call, issued), trace, f, t);
    FanOutSafety.OrphanQueryReported(call, issued, trace, f, t);
  }

  ghost predicate QueryMatches(env: Env, s: State, t: Id, ev: Event) {
    && t in s.queries && ev.eventTypeId in s.eventTypes
    && env.queryMatches(Obj(s.queries[t]), Percolation.PercolationDocument(s.eventTypes[ev.eventTypeId].name, ev.data))
  }

  lemma OrphanFailsEvent(env: Env, s: State, ev: Event, id: Id, now: string, fails: Faults,
                         s': State, r: Event, t: Id)
    requires Orphan(s, t) && QueryMatches(env, s, t, ev)
    ensures !PostsEvent(env, s, ev, id, now, fails, s', Created, r)
  {
    if PostsEvent(env, s, ev, id, now, fails, s', Created, r) {
      var call, f := EndToEnd.CreatedEvent(env, s, ev, id, now, fails, s', r);
      var s1, name := EndToEnd.WithEvent(s, ev, id, now), s.eventTypes[ev.eventTypeId].name;
      EndToEnd.MatchedOrNot(env, s1, StoredEvent(ev, name, id, now), name, ev.data, call.matches, t);
      assert JobTemplate.Distinct(call.matches);
      EndToEnd.NeverRecordsCreated(call, s1.issued, f);
      OrphanRecorded(call, s1.issued, f, t);
    }
  }

  /** Once DeleteTrigger has removed a trigger and failed to remove its query, no event that
      the query matches is answered with 201, however long after and whatever comes
      between. */
  lemma OrphanBlocksEvents(env: Env, s: State, t: Id, fails: Faults, s1: State, status: Status,
                           steps: seq<Step>, s2: State,
                           ev: Event, id: Id, now: string, fails': Faults, s3: State, r: Event)
    requires Integrity(env, s) && t in s.triggers && DeletesTrigger(s, t, fails, s1, status)
    requires ReadTrigger !in fails && RemoveTrigger !in fails && RemoveQuery in fails
    requires Runs(env, s1, steps, s2) && ev.eventTypeId in s2.eventTypes
    requires env.queryMatches(Obj(s.queries[t]),
               Percolation.PercolationDocument(s2.eventTypes[ev.eventTypeId].name, ev.data))
    ensures status == NotFound && !PostsEvent(env, s2, ev, id, now, fails', s3, Created, r)
  {
    var step := Step(DeleteTrigger(t), "", "", fails, status);
    StepOrphans(env, s, step, s1, t);
    assert TriggerOk(s, t);
    DeleteTriggerKeeps(env, s, t, fails, s1, status);
    OrphanStays(env, s1, steps, s2, t);
    OrphanFailsEvent(env, s2, ev, id, now, fails', s3, r, t);
  }
}
