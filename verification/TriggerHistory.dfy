/** What becomes of one trigger: what a reader sees after an update, and what any number of
    updates in a run make of it. */
module TriggerHistory {
  import opened Json
  import opened Records
  import opened ConditionTrees
  import opened TriggerConditions
  import opened TriggerUpdates
  import opened ServiceSpec
  import opened ServiceInvariants
  import opened ServiceRuns
  import DottedNames
  import EndToEnd

  // ---------------------------------------------------------------- one update

  /** t and t' differ at most in Enabled, the condition and the job's data. */
  predicate SameButTrees(t: Trigger, t': Trigger) {
    t' == t.(enabled := t'.enabled, condition := t'.condition,
             job := t.job.(jobType := t.job.jobType.(data := t'.job.jobType.data)))
  }

  /** c may be read of t, t' stores c encoded, and what is read of t' is an update of c. */
  ghost predicate ReadAndEncoded(t: Trigger, c: Json, t': Trigger) {
    && Decoded(Obj(t.condition), c) && Renames(Encode(), c, Obj(t'.condition))
    && forall c' | Decoded(Obj(t'.condition), c') :: Updated(c, c')
  }

  /** t with Enabled set and nothing else changed, but that the condition was read and
      encoded, and that in the job's data the dots of leaf keys are tildes. */
  ghost predicate Rewritten(t: Trigger, enabled: bool, t': Trigger) {
    && SameButTrees(t, t') && t'.enabled == enabled
    && Renames(Encode(), Obj(t.job.jobType.data), Obj(t'.job.jobType.data))
    && exists c :: ReadAndEncoded(t, c, t')
  }

  lemma PutRewrites(s: State, id: Id, enabled: bool, fails: Faults, s': State)
    requires PutsTrigger(s, id, enabled, fails, s', OK)
    ensures id in s.triggers && id in s'.triggers && s' == s.(triggers := s.triggers[id := s'.triggers[id]])
    ensures Rewritten(s.triggers[id], enabled, s'.triggers[id])
  {
    var seen := PutStored(s, id, enabled, fails, s');
    PutWalksTrees(seen.(enabled := enabled), s'.triggers[id]);
    StoredIsRewritten(s.triggers[id], seen, enabled, s'.triggers[id]);
  }

  lemma StoredIsRewritten(t: Trigger, seen: Trigger, enabled: bool, t': Trigger)
    requires Reads(t, seen) && t' == WithTrees(seen.(enabled := enabled), t'.condition, t'.job.jobType.data)
    requires Renames(Encode(), Obj(seen.condition), Obj(t'.condition))
    requires Renames(Encode(), Obj(seen.job.jobType.data), Obj(t'.job.jobType.data))
    ensures Rewritten(t, enabled, t')
  {
    forall c' | Decoded(Obj(t'.condition), c') ensures Updated(Obj(seen.condition), c') { }
    assert ReadAndEncoded(t, Obj(seen.condition), t');
  }

  /** The trigger read after a successful PutTrigger is one that could be read before, with
      Enabled set, if and only if the condition read before is one that updates leave alone
      and no leaf key of the job's data has a dot. */
  lemma PutChangesOnlyEnabled(s: State, id: Id, enabled: bool, fails: Faults, s': State) returns (seen: Trigger)
    requires PutsTrigger(s, id, enabled, fails, s', OK)
    ensures id in s.triggers && id in s'.triggers && Reads(s.triggers[id], seen)
    ensures forall seen' | Reads(s'.triggers[id], seen') ::
              seen' == seen.(enabled := enabled) <==>
              Settled(Obj(seen.condition)) && LeafKeysDotFree(Obj(seen.job.jobType.data))
  {
    PutRewrites(s, id, enabled, fails, s');
    var t, t' := s.triggers[id], s'.triggers[id];
    var c :| ReadAndEncoded(t, c, t');
    DecodedIsObject(t, c);
    seen := t.(condition := c.fields);
    forall seen' | Reads(t', seen')
      ensures seen' == seen.(enabled := enabled) <==>
              Settled(Obj(seen.condition)) && LeafKeysDotFree(Obj(seen.job.jobType.data))
    {
      UpdateKeepsCondition(c, Obj(seen'.condition));
      EncodeKeeps(Obj(t.job.jobType.data), Obj(t'.job.jobType.data));
    }
  }

  lemma DecodedIsObject(t: Trigger, c: Json)
    requires Decoded(Obj(t.condition), c)
    ensures c.Obj?
  {
  }

  // ---------------------------------------------------------------- many updates

  predicate Puts(step: Step, t: Id) {
    step.request.PutTrigger? && step.request.triggerId == t && step.status == OK
  }

  function Updates(steps: seq<Step>, t: Id): nat {
    if steps == [] then 0 else (if Puts(steps[0], t) then 1 else 0) + Updates(steps[1..], t)
  }

  /** What Enabled is set to last. */
  function LastSet(steps: seq<Step>, t: Id, enabled: bool): bool {
    if steps == [] then enabled
    else LastSet(steps[1..], t, if Puts(steps[0], t) then steps[0].request.enabled else enabled)
  }

  /** t' is what n updates make of t. */
  ghost predicate RewrittenTimes(n: nat, t: Trigger, t': Trigger) {
    if n == 0 then t' == t
    else
      && SameButTrees(t, t') && Renames(Encode(), Obj(t.job.jobType.data), Obj(t'.job.jobType.data))
      && exists c :: ReadTimes(n, t, c, t')
  }

  /** c may be read of t, and whatever is read of t' is what n updates make of c. */
  ghost predicate ReadTimes(n: nat, t: Trigger, c: Json, t': Trigger) {
    Decoded(Obj(t.condition), c) && forall c' | Decoded(Obj(t'.condition), c') :: UpdatedTimes(n, c, c')
  }

  lemma {:induction false} EncodedDotFree(c: Json, out: Json)
    requires Renames(Encode(), c, out)
    ensures LeafKeysDotFree(out)
    decreases c
  {
    match c
    case Arr(xs) =>
      forall i | 0 <= i < |xs| ensures LeafKeysDotFree(out.items[i]) {
        EncodedDotFree(xs[i], out.items[i]);
      }
    case Obj(m) =>
      forall q | q in out.fields
        ensures (out.fields[q].IsLeaf() ==> DottedNames.DotFree(q)) && LeafKeysDotFree(out.fields[q])
      {
        var k := Source(Encode(), c, q, out.fields[q]);
        SameShape(Encode(), m[k], out.fields[q]);
        ToTildesDotFree(k);
        EncodedDotFree(m[k], out.fields[q]);
      }
    case _ =>
  }

  lemma UpdatedOnceMore(n: nat, m: nat, v: Json, u: Json, w: Json)
    requires m == n + 1 && Updated(v, u) && UpdatedTimes(n, u, w)
    ensures UpdatedTimes(m, v, w)
  {
  }

  lemma OneMore(n: nat, m: nat, t: Trigger, t1: Trigger, t': Trigger)
    requires m == n + 1 && Rewritten(t, t1.enabled, t1) && RewrittenTimes(n, t1, t')
    ensures RewrittenTimes(m, t, t')
  {
    var c :| ReadAndEncoded(t, c, t1);
    ReadOnceMore(n, m, t, c, t1, t');
    if n > 0 { DataOnce(t, t1, t'); }
  }

  lemma ReadOnceMore(n: nat, m: nat, t: Trigger, c: Json, t1: Trigger, t': Trigger)
    requires m == n + 1 && ReadAndEncoded(t, c, t1) && RewrittenTimes(n, t1, t')
    ensures ReadTimes(m, t, c, t')
  {
    if n == 0 {
      forall c' | Decoded(Obj(t'.condition), c') ensures UpdatedTimes(m, c, c') { UpdatedOnceMore(n, m, c, c', c'); }
    } else {
      var c1 :| ReadTimes(n, t1, c1, t');
      forall c' | Decoded(Obj(t'.condition), c') ensures UpdatedTimes(m, c, c') { UpdatedOnceMore(n, m, c, c1, c'); }
    }
  }

  /** The job's data is encoded once: a second encoding finds nothing to encode. */
  lemma DataOnce(t: Trigger, t1: Trigger, t': Trigger)
    requires Renames(Encode(), Obj(t.job.jobType.data), Obj(t1.job.jobType.data))
    requires Renames(Encode(), Obj(t1.job.jobType.data), Obj(t'.job.jobType.data))
    ensures t'.job.jobType.data == t1.job.jobType.data
  {
    EncodedDotFree(Obj(t.job.jobType.data), Obj(t1.job.jobType.data));
    EncodeKeeps(Obj(t1.job.jobType.data), Obj(t'.job.jobType.data));
  }

  lemma OtherStep(env: Env, s: State, step: Step, s': State, t: Id)
    requires Integrity(env, s) && Takes(env, s, step, s') && !Puts(step, t) && t in s.triggers && t in s'.triggers
    ensures s'.triggers[t] == s.triggers[t]
  {
    assert TriggerOk(s, t);
    if IsTriggerRequest(step.request) {
      TriggerRequest(env, s, step, s', t);
    } else if step.request.PostEventType? {
      IntegrityIds(env, s);
      NewTypeFrame(env, s, step, s');
    } else {
      StepFrame(env, s, step, s');
    }
  }

  lemma TriggerRequest(env: Env, s: State, step: Step, s': State, t: Id)
    requires Takes(env, s, step, s') && IsTriggerRequest(step.request) && !Puts(step, t)
    requires t in s.triggers && t in s.issued && t in s'.triggers
    ensures s'.triggers[t] == s.triggers[t]
  {
    var Step(request, id, now, fails, status) := step;
    match request {
      case PostTrigger(tr) =>
        var r :| PostsTrigger(s, tr, id, now, fails, s', status, r);
        PostsTriggerEffect(s, tr, id, now, fails, s', status, r);
      case PutTrigger(triggerId, enabled) => if status == OK { PutKeepsTrigger(s, triggerId, enabled, fails, s'); }
      case DeleteTrigger(triggerId) =>
    }
  }

  /** n steps of the relation after one another. */
  ghost predicate Iterated<T(!new)>(n: nat, one: (T, T) -> bool, x: T, y: T) {
    if n == 0 then x == y else exists u :: one(x, u) && Iterated(n - 1, one, u, y)
  }

  /** What holds of no step, and of one more step if of the others, holds of n steps. */
  lemma {:induction false} IteratedMeans<T(!new)>(n: nat, one: (T, T) -> bool, many: (nat, T, T) -> bool, x: T, y: T)
    requires Iterated(n, one, x, y) && forall u :: many(0, u, u)
    requires forall i: nat, j: nat, u, v, w | j == i + 1 && one(u, v) && many(i, v, w) :: many(j, u, w)
    ensures many(n, x, y)
  {
    if n > 0 {
      var u :| one(x, u) && Iterated(n - 1, one, u, y);
      IteratedMeans(n - 1, one, many, u, y);
    }
  }

  lemma OneBefore<T(!new)>(first: bool, n: nat, m: nat, one: (T, T) -> bool, x: T, u: T, y: T)
    requires (if first then one(x, u) else x == u) && m == n + (if first then 1 else 0) && Iterated(n, one, u, y)
    ensures Iterated(m, one, x, y)
  {
  }

  /** One update, whatever it sets Enabled to. */
  ghost function Update(): (Trigger, Trigger) -> bool {
    (t: Trigger, u: Trigger) => Rewritten(t, u.enabled, u)
  }

  ghost function ManyUpdates(): (nat, Trigger, Trigger) -> bool {
    (n: nat, t: Trigger, u: Trigger) => RewrittenTimes(n, t, u)
  }

  lemma UpdatesIterate(n: nat, t: Trigger, t': Trigger)
    requires Iterated(n, Update(), t, t')
    ensures RewrittenTimes(n, t, t')
  {
    forall i: nat, j: nat, u: Trigger, v: Trigger, w: Trigger | j == i + 1 && Update()(u, v) && ManyUpdates()(i, v, w)
      ensures ManyUpdates()(j, u, w)
    {
      OneMore(i, j, u, v, w);
    }
    IteratedMeans(n, Update(), ManyUpdates(), t, t');
  }

  /** Over every run that does not delete it a trigger is what its successful PutTriggers
      make of it: after none it is as it was; after n, Enabled is what was set last, ids,
      type, dates and query are kept, the job's data is encoded once, and whatever is read
      of its condition is what n updates make of what could be read before. */
  lemma UpdatesOverRun(env: Env, s: State, steps: seq<Step>, s': State, t: Id)
    requires Integrity(env, s) && Runs(env, s, steps, s') && t in s.triggers && t in s'.triggers
    ensures RewrittenTimes(Updates(steps, t), s.triggers[t], s'.triggers[t])
    ensures s'.triggers[t].enabled == LastSet(steps, t, s.triggers[t].enabled)
  {
    IteratedOverRun(env, s, steps, s', t);
    UpdatesIterate(Updates(steps, t), s.triggers[t], s'.triggers[t]);
  }

  lemma {:induction false} IteratedOverRun(env: Env, s: State, steps: seq<Step>, s': State, t: Id)
    requires Integrity(env, s) && Runs(env, s, steps, s') && t in s.triggers && t in s'.triggers
    ensures Iterated(Updates(steps, t), Update(), s.triggers[t], s'.triggers[t])
    ensures s'.triggers[t].enabled == LastSet(steps, t, s.triggers[t].enabled)
    decreases |steps|
  {
    if steps != [] {
      var mid := FirstStep(env, s, steps, s', t);
      IteratedOverRun(env, mid, steps[1..], s', t);
      UpdatesAdd(steps, t, s.triggers[t], mid.triggers[t], s'.triggers[t]);
    }
  }

  /** The first step's effect on the trigger, and that of the others. */
  lemma UpdatesAdd(steps: seq<Step>, id: Id, t: Trigger, t1: Trigger, t': Trigger)
    requires steps != [] && StepResult(steps[0], id, t, t1)
    requires Iterated(Updates(steps[1..], id), Update(), t1, t') && t'.enabled == LastSet(steps[1..], id, t1.enabled)
    ensures Iterated(Updates(steps, id), Update(), t, t') && t'.enabled == LastSet(steps, id, t.enabled)
  {
    CountFirst(steps, id, t.enabled, t1.enabled);
    OneBefore(Puts(steps[0], id), Updates(steps[1..], id), Updates(steps, id), Update(), t, t1, t');
  }

  lemma CountFirst(steps: seq<Step>, id: Id, was: bool, enabled: bool)
    requires steps != [] && enabled == if Puts(steps[0], id) then steps[0].request.enabled else was
    ensures Updates(steps, id) == Updates(steps[1..], id) + if Puts(steps[0], id) then 1 else 0
    ensures LastSet(steps, id, was) == LastSet(steps[1..], id, enabled)
  {
  }

  ghost predicate StepResult(step: Step, id: Id, t: Trigger, t1: Trigger) {
    if Puts(step, id) then Rewritten(t, step.request.enabled, t1) else t1 == t
  }

  lemma FirstStep(env: Env, s: State, steps: seq<Step>, s': State, t: Id) returns (mid: State)
    requires Integrity(env, s) && steps != [] && Runs(env, s, steps, s') && t in s.triggers && t in s'.triggers
    ensures Integrity(env, mid) && Runs(env, mid, steps[1..], s') && t in mid.triggers
    ensures StepResult(steps[0], t, s.triggers[t], mid.triggers[t])
  {
    mid :| Takes(env, s, steps[0], mid) && Runs(env, mid, steps[1..], s');
    StepOnTrigger(env, s, steps[0], mid, steps[1..], s', t);
  }

  lemma StepOnTrigger(env: Env, s: State, step: Step, mid: State, rest: seq<Step>, s': State, t: Id)
    requires Integrity(env, s) && Takes(env, s, step, mid) && Runs(env, mid, rest, s')
    requires t in s.triggers && t in s'.triggers
    ensures Integrity(env, mid) && t in mid.triggers
    ensures StepResult(step, t, s.triggers[t], mid.triggers[t])
  {
    assert TriggerOk(s, t);
    TakesKeeps(env, s, step, mid);
    EndToEnd.GoneStaysGone(env, s, step, mid, t);
    if t !in mid.triggers { EndToEnd.GoneForRun(env, mid, rest, s', t); }
    if Puts(step, t) {
      PutRewrites(s, t, step.request.enabled, step.fails, mid);
    } else {
      OtherStep(env, s, step, mid, t);
    }
  }
}
