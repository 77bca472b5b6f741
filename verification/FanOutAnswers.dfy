/** What each answer that a goroutine of PostEvent gets leads to, over every interleaving:
    which answers stop it, with what status, and which let its job and its alert through. */
module FanOutAnswers {
  import opened Records
  import opened FanOut
  import opened FanOutSafety
  import JobTemplate

  // ---------------------------------------------------------------- what a trace holds

  /** The user of the event type may create the job, or there is nobody to ask. */
  ghost predicate Permitted(trace: seq<Step>, t: Id) {
    Authorise(t, Granted) in trace || Authorise(t, NoIdam) in trace
  }

  /** The job was published, with success or not. */
  ghost predicate Published(trace: seq<Step>, t: Id, ok: bool) {
    exists order :: Publish(t, order, ok) in trace
  }

  ghost predicate AlertPosted(trace: seq<Step>, t: Id, ok: bool) {
    exists k :: PostAlert(t, k, ok) in trace
  }

  ghost predicate SomeFailure(trace: seq<Step>, t: Id) {
    || Fetch(t, ReadFailed) in trace || Authorise(t, MarshalFailed) in trace
    || Authorise(t, IdamFailed) in trace || Authorise(t, Denied) in trace
    || Published(trace, t, false) || AlertPosted(trace, t, false)
  }

  ghost predicate HasMessage(s: State, t: Id) {
    exists m :: m in s.published && m.triggerId == t
  }

  ghost predicate HasAlert(s: State, t: Id) {
    exists a :: a in s.posted && a.triggerId == t
  }

  /** A failure is recorded for the trigger, no job was sent for it and no alert raised. */
  ghost predicate Rejected(s: State, t: Id, status: Status) {
    t in s.results && s.results[t] == status && !HasMessage(s, t) && !HasAlert(s, t)
  }

  // ---------------------------------------------------------------- from an answer to the end

  lemma FinishedStays(call: Call, s: State, trace: seq<Step>, s': State, t: Id)
    requires JobTemplate.Distinct(call.matches) && Launching(call, s) && Runs(call, s, trace, s')
    requires t in s.phases && !s.phases[t].Running() && !s.phases[t].Waiting?
    ensures t in s'.phases && s'.phases[t] == s.phases[t]
    decreases |trace|
  {
    if trace != [] {
      StepOf(call, s, trace[0]);
      LaunchingKept(call, s, trace[0]);
      FinishedStays(call, Next(call, s, trace[0]), trace[1..], s', t);
    }
  }

  /** The state in which a step of the trace was taken. */
  lemma {:induction false} TakenAt(call: Call, s: State, trace: seq<Step>, s': State, step: Step)
    returns (at: State, rest: seq<Step>)
    requires JobTemplate.Distinct(call.matches) && Safe(call, s) && Runs(call, s, trace, s') && step in trace
    ensures Safe(call, at) && Enabled(call, at, step) && Runs(call, Next(call, at, step), rest, s')
    decreases |trace|
  {
    FirstOrLater(trace, step);
    if step == trace[0] {
      return s, trace[1..];
    }
    SafeKept(call, s, trace[0]);
    at, rest := TakenAt(call, Next(call, s, trace[0]), trace[1..], s', step);
  }

  /** What a failing answer, or a stored alert, makes of its goroutine. */
  ghost predicate LastPhase(step: Step, p: Phase) {
    && (step.Fetch? && step.answer.ReadFailed? ==> p == FailedBefore(BadRequest))
    && (step.Authorise? && step.access.Denied? ==> p == FailedBefore(Forbidden))
    && (step.Authorise? && (step.access.MarshalFailed? || step.access.IdamFailed?) ==> p == FailedBefore(InternalError))
    && (step.Publish? && !step.ok ==> p == FailedBefore(InternalError))
    && (step.PostAlert? && !step.ok ==> p.FailedAfter? && p.status == InternalError)
    && (step.PostAlert? && step.ok ==> p.Alerted?)
  }

  predicate Final(step: Step) {
    match step
    case Fetch(_, answer) => answer.ReadFailed?
    case Authorise(_, access) => access.Denied? || access.MarshalFailed? || access.IdamFailed?
    case Publish(_, _, ok) => !ok
    case PostAlert(_, _, _) => true
    case _ => false
  }

  lemma FinalPhase(call: Call, s: State, step: Step)
    requires Enabled(call, s, step) && Final(step)
    ensures LastPhase(step, NextPhase(call, s, step)) && !NextPhase(call, s, step).Running()
    ensures !NextPhase(call, s, step).Waiting?
            && Next(call, s, step).phases == s.phases[step.t := NextPhase(call, s, step)]
  {
  }

  /** A step that ends its goroutine fixes its last phase. */
  lemma LastStep(call: Call, issued: set<Id>, trace: seq<Step>, s: State, step: Step)
    requires JobTemplate.Distinct(call.matches) && Runs(call, Initial(call, issued), trace, s)
    requires step in trace && Final(step)
    ensures step.t in s.phases && LastPhase(step, s.phases[step.t])
  {
    InitiallySafe(call, issued);
    var at, rest := TakenAt(call, Initial(call, issued), trace, s, step);
    StepLasts(call, at, step, rest, s);
  }

  lemma StepLasts(call: Call, at: State, step: Step, rest: seq<Step>, s: State)
    requires JobTemplate.Distinct(call.matches) && Launching(call, at) && Enabled(call, at, step) && Final(step)
    requires Runs(call, Next(call, at, step), rest, s)
    ensures step.t in s.phases && LastPhase(step, s.phases[step.t])
  {
    FinalPhase(call, at, step);
    LaunchingKept(call, at, step);
    FinishedStays(call, Next(call, at, step), rest, s, step.t);
  }

  lemma PhaseRejects(call: Call, issued: set<Id>, trace: seq<Step>, s: State, t: Id)
    requires JobTemplate.Distinct(call.matches) && Runs(call, Initial(call, issued), trace, s)
    requires t in s.phases && s.phases[t].FailedBefore?
    ensures Rejected(s, t, s.phases[t].status)
  {
    EndsSafe(call, issued, trace, s);
    PublishedHasMessage(call, s, t);
    AlertedHasAlert(call, s, t);
  }

  lemma EndsSafe(call: Call, issued: set<Id>, trace: seq<Step>, s: State)
    requires JobTemplate.Distinct(call.matches) && Runs(call, Initial(call, issued), trace, s)
    ensures Safe(call, s)
  {
    InitiallySafe(call, issued);
    RunsSafe(call, Initial(call, issued), trace, s);
  }

  lemma ReadFailureRejects(call: Call, issued: set<Id>, trace: seq<Step>, s: State, t: Id)
    requires JobTemplate.Distinct(call.matches) && Runs(call, Initial(call, issued), trace, s)
    requires Fetch(t, ReadFailed) in trace
    ensures Rejected(s, t, BadRequest)
  {
    LastStep(call, issued, trace, s, Fetch(t, ReadFailed));
    PhaseRejects(call, issued, trace, s, t);
  }

  /** A refused authorisation: nothing is sent, and the answer is 403. */
  lemma DenialRejects(call: Call, issued: set<Id>, trace: seq<Step>, s: State, t: Id)
    requires JobTemplate.Distinct(call.matches) && Runs(call, Initial(call, issued), trace, s)
    requires Authorise(t, Denied) in trace
    ensures Rejected(s, t, Forbidden)
  {
    LastStep(call, issued, trace, s, Authorise(t, Denied));
    PhaseRejects(call, issued, trace, s, t);
  }

  lemma AuthoriseFailureRejects(call: Call, issued: set<Id>, trace: seq<Step>, s: State, t: Id)
    requires JobTemplate.Distinct(call.matches) && Runs(call, Initial(call, issued), trace, s)
    requires Authorise(t, MarshalFailed) in trace || Authorise(t, IdamFailed) in trace
    ensures Rejected(s, t, InternalError)
  {
    var access := if Authorise(t, MarshalFailed) in trace then MarshalFailed else IdamFailed;
    LastStep(call, issued, trace, s, Authorise(t, access));
    PhaseRejects(call, issued, trace, s, t);
  }

  lemma PublishFailureRejects(call: Call, issued: set<Id>, trace: seq<Step>, s: State, t: Id)
    requires JobTemplate.Distinct(call.matches) && Runs(call, Initial(call, issued), trace, s)
    requires Published(trace, t, false)
    ensures Rejected(s, t, InternalError)
  {
    var order :| Publish(t, order, false) in trace;
    LastStep(call, issued, trace, s, Publish(t, order, false));
    PhaseRejects(call, issued, trace, s, t);
  }

  /** A failed alert: the job is sent, no alert raised, and the answer is 500. */
  lemma AlertFailureRecorded(call: Call, issued: set<Id>, trace: seq<Step>, s: State, t: Id)
    requires JobTemplate.Distinct(call.matches) && Runs(call, Initial(call, issued), trace, s)
    requires AlertPosted(trace, t, false)
    ensures t in s.results && s.results[t] == InternalError && HasMessage(s, t) && !HasAlert(s, t)
  {
    var k :| PostAlert(t, k, false) in trace;
    LastStep(call, issued, trace, s, PostAlert(t, k, false));
    EndsSafe(call, issued, trace, s);
    PublishedHasMessage(call, s, t);
    AlertedHasAlert(call, s, t);
  }

  lemma PublishedHasMessage(call: Call, s: State, t: Id)
    requires Safe(call, s) && t in s.phases
    ensures HasMessage(s, t) <==> s.phases[t].HasPublished()
  {
    if s.phases[t].HasPublished() {
      assert SentFor(s, t);
      var i :| 0 <= i < |s.published| && s.published[i].triggerId == t;
      assert s.published[i] in s.published;
    }
    if HasMessage(s, t) {
      var m :| m in s.published && m.triggerId == t;
      var i :| 0 <= i < |s.published| && s.published[i] == m;
      assert s.published[i].triggerId in PublishedSet(s);
    }
  }

  lemma AlertedHasAlert(call: Call, s: State, t: Id)
    requires Safe(call, s) && t in s.phases
    ensures HasAlert(s, t) <==> s.phases[t].Alerted?
  {
    if s.phases[t].Alerted? {
      AlertFor(call, s, t);
    }
    if HasAlert(s, t) { OfAlerted(call, s, t); }
  }

  lemma OfAlerted(call: Call, s: State, t: Id)
    requires Alerts(call, s) && t in s.phases && HasAlert(s, t)
    ensures s.phases[t].Alerted?
  {
    var a :| a in s.posted && a.triggerId == t;
    var i :| 0 <= i < |s.posted| && s.posted[i] == a;
    assert AlertOk(call, s, s.posted[i]);
  }

  // ---------------------------------------------------------------- from the end to the answers

  predicate Passed(p: Phase) {
    p.Publishing? || p.HasPublished()
  }

  /** What a goroutine has got to, it was let to by an answer. */
  ghost predicate Explained(s: State, trace: seq<Step>, s': State, t: Id)
    requires t in s.phases && t in s'.phases
  {
    var p, q := s.phases[t], s'.phases[t];
    && (Passed(q) && !Passed(p) ==> Permitted(trace, t))
    && (q.HasPublished() && !p.HasPublished() ==> Published(trace, t, true))
    && (q.Alerted? && !p.Alerted? ==> AlertPosted(trace, t, true))
    && (q.HasFailed() && !p.HasFailed() ==> SomeFailure(trace, t))
  }

  lemma OwnMove(call: Call, s: State, step: Step)
    requires Enabled(call, s, step) && !step.Launch?
    ensures var p, q := s.phases[step.t], NextPhase(call, s, step);
            && (Passed(q) && !Passed(p) ==> step.Authorise? && (step.access.Granted? || step.access.NoIdam?))
            && (q.HasPublished() && !p.HasPublished() ==> step.Publish? && step.ok)
            && (q.Alerted? ==> step.PostAlert? && step.ok)
            && (q.HasFailed() ==> Final(step) && !(step.PostAlert? && step.ok))
  {
  }

  lemma FinalIsFailure(step: Step)
    requires !step.Launch? && Final(step) && !(step.PostAlert? && step.ok)
    ensures SomeFailure([step], step.t)
  {
    assert step in [step];
    match step {
      case Publish(t, order, ok) => assert Publish(t, order, false) in [step];
      case PostAlert(t, k, ok) => assert PostAlert(t, k, false) in [step];
      case _ =>
    }
  }

  lemma StepExplained(call: Call, s: State, step: Step, t: Id)
    requires JobTemplate.Distinct(call.matches) && Launching(call, s) && Enabled(call, s, step) && t in s.phases
    ensures t in Next(call, s, step).phases && Explained(s, [step], Next(call, s, step), t)
  {
    StepOf(call, s, step);
    if !step.Launch? && step.t == t {
      OwnMove(call, s, step);
      OwnStepExplained(s, step, Next(call, s, step), NextPhase(call, s, step));
    }
  }

  lemma OwnStepExplained(s: State, step: Step, s': State, q: Phase)
    requires !step.Launch? && step.t in s.phases && s'.phases == s.phases[step.t := q]
    requires var p := s.phases[step.t];
             && (Passed(q) && !Passed(p) ==> step.Authorise? && (step.access.Granted? || step.access.NoIdam?))
             && (q.HasPublished() && !p.HasPublished() ==> step.Publish? && step.ok)
             && (q.Alerted? ==> step.PostAlert? && step.ok)
             && (q.HasFailed() ==> Final(step) && !(step.PostAlert? && step.ok))
    ensures Explained(s, [step], s', step.t)
  {
    assert step in [step];
    if q.HasFailed() { FinalIsFailure(step); }
    if step.Publish? && step.ok { assert Publish(step.t, step.order, true) in [step]; }
    if step.PostAlert? && step.ok { assert PostAlert(step.t, step.newId, true) in [step]; }
  }

  lemma MoreTrace(trace: seq<Step>, t: Id, ok: bool)
    requires trace != []
    ensures Permitted(trace, t) <==> Permitted([trace[0]], t) || Permitted(trace[1..], t)
    ensures Published(trace, t, ok) <==> Published([trace[0]], t, ok) || Published(trace[1..], t, ok)
    ensures AlertPosted(trace, t, ok) <==> AlertPosted([trace[0]], t, ok) || AlertPosted(trace[1..], t, ok)
  {
    assert trace == [trace[0]] + trace[1..];
  }

  lemma MoreFailures(trace: seq<Step>, t: Id)
    requires trace != []
    ensures SomeFailure(trace, t) <==> SomeFailure([trace[0]], t) || SomeFailure(trace[1..], t)
  {
    MoreTrace(trace, t, false);
    assert trace == [trace[0]] + trace[1..];
  }

  lemma {:induction false} TraceExplains(call: Call, s: State, trace: seq<Step>, s': State, t: Id)
    requires JobTemplate.Distinct(call.matches) && Launching(call, s) && Runs(call, s, trace, s') && t in s.phases
    ensures t in s'.phases && Explained(s, trace, s', t)
    decreases |trace|
  {
    if trace != [] {
      var next := Next(call, s, trace[0]);
      StepExplained(call, s, trace[0], t);
      LaunchingKept(call, s, trace[0]);
      TraceExplains(call, next, trace[1..], s', t);
      MoreTrace(trace, t, true);
      MoreFailures(trace, t);
    }
  }

  /** What answers a goroutine had by the time it is at some phase. */
  lemma Answered(call: Call, issued: set<Id>, trace: seq<Step>, s: State, t: Id)
    requires JobTemplate.Distinct(call.matches) && Runs(call, Initial(call, issued), trace, s) && t in call.matches
    ensures t in s.phases
    ensures s.phases[t].HasPublished() ==> Permitted(trace, t) && Published(trace, t, true)
    ensures s.phases[t].Alerted? ==> AlertPosted(trace, t, true)
    ensures s.phases[t].HasFailed() ==> SomeFailure(trace, t)
  {
    InitiallySafe(call, issued);
    assert t in Initial(call, issued).phases;
    TraceExplains(call, Initial(call, issued), trace, s, t);
  }

  // ---------------------------------------------------------------- the theorems

  lemma PublicationLasts(call: Call, s: State, trace: seq<Step>, s': State, t: Id)
    requires JobTemplate.Distinct(call.matches) && Launching(call, s) && Runs(call, s, trace, s')
    requires t in s.phases && s.phases[t].HasPublished()
    ensures t in s'.phases && s'.phases[t].HasPublished()
    decreases |trace|
  {
    if trace != [] {
      JobKept(call, s, trace[0]);
      LaunchingKept(call, s, trace[0]);
      PublicationLasts(call, Next(call, s, trace[0]), trace[1..], s', t);
    }
  }

  /** A job is sent for a match if and only if its creation was permitted, or nobody could
      be asked, and its publication worked. */
  lemma MessageMeansPermitted(call: Call, issued: set<Id>, trace: seq<Step>, s: State, t: Id)
    requires JobTemplate.Distinct(call.matches) && Runs(call, Initial(call, issued), trace, s) && t in call.matches
    ensures HasMessage(s, t) <==> Permitted(trace, t) && Published(trace, t, true)
  {
    EndsSafe(call, issued, trace, s);
    Answered(call, issued, trace, s, t);
    PublishedHasMessage(call, s, t);
    if Published(trace, t, true) {
      var order :| Publish(t, order, true) in trace;
      InitiallySafe(call, issued);
      var at, rest := TakenAt(call, Initial(call, issued), trace, s, Publish(t, order, true));
      LaunchingKept(call, at, Publish(t, order, true));
      PublicationLasts(call, Next(call, at, Publish(t, order, true)), rest, s, t);
    }
  }

  /** An alert is raised for a match if and only if its storing worked. */
  lemma AlertMeansStored(call: Call, issued: set<Id>, trace: seq<Step>, s: State, t: Id)
    requires JobTemplate.Distinct(call.matches) && Runs(call, Initial(call, issued), trace, s) && t in call.matches
    ensures HasAlert(s, t) <==> AlertPosted(trace, t, true)
  {
    if AlertPosted(trace, t, true) {
      var k :| PostAlert(t, k, true) in trace;
      LastStep(call, issued, trace, s, PostAlert(t, k, true));
    }
    Answered(call, issued, trace, s, t);
    EndsSafe(call, issued, trace, s);
    AlertedHasAlert(call, s, t);
  }

  /** A failure is recorded for a match if and only if one of its answers was a failure. */
  lemma FailureMeansAnswer(call: Call, issued: set<Id>, trace: seq<Step>, s: State, t: Id)
    requires JobTemplate.Distinct(call.matches) && Runs(call, Initial(call, issued), trace, s) && t in call.matches
    ensures t in s.results <==> SomeFailure(trace, t)
  {
    if SomeFailure(trace, t) { FailureRecorded(call, issued, trace, s, t); }
    Answered(call, issued, trace, s, t);
    EndsSafe(call, issued, trace, s);
  }

  lemma FailureRecorded(call: Call, issued: set<Id>, trace: seq<Step>, s: State, t: Id)
    requires JobTemplate.Distinct(call.matches) && Runs(call, Initial(call, issued), trace, s)
    requires SomeFailure(trace, t)
    ensures t in s.results
  {
    if Fetch(t, ReadFailed) in trace {
      ReadFailureRejects(call, issued, trace, s, t);
    } else if Authorise(t, Denied) in trace {
      DenialRejects(call, issued, trace, s, t);
    } else if Authorise(t, MarshalFailed) in trace || Authorise(t, IdamFailed) in trace {
      AuthoriseFailureRejects(call, issued, trace, s, t);
    } else if Published(trace, t, false) {
      PublishFailureRejects(call, issued, trace, s, t);
    } else {
      AlertFailureRecorded(call, issued, trace, s, t);
    }
  }

  /** An answer that the match had explains the status. */
  ghost predicate Explains(trace: seq<Step>, t: Id, status: Status) {
    || (status == BadRequest && Fetch(t, ReadFailed) in trace)
    || (status == Forbidden && Authorise(t, Denied) in trace)
    || (&& status == InternalError
        && (Authorise(t, MarshalFailed) in trace || Authorise(t, IdamFailed) in trace
            || Published(trace, t, false) || AlertPosted(trace, t, false)))
  }

  /** A recorded failure has the status of the answer that failed. */
  lemma FailureExplained(call: Call, issued: set<Id>, trace: seq<Step>, s: State, t: Id)
    requires JobTemplate.Distinct(call.matches) && Runs(call, Initial(call, issued), trace, s) && t in s.results
    ensures t in call.matches && Explains(trace, t, s.results[t])
  {
    FailedMatch(call, issued, trace, s, t);
    FailureMeansAnswer(call, issued, trace, s, t);
    if Fetch(t, ReadFailed) in trace {
      ReadFailureRejects(call, issued, trace, s, t);
    } else if Authorise(t, Denied) in trace {
      DenialRejects(call, issued, trace, s, t);
    } else if Authorise(t, MarshalFailed) in trace || Authorise(t, IdamFailed) in trace {
      AuthoriseFailureRejects(call, issued, trace, s, t);
    } else if Published(trace, t, false) {
      PublishFailureRejects(call, issued, trace, s, t);
    } else {
      AlertFailureRecorded(call, issued, trace, s, t);
    }
  }

  lemma FailedMatch(call: Call, issued: set<Id>, trace: seq<Step>, s: State, t: Id)
    requires JobTemplate.Distinct(call.matches) && Runs(call, Initial(call, issued), trace, s) && t in s.results
    ensures t in call.matches
  {
    EndsSafe(call, issued, trace, s);
    assert t in s.phases.Keys;
  }

  /** The trace leads to s, and its answers say what s holds: which matches had their job
      sent and their alert raised, and which failed, with what status. */
  ghost predicate AnswersTell(call: Call, issued: set<Id>, trace: seq<Step>, s: State) {
    && Runs(call, Initial(call, issued), trace, s)
    && (forall t | t in call.matches :: HasMessage(s, t) <==> Permitted(trace, t) && Published(trace, t, true))
    && (forall t | t in call.matches :: HasAlert(s, t) <==> AlertPosted(trace, t, true))
    && (forall t | t in call.matches :: t in s.results <==> SomeFailure(trace, t))
    && (forall t | t in s.results :: t in call.matches && Explains(trace, t, s.results[t]))
  }

  lemma TraceTells(call: Call, issued: set<Id>, trace: seq<Step>, s: State)
    requires JobTemplate.Distinct(call.matches) && Runs(call, Initial(call, issued), trace, s)
    ensures AnswersTell(call, issued, trace, s)
  {
    forall t | t in call.matches ensures HasMessage(s, t) <==> Permitted(trace, t) && Published(trace, t, true) {
      MessageMeansPermitted(call, issued, trace, s, t);
    }
    forall t | t in call.matches ensures HasAlert(s, t) <==> AlertPosted(trace, t, true) {
      AlertMeansStored(call, issued, trace, s, t);
    }
    forall t | t in call.matches ensures t in s.results <==> SomeFailure(trace, t) {
      FailureMeansAnswer(call, issued, trace, s, t);
    }
    forall t | t in s.results ensures t in call.matches && Explains(trace, t, s.results[t]) {
      FailureExplained(call, issued, trace, s, t);
    }
  }
}
