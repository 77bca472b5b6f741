/** The goroutines always reach the join, and what PostEvent answers then. */
module FanOutJoin {
  import opened Records
  import opened FanOut
  import opened FanOutSafety
  import FanOutAnswers
  import JobTemplate

  // ---------------------------------------------------------------- identifiers

  /** newIdent can always find an unused identifier. */
  lemma FreshId(issued: set<Id>) returns (id: Id)
    ensures id !in issued
  {
    id := LongerThanAll(issued);
  }

  lemma LongerThanAll(ids: set<Id>) returns (id: Id)
    ensures forall i | i in ids :: |i| < |id|
    decreases |ids|
  {
    if ids == {} {
      return "";
    }
    var i :| i in ids;
    var rest := LongerThanAll(ids - {i});
    id := if |i| < |rest| then rest else i + "0";
  }

  // ---------------------------------------------------------------- termination

  function Work(phases: map<Id, Phase>, matches: seq<Id>): nat
    requires forall t | t in matches :: t in phases
  {
    if matches == [] then 0 else phases[matches[0]].StepsLeft() + Work(phases, matches[1..])
  }

  lemma {:induction false} WorkFrame(phases: map<Id, Phase>, matches: seq<Id>, t: Id, p: Phase)
    requires (forall u | u in matches :: u in phases) && t !in matches
    ensures Work(phases[t := p], matches) == Work(phases, matches)
    decreases |matches|
  {
    if matches != [] { WorkFrame(phases, matches[1..], t, p); }
  }

  lemma {:induction false} WorkDone(phases: map<Id, Phase>, matches: seq<Id>, t: Id, p: Phase)
    requires (forall u | u in matches :: u in phases) && t in matches && JobTemplate.Distinct(matches)
    ensures Work(phases[t := p], matches) == Work(phases, matches) - phases[t].StepsLeft() + p.StepsLeft()
    decreases |matches|
  {
    if matches[0] == t {
      assert forall i | 1 <= i < |matches| :: matches[i] == matches[1..][i - 1];
      WorkFrame(phases, matches[1..], t, p);
    } else {
      WorkDone(phases, matches[1..], t, p);
    }
  }

  /** Every step leaves less to do, so every interleaving ends. */
  lemma StepWorks(call: Call, s: State, step: Step)
    requires JobTemplate.Distinct(call.matches) && Launching(call, s) && Enabled(call, s, step)
    ensures forall t | t in call.matches :: t in s.phases
    ensures Work(Next(call, s, step).phases, call.matches) < Work(s.phases, call.matches)
  {
    var t, p := Actor(call, s, step), NextPhase(call, s, step);
    StepOf(call, s, step);
    assert p.StepsLeft() < s.phases[t].StepsLeft();
    WorkDone(s.phases, call.matches, t, p);
  }

  /** A goroutine that has not finished has a step to take: none waits for another. */
  lemma RunningCanStep(call: Call, s: State, t: Id) returns (step: Step)
    requires t in call.matches && t in s.phases && s.phases[t].Running()
    requires PhaseOk(call, t, s.phases[t])
    ensures Enabled(call, s, step)
  {
    var id := FreshId(s.issued);
    match s.phases[t] {
      case Fetching => step := Fetch(t, ReadFailed);
      case Filtering(_) => step := Filter(t, id);
      case Authorising(_, _) => step := Authorise(t, Granted);
      case Publishing(_, _) =>
        var order := JobTemplate.SomeOrdering(call.data.Keys);
        step := Publish(t, order, true);
      case _ => step := PostAlert(t, id, true);
    }
  }

  /** Until the join returns some step can be taken. */
  lemma NotStuck(call: Call, s: State) returns (step: Step)
    requires Launching(call, s) && Phases(call, s) && !Joined(call, s)
    ensures Enabled(call, s, step)
  {
    if s.launched < |call.matches| {
      assert call.matches[s.launched] in s.phases.Keys;
      return Launch;
    }
    var t :| t in Running(s);
    step := RunningCanStep(call, s, t);
  }

  // ---------------------------------------------------------------- the whole fan-out

  /** The part of PostEvent from the launches to the inspection of the results: some
      schedule of the goroutines, up to the join, whose outcome the answers that each had
      explain. The answer is a recorded error if there is one. */
  method RunGoroutines(call: Call, issued: set<Id>) returns (s: State, error: bool, status: Status)
    requires JobTemplate.Distinct(call.matches)
    ensures Reachable(call, issued, s) && Joined(call, s)
    ensures exists trace :: FanOutAnswers.AnswersTell(call, issued, trace, s)
    ensures error <==> s.results != map[]
    ensures error ==> exists t :: t in s.results && status == s.results[t]
  {
    s := Initial(call, issued);
    ghost var trace: seq<Step> := [];
    InitiallySafe(call, issued);
    while !Joined(call, s)
      invariant Safe(call, s) && Runs(call, Initial(call, issued), trace, s)
      invariant forall t | t in call.matches :: t in s.phases
      decreases Work(s.phases, call.matches)
    {
      ghost var possible := NotStuck(call, s);
      var step :| Enabled(call, s, step);
      StepWorks(call, s, step);
      SafeKept(call, s, step);
      RunsSnoc(call, Initial(call, issued), trace, s, step);
      trace := trace + [step];
      s := Next(call, s, step);
    }
    FanOutAnswers.TraceTells(call, issued, trace, s);
    error := s.results != map[];
    if error {
      var t :| t in s.results;
      status := s.results[t];
    } else {
      status := Created;
    }
  }

  /** PostEvent answers 201 exactly when every matched trigger was rightly skipped or
      raised its alert. */
  lemma CreatedMeansAllHandled(call: Call, issued: set<Id>, s: State)
    requires JobTemplate.Distinct(call.matches) && Reachable(call, issued, s) && Joined(call, s)
    ensures s.results == map[] <==>
            forall t | t in call.matches ::
              (t in call.triggers && Eligible(call, call.triggers[t])) == (t in AlertedSet(s))
              && (t !in AlertedSet(s) ==> t in SkippedSet(s))
  {
    ReachableSafe(call, issued, s);
    AllFinished(call, s);
    forall t | t in s.results ensures t in call.matches { assert t in s.phases.Keys; }
    if s.results == map[] {
      forall t | t in call.matches ensures t in AlertedSet(s) || t in SkippedSet(s) {
        assert t in s.phases.Keys && t !in s.results;
      }
    }
  }
}
