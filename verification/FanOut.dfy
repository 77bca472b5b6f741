/** The goroutines of Service.PostEvent (workflow/Service.go:756-853): one per matched
    trigger, their steps interleaved in any way, joined by a wait group. */
module FanOut {
  import opened Json
  import opened Records
  import JobTemplate

  /** What one call of PostEvent gives its goroutines: the stored event, its type, the
      data as the user posted it, the matched trigger ids and the trigger store. The text
      of a job and of a value are whatever json.Marshal and %v make of them. The code
      allows for a store that answers a read of a missing document quietly. */
  datatype Call = Call(
    event: Event,
    eventType: EventType,
    data: Fields,
    matches: seq<Id>,
    triggers: map<Id, Trigger>,
    jobText: JobRequest -> string,
    format: Json -> string,
    now: string,
    quietMiss: bool)

  datatype Message = Message(triggerId: Id, jobId: Id, body: string, createdBy: string)

  datatype Phase =
    | Waiting
    | Fetching
    | Filtering(trigger: Trigger)
    | Authorising(trigger: Trigger, jobId: Id)
    | Publishing(trigger: Trigger, jobId: Id)
    | Alerting(trigger: Trigger, jobId: Id)
    | Skipped
    | FailedBefore(status: Status)
    | Alerted(jobId: Id, alertId: Id)
    | FailedAfter(jobId: Id, status: Status)
  {
    predicate Running() {
      Fetching? || Filtering? || HasTrigger()
    }

    predicate HasTrigger() {
      Authorising? || Publishing? || Alerting?
    }

    predicate HasJob() {
      HasTrigger() || Alerted? || FailedAfter?
    }

    predicate HasPublished() {
      Alerting? || Alerted? || FailedAfter?
    }

    predicate HasFailed() {
      FailedBefore? || FailedAfter?
    }

    /** Steps this goroutine may still take, its launch included. */
    function StepsLeft(): nat {
      match this
      case Waiting => 6
      case Fetching => 5
      case Filtering(_) => 4
      case Authorising(_, _) => 3
      case Publishing(_, _) => 2
      case Alerting(_, _) => 1
      case _ => 0
    }
  }

  datatype Answer = ReadFailed | Missing | Found

  datatype Access = MarshalFailed | NoIdam | IdamFailed | Denied | Granted

  datatype Step =
    | Launch
    | Fetch(t: Id, answer: Answer)
    | Filter(t: Id, newId: Id)
    | Authorise(t: Id, access: Access)
    | Publish(t: Id, order: seq<string>, ok: bool)
    | PostAlert(t: Id, newId: Id, ok: bool)

  /** The shared state: how many goroutines are launched, the wait group's counter, the
      jobs sent, the alerts stored, the results map, the identifiers issued so far. */
  datatype State = State(
    launched: nat,
    counter: int,
    phases: map<Id, Phase>,
    published: seq<Message>,
    posted: seq<Alert>,
    results: map<Id, Status>,
    issued: set<Id>)

  predicate Eligible(call: Call, trigger: Trigger) {
    trigger.enabled && call.eventType.eventTypeId == trigger.eventTypeId
  }

  function Values(call: Call): JobTemplate.Values {
    map k | k in call.data :: call.format(call.data[k])
  }

  predicate At(call: Call, s: State, t: Id) {
    t in call.matches && t in s.phases
  }

  predicate Enabled(call: Call, s: State, step: Step) {
    match step
    case Launch => s.launched < |call.matches| && At(call, s, call.matches[s.launched])
    case Fetch(t, answer) =>
      At(call, s, t) && s.phases[t].Fetching?
      && (answer.Missing? ==> t !in call.triggers && call.quietMiss) && (answer.Found? ==> t in call.triggers)
    case Filter(t, newId) => At(call, s, t) && s.phases[t].Filtering? && newId !in s.issued
    case Authorise(t, _) => At(call, s, t) && s.phases[t].Authorising?
    case Publish(t, order, _) =>
      At(call, s, t) && s.phases[t].Publishing? && JobTemplate.IsOrdering(order, call.data.Keys)
    case PostAlert(t, newId, _) => At(call, s, t) && s.phases[t].Alerting? && newId !in s.issued
  }

  function Actor(call: Call, s: State, step: Step): Id
    requires Enabled(call, s, step)
  {
    if step.Launch? then call.matches[s.launched] else step.t
  }

  /** The goroutine's own next phase. */
  function NextPhase(call: Call, s: State, step: Step): Phase
    requires Enabled(call, s, step)
  {
    match step
    case Launch => Fetching
    case Fetch(t, answer) =>
      (match answer
       case ReadFailed => FailedBefore(BadRequest)
       case Missing => Skipped
       case Found => Filtering(call.triggers[t]))
    case Filter(t, newId) =>
      var trigger := s.phases[t].trigger;
      if !trigger.enabled then Skipped
      else if call.eventType.eventTypeId != trigger.eventTypeId then Skipped
      else Authorising(trigger, newId)
    case Authorise(t, access) =>
      (match access
       case MarshalFailed => FailedBefore(InternalError)
       case IdamFailed => FailedBefore(InternalError)
       case Denied => FailedBefore(Forbidden)
       case _ => Publishing(s.phases[t].trigger, s.phases[t].jobId))
    case Publish(t, _, ok) =>
      if ok then Alerting(s.phases[t].trigger, s.phases[t].jobId) else FailedBefore(InternalError)
    case PostAlert(t, newId, ok) =>
      if ok then Alerted(s.phases[t].jobId, newId) else FailedAfter(s.phases[t].jobId, InternalError)
  }

  function JobBody(call: Call, trigger: Trigger, order: seq<string>): string
    requires JobTemplate.IsOrdering(order, call.data.Keys)
  {
    JobTemplate.Sequential(call.jobText(trigger.job), Values(call), order)
  }

  function Sent(call: Call, s: State, step: Step): seq<Message>
    requires Enabled(call, s, step)
  {
    if step.Publish? && step.ok then
      var p := s.phases[step.t];
      [Message(step.t, p.jobId, JobBody(call, p.trigger, step.order), p.trigger.createdBy)]
    else []
  }

  function Raised(call: Call, s: State, step: Step): seq<Alert>
    requires Enabled(call, s, step)
  {
    if step.PostAlert? && step.ok then
      var p := s.phases[step.t];
      [Alert(step.newId, step.t, call.event.eventId, p.jobId, p.trigger.createdBy, call.now)]
    else []
  }

  function NewIds(step: Step): set<Id> {
    if step.Filter? || step.PostAlert? then {step.newId} else {}
  }

  function Next(call: Call, s: State, step: Step): State
    requires Enabled(call, s, step)
  {
    var t, phase := Actor(call, s, step), NextPhase(call, s, step);
    State(
      s.launched + (if step.Launch? then 1 else 0),
      s.counter + (if step.Launch? then 1 else 0) - (if phase.Running() then 0 else 1),
      s.phases[t := phase],
      s.published + Sent(call, s, step),
      s.posted + Raised(call, s, step),
      if phase.HasFailed() then s.results[t := phase.status] else s.results,
      s.issued + NewIds(step))
  }

  function Initial(call: Call, issued: set<Id>): State {
    State(0, 0, map t | t in call.matches :: Waiting, [], [], map[], issued)
  }

  /** waitGroup.Wait returns. */
  predicate Joined(call: Call, s: State) {
    s.launched == |call.matches| && s.counter == 0
  }

  ghost predicate Runs(call: Call, s: State, trace: seq<Step>, s': State)
    decreases |trace|
  {
    if trace == [] then s == s'
    else Enabled(call, s, trace[0]) && Runs(call, Next(call, s, trace[0]), trace[1..], s')
  }

  lemma {:induction false} RunsSnoc(call: Call, s: State, trace: seq<Step>, s': State, step: Step)
    requires Runs(call, s, trace, s') && Enabled(call, s', step)
    ensures Runs(call, s, trace + [step], Next(call, s', step))
    decreases |trace|
  {
    if trace == [] {
      assert [] + [step] == [step] && [step][1..] == [];
    } else {
      assert (trace + [step])[1..] == trace[1..] + [step];
      RunsSnoc(call, Next(call, s, trace[0]), trace[1..], s', step);
    }
  }
}
