/** What every interleaving of the goroutines of PostEvent keeps, and what the join
    leaves. */
module FanOutSafety {
  import opened Records
  import opened FanOut
  import JobTemplate

  ghost function Running(s: State): set<Id> {
    set t | t in s.phases && s.phases[t].Running()
  }

  ghost function SkippedSet(s: State): set<Id> {
    set t | t in s.phases && s.phases[t].Skipped?
  }

  ghost function FailedBeforeSet(s: State): set<Id> {
    set t | t in s.phases && s.phases[t].FailedBefore?
  }

  ghost function AlertedSet(s: State): set<Id> {
    set t | t in s.phases && s.phases[t].Alerted?
  }

  ghost function FailedAfterSet(s: State): set<Id> {
    set t | t in s.phases && s.phases[t].FailedAfter?
  }

  ghost function PublishedSet(s: State): set<Id> {
    set t | t in s.phases && s.phases[t].HasPublished()
  }

  // ---------------------------------------------------------------- the invariant

  /** One goroutine per match, launched in the order of the matches, the wait group
      counting those that run. */
  ghost predicate Launching(call: Call, s: State) {
    && s.phases.Keys == (set t | t in call.matches)
    && s.launched <= |call.matches|
    && (forall i | 0 <= i < |call.matches| :: s.phases[call.matches[i]].Waiting? <==> s.launched <= i)
    && s.counter == |Running(s)|
  }

  /** A goroutine works on its own trigger; past the filter the trigger is enabled and
      of the event's type; it skips only if there is no such trigger. */
  ghost predicate PhaseOk(call: Call, t: Id, p: Phase) {
    match p
    case Filtering(trigger) => t in call.triggers && trigger == call.triggers[t]
    case Authorising(trigger, _) => t in call.triggers && trigger == call.triggers[t] && Eligible(call, trigger)
    case Publishing(trigger, _) => t in call.triggers && trigger == call.triggers[t] && Eligible(call, trigger)
    case Alerting(trigger, _) => t in call.triggers && trigger == call.triggers[t] && Eligible(call, trigger)
    case Alerted(_, _) => t in call.triggers && Eligible(call, call.triggers[t])
    case FailedAfter(_, _) => t in call.triggers && Eligible(call, call.triggers[t])
    case Skipped => !(t in call.triggers && Eligible(call, call.triggers[t]))
    case _ => true
  }

  ghost predicate Phases(call: Call, s: State) {
    forall t | t in s.phases :: PhaseOk(call, t, s.phases[t])
  }

  /** No two goroutines share a job id. */
  ghost predicate JobIds(s: State) {
    && (forall t | t in s.phases && s.phases[t].HasJob() :: s.phases[t].jobId in s.issued)
    && (forall t, u | t in s.phases && u in s.phases && t != u && s.phases[t].HasJob() && s.phases[u].HasJob() ::
          s.phases[t].jobId != s.phases[u].jobId)
  }

  /** The message is the job of its goroutine, substituted in some order of the keys. */
  ghost predicate MessageOk(call: Call, s: State, m: Message) {
    && m.triggerId in s.phases && s.phases[m.triggerId].HasPublished()
    && m.jobId == s.phases[m.triggerId].jobId
    && m.triggerId in call.triggers
    && var trigger := call.triggers[m.triggerId];
       && Eligible(call, trigger) && m.createdBy == trigger.createdBy
       && exists order :: JobTemplate.IsOrdering(order, call.data.Keys) && m.body == JobBody(call, trigger, order)
  }

  ghost predicate SentFor(s: State, t: Id) {
    exists i | 0 <= i < |s.published| :: s.published[i].triggerId == t
  }

  /** The queue holds one message per goroutine that has published. */
  ghost predicate Queue(call: Call, s: State) {
    Messages(call, s) && OneMessageEach(s)
  }

  ghost predicate Messages(call: Call, s: State) {
    forall i | 0 <= i < |s.published| :: MessageOk(call, s, s.published[i])
  }

  ghost predicate OneMessageEach(s: State) {
    && (forall i | 0 <= i < |s.published| :: s.published[i].triggerId in PublishedSet(s))
    && (forall i, j | 0 <= i < j < |s.published| :: s.published[i].triggerId != s.published[j].triggerId)
    && (forall t | t in s.phases && s.phases[t].HasPublished() :: SentFor(s, t))
    && |s.published| == |PublishedSet(s)|
  }

  ghost predicate AlertOk(call: Call, s: State, a: Alert) {
    && a.triggerId in s.phases && s.phases[a.triggerId] == Alerted(a.jobId, a.alertId)
    && a.eventId == call.event.eventId && a.alertId in s.issued
    && a.triggerId in call.triggers && a.createdBy == call.triggers[a.triggerId].createdBy
  }

  /** The alert store gained one alert per goroutine that has alerted. */
  ghost predicate Alerts(call: Call, s: State) {
    && (forall i | 0 <= i < |s.posted| :: AlertOk(call, s, s.posted[i]))
    && (forall i, j | 0 <= i < j < |s.posted| ::
          s.posted[i].triggerId != s.posted[j].triggerId && s.posted[i].alertId != s.posted[j].alertId)
    && |s.posted| == |AlertedSet(s)|
  }

  ghost predicate Results(s: State) {
    && (forall t :: t in s.results <==> t in s.phases && s.phases[t].HasFailed())
    && (forall t | t in s.results :: s.results[t] == s.phases[t].status)
  }

  ghost predicate Safe(call: Call, s: State) {
    Launching(call, s) && Phases(call, s) && JobIds(s) && Queue(call, s) && Alerts(call, s) && Results(s)
  }

  // ---------------------------------------------------------------- one step

  /** What the other lemmas need of a step: one goroutine moves on. */
  lemma StepOf(call: Call, s: State, step: Step)
    requires JobTemplate.Distinct(call.matches) && Launching(call, s) && Enabled(call, s, step)
    ensures var t, p := Actor(call, s, step), NextPhase(call, s, step);
            && t in s.phases && !p.Waiting?
            && (s.phases[t].Waiting? <==> step.Launch?)
            && (s.phases[t].Running() <==> !step.Launch?)
  {
  }

  lemma LaunchingKept(call: Call, s: State, step: Step)
    requires JobTemplate.Distinct(call.matches) && Launching(call, s) && Enabled(call, s, step)
    ensures Launching(call, Next(call, s, step))
  {
    StepOf(call, s, step);
    var s', t, p := Next(call, s, step), Actor(call, s, step), NextPhase(call, s, step);
    assert s'.phases.Keys == s.phases.Keys;
    RunningAfter(s, s', t, p);
    LaunchOrder(call, s, s', t, p, step.Launch?);
  }

  lemma RunningAfter(s: State, s': State, t: Id, p: Phase)
    requires t in s.phases && s'.phases == s.phases[t := p]
    ensures |Running(s')| == |Running(s)| - (if s.phases[t].Running() then 1 else 0) + if p.Running() then 1 else 0
  {
    var others := Running(s) - {t};
    assert Running(s) == if s.phases[t].Running() then others + {t} else others;
    assert Running(s') == if p.Running() then others + {t} else others;
  }

  lemma LaunchOrder(call: Call, s: State, s': State, t: Id, p: Phase, launch: bool)
    requires JobTemplate.Distinct(call.matches) && Launching(call, s) && t in s.phases && !p.Waiting?
    requires s'.phases == s.phases[t := p] && s'.launched == s.launched + if launch then 1 else 0
    requires launch ==> s.launched < |call.matches| && t == call.matches[s.launched]
    requires !launch ==> !s.phases[t].Waiting?
    ensures forall i | 0 <= i < |call.matches| :: s'.phases[call.matches[i]].Waiting? <==> s'.launched <= i
  {
  }

  lemma PhasesKept(call: Call, s: State, step: Step)
    requires Phases(call, s) && Enabled(call, s, step)
    ensures Phases(call, Next(call, s, step))
  {
  }

  lemma JobIdsKept(call: Call, s: State, step: Step)
    requires JobIds(s) && Enabled(call, s, step)
    ensures JobIds(Next(call, s, step))
  {
    var s', t, p := Next(call, s, step), Actor(call, s, step), NextPhase(call, s, step);
    if p.HasJob() && !step.Filter? {
      assert s.phases[t].HasJob() && p.jobId == s.phases[t].jobId;
    }
  }

  lemma ResultsKept(call: Call, s: State, step: Step)
    requires Results(s) && Enabled(call, s, step)
    requires var t := Actor(call, s, step); t in s.phases && !s.phases[t].HasFailed()
    ensures Results(Next(call, s, step))
  {
  }

  /** Once sent, a goroutine's job keeps its id. */
  lemma JobKept(call: Call, s: State, step: Step)
    requires JobTemplate.Distinct(call.matches) && Launching(call, s) && Enabled(call, s, step)
    ensures var t, p := Actor(call, s, step), NextPhase(call, s, step);
            t in s.phases && (s.phases[t].HasPublished() ==> p.HasPublished() && p.jobId == s.phases[t].jobId)
  {
    StepOf(call, s, step);
  }

  lemma MessageKept(call: Call, s: State, s': State, t: Id, p: Phase, m: Message)
    requires t in s.phases && s'.phases == s.phases[t := p] && MessageOk(call, s, m)
    requires s.phases[t].HasPublished() ==> p.HasPublished() && p.jobId == s.phases[t].jobId
    ensures MessageOk(call, s', m)
  {
  }

  /** Only a successful publication makes a goroutine one that has published, and only a
      stored alert one that has alerted. */
  lemma PhaseMoves(call: Call, s: State, step: Step)
    requires JobTemplate.Distinct(call.matches) && Launching(call, s) && Enabled(call, s, step)
    ensures var t, p := Actor(call, s, step), NextPhase(call, s, step);
            && t in s.phases && !s.phases[t].Alerted?
            && (step.Publish? && step.ok ==> !s.phases[t].HasPublished() && p.HasPublished())
            && (!(step.Publish? && step.ok) ==> p.HasPublished() == s.phases[t].HasPublished())
            && (p.Alerted? <==> step.PostAlert? && step.ok)
  {
    StepOf(call, s, step);
  }

  lemma PublishedAfter(s: State, s': State, t: Id, p: Phase)
    requires t in s.phases && s'.phases == s.phases[t := p]
    ensures PublishedSet(s') == if p.HasPublished() then PublishedSet(s) + {t} else PublishedSet(s) - {t}
    ensures AlertedSet(s') == if p.Alerted? then AlertedSet(s) + {t} else AlertedSet(s) - {t}
  {
  }

  lemma PublishedMore(call: Call, s: State, step: Step)
    requires JobTemplate.Distinct(call.matches) && Launching(call, s) && Enabled(call, s, step)
    ensures var s', t := Next(call, s, step), Actor(call, s, step);
            if step.Publish? && step.ok then
              t !in PublishedSet(s) && PublishedSet(s') == PublishedSet(s) + {t}
            else PublishedSet(s') == PublishedSet(s)
  {
    PhaseMoves(call, s, step);
    PublishedAfter(s, Next(call, s, step), Actor(call, s, step), NextPhase(call, s, step));
  }

  lemma MessagesKept(call: Call, s: State, step: Step)
    requires JobTemplate.Distinct(call.matches) && Launching(call, s) && Phases(call, s) && Messages(call, s)
    requires Enabled(call, s, step)
    ensures Messages(call, Next(call, s, step))
  {
    var s', t, p := Next(call, s, step), Actor(call, s, step), NextPhase(call, s, step);
    JobKept(call, s, step);
    forall i | 0 <= i < |s.published| ensures MessageOk(call, s', s.published[i]) {
      MessageKept(call, s, s', t, p, s.published[i]);
    }
    if step.Publish? && step.ok {
      var m := Sent(call, s, step)[0];
      assert PhaseOk(call, t, s.phases[t]);
      assert m.body == JobBody(call, call.triggers[t], step.order);
      assert MessageOk(call, s', m);
    }
  }

  lemma SentKept(s: State, s': State, sent: seq<Message>, u: Id)
    requires s'.published == s.published + sent
    requires SentFor(s, u) || exists i | 0 <= i < |sent| :: sent[i].triggerId == u
    ensures SentFor(s', u)
  {
    if SentFor(s, u) {
      var i :| 0 <= i < |s.published| && s.published[i].triggerId == u;
      assert s'.published[i].triggerId == u;
    } else {
      var i :| 0 <= i < |sent| && sent[i].triggerId == u;
      assert s'.published[|s.published| + i].triggerId == u;
    }
  }

  lemma OneMessageKept(call: Call, s: State, step: Step)
    requires JobTemplate.Distinct(call.matches) && Launching(call, s) && OneMessageEach(s) && Enabled(call, s, step)
    ensures OneMessageEach(Next(call, s, step))
  {
    var s', t, sent := Next(call, s, step), Actor(call, s, step), Sent(call, s, step);
    PublishedMore(call, s, step);
    OneMessageMore(s, s', sent, t);
  }

  lemma OneMessageMore(s: State, s': State, sent: seq<Message>, t: Id)
    requires OneMessageEach(s) && s'.published == s.published + sent && |sent| <= 1
    requires sent == [] ==> PublishedSet(s') == PublishedSet(s)
    requires sent != [] ==> t !in PublishedSet(s) && PublishedSet(s') == PublishedSet(s) + {t} && sent[0].triggerId == t
    ensures OneMessageEach(s')
  {
    if sent == [] {
      assert s'.published == s.published;
      NoMessageMore(s, s');
    } else {
      assert sent == [sent[0]];
      AnotherMessage(s, s', sent[0]);
    }
  }

  lemma NoMessageMore(s: State, s': State)
    requires OneMessageEach(s) && s'.published == s.published && PublishedSet(s') == PublishedSet(s)
    ensures OneMessageEach(s')
  {
    forall u | u in s'.phases && s'.phases[u].HasPublished() ensures SentFor(s', u) {
      assert u in PublishedSet(s);
      SentKept(s, s', [], u);
    }
  }

  lemma AnotherMessage(s: State, s': State, m: Message)
    requires OneMessageEach(s) && s'.published == s.published + [m]
    requires m.triggerId !in PublishedSet(s) && PublishedSet(s') == PublishedSet(s) + {m.triggerId}
    ensures OneMessageEach(s')
  {
    OneEach(s.published, [m], PublishedSet(s));
    EachSent(s.published, m, PublishedSet(s), PublishedSet(s'));
    SentSet(s, s', [m], m.triggerId);
  }

  lemma EachSent(published: seq<Message>, m: Message, ids: set<Id>, ids': set<Id>)
    requires m.triggerId !in ids && ids' == ids + {m.triggerId} && |published| == |ids|
    requires forall i | 0 <= i < |published| :: published[i].triggerId in ids
    ensures var all := published + [m]; |all| == |ids'| && forall i | 0 <= i < |all| :: all[i].triggerId in ids'
  {
  }

  lemma SentSet(s: State, s': State, sent: seq<Message>, t: Id)
    requires forall u | u in PublishedSet(s) :: SentFor(s, u)
    requires s'.published == s.published + sent
    requires sent == [] ==> PublishedSet(s') == PublishedSet(s)
    requires sent != [] ==> PublishedSet(s') == PublishedSet(s) + {t} && sent[0].triggerId == t
    ensures forall u | u in s'.phases && s'.phases[u].HasPublished() :: SentFor(s', u)
  {
    forall u | u in s'.phases && s'.phases[u].HasPublished() ensures SentFor(s', u) {
      assert u in PublishedSet(s');
      SentKept(s, s', sent, u);
    }
  }

  lemma OneEach(published: seq<Message>, sent: seq<Message>, ids: set<Id>)
    requires forall i, j | 0 <= i < j < |published| :: published[i].triggerId != published[j].triggerId
    requires forall i | 0 <= i < |published| :: published[i].triggerId in ids
    requires |sent| <= 1 && forall m | m in sent :: m.triggerId !in ids
    ensures var all := published + sent;
            forall i, j | 0 <= i < j < |all| :: all[i].triggerId != all[j].triggerId
  {
  }

  lemma AlertedMore(call: Call, s: State, step: Step)
    requires JobTemplate.Distinct(call.matches) && Launching(call, s) && Enabled(call, s, step)
    ensures var s', t := Next(call, s, step), Actor(call, s, step);
            t !in AlertedSet(s) && AlertedSet(s') ==
              if step.PostAlert? && step.ok then AlertedSet(s) + {t} else AlertedSet(s)
  {
    PhaseMoves(call, s, step);
    PublishedAfter(s, Next(call, s, step), Actor(call, s, step), NextPhase(call, s, step));
  }

  lemma AlertOkKept(call: Call, s: State, s': State, t: Id, p: Phase, a: Alert)
    requires AlertOk(call, s, a) && t !in AlertedSet(s) && s'.phases == s.phases[t := p] && s.issued <= s'.issued
    ensures AlertOk(call, s', a)
  {
    assert a.triggerId in AlertedSet(s);
  }

  lemma NewAlertOk(call: Call, s: State, step: Step)
    requires Phases(call, s) && Enabled(call, s, step) && step.PostAlert? && step.ok
    ensures AlertOk(call, Next(call, s, step), Raised(call, s, step)[0])
  {
    assert PhaseOk(call, step.t, s.phases[step.t]);
  }

  lemma AlertsKept(call: Call, s: State, step: Step)
    requires JobTemplate.Distinct(call.matches) && Launching(call, s) && Phases(call, s) && Alerts(call, s)
    requires Enabled(call, s, step)
    ensures Alerts(call, Next(call, s, step))
  {
    var s', t, p, raised := Next(call, s, step), Actor(call, s, step), NextPhase(call, s, step), Raised(call, s, step);
    AlertedMore(call, s, step);
    OldAlertsOk(call, s, s', t, p);
    if step.PostAlert? && step.ok { NewAlertOk(call, s, step); }
    OneAlertEach(s.posted, raised, AlertedSet(s), s.issued);
  }

  lemma OldAlertsOk(call: Call, s: State, s': State, t: Id, p: Phase)
    requires Alerts(call, s) && t !in AlertedSet(s) && s'.phases == s.phases[t := p] && s.issued <= s'.issued
    ensures forall i | 0 <= i < |s.posted| :: AlertOk(call, s', s.posted[i])
    ensures forall i | 0 <= i < |s.posted| :: s.posted[i].triggerId in AlertedSet(s) && s.posted[i].alertId in s.issued
  {
    forall i | 0 <= i < |s.posted| ensures AlertOk(call, s', s.posted[i]) && s.posted[i].triggerId in AlertedSet(s) {
      AlertOkKept(call, s, s', t, p, s.posted[i]);
    }
  }

  lemma OneAlertEach(posted: seq<Alert>, raised: seq<Alert>, ids: set<Id>, issued: set<Id>)
    requires forall i, j | 0 <= i < j < |posted| ::
               posted[i].triggerId != posted[j].triggerId && posted[i].alertId != posted[j].alertId
    requires forall i | 0 <= i < |posted| :: posted[i].triggerId in ids && posted[i].alertId in issued
    requires |raised| <= 1 && forall a | a in raised :: a.triggerId !in ids && a.alertId !in issued
    ensures var all := posted + raised;
            forall i, j | 0 <= i < j < |all| :: all[i].triggerId != all[j].triggerId && all[i].alertId != all[j].alertId
  {
  }

  lemma SafeKept(call: Call, s: State, step: Step)
    requires JobTemplate.Distinct(call.matches) && Safe(call, s) && Enabled(call, s, step)
    ensures Safe(call, Next(call, s, step))
  {
    StepOf(call, s, step);
    LaunchingKept(call, s, step);
    PhasesKept(call, s, step);
    JobIdsKept(call, s, step);
    MessagesKept(call, s, step);
    OneMessageKept(call, s, step);
    AlertsKept(call, s, step);
    ResultsKept(call, s, step);
  }

  lemma InitiallySafe(call: Call, issued: set<Id>)
    ensures Safe(call, Initial(call, issued))
  {
    var s := Initial(call, issued);
    assert Running(s) == {} && PublishedSet(s) == {} && AlertedSet(s) == {};
  }

  lemma {:induction false} RunsSafe(call: Call, s: State, trace: seq<Step>, s': State)
    requires JobTemplate.Distinct(call.matches) && Safe(call, s) && Runs(call, s, trace, s')
    ensures Safe(call, s') && s.issued <= s'.issued
    decreases |trace|
  {
    if trace != [] {
      SafeKept(call, s, trace[0]);
      RunsSafe(call, Next(call, s, trace[0]), trace[1..], s');
    }
  }

  // ---------------------------------------------------------------- main results

  ghost predicate Reachable(call: Call, issued: set<Id>, s: State) {
    exists trace :: Runs(call, Initial(call, issued), trace, s)
  }

  lemma ReachableSafe(call: Call, issued: set<Id>, s: State)
    requires JobTemplate.Distinct(call.matches) && Reachable(call, issued, s)
    ensures Safe(call, s) && issued <= s.issued
  {
    var trace :| Runs(call, Initial(call, issued), trace, s);
    InitiallySafe(call, issued);
    RunsSafe(call, Initial(call, issued), trace, s);
  }

  /** At every moment of every interleaving: at most one job and one alert per trigger,
      no two jobs share an id, and every alert is for this event and carries the id of a
      job already sent for a stored, enabled trigger of the event's own type. */
  lemma EveryAlertHasItsJob(call: Call, issued: set<Id>, s: State)
    requires JobTemplate.Distinct(call.matches) && Reachable(call, issued, s)
    ensures forall i, j | 0 <= i < j < |s.published| ::
              s.published[i].triggerId != s.published[j].triggerId && s.published[i].jobId != s.published[j].jobId
    ensures forall i, j | 0 <= i < j < |s.posted| :: s.posted[i].triggerId != s.posted[j].triggerId
    ensures forall a | a in s.posted ::
              && a.eventId == call.event.eventId
              && a.triggerId in call.triggers && Eligible(call, call.triggers[a.triggerId])
              && exists m | m in s.published :: m.triggerId == a.triggerId && m.jobId == a.jobId
  {
    ReachableSafe(call, issued, s);
    forall a | a in s.posted
      ensures a.eventId == call.event.eventId && a.triggerId in call.triggers
      ensures Eligible(call, call.triggers[a.triggerId])
      ensures exists m | m in s.published :: m.triggerId == a.triggerId && m.jobId == a.jobId
    {
      AlertJob(call, s, a);
    }
    DifferentJobs(call, s);
  }

  lemma AlertJob(call: Call, s: State, a: Alert)
    requires Phases(call, s) && Queue(call, s) && Alerts(call, s) && a in s.posted
    ensures a.eventId == call.event.eventId && a.triggerId in call.triggers
    ensures Eligible(call, call.triggers[a.triggerId])
    ensures exists m | m in s.published :: m.triggerId == a.triggerId && m.jobId == a.jobId
  {
    var i :| 0 <= i < |s.posted| && s.posted[i] == a;
    assert AlertOk(call, s, s.posted[i]) && s.phases[a.triggerId].HasPublished();
    var j :| 0 <= j < |s.published| && s.published[j].triggerId == a.triggerId;
    assert s.published[j] in s.published && MessageOk(call, s, s.published[j]);
  }

  lemma DifferentJobs(call: Call, s: State)
    requires JobIds(s) && Queue(call, s)
    ensures forall i, j | 0 <= i < j < |s.published| ::
              s.published[i].triggerId != s.published[j].triggerId && s.published[i].jobId != s.published[j].jobId
  {
    forall i, j | 0 <= i < j < |s.published|
      ensures s.published[i].triggerId != s.published[j].triggerId && s.published[i].jobId != s.published[j].jobId
    {
      assert MessageOk(call, s, s.published[i]) && MessageOk(call, s, s.published[j]);
      assert s.phases[s.published[i].triggerId].HasJob() && s.phases[s.published[j].triggerId].HasJob();
    }
  }

  /** When the join returns nothing is lost: every match was skipped, failed before its
      job was sent, raised an alert, or failed after; the jobs sent are the last two, and
      the results map names exactly the failures. */
  lemma JoinConserves(call: Call, issued: set<Id>, s: State)
    requires JobTemplate.Distinct(call.matches) && Reachable(call, issued, s) && Joined(call, s)
    ensures |call.matches| == |SkippedSet(s)| + |FailedBeforeSet(s)| + |s.posted| + |FailedAfterSet(s)|
    ensures |s.published| == |s.posted| + |FailedAfterSet(s)|
    ensures s.results.Keys == FailedBeforeSet(s) + FailedAfterSet(s)
  {
    ReachableSafe(call, issued, s);
    Partition(call, s);
    FinalSizes(s);
    DistinctSize(call.matches);
    FailuresRecorded(s);
  }

  lemma FinalSizes(s: State)
    requires s.phases.Keys == (SkippedSet(s) + FailedBeforeSet(s)) + (AlertedSet(s) + FailedAfterSet(s))
    ensures |s.phases.Keys| == |SkippedSet(s)| + |FailedBeforeSet(s)| + |AlertedSet(s)| + |FailedAfterSet(s)|
    ensures |AlertedSet(s) + FailedAfterSet(s)| == |AlertedSet(s)| + |FailedAfterSet(s)|
  {
    SizeOfSum(SkippedSet(s) + FailedBeforeSet(s), AlertedSet(s) + FailedAfterSet(s));
    SizeOfSum(SkippedSet(s), FailedBeforeSet(s));
    SizeOfSum(AlertedSet(s), FailedAfterSet(s));
  }

  lemma FailuresRecorded(s: State)
    requires Results(s)
    ensures s.results.Keys == FailedBeforeSet(s) + FailedAfterSet(s)
  {
  }

  lemma Partition(call: Call, s: State)
    requires Launching(call, s) && Joined(call, s)
    ensures s.phases.Keys == (SkippedSet(s) + FailedBeforeSet(s)) + (AlertedSet(s) + FailedAfterSet(s))
    ensures PublishedSet(s) == AlertedSet(s) + FailedAfterSet(s)
  {
    AllFinished(call, s);
  }

  lemma SizeOfSum(a: set<Id>, b: set<Id>)
    requires a !! b
    ensures |a + b| == |a| + |b|
  {
  }

  lemma AllFinished(call: Call, s: State)
    requires Launching(call, s) && Joined(call, s)
    ensures forall t | t in s.phases :: !s.phases[t].Running() && !s.phases[t].Waiting?
  {
    assert Running(s) == {};
    forall t | t in s.phases ensures !s.phases[t].Running() && !s.phases[t].Waiting? {
      assert t !in Running(s);
      var i :| 0 <= i < |call.matches| && call.matches[i] == t;
    }
  }

  lemma {:induction false} DistinctSize(xs: seq<Id>)
    requires JobTemplate.Distinct(xs)
    ensures |set x | x in xs| == |xs|
  {
    if xs != [] {
      DistinctSize(xs[1..]);
      assert forall i | 1 <= i < |xs| :: xs[i] == xs[1..][i - 1];
      assert (set x | x in xs) == {xs[0]} + (set x | x in xs[1..]);
    }
  }

  /** A trigger that is stored, enabled and of the event's type is never passed over: at
      the join it has its alert, or a failure is reported for it. */
  lemma NoTriggerPassedOver(call: Call, issued: set<Id>, s: State, t: Id)
    requires JobTemplate.Distinct(call.matches) && Reachable(call, issued, s) && Joined(call, s)
    requires t in call.matches && t in call.triggers && Eligible(call, call.triggers[t])
    ensures t in s.results <==> forall a | a in s.posted :: a.triggerId != t
  {
    ReachableSafe(call, issued, s);
    AllFinished(call, s);
    if t !in s.results {
      assert t in AlertedSet(s);
      AlertFor(call, s, t);
    }
  }

  /** A matched percolation query without a trigger is reported as an error if and only if
      the store did not answer the read of the trigger quietly. */
  lemma OrphanQueryReported(call: Call, issued: set<Id>, trace: seq<Step>, s: State, t: Id)
    requires JobTemplate.Distinct(call.matches) && Runs(call, Initial(call, issued), trace, s) && Joined(call, s)
    requires t in call.matches && t !in call.triggers
    ensures t in s.results <==> Fetch(t, Missing) !in trace
  {
    assert Reachable(call, issued, s);
    ReachableSafe(call, issued, s);
    InitiallySafe(call, issued);
    OrphanPhases(call, Initial(call, issued), trace, s, t);
    AllFinished(call, s);
    assert t in s.phases.Keys;
  }

  ghost predicate OrphanUnread(s: State, t: Id) {
    t in s.phases && (s.phases[t].Waiting? || s.phases[t].Fetching?)
  }

  /** The goroutine of such a match can only be skipped by a quiet answer, or fail. */
  lemma {:induction false} OrphanPhases(call: Call, s: State, trace: seq<Step>, s': State, t: Id)
    requires JobTemplate.Distinct(call.matches) && Launching(call, s)
    requires Runs(call, s, trace, s') && t !in call.triggers && OrphanUnread(s, t)
    ensures t in s'.phases
    ensures if Fetch(t, Missing) in trace then s'.phases[t].Skipped?
            else OrphanUnread(s', t) || s'.phases[t].FailedBefore?
    decreases |trace|
  {
    if trace != [] {
      var next := Next(call, s, trace[0]);
      FirstOrLater(trace, Fetch(t, Missing));
      LaunchingKept(call, s, trace[0]);
      OrphanSteps(call, s, trace[0], t);
      if OrphanUnread(next, t) {
        OrphanPhases(call, next, trace[1..], s', t);
      } else {
        OrphanSettled(call, next, trace[1..], s', t);
      }
    }
  }

  lemma FirstOrLater(trace: seq<Step>, step: Step)
    requires trace != []
    ensures step in trace <==> step == trace[0] || step in trace[1..]
  {
    assert trace == [trace[0]] + trace[1..];
  }

  lemma OrphanSteps(call: Call, s: State, step: Step, t: Id)
    requires JobTemplate.Distinct(call.matches) && Launching(call, s) && Enabled(call, s, step)
    requires t !in call.triggers && OrphanUnread(s, t)
    ensures var next := Next(call, s, step);
            && t in next.phases
            && if step == Fetch(t, Missing) then next.phases[t].Skipped?
               else OrphanUnread(next, t) || next.phases[t].FailedBefore?
  {
    StepOf(call, s, step);
  }

  lemma SettledStays(call: Call, s: State, step: Step, t: Id)
    requires JobTemplate.Distinct(call.matches) && Launching(call, s) && Enabled(call, s, step)
    requires t in s.phases && (s.phases[t].Skipped? || s.phases[t].FailedBefore?)
    ensures t in Next(call, s, step).phases && Next(call, s, step).phases[t] == s.phases[t]
    ensures step != Fetch(t, Missing)
  {
    StepOf(call, s, step);
  }

  lemma {:induction false} OrphanSettled(call: Call, s: State, trace: seq<Step>, s': State, t: Id)
    requires Runs(call, s, trace, s') && t in s.phases && (s.phases[t].Skipped? || s.phases[t].FailedBefore?)
    requires JobTemplate.Distinct(call.matches) && Launching(call, s)
    ensures t in s'.phases && s'.phases[t] == s.phases[t] && Fetch(t, Missing) !in trace
    decreases |trace|
  {
    if trace != [] {
      FirstOrLater(trace, Fetch(t, Missing));
      SettledStays(call, s, trace[0], t);
      LaunchingKept(call, s, trace[0]);
      OrphanSettled(call, Next(call, s, trace[0]), trace[1..], s', t);
    }
  }

  ghost function AlertedBy(posted: seq<Alert>): set<Id> {
    set a | a in posted :: a.triggerId
  }

  lemma {:induction false} AlertedBySize(posted: seq<Alert>)
    requires forall i, j | 0 <= i < j < |posted| :: posted[i].triggerId != posted[j].triggerId
    ensures |AlertedBy(posted)| == |posted|
  {
    if posted != [] {
      var rest := posted[1..];
      assert forall i | 1 <= i < |posted| :: posted[i] == rest[i - 1];
      AlertedBySize(rest);
      assert posted == [posted[0]] + rest;
      assert AlertedBy(posted) == {posted[0].triggerId} + AlertedBy(rest);
    }
  }

  lemma AlertFor(call: Call, s: State, t: Id)
    requires Safe(call, s) && t in AlertedSet(s)
    ensures exists a | a in s.posted :: a.triggerId == t
  {
    AlertedBySize(s.posted);
    assert AlertedBy(s.posted) <= AlertedSet(s);
    assert |AlertedSet(s) - AlertedBy(s.posted)| == |AlertedSet(s)| - |AlertedBy(s.posted)|;
  }

  /** Where the order of replacements does not matter, the job that is sent is the
      trigger's job with every "$key" replaced at once. */
  lemma JobIsSubstituted(call: Call, issued: set<Id>, s: State, m: Message)
    requires JobTemplate.Distinct(call.matches) && Reachable(call, issued, s) && m in s.published
    requires JobTemplate.PlainValues(Values(call))
    requires m.triggerId in call.triggers
    requires JobTemplate.Settled(call.jobText(call.triggers[m.triggerId].job), Values(call).Keys)
    ensures m.body == JobTemplate.Simultaneous(call.jobText(call.triggers[m.triggerId].job), Values(call))
  {
    ReachableSafe(call, issued, s);
    var trigger := call.triggers[m.triggerId];
    assert Values(call).Keys == call.data.Keys;
    var order :| JobTemplate.IsOrdering(order, call.data.Keys) && m.body == JobBody(call, trigger, order);
    JobTemplate.OrderDoesNotMatter(call.jobText(trigger.job), Values(call), order);
  }
}
