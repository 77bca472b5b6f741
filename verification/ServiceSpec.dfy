/** What each operation of workflow/Service.go does to the stores, for every pattern of
    failing store calls. A failing call leaves its store as it was. */
module ServiceSpec {
  import opened Json
  import opened Records
  import opened ConditionTrees
  import opened TriggerConditions
  import opened Flattening
  import opened MappingCompiler
  import EventValidator
  import FanOut
  import FanOutSafety
  import JobTemplate

  /** What the service does not decide: how the store parses scalars, which queries match
      a document, which cron schedules parse, and the text of jobs and values. */
  datatype Env = Env(
    parses: Parser,
    queryMatches: (Json, Json) -> bool,
    cronParses: string -> bool,
    jobText: JobRequest -> string,
    format: Json -> string)

  /** The place of an event in the event index. */
  datatype Slot = Slot(typeName: string, id: Id)

  /** An entry of the scheduler, keyed by its event's id. */
  datatype CronJob = CronJob(event: Event, typeName: string, schedule: string) {
    function Key(): Id {
      event.eventId
    }
  }

  /** The one schedule that the scheduler drops after its first firing. */
  predicate IsOneShot(schedule: string) {
    schedule == "@now"
  }

  /** The stores, the scheduler with the keys marked for removal, the job queue, and the
      identifiers issued. `schemas` are the type mappings of the event index. */
  datatype State = State(
    eventTypes: map<Id, EventType>,
    schemas: map<string, Json>,
    events: map<Slot, Event>,
    triggers: map<Id, Trigger>,
    queries: map<Id, Fields>,
    alerts: map<Id, Alert>,
    crons: map<Id, Event>,
    jobs: seq<CronJob>,
    removed: set<Id>,
    queue: seq<FanOut.Message>,
    issued: set<Id>)

  /** The store calls that may fail. */
  datatype Call =
    | ReadSchemas | FindName | WriteType | WriteSchema | UndoType
    | ReadType | FindTriggers | FindEvents | DeleteType
    | ReadTypeAgain | WriteEvent | Percolate
    | WriteCron | UndoCron
    | LookUpEvent | RemoveEvent | LookUpCron | RemoveCron
    | CheckService | WriteQuery | WriteTrigger | UndoQuery
    | ReadTrigger | RewriteTrigger | RemoveTrigger | RemoveQuery
    | ReadCrons

  type Faults = set<Call>

  const INGEST_TYPE := "piazza:ingest"
  const EXECUTE_TYPE := "piazza:executionComplete"

  predicate IsSystemEvent(name: string) {
    name == INGEST_TYPE || name == EXECUTE_TYPE
  }

  /** Types of the event index that do not hold events. */
  predicate IsReserved(name: string) {
    name == "_default_" || name == ".percolator"
  }

  function LookUpType(s: State, id: Id, fails: Faults): Option<EventType> {
    if ReadType in fails || id !in s.eventTypes then None else Some(s.eventTypes[id])
  }

  function Named(s: State, name: string): set<Id> {
    set id | id in s.eventTypes && s.eventTypes[id].name == name
  }

  // ---------------------------------------------------------------- event types

  predicate HasTilde(vars: map<string, Var>) {
    exists k | k in vars :: '~' in k
  }

  /** The type as it is stored. */
  function StoredType(et: EventType, id: Id, now: string): EventType {
    et.(eventTypeId := id, createdOn := now, mapping := AddUniqueParams(et.name, et.mapping))
  }

  ghost predicate PostsEventType(s: State, et: EventType, id: Id, now: string, fails: Faults,
                                 s': State, status: Status, response: EventType)
  {
    if ReadSchemas in fails then s' == s && status == InternalError
    else if et.name in s.schemas then s' == s && status == BadRequest
    else if FindName in fails || |Named(s, et.name)| > 1 then s' == s && status == InternalError
    else if Named(s, et.name) != {} then s' == s && status == BadRequest
    else id !in s.issued && StoresNewType(s.(issued := s.issued + {id}), et, id, now, fails, s', status, response)
  }

  ghost predicate StoresNewType(s: State, et: EventType, id: Id, now: string, fails: Faults,
                                s': State, status: Status, response: EventType)
  {
    exists vars, leaves ::
      && IsVars(et.mapping, {}, vars)
      && IsVars(AddUniqueParams(et.name, et.mapping), {}, leaves)
      && if HasTilde(vars) || !EventValidator.AllTypes(leaves) then s' == s && status == BadRequest
         else if WriteType in fails then s' == s && status == InternalError
         else AddsMapping(s, et, id, now, fails, s', status, response)
  }

  ghost predicate AddsMapping(s: State, et: EventType, id: Id, now: string, fails: Faults,
                              s': State, status: Status, response: EventType)
  {
    var stored := StoredType(et, id, now);
    var s1 := s.(eventTypes := s.eventTypes[id := stored]);
    if !ValidMapping(Obj(stored.mapping)) || WriteSchema in fails then
      s' == (if UndoType in fails then s1 else s1.(eventTypes := s1.eventTypes - {id})) && status == InternalError
    else
      && s' == s1.(schemas := s.schemas[et.name := Schema(Obj(stored.mapping))])
      && status == Created && response == et.(eventTypeId := id, createdOn := now)
  }

  ghost predicate DeletesEventType(s: State, id: Id, fails: Faults, s': State, status: Status) {
    match LookUpType(s, id, fails)
    case None => s' == s && status == NotFound
    case Some(et) =>
      if IsSystemEvent(et.name) || FindTriggers in fails then s' == s && status == BadRequest
      else if exists t | t in s.triggers :: s.triggers[t].eventTypeId == id then s' == s && status == Forbidden
      else if FindEvents in fails || et.name !in s.schemas then s' == s && status == BadRequest
      else if exists slot | slot in s.events :: slot.typeName == et.name && s.events[slot].eventTypeId == id then
        s' == s && status == Forbidden
      else if DeleteType in fails then s' == s && status == NotFound
      else s' == s.(eventTypes := s.eventTypes - {id}) && status == OK
  }

  // ---------------------------------------------------------------- events

  function UnwrapOr(key: string, fields: Fields): Fields {
    match RemoveUniqueParams(key, fields)
    case Fields(f) => f
    case TypePanic => map[]
  }

  function StoredEvent(ev: Event, typeName: string, id: Id, now: string): Event {
    ev.(eventId := id, createdOn := now, data := AddUniqueParams(typeName, ev.data))
  }

  /** Some outcome of EventDB.PostData: the validator, run on the unwrapped trees, and the
      index, which checks the wrapped data against the type's schema. */
  ghost predicate Accepts(env: Env, s: State, typeName: string, e: Event, fails: Faults, ok: bool) {
    if ReadTypeAgain in fails || e.eventTypeId !in s.eventTypes then !ok
    else
      var et := s.eventTypes[e.eventTypeId];
      exists mv, dv ::
        && EventValidator.Flattened(UnwrapOr(et.name, et.mapping), UnwrapOr(et.name, e.data), mv, dv)
        && (ok <==> EventValidator.Agree(mv, dv) && IndexTakes(env, s, typeName, e.data) && WriteEvent !in fails)
  }

  predicate IndexTakes(env: Env, s: State, typeName: string, data: Fields) {
    typeName in s.schemas && SchemaAccepts(env.parses, s.schemas[typeName], Obj(data))
  }

  function MatchingQueries(env: Env, s: State, data: Fields): set<Id> {
    set id | id in s.queries && env.queryMatches(Obj(s.queries[id]), Obj(map["data" := Obj(data)]))
  }

  /** The library's index answers a read of a missing document with an error. */
  function FanOutCall(env: Env, s: State, et: EventType, e: Event, data: Fields, matches: seq<Id>, now: string):
    FanOut.Call
  {
    FanOut.Call(e, et, data, matches, s.triggers, env.jobText, env.format, now, false)
  }

  function AfterFanOut(s: State, f: FanOut.State): State {
    s.(alerts := s.alerts + AlertMap(f.posted), queue := s.queue + f.published, issued := f.issued)
  }

  function AlertMap(posted: seq<Alert>): map<Id, Alert> {
    if posted == [] then map[]
    else AlertMap(posted[..|posted| - 1])[posted[|posted| - 1].alertId := posted[|posted| - 1]]
  }

  ghost predicate PostsEvent(env: Env, s: State, ev: Event, id: Id, now: string, fails: Faults,
                             s': State, status: Status, response: Event)
  {
    match LookUpType(s, ev.eventTypeId, fails)
    case None => s' == s && status == BadRequest
    case Some(et) =>
      id !in s.issued
      && StoresAndFires(env, s.(issued := s.issued + {id}), et, ev, id, now, fails, s', status, response)
  }

  ghost predicate StoresAndFires(env: Env, s: State, et: EventType, ev: Event, id: Id, now: string, fails: Faults,
                                 s': State, status: Status, response: Event)
  {
    var e := StoredEvent(ev, et.name, id, now);
    var s1 := s.(events := s.events[Slot(et.name, id) := e]);
    || (Accepts(env, s, et.name, e, fails, false) && s' == s && status == BadRequest)
    || (&& Accepts(env, s, et.name, e, fails, true)
        && if Percolate in fails then s' == s1 && status == BadRequest
           else RunsTriggers(env, s1, et, ev, e, now, s', status, response))
  }

  ghost predicate RunsTriggers(env: Env, s: State, et: EventType, ev: Event, e: Event, now: string,
                               s': State, status: Status, response: Event)
  {
    exists matches, f ::
      && JobTemplate.IsOrdering(matches, MatchingQueries(env, s, e.data))
      && GoroutinesLeave(FanOutCall(env, s, et, e, ev.data, matches, now), s.issued, f)
      && s' == AfterFanOut(s, f)
      && Answers(f, status) && (f.results == map[] ==> response == ev.(eventId := e.eventId, createdOn := now))
  }

  /** Some interleaving ends in f. */
  ghost predicate GoroutinesLeave(call: FanOut.Call, issued: set<Id>, f: FanOut.State) {
    FanOutSafety.Reachable(call, issued, f) && FanOut.Joined(call, f)
  }

  /** 201, or any of the recorded errors. */
  ghost predicate Answers(f: FanOut.State, status: Status) {
    if f.results == map[] then status == Created else exists t :: t in f.results && status == f.results[t]
  }

  ghost predicate PostsRepeatingEvent(env: Env, s: State, ev: Event, id: Id, now: string, fails: Faults,
                                      s': State, status: Status, response: Event)
  {
    match LookUpType(s, ev.eventTypeId, fails)
    case None => s' == s && status == BadRequest
    case Some(et) =>
      if !env.cronParses(ev.cronSchedule) then s' == s && status == BadRequest
      else
        id !in s.issued
        && Schedules(env, s.(issued := s.issued + {id}), et, ev, id, now, fails, s', status, response)
  }

  ghost predicate Schedules(env: Env, s: State, et: EventType, ev: Event, id: Id, now: string, fails: Faults,
                            s': State, status: Status, response: Event)
  {
    var e := StoredEvent(ev, et.name, id, now);
    var s1 := s.(jobs := s.jobs + [CronJob(e, et.name, ev.cronSchedule)]);
    var s2 := s1.(crons := s1.crons[id := e]);
    if WriteCron in fails then s' == s1 && status == InternalError
    else
      || (&& Accepts(env, s, et.name, e, fails, false)
          && s' == (if UndoCron in fails then s2 else s2.(crons := s2.crons - {id})).(removed := s.removed + {id})
          && status == InternalError)
      || (&& Accepts(env, s, et.name, e, fails, true)
          && s' == s2.(events := s.events[Slot(et.name, id) := e])
          && status == Created && response == ev.(eventId := id, createdOn := now))
  }

  function TypesHolding(s: State, id: Id): set<string> {
    set slot | slot in s.events && slot.id == id && !IsReserved(slot.typeName) :: slot.typeName
  }

  ghost predicate DeletesEvent(s: State, id: Id, fails: Faults, s': State, status: Status) {
    if LookUpEvent in fails || TypesHolding(s, id) == {} then s' == s && status == NotFound
    else exists name | name in TypesHolding(s, id) :: DeletesEventOf(s, Slot(name, id), fails, s', status)
  }

  ghost predicate DeletesEventOf(s: State, slot: Slot, fails: Faults, s': State, status: Status) {
    var s1 := s.(events := s.events - {slot});
    if slot.typeName == "" then s' == s && status == NotFound
    else if IsSystemEvent(slot.typeName) then s' == s && status == BadRequest
    else if RemoveEvent in fails then s' == s && status == NotFound
    else if LookUpCron in fails then s' == s1 && status == BadRequest
    else if slot.id !in s.crons then s' == s1 && status == OK
    else if RemoveCron in fails then s' == s1 && status == NotFound
    else s' == s1.(crons := s.crons - {slot.id}, removed := s.removed + {slot.id}) && status == OK
  }

  // ---------------------------------------------------------------- triggers

  predicate NamesService(job: JobRequest) {
    "serviceId" in job.jobType.data && job.jobType.data["serviceId"].Str?
  }

  ghost predicate PostsTrigger(s: State, t: Trigger, id: Id, now: string, fails: Faults,
                               s': State, status: Status, response: Trigger)
  {
    id !in s.issued
    && var s1 := s.(issued := s.issued + {id});
       match LookUpType(s, t.eventTypeId, fails)
       case None => s' == s1 && status == BadRequest
       case Some(et) =>
         if t.eventTypeId == "" || !NamesService(t.job) || CheckService in fails || WriteQuery in fails then
           s' == s1 && status == BadRequest
         else Registers(s1, et, t, id, now, fails, s', status, response)
  }

  /** Whatever order the two walks take. */
  ghost predicate StoredForms(typeName: string, condition: Fields, query: Fields, encoded: Fields) {
    Renames(Rewrite(typeName), Obj(condition), Obj(query)) && Renames(Encode(), Obj(query), Obj(encoded))
  }

  ghost predicate Registers(s: State, et: EventType, t: Trigger, id: Id, now: string, fails: Faults,
                            s': State, status: Status, response: Trigger)
  {
    exists query, encoded ::
      StoredForms(et.name, t.condition, query, encoded)
      && Registered(s, t, id, now, fails, query, encoded, s', status, response)
  }

  ghost predicate Registered(s: State, t: Trigger, id: Id, now: string, fails: Faults, query: Fields, encoded: Fields,
                             s': State, status: Status, response: Trigger)
  {
    var s1 := s.(queries := s.queries[id := query]);
    var stored := t.(triggerId := id, createdOn := now, percolationId := id, condition := encoded);
    if WriteTrigger in fails then
      s' == (if UndoQuery in fails then s1 else s1.(queries := s1.queries - {id})) && status == BadRequest
    else
      && s' == s1.(triggers := s.triggers[id := stored])
      && status == Created && response == t.(triggerId := id, createdOn := now)
  }

  /** What TriggerDB.GetOne may return of a stored trigger. */
  ghost predicate Reads(stored: Trigger, seen: Trigger) {
    seen == stored.(condition := seen.condition) && Decoded(Obj(stored.condition), Obj(seen.condition))
  }

  ghost predicate PutsTrigger(s: State, id: Id, enabled: bool, fails: Faults, s': State, status: Status) {
    if ReadTrigger in fails || id !in s.triggers then s' == s && status == NotFound
    else if RewriteTrigger in fails then s' == s && status == BadRequest
    else status == OK && exists seen, t ::
        && Reads(s.triggers[id], seen) && s' == s.(triggers := s.triggers[id := t])
        && Renames(Encode(), Obj(TriggerTree(seen.(enabled := enabled))), Obj(TriggerTree(t)))
  }

  ghost predicate DeletesTrigger(s: State, id: Id, fails: Faults, s': State, status: Status) {
    if ReadTrigger in fails || id !in s.triggers || RemoveTrigger in fails then s' == s && status == NotFound
    else
      var query := s.triggers[id].percolationId;
      var s1 := s.(triggers := s.triggers - {id});
      if RemoveQuery in fails || query !in s.queries then s' == s1 && status == NotFound
      else s' == s1.(queries := s.queries - {query}) && status == OK
  }

  // ---------------------------------------------------------------- the scheduler

  /** The event cronEvent.Run makes of its own. */
  function FiredEvent(job: CronJob, now: string): Event {
    var data := job.event.data;
    Event("", job.event.eventTypeId,
      if job.typeName in data && data[job.typeName].Obj? then data[job.typeName].fields else map[],
      job.event.eventId, now, "")
  }

  function Dropped(jobs: seq<CronJob>, i: nat): seq<CronJob>
    requires i < |jobs|
  {
    jobs[..i] + jobs[i + 1..]
  }

  /** The scheduler comes to the entry at position i: an entry whose key is marked is
      dropped with its mark, any other runs, and is dropped then if its schedule is over. */
  ghost predicate Fires(env: Env, s: State, i: nat, id: Id, now: string, fails: Faults, s': State, status: Status) {
    && i < |s.jobs|
    && var job := s.jobs[i];
       if job.Key() in s.removed then
         s' == s.(jobs := Dropped(s.jobs, i), removed := s.removed - {job.Key()}) && status == OK
       else exists mid, response ::
         && PostsEvent(env, s, FiredEvent(job, now), id, now, fails, mid, status, response)
         && s' == (if IsOneShot(job.schedule) then mid.(jobs := Dropped(s.jobs, i)) else mid)
  }
}
