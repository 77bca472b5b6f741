/** A user of the service object: what its handlers promise together. */
module Client {
  import opened Json
  import opened Records
  import opened DottedNames
  import opened ConditionTrees
  import opened ServiceSpec
  import opened Service
  import opened ServiceContracts
  import EndToEnd
  import Percolation

  /** A trigger of the type with the condition c is stored. */
  ghost predicate Watching(s: State, typeId: Id, trigger: Id, c: Fields) {
    EndToEnd.Guards(s, trigger, c) && s.triggers[trigger].eventTypeId == typeId
  }

  lemma CreatedWatches(s: State, t: Trigger, id: Id, now: string, fails: Faults, s': State)
    requires TriggerCreated(s, t, id, now, fails, s', Created) && DotFree(s.eventTypes[t.eventTypeId].name)
    ensures Watching(s', t.eventTypeId, id, t.condition)
  {
  }

  lemma UpdatedWatches(s: State, typeId: Id, id: Id, c: Fields, enabled: bool, fails: Faults, s': State)
    requires Watching(s, typeId, id, c) && TriggerUpdated(s, id, enabled, fails, s', OK)
    ensures Watching(s', typeId, id, c) && s'.triggers[id].enabled == enabled
  {
  }

  lemma WatchedEvent(env: Env, s: State, typeId: Id, trigger: Id, c: Fields, ev: Event, id: Id, now: string, s': State)
    requires forall q, d :: env.queryMatches(q, d) == Percolation.Matches(q, d)
    requires Watching(s, typeId, trigger, c) && AllKeys(Percolation.NotExists, Obj(c)) && ev.eventTypeId == typeId
    requires EventPosted(env, s, ev, id, now, s')
    ensures EndToEnd.RaisesAlert(s, s', trigger, id) <==>
            s.triggers[trigger].enabled && Percolation.Matches(Obj(c), Percolation.UserDocument(ev.data))
  {
    EndToEnd.GuardsAsWritten(env, s, trigger, c, ev);
  }

  /** Posts a type and a trigger for it. */
  method Register(service: Service, et: EventType, t: Trigger, now: string, fails: Faults)
    returns (ok: bool, typeId: Id, trigger: Id)
    requires service.Valid() && DotFree(et.name)
    modifies service
    ensures service.Valid()
    ensures ok ==> Watching(service.Stores(), typeId, trigger, t.condition)
  {
    trigger := "";
    var status, typeResponse;
    typeId, status, typeResponse := service.PostEventType(et, now, fails);
    if status != Created {
      return false, typeId, trigger;
    }
    ghost var s := service.Stores();
    var triggerResponse;
    trigger, status, triggerResponse := service.PostTrigger(t.(eventTypeId := typeId), now, fails);
    ok := status == Created;
    if ok { CreatedWatches(s, t.(eventTypeId := typeId), trigger, now, fails, service.Stores()); }
  }

  /** Posts a type and a trigger for it, switches the trigger on or off, and posts an event
      of the type. If all four succeed the trigger has an alert for the event if and only if
      it is on and its condition, as posted, holds of the data, as posted. */
  method Watch(service: Service, et: EventType, t: Trigger, enabled: bool, ev: Event, now: string, fails: Faults)
    returns (watched: bool, trigger: Id, event: Id, ghost before: State)
    requires service.Valid() && forall q, d :: service.env.queryMatches(q, d) == Percolation.Matches(q, d)
    requires DotFree(et.name) && AllKeys(Percolation.NotExists, Obj(t.condition))
    modifies service
    ensures service.Valid()
    ensures watched ==>
              (EndToEnd.RaisesAlert(before, service.Stores(), trigger, event) <==>
               enabled && Percolation.Matches(Obj(t.condition), Percolation.UserDocument(ev.data)))
  {
    event, before := "", service.Stores();
    var typeId;
    watched, typeId, trigger := Register(service, et, t, now, fails);
    if !watched {
      return;
    }
    ghost var s := service.Stores();
    var status := service.PutTrigger(trigger, enabled, fails);
    if status != OK {
      return false, trigger, event, before;
    }
    before := service.Stores();
    UpdatedWatches(s, typeId, trigger, t.condition, enabled, fails, before);
    var response;
    event, status, response := service.PostEvent(ev.(eventTypeId := typeId), now, fails);
    watched := status == Created;
    if watched {
      WatchedEvent(service.env, before, typeId, trigger, t.condition, ev.(eventTypeId := typeId), event, now,
        service.Stores());
    }
  }
}
