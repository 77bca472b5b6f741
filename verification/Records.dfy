/** The records of workflow/common.go. */
module Records {
  import opened Json

  type Id = string

  datatype Option<T> = None | Some(value: T)
  datatype JobType = JobType(data: Fields, typ: string)

  datatype JobRequest = JobRequest(createdBy: string, jobType: JobType)

  datatype Trigger = Trigger(
    triggerId: Id,
    name: string,
    eventTypeId: Id,
    condition: Fields,
    job: JobRequest,
    percolationId: Id,
    createdBy: string,
    createdOn: string,
    enabled: bool)

  datatype Event = Event(
    eventId: Id,
    eventTypeId: Id,
    data: Fields,
    createdBy: string,
    createdOn: string,
    cronSchedule: string)

  datatype EventType = EventType(
    eventTypeId: Id,
    name: string,
    mapping: Fields,
    createdBy: string,
    createdOn: string)

  datatype Alert = Alert(
    alertId: Id,
    triggerId: Id,
    eventId: Id,
    jobId: Id,
    createdBy: string,
    createdOn: string)

  /** HTTP status of a response. */
  datatype Status = OK | Created | BadRequest | Forbidden | NotFound | InternalError

  /** The JSON object a trigger is marshalled to. */
  function TriggerTree(t: Trigger): Fields {
    map[
      "triggerId" := Str(t.triggerId),
      "name" := Str(t.name),
      "eventTypeId" := Str(t.eventTypeId),
      "condition" := Obj(t.condition),
      "job" := JobTree(t.job),
      "percolationId" := Str(t.percolationId),
      "createdBy" := Str(t.createdBy),
      "createdOn" := Str(t.createdOn),
      "enabled" := Bool(t.enabled)]
  }

  function JobTree(j: JobRequest): Json {
    Obj(map["createdBy" := Str(j.createdBy), "jobType" := JobTypeTree(j.jobType)])
  }

  function JobTypeTree(j: JobType): Json {
    Obj(map["data" := Obj(j.data), "type" := Str(j.typ)])
  }
}
