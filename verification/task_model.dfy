/** The Task record, its status enum and its defaults (src/models/Task.ts). */
module TaskModel {
  import opened Wrappers
  import opened Text
  import CsvParser

  /** `status` takes one of two values; a new task is `pending`. */
  datatype Status = Pending | Completed

  /** A stored task. Times are milliseconds since the epoch; `completedAt` and `completedBy`
      are absent until the task is completed. */
  datatype Task = Task(
    id: string,
    firstName: string, phone: string, notes: string,
    agentId: string, uploadId: string, userId: string,
    status: Status, completedAt: Option<int>, completedBy: Option<string>,
    createdAt: int, updatedAt: int)

  function TaskAgentId(t: Task): string { t.agentId }
  function TaskUploadId(t: Task): string { t.uploadId }

  predicate IsCompleted(t: Task) { t.status == Completed }

  /** The schema's `required` validators, after the `trim` setters: the trimmed first name
      and phone are non-empty, and the agent, upload and owner references are present. */
  predicate Creatable(d: CsvParser.DistributedTask) {
    Trim(d.firstName) != "" && Trim(d.phone) != "" && d.agentId != "" && d.uploadId != ""
    && d.userId.Some?
  }

  /** A Task document made from a distributed record, as `insertMany` builds it: the trim
      setters, the defaults and the required validators. */
  function NewTask(id: string, d: CsvParser.DistributedTask, now: int): (r: Option<Task>)
    ensures r.Some? <==> Creatable(d)
    ensures r.Some? ==>
      && r.value.id == id && r.value.agentId == d.agentId && r.value.uploadId == d.uploadId
      && Some(r.value.userId) == d.userId
      && r.value.firstName == Trim(d.firstName) && r.value.firstName != ""
      && r.value.phone == Trim(d.phone) && r.value.phone != ""
      && r.value.notes == Trim(d.notes) && IsTrimmed(r.value.notes)
      && r.value.status == Pending && r.value.completedAt.None? && r.value.completedBy.None?
      && r.value.createdAt == now && r.value.updatedAt == now
  {
    if Creatable(d) then Some(Document(id, d, now)) else None
  }

  /** The document `insertMany` builds from a distributed record, before validation. */
  function Document(id: string, d: CsvParser.DistributedTask, now: int): Task
    requires d.userId.Some?
  {
    Task(id, Trim(d.firstName), Trim(d.phone), Trim(d.notes), d.agentId, d.uploadId,
         d.userId.value, Pending, None, None, now, now)
  }
}
