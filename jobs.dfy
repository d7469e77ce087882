/**
 * `JobStore`: the in-memory dictionary from job id to job record, with creation, lookup and the
 * three status-marking operations. The source guards no transition: each Mark operation
 * overwrites whatever status the job has.
 */
module Jobs {
  import opened Wrappers

  /** Job ids are drawn from a counter in place of `Guid.NewGuid()`. */
  type JobId = nat

  datatype JobStatus = Queued | Processing | Succeeded | Failed

  predicate IsTerminal(status: JobStatus) {
    status == Succeeded || status == Failed
  }

  /** `JobRecord`; `error` and `completedAt` are the nullable properties, timestamps are plain numbers. */
  datatype JobRecord = JobRecord(
    id: JobId,
    status: JobStatus,
    commandName: string,
    error: Option<string>,
    createdAt: int,
    completedAt: Option<int>)

  type JobMap = map<JobId, JobRecord>

  /** The `init`-only properties agree: the same job, whatever its status. */
  predicate SameJob(a: JobRecord, b: JobRecord) {
    a.id == b.id && a.commandName == b.commandName && a.createdAt == b.createdAt
  }

  /** Every record is stored under its own id, and every id in use is below the next one to hand out. */
  predicate WellKeyed(jobs: JobMap, nextId: JobId) {
    forall id | id in jobs :: id < nextId && jobs[id].id == id
  }

  /** The record `Create` builds. */
  function NewRecord(id: JobId, commandName: string, now: int): JobRecord {
    JobRecord(id, Queued, commandName, None, now, None)
  }

  /** The dictionary after `MarkProcessing(id)`. */
  function MarkedProcessing(jobs: JobMap, id: JobId): (r: JobMap)
    ensures r.Keys == jobs.Keys
    ensures id !in jobs ==> r == jobs
    ensures forall k | k in jobs && k != id :: r[k] == jobs[k]
    ensures id in jobs ==>
      && SameJob(r[id], jobs[id])
      && r[id].status == Processing
      && r[id].error == jobs[id].error
      && r[id].completedAt == jobs[id].completedAt
  {
    if id in jobs then jobs[id := jobs[id].(status := Processing)] else jobs
  }

  /** The dictionary after `MarkSucceeded(id)` at time `now`. */
  function MarkedSucceeded(jobs: JobMap, id: JobId, now: int): (r: JobMap)
    ensures r.Keys == jobs.Keys
    ensures id !in jobs ==> r == jobs
    ensures forall k | k in jobs && k != id :: r[k] == jobs[k]
    ensures id in jobs ==>
      && SameJob(r[id], jobs[id])
      && r[id].status == Succeeded
      && r[id].error == jobs[id].error
      && r[id].completedAt == Some(now)
  {
    if id in jobs then jobs[id := jobs[id].(status := Succeeded, completedAt := Some(now))] else jobs
  }

  /** The dictionary after `MarkFailed(id, error)` at time `now`. */
  function MarkedFailed(jobs: JobMap, id: JobId, error: string, now: int): (r: JobMap)
    ensures r.Keys == jobs.Keys
    ensures id !in jobs ==> r == jobs
    ensures forall k | k in jobs && k != id :: r[k] == jobs[k]
    ensures id in jobs ==>
      && SameJob(r[id], jobs[id])
      && r[id].status == Failed
      && r[id].error == Some(error)
      && r[id].completedAt == Some(now)
  {
    if id in jobs then jobs[id := jobs[id].(status := Failed, error := Some(error), completedAt := Some(now))] else jobs
  }


  class JobStore {
    /** `_jobs`. */
    var jobs: JobMap
    /** The fresh-id supply standing in for `Guid.NewGuid()`. */
    var nextId: JobId

    ghost predicate Valid()
      reads this
    {
      WellKeyed(jobs, nextId)
    }

    constructor ()
      ensures Valid() && jobs == map[]
    {
      jobs := map[];
      nextId := 0;
    }

    /** `Create(commandName)`: a new Queued record under a fresh id, stored and returned. */
    method Create(commandName: string, now: int) returns (job: JobRecord)
      requires Valid()
      modifies this
      ensures Valid()
      ensures job.id !in old(jobs) && job.id == old(nextId) && nextId == old(nextId) + 1
      ensures job.status == Queued && job.commandName == commandName && job.createdAt == now
      ensures job.error == None && job.completedAt == None
      ensures jobs == old(jobs)[job.id := job]
    {
      job := NewRecord(nextId, commandName, now);
      jobs := jobs[job.id := job];
      nextId := nextId + 1;
    }

    /** `TryGet(id, out record)`: never fails; `None` for an unknown id. */
    method TryGet(id: JobId) returns (found: bool, record: Option<JobRecord>)
      ensures found <==> id in jobs
      ensures found ==> record == Some(jobs[id])
      ensures !found ==> record == None
    {
      found := id in jobs;
      record := if found then Some(jobs[id]) else None;
    }

    method MarkProcessing(id: JobId)
      requires Valid()
      modifies this`jobs
      ensures Valid()
      ensures jobs == MarkedProcessing(old(jobs), id)
    {
      if id in jobs {
        jobs := jobs[id := jobs[id].(status := Processing)];
      }
    }

    method MarkSucceeded(id: JobId, now: int)
      requires Valid()
      modifies this`jobs
      ensures Valid()
      ensures jobs == MarkedSucceeded(old(jobs), id, now)
    {
      if id in jobs {
        jobs := jobs[id := jobs[id].(status := Succeeded, completedAt := Some(now))];
      }
    }

    method MarkFailed(id: JobId, error: string, now: int)
      requires Valid()
      modifies this`jobs
      ensures Valid()
      ensures jobs == MarkedFailed(old(jobs), id, error, now)
    {
      if id in jobs {
        jobs := jobs[id := jobs[id].(status := Failed, error := Some(error), completedAt := Some(now))];
      }
    }
  }
}
