/**
 * The state the background-job pipeline shares between its producers and its worker: the job
 * store's dictionary and id supply together with the queue's contents.
 */
module Pipeline {
  import opened Wrappers
  import opened Jobs
  import opened Commands
  import opened CommandQueue

  datatype System = System(jobs: JobMap, nextId: JobId, queue: seq<Command>)

  /** The shared state as the two singletons hold it. */
  function Snapshot(store: JobStore, queue: InMemoryCommandQueue): System
    reads store, queue
  {
    System(store.jobs, store.nextId, queue.items)
  }

  predicate WellFormed(s: System) {
    WellKeyed(s.jobs, s.nextId)
  }

  /**
   * Every queued command has a job record, that record is still Queued, and no two queued
   * commands share a job.
   */
  predicate Consistent(s: System) {
    && WellFormed(s)
    && (forall i | 0 <= i < |s.queue| :: s.queue[i].jobId in s.jobs && s.jobs[s.queue[i].jobId].status == Queued)
    && (forall i, j | 0 <= i < j < |s.queue| :: s.queue[i].jobId != s.queue[j].jobId)
  }

  /**
   * The producer pattern: create a Queued job record, then enqueue a command that carries the
   * new job's id.
   */
  function Submitted(s: System, commandName: string, now: int, c: Command): (r: System)
    requires c.jobId == s.nextId
    ensures r.nextId == s.nextId + 1 && r.queue == s.queue + [c]
    ensures r.jobs.Keys == s.jobs.Keys + {c.jobId}
    ensures r.jobs[c.jobId].status == Queued && r.jobs[c.jobId].commandName == commandName
    ensures r.jobs[c.jobId].createdAt == now
    ensures r.jobs[c.jobId].error == None && r.jobs[c.jobId].completedAt == None
    ensures WellFormed(s) ==> WellFormed(r) && c.jobId !in s.jobs
    ensures WellFormed(s) ==> forall k | k in s.jobs :: r.jobs[k] == s.jobs[k]
  {
    System(s.jobs[s.nextId := NewRecord(s.nextId, commandName, now)], s.nextId + 1, s.queue + [c])
  }

  /** Submitting keeps the queue and the job store in step. */
  lemma SubmitPreservesConsistent(s: System, commandName: string, now: int, c: Command)
    requires Consistent(s) && c.jobId == s.nextId
    ensures Consistent(Submitted(s, commandName, now, c))
  {
    var r := Submitted(s, commandName, now, c);
    forall i, j | 0 <= i < j < |r.queue|
      ensures r.queue[i].jobId != r.queue[j].jobId
    {
      if j == |s.queue| {
        assert r.queue[i] == s.queue[i];
      }
    }
  }
}
