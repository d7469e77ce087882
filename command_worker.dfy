/**
 * `CommandWorker`: the hosted loop that takes one command at a time off the queue, marks its job
 * Processing, dispatches it, and marks the job Succeeded, or Failed with the exception's message.
 */
module CommandWorker {
  import opened Wrappers
  import opened Jobs
  import opened Commands
  import opened CommandQueue
  import opened Pipeline
  import opened Handlers
  import opened CommandDispatcher
  import opened Sequences

  /**
   * What one iteration reads from its environment: the clock while the handler runs, the clock
   * when the job is completed, and the outcome of a handler whose work is not modelled.
   */
  datatype Tick = Tick(handlerTime: int, completionTime: int, external: Outcome)

  /** The state once the head command is dequeued and its job marked Processing. */
  function Started(s: System): (r: System)
    requires s.queue != []
    ensures WellFormed(s) ==> WellFormed(r)
  {
    System(MarkedProcessing(s.jobs, s.queue[0].jobId), s.nextId, s.queue[1..])
  }

  /** The last line of the `try`, or the `catch` with the exception's message. */
  function Finished(s: System, id: JobId, outcome: Outcome, now: int): (r: System)
    ensures r.queue == s.queue && r.nextId == s.nextId && r.jobs.Keys == s.jobs.Keys
    ensures forall k | k in s.jobs && k != id :: r.jobs[k] == s.jobs[k]
    ensures WellFormed(s) ==> WellFormed(r)
    ensures id in s.jobs ==>
      && SameJob(r.jobs[id], s.jobs[id])
      && r.jobs[id].status == (if outcome.Ok? then Succeeded else Failed)
      && r.jobs[id].completedAt == Some(now)
      && r.jobs[id].error == (if outcome.Ok? then s.jobs[id].error else Some(outcome.message))
  {
    match outcome
    case Ok => s.(jobs := MarkedSucceeded(s.jobs, id, now))
    case Fail(message) => s.(jobs := MarkedFailed(s.jobs, id, message, now))
  }

  /** One iteration: the new state, the command taken, how it ended, and what it enqueued. */
  datatype StepResult = StepResult(state: System, command: Command, outcome: Outcome, spawned: seq<Command>)

  /** One pass of the loop body on a non-empty queue. */
  function Step(s: System, container: Container, tick: Tick): (r: StepResult)
    requires WellTyped(container) && WellFormed(s) && s.queue != []
    ensures r.command == s.queue[0]
    ensures WellFormed(r.state)
    ensures r.state.queue == s.queue[1..] + r.spawned
  {
    var c := s.queue[0];
    var started := Started(s);
    var d := Dispatched(started, container, c, tick.handlerTime, tick.external);
    DispatchOnlyAppends(started, container, c, tick.handlerTime, tick.external);
    var spawned := d.0.queue[|started.queue|..];
    assert d.0.queue == started.queue + spawned;
    StepResult(Finished(d.0, c.jobId, d.1, tick.completionTime), c, d.1, spawned)
  }

  /** How an iteration ends: a resolution failure's message, the fan-out's completion, or the handler's own outcome. */
  lemma StepOutcome(s: System, container: Container, tick: Tick)
    requires WellTyped(container) && WellFormed(s) && s.queue != []
    ensures var c := s.queue[0];
      var r := Step(s, container, tick).outcome;
      && (Resolve(container, c).Failure? ==> r == Fail(Resolve(container, c).error))
      && (Resolve(container, c).Success? && c.UserRegistered? ==> r == Ok)
      && (Resolve(container, c).Success? && !c.UserRegistered? ==> r == tick.external)
  {
    DispatchCases(Started(s), container, s.queue[0], tick.handlerTime, tick.external);
  }

  /**
   * The job of the command taken is Processing while its handler runs, and afterwards Succeeded
   * when the dispatch completed and Failed, carrying the message, when it faulted; it is still the
   * same job and it is stamped with the completion time.
   */
  lemma StepLifecycle(s: System, container: Container, tick: Tick)
    requires WellTyped(container) && WellFormed(s) && s.queue != []
    requires s.queue[0].jobId in s.jobs
    ensures var c := s.queue[0];
      var d := Dispatched(Started(s), container, c, tick.handlerTime, tick.external).0;
      c.jobId in d.jobs && d.jobs[c.jobId].status == Processing
    ensures var r := Step(s, container, tick);
      var id := s.queue[0].jobId;
      && id in r.state.jobs
      && SameJob(r.state.jobs[id], s.jobs[id])
      && r.state.jobs[id].status == (if r.outcome.Ok? then Succeeded else Failed)
      && r.state.jobs[id].completedAt == Some(tick.completionTime)
      && r.state.jobs[id].error == (if r.outcome.Ok? then s.jobs[id].error else Some(r.outcome.message))
  {
    var c := s.queue[0];
    DispatchOnlyAppends(Started(s), container, c, tick.handlerTime, tick.external);
  }

  /** A command whose type has no registered handler leaves its job Failed with the container's message. */
  lemma MissingHandlerFailsJob(s: System, container: Container, tick: Tick)
    requires WellTyped(container) && WellFormed(s) && s.queue != []
    requires s.queue[0].jobId in s.jobs && TypeOf(s.queue[0]) !in container.handlers
    ensures var r := Step(s, container, tick);
      && r.state.jobs[s.queue[0].jobId].status == Failed
      && r.state.jobs[s.queue[0].jobId].error == Some(container.noService(TypeOf(s.queue[0])))
      && r.spawned == []
  {
    StepOutcome(s, container, tick);
    StepLifecycle(s, container, tick);
  }

  /** Apart from the job it processes, an iteration leaves every existing job as it was. */
  lemma StepKeepsOtherJobs(s: System, container: Container, tick: Tick)
    requires WellTyped(container) && WellFormed(s) && s.queue != []
    ensures var r := Step(s, container, tick);
      && s.jobs.Keys <= r.state.jobs.Keys
      && forall k | k in s.jobs && k != s.queue[0].jobId :: r.state.jobs[k] == s.jobs[k]
  {
    DispatchOnlyAppends(Started(s), container, s.queue[0], tick.handlerTime, tick.external);
  }

  /** Taking the head keeps the rest of the queue in step with the store, and its job becomes Processing. */
  lemma StartedConsistent(s: System)
    requires Consistent(s) && s.queue != []
    ensures Consistent(Started(s))
    ensures s.queue[0].jobId in Started(s).jobs && Started(s).jobs[s.queue[0].jobId].status == Processing
  {
    var started := Started(s);
    forall i | 0 <= i < |started.queue|
      ensures started.queue[i].jobId in started.jobs && started.jobs[started.queue[i].jobId].status == Queued
    {
      assert started.queue[i] == s.queue[i + 1];
    }
    forall i, j | 0 <= i < j < |started.queue|
      ensures started.queue[i].jobId != started.queue[j].jobId
    {
      assert started.queue[i] == s.queue[i + 1] && started.queue[j] == s.queue[j + 1];
    }
  }

  /** Completing a job that is no longer Queued cannot disturb a queued command's job. */
  lemma FinishedConsistent(s: System, id: JobId, outcome: Outcome, now: int)
    requires Consistent(s) && id in s.jobs && s.jobs[id].status != Queued
    ensures Consistent(Finished(s, id, outcome, now))
  {
  }

  /** An iteration keeps the queue and the job store in step. */
  lemma StepPreservesConsistent(s: System, container: Container, tick: Tick)
    requires WellTyped(container) && Consistent(s) && s.queue != []
    ensures Consistent(Step(s, container, tick).state)
  {
    var c := s.queue[0];
    var started := Started(s);
    StartedConsistent(s);
    var d := Dispatched(started, container, c, tick.handlerTime, tick.external);
    DispatchPreservesConsistent(started, container, c, tick.handlerTime, tick.external);
    assert d.0.jobs[c.jobId].status == Processing;
    FinishedConsistent(d.0, c.jobId, d.1, tick.completionTime);
  }

  /** A job that has already finished is never touched again by an iteration. */
  lemma StepKeepsTerminal(s: System, container: Container, tick: Tick, k: JobId)
    requires WellTyped(container) && Consistent(s) && s.queue != []
    requires k in s.jobs && IsTerminal(s.jobs[k].status)
    ensures var r := Step(s, container, tick);
      k in r.state.jobs && r.state.jobs[k] == s.jobs[k]
  {
    StepKeepsOtherJobs(s, container, tick);
  }

  /** `ProcessNext`: one iteration of `ExecuteAsync`'s loop on the singletons. */
  method ProcessNext(store: JobStore, queue: InMemoryCommandQueue, container: Container, tick: Tick)
    returns (command: Command, outcome: Outcome)
    requires WellTyped(container) && store.Valid() && queue.items != []
    modifies store, queue
    ensures store.Valid()
    ensures var r := Step(old(Snapshot(store, queue)), container, tick);
      Snapshot(store, queue) == r.state && command == r.command && outcome == r.outcome
  {
    command := queue.Dequeue();
    store.MarkProcessing(command.jobId);
    outcome := Dispatch(container, command, store, queue, tick.handlerTime, tick.external);
    match outcome {
      case Ok =>
        store.MarkSucceeded(command.jobId, tick.completionTime);
      case Fail(message) =>
        store.MarkFailed(command.jobId, message, tick.completionTime);
    }
  }

  /** The loop over a sequence of iterations: what it processed and what the handlers enqueued. */
  datatype RunResult = RunResult(state: System, processed: seq<Command>, spawned: seq<Command>)

  /**
   * The loop run with the iterations `ticks[from..]`; it stops early when the queue is empty,
   * where the source would wait for the next command.
   */
  function Run(s: System, container: Container, ticks: seq<Tick>, from: nat): (r: RunResult)
    requires WellTyped(container) && WellFormed(s) && from <= |ticks|
    ensures WellFormed(r.state)
    ensures |r.processed| <= |ticks| - from
    decreases |ticks| - from
  {
    if from == |ticks| || s.queue == [] then RunResult(s, [], [])
    else
      var step := Step(s, container, ticks[from]);
      var rest := Run(step.state, container, ticks, from + 1);
      RunResult(rest.state, [step.command] + rest.processed, step.spawned + rest.spawned)
  }

  /** One iteration of the loop followed by the rest of it. */
  lemma RunUnfold(s: System, container: Container, ticks: seq<Tick>, from: nat)
    requires WellTyped(container) && WellFormed(s) && from < |ticks| && s.queue != []
    ensures var step := Step(s, container, ticks[from]);
      var rest := Run(step.state, container, ticks, from + 1);
      && Run(s, container, ticks, from).state == rest.state
      && Run(s, container, ticks, from).processed == [step.command] + rest.processed
      && Run(s, container, ticks, from).spawned == step.spawned + rest.spawned
  {
  }

  /** One iteration of a loop that starts from a consistent state leads to a consistent state. */
  lemma RunStep(s: System, container: Container, ticks: seq<Tick>, from: nat)
    requires WellTyped(container) && Consistent(s) && from < |ticks| && s.queue != []
    ensures var step := Step(s, container, ticks[from]);
      && Consistent(step.state)
      && Run(s, container, ticks, from).state == Run(step.state, container, ticks, from + 1).state
      && Run(s, container, ticks, from).processed == [step.command] + Run(step.state, container, ticks, from + 1).processed
  {
    StepPreservesConsistent(s, container, ticks[from]);
    RunUnfold(s, container, ticks, from);
  }

  /** The loop does nothing once it is out of iterations or out of commands. */
  lemma RunStops(s: System, container: Container, ticks: seq<Tick>, from: nat)
    requires WellTyped(container) && WellFormed(s) && from <= |ticks| && (from == |ticks| || s.queue == [])
    ensures Run(s, container, ticks, from) == RunResult(s, [], [])
  {
  }

  /** Reassociating the sequences of one iteration followed by the rest of the loop. */
  lemma Splice<T>(head: T, tail: seq<T>, spawned: seq<T>, processed: seq<T>, remaining: seq<T>, later: seq<T>)
    requires processed + remaining == (tail + spawned) + later
    ensures ([head] + processed) + remaining == ([head] + tail) + (spawned + later)
  {
    calc {
      ([head] + processed) + remaining;
      [head] + (processed + remaining);
      [head] + ((tail + spawned) + later);
      [head] + (tail + (spawned + later));
      ([head] + tail) + (spawned + later);
    }
  }

  /**
   * Commands are processed in queue order, each exactly once, with the handlers' follow-up
   * commands behind those already waiting: what was processed, followed by what is still
   * queued, is what was queued at the start followed by everything the handlers enqueued.
   */
  lemma {:induction false} RunConserves(s: System, container: Container, ticks: seq<Tick>, from: nat)
    requires WellTyped(container) && WellFormed(s) && from <= |ticks|
    ensures var r := Run(s, container, ticks, from);
      r.processed + r.state.queue == s.queue + r.spawned
    decreases |ticks| - from, 1
  {
    if from < |ticks| && s.queue != [] {
      ConservesThroughStep(s, container, ticks, from);
    } else {
      RunStops(s, container, ticks, from);
    }
  }

  /** The inductive step of `RunConserves`: one iteration, then the rest of the loop. */
  lemma {:induction false} ConservesThroughStep(s: System, container: Container, ticks: seq<Tick>, from: nat)
    requires WellTyped(container) && WellFormed(s) && from < |ticks| && s.queue != []
    ensures var r := Run(s, container, ticks, from);
      r.processed + r.state.queue == s.queue + r.spawned
    decreases |ticks| - from, 0
  {
    var step := Step(s, container, ticks[from]);
    var rest := Run(step.state, container, ticks, from + 1);
    RunConserves(step.state, container, ticks, from + 1);
    RunUnfold(s, container, ticks, from);
    Splice(s.queue[0], s.queue[1..], step.spawned, rest.processed, rest.state.queue, rest.spawned);
    assert [s.queue[0]] + s.queue[1..] == s.queue;
  }

  /** The loop keeps the queue and the job store in step. */
  lemma {:induction false} RunPreservesConsistent(s: System, container: Container, ticks: seq<Tick>, from: nat)
    requires WellTyped(container) && Consistent(s) && from <= |ticks|
    ensures Consistent(Run(s, container, ticks, from).state)
    decreases |ticks| - from, 1
  {
    if from < |ticks| && s.queue != [] {
      ConsistentThroughStep(s, container, ticks, from);
    } else {
      RunStops(s, container, ticks, from);
    }
  }

  /** The inductive step of `RunPreservesConsistent`. */
  lemma {:induction false} ConsistentThroughStep(s: System, container: Container, ticks: seq<Tick>, from: nat)
    requires WellTyped(container) && Consistent(s) && from < |ticks| && s.queue != []
    ensures Consistent(Run(s, container, ticks, from).state)
    decreases |ticks| - from, 0
  {
    var step := Step(s, container, ticks[from]);
    StepPreservesConsistent(s, container, ticks[from]);
    RunPreservesConsistent(step.state, container, ticks, from + 1);
    RunUnfold(s, container, ticks, from);
  }

  /** A finished job stays exactly as it finished, however long the loop runs. */
  lemma {:induction false} RunKeepsTerminal(s: System, container: Container, ticks: seq<Tick>, from: nat, k: JobId)
    requires WellTyped(container) && Consistent(s) && from <= |ticks|
    requires k in s.jobs && IsTerminal(s.jobs[k].status)
    ensures var r := Run(s, container, ticks, from);
      k in r.state.jobs && r.state.jobs[k] == s.jobs[k]
    decreases |ticks| - from, 1
  {
    if from < |ticks| && s.queue != [] {
      KeepsTerminalThroughStep(s, container, ticks, from, k);
    } else {
      RunStops(s, container, ticks, from);
    }
  }

  /** The inductive step of `RunKeepsTerminal`: one iteration, then the rest of the loop. */
  lemma {:induction false} KeepsTerminalThroughStep(s: System, container: Container, ticks: seq<Tick>, from: nat, k: JobId)
    requires WellTyped(container) && Consistent(s) && from < |ticks| && s.queue != []
    requires k in s.jobs && IsTerminal(s.jobs[k].status)
    ensures var r := Run(s, container, ticks, from);
      k in r.state.jobs && r.state.jobs[k] == s.jobs[k]
    decreases |ticks| - from, 0
  {
    var next := Step(s, container, ticks[from]).state;
    RunStep(s, container, ticks, from);
    StepKeepsTerminal(s, container, ticks[from], k);
    RunKeepsTerminal(next, container, ticks, from + 1, k);
  }

  /**
   * The loop never stops on its own account: a failed command does not end it, so it runs until
   * it is out of iterations or the queue is empty.
   */
  lemma {:induction false} RunExhausts(s: System, container: Container, ticks: seq<Tick>, from: nat)
    requires WellTyped(container) && WellFormed(s) && from <= |ticks|
    ensures var r := Run(s, container, ticks, from);
      |r.processed| == |ticks| - from || r.state.queue == []
    decreases |ticks| - from, 1
  {
    if from < |ticks| && s.queue != [] {
      ExhaustsThroughStep(s, container, ticks, from);
    } else {
      RunStops(s, container, ticks, from);
    }
  }

  /** The inductive step of `RunExhausts`. */
  lemma {:induction false} ExhaustsThroughStep(s: System, container: Container, ticks: seq<Tick>, from: nat)
    requires WellTyped(container) && WellFormed(s) && from < |ticks| && s.queue != []
    ensures var r := Run(s, container, ticks, from);
      |r.processed| == |ticks| - from || r.state.queue == []
    decreases |ticks| - from, 0
  {
    var step := Step(s, container, ticks[from]);
    RunExhausts(step.state, container, ticks, from + 1);
    RunUnfold(s, container, ticks, from);
  }

  /** Every command in `commands` has a job, and that job is Succeeded or Failed. */
  predicate AllFinished(jobs: JobMap, commands: seq<Command>) {
    forall i | 0 <= i < |commands| :: commands[i].jobId in jobs && IsTerminal(jobs[commands[i].jobId].status)
  }

  lemma FinishedCons(jobs: JobMap, c: Command, commands: seq<Command>)
    requires c.jobId in jobs && IsTerminal(jobs[c.jobId].status) && AllFinished(jobs, commands)
    ensures AllFinished(jobs, [c] + commands)
  {
    forall i | 0 < i < |commands| + 1
      ensures ([c] + commands)[i].jobId in jobs && IsTerminal(jobs[([c] + commands)[i].jobId].status)
    {
      assert ([c] + commands)[i] == commands[i - 1];
    }
  }

  /** Every command the loop has processed has a job that is Succeeded or Failed. */
  lemma {:induction false} RunCompletesProcessed(s: System, container: Container, ticks: seq<Tick>, from: nat)
    requires WellTyped(container) && Consistent(s) && from <= |ticks|
    ensures var r := Run(s, container, ticks, from);
      AllFinished(r.state.jobs, r.processed)
    decreases |ticks| - from, 1
  {
    if from < |ticks| && s.queue != [] {
      CompletesThroughStep(s, container, ticks, from);
    } else {
      RunStops(s, container, ticks, from);
    }
  }

  /** The inductive step of `RunCompletesProcessed`. */
  lemma {:induction false} CompletesThroughStep(s: System, container: Container, ticks: seq<Tick>, from: nat)
    requires WellTyped(container) && Consistent(s) && from < |ticks| && s.queue != []
    ensures var r := Run(s, container, ticks, from);
      AllFinished(r.state.jobs, r.processed)
    decreases |ticks| - from, 0
  {
    var step := Step(s, container, ticks[from]);
    var rest := Run(step.state, container, ticks, from + 1);
    RunUnfold(s, container, ticks, from);
    StepLifecycle(s, container, ticks[from]);
    StepPreservesConsistent(s, container, ticks[from]);
    RunKeepsTerminal(step.state, container, ticks, from + 1, step.command.jobId);
    RunCompletesProcessed(step.state, container, ticks, from + 1);
    FinishedCons(rest.state.jobs, step.command, rest.processed);
  }

  /** `ExecuteAsync`'s loop, run for at most `|ticks|` iterations. */
  method Execute(store: JobStore, queue: InMemoryCommandQueue, container: Container, ticks: seq<Tick>)
    returns (processed: seq<Command>)
    requires WellTyped(container) && store.Valid()
    modifies store, queue
    ensures store.Valid()
    ensures var r := Run(old(Snapshot(store, queue)), container, ticks, 0);
      Snapshot(store, queue) == r.state && processed == r.processed
  {
    ghost var s0 := Snapshot(store, queue);
    processed := [];
    var i := 0;
    while i < |ticks| && queue.items != []
      invariant 0 <= i <= |ticks|
      invariant store.Valid()
      invariant Run(s0, container, ticks, 0).state == Run(Snapshot(store, queue), container, ticks, i).state
      invariant Run(s0, container, ticks, 0).processed == processed + Run(Snapshot(store, queue), container, ticks, i).processed
    {
      ghost var before := Snapshot(store, queue);
      RunUnfold(before, container, ticks, i);
      var command, outcome := ProcessNext(store, queue, container, ticks[i]);
      AppendAssoc(processed, [command], Run(Snapshot(store, queue), container, ticks, i + 1).processed);
      processed := processed + [command];
      i := i + 1;
    }
    RunStops(Snapshot(store, queue), container, ticks, i);
  }
}
