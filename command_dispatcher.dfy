/**
 * `CommandDispatcher`: finds the handler registered for a command's runtime type and invokes its
 * `HandleAsync`. The handler registry is the dependency-injection container's table of
 * `ICommandHandler<T>` registrations.
 */
module CommandDispatcher {
  import opened Wrappers
  import opened Jobs
  import opened Commands
  import opened CommandQueue
  import opened Pipeline
  import opened Handlers

  datatype Handler = SendEmailHandler | SendSmsHandler | GenerateReportHandler | UserRegisteredHandler

  /** The `T` in the `ICommandHandler<T>` a handler implements. */
  function HandledType(h: Handler): CommandType {
    match h
    case SendEmailHandler => SendEmailCommand
    case SendSmsHandler => SendSmsCommand
    case GenerateReportHandler => GenerateReportCommand
    case UserRegisteredHandler => UserRegisteredCommand
  }

  /**
   * What the dispatcher sees of the dependency-injection container and of reflection: the
   * `ICommandHandler<T>` registrations keyed by `T`, the methods the handler interface declares,
   * and the message of the container's exception when `GetRequiredService` finds no registration
   * (framework text, not part of this repository).
   */
  datatype Container = Container(
    handlers: map<CommandType, Handler>,
    interfaceMethods: set<string>,
    noService: CommandType -> string)

  /** The container only accepts an implementation of `ICommandHandler<T>` under `T`. */
  predicate WellTyped(container: Container) {
    forall t | t in container.handlers :: HandledType(container.handlers[t]) == t
  }

  /** The name the dispatcher looks up by reflection. */
  const HandleAsyncName := "HandleAsync"

  /** The host's registrations, one handler per command type, behind `ICommandHandler<T>`. */
  function HostContainer(noService: CommandType -> string): Container {
    Container(
      map[
        SendEmailCommand := SendEmailHandler,
        SendSmsCommand := SendSmsHandler,
        GenerateReportCommand := GenerateReportHandler,
        UserRegisteredCommand := UserRegisteredHandler],
      {HandleAsyncName},
      noService)
  }

  /** What a dispatch ends with: the awaited task completes, or faults with a message. */
  datatype Outcome = Ok | Fail(message: string)

  const HandleAsyncMissingMessage := "HandleAsync method not found on handler."

  /**
   * Handler resolution: the registration for the command's runtime type is required first, and
   * only then is `HandleAsync` looked up on the handler interface.
   */
  function Resolve(container: Container, c: Command): (r: Result<Handler, string>)
    ensures r.Success? <==> TypeOf(c) in container.handlers && HandleAsyncName in container.interfaceMethods
    ensures r.Success? ==> r.value == container.handlers[TypeOf(c)]
    ensures r.Success? && WellTyped(container) ==> HandledType(r.value) == TypeOf(c)
    ensures TypeOf(c) !in container.handlers ==> r == Failure(container.noService(TypeOf(c)))
    ensures TypeOf(c) in container.handlers && HandleAsyncName !in container.interfaceMethods ==>
      r == Failure(HandleAsyncMissingMessage)
  {
    if TypeOf(c) !in container.handlers then Failure(container.noService(TypeOf(c)))
    else if HandleAsyncName !in container.interfaceMethods then Failure(HandleAsyncMissingMessage)
    else Success(container.handlers[TypeOf(c)])
  }

  /** With the host's registrations every command reaches the handler for its own type. */
  lemma HostContainerResolvesEveryCommand(noService: CommandType -> string, c: Command)
    ensures WellTyped(HostContainer(noService))
    ensures Resolve(HostContainer(noService), c).Success?
    ensures HandledType(Resolve(HostContainer(noService), c).value) == TypeOf(c)
  {
    var host := HostContainer(noService);
    assert HandleAsyncName in host.interfaceMethods;
    assert TypeOf(c) in host.handlers.Keys by {
      match TypeOf(c)
      case SendEmailCommand =>
      case SendSmsCommand =>
      case GenerateReportCommand =>
      case UserRegisteredCommand =>
    }
  }

  /**
   * `DispatchAsync` followed by awaiting its task, on the shared state. The registration handler's
   * effect is the fan-out; the email, SMS and report handlers only log and wait, so their outcome
   * (completion, or the cancellation that faults the wait) is the parameter `external`.
   */
  function Dispatched(s: System, container: Container, c: Command, now: int, external: Outcome): (System, Outcome)
    requires WellTyped(container)
  {
    match Resolve(container, c)
    case Failure(message) => (s, Fail(message))
    case Success(h) =>
      if h == UserRegisteredHandler then (FannedOut(s, c, now), Ok) else (s, external)
  }

  /**
   * What dispatching does: a resolution failure surfaces as the failure's message and changes
   * nothing; a registration is fanned out and completes; every other handler leaves the state
   * alone and its outcome is passed through unchanged.
   */
  lemma DispatchCases(s: System, container: Container, c: Command, now: int, external: Outcome)
    requires WellTyped(container)
    ensures var r := Dispatched(s, container, c, now, external);
      && (Resolve(container, c).Failure? ==> r == (s, Fail(Resolve(container, c).error)))
      && (Resolve(container, c).Success? && c.UserRegistered? ==> r == (FannedOut(s, c, now), Ok))
      && (Resolve(container, c).Success? && !c.UserRegistered? ==> r == (s, external))
  {
  }

  /** The state after dispatching is either unchanged or the registration's fan-out. */
  lemma DispatchedState(s: System, container: Container, c: Command, now: int, external: Outcome)
    requires WellTyped(container)
    ensures var r := Dispatched(s, container, c, now, external).0;
      r == s || (c.UserRegistered? && r == FannedOut(s, c, now))
  {
  }

  /** Dispatching never touches an existing job and only appends to the queue. */
  lemma DispatchOnlyAppends(s: System, container: Container, c: Command, now: int, external: Outcome)
    requires WellTyped(container) && WellFormed(s)
    ensures var r := Dispatched(s, container, c, now, external).0;
      && WellFormed(r)
      && s.jobs.Keys <= r.jobs.Keys
      && (forall k | k in s.jobs :: r.jobs[k] == s.jobs[k])
      && |s.queue| <= |r.queue| && r.queue[..|s.queue|] == s.queue
  {
    DispatchedState(s, container, c, now, external);
    if c.UserRegistered? {
      FanOutOnlyAppends(s, c, now);
    }
  }

  /** Dispatching keeps the queue and the job store in step. */
  lemma DispatchPreservesConsistent(s: System, container: Container, c: Command, now: int, external: Outcome)
    requires WellTyped(container) && Consistent(s)
    ensures Consistent(Dispatched(s, container, c, now, external).0)
  {
    DispatchedState(s, container, c, now, external);
    if c.UserRegistered? {
      FanOutPreservesConsistent(s, c, now);
    }
  }

  /** `DispatchAsync` on the singletons, with the await folded in. */
  method Dispatch(container: Container, c: Command, store: JobStore, queue: InMemoryCommandQueue, now: int, external: Outcome)
    returns (outcome: Outcome)
    requires WellTyped(container) && store.Valid()
    modifies store, queue
    ensures store.Valid()
    ensures (Snapshot(store, queue), outcome) == Dispatched(old(Snapshot(store, queue)), container, c, now, external)
  {
    var resolved := Resolve(container, c);
    match resolved {
      case Failure(message) =>
        outcome := Fail(message);
      case Success(h) =>
        if h == UserRegisteredHandler {
          HandleUserRegistered(c, store, queue, now);
          outcome := Ok;
        } else {
          outcome := external;
        }
    }
  }
}
