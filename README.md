# Background jobs, recommendation strategies and payment providers

This project is a Dafny model of two parts of a set of small ASP.NET design-pattern services.
It proves properties of the model.

**The Command pattern background-job pipeline** (`Command.BackgroundJobsApi`):
- `JobStore` is the in-memory dictionary of job records.
- `InMemoryCommandQueue` is the unbounded channel of commands, read only by the worker.
- `CommandDispatcher` resolves `ICommandHandler<T>` for a command's runtime type and invokes
  `HandleAsync`.
- `UserRegisteredCommandHandler` fans a registration out into two Queued child jobs (an SMS and
  an email) and enqueues their commands.
- `CommandWorker` is the hosted loop. It dequeues a command, marks its job Processing,
  dispatches it, and marks the job Succeeded, or Failed with the exception's message.

**The Strategy and Factory services** (`Strategy.RecommendationsApi`, `Factory.PaymentsApi`):
- The four recommendation strategies: `popular`, `new`, `personalized` and `category`.
- `RecommendationService`, with its limit checks, default type, trimmed case-insensitive lookup
  and sorted `AvailableTypes`.
- `PaymentProviderFactory`, with its case-insensitive provider table, its `Create` errors and
  sorted `AvailableProviders`.

Modules, one per source component:
- `Jobs`: `JobRecord` values and the `JobStore` class (`jobs: map`, `nextId`). `MarkedProcessing`,
  `MarkedSucceeded` and `MarkedFailed` specify the three status updates.
- `Commands`: the four command records and their type names.
- `CommandQueue`: the `InMemoryCommandQueue` class (`items: seq`) and a replay of any trace of
  writes and reads.
- `Pipeline`: the state the two singletons share, `System(jobs, nextId, queue)`, and its
  invariant `Consistent`. Every queued command has a Queued job, and no two queued commands share
  a job.
- `Handlers`: the registration handler, as a method on the singletons and as the function
  `FannedOut`.
- `CommandDispatcher`: the container's registrations, `Resolve`, `Dispatched` and the `Dispatch`
  method.
- `CommandWorker`:
  - one loop iteration, as `Step` and as `ProcessNext` on the singletons;
  - the loop over a sequence of iterations, as `Run` and as `Execute`, a `while` loop proved
    against `Run`.
- `Text`: the .NET string helpers the services rely on (whitespace, `Trim`, ordinal-ignore-case
  equality, ordinal order).
- `KeyedRegistry`: `ToDictionary(..., StringComparer.OrdinalIgnoreCase)` and `TryGetValue` on a
  list of keyed entries.
- `Ranking`:
  - `OrderByDescending(k1).ThenByDescending(k2)` as a stable sort on the pair `(k1, k2)`;
  - `Take`, `Where` and `Except`.
- `Strategies`, `RecommendationService`, `PaymentProviderFactory`: the services themselves.

## Model

| member | source | states |
|---|---|---|
| Jobs.JobStore.constructor | src/Command.BackgroundJobsApi/Services/JobStore.cs:8 | the store starts with no jobs |
| Jobs.JobStore.Create | src/Command.BackgroundJobsApi/Services/JobStore.cs:10-22 | the new record has an id not yet in the store, status Queued, the given command name, the creation time, and no error or completion time; the store gains exactly that record and every other record is unchanged |
| Jobs.JobStore.TryGet | src/Command.BackgroundJobsApi/Services/JobStore.cs:24-27 | reports found exactly when the id is stored and returns that record; an unknown id gives false and no record |
| Jobs.MarkedProcessing | src/Command.BackgroundJobsApi/Services/JobStore.cs:29-33 | a stored job becomes Processing and keeps its id, name, creation time, error and completion time; an unknown id leaves the store as it was; every other job is unchanged |
| Jobs.JobStore.MarkProcessing | src/Command.BackgroundJobsApi/Services/JobStore.cs:29-33 | the store's new contents are `MarkedProcessing` of the old ones |
| Jobs.MarkedSucceeded | src/Command.BackgroundJobsApi/Services/JobStore.cs:35-42 | a stored job becomes Succeeded, stamped with the completion time, and keeps its error; an unknown id changes nothing; other jobs are unchanged |
| Jobs.JobStore.MarkSucceeded | src/Command.BackgroundJobsApi/Services/JobStore.cs:35-42 | the store's new contents are `MarkedSucceeded` of the old ones |
| Jobs.MarkedFailed | src/Command.BackgroundJobsApi/Services/JobStore.cs:44-52 | a stored job becomes Failed with the given error and the completion time; an unknown id changes nothing; other jobs are unchanged |
| Jobs.JobStore.MarkFailed | src/Command.BackgroundJobsApi/Services/JobStore.cs:44-52 | the store's new contents are `MarkedFailed` of the old ones |
| CommandQueue.InMemoryCommandQueue.constructor | src/Command.BackgroundJobsApi/Infrastructure/InMemoryCommandQueue.cs:8 | a new channel holds no commands |
| CommandQueue.InMemoryCommandQueue.Enqueue | src/Command.BackgroundJobsApi/Infrastructure/InMemoryCommandQueue.cs:10-13 | the command is appended at the back of the queue |
| CommandQueue.InMemoryCommandQueue.Dequeue | src/Command.BackgroundJobsApi/Infrastructure/InMemoryCommandQueue.cs:15-18 | returns the front command and removes exactly it |
| CommandQueue.Run | src/Command.BackgroundJobsApi/Infrastructure/InMemoryCommandQueue.cs:8-18 | replays a trace of writes and reads on the channel; its contract is stated by `CommandQueue.RunConserves`, `CommandQueue.DeliveryOrder` and `CommandQueue.RunFeasible` |
| CommandQueue.PutsTakesCount | src/Command.BackgroundJobsApi/Infrastructure/InMemoryCommandQueue.cs:8-18 | every operation of a trace is exactly one of a write or a read: the commands written plus the reads made number the operations |
| CommandQueue.RunConserves | src/Command.BackgroundJobsApi/Infrastructure/InMemoryCommandQueue.cs:8-18 | under any trace of writes and reads, the commands read followed by those still queued are the initial contents followed by every command written; one command is read per read |
| CommandQueue.DeliveryOrder | src/Command.BackgroundJobsApi/Infrastructure/InMemoryCommandQueue.cs:8-18 | first in, first out: the k-th command read is the k-th command queued |
| CommandQueue.RunFeasible | src/Command.BackgroundJobsApi/Infrastructure/InMemoryCommandQueue.cs:15-18 | a trace never has to wait for a writer when no prefix of it reads more commands than were queued |
| Pipeline.Submitted | src/Command.BackgroundJobsApi/Controllers/JobsController.cs:26-37 | creating a job and enqueuing its command adds one fresh Queued job with the command's name and time, leaves every other job unchanged, and appends the command to the queue |
| Pipeline.SubmitPreservesConsistent | src/Command.BackgroundJobsApi/Controllers/JobsController.cs:26-37 | submitting keeps every queued command paired with its own Queued job |
| Handlers.FanOutEffect | src/Command.BackgroundJobsApi/Handlers/UserRegisteredCommandHandler.cs:24-54 | a registration creates two new Queued jobs named SendSmsCommand and SendEmailCommand, stamped with the handler time, and enqueues the welcome SMS and then the welcome email for them; the existing jobs are unchanged |
| Handlers.FanOutOnlyAppends | src/Command.BackgroundJobsApi/Handlers/UserRegisteredCommandHandler.cs:30-47 | the fan-out keeps the store well keyed, never alters an existing job and only appends to the queue |
| Handlers.FanOutPreservesConsistent | src/Command.BackgroundJobsApi/Handlers/UserRegisteredCommandHandler.cs:30-47 | the fan-out keeps every queued command paired with its own Queued job |
| Handlers.FannedOut | src/Command.BackgroundJobsApi/Handlers/UserRegisteredCommandHandler.cs:24-54 | the registration fan-out on the shared state; its contract is stated by `Handlers.FanOutEffect`, `Handlers.FanOutOnlyAppends` and `Handlers.FanOutPreservesConsistent` |
| Handlers.HandleUserRegistered | src/Command.BackgroundJobsApi/Handlers/UserRegisteredCommandHandler.cs:24-54 | on the singletons, the new store and queue are the fan-out of the old ones |
| CommandDispatcher.Resolve | src/Command.BackgroundJobsApi/Services/CommandDispatcher.cs:19-26 | succeeds exactly when a handler is registered for the command's runtime type and the interface declares HandleAsync; a missing registration fails with the container's message before the method check; a missing method fails with the dispatcher's message; with well-typed registrations the handler handles that type |
| CommandDispatcher.HostContainerResolvesEveryCommand | src/Command.BackgroundJobsApi/Program.cs:19-22 | the host's registrations are well typed, and every command resolves to the handler for its own type |
| CommandDispatcher.Dispatched | src/Command.BackgroundJobsApi/Services/CommandDispatcher.cs:15-29 | resolves and invokes the handler for a command; its contract is stated by `CommandDispatcher.DispatchCases`, `CommandDispatcher.DispatchOnlyAppends` and `CommandDispatcher.DispatchPreservesConsistent` |
| CommandDispatcher.DispatchCases | src/Command.BackgroundJobsApi/Services/CommandDispatcher.cs:15-29 | a resolution failure surfaces as a failure with its message and changes nothing; a registration is fanned out and completes; any other handler's outcome passes through and leaves the state alone |
| CommandDispatcher.DispatchOnlyAppends | src/Command.BackgroundJobsApi/Services/CommandDispatcher.cs:15-29 | dispatching keeps the store well keyed, never alters an existing job and only appends to the queue |
| CommandDispatcher.DispatchPreservesConsistent | src/Command.BackgroundJobsApi/Services/CommandDispatcher.cs:15-29 | dispatching keeps every queued command paired with its own Queued job |
| CommandDispatcher.Dispatch | src/Command.BackgroundJobsApi/Services/CommandDispatcher.cs:15-29 | on the singletons, the new state and the outcome are those of `Dispatched` |
| CommandWorker.Started | src/Command.BackgroundJobsApi/Infrastructure/CommandWorker.cs:34-38 | taking the head command and marking its job Processing keeps the store well keyed |
| CommandWorker.Finished | src/Command.BackgroundJobsApi/Infrastructure/CommandWorker.cs:46-51 | a completed dispatch marks the job Succeeded, a failed one marks it Failed with the failure's message; both stamp the completion time; nothing else changes |
| CommandWorker.Step | src/Command.BackgroundJobsApi/Infrastructure/CommandWorker.cs:34-52 | one iteration processes the head command, and the new queue is the rest of the old queue followed by what the handler enqueued |
| CommandWorker.StepOutcome | src/Command.BackgroundJobsApi/Infrastructure/CommandWorker.cs:44-52 | an iteration fails with the resolution error, completes a registration, or takes the other handler's outcome |
| CommandWorker.StepLifecycle | src/Command.BackgroundJobsApi/Infrastructure/CommandWorker.cs:38-51 | the job is Processing while its handler runs; afterwards it is the same job, Succeeded exactly when the dispatch completed and Failed with the message otherwise, stamped with the completion time |
| CommandWorker.MissingHandlerFailsJob | src/Command.BackgroundJobsApi/Infrastructure/CommandWorker.cs:44-51 | a command with no registered handler leaves its job Failed with the container's message and enqueues nothing |
| CommandWorker.StepKeepsOtherJobs | src/Command.BackgroundJobsApi/Infrastructure/CommandWorker.cs:34-52 | an iteration never removes a job and leaves every job other than the processed one unchanged |
| CommandWorker.StartedConsistent | src/Command.BackgroundJobsApi/Infrastructure/CommandWorker.cs:34-38 | after the dequeue and the Processing mark, the remaining queue is still consistent with the store |
| CommandWorker.FinishedConsistent | src/Command.BackgroundJobsApi/Infrastructure/CommandWorker.cs:46-51 | marking a job that is no longer Queued keeps the queue consistent with the store |
| CommandWorker.StepPreservesConsistent | src/Command.BackgroundJobsApi/Infrastructure/CommandWorker.cs:34-52 | an iteration keeps every queued command paired with its own Queued job |
| CommandWorker.StepKeepsTerminal | src/Command.BackgroundJobsApi/Infrastructure/CommandWorker.cs:34-52 | a job that is already Succeeded or Failed is not touched by an iteration |
| CommandWorker.ProcessNext | src/Command.BackgroundJobsApi/Infrastructure/CommandWorker.cs:34-52 | on the singletons, the new state, the command and the outcome are those of `Step` |
| CommandWorker.Run | src/Command.BackgroundJobsApi/Infrastructure/CommandWorker.cs:32-53 | the loop processes at most one command per iteration and keeps the store well keyed |
| CommandWorker.RunStep | src/Command.BackgroundJobsApi/Infrastructure/CommandWorker.cs:32-53 | the loop is one iteration followed by the rest of the loop, and the iteration keeps the state consistent |
| CommandWorker.RunConserves | src/Command.BackgroundJobsApi/Infrastructure/CommandWorker.cs:32-53 | no command is lost, duplicated or reordered: the commands processed, followed by those still queued, are the commands queued at the start followed by everything the handlers enqueued |
| CommandWorker.RunPreservesConsistent | src/Command.BackgroundJobsApi/Infrastructure/CommandWorker.cs:32-53 | the loop keeps every queued command paired with its own Queued job |
| CommandWorker.RunKeepsTerminal | src/Command.BackgroundJobsApi/Infrastructure/CommandWorker.cs:32-53 | a finished job stays exactly as it is for the rest of the loop |
| CommandWorker.RunCompletesProcessed | src/Command.BackgroundJobsApi/Infrastructure/CommandWorker.cs:32-53 | every command the loop has processed has a job that is Succeeded or Failed |
| CommandWorker.RunExhausts | src/Command.BackgroundJobsApi/Infrastructure/CommandWorker.cs:32-53 | a failed command does not end the loop: it runs until every iteration is used or the queue is empty |
| CommandWorker.Execute | src/Command.BackgroundJobsApi/Infrastructure/CommandWorker.cs:28-54 | on the singletons, the loop's final state and the commands it processed are those of `Run` |
| Text.TrimStart | src/Strategy.RecommendationsApi/Services/RecommendationService.cs:24 | the result is a suffix of the input; everything removed is whitespace, and the result does not start with whitespace |
| Text.TrimEnd | src/Strategy.RecommendationsApi/Services/RecommendationService.cs:24 | the result is a prefix of the input; everything removed is whitespace, and the result does not end with whitespace |
| Text.Trim | src/Strategy.RecommendationsApi/Services/RecommendationService.cs:24 | the result is the input with only whitespace removed before and after it: it sits at some offset of the input with a blank prefix before it and a blank suffix after it; it neither starts nor ends with whitespace, and it is empty exactly when the input is all whitespace |
| Text.TrimIdempotent | src/Factory.PaymentsApi/Factory/PaymentProviderFactory.cs:19 | trimming twice is trimming once |
| Text.SortOrdinal | src/Strategy.RecommendationsApi/Services/RecommendationService.cs:17 | the result is in ordinal order and is a permutation of the input |
| KeyedRegistry.IndexOf | src/Strategy.RecommendationsApi/Services/RecommendationService.cs:26 | finds the first entry whose key equals the requested one ignoring case; none means no entry matches |
| KeyedRegistry.FindMatching | src/Strategy.RecommendationsApi/Services/RecommendationService.cs:26 | with distinct keys, any entry that matches ignoring case is the one the lookup returns |
| KeyedRegistry.FindMissing | src/Factory.PaymentsApi/Factory/PaymentProviderFactory.cs:19 | when no key matches ignoring case, the lookup finds nothing |
| KeyedRegistry.Find | src/Strategy.RecommendationsApi/Services/RecommendationService.cs:26 | `TryGetValue` with a case-insensitive comparer; its contract is stated by `KeyedRegistry.FindMatching` and `KeyedRegistry.FindMissing` |
| KeyedRegistry.Build | src/Strategy.RecommendationsApi/Services/RecommendationService.cs:14 | building the table succeeds exactly when no two keys are equal ignoring case, and keeps every entry; on failure the message names one of the keys |
| KeyedRegistry.SortedKeys | src/Factory.PaymentsApi/Factory/PaymentProviderFactory.cs:27-28 | the keys in ordinal order, a permutation of the table's keys |
| Ranking.SortByRank | src/Strategy.RecommendationsApi/Strategies/PopularStrategy.cs:15-16 | the result is ordered by descending key, then descending tie-breaker, and is a permutation of the input |
| Ranking.SortByRankStable | src/Strategy.RecommendationsApi/Strategies/PopularStrategy.cs:15-16 | the sort is stable: items with equal keys keep their input order |
| Ranking.SortByRankSameKey | src/Strategy.RecommendationsApi/Strategies/PersonalizedStrategy.cs:22-23 | sorting by two key functions that agree everywhere gives the same order |
| Ranking.Take | src/Strategy.RecommendationsApi/Strategies/PopularStrategy.cs:17 | the first `n` items, or all of them, or none when `n` is not positive |
| Ranking.Filter | src/Strategy.RecommendationsApi/Strategies/CategoryStrategy.cs:24 | keeps every occurrence of every item that satisfies the predicate and nothing else |
| Ranking.FilterAppend | src/Strategy.RecommendationsApi/Strategies/CategoryStrategy.cs:24 | `Where` keeps input order: filtering a concatenation is filtering each part and concatenating |
| Ranking.FilterSingle | src/Strategy.RecommendationsApi/Strategies/CategoryStrategy.cs:24 | one item is kept exactly when it satisfies the predicate |
| Ranking.Except | src/Strategy.RecommendationsApi/Strategies/CategoryStrategy.cs:34 | the distinct items of the first sequence that are not in the second |
| Ranking.ExceptInOrder | src/Strategy.RecommendationsApi/Strategies/CategoryStrategy.cs:34 | every item `Except` yields occurs in the first sequence, and the items come in the order of their first occurrences there |
| Ranking.TopRanked | src/Strategy.RecommendationsApi/Strategies/PopularStrategy.cs:14-18 | sort then take gives `min(limit, n)` items drawn from the input, in descending order, and no item left out ranks above one kept |
| Strategies.PopularRecommendsTop | src/Strategy.RecommendationsApi/Strategies/PopularStrategy.cs:14-18 | the top `limit` products by popularity, then by newness; the user plays no part |
| Strategies.Popular | src/Strategy.RecommendationsApi/Strategies/PopularStrategy.cs:9-19 | the popular ranking; its contract is stated by `Strategies.PopularRecommendsTop` |
| Strategies.NewestRecommendsTop | src/Strategy.RecommendationsApi/Strategies/NewStrategy.cs:13-17 | the top `limit` products by creation time, then by popularity; the user plays no part |
| Strategies.Newest | src/Strategy.RecommendationsApi/Strategies/NewStrategy.cs:8-18 | the newest-first ranking; its contract is stated by `Strategies.NewestRecommendsTop` |
| Strategies.MatchesAnyMeansSome | src/Strategy.RecommendationsApi/Strategies/PersonalizedStrategy.cs:15-16 | a product matches exactly when one of the user's interests equals its category ignoring case |
| Strategies.BoostLowersScoreAsWritten | src/Strategy.RecommendationsApi/Strategies/PersonalizedStrategy.cs:18 | as written, the 32-bit score wraps: a product in an interest category can score below an unmatched, less popular one |
| Strategies.BoostNeverLowersScore | src/Strategy.RecommendationsApi/Strategies/PersonalizedStrategy.cs:15-18 | the score is the popularity plus 1000 exactly when the product matches an interest, and is never below the popularity |
| Strategies.ScoreAgreesWithoutOverflow | src/Strategy.RecommendationsApi/Strategies/PersonalizedStrategy.cs:18 | whenever the sum fits in 32 bits, the score as written equals the intended score |
| Strategies.PersonalizedRecommendsTop | src/Strategy.RecommendationsApi/Strategies/PersonalizedStrategy.cs:13-26 | the top `limit` products by score, then by newness, drawn from the input |
| Strategies.PersonalizedWithoutInterestsIsPopular | src/Strategy.RecommendationsApi/Strategies/PersonalizedStrategy.cs:13-26 | with no interests, the personalized list is the popular list |
| Strategies.Personalized | src/Strategy.RecommendationsApi/Strategies/PersonalizedStrategy.cs:8-27 | the personalized ranking by the corrected score; its contract is stated by `Strategies.PersonalizedRecommendsTop` and `Strategies.PersonalizedWithoutInterestsIsPopular` |
| Strategies.PersonalizedAsWrittenRecommendsTop | src/Strategy.RecommendationsApi/Strategies/PersonalizedStrategy.cs:13-26 | ranking by the wrapping 32-bit score as written gives the top `limit` products by that score, then by newness, drawn from the input |
| Strategies.PersonalizedAgreesWithoutOverflow | src/Strategy.RecommendationsApi/Strategies/PersonalizedStrategy.cs:18-24 | when no product's boosted popularity overflows 32 bits, the corrected and the as-written personalized lists are the same |
| Strategies.PersonalizedAsWrittenPrefersCap | src/Strategy.RecommendationsApi/Strategies/PersonalizedStrategy.cs:18-24 | for the input in the finding, the source as written recommends the unmatched Cap and the corrected ranking recommends the matching Hoodie |
| Strategies.NewestTop | src/Strategy.RecommendationsApi/Strategies/CategoryStrategy.cs:14-17 | the top `limit` products by creation time alone, drawn from the input |
| Strategies.ByCategoryWithoutInterests | src/Strategy.RecommendationsApi/Strategies/CategoryStrategy.cs:12-18 | a user without interests gets the `limit` newest products |
| Strategies.PrimaryIsTargetCategory | src/Strategy.RecommendationsApi/Strategies/CategoryStrategy.cs:23-27 | the primary list holds every product of the target category, matched ignoring case, and nothing else, in descending popularity |
| Strategies.FallbackIsOtherCategories | src/Strategy.RecommendationsApi/Strategies/CategoryStrategy.cs:33-37 | the fallback fills at most the remaining places with distinct products from outside the primary list and the target category, by descending popularity, then creation time, and no product outside the primary list that was left out outranks one kept |
| Strategies.ForTargetShape | src/Strategy.RecommendationsApi/Strategies/CategoryStrategy.cs:23-39 | enough primary products give their first `limit`; otherwise all primary products are followed by at most `limit` minus their number of distinct products from other categories, the most popular of those outside the primary list, by descending popularity, then creation time |
| Strategies.ByCategoryWithInterests | src/Strategy.RecommendationsApi/Strategies/CategoryStrategy.cs:20-39 | only the first interest counts: the primary products of that category come first, followed when they are too few by the most popular distinct products outside the primary list, by descending popularity, then creation time, at most `limit` in all |
| Strategies.ByCategoryDrawsFromInput | src/Strategy.RecommendationsApi/Strategies/CategoryStrategy.cs:9-40 | the category list never holds more than `limit` products, and every product comes from the input |
| Strategies.ByCategory | src/Strategy.RecommendationsApi/Strategies/CategoryStrategy.cs:9-40 | the category ranking; `Strategies.ByCategoryWithoutInterests` gives the newest products when there are no interests, `Strategies.ByCategoryWithInterests` gives the target category first, then the most popular other products, and `Strategies.ByCategoryDrawsFromInput` bounds the result and draws it from the input |
| RecommendationService.StrategyDrawsFromInput | src/Strategy.RecommendationsApi/Services/RecommendationService.cs:29 | every strategy returns at most `limit` products, each taken from the input |
| RecommendationService.New | src/Strategy.RecommendationsApi/Services/RecommendationService.cs:11-15 | builds the service's table; its contract is stated by `RecommendationService.NewRequiresDistinctKeys` |
| RecommendationService.NewRequiresDistinctKeys | src/Strategy.RecommendationsApi/Services/RecommendationService.cs:11-15 | the service can be built exactly when no two strategy keys are equal ignoring case, and then its table holds the strategies in order |
| RecommendationService.RegisteredStrategiesBuild | src/Strategy.RecommendationsApi/Program.cs:16-19 | the four registered strategies have distinct keys, so the service can be built |
| RecommendationService.RegisteredAvailableTypes | src/Strategy.RecommendationsApi/Services/RecommendationService.cs:17 | the host's service lists its types as category, new, personalized, popular: the registered keys in ascending order |
| RecommendationService.AvailableTypes | src/Strategy.RecommendationsApi/Services/RecommendationService.cs:17 | the table's keys in order; `KeyedRegistry.SortedKeys` states that they are sorted and a permutation of the keys, and `RecommendationService.RegisteredAvailableTypes` gives the host's list |
| RecommendationService.RequestedKey | src/Strategy.RecommendationsApi/Services/RecommendationService.cs:24 | the key a request looks up; its contract is stated by `RecommendationService.RequestedKeyDefaultsAndTrims` |
| RecommendationService.Recommend | src/Strategy.RecommendationsApi/Services/RecommendationService.cs:19-30 | the service's entry point; its contract is stated by `RecommendationService.RecommendRouting` and `RecommendationService.RecommendBounded` |
| RecommendationService.RecommendRouting | src/Strategy.RecommendationsApi/Services/RecommendationService.cs:19-30 | a limit of 0 or less and a limit above 50 fail with their messages, in that order; otherwise a key that matches a strategy ignoring case runs that strategy on the catalogue, and an unknown key fails with the unknown-type message |
| RecommendationService.RequestedKeyDefaultsAndTrims | src/Strategy.RecommendationsApi/Services/RecommendationService.cs:24 | a missing or blank type selects "popular"; any other is trimmed, and the trimmed key is not empty |
| RecommendationService.RecommendBounded | src/Strategy.RecommendationsApi/Services/RecommendationService.cs:19-30 | a successful recommendation had a limit between 1 and 50 and returns at most that many catalogue products |
| RecommendationService.BlankTypeIsPopular | src/Strategy.RecommendationsApi/Services/RecommendationService.cs:24-29 | with the registered strategies, a blank type gives the popular recommendation |
| PaymentProviderFactory.NewRequiresDistinctNames | src/Factory.PaymentsApi/Factory/PaymentProviderFactory.cs:9-12 | the factory can be built exactly when no two provider names are equal ignoring case, and then its table holds the providers in order |
| PaymentProviderFactory.New | src/Factory.PaymentsApi/Factory/PaymentProviderFactory.cs:9-12 | builds the factory's table; its contract is stated by `PaymentProviderFactory.NewRequiresDistinctNames` |
| PaymentProviderFactory.RegisteredProvidersBuild | src/Factory.PaymentsApi/Program.cs:12-14 | stripe, paypal and iyzico have distinct names, so the factory can be built |
| PaymentProviderFactory.CreateResolves | src/Factory.PaymentsApi/Factory/PaymentProviderFactory.cs:14-25 | a missing or blank name fails with "Provider is required."; otherwise the trimmed name selects the provider registered under it ignoring case, and an unknown name fails with the unknown-provider message |
| PaymentProviderFactory.Create | src/Factory.PaymentsApi/Factory/PaymentProviderFactory.cs:14-25 | resolves a provider by name; its contract is stated by `PaymentProviderFactory.CreateResolves` |
| PaymentProviderFactory.RegisteredAvailableProviders | src/Factory.PaymentsApi/Factory/PaymentProviderFactory.cs:27-28 | the host's factory lists its providers as iyzico, paypal, stripe: the registered names in ascending order |
| PaymentProviderFactory.AvailableProviders | src/Factory.PaymentsApi/Factory/PaymentProviderFactory.cs:27-28 | the table's names in order; `KeyedRegistry.SortedKeys` states that they are sorted and a permutation of the names, and `PaymentProviderFactory.RegisteredAvailableProviders` gives the host's list |
| PaymentProviderFactory.PaddedNameSelectsStripe | src/Factory.PaymentsApi/Factory/PaymentProviderFactory.cs:16-20 | with the registered providers, " STRIPE " selects the Stripe provider |

## Left out

- Concurrency is not modelled: the channel's thread safety, `ConcurrentDictionary`, and producers running beside the worker. Each operation is one atomic step.
- CommandQueue.InMemoryCommandQueue.Dequeue: requires a non-empty queue, because `ReadAsync` waiting for a writer is concurrency.
- CommandWorker.Run: stops when the queue is empty, where the source would wait. The finite sequence of `Tick`s stands in for the stop signal.
- CommandWorker.Execute: the same bound applies. Cancelling `stoppingToken` is not modelled, except as a handler outcome.
- Cancellation tokens are not passed to handlers. A cancelled wait inside a handler is the `Fail` outcome of the `external` parameter.
- The email, SMS and report handlers only log and delay. Their outcome is the parameter `external` of `Dispatched`, `Step` and `Tick`.
- Reflection (`MakeGenericType`, `GetMethod`, `Invoke`) is not modelled. Dependency-injection scopes are left out too. Both are summarised by `Container`: the registrations, the methods the interface declares, and the text of the container's own exception (`noService`).
- `Invoke` wrapping a synchronous handler exception in `TargetInvocationException` is left out. No handler in the model throws synchronously.
- Logging is left out.
- Job ids are drawn from a counter, not from `Guid.NewGuid()`.
- The clock (`DateTimeOffset.UtcNow`) is an `int` parameter.
- Jobs.JobStore.Create: returns the record as a value, so aliasing between the returned object and the stored one is not captured.
- Jobs.JobStore.TryGet: the records it returns are values, so aliasing is not captured.
- The HTTP controllers (routes, 202/404 responses, request binding) are not part of this model. `Pipeline.Submitted` covers only their create-then-enqueue step.
- Strategies.PersonalizedRecommendsTop: ranks by the corrected, unbounded score, not by the source's wrapping 32-bit sum. `Strategies.PersonalizedAsWrittenRecommendsTop` states the ranking as written, and `Strategies.PersonalizedAgreesWithoutOverflow` shows that the two agree whenever no boosted popularity overflows. The service routes "personalized" to the corrected ranking (see Findings).
- `OrderBy(x => x)` in `AvailableTypes` and `AvailableProviders` uses the current culture's comparer. The model uses ordinal order.
- `StringComparer.OrdinalIgnoreCase` folds all of Unicode. The model folds ASCII letters only.
- The text of the `ArgumentException` thrown by `ToDictionary` on a duplicate key is framework text. The model uses `DuplicateKeyMessage` followed by the key.
- The order of `Dictionary.Keys` in the unknown-type and unknown-provider messages is taken as insertion order.
- `FakeData`, the product catalogue, is a parameter `data`.
- The `Decorator.CachingLoggingApi` service is not part of this model.
- The payment providers' `Charge` operations are not part of this model, and neither is `PaymentService`.

## Findings

| source | as written | input that shows it | evidently intended | confidence | as-written member | corrected member |
|---|---|---|---|---|---|---|
| src/Strategy.RecommendationsApi/Strategies/PersonalizedStrategy.cs:18 | `(match ? 1000 : 0) + p.PopularityScore` is unchecked 32-bit addition, so it wraps for a popularity above 2147482647 | interests ["Clothing"], a Clothing product with popularity 2147483000 and an Accessories product with popularity 0: the boosted score wraps to -2147483296 and ranks the matching, more popular product last | a matching interest raises a product's score by 1000 and never lowers it | not executed | Strategies.BoostLowersScoreAsWritten | Strategies.BoostNeverLowersScore |

`Strategies.Personalized` ranks by the corrected, unbounded `Score`, and the service uses it.
`Strategies.PersonalizedAsWritten` ranks by the wrapping sum as written.
`Strategies.ScoreAgreesWithoutOverflow` shows the corrected score equals the source's wherever the sum fits in 32 bits.
`Strategies.PersonalizedAgreesWithoutOverflow` lifts this to the whole list.
`Strategies.PersonalizedAsWrittenPrefersCap` exhibits the input above on both lists.
