# A verified model of the Concourse ATC core

The ATC schedules and runs the builds of a Concourse installation. Several ATCs share
one PostgreSQL database, and most of what can go wrong lies between their statements.
This project models that core in Dafny and proves what it keeps over every input,
every run and every interleaving.

Every file is one module; `dafny verify dfyconfig.toml` checks them together.

| files | subject |
|---|---|
| `Plans`, `StepMachine`, `StepObjects`, `BuildRun`, `SafePlans`, `PlanResults` | build plans: a big-step meaning, the compiled steps as values, the mutable step objects, a build from plan to final status, a simple class of plans that are safe under any signal, and all the ways a plan can end |
| `EventStream`, `LogWriter` | the event log of a build, its notifications and the client that follows it; the writer that cuts log bytes at UTF-8 characters |
| `Lifecycle` | creating, resuming and aborting one build on several ATCs |
| `ResourceTables`, `ResourceStore`, `ResourceGc` | resource configs and caches: what rows mean, find-or-create in one transaction, the collectors |
| `Transactions`, `TransactionRuns`, `ResourceRuns` | find-or-create statement by statement, any number of transactions among users and collectors |
| `Volumes`, `VolumeTrees`, `StaleVolumes` | volume rows, real volumes, creators and collectors; parents and children; creators that hold an old row |
| `KeySwitch`, `KeyRuns` | encryption key rotation, alone and interleaved |
| `Pages` | paginated build listings |
| `Reaper`, `ReaperRuns`, `ReaperSafety` | the build log reaper: one run, its steps among builds that come and finish, and what is reaped when |
| `Config`, `Validate` | pipeline configurations, the collection of their steps, and validation |
| `TypeResolution` | two resolvers of custom resource types |
| `SavePipeline` | optimistic versioning of configuration saves |
| `TaskPaths` | task configurations, and overlap of input and output paths |
| `Options` | optional values |

Conventions. A protocol is a state machine: `Step` lists its atomic steps (one SQL
statement or transaction, one channel operation, one remote call), `Enabled` and `Do`
say what each does, `Allowed` and `Exec` run a sequence of them, and the theorems
quantify over all sequences. Code that updates objects or variables in loops is a class
or a method, proved against a specification stated elsewhere. Lock exclusivity,
injective hashes and authenticated encryption are assumed, as the code assumes them.
The clock, the network, foreign calls and crashes are arguments or steps. Where the code
iterates over rows without asking afterwards why the iteration ended, a break in it is
a step or an argument too. Plan ids are unique in a build (`plan_factory.go`), so
results of leaves, timers and signals are given by plan id.

Findings. Where a promise one might read into the code fails, a lemma gives the input
and another the exact condition under which it holds.

- Taking the creating lock of a volume is safe in every continuation exactly when its
  row is still `creating` (`LockIsSafeIffCreating`). The code does not look again after
  it has the lock: whatever state the row has moved on to, children first, it can be
  gone before the volume is made (`StaleLockLeaves`), and a failed row can end up with
  a real volume (`FailedRowWithVolume`).
- The unique key of `resource_configs` contains a column that is always null and never
  fires. Two transactions that look for one descriptor in vain both insert it
  (`TwoRowsForOneDescriptor`). Config rows stay unique exactly when no transaction
  commits a row that another one committed since the first looked for it in vain
  (`StaysUniqueIffRaceFree`). With equal rows descriptors no longer have one id
  (`SharedIffEqualIffUnique`) and Find can miss a cache that is there
  (`DuplicateHidesCache`). Cache rows stay unique, since their key does fire
  (`CachesStayUnique`).
- A cache that only a next build input needs has no foreign key. A collector whose
  decision is older than the input deletes it (`NeededCacheIsLost`), exactly when nothing
  it marked is held (`LateDeleteLosesIff`).
- A key rotation writes back the value it read: an application write is safe in every
  continuation exactly when whoever will put the row back has read the same text
  (`WriteIsSafeIff`). A build that finishes meanwhile gets its metadata back
  (`ClearedMetadataComesBack`).
- A rotation whose row iteration breaks reports success and leaves rows under the old key
  (`CutRunLeavesOldKey`), and so does one write under the old key after it has passed
  (`OldKeyWriteStays`). A finished run leaves a cell in the promised form exactly when it
  did not miss the cell in one of these two ways (`FinishedMeansSwitchedIff`).
- A started build marked as aborted is never finished, unless the scheduler gives up on
  it (`scheduler/buildstarter.go:181`), exactly when no process runs it or has found it
  broken (`NeverFinishedIffStranded`); an abort between Start and Resume gets there.
- An abort after Finish overwrites the recorded status (`LateAbortOverwrites`), and
  nothing else does (`StatusStaysIff`).
- With a kill from outside, `Succeeded` may dereference a step that was never built
  (`InterruptedTryPanics`, `SignalledAggregatePanics`); the engine does not ask it then
  (`Resume`). The plans that are safe all the same are exactly those none of whose
  possible results, computed from the plan alone, is without an answer (`PanicFreeIff`).
- An interrupted `get` returns an error of its own that only reads "interrupted", so a
  retry goes on (`InterruptedGetIsRetried`).
- Log bytes that end in U+FFFD are held back for good (`CompleteUnlessReplacement`).
- The two type resolvers differ exactly on types that lie on a cycle of two or more
  (`ResolversAgreeIff`).
- A batch of events whose row iteration breaks counts as the end of the log. The client
  then gets the end event without the events (`EndWithoutLog`), and if it reconnects, the
  log with a row missing, since the end event took its id (`ReconnectSkips`). After an end
  event the client has the whole log exactly when no end came from a cut batch
  (`EndIsTheEndIff`); what it has is without a gap exactly when nothing came after an end
  (`NoGapIff`).
- A collector can sleep past a row with nothing on its way: after a cut batch
  (`CutBatchLosesWakeUp`), or after a writer that died between its commit and its NOTIFY
  (`DeadWriterLosesWakeUp`), and in no other case (`NoLostWakeUp`). The next event whose
  writer survives wakes it; the loss is permanent exactly when the build is completed
  (`LossIsPermanentIff`).
- The reaper deletes events and updates `first_logged_build_id` on its own. If it stops in
  between, builds are reaped that are not below the id (`StopBeforeUpdate`); all reaped
  builds are below it exactly when later updates have caught up with every delete
  (`ReapedIsBelowIff`). If its listing of build 1 breaks, that build is below the id and
  never reaped (`BuildOneIsSkipped`, `BelowIsReapedIff`). If its list of retained builds
  breaks, builds that were to be retained are reaped (`RetainedIsReaped`,
  `RetainedIsSafeIff`).
- Following Next misses builds exactly when some listing breaks before its first row
  (`NextListsEverythingIff`).

## Model

| member | source | states |
|---|---|---|
| Plans.LeafMeaning | exec/actions_step.go:58-89 | a leaf succeeds exactly when every action exited with status 0; its error is that of the first action that did not exit, an abort being the bare interrupt |
| Plans.ErrorsMeaning | exec/aggregate.go:36-79 | an aggregate collects no error exactly when no member returned one |
| Plans.DoMeaning | engine/build_step.go:25-40 | `do` runs its steps in order up to and including the first that does not succeed, takes its error from it, and succeeds only if there is none; the trace is exactly those steps' traces |
| Plans.RetryMeaning | exec/retry_step.go:33-61 | a retry makes its attempts in order up to and including the first success or bare interrupt, and the last attempt made is its result |
| Plans.ErrorIsNoSuccess | exec/ensure_step.go:44-65 | for every plan and oracle, an error is never a success |
| Plans.QuietNeverInterrupted | exec/timeout_step.go:48-92 | without a signal from outside no step returns the bare interrupt, even when inner timeouts interrupt whole subtrees |
| StepMachine.CompilerCorrect | engine/exec_engine.go:164-214 | for every plan with non-empty retries and parseable durations and every oracle, the compiled steps finish without touching a step that was not run, with the error and the leaf trace of the plan's meaning; after a nil Run, and after any quiet Run, Succeeded is defined and agrees |
| StepMachine.OnSuccessCorrect | exec/on_success.go:43-66 | an on-success pair whose parts agree with their meanings agrees with "then" |
| StepMachine.OnFailureCorrect | exec/on_failure.go:42-60 | the same for on-failure: the hook runs only after a failure, and the failure stays |
| StepMachine.OnAbortCorrect | exec/on_abort.go:44-67 | the same for on-abort: the hook runs only after an error that reads "interrupted" |
| StepMachine.EnsureCorrect | exec/ensure_step.go:44-65 | the same for ensure: both run, errors combine, success needs both |
| StepMachine.DoCorrect | engine/build_step.go:25-40 | the right-nested on-success fold ending in the identity step means "in order up to the first non-success" |
| StepMachine.RetryCorrect | exec/retry_step.go:33-61 | the attempt loop, from any attempt already made, agrees with the retry's meaning |
| StepMachine.AggregateCorrect | exec/aggregate.go:36-92 | an aggregate's result is that of all members, interrupted if signalled |
| StepObjects.BuildStepFactory | engine/exec_engine.go:164-214 | the dispatch builds the specified factory for every plan |
| StepObjects.BuildAggregateStep | engine/build_step.go:11-23 | the member loop builds the specified factories |
| StepObjects.BuildDoStep | engine/build_step.go:25-40 | the backward loop builds the right-nested fold |
| StepObjects.BuildRetryStep | engine/build_step.go:155-168 | the loop numbers attempts from one and appends the number to each attempt's path |
| StepObjects.Step.constructor | exec/on_success.go:30-35 | a new step owns its sub-steps and nothing else, and has run nothing |
| StepObjects.Step.Using | exec/aggregate.go:16-24 | building a step yields a fresh tree of step objects whose value is the initial state |
| StepObjects.Step.Succeeded | exec/aggregate.go:82-92 | on a tree whose value allows it, the method touches no missing step and returns the specified answer |
| StepObjects.Step.Run | exec/on_success.go:43-66 | running the object tree gives the error, the new object state and the trace the value-level machine gives, and keeps the tree well formed |
| StepObjects.Step.RunActions | exec/actions_step.go:58-89 | the action loop stops at the first abort or error and succeeds only if all exited with 0 |
| StepObjects.Step.RunTry | exec/try_step.go:30-41 | only the bare interrupt passes through a try |
| StepObjects.Step.RunTimeout | exec/timeout_step.go:48-92 | an unparseable duration is an error before anything runs; a fired timer turns any result into a nil error and no success |
| StepObjects.Step.RunOnFailure | exec/on_failure.go:42-60 | the hook is built and run only after a nil error without success |
| StepObjects.Step.RunOnAbort | exec/on_abort.go:44-67 | errors of step and hook are appended in order |
| StepObjects.Step.RunOnSuccess | exec/on_success.go:43-66 | the second step is built and run only after a success |
| StepObjects.Step.RunEnsure | exec/ensure_step.go:44-65 | the second step is always built and run |
| StepObjects.Step.RunAggregate | exec/aggregate.go:36-79 | every member is run and its state kept; errors are collected in member order |
| StepObjects.Step.RunAttempts | exec/retry_step.go:33-61 | the loop keeps the last attempt made and stops as specified |
| BuildRun.Resume | engine/exec_engine.go:130-162 | the recorded status is succeeded, failed or errored exactly when the exit is received before any kill or release and the plan's meaning is a success, a failure without an error, or an error; it is aborted exactly when a kill came before the exit; without an exit nothing is recorded |
| BuildRun.LeavesByChild | engine/build_step.go:11-168 | the leaves of a compiled composite are exactly its children's leaves |
| BuildRun.LeafGetsItsAttempts | engine/build_step.go:155-168 | every leaf is compiled with exactly the one-based retry indices on its path |
| BuildRun.AttemptsComeFromPaths | engine/build_step.go:155-168 | a compiled plan has no other leaves: each comes from a path |
| BuildRun.InterruptedTryPanics | exec/try_step.go:30-41 | a concrete plan on which an outside signal makes Succeeded reach a step that was not built |
| BuildRun.SignalledAggregatePanics | exec/aggregate.go:36-92 | the same for an aggregate signalled after its members finished |
| BuildRun.EmptyRetryPanics | exec/retry_step.go:33-61 | a retry without attempts has no last attempt to ask |
| BuildRun.UnparsedDurationLies | exec/timeout_step.go:48-92 | with an unparseable duration a step can both error and claim success |
| BuildRun.InterruptedGetIsRetried | resource/fetcher.go:20 | an interrupted get is not a bare interrupt to a retry |
| SafePlans.NeverInterruptsMeans | exec/try_step.go:30-41 | a static predicate: steps under it never return the bare interrupt, whatever the oracle |
| SafePlans.HonestMeans | exec/on_success.go:43-66 | a static predicate: steps under it never claim success after an error, whatever the oracle |
| SafePlans.SturdyNeverPanics | exec/on_success.go:43-66 | in a well-formed plan in which every step another one waits for is honest, Succeeded never reaches a step that was not built, whatever the oracle |
| PlanResults.RunResult | exec/on_success.go:43-66 | on every plan and oracle, malformed ones included, the compiled run's kind of error and what Succeeded answers, or its panic, follow from those of the children |
| PlanResults.IsPossible | exec/retry_step.go:33-61 | whatever the oracle, a plan ends in one of the results computed from the plan alone |
| PlanResults.Happens | plan_factory.go:23-56 | and in a plan whose ids are distinct each of them happens under some oracle |
| PlanResults.PossibleIff | exec/aggregate.go:36-92 | so the computed results are exactly those of compiled runs |
| PlanResults.PanicFreeIff | exec/on_success.go:43-66 | a plan with distinct ids never touches a step that was not built, in Run or in Succeeded, under any oracle, exactly when every computed result has an answer |
| EventStream.StepKeepsInv | db/build_event_source.go:85-181 | every step of writer, bus, notifier, collector and client, a broken row iteration included, keeps the stream invariant |
| EventStream.RunKeepsInv | db/build_event_source.go:85-181 | so does every run |
| EventStream.LogIsWhatWasSaved | db/build.go:674-692 | over every run the log is what it was followed by the events the run's writers saved and the final status of its Finish, each once and in order |
| EventStream.IdsAreUsed | db/build.go:1013-1029 | every saved event and every transaction that rolls back uses up one event id |
| EventStream.DeliveryIsExact | db/build_event_source.go:85-181 | over every run, any number of reconnects and broken batches, what the client received under number n is the n-th event of what was there and was saved since, in order, each once; between the first number it asked for and the next it would ask for exactly the numbers of end events are missing |
| EventStream.MisledIffCutEnd | db/build_event_source.go:128-171 | an end event has taken the number of a row exactly when it came from a connection whose last batch was cut |
| EventStream.EndIsTheEndIff | api/buildserver/eventhandler.go:19-97 | after an end event the build is completed, its last event is the final status and the log never changes; what the client received is exactly what was saved, from the first number asked for, if and only if no end event came from a cut batch |
| EventStream.NoGapIff | api/buildserver/eventhandler.go:19-97 | what the client received has no gap exactly when nothing was received after an end event, and that takes an end from a cut batch |
| EventStream.EndWithoutLog | db/build_event_source.go:128-171 | for every completed build, a run in which the client gets the end event and no row |
| EventStream.ReconnectSkips | api/buildserver/eventhandler.go:19-31 | and a run in which it then reconnects and gets the second row without the first |
| EventStream.StopSendsNoMore | db/build_event_source.go:72-83 | after the client closes or a query fails only what had been sent arrives, no end event, until there is a new connection |
| EventStream.NoLostWakeUp | db/notifier.go:55-92 | a collector that sleeps with nothing on its way, although full channels and broken connections drop notifications, has missed a row or the end of the build exactly when a writer died between commit and NOTIFY with nothing come through since, or its own last batch was cut |
| EventStream.NothingIsHeardTwice | db/notifications_bus.go:88-129 | the listener never has more to hear than was on its way, was notified since or follows a reconnect, less what was dispatched |
| EventStream.BrokenHearsNothing | db/notifications_bus.go:88-129 | while the listener's connection is down nothing reaches it, however much is notified |
| EventStream.SurvivorRestores | db/build.go:674-692 | a NOTIFY, of whatever commit, makes up for writers that died before |
| EventStream.PendingArrives | db/notifications_bus.go:88-129 | a pending wake-up reaches the collector's channel within five steps of the wire |
| EventStream.CompletedIsForever | db/build.go:281-355 | after Finish no row is added |
| EventStream.NextEventWakes | db/build.go:674-692 | while the build goes on, its next event wakes a sleeping collector, whatever was lost before |
| EventStream.LossIsPermanentIff | db/build.go:281-341 | who sleeps with nothing on its way sleeps on, in every run without a broken connection or a new one, exactly when the build is completed |
| EventStream.DeadWriterLosesWakeUp | db/build.go:674-692 | for any last event, a run in which a writer dies between commit and NOTIFY and the collector sleeps past the row with nothing on its way |
| EventStream.CutBatchLosesWakeUp | db/build_event_source.go:128-179 | for any row, a run without any death in which the collector sleeps past it with nothing on its way |
| LogWriter.EventWriter.Write | engine/build_step_delegate.go:78-99 | a write saves all bytes held and given, or holds them all back, as the last rune decides; a failed save is reported |
| LogWriter.DecodeRuneMeaning | engine/build_step_delegate.go:78-99 | what the library's decoder accepts, with another rune than the error rune or more than one octet, is a character of section 4 of RFC 3629 |
| LogWriter.CharDecodes | engine/build_step_delegate.go:78-99 | every character decodes with its own length, and to the error rune exactly if it is U+FFFD |
| LogWriter.LastRuneIsChar | engine/build_step_delegate.go:78-99 | when the backward scan gives no error, the text ends in a character of that length |
| LogWriter.CharIsLastRune | engine/build_step_delegate.go:78-99 | when the text ends in a character, the backward scan reports an error exactly if that is U+FFFD |
| LogWriter.CutAnywhere | engine/build_step_delegate.go:78-99 | a valid text cut anywhere is whole characters followed by a partial one |
| LogWriter.NoCharEndsPartial | engine/build_step_delegate.go:78-99 | a text that ends in a partial character does not end in a whole one |
| LogWriter.EveryChunkingIsSound | engine/build_step_delegate.go:78-99 | for every chunking of a valid UTF-8 stream, every saved payload is valid UTF-8, and payloads followed by held-back bytes are exactly the bytes written |
| LogWriter.CompleteUnlessReplacement | engine/build_step_delegate.go:78-99 | at the end of a stream nothing is held back exactly when the stream does not end in U+FFFD |
| Lifecycle.StepKeepsInv | engine/db_engine.go:104-294 | every step of CreateBuild, Resume, Abort, the scheduler and a crash keeps row, log, lock and process consistent |
| Lifecycle.RunKeepsInv | engine/db_engine.go:104-294 | so does every run |
| Lifecycle.AtMostOnce | engine/db_engine.go:173-294 | over every run: at most one engine Resume call is in progress, Start succeeds at most once, at most one Finish commits, and a final status is an event exactly as the last one of a completed build |
| Lifecycle.LogIsOfTheRun | db/build.go:207-341 | over every run the log, the status and completion are those its steps call for: saved events in order until the first finishing step, Started once, by a first Start without an abort before it |
| Lifecycle.FinishRecordsItsStatus | db/build.go:281-341 | a build is completed exactly when a step of the run finishes it; the last event is the status that the first such step names, and so is the status in the row, unless an abort is marked later, which makes it aborted |
| Lifecycle.NextOneResumes | engine/db_engine.go:173-294 | a running build whose process releases it, or crashes, is run by the next one that resumes it |
| Lifecycle.AbortUntracked | engine/db_engine.go:104-171 | an abort of a build nobody tracks finishes it as aborted if it was never started, only marks it otherwise, and lets go of the lock |
| Lifecycle.FinishIsFinal | db/build.go:281-355 | after a committed Finish the log and the completion stay as they are in every continuation, and the recorded status is what it was or aborted |
| Lifecycle.StatusStaysIff | db/build.go:386-397 | over every run after Finish the recorded status is unchanged exactly when it was aborted already or no abort is marked |
| Lifecycle.LateAbortOverwrites | engine/db_engine.go:104-171 | a run in which a succeeded build ends up recorded as aborted |
| Lifecycle.AbortedBeforeStartNeverRuns | db/build.go:207-268 | a build aborted or finished before Start never executes, in any continuation |
| Lifecycle.StrandedForever | db/build_factory.go:85-109 | a build aborted after Start that no process runs or has found broken stays so, however often it is resumed or aborted, unless the scheduler gives up on it |
| Lifecycle.NotStrandedFinishes | engine/db_engine.go:173-294 | an aborted, started, unfinished build that is not stranded has a run that finishes it |
| Lifecycle.NeverFinishedIffStranded | engine/db_engine.go:104-294 | such a build is finished in no run, the scheduler apart, exactly when it is stranded |
| Lifecycle.AbortBetweenStartAndResumeStrands | engine/db_engine.go:104-171 | a run that gets there |
| ResourceTables.OriginBase | db/resource_config.go:55-60 | following parent ids from any config ends in an existing base type |
| ResourceTables.ChainReachesBase | db/resource_config.go:55-60 | that base type is the one the row's descriptor names |
| ResourceTables.SharedIffEqualIffUnique | db/resource_config.go:62-132 | that two descriptors share an id exactly when they agree up to nil params holds of all descriptors exactly when no two config rows are equal |
| ResourceTables.CachesSharedIffConfigs | db/resource_cache.go:85-136 | cache rows that stand for one descriptor are one row exactly when they belong to one config row |
| ResourceTables.FindIsSound | db/resource_config.go:134-202 | Find may return a row exactly when it stands for the descriptor, nil params counting as empty, whether or not rows are unique |
| ResourceTables.FindCacheIsSound | db/resource_cache.go:72-83 | the same for caches |
| ResourceTables.FindMissesIff | db/resource_config.go:134-202 | while config rows are unique, Find misses exactly what is not there |
| ResourceTables.DuplicateHidesCache | db/resource_cache.go:72-83 | tables with two equal config rows in which Find may return a cache or miss it |
| ResourceTables.RowsAreNormal | db/resource_cache.go:207-213 | a row never distinguishes nil from empty params |
| ResourceTables.WithinKeepsMeaning | db/resource_config.go:62-132 | adding or deleting other rows does not change what a row stands for |
| ResourceTables.InsertConfigIsOk | db/resource_config.go:103-125 | inserting a config breaks no key; it keeps rows unique exactly when no equal row is there |
| ResourceTables.InsertCacheIsOkIffNew | db/resource_cache.go:97-124 | inserting a cache breaks the table's key exactly when an equal row is there |
| ResourceStore.SecondCallIsTheSame | db/resource_config.go:62-132 | while config rows are unique there is one row for a goal and no lookup of it fails, so a second call adds nothing and returns the same id |
| ResourceStore.Store.ConfigRowFor | db/resource_config.go:97-127 | one row is found, or inserted, or the transaction must retry; nothing else changes |
| ResourceStore.Store.CacheRowFor | db/resource_cache.go:94-135 | the same for a cache row |
| ResourceStore.Store.ParentFor | db/resource_config.go:65-95 | the parent found or created is what the descriptor's origin stands for; a missing base type is reported before any insert |
| ResourceStore.Store.FindOrCreate | db/resource_config.go:62-132 | the row returned stands for the descriptor, only rows for its parts are added with new ids, nothing is added when no lookup can fail, and failure is exactly a missing base type |
| ResourceStore.Store.FindOrCreateCache | db/resource_cache.go:85-136 | the same for a cache descriptor |
| ResourceStore.Store.Attempt | db/resource_cache_factory.go:66-74 | one transaction finds or creates the config or cache and records the check session or use, both or neither |
| ResourceStore.Store.SafeFindOrCreate | db/safe_find_or_create.go:10-32 | after any number of collisions the tables are what the other transactions made of them plus the whole goal and its use, or nothing: collided attempts leave no row and no use |
| ResourceGc.CleanConfigsKeepsNeeded | db/resource_config_factory.go:129-161 | a row some root needs survives config collection and is still needed |
| ResourceGc.CleanCachesKeepsNeeded | db/resource_cache_lifecycle.go:50-135 | the same for cache collection |
| ResourceGc.CleanConfigsIsOk | db/resource_config_factory.go:129-161 | config collection breaks no reference |
| ResourceGc.CleanCachesIsOk | db/resource_cache_lifecycle.go:50-135 | cache collection breaks no reference |
| ResourceGc.RoundShrinks | gc/collector.go:65-73 | a round deletes something or nothing ever changes again |
| ResourceGc.StableNeeded | gc/collector.go:65-73 | when a round deletes nothing, every row left is needed by a root |
| ResourceGc.CollectorsLeaveWhatIsNeeded | gc/collector.go:65-73 | after as many rounds as there are rows the tables are stable and hold exactly the rows some root depended on at the start |
| ResourceGc.DeleteConfigsIsOk | db/resource_config_factory.go:129-161 | deleting any set of configs, rejected if a key objects, breaks no reference |
| ResourceGc.DeleteCachesIsOk | db/resource_cache_lifecycle.go:92-116 | the same for caches |
| ResourceGc.FreshDecisionIsClean | db/resource_config_factory.go:129-161 | a delete decided and done at one moment is never rejected and is the collector's round |
| ResourceGc.NeededConfigSurvives | db/resource_config_factory.go:129-161 | no out-of-date decision deletes a needed config |
| ResourceGc.NeededCacheLostIff | db/resource_cache_lifecycle.go:76-116 | a needed cache is deleted exactly when it was marked for deletion, nothing marked is held by a foreign key, and a next build input asks for it |
| Transactions.ProgramMeans | db/resource_config.go:62-132 | worked through level by level from its base type, a goal's levels yield the goal |
| Transactions.ViewIsOk | db/resource_config.go:187-202 | what a transaction sees, committed rows and its own, breaks no key, whatever others have inserted |
| TransactionRuns.StepKeepsInv | db/resource_config.go:62-202 | every statement of a transaction, every commit, use and delete keeps all transactions consistent |
| TransactionRuns.RunKeepsInv | db/safe_find_or_create.go:10-32 | so does every run |
| TransactionRuns.CommitCarries | db/resource_cache.go:97-124 | a transaction carries on after any other commits |
| TransactionRuns.CutCarries | db/resource_config.go:187-202 | a transaction carries on after any delete that spares the rows it has locked |
| ResourceRuns.CommitReachesGoal | db/safe_find_or_create.go:10-32 | whatever others do between its statements, the row a transaction commits stands for its goal and is in use |
| ResourceRuns.RunReachesGoal | db/safe_find_or_create.go:10-32 | over every run, the row a transaction commits stands for the goal that its Begin in the run named and is in use |
| ResourceRuns.RolledBackIsGone | db/safe_find_or_create.go:10-32 | rows of a transaction that is rolled back never appear in the tables, and others are not touched |
| ResourceRuns.OnlyCommitAdds | db/safe_find_or_create.go:10-32 | nothing but a commit adds a row to the tables |
| ResourceRuns.CachesStayUnique | db/migration/migrations/1510262030_initial_schema.up.sql:949-950 | in every run cache rows stay unique, by their key, and every reference holds |
| ResourceRuns.StaysUniqueIffRaceFree | db/migration/migrations/1510262030_initial_schema.up.sql:964-965 | over every run config rows stay unique exactly when no transaction commits while a row that another committed since its own lookup came back empty is still there |
| ResourceRuns.TwoRowsForOneDescriptor | db/resource_config.go:97-127 | a run that ends with two rows for one descriptor and no key broken |
| ResourceRuns.ConfigsKeepTheirMeaning | db/resource_config.go:55-60 | a config present before and after any run stands for the same descriptor and ends in the same base type, unique or not |
| ResourceRuns.UsedCacheStays | db/resource_cache.go:138-170 | a cache in use stays, with its whole chain, until its use is dropped |
| ResourceRuns.ImagedCacheStays | db/resource_cache_lifecycle.go:50-116 | so does one that a build's image came from |
| ResourceRuns.DroppedCacheGoes | db/resource_cache_lifecycle.go:50-116 | and one that nothing asks for any more, and no config comes from, is taken away by a round |
| ResourceRuns.DroppedConfigGoes | db/resource_config_factory.go:129-161 | the same for a config without caches whose session is closed |
| ResourceRuns.LateDeleteLosesIff | db/resource_cache_lifecycle.go:50-116 | over every run between a collector's decision and its delete, a needed cache is lost exactly when nothing kept it at the decision, nothing marked is held at the delete, and a next build input asks for it by then |
| ResourceRuns.NeededCacheIsLost | db/resource_cache_lifecycle.go:50-116 | from any state, a run that loses any cache kept by nothing, through an input that comes after the decision |
| Volumes.StepKeepsInv | worker/volume_client.go:333-439 | every step of creators, collectors and owners keeps the volume invariant |
| Volumes.RunKeepsInv | worker/volume_client.go:333-439 | so does every run |
| Volumes.CreatedRowsAreReal | worker/volume_client.go:333-439 | over every run with crashes: a `created` row has its real volume, a child's parent row is `created`, and at most one creator works on a volume |
| Volumes.StatesMoveForward | db/volume.go:615-641 | a row's state only moves forward, over every run |
| Volumes.FreshRunKeepsClean | worker/volume_client.go:333-439 | in runs that take the lock only on rows still `creating`, every real volume keeps a row that is not `failed` |
| Volumes.NothingIsLeftBehind | gc/volumecollector.go:56-194 | in such runs a failed row has no real volume and a row is deleted only after its volume is gone |
| Volumes.RowsGoFirst | db/volume.go:505-533 | in such runs, once the parent of a row is no longer `created`, the row and its real volume are gone |
| Volumes.OwnedIsNotPicked | db/volume_factory.go:263-313 | a volume that has an owner is not picked for destruction before it is orphaned |
| VolumeTrees.InsertedAt | db/volume.go:440-503 | over every run each row was inserted at one place; its parent is the one named there if a child was inserted, and none exactly if not |
| VolumeTrees.ChildHoldsParent | db/volume.go:440-533 | over every run, as long as the row of a child inserted under a volume is there, that volume is `created` and real |
| VolumeTrees.ChildrenGoFirst | db/volume.go:440-533 | in runs without stale locks, once a volume is no longer `created` the rows and real volumes of all children ever inserted under it are gone |
| VolumeTrees.DoomedIffChildless | db/volume.go:505-533 | a collector dooms a volume, or goes on with a doomed one, exactly when no row inserted as its child is left |
| VolumeTrees.ChildAgainstCollector | db/volume.go:505-533 | a run in which a child being created holds its parent, which nobody owns any more, against the collector |
| StaleVolumes.Remove | gc/volumecollector.go:81-194 | from any state every row can be deleted, its children first, past a creator that holds no `creating` row |
| StaleVolumes.StaleLockLeaves | worker/volume_client.go:382-434 | from any state in which a creator takes the lock of a row that is no longer `creating`, whatever it is now, a run leaves a real volume without a live row |
| StaleVolumes.LockIsSafeIffCreating | worker/volume_client.go:382-434 | taking the lock is safe in every continuation that takes later locks on fresh rows exactly when the row is still `creating` |
| StaleVolumes.StaleLockHappens | worker/volume_client.go:382-434 | a run in which a creator is about to take the lock of a failed row |
| StaleVolumes.FailedRowWithVolume | worker/volume_client.go:382-434 | a run that ends with a failed row and its real volume |
| KeySwitch.SwitchedIsTarget | db/open.go:77-92 | the passes that come to a cell keep its text and are idempotent; it ends in the promised form exactly when it was before, or the pass that concerns it came to it and the cell is not sealed with a key that is neither old nor new |
| KeySwitch.RunTable | db/open.go:116-174 | one table: a prefix of its rows is handled as specified and no other row changed; the loop fails only at a crash or a row it cannot decrypt, and an iteration that breaks counts as finished |
| KeySwitch.RunPass | db/open.go:114-316 | all tables in turn: a pass that reports success has handled exactly the rows that were read |
| KeySwitch.Open | db/open.go:57-104 | any switch keeps every text; when it reports success a row is in the promised form exactly when it was before or the pass that concerns it read it; without a crash it succeeds exactly when no row read is sealed with an unknown key |
| KeyRuns.TextIsKept | db/open.go:114-316 | any number of runs with any keys, crashed, repeated or interleaved row by row on stale reads, keep every row's text as the applications left it, if none writes another text to a row that some run will put back |
| KeyRuns.WriteIsSafeIff | db/open.go:114-316 | an application write is safe in every continuation exactly when every run that will put the row back has read the same text |
| KeyRuns.HeldWriteSurvivesIff | db/open.go:267-303 | an application write to a row a run will put back survives exactly when it did not change the text |
| KeyRuns.FinishedMeansSwitchedIff | db/open.go:114-316 | once a run has finished, a cell is in the form it promises exactly when the run did not miss it, by a write in another form after the run had passed the row or by a broken iteration before a row not in order, whatever others do with whatever keys |
| KeyRuns.FinishedMeansSwitched | db/open.go:77-92 | so if applications write the promised form only and its own iterations do not break, a finished run leaves every cell in it, whatever others with the same keys are doing |
| KeyRuns.CutRunLeavesOldKey | db/open.go:261-311 | a run, nobody else doing anything, whose iteration breaks, that finishes and leaves the old key |
| KeyRuns.OldKeyWriteStays | db/open.go:261-311 | a run that breaks nowhere and leaves a write under the old key |
| KeyRuns.ClearedMetadataComesBack | db/build.go:291-301 | a run in which a finishing build's cleared metadata is written back |
| Pages.JobBuilds | db/job.go:181-258 | the prepend loop, ended or broken off after any number of rows, returns the rows read newest first, as a page of that length, with the specified links |
| Pages.SwapEnds | db/build_factory.go:144-148 | the in-place swap reverses the list |
| Pages.AllBuilds | db/build_factory.go:111-185 | the listing with in-place reversal returns the same builds and links |
| Pages.PageIsWindow | db/job.go:181-258 | every page is a run of neighbouring builds, newest first |
| Pages.LinksMean | db/job.go:223-255 | a page has no Previous link exactly when no build is newer than its first, no Next link exactly when none is older than its last, and the links lead there |
| Pages.NextListsEverythingIff | db/job.go:181-258 | following Next from the first page ends; while newer builds appear and listings break off anywhere, it lists each build present at the start exactly once, newest first, exactly when no listing breaks before its first row |
| Pages.PreviousUndoesNextIff | db/build_factory.go:111-185 | on a table at rest the Previous link of the page Next leads to returns the page it was reached from exactly when that was full or began with the newest build |
| Reaper.Consider | gc/buildreaper.go:53-84 | the two listings, each of the table as it is then and each broken off anywhere, are put together as specified |
| Reaper.Choose | gc/buildreaper.go:110-119 | the backward walk is the specified one |
| Reaper.PickIs | gc/buildreaper.go:110-119 | the walk takes exactly the oldest builds considered up to the first that is running or retained |
| Reaper.RestIsConsidered | gc/buildreaper.go:53-84 | on a table at rest unbroken listings are exactly the oldest builds not yet reaped, up to a batch |
| Reaper.AtRest | gc/buildreaper.go:48-135 | and what is deleted is exactly the next builds of the eligible stretch |
| Reaper.Reap | gc/buildreaper.go:48-135 | one run deletes what the specified decision picks from its listings, which at rest is the next eligible stretch; first_logged_build_id moves past it and never back |
| ReaperRuns.NewJobInv | db/migration/migrations/1510262030_initial_schema.up.sql:243 | a new job, with first_logged_build_id 0 and nothing reaped, is in order |
| ReaperRuns.StepKeepsInv | gc/buildreaper.go:48-135 | each listing, the delete, the update, a stop anywhere, new builds and finishing builds keep the bookkeeping, and first_logged_build_id does not decrease |
| ReaperRuns.RunKeepsInv | gc/buildreaper.go:48-135 | so does every run |
| ReaperRuns.BuildsAreOfTheRun | db/build.go:139-146 | the builds are those of before and those the run created, in order; a build is running exactly when it was, or is new, and no step finished it |
| ReaperRuns.DecidedFrom | gc/buildreaper.go:91-119 | what is decided on are finished builds before those read as retained, and the walk stops there or at a build that was running when listed |
| ReaperSafety.ReaperIsSafe | gc/buildreaper.go:48-135 | over every run a reaped build has finished, all builds but build 1 below it or below first_logged_build_id are reaped, and that id never decreases |
| ReaperSafety.BelowIsReapedIff | gc/buildreaper.go:57-69 | every build below first_logged_build_id is reaped exactly when no reaper updated the id past a build 1 it had not listed |
| ReaperSafety.ReapedIsBelowIff | gc/buildreaper.go:125-135 | every reaped build is below first_logged_build_id exactly when every delete was followed by an update as far as it went, its own or a later reaper's |
| ReaperSafety.CarefulIsSafe | gc/buildreaper.go:91-119 | if the configurations ask for at least so many and the retained builds are read to the end, none of the newest so many is ever reaped |
| ReaperSafety.RetainedIsSafeIff | gc/buildreaper.go:91-119 | with later lists read to the end, one list of retained builds is safe in every continuation exactly when no build to be retained is finished, considered and before those read, with all considered before it finished |
| ReaperSafety.StopBeforeUpdate | gc/buildreaper.go:125-135 | from any job with an eligible build, a run that stops between delete and update and leaves a build reaped and not below the id |
| ReaperSafety.BuildOneIsSkipped | gc/buildreaper.go:57-69 | a run whose listing of build 1 breaks and that moves the id past it |
| ReaperSafety.RetainedIsReaped | gc/buildreaper.go:91-108 | a run whose list of retained builds breaks after its first row and that reaps the oldest one to be retained |
| ReaperSafety.RoundIsRun | gc/buildreaper.go:48-135 | on a quiet job an unbroken run is a run of the steps that ends in the specified job |
| ReaperSafety.QuietJobIsReaped | gc/buildreaper.go:48-135 | on a quiet job, wherever earlier runs stopped, once runs times batch cover it exactly the longest stretch of finished, unretained builds from first_logged_build_id on is reaped besides what was |
| Config.CollectPlans | job_config.go:62-98 | the recursive collector returns every step at any depth in the specified order |
| Config.Inputs | job_config.go:124-149 | the inputs are the get steps collected, with their resources |
| Config.Outputs | job_config.go:151-171 | the outputs are the put steps collected, in order, with their resources |
| Config.InputsInOrder | job_config.go:124-149 | the inputs are exactly the get steps, in order, each under its own name with the resource it names or else that of its name |
| Config.OutputsInOrder | job_config.go:151-171 | the same for outputs and put steps |
| Config.CollectedIffPath | job_config.go:62-98 | a step is collected exactly when a path of child links, through hooks and nested lists, leads to it |
| Validate.AllOkByPart | job_config.go:62-98 | all collected steps are in order exactly when the step is and all its parts' steps are |
| Validate.Interacts | validate.go:403-417 | a job is found to use a resource exactly when one of its get or put steps does |
| Validate.ValidatePassed | validate.go:391-431 | no message exactly when every passed job exists and uses the resource |
| Validate.ValidateAction | validate.go:358-496 | no message exactly when the action's fields fit, its resource exists, or its task has one valid configuration |
| Validate.ValidatePlan | validate.go:304-547 | no message exactly when every step the collector finds below is in order, so validator and collector visit the same steps |
| Validate.ValidateInputs | validate.go:259-269 | no message exactly when get names are distinct in the job |
| Validate.ValidateJob | validate.go:199-270 | no message exactly when name, retention, every step at any depth and get names are in order |
| Validate.ValidateJobs | validate.go:193-273 | the same for all jobs, whose names are distinct |
| Validate.UsedResources | validate.go:178-191 | the set holds exactly the resources some step of some job uses |
| Validate.ValidateResources | validate.go:94-176 | no message exactly when resources are named, typed, distinct and used |
| Validate.ValidateTyped | validate.go:130-162 | no message exactly when all are named and typed with distinct names |
| Validate.ValidateGroups | validate.go:55-92 | no message exactly when groups name existing jobs and resources and, if there are groups, every job is in one |
| Validate.ValidatePipeline | validate.go:27-53 | no error is reported exactly for the configurations in which all of this holds |
| Validate.ValidAtEveryPath | validate.go:304-547 | in a valid pipeline a step at the end of any path has one action, a parseable timeout, non-negative attempts, a declared resource (the one it names, or that of its name) or one valid task configuration, and no field that is not for its action |
| Validate.ValidPassed | validate.go:391-431 | and every passed job exists and has a step, at the end of a path, that gets or puts the resource |
| Validate.ValidGetNames | validate.go:259-269 | two get steps of one job, wherever they are, have different names |
| Validate.ValidUse | validate.go:164-191 | every declared resource is got or put by some step at the end of a path |
| TypeResolution.ConstructFollows | db/resource_config_factory.go:86-127 | on every list of types the constructed config ends in the base type that following the types gives |
| TypeResolution.ConstructCarries | db/resource_config_factory.go:86-127 | the constructed config carries the given source, and below it level by level the source and version of the types that lead from the given type to the base type, each the first of its name, until a name has no entry or has been passed |
| TypeResolution.DetermineUnderlyingTypeName | worker/worker.go:247-260 | the map-deleting loop ends on every list and follows the types without dropping the first name |
| TypeResolution.DistinctAgree | worker/worker.go:247-252 | with distinct names the loop's map is the list the construction looks up |
| TypeResolution.AgreeIffNoLongCycle | worker/worker.go:253-259 | the two walks give the same name exactly when the first name is not on a cycle of two or more |
| TypeResolution.ResolversAgreeIff | db/resource_config_factory.go:86-127 | so do the two resolvers, on every pipeline with distinct type names |
| SavePipeline.Team.Save | db/team.go:864-895 | update or insert leaves the row active with the new payload |
| SavePipeline.Team.SaveAll | db/team.go:513-568 | deactivating and writing back one by one leaves exactly the listed names active and keeps the others inactive |
| SavePipeline.Team.SavePipeline | db/team.go:402-594 | a save creates, updates or changes nothing, and is the save step of the histories below; it is refused exactly when the pipeline exists at another version, and an error in between leaves it as it was |
| SavePipeline.ReplacedIsActive | db/team.go:513-568 | the active part of a saved table is exactly the configuration's list; other rows are kept, inactive, with their payloads |
| SavePipeline.HistoryIsLinear | db/team.go:402-594 | over every history versions grow, every committed update named the version of the commit right before it, and the active jobs, resources and types are those of the last commit |
| SavePipeline.RunShowsLastSave | db/team.go:402-594 | after every run the pipeline shows the groups, jobs, resources and types of the last save that went through since it was last destroyed, paused as that save says, else as before, else paused |
| SavePipeline.OnlyCommitsChange | db/team.go:479-505 | saves that are refused or break off, however many, leave the pipeline as it was |
| TaskPaths.JoinSplit | task.go:225-226 | joining the parts of a path gives the path back |
| TaskPaths.UnderByParts | task.go:220-241 | a path is inside a directory exactly when the directory's parts are a proper prefix of its own |
| TaskPaths.UnderIsStrictOrder | task.go:220-241 | being inside is a strict partial order |
| TaskPaths.PathContains | task.go:220-241 | the loop over parts decides exactly that |
| TaskPaths.MountedIff | task.go:351-371 | every artifact is mounted at exactly one path: its own path, or its name if it has none, without one leading "./" |
| TaskPaths.PathCounter.RegisterInput | task.go:198-206 | the counts of some paths become the counts of those paths and the one the input is mounted at |
| TaskPaths.PathCounter.RegisterOutput | task.go:208-216 | the same for outputs |
| TaskPaths.PathCounter.GetErrorMessages | task.go:243-288 | no message exactly when no path is counted twice, none is both input and output, and none is inside another |
| TaskPaths.ValidateOverlappingPaths | task.go:290-310 | no message exactly when the paths at which inputs and outputs are mounted are pairwise distinct and none is inside another |
| TaskPaths.ValidateDotPath | task.go:153-184 | no message exactly when a mounted path "." is the only one |
| TaskPaths.ValidateTask | task.go:122-151 | a task configuration is refused exactly when a platform, something to run, a name, or the mounted paths are amiss |

## Left out

- SafePlans.SturdyNeverPanics: a sufficient condition, on all plans; `PlanResults.PanicFreeIff` has the exact one for plans with distinct ids.
- Plans with several fields set at once: the plan is a sum type, so the dispatch order between fields is not modelled.
- Writing attempt numbers into the shared plan in place: compilation passes them down as a value.
- StepObjects.Step.RunAggregate: members run one after another on disjoint objects instead of in goroutines; the trace marks them as parallel.
- ResourceStore.Store.ConfigRowFor: one connection alone, so nobody inserts between its lookup and its insert; `Transactions` has others there.
- ResourceStore.Store.SafeFindOrCreate: others commit between attempts only; `Transactions` has them between any two statements.
- Liveness of the event stream beyond the arrival of a pending wake-up, and of aborts.
- Deletion of builds and pipelines under a running build; event reaping while a stream is open; event transactions that commit out of sequence order.
- Volumes lost by the worker itself, and worker expiry: real volumes change only by the steps listed. Which owner column is set is one flag.
- Serial groups, worker task caches and the event table of a new pipeline in a config save.
- KeySwitch.RunPass: alone on the tables, with rows in index order; `KeyRuns` has others at work and any order.
- Validate.ValidateAction: warnings, message wording and identifiers are dropped.
- TypeResolution.ConstructFollows: evaluating credentials in a type's source cannot fail.
- The input-selection algorithm, the versions cache, pagination of resource versions, resource checking, the lock factory and the encryption package are not part of this model.
- HTTP handlers apart from the event stream, authentication, routes, flags, metrics, logging, credential managers and the container runtime: plumbing or foreign calls.
- Collectors of builds, workers and containers, the scheduler, migrations, and JSON or YAML decoding.
