# hesape: batches, chains, caches and limits, verified

A model in Dafny of the parts of hesape whose behaviour spans many calls, many processes or a whole
run: the job batches and chains of `bus`, the bounded fan-out of `concurrency`, the stores, locks,
tags, memo and rate limiter of `cache`, and the sign-in throttle of `auth`.

How it is laid out:

- Where the source updates an object in place, the model is a class (`ArrayStore`, `MemoizedStore`,
  `Lock`, `RateLimiter`, `TagStore`, `MemoryThrottle`, `Memory`, `Queue`, `DatabaseBatchRepository`,
  `Chain`) whose methods are proved against a function on the values of its fields. The laws are then lemmas
  about those functions.
- Where several processes or goroutines interleave, the model is a state machine: a total function
  from a state and an action to the next state, in which an action that is not possible does nothing,
  and lemmas over every sequence of actions.
- A second, simpler definition stands beside each main result: the row changed at once beside the
  compare-and-set loop, a map with deletion beside tag generations, a store swept before every call
  beside one that drops what it looks at, prefix matching beside LIKE patterns.
- Clocks, random ids, other workers, whether a push goes through and what a task answers are parameters. Times are integers of
  nanoseconds. A payload is the value its JSON encodes. A digest is any function of its width without collisions on what
  a run digests.

| file | module | what is in it |
|---|---|---|
| `Batch.dfy`, `BatchDatabase.dfy`, `BatchReplays.dfy` | `Batches`, `BatchDatabase`, `BatchReplays` | the failed list and the counters; the statements of the database repository as steps, linearized; exactly which runs are atomic |
| `BatchUpdate.dfy`, `BatchStalls.dfy` | `BatchUpdates`, `BatchStalls` | the retry loop; exactly when it gives up, and what reports without a job id do to it |
| `Queue.dfy` | `Queues` | a queue whose pushes go through or fail one by one |
| `BatchCallbacks.dfy`, `BatchMessages.dfy` | same names | which callbacks are pushed and how often; which messages of the options that leaves in the queue |
| `BatchCalls.dfy`, `BatchRuns.dfy`, `BatchMemory.dfy` | same names | no call and no cancellation is lost; what the counters and the stamps say; the in-memory repository, dispatch and reports |
| `Chain.dfy`, `ChainRuns.dfy`, `ChainOrder.dfy` | `Chains`, `ChainRuns`, `ChainOrder` | dispatching and reporting links, a batch as a link; over every run, the order of a chain |
| `ChainCatch.dfy`, `ChainReports.dfy` | `ChainCatch`, `ChainReports` | over every run, which failure is caught; the order under a worker that reports every job |
| `RunWith.dfy` | `RunWith` | goroutines, semaphore, once, cancellation |
| `Throttle.dfy`, `ThrottleWindow.dfy`, `ThrottleExcess.dfy` | same names | the throttle; its bound over time, and exactly which policies keep it |
| `ThrottleLaws.dfy`, `ThrottleRefunds.dfy`, `ThrottleTenants.dfy` | same names | refusals, refunds and lockouts; exactly when a refund is seen later; tenants apart |
| `ArrayStore.dfy`, `StoreLaws.dfy`, `Memo.dfy`, `RateLimiter.dfy` | `ArrayStores`, `StoreLaws`, `Memos`, `RateLimiters` | the in-memory store, what its answers promise, and what is built on it |
| `Locks.dfy`, `LockHolds.dfy` | same names | locks in the array store and in the database: never two holders, and refused exactly while one holds |
| `Keys.dfy`, `TagKeys.dfy` | same names | key layout and LIKE patterns; the keys of generations, tagged and untagged items, and when two are one string |
| `Tags.dfy`, `TagRuns.dfy`, `TagMirror.dfy`, `TagStore.dfy` | `Tags`, `TagRuns`, `TagMirrors`, `TagStores` | tag generations as deletion, first on named places, then on the strings the store holds |
| `FileEntry.dfy`, `Numerals.dfy` | same names | the file entry codec and the numerals it needs |

Where the code does less than its comments promise, the model follows the code, a lemma gives the
inputs, and another says exactly when the promise holds:

- The conditional UPDATE of a batch compares two counters and not the failed list. It is the atomic
  change exactly when the list has not moved either (`MatchedWriteExactly`), and a run is atomic step by
  step exactly when that is so of every write that matches (`ReplaysExactly`). That is always so unless
  jobs are added between the read and the write (`Linearizable`, `AddedJobLosesAFailure`).
- The loop answers its did-not-move error exactly when ten turns in a row read the same counters and
  each found others when it wrote (`GivesUpExactly`); additions bring that about (`ChurnGivesUp`), named
  reports alone never do (`UpdateAnswers`).
- A failure reported without a job id puts the counter ahead of the list. Then a new named failure can
  be left unwritten (`UnnamedFailureHidesANamedOne`), exactly when the counter is one ahead
  (`ShortCircuitExactly`); and a write that matches can lose one (`UnnamedFailureLosesANamedOne`),
  exactly when the two lists differ beside the job that reports (`AnyMatchedWriteExactly`).
- `Release` of the rate limiter promises a floor of zero. Overlapping releases can count an attempt
  nobody made (`OverlappingReleasesOvershoot`), and so can one release whose counter expires or is
  cleared before its compensation lands (`EndedBeforeCompensated`). The floor is kept exactly by the runs
  in which no decrement of a spent counter, and no end of it, meets a compensation under way
  (`FlooredExactly`).
- `AvailableIn` is right exactly for clocks later than one window before the epoch
  (`AvailableInExactly`).
- `likePrefix` relies on the backslash being the escape character. Without one it is right exactly for
  prefixes with none of `%`, `_` and `\` (`UnescapedExactly`).
- A database lock can be granted twice at one instant, the first grant unreleased, exactly when its
  expiration is not ahead of that instant in whole milliseconds (`TakenTwiceExactly`), so a time to live
  of a millisecond is the least that always protects (`OneMillisecondIsTheFloor`).
- Two budgets a window is the throttle's bound for an address exactly when there is no lockout, or it is
  at least the window less one nanosecond, or the budget is at most two and the lockout at least half the
  window; and the same for a pair whose budget is not above its address's (`BoundedExactly`).
- With a lockout, a refund moves the reset of the key it relocked (`RefundUndoesExactly`), and later
  attempts tell (`RefundUnseenExactly`).
- Two places share a key exactly when an untagged key spells a generation or a tagged item, or a tagged
  item called `key` in the namespace `tag` spells a generation (`CollidesExactly`); putting such an item
  puts all that carries the tag out of reach (`CollidingItemHides`). A flush of the namespace `tag` drops
  every generation of the tenant, and with them all that is tagged (`FlushReaches`, `SpaceFlushed`).
- The link after a nested batch lands on the batch's queue when it has none of its own
  (`QueueAtExactly`).
- A nested batch is dispatched by its handler. When the worker does not report that job as well, a chain
  comes to its end exactly unless a link before the last is a batch that holds a batch, because the outer
  batch then waits for a report nobody makes (`ComesToItsEndExactly`). When the worker does, the link
  after a batch is pushed while the batch is at work (`ReportedBatchRunsAhead`), so links stay in order
  exactly when none before the last is a batch (`InOrderExactly`).

## Model

| member | source | states |
|---|---|---|
| `Batches.WithFailureAdds` | bus/batch.go:378-385 | a failure joins the failed list once, the list stays strictly ascending, and nothing else joins or leaves |
| `Batches.WithoutFailureRemoves` | bus/batch.go:389-395 | a success takes exactly its own job off the list and keeps it ascending |
| `Batches.OneEncoding` | bus/batch.go:378-395 | two lists kept this way with the same jobs are the same list, so a set has one encoding |
| `Batches.ApplyMoves` | bus/database.go:278-301 | one report of a named job: a success always lowers pending by one, a failure raises failed only for a job not on the list, and a repeated failure changes nothing |
| `BatchDatabase.ProgressedThenReport` | bus/database.go:278-301 | a report that moves the counters lowers pending, or keeps it and raises failed, so the counters of an earlier read never come back by reports alone |
| `BatchDatabase.MatchedWriteExactly` | bus/database.go:355-369 | a conditional write that matches is the atomic change if and only if the failed list is also the one that was read |
| `BatchDatabase.Linearizable` | bus/database.go:314-376 | every interleaving of statements about named jobs leaves the row, and gives the answers, of the atomic repository given the same calls in commit order, as long as no job is added between a read and its write |
| `BatchReplays.ReplaysExactly` | bus/database.go:314-376 | over every interleaving of statements about named jobs, additions at any moment included, row and answers are step by step those of the atomic repository, the answers' number of jobs in all aside, if and only if every write that matched found the failed list it read |
| `BatchReplays.StepReplays` | bus/database.go:355-369 | one more step of a run that was atomic so far is atomic if and only if it is not a matched write that misses its list |
| `BatchDatabase.Uninterrupted` | bus/database.go:331-369 | a read and its write with nothing between them are the atomic change |
| `BatchDatabase.AddedJobLosesAFailure` | bus/database.go:243-264 | an addition between a read and its write brings the counters back and a failure is overwritten: the run, and the two lists it ends with |
| `BatchUpdates.DatabaseBatchRepository.Find` | bus/database.go:195-205 | a read answers one row of the table under that id, or none exactly when there is none; it is what every turn of the loop reads by |
| `BatchUpdates.DatabaseBatchRepository.UpdateWhere` | bus/database.go:355-366 | the UPDATE changes one row exactly when both counters match, and writes the two counters and the list only |
| `BatchUpdates.DatabaseBatchRepository.TryOnce` | bus/database.go:326-374 | one turn of the loop, with a context that may be over, whatever other workers do to the row before and after its write, deletion included, and no other row touched |
| `BatchUpdates.DatabaseBatchRepository.Update` | bus/database.go:314-376 | the loop leaves the row and returns the answer of its specification for any interference, and touches no other row |
| `BatchUpdates.AttemptProgresses` | bus/database.go:335-374 | with no additions meanwhile, a turn ends with the atomic change to the row it met, or the next read sees other counters |
| `BatchUpdates.UpdateAnswers` | bus/database.go:314-376 | with no additions meanwhile the call never fails, tries at most once more than the attempts others wrote in, never stalls twice in a row, and is the atomic change made after all it met |
| `BatchStalls.GivesUpExactly` | bus/database.go:320-374 | the did-not-move error is answered if and only if, from some turn on, ten turns read the same counters and each lost its write, with no turn before them deciding the call: a condition on the row and on what the others do |
| `BatchStalls.ChurnGivesUp` | bus/database.go:371-374 | ten additions and successes at the wrong moments end in that error |
| `BatchStalls.ShortCircuitExactly` | bus/database.go:341-349 | leaving out the write when neither counter moves loses nothing if and only if the report is not a named failure new to the list while the counter is one ahead of the list |
| `BatchStalls.AnyMatchedWriteExactly` | bus/database.go:355-369 | whatever the counters, a conditional write that matches is the atomic change if and only if the list read and the list there hold the same jobs, the reporting one aside |
| `BatchStalls.UnnamedFailureHidesANamedOne` | bus/database.go:291-301 | after a failure without an id, a named failure is not written although the atomic change would list it |
| `BatchStalls.UnnamedFailureLosesANamedOne` | bus/database.go:355-369 | a failure without an id and a named one between a read and its write bring the counters back, the write matches, and the named failure is off the list |
| `BatchCallbacks.ReportAsks` | bus/batch.go:252-311 | how often one report asks for each callback, for finishing and for cancelling, in terms of the counters it got back |
| `BatchCallbacks.AccountedAlways` | bus/batch.go:252-311 | in every interleaving, what has been pushed and cancelled is exactly what the committed reports have carried out so far |
| `BatchCallbacks.CallbacksExactlyOnce` | bus/batch.go:252-311 | with each job reporting once and none added, in every interleaving Finally is pushed exactly once, Then exactly once if all succeeded, Catch exactly once if any failed, never otherwise, the batch is cancelled by a failure exactly if failures are not allowed, and once all is done it is finished exactly if all succeeded or it was cancelled |
| `BatchCallbacks.LastReportSeesAll` | bus/batch.go:371-373 | a report finds every job accounted for if and only if it is the last of them |
| `BatchCallbacks.FinallyIsLast` | bus/batch.go:271-273 | no report follows the one that asks for Finally |
| `BatchCallbacks.ThenAtMostOnce` | bus/batch.go:263-270 | whatever duplicates, failures and retries occur, without additions exactly one success sees pending at zero if as many succeeded as were stored and none otherwise, whether or not there is a Then, and Then is pushed at most once |
| `BatchMessages.MessagesExactly` | bus/batch.go:252-311 | over the same interleavings, of every message the queue holds at most, and once all is done exactly, one copy for each success and each allowed failure if it is the bare message of the Progress step, one for each allowed failure for Failure, one for Then if all succeeded, one for Catch if one failed, one for Finally if all reported, and none if it is none of these |
| `BatchMessages.MessagesUnderDuplication` | bus/batch.go:252-311 | whatever duplicates, failures and retries occur, the message of Then is there at most once and only if as many succeeded as were stored, those of Progress and Failure once for each report that calls for them, and no other but those of Catch and Finally is there at all |
| `BatchMessages.EachPushed` | bus/batch.go:259-261 | Progress and Failure are pushed for no report that does not call for them, and for each that does once it is done |
| `BatchCalls.CallsConserved` | bus/database.go:314-376 | over every interleaving the calls begun about a report are those under way and those answered: a call that loses a race is never dropped, and none is answered twice |
| `BatchCalls.StopsForGood` | bus/database.go:406-435 | a cancellation stays as it was stamped through every interleaving after it, reports under way included |
| `BatchRuns.MoveKeeps` | bus/memory.go:146-192 | every push, addition, success, failure, finish and cancellation keeps the conservation law |
| `BatchRuns.CountersConserved` | bus/batch.go:172-202 | over every run, pending is the jobs not yet pushed and the pushed ones not succeeded, the failed list is the ever failed minus the succeeded, and pending less failed is the jobs that never reported, additions included |
| `BatchRuns.ZeroMeansDone` | bus/batch.go:371-373 | pending is zero exactly when every job was pushed and succeeded, and pending less failed exactly when every job reported |
| `BatchRuns.ProcessedAreSucceeded` | bus/batch.go:99-99 | over every run of a stored batch, additions included, its total is the jobs pushed and to be pushed, and total less pending is the number of jobs that succeeded |
| `BatchRuns.StampsOfARun` | bus/memory.go:146-261 | over every run it is cancelled exactly if ever stopped, at the first stop's time, and finished exactly if it was finished, or stopped for the first time, with no job added since, at the stop's time or else the first finish's |
| `BatchMemory.RowKeyInjective` | bus/memory.go:47-47 | the row key determines tenant and id |
| `Queues.Queue.Push` | bus/queue.go:23-25 | a push appends one message or fails and appends none, and a push after a failed one may go through |
| `Queues.Queue.PushAll` | bus/pending.go:235-259 | one push after another up to the first that fails: exactly the messages before it are queued |
| `Queues.Queue.PushEach` | bus/batch.go:257-311 | one push after another whatever becomes of each: exactly those that go through are queued, in order |
| `Queues.AllThrough` | bus/queue.go:23-25 | with no failed push ahead both ways of pushing queue every message, in order, which is the queue of the runs of a chain |
| `BatchMemory.Memory.Find` | bus/memory.go:104-117 | the row of this tenant and id, or the error for no tenant or no row |
| `BatchMemory.Memory.Store` | bus/memory.go:120-143 | a new row counts all its jobs pending, none failed, and no other row changes |
| `BatchMemory.Memory.Update` | bus/memory.go:194-209 | one report is applied at once and the counters answered are the row's; an error changes nothing |
| `BatchMemory.Memory.IncrementTotalJobs` | bus/memory.go:146-166 | total and pending grow together and a finished batch is no longer finished; a non-positive amount does nothing |
| `BatchMemory.Memory.MarkAsFinished` | bus/memory.go:212-234 | the first finish is the one kept |
| `BatchMemory.Memory.Cancel` | bus/memory.go:237-261 | the first cancellation is the one kept and finishes the batch |
| `BatchMemory.Memory.PushJobs` | bus/pending.go:235-259 | Before, then every job in order with its own id, up to the first push that fails |
| `BatchMemory.Memory.Dispatch` | bus/pending.go:216-261 | the row first, then Before, then every job in order with its own id; a failed push leaves a cancelled batch and the messages already queued |
| `BatchMemory.Memory.Add` | bus/batch.go:172-202 | a job without a name is refused before anything changes; then room in the counters, then the jobs; a failed push leaves the counters raised |
| `BatchMemory.Memory.CarryOut` | bus/batch.go:257-311 | pushes and stamps are carried out in the order decided; a failed push leaves out its own message and stops neither the pushes nor the stamps after it |
| `BatchMemory.Memory.Record` | bus/batch.go:252-311 | a report moves the counters; then, by the counters it got back and in this order, the messages of Progress, Then and Finally after a success, of Progress, Failure, Catch and Finally after a failure, each only if declared and due; the row is finished or cancelled exactly when due; a failed push stops nothing after it |
| `BatchMemory.SuccessMessages` | bus/batch.go:252-275 | after a success: Progress's own message, Then's if nothing is pending, Finally's if every job has reported, in that order |
| `BatchMemory.FailureMessages` | bus/batch.go:283-311 | after a failure: where failures are allowed Progress's and Failure's, then Catch's for the first, then Finally's if every job has reported |
| `BatchMemory.ReportStamps` | bus/batch.go:262-294 | a success that leaves nothing pending finishes the row; a first failure cancels it unless failures are allowed; nothing else stamps it |
| `BatchMemory.DispatchPushes` | bus/pending.go:235-259 | a dispatch pushes Before's bare message first, if there is one, then one message a job in order, on the job's own queue or else the batch's, in an envelope with the batch's id and that job's |
| `Chains.Chain.AddStep` | bus/chain.go:54-63 | links are appended up to the first without a name, which breaks the chain |
| `Chains.Chain.Dispatch` | bus/chain.go:94-136 | with a link and a tenant, exactly one message is pushed: the first link on its settled queue, carrying all the others with theirs and the Catch with its own |
| `Chains.ResolvedSettles` | bus/chain.go:109-136 | every link of a dispatched chain, and the step pushed when one fails, is on its own queue or else the chain's, in its place and otherwise as given |
| `Chains.Handled` | bus/batchable.go:412-445 | the batch is reported to first and its callbacks pushed, then the next link on success or the chain's Catch on failure, which may go through whatever pushes before it failed |
| `Chains.HandleNested` | bus/chainedbatch.go:59-105 | the batch is dispatched on its own queue and connection with the rest of the chain as its Finally, on the queue set for the chain, and the chain's Catch as its Catch if it has none; a batch without jobs or with an unnamed one pushes nothing |
| `Chains.NestedOptions` | bus/chainedbatch.go:59-105 | the options a nested batch is dispatched with: its own queue and connection where named, the chain's Catch where it has none, the rest of the chain as Finally where there is a rest, and every other option as it was |
| `ChainRuns.JobReports` | bus/batchable.go:420-435 | one job of a batch at work reports: the others, and those gone that were batches, stay counted by pending less failed, which is zero exactly after the last, and failed grows exactly by a failure |
| `ChainRuns.ReportKinds` | bus/chainedbatch.go:93-105 | of what a report pushes only Finally can be a link, once, and exactly when every job has reported |
| `ChainRuns.QueueAtExactly` | bus/chainedbatch.go:103-103 | a link is pushed on the queue settled at dispatch if and only if it has one, is first, follows a plain link, or follows a batch with neither a queue nor one set for the chain |
| `ChainOrder.NextKeeps` | bus/batchable.go:302-338 | every delivery, in any order, keeps the invariant of a chain whose batches may hold batches to any depth |
| `ChainOrder.OneLinkAtATime` | bus/chain.go:88-128 | in every reachable state at most one link is outstanding and none beside jobs of the batch before it; the links run are a prefix in order, each carrying exactly the rest, and only the last of them can have failed |
| `ChainOrder.ComesToItsEndExactly` | bus/chainedbatch.go:73-105 | a run at rest with no link failed has run the whole chain if and only if no link before the last is a batch that holds a batch |
| `ChainOrder.WaitsForTheBatch` | bus/chainedbatch.go:73-105 | a report of the batch's jobs pushes the next link, carrying exactly the remaining ones, if and only if it is the last of them and none of the jobs was a batch |
| `ChainCatch.FirstFailureIsCaught` | bus/chainedbatch.go:54-71 | in every reachable state, of every nested batch taken: its row counts the failures reported to it, its Catch, or the chain's where it has none, was called for exactly once if one of its jobs has failed and never otherwise, by the first failing report and no other, and the log holds what each report called for where it was made |
| `ChainCatch.EveryJobIsTold` | bus/batchable.go:420-435 | every job of the batch at work makes one report, to that batch and with its own outcome, when it is taken |
| `ChainOrder.PlainChainEnds` | bus/batchable.go:437-443 | a run of plain links has pushed all of them and nothing else, or the links up to the failing one and then the Catch exactly once |
| `ChainOrder.ReportedBatchRunsAhead` | queue/middleware/reporttobatch.go:56-75 | a worker that also reports a nested batch's own job pushes the next link while the batch is at work, exactly when there is a next link |
| `ChainReports.InOrderExactly` | queue/middleware/reporttobatch.go:56-75 | under such a worker, over every order of delivery, at most one link is outstanding and none beside jobs of a batch, if and only if no link before the last is a batch, batches inside the last included |
| `RunWith.AlwaysFine` | concurrency/run.go:69-136 | in every interleaving the semaphore holds what the goroutines hold, each task runs at most once, and the failure kept is one that was answered |
| `RunWith.ReturnsTheTruth` | concurrency/run.go:125-136 | nothing returns before every goroutine is over; results come back exactly if no task failed and the parent was not cancelled, each in the slot of its task; otherwise the first failure, or the parent's error |
| `RunWith.FirstFailureWins` | concurrency/run.go:115-121 | a failure kept is never replaced by any later step |
| `RunWith.DoneCallsNobody` | concurrency/run.go:110-112 | once the run is cancelled, or its parent is, no further task is called, whatever steps follow |
| `RunWith.FailureStopsTheRest` | concurrency/run.go:99-121 | from any point of a run at which it is over, the tasks not yet called are never called and never answer, and what is returned is a failure |
| `RunWith.EntryChecks` | concurrency/run.go:70-75 | no tasks return nothing, and a context already done returns its error and runs nothing |
| `RunWith.NeverAboveTheLimit` | concurrency/run.go:80-109 | the tasks running at any moment never exceed a positive limit below the number of tasks |
| `RunWith.RunsEnd` | concurrency/run.go:94-125 | no run has more than eight effective steps a task and two more |
| `RunWith.SomebodyMoves` | concurrency/run.go:94-125 | until the call returns, some step other than cancelling the parent is possible |
| `Throttle.KeysApart` | auth/throttle.go:365-371 | no pair key is an address key, and the first letters of a key say which budget it is counted against |
| `ThrottleTenants.ClientKeyTells` | auth/throttle.go:369-371 | two address keys are one exactly if tenant and address are |
| `ThrottleTenants.PairKeyTells` | auth/throttle.go:365-367 | two pair keys are one exactly if tenant, fingerprint and address are |
| `ThrottleTenants.TenantsApart` | auth/throttle.go:227-276 | over every run of attempts, refunds and clears for many tenants in which nothing is evicted, each tenant is answered exactly what it would be answered had only its own calls been made |
| `Throttle.MemoryThrottle.constructor` | auth/throttle.go:213-218 | a throttle starts empty |
| `Throttle.MemoryThrottle.DropExpired` | auth/throttle.go:357-363 | the ranging delete leaves exactly the counters whose reset is after the cut |
| `Throttle.MemoryThrottle.Evict` | auth/throttle.go:348-353 | the ranging delete does nothing below the cap, and above it leaves part of what there was, of exactly the size two more fit on |
| `Throttle.MemoryThrottle.Trim` | auth/throttle.go:341-354 | swept once a window; then evicted only above the cap, and only until two more fit |
| `Throttle.MemoryThrottle.Attempt` | auth/throttle.go:227-255 | both budgets decide before either is spent, the answer and the table are those of the specification, whose laws are the rows of ThrottleLaws and ThrottleTenants, counters stay within their limits and the table within its cap |
| `Throttle.MemoryThrottle.Refund` | auth/throttle.go:258-263 | one unit back to each key, dropping a counter that reaches zero |
| `Throttle.MemoryThrottle.Clear` | auth/throttle.go:266-276 | the pair forgotten, one unit back to the address |
| `Throttle.AlwaysBounded` | auth/throttle.go:227-363 | after any calls from an empty throttle every counter is between one and its limit and the table holds at most 65536 |
| `ThrottleWindow.FollowsAlways` | auth/throttle.go:297-309 | in every run that never forgives a key its counter is the last of its generations, each within limit and window, one starting no sooner than the reset of the one before, under any lockout |
| `ThrottleWindow.TwoBudgetsPerWindow` | auth/throttle.go:227-255 | any half-open interval of one window admits at most twice the key's budget in every run that never forgives it, without a lockout, with one of at least the window less a nanosecond, or with one of half the window and a budget of at most two |
| `ThrottleExcess.BoundedExactly` | auth/throttle.go:297-309 | over all runs of calls formed of one tenant, identity and address each, in which refunds and clears answer admitted attempts, that bound holds for an address if and only if the policy is one of those three for the address's budget, and for a pair if and only if it is one for the pair's, where that is not above the address's |
| `ThrottleExcess.SomeRun` | auth/throttle.go:227-255 | any attempts of one identity and of others at its address, in order, are a run the throttle can be given, and are admitted as two counters on their own would admit them |
| `ThrottleExcess.ThreeBursts` | auth/throttle.go:304-308 | under a lockout below half the window, attempts of which three whole budgets are admitted in one window, of an address or of a pair, for any budget |
| `ThrottleExcess.LateAndTwoBursts` | auth/throttle.go:304-308 | under a lockout shorter than the window by two nanoseconds or more, attempts of which two budgets and one more are admitted in one window, of an address or of a pair, for any budget of three or more |
| `ThrottleLaws.RefusedExactly` | auth/throttle.go:287-293 | an attempt is refused if and only if a live counter of its keys is at its limit, the wait is what is left of it, and a refusal moves neither counter |
| `ThrottleLaws.RefundUndoesExactly` | auth/throttle.go:311-322 | an admitted attempt and its refund leave every counter as it was, for whoever looks from then on, if and only if neither key was relocked by it |
| `ThrottleRefunds.RefundUnseenExactly` | auth/throttle.go:257-263 | no later run answers otherwise than without the two, if and only if neither key was relocked; two attempts at the earlier of the two resets tell, of the pair where its address can take two more |
| `ThrottleLaws.RefundIsInvisible` | auth/throttle.go:257-263 | every later answer is what it would have been without the refunded attempt, when nothing was relocked or evicted |
| `ThrottleLaws.LockedForTheWholeLockout` | auth/throttle.go:304-308 | the attempt that spends the pair's budget keeps the pair refused until exactly the end of the lockout, with the time left as the wait, whatever comes between without forgiving it |
| `ThrottleLaws.SigningInForgives` | auth/throttle.go:266-276 | an admitted attempt followed by a clear forgets the pair, leaves the address as it was before the attempt exactly unless it was relocked, and changes no other counter |
| `ThrottleLaws.SweptOnceAWindow` | auth/throttle.go:341-346 | a sweep leaves exactly the counters whose reset is ahead, and there is no other before a window has passed |
| `ArrayStores.ArrayStore.Live` | cache/array.go:368-378 | a look answers the live entry and drops an expired one |
| `ArrayStores.ArrayStore.Get` | cache/array.go:150-161 | the value, or a miss, and the table of the specification |
| `ArrayStores.ArrayStore.Put` | cache/array.go:164-173 | the entry and its deadline are replaced; no time to live is an error |
| `ArrayStores.ArrayStore.Add` | cache/array.go:176-188 | stored only where nothing lives |
| `ArrayStores.ArrayStore.Forget` | cache/array.go:191-197 | the entry goes and no other changes |
| `ArrayStores.ArrayStore.Increment` | cache/array.go:204-225 | the sum wraps at 64 bits, the deadline is the counter's first, and a value that is no number is an error |
| `ArrayStores.ArrayStore.Touch` | cache/array.go:246-260 | a live entry gets a new deadline and keeps its value |
| `ArrayStores.ArrayStore.Flush` | cache/array.go:324-334 | the ranging delete leaves exactly the keys without the prefix |
| `ArrayStores.ArrayStore.AcquireLock` | cache/array.go:337-349 | granted only where no lock lives |
| `ArrayStores.ArrayStore.ReleaseLock` | cache/array.go:352-364 | only a live lock with this token goes |
| `ArrayStores.Frame` | cache/array.go:150-260 | an operation on a key changes nothing held under another |
| `ArrayStores.LazyExpiryIsInvisible` | cache/array.go:368-378 | over every run under a clock that does not go back, dropping expired entries on a look answers as a store swept before every call |
| `StoreLaws.PutIsRead` | cache/array.go:150-173 | after a Put with a time to live the key reads that value at every moment before its deadline and misses from then on; without one nothing changes |
| `StoreLaws.AddIsRead` | cache/array.go:176-188 | an Add answers true exactly where the key missed, and then reads as a Put; refused, it leaves value and deadline |
| `StoreLaws.TouchIsRead` | cache/array.go:246-260 | a Touch answers true exactly where the key is read, and then moves the deadline and keeps the value |
| `StoreLaws.ForgetIsRead` | cache/array.go:191-197 | after a Forget the key misses and every other reads as before |
| `StoreLaws.FlushIsRead` | cache/array.go:324-334 | after a Flush a key misses if it has the prefix and reads as before if not |
| `StoreLaws.IncrementIsRead` | cache/array.go:204-225 | an Increment answers and stores the sum with what was read, or the delta alone after a miss, keeping a counter's deadline and giving a new one its own |
| `StoreLaws.ReadYourWrites` | cache/array.go:150-173 | over any calls in between that leave the key alone, what a Put or an Add stored is read until its deadline and not after |
| `ArrayStores.WrapsAround` | cache/array.go:204-225 | the sum stored, which fits 64 bits, differs from the sum proper by a multiple of two to the 64th |
| `StoreLaws.SumIsReadLater` | cache/array.go:204-225 | over any calls in between that leave the key alone, the sum an Increment answered is read until the deadline the counter had, or its own if there was none, and not after |
| `StoreLaws.TouchKeepsTheValue` | cache/array.go:246-260 | over any calls in between that leave the key alone, a value touched while it is read is read until the new deadline and not after |
| `StoreLaws.ForgottenStays` | cache/array.go:191-197 | over any calls in between that leave the key alone, a forgotten key misses |
| `StoreLaws.RefusedAddIsUnseen` | cache/array.go:176-188 | no later call can tell that an Add was refused, or that a key was read |
| `ArrayStores.FlushesAgree` | cache/database.go:454-465 | the DELETE with the LIKE pattern removes exactly what the array store's flush removes |
| `ArrayStores.FlushIsolatesTenants` | cache/repository.go:347-368 | a flush removes every entry of its tenant and namespace and leaves every other as it was |
| `Keys.PrefixSeparates` | cache/repository.go:1015-1027 | one prefix starts another's key if and only if tenant and namespace are the same |
| `Keys.FullKeyInjective` | cache/repository.go:996-1012 | the full key determines tenant, namespace and key |
| `Keys.FullKeyExactly` | cache/repository.go:996-1012 | a full key exists exactly for a good tenant, a good namespace and a key that is not empty, and otherwise which error |
| `Keys.FlushTakesItsOwn` | cache/repository.go:347-368 | a key starts with the flushed prefix if and only if it belongs to that tenant and namespace |
| `Keys.ColonInATenantCollides` | auth/policy.go:419-425 | without the check on segments two tenants would share an entry |
| `Keys.LikePrefix` | cache/database.go:599-609 | the loop builds the escaped prefix and the wildcard |
| `Keys.EscapedMatchesExtensions` | cache/database.go:599-609 | with the backslash as escape, the pattern matches a string if and only if the prefix starts it |
| `Keys.UnescapedExactly` | cache/database.go:599-609 | without an escape character that holds for every string if and only if the prefix has no special character |
| `Memos.MemoizedStore.Get` | cache/memoized.go:77-103 | a remembered answer, a miss included, or the store's, which is then remembered |
| `Memos.MemoizedStore.Put` | cache/memoized.go:160-163 | the write reaches the store and the key is forgotten |
| `Memos.MemoizedStore.Add` | cache/memoized.go:185-188 | the store decides and the key is forgotten |
| `Memos.MemoizedStore.Increment` | cache/memoized.go:195-198 | the store counts and the key is forgotten |
| `Memos.MemoizedStore.Touch` | cache/memoized.go:212-220 | the store decides and the key is forgotten |
| `Memos.MemoizedStore.Forget` | cache/memoized.go:223-226 | gone from the store and from the memo |
| `Memos.MemoizedStore.Flush` | cache/memoized.go:233-238 | the store is flushed and the whole memo dropped |
| `Memos.ReadAgreesExactly` | cache/memoized.go:77-103 | a read through the memo answers what the store would if and only if it does not remember a value that has expired since |
| `Memos.MemoIsTransparent` | cache/memoized.go:77-238 | under a still clock, after any calls, the next answers as the bare store given the same calls, and holds the same entries |
| `Memos.RememberedSinceLastWrite` | cache/memoized.go:275-297 | under any clock a remembered answer is one the store gave to a read of that key with no write to it since |
| `Memos.RemembersUntilWritten` | cache/memoized.go:77-103 | over any calls in between that do not write the key, a read answers what the read before it did, whatever the clock, and leaves the store alone |
| `Locks.Lock.Acquire` | cache/lock.go:95-118 | which of the four answers, and that only a granted handle changes what it holds or what the store does |
| `Locks.Lock.Release` | cache/lock.go:124-132 | exactly the live lock under this name with this handle's token goes, and no other |
| `Locks.NamesApart` | cache/lock.go:338-338 | locks of two names are under two keys |
| `Locks.ArrayExclusion` | cache/array.go:337-364 | over every run with distinct tokens, a name is granted again only after the grant before was given back by its own token or has expired |
| `LockHolds.ArrayRefusesExactly` | cache/array.go:337-364 | over every run, an acquisition with a time to live is refused exactly while a grant of that name is neither given back by its own token nor expired |
| `Locks.GrantKeeps` | cache/database.go:485-514 | a statement that takes a free or expired row displaces no holder |
| `Locks.DatabaseExclusion` | cache/database.go:485-557 | the same over every interleaving of INSERT, conditional UPDATE, release and pruning as separate statements |
| `Locks.HolderKeepsItsRow` | cache/database.go:521-557 | an unreleased grant ahead of the clock is the row there is, however many expired holders release late |
| `LockHolds.RefusedExactly` | cache/database.go:485-514 | over every interleaving, an acquisition made with no other in between is refused exactly while a grant of that name that its token has not given back is ahead of the clock |
| `LockHolds.GivenBackIsFree` | cache/database.go:521-525 | once the token that owns the row has released it, the next acquisition of the name is granted at its INSERT |
| `LockHolds.OthersGiveNothingBack` | cache/database.go:521-525 | over every interleaving, a release by a token that does not own the row changes no row and nothing that is held |
| `LockHolds.PruneLeavesTheHeld` | cache/database.go:553-557 | over every interleaving, pruning leaves exactly the rows of the grants held at that moment, and leaves them as they are |
| `LockHolds.OwnerTakesAgain` | cache/database.go:497-505 | a token whose row is there takes the lock again with the new expiration, however far the old one |
| `LockHolds.BrokenInsertRefuses` | cache/database.go:492-512 | an INSERT that fails on a free name ends in a refusal and changes no row |
| `Locks.TakenTwiceExactly` | cache/database.go:485-514 | a second handle can be granted the lock at the instant of the first grant, the first unreleased, if and only if the expiration is not ahead of that instant in whole milliseconds; the statements of both are the run |
| `Locks.OneMillisecondIsTheFloor` | cache/database.go:587-590 | that happens at no instant if and only if the time to live is at least a millisecond |
| `RateLimiters.RateLimiter.Hit` | cache/ratelimiter.go:269-279 | one more in the counter of the current bucket, under the limit's decay, and the count it answers |
| `RateLimiters.RateLimiter.Attempt` | cache/ratelimiter.go:247-261 | answers exactly when the key is good and the store counts; fits exactly when the counter it left is within the limit, with what remains |
| `RateLimiters.RateLimiter.TakeOne` | cache/ratelimiter.go:305-317 | the decrement and what makes up for one below zero change no other key and keep the deadline |
| `RateLimiters.RateLimiter.Release` | cache/ratelimiter.go:292-318 | alone on the store, one off a positive counter, zero and absence left alone, the least integer wrapped to the greatest; no other key changes and the deadline stays |
| `RateLimiters.AvailableInExactly` | cache/ratelimiter.go:395-401 | now plus AvailableIn is the first instant of the next bucket if and only if the clock is later than one window before the epoch, or the window is one nanosecond |
| `RateLimiters.TryCounts` | cache/ratelimiter.go:247-279 | an attempt reads one more than the attempts of its bucket before it |
| `RateLimiters.AttemptsAreExact` | cache/ratelimiter.go:247-261 | over every run on a shared store each attempt leaves the number of attempts of its bucket so far, so exactly the first ones up to the limit fit and no counter is lost before its bucket ends |
| `RateLimiters.TwoBurstsAtMost` | cache/ratelimiter.go:416-428 | over every run on a shared store, at most twice the limit of the answers it gives in any interval one window long are within the limit |
| `RateLimiters.CounterKeyTells` | cache/ratelimiter.go:416-428 | two counter keys are one exactly if the limit's key and the bucket are |
| `RateLimiters.KeyExactly` | cache/ratelimiter.go:416-428 | a limit has a counter exactly if it has a key, a window and room for one attempt, and otherwise which error |
| `RateLimiters.LimitsCountApart` | cache/ratelimiter.go:416-428 | over every run of attempts under many limits on one store, each attempt answers the attempts made under its own key in its own bucket, and nobody else's |
| `RateLimiters.NeverNegative` | cache/ratelimiter.go:292-318 | over every interleaving of hits, looks, decrements and compensations the counter plus what is owed to it is never negative |
| `RateLimiters.ReleasesLeaveAbsence` | cache/ratelimiter.go:292-318 | releases alone, however they overlap, leave a counter that is not there not there |
| `RateLimiters.FloorExactly` | cache/ratelimiter.go:283-318 | a hit, look, decrement, compensation, expiry or clear moves what the counter settles at as releases that stop at zero would, if and only if it is no decrement of a spent counter and no end of it with a compensation under way |
| `RateLimiters.FlooredExactly` | cache/ratelimiter.go:283-318 | over every interleaving, the counter settles after each move where releases that stop at zero would have it, if and only if no move disturbed a compensation that way |
| `RateLimiters.EndedBeforeCompensated` | cache/ratelimiter.go:305-317 | one release of an empty counter that ends before its compensation lands leaves it at one |
| `RateLimiters.OverlappingReleasesOvershoot` | cache/ratelimiter.go:292-318 | two overlapping releases of an empty counter leave it at one |
| `TagKeys.RenderInjective` | cache/tagged.go:57-72 | away from the collisions below, the string key says which generation, tagged item or untagged item it is |
| `TagKeys.CollidesExactly` | cache/tagged.go:178-186 | two places share a key if and only if they are one, or an untagged key spells a generation or a tagged item, or a tagged item is `key` in the namespace `tag` and the tag is named by its digest |
| `TagKeys.PlainKeysAreApart` | cache/repository.go:996-1012 | an untagged key without a colon collides with nothing |
| `TagKeys.OtherKeysAreApart` | cache/repository.go:996-1012 | outside the namespace `tag`, an untagged key collides with nothing unless its first colon comes right after as many characters as a digest has |
| `TagKeys.FlushReaches` | cache/repository.go:347-368 | a flush of a namespace reaches a place if and only if it is the tenant's and in that namespace, a generation being in `tag` |
| `Tags.GenerationSet` | cache/tagged.go:108-124 | a new generation hides every entry of the tenant with that tag and changes no other reading |
| `Tags.GenerationDropped` | cache/tagged.go:143-152 | so does removing the generation |
| `Tags.EntryTellsItem` | cache/tagged.go:164-186 | two items at one entry are one item, because no two tags share a generation |
| `TagRuns.IdsForWriting` | cache/tagged.go:82-98 | minting what is missing shows and hides nothing, and ends with every tag's current generation |
| `TagRuns.IdsForReading` | cache/tagged.go:82-98 | a read-only grant stores nothing, and its key carries a generation nobody stored under if any is missing |
| `TagRuns.ResetPrunes` | cache/tagged.go:126-136 | resetting tags deletes exactly the tenant's entries that carry one of those reached |
| `TagRuns.SpaceFlushed` | cache/repository.go:347-368 | a flush of a namespace hides exactly its items, and one of `tag` every tagged item of the tenant |
| `TagRuns.Simulates` | cache/tagged.go:57-186 | every call, tagged or not, answers and leaves what the plain map would |
| `TagRuns.RunStands` | cache/tagged.go:57-186 | after any run from an empty store the generations stand for a map of items in which flushing deletes |
| `TagMirrors.RunAlike` | cache/tagged.go:57-186 | after any run away from the collisions, the store of strings holds exactly what the named places hold |
| `TagMirrors.FlushIsDeletion` | cache/tagged.go:238-251 | after any such run on the strings every further call answers as that map: a flush of tags removes exactly the entries of its tenant whose tag list has a flushed tag |
| `TagMirrors.CollidingItemHides` | cache/tagged.go:82-98 | an untagged item put at the key of a tag's generation puts an item with that tag out of reach, where the map still holds it |
| `TagStores.TagStore.TagID` | cache/tagged.go:82-98 | the current generation, or the drawn one, stored only by a grant that may write |
| `TagStores.TagStore.GetNamespace` | cache/tagged.go:166-176 | the ids in order, stopping at the first name that is no tag, with what was minted before it kept |
| `TagStores.TagStore.ResetTag` | cache/tagged.go:108-124 | a new generation, or an error and no change |
| `TagStores.TagStore.ResetAll` | cache/tagged.go:129-136 | a new generation a name, up to the first refused |
| `TagStores.TagStore.FlushTag` | cache/tagged.go:143-152 | the generation removed, or an error and no change |
| `TagStores.TagStore.FlushAll` | cache/tagged.go:155-162 | every generation removed, up to the first refused |
| `TagStores.TagStore.ItemKey` | cache/repository.go:996-1012 | prefix and key are checked before any generation is minted, and the key carries the current generations |
| `TagStores.TagStore.Put` | cache/repository.go:159-172 | a read-only grant is refused before anything is minted; otherwise the item is stored under its current generations |
| `TagStores.TagStore.Get` | cache/repository.go:563-572 | the item under its current generations, or a miss |
| `TagStores.TagStore.Forget` | cache/repository.go:313-322 | the item under its current generations is removed |
| `TagStores.TagStore.FlushSpace` | cache/repository.go:347-368 | every key with the namespace's prefix goes, for a grant that may write |
| `FileEntry.HeaderFields` | cache/file.go:728-740 | the header's two expiry fields read back, and the rest is length, key and value |
| `FileEntry.RoundTrip` | cache/file.go:728-768 | decoding an encoded entry gives key, value and the expiry cut to the millisecond or clamped |
| `FileEntry.RoundTripExactly` | cache/file.go:728-768 | that holds if and only if the key is shorter than 2^32 |
| `FileEntry.DecodedKeyIsShort` | cache/file.go:745-768 | decoding is total, and no decoded key reaches 2^32 |
| `FileEntry.StoredExpiryIsClose` | cache/file.go:714-740 | a stored expiry is at most the one asked for, less than a millisecond early, and stored again unchanged |
| `Numerals.PaddedReadsBack` | cache/file.go:728-740 | a padded number reads back, and fills its width exactly when it fits |
| `Numerals.FormatIntReadsBack` | cache/array.go:204-225 | a counter written as a decimal reads back over the whole 64-bit range |

## Left out

- `PendingBatch.DispatchAfterResponse`, `DispatchIf`, `DispatchUnless`: the first counts its jobs twice, so the conservation law is stated for `Dispatch` and `Add` only; the others are one branch.
- `Get`, `Delete`, `Prune*` and paging of both batch repositories; `Transaction` and `RollBack`: they would only add easy members.
- BatchMessages.MessagesExactly: every push goes through; what a failed push leaves out is said by `Memory.Record`.
- Catch and Finally exactly once under duplicate or retried reports: not promised by the code, so the one-report-per-job hypothesis stays.
- Errors of the database and of JSON: no such branch in the model.
- BatchUpdates.DatabaseBatchRepository.Update: the rows of one tenant; interference is a list of committed changes, or a deletion, before and after each write.
- ChainOrder.OneLinkAtATime: every push succeeds, each message is delivered and reported once, and callbacks are ordinary jobs.
- `Queueable` setters, `AssertHasChain`, `WithFakeBatch`, `PrepareNestedBatches`: values in, values out.
- RunWith.ReturnsTheTruth: a task is whatever it answers; panics turned into errors and the name given to a task are not modelled.
- Throttle.MemoryThrottle.Attempt: the fingerprint of the identity is a parameter; lower-casing, trimming and the digest are not modelled.
- ThrottleTenants.TenantsApart: stated without eviction at the cap, which tenants share, and for fingerprints without a colon, as base 64 has none.
- ThrottleLaws.RefundIsInvisible: stated without eviction at the cap, which may forgive different keys in the two runs.
- `ArrayStore` beyond the operations listed: `Many`, `PutMany`, `All`, `FlushLocks`, `CurrentOwner`, `ForceReleaseLock`; the memo's `Many` and `PutMany`.
- RateLimiters.LimitsCountApart: limits of one key share one window, as their counters would otherwise be of two lengths under one name.
- RateLimiters.NeverNegative: counters in the interleaving are unbounded integers; so too in `FlooredExactly`.
- RateLimiters.AttemptsAreExact: one clock reading an attempt, where the code reads it once for the key and again inside the store; limits whose key is non-empty.
- `Lock.Block`, `Get`, `Run`: a polling loop and two wrappers around `Acquire` and `Release`.
- Locks.DatabaseExclusion: no forced release and no flush of the locks, and the clock does not go back.
- `DatabaseStore` `Increment` and `Put` under concurrency, documented as not atomic; `FileStore` exclusion, where a delete follows a check as a separate step: not claimed by the code.
- TagStores.TagStore.Put: entries do not expire.
- TagMirrors.FlushIsDeletion: for runs whose items do not collide with a place they are not, which `CollidesExactly` tells.
- ThrottleExcess.BoundedExactly: of a pair whose budget is above its address's only one half is proved, that a steady policy keeps the bound; there the address can refuse first.
- ThrottleRefunds.RefundUnseenExactly: the table has room for six more counters, so that nothing is evicted in the two runs compared; of a relocked pair whose address has room for one attempt only, nothing is said.
- TagKeys.RenderInjective: SHA-1 is any function with results of forty characters and no colon that does not collide on the strings digested.
- `Flexible`, `Remember`, `FailoverStore`, `CacheManager`, events, grants, sessions, policies beyond tenant names, broadcasting, console and configuration.
