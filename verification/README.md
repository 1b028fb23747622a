# Verified model of the migration manager's core

The migration manager moves virtual machines from a source to a target. Instances are grouped in batches; a
running batch puts its instances in a queue, workers ask what to do next and report how it went, and the server
decides who may import, when, and in which migration window. This project models that server logic in Dafny and
proves what it keeps over every run, together with the smaller stateful parts it rests on.

| file | what it holds |
|---|---|
| `Common.dfy`, `Counting.dfy` | optional values, replies, time; counting queue entries under change |
| `Windows.dfy` | migration windows: fitting, choosing the earliest, validating a list in place |
| `Queue.dfy` | the queue's records, every operation as a function of the state, steps and runs |
| `Store.dfy`, `WindowSelection.dfy`, `QueueService.dfy`, `WindowService.dfy`, `BatchService.dfy` | the services as methods over mutable tables and counter caches, each proved equal to its operation in `Queue.dfy` |
| `WindowChoice.dfy`, `Answers.dfy`, `Transitions.dfy` | what the operations answer and store, said of plain fields, and the status transitions of all steps |
| `WindowSafety.dfy`, `ImportLimits.dfy`, `ImportCounters.dfy`, `WorkerProtocol.dfy`, `Lifecycle.dfy`, `WindowEdits.dfy`, `BatchEdits.dfy` | invariants and theorems over all runs of the queue |
| `Restart.dfy` | counting the import counters anew when the daemon starts |
| `IDLock.dfy` | the reference-counted map of locks as a concurrent transition system |
| `DiskCopy.dfy` | the chunked incremental disk copy |
| `Transactions.dfy`, `Schema.dfy` | nested lazy transactions; schema upgrades |
| `InstanceSync.dfy`, `TagConfig.dfy`, `Warnings.dfy` | merging source data, tag keys, merging and pruning warnings |

A queue *run* (`Queue.Run`) is any sequence of worker requests and reports, cancellations, retries, deletions, batch
starts, stops and resets, window replacements and deletions, moves of the daemon's periodic tasks and updates of an
instance's disks, on any number of entries and batches. Each operation is one atomic step, because worker requests are
serialized by a lock and every operation runs in one exclusive transaction. A step carries what the environment
contributes: the instant, the worker's message, where an instance is placed, whether the database takes a row.
Theorems about runs start from any state that is safe, or covered, or exact, as the case may be; a fresh server is
all of these, and `Restart.dfy` says what a restart of the daemon makes of the counters, which are not stored.
Criteria expressions are a table from instance and expression to a verdict; an absent verdict is an expression that
fails. Time is a natural number with the zero time below all others.

## What the code does not do

The proofs were made for the code as it is. Where it does less than it seems to promise, a lemma gives the exact
condition, or an input that shows it.

- Source and target counters drift when an importing entry is cancelled, when a missed deadline takes a final import
  back to idle (cmd/migration-managerd/internal/api/workers.go:815-840, which releases nothing), and when a success or
  failure is reported from a status that recorded nothing, such as post-import (`ImportCounters.ExactnessIsKept`). The
  first two only waste slots. The last lets limits be exceeded: `ImportCounters.SourceLimitIsExceeded` and
  `ImportCounters.TargetLimitIsExceeded` say exactly when, and `ImportCounters.LimitIsExceeded` is an input.
- After a restart imports of a batch that is not running are not counted (`Restart.RestartIsExact`).
- When every window of a batch is full, entries behave as if the batch had no windows and start their final import at
  once (`WindowEdits.FinalImportsStartInWindows`; `WindowEdits.FullWindowsAreNoWindows` is an input).
- A held window with an unset end may be given an end, so it can end earlier than before (`WindowEdits.HeldWindowsGrow`).
- Only neighbouring windows are compared, and an unset end never counts as an overlap: an accepted list is disjoint
  exactly if no window but the last is open-ended (`Windows.AcceptedIsDisjoint`).
- The comment above `canUpdateRunningBatch` says that constraints matching committed entries cannot be added or removed.
  The code checks added constraints only. `BatchEdits.DocumentedRuleIsMet` says for which edits that is enough,
  `BatchEdits.SelectionIsKept` which edits leave the constraint of every committed entry alone, and
  `BatchEdits.RemovalBreaksFinalBound` is an accepted removal that breaks another constraint's limit.
- Even without any error the counters run low: every migration that completes releases one import more than it recorded
  (`Lifecycle.MigrationCompletes`), so other imports from the same source or to the same target are no longer counted.
- A failed schema upgrade leaves the enforcement of foreign keys switched off, and with a dump older than the updates a
  second run is not a no-op (`Schema.Ensure`, `Schema.RepeatIsNoOp`). A fresh and an upgraded database differ when the
  old dump and the remaining updates do not give the new dump (`Schema.FreshThenAll`).
- Applying a source snapshot twice is not always the same as once: `InstanceSync.AppliesOnce` gives the exact condition
  on the snapshot. Unique disk names and network identifiers are sufficient, not necessary.

## Model

| member | source | states |
|---|---|---|
| Windows.GetEarliest | internal/migration/window_model.go:156-175 | the loop returns the empty window for an empty list, otherwise a fitting window such that no fitting window starts earlier, and none exactly if no window fits |
| Windows.FitsAntitone | internal/migration/window_model.go:55-78 | a window that fits a duration at some time fits every shorter duration at every earlier time |
| Windows.UnavailableForever | internal/migration/window_model.go:156-175 | once no window of a set fits, none ever will again for that or a longer duration |
| Windows.ValidMeans | internal/migration/window_model.go:104-132 | in plain fields: a window is valid exactly if its name and capacity are good, its times are in order and it is not over |
| Windows.FitsMeans | internal/migration/window_model.go:55-78 | a window fits a duration exactly if it is valid, not locked, and the duration and a minute end before it does, from its start and from now |
| Windows.ValidateList | internal/migration/window_model.go:80-102 | leaves the list a start-sorted permutation of what it was and accepts exactly the lists whose windows are valid and whose neighbours do not overlap |
| Windows.AcceptedMeans | internal/migration/window_model.go:80-102 | which lists are accepted, in plain times: each window ends no later than the next one starts |
| Windows.AcceptedIsDisjoint | internal/migration/window_model.go:80-102 | an accepted list is pairwise disjoint if and only if no window but the last has an unset end |
| Store.Cache.Write | internal/util/concurrent.go:46-55 | replaces, or with a merge function combines, one key's value; every other key keeps its own |
| Store.Cache.Replace | internal/util/concurrent.go:24-35 | replaces the whole map, and refuses a missing one leaving the cache as it was |
| Store.RecordActiveImport | internal/migration/source_service.go:38-42 | the counter of one name is one higher, every other counter reads the same |
| Store.RemoveActiveImport | internal/migration/source_service.go:44-52 | the counter of one name is one lower but never below zero, every other counter reads the same |
| Store.CachedImports | internal/migration/target_service.go:33-36 | an endpoint without an entry in the cache has no imports |
| WindowSelection.CountWindowsInUse | internal/migration/queue_service.go:204-210 | for every window name, the number of queue entries of any batch that hold it |
| WindowSelection.FilterWindows | internal/migration/queue_service.go:212-217 | exactly the batch's windows that have room for one more entry, or are the entry's own |
| WindowSelection.SelectConstraint | internal/migration/queue_service.go:233-256 | the most recently added constraint that matches the instance, and failure exactly if an expression before it fails |
| WindowSelection.CountMatches | internal/migration/queue_service.go:263-284 | counts the committed or asking entries of the batch that match the constraint, and fails exactly if the expression fails on one of them |
| WindowSelection.GetNextWindow | internal/migration/queue_service.go:177-303 | the whole selection meets its specification: reuse an assigned window that has not ended, else obey the selected constraint, else the earliest fitting window |
| WindowSelection.NextWindowExists | internal/migration/queue_service.go:177-303 | the specification of the selection can always be met: no request is left without an answer |
| WindowChoice.OutsideAnyWindow | internal/migration/queue_service.go:212-217 | an entry without a window is sent outside of all stored windows if and only if every window of its batch has a capacity and at least as many entries that hold it |
| WindowChoice.HeldWindowIsKept | internal/migration/queue_service.go:224-231 | an entry that holds a window which is not over is given that one, full or not |
| WindowChoice.UnconstrainedAnswer | internal/migration/queue_service.go:253-256 | without a constraint that applies the answer is a stored window with room that suits, and none with room that suits starts earlier; or none if none suits |
| WindowChoice.ConstrainedAnswer | internal/migration/queue_service.go:233-298 | the last constraint that matches decides: no window if more entries than it allows would be under way, else the earliest one with room that leaves the time it demands |
| WindowChoice.FailedExpression | internal/migration/queue_service.go:239-284 | the selection fails exactly if an expression that has to be asked fails |
| QueueService.NewWorkerCommand | internal/migration/queue_service.go:307-526 | new tables, counters and reply are those of the atomic request operation, and on an error nothing changes |
| QueueService.Schedule | internal/migration/queue_service.go:387-499 | the decision for an idle entry is the specified one, and the window selection is consulted as specified |
| QueueService.CarryOut | internal/migration/queue_service.go:501-517 | an import that starts is counted once at its source and target, and at its batch if it is a background sync; a post-import is not counted |
| QueueService.ProcessWorkerUpdate | internal/migration/queue_service.go:528-613 | the stored entry, the three counters and the reply after every kind of report from every status, including the reports that are refused |
| QueueService.CancelByUUID | internal/migration/queue_service.go:616-645 | cancels every unfinished entry, frees its window, tells whether it was committed and leaves the counters alone |
| QueueService.RetryByUUID | internal/migration/queue_service.go:648-710 | only a cancelled entry is put back, waiting or blocked, without window and at the first stage |
| QueueService.DeleteByUUID | internal/migration/queue_service.go:152-165 | removes exactly one entry, and none that is migrating |
| Answers.BusyEntryIsAnswered | internal/migration/queue_service.go:324-368 | an entry that is not idle is answered if and only if its worker last reported to be running and it is at one of its tasks; it then gets that command again, else it is refused |
| Answers.GrantIsGivenOnce | internal/migration/queue_service.go:324-368 | a command just granted is refused to a second request, and given again after the worker has reported to be running |
| Answers.IdleEntryIsAnswered | internal/migration/queue_service.go:396-497 | for an idle entry, exactly when each command is given and when the request fails, in terms of limits, counters, stage, window and times |
| Answers.IdleEntryIsMoved | internal/migration/queue_service.go:411-517 | what each command stores, field by field, and that no other entry changes |
| Answers.ReportIsAccepted | internal/migration/queue_service.go:528-542 | a report is accepted if and only if the entry migrates and, unless it says running, its instance exists |
| Answers.ReportIsStored | internal/migration/queue_service.go:545-605 | what each response stores from each status, field by field: a failure is an error and keeps stage, window and last sync |
| Transitions.CancelMeans | internal/migration/queue_service.go:616-645 | every entry but a finished one can be cancelled, and whether it was past the point of no return |
| Transitions.RetryMeans | internal/migration/queue_service.go:648-710 | exactly when a cancelled entry is put back, and as what |
| Transitions.DeleteMeans | internal/migration/queue_service.go:152-165 | exactly which statuses can be deleted |
| Transitions.StatusChanges | internal/migration/queue_service.go:89-710 | over every step an entry changes its status only along the listed transitions, by an operation about it |
| Transitions.FinishedByTheDaemon | cmd/migration-managerd/internal/api/workers.go:1422 | over every step an entry is finished only if it was, or the daemon took it from worker-done |
| Transitions.MoveMeans | cmd/migration-managerd/internal/api/workers.go:837 | each daemon move: the statuses it starts from, and status, stage and window it leaves |
| Transitions.EntriesComeAndGo | internal/migration/batch_service.go:387-504 | entries appear only by starting their batch and vanish only by deletion or a reset of their batch |
| WindowService.DeleteByNameAndBatch | internal/migration/window_service.go:34-54 | deletes one window, and refuses while an entry of the batch holds it |
| WindowService.CheckHeldWindows | internal/migration/window_service.go:99-127 | accepts exactly the requests that keep every held window and only let it grow as the rules allow |
| WindowService.RewriteRows | internal/migration/window_service.go:129-160 | after pruning, updating and creating rows one by one, the table holds the requested windows for this batch and the old ones for all others; it can fail only for a missing batch or clashing times |
| WindowService.ReplaceByBatch | internal/migration/window_service.go:72-164 | the windows after the call are those of the atomic replacement, and an error leaves all windows as they were |
| WindowEdits.ReplacementMeans | internal/migration/window_service.go:72-164 | exactly which replacements are accepted: valid windows, and each held one requested again with a start no later, an end no earlier or unset and a capacity no smaller or unlimited |
| WindowEdits.DeletionMeans | internal/migration/window_service.go:34-54 | a stored window is deleted if and only if no entry of its batch holds it |
| BatchService.StartBatchByName | internal/migration/batch_service.go:387-504 | queues exactly the assigned instances that are not queued yet, each in its initial status, and sets the batch running, or changes nothing |
| BatchService.StopBatchByName | internal/migration/batch_service.go:506-534 | stops a running batch only |
| BatchService.ReleaseImports | internal/migration/batch_service.go:620-629 | the loop over deleted entries lowers each counter by the number of imports it stood for, stopping at zero |
| BatchService.ResetBatchByName | internal/migration/batch_service.go:565-638 | removes the batch's entries, all or none, refuses committed ones unless forced, and releases their imports |
| Transitions.StartMeans | internal/migration/batch_service.go:387-504 | exactly when a batch starts |
| Transitions.StartQueues | internal/migration/batch_service.go:387-504 | exactly the assigned instances that were not queued are added, each in conflict, blocked or waiting as its match, the forcing and its restriction say |
| Transitions.ResetMeans | internal/migration/batch_service.go:565-613 | exactly when a reset is refused, and that it removes exactly the entries of the batch |
| BatchEdits.Assignments.Update | internal/migration/batch_service.go:286-349 | afterwards the batch is assigned exactly the instances its expression matches, other batches keep theirs, and a failure changes nothing |
| BatchEdits.ConstraintsToCheck | internal/migration/batch_service.go:128-137 | the recorded constraints followed by exactly the constraints that are new |
| BatchEdits.CheckConstraints | internal/migration/batch_service.go:139-174 | accepts an edit if and only if no constraint new to the batch fails on an instance or matches a committed entry |
| BatchEdits.EditAllowedMeans | internal/migration/batch_service.go:139-174 | in plain statuses and stages, which entries bar a new constraint |
| BatchEdits.SelectionIsAmongKept | internal/migration/batch_service.go:120-174 | after an accepted edit a committed entry's selected constraint is the one selected among the kept constraints |
| BatchEdits.DocumentedRuleIsMet | internal/migration/batch_service.go:120-122 | accepted edits always meet the rule that no added or removed constraint matches a committed entry, if and only if every removed constraint is replaced by a new one with the same expression |
| BatchEdits.SelectionIsKept | internal/migration/batch_service.go:120-174 | an accepted edit leaves the selected constraint of every committed entry as it was, for all entries and verdicts, if and only if the constraints outside the edited expressions can be selected as before, in the same order |
| BatchEdits.ReplacementsKeepSelections | internal/migration/batch_service.go:128-174 | replacing constraints by others with the same expressions, in any number, is such an edit if the others keep their order |
| BatchEdits.EditKeepsFinalBound | internal/migration/batch_service.go:120-174 | an accepted edit of that kind breaks the limit of no constraint, new or old, even with final imports under way |
| BatchEdits.AdditionsKeepFinalBound | internal/migration/batch_service.go:120-174 | an accepted edit that only adds constraints, anywhere, breaks no limit, even with final imports under way |
| BatchEdits.RemovalBreaksFinalBound | internal/migration/batch_service.go:155-159 | a concrete safe state, with every row its entries refer to, and an accepted removal after which two final imports run under a limit of one |
| WindowSafety.DecisionEffect | internal/migration/queue_service.go:417-497 | a request only moves an idle entry to background, final or post import, and what stage and window it then has |
| WindowSafety.NextWindowMayBeTaken | internal/migration/queue_service.go:201-231 | the window the selection returns exists in the batch and has a free place for the entry |
| WindowSafety.RequestKeepsInv | internal/migration/queue_service.go:307-526 | a worker request keeps the whole invariant of windows, capacities and stages |
| WindowSafety.ReplaceKeepsInv | internal/migration/window_service.go:100-127 | replacing windows keeps every held window and never lowers a capacity below its holders |
| WindowSafety.StepKeepsInv | internal/migration/queue_service.go:307-710 | every step of every kind keeps the invariant of windows, capacities and stages |
| WindowSafety.AssignmentsAreSafe | internal/migration/queue_service.go:204-238 | in every state of every run, from a fresh server or any safe state, each assigned window exists in its entry's own batch, no window with a capacity has more holders, and status, stage and window agree |
| ImportLimits.FinalGrantRespectsConstraint | internal/migration/queue_service.go:258-302 | when a final import is granted to an entry that selects a constraint, the entry and all its rivals fit the limit |
| ImportLimits.CountsOnlyGrowByRequests | internal/migration/queue_service.go:528-613 | no step but a worker request adds to any count of imports |
| ImportLimits.FinalImportBound | internal/migration/queue_service.go:231-302 | over every run from a safe state within bounds, at most N entries that select a constraint with limit N are in final import at once |
| ImportCounters.CountersStayInRange | internal/migration/queue_service.go:396-415 | started between zero and its limit, every counter stays there in every run |
| ImportCounters.CoverIsKept | internal/migration/queue_service.go:584-596 | a step keeps every batch counter at or above the batch's background syncs, if and only if it is not an unknown response that releases a running import |
| ImportCounters.BackgroundSyncBound | internal/migration/queue_service.go:406-415 | in every run of known responses that starts covered and within limits, a batch never has more background syncs than its limit, resets of any batch included |
| ImportCounters.SyncsExactIsKept | internal/migration/batch_service.go:620-629 | batch counters stay equal to the numbers of background syncs through a step if and only if it neither cancels such an import nor reports one with an unknown response |
| ImportCounters.ResetKeepsExact | internal/migration/batch_service.go:620-629 | a reset releases exactly the imports it deletes, for every source and target |
| ImportCounters.ExactnessIsKept | internal/migration/queue_service.go:499-509 | endpoint counters equal the numbers of importing entries after a step from exact counters if and only if the step is not one of the listed drifting ones |
| ImportCounters.EndpointCountersStayExact | internal/migration/queue_service.go:499-509 | on every run without drift the endpoint counters stay exact |
| ImportCounters.EndpointCoverIsKept | internal/migration/queue_service.go:584-596 | endpoint counters stay at or above the imports through a step if and only if the step is not a report that releases an import it does not end, from a counter with none to spare |
| ImportCounters.EndpointLimitsHold | internal/migration/queue_service.go:396-404 | on every run in which no report undercounts, no source or target with a limit serves more imports at once, whatever is cancelled or misses its deadline |
| ImportCounters.SourceLimitIsExceeded | internal/migration/queue_service.go:396-404 | a step takes a source over its limit if and only if it grants an import while the source is at its limit, and a grant happens only while the counter reads below it |
| ImportCounters.TargetLimitIsExceeded | internal/migration/queue_service.go:401-404 | the same for a target |
| ImportCounters.PostImportExceedsLimit | internal/migration/queue_service.go:584-591 | from exact counters with the source at its limit, a post-import success followed by the request of a waiting entry of that source makes one import more than the limit |
| ImportCounters.LimitIsExceeded | internal/migration/queue_service.go:584-591 | a concrete safe state with exact counters within limits, and two steps from it after which a source for one import serves two |
| ImportCounters.FreshIsExact | cmd/migration-managerd/internal/api/sync.go:84-99 | a fresh server has exact counters within all limits, so every theorem about runs applies to its runs |
| ImportCounters.PostImportOpensSlot | internal/migration/queue_service.go:584-591 | from exact counters at the limit, a post-import success opens a slot although no import ended |
| Restart.InitImportCaches | cmd/migration-managerd/internal/api/sync.go:44-99 | the loop sets every counter to the number of imports under way in running batches |
| Restart.RestartIsExact | cmd/migration-managerd/internal/api/sync.go:31-99 | after a restart no endpoint counter is too high, and all counters are exact if and only if no entry of a batch that is not running was importing |
| WorkerProtocol.NoImportIsGrantedTwice | internal/migration/queue_service.go:324-517 | a reply is the command for the stored status; for an entry that is not idle it is the command in force with queue and counters unchanged |
| WorkerProtocol.TopUpsKeepTheirDistance | internal/migration/queue_service.go:466-489 | with validated bounds a background top-up granted against a known window leaves at least the final sync limit before its start |
| WorkerProtocol.TopUpsNearTheWindow | internal/migration/queue_service.go:466-489 | when the window comes within an interval of the last sync, a top-up is granted if and only if the final sync limit still fits before it |
| WorkerProtocol.CommitmentPersists | internal/migration/queue_model.go:85-109 | a committed entry stays committed through a step if and only if the step is not a failure, cancellation, deletion, forced reset or final daemon move that is accepted |
| WorkerProtocol.StepKeepsComplete | internal/migration/queue_service.go:545-582 | a complete entry stays complete through a step if and only if the step is not an accepted cancellation, deletion, reset or move back by the daemon |
| WorkerProtocol.CompleteMeansNoMoreImports | internal/migration/queue_service.go:545-582 | once complete, an entry stays complete and is never told to import or finalize again, over any stretch of a run in which no accepted step reopens it |
| Lifecycle.MigrationCompletes | internal/migration/queue_service.go:307-613 | an entry that may import and syncs in the background is through after three granted tasks, no other entry is touched, the batch counter reads as before, and source and target each count one import less than the others have, if they have any |
| Lifecycle.OfflineMigrationCompletes | internal/migration/queue_service.go:307-613 | an entry that cannot sync in the background is through after two, with the same loss |
| WindowEdits.RequestedIsLast | internal/migration/window_service.go:72-81 | of several requested windows with one name the last counts |
| WindowEdits.HeldWindowsGrow | internal/migration/window_service.go:116-126 | a permitted replacement starts no later and has no smaller capacity; it ends earlier if and only if an unset end is set |
| WindowEdits.ReplacementIsExact | internal/migration/window_service.go:72-164 | after success the batch has exactly the requested windows, other batches are untouched, and every held window is there and has only grown |
| WindowEdits.FinalImportsStartInWindows | internal/migration/queue_service.go:422-452 | a final import starts in a begun, unlocked, open window of its batch with room, and without a window exactly if none has room or the chosen one is empty |
| WindowEdits.NoRoomMeansNow | internal/migration/window_model.go:156-160 | an entry past its first sync is granted its final import at once when no window of its unconstrained batch has room for it |
| WindowEdits.FullWindowsAreNoWindows | internal/migration/queue_service.go:212-217 | a concrete safe state in which the only window of the batch has not begun and is full, and a final import is granted without a window |
| IDLock.MutualExclusion | internal/util/concurrent.go:147-177 | under every interleaving at most one thread holds a key |
| IDLock.ThreadsHaveTheirKeys | internal/util/concurrent.go:147-177 | in every run each thread waits for, holds and releases the key of its last call of Lock |
| IDLock.UsesAreExact | internal/util/concurrent.go:131-177 | the uses of every mapped mutex are the threads that wait for it or hold it, and unlocking never fails |
| IDLock.NoWaiterIsStranded | internal/util/concurrent.go:163-177 | every registered thread's mutex is still the one in the map for its key, and if it is locked another registered thread owns it |
| IDLock.SomeThreadCanStep | internal/util/concurrent.go:147-177 | the lock never deadlocks: while a thread is inside a call, some thread can take a step |
| IDLock.NothingLeaks | internal/util/concurrent.go:170-176 | when no thread is registered the map is empty |
| IDLock.MapStaysCounted | internal/util/concurrent.go:131-177 | every step keeps the map one-to-one and its use counts exact and positive |
| DiskCopy.CopyArea | internal/migratekit/vmware_nbdkit/vmware_nbdkit.go:415-434 | the chunk loop ends, copies an extent up to where reading or writing fails, be it in the middle of a chunk, and every chunk is 1 byte to 64 MiB and stays inside the extent |
| DiskCopy.IncrementalCopy | internal/migratekit/vmware_nbdkit/vmware_nbdkit.go:402-441 | ends for every honest source; on success byte by byte the target is the source where an extent of any answer along the chain of questions contains the byte, and unchanged elsewhere; on failure nothing outside the extents has changed |
| DiskCopy.ReportedIsChanged | internal/migratekit/vmware_nbdkit/vmware_nbdkit.go:402-440 | the reported extents are those of every answer, each asked for where the last one ended |
| DiskCopy.PatchesCompose | internal/migratekit/vmware_nbdkit/vmware_nbdkit.go:415-440 | copying two lists of extents one after the other is copying both |
| DiskCopy.SameAsFullCopy | internal/migratekit/vmware_nbdkit/vmware_nbdkit.go:360-461 | the result is byte-equal to a full copy if and only if the target differed from the source only inside the reported extents |
| DiskCopy.RetryAfterFailure | internal/migratekit/vmware_nbdkit/vmware_nbdkit.go:360-461 | a copy that failed half-way and is then repeated ends like one that never failed |
| Transactions.NestingIsFlat | internal/transaction/context.go:23-44 | any tree of nested calls means what the same statements without nesting mean |
| Transactions.WritesAreInOrder | internal/transaction/context.go:23-44 | statements append their rows in order |
| Transactions.TestSeesEarlierWrites | internal/transaction/transaction.go:47-66 | a read sees the committed rows and the earlier writes of the same transaction, and no others |
| Transactions.ErrorsKeepWrites | internal/transaction/context.go:23-44 | the writes of a nested call that fails stay, and the caller goes on |
| Transactions.GetDBTX | internal/transaction/transaction.go:68-91 | the first statement begins the one transaction, later ones join it, and what statements see does not change |
| Transactions.Begin | internal/transaction/context.go:125-133 | a context without a container gets one and its owner, a context with one keeps it and gets a no-operation |
| Transactions.Execute | internal/transaction/context.go:23-44 | a function that runs in a container, nested calls of Do included, does what the flat program does, without committing or rolling back anything |
| Transactions.Do | internal/transaction/context.go:23-44 | without a container in the context all writes land in order if and only if the call succeeds, none otherwise, exactly as for the program without nested calls, and no transaction stays open; with one the call joins it and commits and rolls back nothing |
| Transactions.Container.Commit | internal/transaction/context.go:142-152 | commits the begun transaction if there is one and forgets it, or does nothing |
| Transactions.DoAll | internal/transaction/context.go:23-44 | a series of outermost calls acts as the successful ones in order |
| Schema.CheckNoHoles | internal/db/schema/schema.go:352-360 | accepts exactly the version lists that grow by one |
| Schema.ApplyUpdates | internal/db/schema/schema.go:268-305 | runs each missing update once, in order, or fails with the first that fails |
| Schema.Ensure | internal/db/schema/schema.go:116-190 | on success the content is the upgraded one; on failure it is unchanged and foreign keys are off |
| Schema.EnsureMeans | internal/db/schema/schema.go:116-190 | exactly when ensuring the schema succeeds, and the data and versions it leaves |
| Schema.UpgradeComposes | internal/db/schema/schema.go:268-305 | upgrading to a middle version and then on is upgrading at once |
| Schema.UpgradeRecords | internal/db/schema/schema.go:268-305 | an upgrade records exactly the versions it passes, in order and without holes |
| Schema.PrefixThenAll | internal/db/schema/schema.go:116-190 | upgrading an existing database with any prefix of the updates and then with all gives the database of upgrading once, whatever the dumps |
| Schema.FreshThenAll | internal/db/schema/schema.go:150-160 | a fresh database created from an old dump and then upgraded has the data and version of one created from the new dump, if and only if the old dump followed by the remaining updates gives the new dump; the recorded versions agree, too, only if no update was left |
| Schema.RepeatIsNoOp | internal/db/schema/schema.go:116-190 | a repeated run changes nothing if and only if no dump was used, or the dump records the last update and fits the recorded versions |
| InstanceSync.PreserveDisks | internal/migration/instance_model.go:438-467 | every reported disk is kept in order, and a known one keeps the verification of the last disk of its name |
| InstanceSync.PreserveNics | internal/migration/instance_model.go:475-505 | every reported NIC is kept in order, and a known one keeps its identity and the addresses that are not reported |
| InstanceSync.ApplyIdentity | internal/migration/instance_model.go:383-436 | the texts after the merge, and a flag that is set exactly if one changed |
| InstanceSync.ApplyDevices | internal/migration/instance_model.go:438-511 | the devices after the merge, and a flag that is set exactly if one changed |
| InstanceSync.Instance.ApplyUpdates | internal/migration/instance_model.go:375-567 | the merged properties in a new instance, the receiver untouched, and a flag that is true exactly if something changed |
| InstanceSync.MergeMeans | internal/migration/instance_model.go:375-567 | field by field, what is taken over from the source and what is kept |
| InstanceSync.MergedDisksMean | internal/migration/instance_model.go:438-473 | the reported disks are stored in order; only the verification may be that of the last known disk of the name, and only while background import stays as it was |
| InstanceSync.MergedNicsMean | internal/migration/instance_model.go:475-505 | the reported NICs are stored in order, with the identity and missing addresses of the last known one of the network |
| InstanceSync.Instance.UpdateMonitoring | internal/migration/instance_model.go:570-590 | ignores a stale report, keeps collected data on a failure of the same resource, and its flag is true exactly if something changed |
| InstanceSync.MonitoredMeans | internal/migration/instance_model.go:570-590 | a report of another source replaces, an older one is dropped, a failed one of the same resource keeps the collected data |
| InstanceSync.AppliesOnce | internal/migration/instance_model.go:375-567 | a snapshot is idempotent for every recorded instance if and only if its disks and NICs are stable |
| InstanceSync.UniqueIsStable | internal/migration/instance_model.go:438-505 | unique disk names and network identifiers make a snapshot stable |
| InstanceSync.VerificationSurvives | shared/api/properties.go:197-203 | background import stays supported through a merge unless the source turns it off or reports a new supported disk |
| InstanceSync.AttemptIsLatest | internal/migration/instance_model.go:570-575 | over any run of reports about one resource the recorded attempt is the latest of all |
| InstanceSync.FailuresKeepData | internal/migration/instance_model.go:570-590 | over any run of reports about one resource the recorded data are those of the last timely success, or of the first report |
| TagConfig.Config | internal/migration/instance_model.go:197-211 | the loop records each tag under the key of its group and of its number in the group |
| TagConfig.DecimalRoundTrip | internal/migration/instance_model.go:206 | the decimal text of an index can be read back |
| TagConfig.KeyRoundTrip | internal/migration/instance_model.go:206 | index and group can be read back from a key, whatever dots and digits the group contains |
| TagConfig.KeysAreDistinct | internal/migration/instance_model.go:197-211 | different tags of any list have different keys |
| TagConfig.EveryTagIsKept | internal/migration/instance_model.go:197-211 | every tag is found under its key with its value |
| TagConfig.OneKeyEach | internal/migration/instance_model.go:197-211 | there are exactly as many keys as tags |
| TagConfig.GroupsAreRecovered | internal/migration/instance_model.go:197-211 | the tags of every group can be read back in order and in full |
| TagConfig.ThreeTags | internal/migration/instance_model.go:197-211 | the keys of a concrete list, one tag of it without a group |
| TagConfig.PrefixesNeverClash | internal/migration/instance_model.go:185-190 | SDN tags and source tags never share a key |
| Warnings.WarningService.Emit | internal/migration/warning_service.go:32-85 | an invalid warning is refused; otherwise the row of its kind and scope is merged or created, and all other rows stay |
| Warnings.EmitMeans | internal/migration/warning_service.go:32-85 | which warnings are refused, and field by field the row that is created or merged |
| Warnings.WarningService.RemoveStale | internal/migration/warning_service.go:104-155 | the table after the loop is the pruned one, row by row |
| Warnings.PruneMeans | shared/api/warning.go:57-66 | a row of another scope name, entity type or entity than asked for is unchanged; any other keeps exactly the messages reported for its kind, in order, and goes if there is none |
| Warnings.WarningService.UpdateStatusByUUID | internal/migration/warning_service.go:163-184 | sets the status, moves the last update to last seen and changes no other row |
| Warnings.MergeIsUnion | internal/migration/warning_service.go:56-66 | a merged row has every message of both and no other |
| Warnings.MergeKeepsOrder | internal/migration/warning_service.go:57-66 | the reported messages come last in their order, before them those not reported again in theirs |
| Warnings.MergeRepeatsNone | internal/migration/warning_service.go:56-66 | merging lists without duplicates gives one without duplicates |
| Warnings.MergeSettles | internal/migration/warning_service.go:56-66 | reporting the same messages again leaves the list as it is |
| Warnings.FilterKeepsOrder | internal/migration/warning_service.go:131-136 | what is kept is an in-order subsequence that misses no message to be kept |
| Warnings.RowsStayValid | internal/migration/warning_service.go:32-85 | over every run there is one row for a kind and scope, no row is empty, and first seen, last seen and updated are in order |
| Warnings.PruneIsIdempotent | internal/migration/warning_service.go:104-155 | pruning twice is pruning once, and rows of other scopes are untouched |
| Warnings.SynchronisationIsExact | internal/migration/warning_service.go:102-155 | after pruning a scope and emitting what was found, the scope's rows hold every message found and none that was not found for its kind, and all other rows are as they were |
| Warnings.CountsAddUp | internal/migration/warning_service.go:48-72 | however often a warning is emitted it has one row with the first identifier and time and the sum of all counts |

## Left out

- The daemon's periodic tasks enter a run only as the moves they make on an entry (`Queue.DaemonMove`, from cmd/migration-managerd/internal/api/workers.go); what makes a task choose a move is not modelled.
- Unguarded writers: `UpdateStatusByUUID` from outside, `windowService.Update`, `windowService.Create`, renaming, deleting a batch, and testing mode; they check none of the rules proved here.
- Editing a batch is not a step of a run: limits, sync bounds and constraints are fixed over a run, and `BatchEdits` states separately what a constraint edit does to the limits. The checks of name, placement, network and scriptlet are left out as easy.
- ImportCounters.BackgroundSyncBound: requires runs without unknown worker responses, because such a report releases a running import; `ImportCounters.CoverIsKept` shows that this is the only such step.
- ImportCounters.EndpointLimitsHold: requires runs in which no report undercounts, because limits do get exceeded on others; `ImportCounters.EndpointCoverIsKept` shows that these are the only such steps.
- BatchEdits.EditKeepsFinalBound: one way only; which edits that change a committed entry's constraint happen to break no limit depends on how the limits of the old and new constraints add up. That selections are kept is stated both ways.
- Lifecycle.MigrationCompletes: the entry's tasks follow one another without steps of other entries in between; the theorems over runs cover all interleavings.
- WindowService.RewriteRows: when the database refuses a row is bounded from one side, as for `WindowService.ReplaceByBatch`.
- WindowService.ReplaceByBatch: whether the database takes the rows is only bounded, not fixed, because rows are rewritten in no fixed order and a unique constraint may be violated in between.
- BatchService.ResetBatchByName: fixes what every counter reads afterwards, not which keys the cache holds.
- Schema.Ensure: requires that recorded versions are not negative, because the code only ever records positive ones and a negative one stops the program. The optional patch file is left out, and so is the custom version check, which the program never sets.
- WindowSelection.NextWindowExists: of several windows with the same start any one may be returned, because the store does not fix the order that decides.
- IDLock: modelled on values as a transition system, because its point is the interleaving of threads; fairness of the mutexes is not modelled, so waiting for ever behind other threads is not excluded.
- DiskCopy.IncrementalCopy: an answer to a query is assumed to start where asked, to have a length and to stay inside the disk; the code does not check it. Bytes that arrive before a write fails are taken to be the first ones of the chunk. A disk of size zero, opening the device, progress and full copies by nbdcopy are left out.
- Errors of the database other than a refused row or commit, failures to begin a transaction, reading single columns and JSON are left out; so are counters recorded just before such an error.
- The text of messages beyond those the code compares, window name validity (a flag of the window), and the worker command's fields other than the command itself.
- Placement, disabled reasons and criteria expressions are inputs; scriptlets, the expression language and operating system detection are not modelled.
- Durations are unbounded integers, so saturation is not modelled; monitoring values that are not numbers are left out.
- Sources and targets of VMware, NSX, vROps and Incus, ACME, OIDC, authorization, API handlers, UI and command line are not part of this model.
