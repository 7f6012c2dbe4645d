# Verification models of the agent platform

These modules model the parts of the repository whose correctness is not obvious from reading one function, and
prove what each part is for.

- **Task scheduler** (`Dependencies`, `Rewiring`, `DependencyGraph`, `SchedulerMachine`, `SchedulerTheorems`,
  `SchedulerLaws`, `MetaGraphScheduler`). The dependency graph with Kahn's algorithm, edge insertion with rollback, patches that
  rewire the live graph, and the asynchronous loop with its semaphore and fail-fast. The loop is a state machine
  whose events are the stretches of code between two awaits. The classes are proved against that machine, and
  deadlock freedom, termination, launch safety, progress under rewiring and exact failure propagation are proved
  of every run of it.
- **Incremental source index** (`Indexing`, `Indexer`, `IndexerTheorems`). Passes over a changing file tree leave
  the index that parsing everything anew on every pass would have left.
- **Run lifecycle** (`RunRecords`, `RecordLaws`, `RunLifecycle`). Refresh, cancel, approve, reject and the two critical sections
  of `_mark_finished`, interleaved in any order with any number of capture threads.
- **Rate limiting** (`TokenBuckets`, `RateLimiting`, `CleanupTheorem`, `ClientWindows`). Three token buckets with
  one meaning; a call is granted exactly when the window bound allows it; exactly when removing idle buckets goes
  unnoticed; and exactly when every client keeps its window bound in spite of such removals.
- **Batch executor** (`BatchSlots`), **event stream** (`SseText`, `SseClient`, `SseLaws`), **context packing**
  (`ContextPacker`), **pass@k** (`PassAtK`), **loop budget** (`LoopBudget`), **approval tokens**
  (`ApprovalTokens`).

Clocks, random values, the outcome of a sub-agent, the contents of files and traces, JSON parsing, lossy decoding,
the grammars and the MAC are parameters, so every theorem holds for all of them. A method is proved against a
function, and what that function means is stated without its name: in the `...Laws` modules and in the theorems. Time and tokens are reals. Python
exceptions and Rust errors are values of `Result`.

## Where the code and its promises part

- `pass_at_k(n, n, 0)` is 1 for n > 0 although an empty draw contains no correct sample
  (`PassAtK.EstimateIsExact`, `PassAtK.NothingDrawnStillPasses`).
- A capture thread of an earlier process can finish the record of a resumed run, whose exit code is then another
  process's. A resume risks this exactly if a capture thread is still at work (`RunLifecycle.ResumeIsRiskyExactly`,
  `RunLifecycle.StaleThreadFinishesResumedRun`).
- succeeded + failed + skipped is the number of tasks at the end of every run exactly if no task is handed in with
  status "running" (`SchedulerTheorems.CountsAlwaysAddUpExactly`, `SchedulerTheorems.RunningTaskIsCountedNowhere`); and
  `all_succeeded` says nothing of such tasks (`MetaGraphSchedulers.AllSucceededExactly`).
- A run whose process could not be spawned stays in the service, unfinished for ever, and only such a run does
  (`RunLifecycle.FinishableExactly`, `RunLifecycle.OrphansBegin`).
- `check` looks a bucket up again outside its lock, and the lookup fails if a cleanup came first
  (`ClientWindows.LookupFailsExactly`).
- A comment in `verify_token` says that a challenge id may contain dots; the split is from the left, so with a
  dot no token is ever accepted (`ApprovalTokens.DottedNeverAccepted`).
- `approval_token_for_challenge` uses a secret of white space that the runner does not count as set
  (`ApprovalTokens.SharedSecretWorks`, `ApprovalTokens.OneSpaceFails`).
- The frame that ends a run's stream is not the word the client waits for: the client delivers it as the event
  `{}` and learns of the end only when the response ends (`SseClient.FramesRoundTrip`).
- A packing exceeds its token budget, by up to three tokens, exactly when one segment is compressed with 17, 18 or
  19 tokens left and its least head and tail do not fit into these (`ContextPacker.OvershootsExactly`); any long
  word does it (`ContextPacker.LongWordOvershoots`).

## Model

| member | source | states |
|---|---|---|
| Dependencies.StuckSetIsCyclic | py/src/lg_orch/meta_graph.py:156-157 | a non-empty set whose every member waits for a member contains a cycle, by pigeonhole on a walk inside it |
| Dependencies.TopologicalIsAcyclic | py/src/lg_orch/meta_graph.py:145-157 | a relation with an order in which every task follows its dependencies has no cycle |
| DependencyGraphs.DependencyGraph.New | py/src/lg_orch/meta_graph.py:108-119 | construction succeeds exactly for distinct ids, known dependencies and no cycle; which error is which |
| DependencyGraphs.FindUnknown | py/src/lg_orch/meta_graph.py:132-135 | finds a dependency outside the id set exactly if there is one |
| DependencyGraphs.Degrees | py/src/lg_orch/meta_graph.py:137-143 | in-degrees count the dependency occurrences, duplicates included, and the reverse lists mirror them |
| DependencyGraphs.CountProcessed | py/src/lg_orch/meta_graph.py:145-156 | the loop processes all tasks exactly if the relation has no cycle |
| DependencyGraphs.Release | py/src/lg_orch/meta_graph.py:151-154 | after a node is processed every in-degree is again the number of unprocessed occurrences and the queue holds the free tasks |
| DependencyGraphs.DependencyGraph.ValidateNoCycles | py/src/lg_orch/meta_graph.py:125-157 | returns normally if and only if all dependencies are known and the relation has no cycle, self-dependencies and duplicates included |
| DependencyGraphs.DependencyGraph.AddEdge | py/src/lg_orch/meta_graph.py:163-183 | succeeds exactly when both ids are known and no cycle arises, and then the list of the target ends in the new id unless it was there; a failure restores the list exactly |
| DependencyGraphs.DependencyGraph.RemoveEdge | py/src/lg_orch/meta_graph.py:185-192 | deletes the first occurrence only, and only from that one list; an absent edge is ignored |
| DependencyGraphs.DependencyGraph.Clone | py/src/lg_orch/meta_graph.py:194-205 | a fresh graph with equal edges over the same task objects |
| DependencyGraphs.DependencyGraph.ReadyTasks | py/src/lg_orch/meta_graph.py:211-223 | exactly the pending tasks whose every dependency has completed |
| Rewiring.RemoveFirstUndoesAppend | py/src/lg_orch/meta_graph.py:177-182 | removing the first occurrence of an id that was absent undoes appending it |
| Rewiring.RemoveFirstExactly | py/src/lg_orch/meta_graph.py:190-192 | removing an id that is there takes away the entry at its first position and nothing else |
| Rewiring.WithoutEdgesCounts | py/src/lg_orch/meta_graph.py:530-531 | a sequence of removals takes away as many occurrences of an edge as it names, and no more than there are |
| Rewiring.AcceptedIsUnion | py/src/lg_orch/meta_graph.py:532-533 | accepted additions give exactly the union of the old relation and the added edges, known and acyclic |
| Rewiring.AcyclicUnionIsAccepted | py/src/lg_orch/meta_graph.py:532-533 | additions to known tasks whose union with the graph is acyclic are all accepted, in any order |
| Rewiring.PatchAcceptedExactly | py/src/lg_orch/meta_graph.py:528-543 | a patch is accepted iff its added ids are known and old graph minus removals plus all additions is acyclic |
| Rewiring.PatchKeepsSound | py/src/lg_orch/meta_graph.py:528-543 | every accepted patch keeps the ids, the known dependencies and acyclicity |
| Rewiring.PatchOrderIrrelevant | py/src/lg_orch/meta_graph.py:528-543 | reordering a patch or repeating additions changes neither verdict nor resulting relation |
| MetaGraphSchedulers.TryPatch | py/src/lg_orch/meta_graph.py:528-540 | the removals then additions on a clone succeed exactly when the patch is acceptable, with the patched relation |
| MetaGraphSchedulers.MetaGraphScheduler.MaybeApplyPatch | py/src/lg_orch/meta_graph.py:505-549 | all or nothing: with rewiring the live graph becomes the patched one if the patch is accepted, and otherwise stays unchanged |
| MetaGraphSchedulers.MetaGraphScheduler.LaunchRound | py/src/lg_orch/meta_graph.py:326-350 | one launch round and the termination guard are the machine's launch step |
| MetaGraphSchedulers.MetaGraphScheduler.Start | py/src/lg_orch/meta_graph.py:334-336 | a granted semaphore moves one waiting task to running |
| MetaGraphSchedulers.MetaGraphScheduler.End | py/src/lg_orch/meta_graph.py:439-456 | the end of a sub-agent sets its status and applies its patch |
| MetaGraphSchedulers.MetaGraphScheduler.CollectRound | py/src/lg_orch/meta_graph.py:357-385 | collecting any non-empty set of ended tasks, and fail-fast, are the machine's collect step |
| MetaGraphSchedulers.MetaGraphScheduler.FailFast | py/src/lg_orch/meta_graph.py:371-393 | pending tasks are skipped; with nothing in flight the run is aborted at once, otherwise it drains |
| MetaGraphSchedulers.MetaGraphScheduler.WindDown | py/src/lg_orch/meta_graph.py:386-393 | tasks still running are skipped and the bookkeeping is cleared |
| MetaGraphSchedulers.MetaGraphScheduler.Run | py/src/lg_orch/meta_graph.py:295-415 | the loop terminates, its history is a legal run of the machine, and the counts are those of its final state |
| MetaGraphSchedulers.RunMetaGraph | py/src/lg_orch/meta_graph.py:561-598 | fails exactly on duplicate ids, unknown dependencies or a cycle, leaving the tasks alone; otherwise a complete legal run leads from the statuses and dependencies handed in to the statuses returned, the three counts are the numbers of tasks with each status, and with pending tasks and no failing sub-agent every task succeeds |
| MetaGraphSchedulers.AllSucceededExactly | py/src/lg_orch/meta_graph.py:92-95 | all_succeeded holds iff every task succeeded or was handed in as "running" and left so |
| SchedulerMachine.RunKeepsInv | py/src/lg_orch/meta_graph.py:325-393 | in every state of every run: live graph acyclic over the same ids, status agrees with bookkeeping, at most max_parallel in the semaphore |
| SchedulerTheorems.NoDeadlock | py/src/lg_orch/meta_graph.py:325-355 | until the loop has ended some event that is no failure is always possible |
| SchedulerTheorems.RunsAreShort | py/src/lg_orch/meta_graph.py:325-393 | every run over n tasks has at most 8n + 1 events |
| SchedulerTheorems.RoundsAreBounded | py/src/lg_orch/meta_graph.py:325-369 | the loop runs at most n + 1 rounds |
| SchedulerTheorems.LaunchedExactlyOnce | py/src/lg_orch/meta_graph.py:327-341 | a task is past its launch iff some event launched it, and no two events did |
| SchedulerTheorems.InvokedOnce | py/src/lg_orch/meta_graph.py:327-341 | no task is let through the semaphore twice |
| SchedulerTheorems.InvokedAfterDependencies | py/src/lg_orch/meta_graph.py:221-222 | at its launch all dependencies in the graph then live had succeeded, and they still have when it is invoked; the semaphore keeps its width |
| SchedulerTheorems.CompletedForGood | py/src/lg_orch/meta_graph.py:365-366 | a completed task keeps the status "success" for the rest of the run |
| SchedulerTheorems.AllTasksSucceed | py/src/lg_orch/meta_graph.py:325-350 | progress under rewiring: if nothing fails, a run that cannot go on has ended with every task successful, for every event order and every patch |
| SchedulerTheorems.SkippedHasReason | py/src/lg_orch/meta_graph.py:343-350 | under rewiring too, every task skipped at a normal end has a transitive dependency that failed or was never pending |
| SchedulerTheorems.SkippedExactly | py/src/lg_orch/meta_graph.py:343-369 | without fail-fast and rewiring a task is skipped iff some proper transitive dependency failed or was never pending |
| SchedulerTheorems.CountsAddUp | py/src/lg_orch/meta_graph.py:397-415 | the three counts add up to the number of tasks iff the run was aborted or no task came in as "running" |
| SchedulerTheorems.CountsAlwaysAddUpExactly | py/src/lg_orch/meta_graph.py:397-415 | the three counts add up at the end of every run iff no task is handed in as "running" |
| SchedulerTheorems.RunningTaskIsCountedNowhere | py/src/lg_orch/meta_graph.py:345-350 | the failing run: one task handed in as "running", one round, all three counts zero |
| SchedulerLaws.LaunchTakesAllReady | py/src/lg_orch/meta_graph.py:327-341 | a round launches exactly the pending tasks, not launched before, whose every dependency in the live graph has completed |
| SchedulerLaws.LetInExactly | py/src/lg_orch/meta_graph.py:282-282 | a waiting task is let in iff fewer than max_parallel tasks, or none if that is below one, hold the semaphore |
| SchedulerLaws.WidthIsKept | py/src/lg_orch/meta_graph.py:334-336 | never more than that many hold it, in every state of every run |
| SchedulerLaws.PatchTakesEffect | py/src/lg_orch/meta_graph.py:505-549 | with rewiring: if the added ids are known and the old live graph without the removed edges united with the added ones is acyclic, the new live graph is that union; otherwise it is the old one |
| SchedulerLaws.OnlyPatchesRewire | py/src/lg_orch/meta_graph.py:505-549 | no other event, and without rewiring no event at all, changes the live graph |
| SchedulerLaws.DependencyLasts | py/src/lg_orch/meta_graph.py:528-543 | a dependency stays in the live graph through every event but a patch that removes it by name |
| SchedulerLaws.AddedDependencyIsAwaited | py/src/lg_orch/meta_graph.py:327-341 | over whole runs: a task launched after an accepted patch gave it a dependency, which no patch in between removed, is launched when that dependency has succeeded |
| SchedulerLaws.FailureStops | py/src/lg_orch/meta_graph.py:357-391 | a collection stops the run iff fail-fast is on and a collected task did not succeed; then nothing is pending, and the run is over at once iff nothing else is in flight |
| SchedulerLaws.FailFastStopsTheRun | py/src/lg_orch/meta_graph.py:371-393 | over whole runs: after such a collection nothing is launched, let in or collected, every task that was pending ends skipped, and the run ends aborted |
| SchedulerLaws.OutcomeDecides | py/src/lg_orch/meta_graph.py:357-391 | at the end of a run a sub-agent that returned has succeeded, one that raised has failed, and an interrupted one has failed if it was collected and is skipped if the run was wound down first |
| Indexing.UpsertedRows | rs/runner/src/indexing.rs:501-518 | after an upsert the path has exactly the new row and other paths keep theirs |
| Indexing.DeletedRows | rs/runner/src/indexing.rs:520-523 | after a delete the path has no row and other paths keep theirs |
| Indexing.ListingIsUnique | rs/runner/src/indexing.rs:327-338 | a map has only one listing sorted by path, so the published files are determined |
| Indexing.PathLessExactly | rs/runner/src/indexing.rs:328 | the order of the listing is the lexicographic one: a common beginning, then an end or the smaller character |
| Indexing.OneMoreSymbol | rs/runner/src/indexing.rs:506-533 | the symbols column has one "kind name" line a symbol and no newline at its end, the body one name a line |
| Indexer.OneMoreFile | rs/runner/src/indexing.rs:329 | symbols_total is the sum over the files |
| Indexer.RuntimeState.constructor | rs/runner/src/indexing.rs:245-250 | a new process starts with empty maps and whatever rows the database holds |
| Indexer.RuntimeState.IndexCandidates | rs/runner/src/indexing.rs:257-279 | exactly the candidates with a new readable fingerprint that parse are indexed again; a failed parse leaves the old entry |
| Indexer.RuntimeState.PurgeVanished | rs/runner/src/indexing.rs:281-290 | exactly the recorded paths that are no candidates lose fingerprint, summary and rows |
| Indexer.RuntimeState.Refresh | rs/runner/src/indexing.rs:252-301 | one pass moves every path as specified; the version rises by one iff the entry of some path has moved or nothing was published, and then the snapshot lists the files sorted |
| Indexer.ListSorted | rs/runner/src/indexing.rs:294-328 | the listing holds every file once, sorted by path |
| IndexerTheorems.IncrementalIsRebuild | rs/runner/src/indexing.rs:252-301 | after any history, if equal fingerprints mean equal contents, summary and rows are those of the index that parses everything on every pass; keys agree |
| IndexerTheorems.CurrentFilesOnly | rs/runner/src/indexing.rs:252-301 | when the current candidates parse, the index that parses everything holds exactly their parse, whatever happened before |
| IndexerTheorems.FilesAreCurrent | rs/runner/src/indexing.rs:252-301 | then, with faithful fingerprints, the runtime's files, fingerprint keys and rows are exactly those of the current candidates |
| IndexerTheorems.FollowsExactly | rs/runner/src/indexing.rs:264-274 | a path follows a change exactly if its fingerprint changed or nothing stored about it did |
| IndexerTheorems.SecondPassIsIdle | rs/runner/src/indexing.rs:264-266 | a second pass over an unchanged tree changes nothing |
| IndexerTheorems.RunPasses | rs/runner/src/indexing.rs:209-217 | the indexer thread as a whole, after any list of trees: with faithful fingerprints and readable files, a path has a summary iff it is in the last tree, allowed, not excluded, ends in .rs or .py and is at most 768 KiB; the summary has that language, the byte count and the extracted symbols, and the one row the names and the first 60000 characters; any other path has no rows but those an earlier process left |
| IndexerTheorems.CandidatesAreWanted | rs/runner/src/indexing.rs:349-397 | the candidates are exactly the allowed files that are not excluded, end in .rs or .py and are at most 786432 bytes |
| RunRecords.RunRecord.constructor | py/src/lg_orch/api/service.py:527-542 | a created run is running, unfinished, not pending and without a process |
| RunRecords.RunRecord.Refresh | py/src/lg_orch/api/service.py:1024-1039 | only an unfinished record with a process that has ended is finished, and then the trace's approval state is applied |
| RunRecords.RunRecord.ApplyApproval | py/src/lg_orch/api/service.py:161-183 | suspends exactly when the trace is pending and cancellation was not requested; otherwise clears all three pending fields |
| RunRecords.RunRecord.Cancel | py/src/lg_orch/api/service.py:626-643 | after a refresh an unfinished record becomes "cancelling", a finished one is left alone |
| RunRecords.RunRecord.Approve | py/src/lg_orch/api/service.py:664-760 | after a refresh the first failed check is reported and changes nothing else; otherwise the record is reset, resumed, the decision appended, and the resumed record refreshed once more before the lock is released |
| RunRecords.RunRecord.Reject | py/src/lg_orch/api/service.py:785-820 | after a refresh a pending record becomes "rejected" with exit code 1, any other gives the error |
| RunRecords.RunRecord.MarkFinishedFirst | py/src/lg_orch/api/service.py:935-944 | the first section finishes only an unfinished record and says whether the second follows |
| RunRecords.RunRecord.MarkFinishedSecond | py/src/lg_orch/api/service.py:960-964 | the second section applies the approval state of the trace read in between |
| RunRecords.BuildResumeArgv | py/src/lg_orch/api/service.py:264-282 | the loop computes the arguments without resume flags and their values, followed by the new flags |
| RunRecords.ResumeArgvReplaces | py/src/lg_orch/api/service.py:264-282 | resuming twice gives the flags of the second resume only |
| RecordLaws.Beginning | py/src/lg_orch/api/service.py:527-541 | every field of a record that create_run makes |
| RecordLaws.EndsByItsCode | py/src/lg_orch/api/service.py:1024-1039 | a refresh changes a record iff it is unfinished and its process is over; it then ends cancelled if that was requested, else suspended if the trace asks, else succeeded iff the exit code is 0; what the trace leaves, field by field |
| RecordLaws.ThreadEndsAlike | py/src/lg_orch/api/service.py:934-967 | the two sections of a capture thread in a row end a record as a refresh with that exit code does |
| RecordLaws.FirstSection | py/src/lg_orch/api/service.py:935-944 | between them the record has its exit code and a status by it, and nothing of approval has changed |
| RecordLaws.SecondSection | py/src/lg_orch/api/service.py:161-183 | what a trace changes in a record, field by field |
| RecordLaws.CancelReaches | py/src/lg_orch/api/service.py:637-642 | a cancellation marks exactly the unfinished records that were not cancelled yet, and changes nothing else |
| RecordLaws.ApprovalChecks | py/src/lg_orch/api/service.py:680-688 | an iff for each of the four errors of an approval and for none |
| RecordLaws.Resumption | py/src/lg_orch/api/service.py:690-760 | every field of an approved record: started anew with the new process, the decision appended to its history |
| RecordLaws.Rejection | py/src/lg_orch/api/service.py:803-820 | every field of a rejected record |
| RecordLaws.OthersStay | py/src/lg_orch/api/service.py:267-276 | arguments that are no resume flags stay in their order |
| RecordLaws.ResumeArgvExactly | py/src/lg_orch/api/service.py:264-282 | the flags of an earlier resume and their values go, wherever they stand, everything else stays, and the new flags follow |
| RunLifecycle.Perform | py/src/lg_orch/api/service.py:626-967 | every event of the interleaving model is the call on the record object, with the same record afterwards |
| RunLifecycle.RunKeepsInv | py/src/lg_orch/api/service.py:934-967 | in every interleaving, spawned or not: succeeded only with exit code 0, failed only with another, rejected only with 1; pending iff suspended; pending implies finished and not cancel-requested; unfinished iff running or cancelling; at most one thread between the sections, and then the record is finished and not pending |
| RunLifecycle.OrphanNeverFinishes | py/src/lg_orch/api/service.py:542-548 | a run whose spawn raised is never finished by any later call |
| RunLifecycle.OrphansBegin | py/src/lg_orch/api/service.py:527-548 | the state that a raising spawn leaves is such a beginning |
| RunLifecycle.FinishableExactly | py/src/lg_orch/api/service.py:1024-1039 | from any state a run can still be finished, or already is, iff a process was spawned for it |
| RunLifecycle.SettledForGood | py/src/lg_orch/api/service.py:637-644 | a finished record that is neither pending nor between the sections never changes again but for its log |
| RunLifecycle.CancellationIsFinal | py/src/lg_orch/api/service.py:640-642 | "cancelled" and "rejected" are absorbing and a cancellation request is never withdrawn, over whole runs |
| RunLifecycle.RunningOnlyByApproval | py/src/lg_orch/api/service.py:680-758 | "running" is entered again only by approving a record that its own refresh finds suspended, and exactly then a process is spawned |
| RunLifecycle.AttributionBreaksExactly | py/src/lg_orch/api/service.py:935-945 | a step makes the exit code another process's iff a capture thread of another outcome finishes an unfinished record |
| RunLifecycle.AlwaysAttributedExactly | py/src/lg_orch/api/service.py:934-945 | in every state of a run the exit code is the record's own process's iff no such step happens in it |
| RunLifecycle.ResumeIsRiskyExactly | py/src/lg_orch/api/service.py:664-760 | after a resume some continuation without further approvals misattributes the exit code iff a capture thread is still at work at the resume |
| RunLifecycle.AttributedWhenQuiet | py/src/lg_orch/api/service.py:888-945 | if every resume waits for the earlier capture threads the exit code is always the record's own process's |
| RunLifecycle.StaleThreadFinishesResumedRun | py/src/lg_orch/api/service.py:935-945 | the failing run: for every pending trace and exit code, a late thread finishes a resumed record while its process runs |
| RunLifecycle.ResumedRunFinishes | py/src/lg_orch/api/service.py:888-967 | what the promise is for: from every state, the process and thread that a resume starts finish the record with that process's exit code, and suspend it again iff the new trace asks |
| TokenBuckets.TokenBucket.Acquire | py/src/lg_orch/rate_limit.py:29-39 | adds elapsed seconds times rate, caps at the capacity, and grants iff one token is there, which it takes |
| TokenBuckets.ServiceRateLimiter.Acquire | py/src/lg_orch/api/service.py:371-380 | the same step, with the clock stored first |
| TokenBuckets.RunnerRateLimiter.TryAcquire | rs/runner/src/config.rs:121-132 | the same step in the Rust runner |
| TokenBuckets.RunnerRateLimiter.constructor | rs/runner/src/config.rs:112-119 | capacity, rate and tokens all start at the given number |
| TokenBuckets.FoundIsTightestRoom | py/src/lg_orch/rate_limit.py:29-39 | the tokens a call finds are exactly the room of the tightest window that ends at it |
| TokenBuckets.GrantedExactly | py/src/lg_orch/rate_limit.py:29-39 | a call is granted iff with it every window ending there stays within capacity + rate * length, written out in the times of the calls |
| TokenBuckets.WindowBound | py/src/lg_orch/rate_limit.py:29-39 | in every window of every run at most capacity + rate * length calls are granted |
| TokenBuckets.TokensStayInRange | py/src/lg_orch/rate_limit.py:29-39 | tokens never leave [0, capacity] |
| RateLimiting.RateLimiter.Ensure | py/src/lg_orch/rate_limit.py:56-58 | the locked part of a check creates a bucket for a client without one and changes nothing else |
| RateLimiting.RateLimiter.Acquire | py/src/lg_orch/rate_limit.py:59 | the part after the lock fails iff the client has no bucket then, and otherwise acquires from the client's bucket only |
| RateLimiting.RateLimiter.Check | py/src/lg_orch/rate_limit.py:53-62 | the two parts in a row: creates a bucket for a new client, acquires from the client's bucket only, and counts |
| RateLimiting.CountersCount | py/src/lg_orch/rate_limit.py:53-62 | over every run the counters are the number of checks and of those refused |
| RateLimiting.RateLimiter.Cleanup | py/src/lg_orch/rate_limit.py:74-81 | removes exactly the buckets idle for strictly longer than the limit, leaves the others as they are, and returns their number |
| RateLimiting.RunsSimulate | py/src/lg_orch/rate_limit.py:53-81 | a limiter that cleans up and one that does not answer alike: removed buckets were full |
| CleanupTheorem.Distinguish | py/src/lg_orch/rate_limit.py:29-39 | of two buckets with different tokens at one moment the fuller one grants some later call that the other refuses after equal answers |
| CleanupTheorem.CleanupUnobservableExactly | py/src/lg_orch/rate_limit.py:74-81 | cleanup changes no answer of any run iff the capacity is below one or the idle limit times the rate reaches it |
| ClientWindows.ClientSeesOneBucket | py/src/lg_orch/rate_limit.py:53-81 | in every run of all clients' checks and of cleanups a client is answered as by one bucket of its own |
| ClientWindows.ClientWindowBound | py/src/lg_orch/rate_limit.py:53-81 | every window of every client keeps capacity + rate * length, under the condition that makes cleanup unobservable |
| ClientWindows.WindowsHoldExactly | py/src/lg_orch/rate_limit.py:53-81 | and only under it: otherwise some run of checks and one cleanup breaks the bound of a window |
| ClientWindows.LookupFailsExactly | py/src/lg_orch/rate_limit.py:56-59 | between the lock and the lookup of a check, other clients and cleanups make the lookup fail iff one of the cleanups finds the client's bucket idle |
| ClientWindows.LookupFails | py/src/lg_orch/rate_limit.py:56-59 | it happens with the default settings and an ordered clock |
| BatchSlots.BatchExecute | rs/runner/src/main.rs:106-184 | refuses more than 50 calls and otherwise fills the slots join by join |
| BatchSlots.FindEmpty | rs/runner/src/main.rs:157 | finds the first empty slot |
| BatchSlots.EmptiesConserved | rs/runner/src/main.rs:138-168 | empty slots are the calls still out plus the panics that results have overwritten |
| BatchSlots.PanicFindsSlot | rs/runner/src/main.rs:153-165 | a panic always finds an empty slot |
| BatchSlots.BatchAnswers | rs/runner/src/main.rs:128-184 | for every completion order and every set of panics: n entries, every other call has its own envelope or error, every panicking index an error envelope |
| SseText.PartsOfGrowing | vscode-extension/src/api/OrchestratorClient.ts:141-143 | splitting a growing text keeps the complete parts and splits only the last one again |
| SseText.PrintedParts | py/src/lg_orch/api/service.py:1117-1126 | printed frames split into exactly their blocks with nothing left |
| SseText.DataOfData | vscode-extension/src/api/OrchestratorClient.ts:145-151 | the client reads the payload out of an event's block |
| SseClient.RunStream.OnData | vscode-extension/src/api/OrchestratorClient.ts:140-170 | the callback with its nested loops is the chunk step, including the early return on "done" |
| SseClient.ReadData | vscode-extension/src/api/OrchestratorClient.ts:145-151 | the line loop concatenates the trimmed data lines |
| SseClient.ChunkingIsUnseen | vscode-extension/src/api/OrchestratorClient.ts:140-170 | chunk by chunk the callbacks see what they see of the whole text, wherever it is cut |
| SseClient.FramesRoundTrip | py/src/lg_orch/api/streaming.py:193-198 | printed frames, cut anywhere, are delivered as exactly their events in order, with no rest and without ending the stream |
| SseClient.EventsRoundTrip | py/src/lg_orch/api/service.py:1117-1141 | a list of events with keepalives anywhere between arrives as that list |
| SseClient.DoneOnce | vscode-extension/src/api/OrchestratorClient.ts:155-193 | onDone is called at most once, and exactly once by the end of a run that was not cancelled |
| SseLaws.PrintedFrames | py/src/lg_orch/api/service.py:1117-1141 | the text of each frame, written out |
| SseLaws.PartSays | vscode-extension/src/api/OrchestratorClient.ts:144-151 | a part says what its lines say in a row; a line says what follows "data:", trimmed, and any other line nothing |
| SseLaws.OneMoreFrame | vscode-extension/src/api/OrchestratorClient.ts:152-169 | an event that parses is delivered behind the earlier ones, a malformed one and a keepalive are skipped |
| SseLaws.DoneWordEnds | vscode-extension/src/api/OrchestratorClient.ts:155-162 | whatever frames came before the word done, wherever the text is cut and whatever follows it, the client has delivered the events before it, called onDone once and closed the request |
| SseLaws.CancelSilences | vscode-extension/src/api/OrchestratorClient.ts:188-193 | after a cancel nothing more is delivered and onDone is not called, whatever arrives; it is too late only if the stream had ended |
| ContextPacker.FitSegments | py/src/lg_orch/memory.py:236-279 | the loop computes the packing; the returned text is exactly its chunks in order with a blank line between two, and every segment that fits at its turn stands in it, label and all |
| ContextPacker.TextIsLaidOut | py/src/lg_orch/memory.py:279 | the text has chunk k at the offset given by the lengths before it plus two each, has exactly the length this gives, and the final strip takes nothing away |
| ContextPacker.FittingSegmentIsInText | py/src/lg_orch/memory.py:258-279 | a segment whose block fits at its turn stands in the returned text |
| ContextPacker.BlockIs | py/src/lg_orch/memory.py:246 | the block is "[label]", a line break and the text, without the white space at its end |
| ContextPacker.BlankExactly | py/src/lg_orch/memory.py:244 | a text is skipped iff it is all white space |
| ContextPacker.TruncatedExactly | py/src/lg_orch/memory.py:222-231 | the truncation in numbers: 4 characters a token, a beginning up to 16 tokens, and above that two thirds of the room or 40 characters, the marker, and the rest or 20 characters |
| ContextPacker.CompressedText | py/src/lg_orch/memory.py:222-231 | a block that does not fit is really compressed, to a non-empty excerpt of itself within the ceiling |
| ContextPacker.CeilingIsMet | py/src/lg_orch/memory.py:222-231 | the ceiling is exact whenever no white space stands where the text is cut: 20 tokens for budgets 17 to 19 |
| ContextPacker.BudgetBound | py/src/lg_orch/memory.py:241-277 | spent plus remaining tokens is the budget, or nothing remains and at most three too many are spent |
| ContextPacker.OvershootOnlyThere | py/src/lg_orch/memory.py:262-277 | the budget is crossed only by a compression that starts with 17, 18 or 19 tokens left, by no more than is missing to 20 |
| ContextPacker.RoundOvershootsExactly | py/src/lg_orch/memory.py:258-277 | one round spends more than remained iff 17, 18 or 19 tokens remain, the block does not fit, and its stripped 40-character head, the marker and its stripped 20-character tail exceed them |
| ContextPacker.OvershootsExactly | py/src/lg_orch/memory.py:236-279 | a packing exceeds its budget iff some segment does so at its turn, and at most one ever does |
| ContextPacker.LongWordOvershoots | py/src/lg_orch/memory.py:222-231 | the overshoot happens: any word of 80 or more characters under a short tag spends 20 tokens of 17, 18 or 19 |
| ContextPacker.LaterDropped | py/src/lg_orch/memory.py:248-257 | once nothing remains every later segment that is not blank is dropped |
| ContextPacker.EverySegmentAccounted | py/src/lg_orch/memory.py:243-277 | each segment at its turn: blank, no trace; fits, its whole block and no decision; does not fit, the truncation of its block, which is an excerpt of it, and the one decision that says so; nothing left, one decision that it was dropped; and what was recorded stays |
| ContextPacker.DecisionsTally | py/src/lg_orch/memory.py:243-277 | chunks and dropped decisions together are the segments that are not blank, no decision says "kept", and no chunk is blank |
| ContextPacker.PackedLength | py/src/lg_orch/memory.py:279 | the text of k chunks has at most 4 * (budget + 3) + 2 * (k - 1) characters |
| PassAtK.CombCounts | eval/run.py:43-46 | the binomial coefficient counts the k-element subsets |
| PassAtK.Estimate | eval/run.py:36-46 | fails exactly for k > n, and for negative k where no shortcut is taken |
| PassAtK.EstimateIsExact | eval/run.py:23-46 | equals the fraction of k-element subsets with a correct sample iff k >= 1 or not every sample is correct or none is |
| PassAtK.NothingDrawnStillPasses | eval/run.py:40-41 | the failing input n = c = 1, k = 0 |
| PassAtK.EstimateInRange | eval/run.py:36-46 | the value lies in [0, 1] |
| PassAtK.EstimateGrowsInC | eval/run.py:36-46 | nondecreasing in the number of correct samples |
| PassAtK.EstimateGrowsInK | eval/run.py:36-46 | nondecreasing in k |
| LoopBudget.Enforce | py/src/lg_orch/policy.py:54-90 | the least of max(configured, 1), the planned and the stored bound, where they count, decides; admitted iff fewer loops are counted; the reason names the plan iff the plan's bound is that least one |
| LoopBudget.GateRoutes | py/src/lg_orch/graph.py:73-91 | after the gate: the reporter iff it refuses, else the context builder on a reset, else the node the retry target names, else the context builder |
| LoopBudget.VerifierRoutes | py/src/lg_orch/graph.py:94-101 | the verifier sends a run to the reporter iff it agrees and back to the gate otherwise |
| LoopBudget.EdgesAreTheMoves | py/src/lg_orch/graph.py:116-139 | the edges of the graph are exactly the moves that runs from the start make |
| LoopBudget.MeasureDecreases | py/src/lg_orch/graph.py:73-101 | remaining loops and distance to the end decrease lexicographically along every edge |
| LoopBudget.EveryRunEnds | py/src/lg_orch/graph.py:116-139 | every run is over after at most 7 * max(configured, 1) + 3 nodes, whatever verdicts, targets, resets and plans |
| LoopBudget.LongestRun | py/src/lg_orch/graph.py:116-139 | a run that never succeeds meets that bound and uses every loop |
| LoopBudget.LoopsWithinBudget | py/src/lg_orch/nodes/policy_gate.py:74-93 | at most max(configured, 1) loops are counted, each is counted once, and the stored bound never rises |
| LoopBudget.ReporterExplains | py/src/lg_orch/graph.py:73-101 | at the reporter the run was verified or the gate named the exhausted bound, never both and never neither |
| ApprovalTokens.ConstantTimeEq | rs/runner/src/approval.rs:71-80 | the accumulating loop returns true iff the byte strings are equal |
| ApprovalTokens.TimeRoundTrip | rs/runner/src/approval.rs:112-138 | a printed time below 2^64 parses to itself |
| ApprovalTokens.ParsesAlso | rs/runner/src/approval.rs:142 | a leading plus and leading zeros parse, numbers from 2^64 on, the empty text and other characters do not |
| Texts.TrimExactly | rs/runner/src/approval.rs:200-210 | trimming takes all white space at both ends and nothing else |
| ApprovalTokens.ApprovalExactly | rs/runner/src/approval.rs:184-225 | a missing token, another challenge and a token that verifies, with an iff for acceptance |
| ApprovalTokens.VerdictExactly | rs/runner/src/approval.rs:118-169 | for dot-free fields an iff for each check that a token can fail before its MAC |
| ApprovalTokens.AcceptedExactly | rs/runner/src/approval.rs:118-169 | a token is accepted iff it is the dot-free expected id, a parsable time in its window, a dot-free nonce and their MAC under the current or previous secret |
| ApprovalTokens.MintedVerdict | rs/runner/src/approval.rs:118-169 | the exact verdict on a minted token at every moment and under every secret |
| ApprovalTokens.MintedText | py/src/lg_orch/api/approvals.py:41-53 | the token written out, the same from both programs; without a secret the plain-text one |
| ApprovalTokens.MintedApprovedInTime | rs/runner/src/approval.rs:183-225 | minted under the current or previous secret, for a trimmed id without dots: approved exactly from iat to iat + ttl, and refused as too early or expired otherwise |
| ApprovalTokens.SecretInUse | rs/runner/src/approval.rs:29-43 | the secret in use is the variable if it is set and not blank, and the random one otherwise |
| ApprovalTokens.RotationWorks | rs/runner/src/approval.rs:48-166 | a token in time minted under the secret that is now the previous one is accepted iff that one is not blank or the MAC cannot tell it from the current one |
| ApprovalTokens.DottedNeverAccepted | rs/runner/src/approval.rs:123-140 | for an id with a dot no token at all is accepted |
| ApprovalTokens.DottedMintMismatches | rs/runner/src/approval.rs:123-140 | a token minted for such an id always gives the mismatch |
| ApprovalTokens.LegacyNeverAccepted | py/src/lg_orch/api/approvals.py:41-47 | the plain-text token of a service without a secret is never accepted |
| ApprovalTokens.SharedSecretWorks | py/src/lg_orch/api/approvals.py:40-53 | with one variable in both environments a token in time is accepted iff the secret is set and not blank, or the MAC cannot tell |
| ApprovalTokens.BlankSecretFails | py/src/lg_orch/api/approvals.py:40-53 | with a blank shared secret a token in time is refused under every MAC that tells it from the random secret |
| ApprovalTokens.OneSpaceFails | py/src/lg_orch/api/approvals.py:40-53 | the failing input: the secret is one space |
| ApprovalTokens.MessageBinds | rs/runner/src/approval.rs:85-91 | for ids without a bar the signed message determines challenge, time and nonce |
| ApprovalTokens.SignedMessageDecides | rs/runner/src/approval.rs:118-169 | for a MAC without collisions a minted signature is accepted iff the time parses and is in its window and the fields give the message it signs |
| ApprovalTokens.SignatureBinds | rs/runner/src/approval.rs:118-169 | for such ids and a MAC without collisions a minted signature is accepted iff challenge, time and nonce are those it was minted for and the time is in its window |

## Left out

- Scheduler: cancellation of the scheduler from outside, `all_done` (the loop does not call it), task results, error
  texts, timestamps and log lines, and worktree isolation, which is part of a sub-agent's outcome.
- Scheduler: a list of asyncio tasks is a set, and a wait may return any non-empty set of ended tasks. The order in
  which a round launches its ready tasks is not recorded.
- DependencyGraphs.DependencyGraph.AddEdge: which of the two error messages an unknown id gives is not told apart,
  and the ids that an error message lists are not modelled.
- Index: a database error, which ends a pass after the maps were updated; the walk, the globs and the excluded
  directories, which are parameters; queries and ranking; the time stamp of a snapshot.
- Indexer.RuntimeState.IndexCandidates: candidates are taken in any order instead of sorted; the result is the same.
- Lifecycle: the run store, metrics, the trace file that approve and reject rewrite, `final` texts, and the
  signal that a cancel sends. A trace may read differently at every step.
- Lifecycle: the last refresh of an approval, within its lock, is a refresh event of its own, so the machine allows
  more interleavings than the service has.
- Lifecycle: several runs at once. The record of one run is changed only by calls that name it.
- RateLimiting.RateLimiter.Check: the method runs its two parts in one piece; what may come between them is stated of
  the specification (`ClientWindows.LookupFailsExactly`).
- Rate limiting: floating-point rounding, the locks, and two threads that check one new client at the same moment.
- Batch executor: the semaphore of eight, which changes only the order of completion, and the wording of messages.
- Event stream: the request, other events between frames, and UTF-8 sequences cut by a chunk border, since
  the client decodes every chunk alone; chunks are strings here. JSON is a pair of functions.
- Context packing: where the segments come from, and pressure scores.
- Loop budget: strings that validate as numbers are numbers; what the other nodes compute; the recursion limit of
  the graph library.
- Approval: HMAC (section 2 of RFC 2104) is a parameter whose output is hexadecimal. A comparison of strings
  stands for one of their UTF-8 bytes. The metadata of the answer carries only its reason.
- HTTP, authentication, sandboxing, vsock, worktrees, snapshots, model routing and the user interfaces.
