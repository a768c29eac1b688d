# Verified model of the fusion executor

This project models the concurrent and algorithmic core of the fusion executor and proves
properties of the model with Dafny 4.11. `dafny verify dfyconfig.toml` checks everything.

Where several tasks share state, a run is a sequence of atomic steps: one stretch of a coroutine
between two awaits, one lock section, one atomic operation, or one channel operation. Any
interleaving of enabled steps is a run, and the theorems hold for all of them. The objects whose
methods take those steps are classes with the program's fields; each method is proved to be
exactly the step, so the theorems about steps speak about the methods. Sequential loops are methods
with loops, proved against a definition that does not mention the loop. What comes from outside
(clocks, shells, git, verdicts, decoders, chunk boundaries, spurious failures) is an input that may
take any value.

| file | what it models |
|---|---|
| `TaskService.dfy`, `TaskSafety.dfy`, `TaskRuns.dfy`, `TaskCancels.dfy`, `TaskOutcomes.dfy`, `TaskRows.dfy`, `TaskStarvation.dfy`, `TaskManagers.dfy` | the batch-task service: queue, workers, retries with backoff, cancellation |
| `Sources.dfy` | the lazily started broadcast sources: registry, generation counter, slot |
| `Broker.dfy`, `BrokerRuns.dfy`, `BrokerScopes.dfy`, `BrokerTies.dfy`, `BroadcastHub.dfy` | connections, subscriptions, bounded push channels, stdio fan-out, who may see whose output, and how connections depend on each other |
| `CancelRegistry.dfy` | the registry of streams in flight and `executor.cancel` |
| `ExecStats.dfy`, `ExecMetrics.dfy`, `Histogram.dfy` | lock-free execution statistics and the percentiles read from them |
| `LineReader.dfy`, `LineFacts.dfy` | the capped request line reader and the request loop |
| `StripAnsi.dfy`, `StripAnsiFacts.dfy` | removal of terminal control sequences (ECMA-48, section 5.4) |
| `TailLines.dfy`, `TailFacts.dfy` | the tail of a text with its error lines |
| `Masking.dfy` | blacking out screen rectangles in an RGBA buffer |
| `UiTree.dfy` | the two budgeted walks over an accessibility tree |
| `Subscription.dfy` | the client that reassembles pushed frames |
| `Execution.dfy`, `RollbackGuard.dfy`, `Pipelines.dfy`, `PipelineResults.dfy` | the plain and the streaming execution pipeline and the rollback guard |
| `Basics.dfy`, `Utf8.dfy` | shared definitions, facts about sums, the byte form of text (RFC 3629, section 3) |

## Where the code does not do what its comments say

The model follows the code. Each of these is stated exactly, with the condition under which the
intended property does hold.

- A subscriber whose `ensure` runs between a source's decision to leave and its clearing of the
  slot is left without a source. Besides that only a fault of the serving source, a panic or the
  end of its sampler, leaves anybody unserved (`ServedExactly`, `UnservedSubscriber`).
  The start generation is never refreshed, so a source that saw one more subscription never leaves
  on its own (`LeavesExactly`, `NeverLeaves`).
- Past the first bucket the quantile is interpolated one bucket too low, so a reported percentile
  is then strictly below the true one (`PercentileBounds`).
- `strip_ansi` aborts on an odd run of ESC bytes before a character that is not ASCII
  (`AbortsExactly`), and reads intermediate bytes before parameter bytes, the reverse of ECMA-48
  (`StandardCsiExactly`).
- A rectangle with a negative right or bottom edge is not clipped: the cast wraps and the loops run
  out of the buffer unless the rectangle is skipped (`Masking.AbortsExactly`).
- The walk that collects password fields stops one level above the reported tree although its
  comment claims the same limits (`MaskedExactly`, `DeepPasswordIsNotMasked`).
- Cancelling a running shell task is lost when killing the shell raises (`CancelTakesEffect`).
- A policy that can draw a negative delay lets a failing task overtake a due one as often as tasks
  were ahead of it (`TameExactly`, `OvertakingExactly`).
- A retry whose delay overflows raises while the failure is recorded, twice, and kills the worker;
  its task stays RUNNING for good (`RunSafety`, `OrphansStay`, `StrandingExactly`).
- Cancel ids are not kept apart by connection: a reused id makes a stream uncancellable
  (`StepStaysCoherentExactly`, `SharedIdIsNotCancelled`).
- The client's `unsubscribe` takes an event that is still on its way for the answer
  (`AcknowledgedExactly`), and its buffer cap is applied before the newline is looked for
  (`SafeFromTheCapExactly`).
- A failed command whose caller asked for a rollback can end with none of the three rollback
  fields set although it changed tracked files: when the diagnostics slicer panics, when there is
  nothing to go back to, or when the rollback gives up without a reason (`DamageIsSignalledExactly`).
  The guard is not run at all when the consumer of the stream leaves before the last chunk or when
  the slicer panics (`LooksForDamageExactly`); an ESC before an accented letter in the output is
  enough for that (`PanicsExactly`, `UnsignalledDamage`).
- Requests of a closed connection are joined without a time limit although a comment names one of
  five seconds: a subscriber that does not read its full channel keeps another connection's stream,
  and with it that connection's cleanup, waiting for good (`StallLasts`, `StallHappens`).
- Any connection can end any subscription by its id (`RemovedExactly`, `AnyoneMayUnsubscribe`).

## Model

| member | source | states |
|---|---|---|
| TaskManagers.TaskManager.constructor | python/fusion_executor/task_service.py:110-138 | a new service has an empty table, no flags, no factories and no workers |
| TaskManagers.TaskManager.Start | python/fusion_executor/task_service.py:142-148 | starting creates `max_workers` idle workers, and nothing while a pool exists |
| TaskManagers.TaskManager.Stop | python/fusion_executor/task_service.py:150-158 | stopping raises the stop flag, forgets the pool and requests cancellation of every coroutine in flight |
| TaskManagers.TaskManager.Submit | python/fusion_executor/task_service.py:166-210 | a blank command or non-positive timeout is refused with no effect; otherwise exactly one queued row stamped with the clock appears |
| TaskManagers.TaskManager.SubmitFactory | python/fusion_executor/task_service.py:212-243 | one queued async row and its factory appear together |
| TaskManagers.TaskManager.Cancel | python/fusion_executor/task_service.py:286-308 | unknown ids raise; the answer is true exactly for a row that is not terminal; a queued row ends at once, a running one is flagged or its coroutine asked to stop |
| TaskManagers.TaskManager.ClaimNext | python/fusion_executor/task_service.py:339-356 | claims an earliest-stamped due row and counts the attempt, or claims nothing because no row is due |
| TaskManagers.TaskManager.FinishRow | python/fusion_executor/task_service.py:493-515 | writes the terminal state without looking at the old one and releases the factory |
| TaskManagers.TaskManager.FailRow | python/fusion_executor/task_service.py:473-491 | back to the queue with the policy's delay while attempts remain, otherwise FAILED; the reason is cut to 2000 characters; raises, with the row untouched, exactly if the row would be retried and its delay overflows |
| TaskManagers.TaskManager.FailInWorker | python/fusion_executor/task_service.py:366-373 | a failure that cannot be recorded is tried once more by the worker's handler and then ends the worker; otherwise the worker is idle again |
| TaskManagers.TaskManager.PollShell | python/fusion_executor/task_service.py:395-432 | one turn of the polling loop: flag first, then exit, then deadline, with a raising kill or read handled as a failure |
| TaskManagers.TaskManager.WorkerTurn | python/fusion_executor/task_service.py:358-401 | a worker's turn from claim to its first await is exactly one claim step of the run model, for some permitted choice of row; the deadline runs from before the first output is read |
| TaskManagers.TaskManager.ResumeAsync | python/fusion_executor/task_service.py:455-471 | the end of a coroutine settles its row by its outcome and leaves the table of running coroutines |
| TaskSafety.StepKeepsInv | python/fusion_executor/task_service.py:286-515 | every step keeps ownership, flags, factories, the running table and the attempt bound consistent |
| TaskSafety.RunKeepsInv | python/fusion_executor/task_service.py:142-515 | so does every run |
| TaskRuns.RunSafety | python/fusion_executor/task_service.py:339-514 | in every run from an empty table a row is RUNNING exactly if a worker owns it or a failure of it could not be recorded, never both; at most one worker owns it; a factory is stored exactly for live async rows; only running shell rows are flagged; attempts stay within max(0, max_retries) + 1 |
| TaskRuns.StepOrphans | python/fusion_executor/task_service.py:366-373 | a step orphans exactly the rows whose attempt it fails while the retry's delay overflows |
| TaskRuns.OrphansStay | python/fusion_executor/task_service.py:366-373 | such a row stays RUNNING without an owner in every continuation |
| TaskRuns.TerminalRowsAreFrozen | python/fusion_executor/task_service.py:493-515 | a DONE, FAILED or CANCELLED row never changes again in any column, although the final update is unconditional |
| TaskRuns.StepConservesClaims | python/fusion_executor/task_service.py:339-351 | a claim adds one to the attempts over all rows, a submission adds its policy's budget, nothing else changes either sum |
| TaskRuns.RunConservesClaims | python/fusion_executor/task_service.py:339-351 | over a run, attempts grow by the number of claims and budgets by what was submitted |
| TaskRuns.ClaimsAreBounded | python/fusion_executor/task_service.py:473-491 | the remaining attempts are a measure that is never negative, so a run makes at most as many claims as it started with plus what was submitted |
| TaskRuns.NextClaimIsLate | python/fusion_executor/task_service.py:477-486 | a row claimed for the k-th time is not claimed again before its delay has passed, whatever happens in between |
| TaskRuns.ClaimsAreSpaced | python/fusion_executor/task_service.py:54-58 | two consecutive claims of a row are at least min(initial * multiplier^(k-1), max) apart |
| TaskStarvation.TameExactly | python/fusion_executor/task_service.py:54-58 | no delay that a policy can draw is negative if and only if it allows no retry, or cap and initial delay are not negative and the multiplier is not either, unless it is never used, multiplies zero, or overflows at once |
| TaskStarvation.StepShrinksAhead | python/fusion_executor/task_service.py:339-344 | while a due row waits, no step adds a row stamped at or before it, and every worker that asks for work removes one |
| TaskStarvation.NoStarvation | python/fusion_executor/task_service.py:339-356 | when all policies are tame, a due row is overtaken fewer times than there were rows stamped at or before it |
| TaskStarvation.WildOvertakes | python/fusion_executor/task_service.py:482-486 | for every policy that is not tame, a run from an empty table in which a due row is overtaken as often as rows were ahead of it |
| TaskStarvation.OvertakingExactly | python/fusion_executor/task_service.py:339-356 | the bound on overtaking holds in every run of a policy if and only if the policy is tame |
| TaskStarvation.OverflowStrands | python/fusion_executor/task_service.py:54-58 | for every policy whose last delay overflows, a run from an empty table in which a worker dies |
| TaskStarvation.StrandingExactly | python/fusion_executor/task_service.py:366-373 | some run of a policy loses a worker and its row if and only if the policy has a retry and the delay of its last one overflows |
| TaskCancels.FlagHolds | python/fusion_executor/task_service.py:298-306 | a flag on a running shell row survives everything but a turn of its own worker |
| TaskCancels.CancelTakesEffect | python/fusion_executor/task_service.py:396-400 | whatever happens between a cancel and the next turn of the row's worker, the row is then still running and flagged, and that turn ends it CANCELLED if and only if killing the shell does not raise; otherwise it fails like any attempt |
| TaskCancels.PollDecides | python/fusion_executor/task_service.py:395-432 | a turn of the polling loop cancels, succeeds, waits, retries, fails or strands the row exactly under these conditions: flag before exit, exit before deadline, retry exactly while attempts remain and the delay does not overflow |
| TaskOutcomes.SubmitAddsARow | python/fusion_executor/task_service.py:166-243 | a submission adds one untouched row with what was asked for and changes nothing else, or is refused for a blank command or a timeout that is not positive |
| TaskOutcomes.BlankExactly | python/fusion_executor/task_service.py:175-176 | the characters that make a command blank, listed |
| TaskOutcomes.CancelBeforeStart | python/fusion_executor/task_service.py:289-297 | a cancelled queued row is, in every continuation, CANCELLED as of then with that reason; its factory is gone and nobody ever claims it |
| TaskOutcomes.CancelOfCoroutineHolds | python/fusion_executor/task_service.py:299-303 | the cancel request of a running coroutine stands, whatever happens, until the coroutine ends, and its outcome then decides the row |
| TaskOutcomes.ResumeDecides | python/fusion_executor/task_service.py:455-471 | a returned value is the result of a DONE row, a cancellation ends the row CANCELLED, an exception is a failed attempt |
| TaskOutcomes.PollRecords | python/fusion_executor/task_service.py:395-442 | what a turn of the polling loop writes into every column, with the exact reason or result, and where the worker then stands |
| TaskOutcomes.LaunchDecides | python/fusion_executor/task_service.py:375-401 | what becomes of a claimed row before its first await: the reasons of a failed start, and a deadline of its timeout, or 600 seconds, from before the first poll |
| TaskOutcomes.FailureRecorded | python/fusion_executor/task_service.py:473-491 | a failed attempt is retried, fails for good or stays as it was, and the reason is stored up to 2000 characters |
| TaskOutcomes.ProgressReported | python/fusion_executor/task_service.py:446-450 | reported progress changes that column alone, kept within 0 and 1 |
| TaskRows.RowsMakeSense | python/fusion_executor/task_service.py:339-515 | in every run: start time exactly for claimed rows, end time exactly for terminal ones, result exactly for DONE ones, progress within 0 and 1, FAILED only after the last permitted attempt |
| TaskRows.TasksKeepTheirColumns | python/fusion_executor/task_service.py:339-515 | kind, command, timeout, policy and creation time never change in any run, nor does a start time once set |
| TaskRows.ClaimDecides | python/fusion_executor/task_service.py:345-356 | a claim makes the row RUNNING without progress, counts the attempt and stamps the first start |
| TaskRows.StopStopsClaims | python/fusion_executor/task_service.py:150-158 | after a stop nothing is claimed in any continuation without a start, and every coroutine in flight is asked to stop |
| TaskRows.RestartAddsWorkers | python/fusion_executor/task_service.py:142-148 | a start after a stop adds a whole new pool of idle workers |
| TaskRows.OnePool | python/fusion_executor/task_service.py:142-148 | however often it is started, a pool that is not stopped has the workers of its first start |
| TaskRows.LeavingIsForGood | python/fusion_executor/task_service.py:358-359 | a worker leaves its loop only after a stop and never comes back |
| Sources.RunKeepsInv | crates/fe-ipc/src/lib.rs:488-652 | in every interleaving, panics included, an unfinished source is the one in the slot |
| Sources.AtMostOneSource | crates/fe-ipc/src/lib.rs:561-585 | at most one source of a channel is live |
| Sources.StepServes | crates/fe-ipc/src/lib.rs:618-639 | one step, faults included, keeps every ensured subscriber served if and only if it loses none: it is not a late `ensure` and not a fault of the serving source while somebody needs it |
| Sources.ServedExactly | crates/fe-ipc/src/lib.rs:488-528 | in every run, with panics and ending samplers, every registered subscriber that completed `ensure` has a serving source in every state if and only if no step loses one |
| Sources.ServedExactlyFromStart | crates/fe-ipc/src/lib.rs:488-528 | the same from a new hub; without faults exactly if no `ensure` falls between a source's decision to leave and its clearing of the slot |
| Sources.UnservedSubscriber | crates/fe-ipc/src/lib.rs:576-582 | a run in which a registered, ensured subscriber ends with no source |
| Sources.RegisteredExactly | crates/fe-ipc/src/lib.rs:531-555 | over any run a subscriber stays registered if and only if no unsubscribe or cleanup names it |
| Sources.LeavesExactly | crates/fe-ipc/src/lib.rs:626-639 | supporting fact: with nobody registered a source leaves exactly if the generation is the one it started with |
| Sources.NeverLeaves | crates/fe-ipc/src/lib.rs:618-639 | a source whose start generation is behind never leaves on its own |
| Sources.ChannelHub.InsertSubscriber | crates/fe-ipc/src/lib.rs:501-512 | registration under the lock is exactly the insert step |
| Sources.ChannelHub.BumpGeneration | crates/fe-ipc/src/lib.rs:513-519 | the generation bump comes after it, as a step of its own |
| Sources.ChannelHub.EnsureRunning | crates/fe-ipc/src/lib.rs:561-585 | spawns a source with the current generation unless the slot holds an unfinished one |
| Sources.ChannelHub.Unregister | crates/fe-ipc/src/lib.rs:531-555 | removes subscriptions and touches neither slot nor generation |
| Sources.ChannelHub.TakeSnapshot | crates/fe-ipc/src/lib.rs:625-627 | the source reads the registry once per turn |
| Sources.ChannelHub.RecheckGeneration | crates/fe-ipc/src/lib.rs:628-639 | it leaves exactly if the generation did not change since it started |
| Sources.ChannelHub.ClearSlot | crates/fe-ipc/src/lib.rs:576-582 | a source that left clears the slot |
| BrokerRuns.StepKeepsInv | crates/fe-ipc/src/lib.rs:488-783 | every step keeps registry, requests, channels and queued frames consistent |
| BrokerRuns.RunKeepsInv | crates/fe-ipc/src/lib.rs:1361-1503 | so does every run |
| BrokerRuns.OwnConnIsolation | crates/fe-ipc/src/lib.rs:238-254 | in every reachable state an own-connection scope names the subscriber's own connection, every stdio frame queued for it comes from a command of that connection, and a task-list scope only gets listed tasks |
| BrokerScopes.OnlyWhatWasAskedFor | crates/fe-ipc/src/lib.rs:1664-1685 | in every run whatever is queued for a subscription is stdio it subscribed to and what its request asked for: output of its own connection by default, of listed tasks, or everything |
| BrokerScopes.QueuedExactlyWhenAskedFor | crates/fe-ipc/src/lib.rs:739-783 | a frame is queued at its turn if and only if the target's request asked for it, its receiver is there and a slot is free |
| BrokerScopes.WishIsRecorded | crates/fe-ipc/src/lib.rs:1664-1697 | connection, channel and scope of a subscription are those of its request, for as long as it exists |
| BrokerScopes.SubscribeKeepsWishes | crates/fe-ipc/src/lib.rs:1664-1697 | a subscribe request registers a subscription with its connection, channel and scope, or, for an empty list of tasks, is refused and changes nothing |
| BrokerRuns.DroppedForever | crates/fe-ipc/src/lib.rs:1495-1503 | a connection that is dropped stays dropped |
| BrokerRuns.CleanedUpForGood | crates/fe-ipc/src/lib.rs:1495-1503 | once a connection has joined its requests and dropped its subscriptions, the registry never again holds one of them |
| BrokerRuns.ProjectKeepsOrder | crates/fe-ipc/src/lib.rs:1375-1410 | the frames of one stream for one subscription leave a channel in the order of their events, without repetition |
| BrokerRuns.RunDelivers | crates/fe-ipc/src/lib.rs:764-783 | in every run a terminal frame offered to a listening subscription is queued |
| BrokerRuns.LossyChunksLosslessEnd | crates/fe-ipc/src/lib.rs:1789-1821 | for every fill level and every ended stream, also one whose requester stopped taking frames: an allowed subscription that keeps listening has an ordered part of the chunks, then exactly one terminal frame if the stream came to that frame before a write failed, and none otherwise; one that is not allowed has nothing |
| BrokerRuns.DropsOnlyChunksWhenFull | crates/fe-ipc/src/lib.rs:739-783 | supporting fact: an allowed frame is queued unless it is a chunk and the channel is full; no channel exceeds its 128 slots |
| BrokerTies.StepStallsExactly | crates/fe-ipc/src/lib.rs:764-783 | a stream whose terminal frame waits for a full channel goes on only when that channel is read or closed: no other step moves it or drops its connection |
| BrokerTies.StallLasts | crates/fe-ipc/src/lib.rs:1495-1503 | in every run in which nobody reads or closes that channel the stream stays where it is and its own connection cannot be cleaned up |
| BrokerTies.StallHappens | crates/fe-ipc/src/lib.rs:764-783 | a run from the start in which the stream of one connection waits for another connection |
| BrokerTies.RemovedExactly | crates/fe-ipc/src/lib.rs:531-555 | over any run a subscription leaves the registry if and only if some unsubscribe request, of whatever connection, names it or its own connection is cleaned up |
| BrokerTies.AnyoneMayUnsubscribe | crates/fe-ipc/src/lib.rs:1699-1716 | any connection that is still read can end anybody's subscription |
| BrokerTies.FailedWriteEndsStream | crates/fe-ipc/src/lib.rs:1813-1818 | after a failed write to the requester the stream offers nothing more, in any continuation |
| BroadcastHubs.FanOutIsSends | crates/fe-ipc/src/lib.rs:750-759 | the loop of a lossy broadcast has the effect of one send step per target |
| BroadcastHubs.BroadcastHub.Register | crates/fe-ipc/src/lib.rs:497-512 | a fresh id is registered with the scope asked for, by default the requester's own connection |
| BroadcastHubs.BroadcastHub.Unregister | crates/fe-ipc/src/lib.rs:531-542 | removes one id and answers whether it was there, whoever asks |
| BroadcastHubs.BroadcastHub.DropConn | crates/fe-ipc/src/lib.rs:545-555 | removes exactly the subscriptions of one connection and counts them |
| BroadcastHubs.BroadcastHub.CollectTargets | crates/fe-ipc/src/lib.rs:728-734 | every stdio subscription exactly once |
| BroadcastHubs.BroadcastHub.BroadcastStdio | crates/fe-ipc/src/lib.rs:739-759 | each allowed target of one snapshot is offered the frame once; nothing else changes |
| CancelRegistry.StepKeepsInv | crates/fe-ipc/src/lib.rs:828-867 | every step keeps entries, held senders, signals and answers consistent, even when ids are reused |
| CancelRegistry.SignalsAreAnswers | crates/fe-ipc/src/lib.rs:839-860 | in every run a stream gets at most one signal, exactly if one single call with its id answers true; with no stream in flight the table is empty |
| CancelRegistry.StepStaysCoherentExactly | crates/fe-ipc/src/lib.rs:828-867 | a step keeps the table exact if and only if it neither overwrites an entry nor removes another stream's |
| CancelRegistry.CoherentExactlyWithoutClash | crates/fe-ipc/src/lib.rs:825-867 | the same for whole runs |
| CancelRegistry.TableIsExact | crates/fe-ipc/src/lib.rs:1773-1828 | when ids in flight are distinct, the keys are at every moment exactly the uncancelled streams in flight |
| CancelRegistry.CancelReachesExactly | crates/fe-ipc/src/lib.rs:839-854 | a cancel of a stream in flight signals that stream and answers true if and only if its receiver is still there when the signal is sent, any number of steps later |
| CancelRegistry.SecondCancelFindsNothing | crates/fe-ipc/src/lib.rs:855-858 | a second cancel of an id that was not registered again answers false |
| CancelRegistry.SharedIdIsNotCancelled | crates/fe-ipc/src/lib.rs:1773-1774 | two streams under one id: the end of the first makes the second uncancellable |
| CancelRegistry.StreamRegistry.Register | crates/fe-ipc/src/lib.rs:828-836 | a fresh channel is entered under the id, replacing what was there |
| CancelRegistry.StreamRegistry.TakeEntry | crates/fe-ipc/src/lib.rs:840-843 | the lock section of a cancel takes the entry out |
| CancelRegistry.StreamRegistry.SendOn | crates/fe-ipc/src/lib.rs:844-854 | the send succeeds exactly if the receiver is there |
| CancelRegistry.StreamRegistry.Cancel | crates/fe-ipc/src/lib.rs:839-860 | the two together: true exactly if an entry was there and its stream was signalled, and the id is free afterwards |
| CancelRegistry.StreamRegistry.Deregister | crates/fe-ipc/src/lib.rs:863-867 | removes whatever the id leads to |
| ExecStats.StepKeepsInv | crates/fe-ipc/src/lib.rs:343-400 | one atomic operation, a spurious failure included, keeps every counter at the sum of what recorders added modulo 2^64 and never raises the minimum or lowers the maximum |
| ExecStats.RunKeepsInv | crates/fe-ipc/src/lib.rs:343-400 | so does every interleaving |
| ExecStats.QuiescentCounters | crates/fe-ipc/src/lib.rs:344-358 | when all recorders are done, total = blocked + timeout + success + failed, each exact |
| ExecStats.QuiescentExtremes | crates/fe-ipc/src/lib.rs:372-397 | and the minimum and maximum are attained and bound every duration |
| ExecStats.RunStatistics | crates/fe-ipc/src/lib.rs:343-400 | both for every run of new statistics |
| ExecStats.RunOutcomes | crates/fe-ipc/src/lib.rs:344-371 | at rest the outcome counters are the numbers of results with those fields, and the sums are those of durations and sizes modulo 2^64 |
| ExecStats.NanosExactly | crates/fe-ipc/src/lib.rs:359-362 | whole nanoseconds, none for a negative duration, saturating |
| ExecMetrics.AloneIsRecorded | crates/fe-ipc/src/lib.rs:343-400 | a recorder that nobody interrupts ends with the sequential effect |
| ExecMetrics.Metrics.RecordExec | crates/fe-ipc/src/lib.rs:343-400 | the program's loop has that effect, whatever compare-exchanges fail spuriously |
| ExecMetrics.Metrics.UpdateMin | crates/fe-ipc/src/lib.rs:372-385 | the retry loop ends with the smaller value |
| ExecMetrics.Metrics.UpdateMax | crates/fe-ipc/src/lib.rs:386-397 | the retry loop ends with the larger value |
| Histogram.DurationBucketIndex | crates/fe-ipc/src/lib.rs:137-144 | the first bucket whose bound is not exceeded, if any |
| Histogram.Cumulate | crates/fe-ipc/src/lib.rs:426-437 | prefix sums, then the total that was read separately |
| Histogram.HistogramQuantile | crates/fe-ipc/src/lib.rs:148-176 | for any counts, monotone or not, no index leaves the bounds, the result lies in [0, 30], the entry found is the first to reach the target, and the branch for an entry not above its predecessor is unreachable |
| Histogram.RankExactly | crates/fe-ipc/src/lib.rs:148-153 | the rank is the fraction of the total, with fractions below 0 and above 1 taken as those |
| Histogram.InterpolatesLinearly | crates/fe-ipc/src/lib.rs:160-173 | past the first entry the value divides its interval as the target divides the counts |
| Histogram.RunsAreExact | crates/fe-ipc/src/lib.rs:343-400 | every run that has come to rest leaves total and buckets exact |
| Histogram.PrefixCounts | crates/fe-ipc/src/lib.rs:431-437 | the i-th cumulative count is the number of durations within the i-th bound |
| Histogram.BucketsPartition | crates/fe-ipc/src/lib.rs:431-437 | finite buckets and overflow sum to the total |
| Histogram.PercentileBounds | crates/fe-ipc/src/lib.rs:154-173 | the value is not below the true order statistic when the rank is in the first bucket and strictly below it otherwise |
| Histogram.OrderStatisticExists | crates/fe-ipc/src/lib.rs:415-440 | every positive rank up to the number of recordings has its order statistic |
| Histogram.Percentile | crates/fe-ipc/src/lib.rs:415-440 | the same, end to end, for what the snapshot reports; the true order statistic exists |
| LineReader.Reader.FillBuf | crates/fe-ipc/src/lib.rs:1572-1579 | the unread part of the current buffer, or the fault |
| LineReader.Reader.Consume | crates/fe-ipc/src/lib.rs:1597-1597 | drops exactly the bytes taken from the stream |
| LineReader.Reader.ReadCappedLine | crates/fe-ipc/src/lib.rs:1567-1606 | the answer depends on the byte stream only, never on how it is cut; a line leaves exactly what follows its newline; never more than the cap is buffered |
| LineReader.ReadRequests | crates/fe-ipc/src/lib.rs:1429-1453 | the request loop yields the non-blank lines in order and the answer that ends the connection |
| LineReader.RequestsInvertFraming | crates/fe-ipc/src/lib.rs:1429-1453 | reading inverts newline framing for every list of good frames |
| LineFacts.OutcomeExactly | crates/fe-ipc/src/lib.rs:1567-1606 | a line, a parse error, an internal error or the end, each under its exact condition on the bytes |
| LineFacts.TrimmedExactly | crates/fe-ipc/src/lib.rs:1598-1602 | trimming takes all carriage returns off the end and nothing else |
| LineFacts.BlankExactly | crates/fe-ipc/src/lib.rs:1451-1453 | a line of UTF-8 text is skipped if and only if all its characters are white space |
| LineFacts.RequestsAreTheLines | crates/fe-ipc/src/lib.rs:1429-1453 | the requests of a stream are its lines without carriage returns and without the blank ones, in order, and the ending is what follows them |
| StripAnsi.SkipCsi | crates/fe-diagnostics/src/lib.rs:532-543 | the loops over a CSI sequence stop where the suffix definition says |
| StripAnsi.SkipOsc | crates/fe-diagnostics/src/lib.rs:545-557 | so does the loop over an OSC string |
| StripAnsi.SkipEscape | crates/fe-diagnostics/src/lib.rs:526-563 | the index strictly increases over any escape |
| StripAnsi.Strip | crates/fe-diagnostics/src/lib.rs:520-577 | the byte loop computes the scan of the text, or aborts exactly when the scan does |
| StripAnsiFacts.AbortsExactly | crates/fe-diagnostics/src/lib.rs:559-574 | on UTF-8 text the scanner aborts if and only if an odd run of ESC bytes precedes a character that is not ASCII |
| StripAnsiFacts.Utf8IsWellFormed | crates/fe-diagnostics/src/lib.rs:520-577 | all UTF-8 text is well-formed in the sense of the other facts |
| StripAnsiFacts.OutputIsCleanText | crates/fe-diagnostics/src/lib.rs:520-577 | the output is well-formed, without ESC or BEL, and leaves out whole characters of the input only |
| StripAnsiFacts.CleanTextIsKept | crates/fe-diagnostics/src/lib.rs:568-574 | text without ESC and BEL is unchanged |
| StripAnsiFacts.Idempotent | crates/fe-diagnostics/src/lib.rs:520-577 | stripping twice is stripping once |
| StripAnsiFacts.StripUndoesColouring | crates/fe-diagnostics/src/lib.rs:531-563 | text interleaved with parameter-only CSI sequences, BEL- or ST-terminated OSC strings and escapes of two bytes comes back unchanged |
| StripAnsiFacts.StandardCsiExactly | crates/fe-diagnostics/src/lib.rs:532-543 | a sequence in the standard's order, between clean text and any other text, is removed completely if and only if it has no parameter or no intermediate bytes; otherwise its intermediates and final byte stay, and in both cases what follows is scanned as if it stood alone |
| TailLines.Tail | crates/fe-diagnostics/src/lib.rs:592-657 | for every text and every n the output is the join of the lines that are headers, markers, successors of markers or among the last n; the ring never exceeds n |
| TailLines.Collect | crates/fe-diagnostics/src/lib.rs:619-639 | one pass leaves the marked lines and the last n lines with their numbers |
| TailLines.MarkedOnly | crates/fe-diagnostics/src/lib.rs:599-618 | with n = 0 the marked lines alone |
| TailLines.MergeIsFilter | crates/fe-diagnostics/src/lib.rs:649-656 | merging, sorting and removing duplicates gives the filter |
| TailLines.WindowIsFilter | crates/fe-diagnostics/src/lib.rs:641-647 | an untruncated window is already the filter |
| TailLines.FilteredExactly | crates/fe-diagnostics/src/lib.rs:592-657 | the filter holds exactly the lines to keep, in order and once each |
| TailFacts.LinesInvertWriting | crates/fe-diagnostics/src/lib.rs:603-623 | splitting recovers every line that was written with either terminator, and an unterminated rest |
| TailFacts.LinesInvertJoin | crates/fe-diagnostics/src/lib.rs:655-656 | splitting recovers joined lines |
| TailFacts.MarkerExactly | crates/fe-diagnostics/src/lib.rs:608-611 | a marker is one of four words anywhere in a line, in any case |
| TailFacts.HeaderExactly | crates/fe-diagnostics/src/lib.rs:604-607 | a header is one of three words at the start of a line, in any case |
| Masking.BlackenRun | crates/fe-gui/src/lib.rs:1096-1102 | the inner loop blackens its pixels and no other byte |
| Masking.BlackenRect | crates/fe-gui/src/lib.rs:1093-1103 | a rectangle inside the bitmap is blackened in the flipped rows and nothing else changes |
| Masking.MaskInPlace | crates/fe-gui/src/lib.rs:1075-1105 | a pixel becomes (0, 0, 0, 255) exactly if some clipped, flipped rectangle covers it and every other byte is kept; an index leaves the buffer exactly if some rectangle aborts |
| Masking.PixelExactly | crates/fe-gui/src/lib.rs:1096-1102 | the four bytes of a covered pixel are 0, 0, 0, 255, those of any other as before |
| Masking.AbortsExactly | crates/fe-gui/src/lib.rs:1087-1091 | a rectangle aborts if and only if a scaled right or bottom edge is negative, the other axis is not empty and it starts inside the bitmap |
| Masking.OrderIrrelevant | crates/fe-gui/src/lib.rs:1083-1104 | order and repetition of rectangles do not matter |
| Masking.MaskingComposes | crates/fe-gui/src/lib.rs:1083-1104 | masking in two rounds is masking once with both lists |
| Masking.CoversExactlyWhatItMeets | crates/fe-gui/src/lib.rs:1085-1089 | a pixel is covered if and only if its square and the scaled rectangle overlap |
| UiTree.BuildNode | crates/fe-gui/src/lib.rs:915-963 | what one call reports and how much budget it uses, for every element, depth and budget |
| UiTree.InspectTree | crates/fe-gui/src/lib.rs:881-900 | the reported tree lists exactly the first 500 preorder elements of the tree cut at depth 8 and has no truncation placeholder |
| UiTree.ListingDeterminesTree | crates/fe-gui/src/lib.rs:915-963 | a preorder listing with depths determines the tree |
| UiTree.CollectSecure | crates/fe-gui/src/lib.rs:1041-1070 | what one call visits and collects, for every element, depth and budget |
| UiTree.CollectSecureAreas | crates/fe-gui/src/lib.rs:1020-1039 | the position and size of exactly the secure elements that have both among the first 500 preorder elements at depths 0 to 7, one by one and in order |
| UiTree.CollectedExactly | crates/fe-gui/src/lib.rs:1052-1060 | an area is returned if and only if it is position and size of a secure element on the way |
| UiTree.ShownButNotVisited | crates/fe-gui/src/lib.rs:1047-1049 | the elements of the reported tree down to depth 7 are, one by one and in order, the first ones that the masking walk visits; it visits nothing at depth 8 |
| UiTree.MaskedExactly | crates/fe-gui/src/lib.rs:1047-1049 | every maskable element of the reported tree is visited by the masking walk if and only if none of them is at depth 8 |
| UiTree.DeepPasswordIsNotMasked | crates/fe-gui/src/lib.rs:1047-1049 | a password field at depth 8 is reported and not masked |
| Subscriptions.Subscription.ReadJson | python/fusion_executor/executor.py:1009-1038 | one read takes one line off the stream, or reports timeout, end or overflow, and keeps the rest |
| Subscriptions.Subscription.Open | python/fusion_executor/executor.py:980-1007 | the handshake succeeds exactly if the first line grants a subscription id |
| Subscriptions.Subscription.Next | python/fusion_executor/executor.py:1047-1071 | the next own event; ConnectionError is raised exactly if the stream has ended and nobody here closed it |
| Subscriptions.Subscription.Unsubscribe | python/fusion_executor/executor.py:1073-1096 | true exactly if the first line read is a positive response; afterwards the socket is gone and marked as closed here |
| Subscriptions.Subscription.Close | python/fusion_executor/executor.py:1098-1103 | closes once and marks the close as local |
| Subscriptions.Reassembly | python/fusion_executor/executor.py:1009-1071 | for any chunking of frames under the cap, responses and other subscriptions' events interleaved and timeouts anywhere, iteration yields exactly this subscription's events in order, one stop per timeout, and ConnectionError at the end |
| Subscriptions.YieldsExactly | python/fusion_executor/executor.py:1058-1071 | what is yielded is subscription and body of exactly the events that name this subscription, each at its place in the order of the frames; a response or another subscription's event never |
| Subscriptions.OtherReads | python/fusion_executor/executor.py:1047-1065 | an empty line, a timeout and an overflow stop the iteration, an undecodable line raises, and the connection is lost only at the end |
| Subscriptions.OverflowDiscards | python/fusion_executor/executor.py:1027-1034 | an overflow costs what was buffered and nothing that is still to come |
| Subscriptions.SafeFromTheCapExactly | python/fusion_executor/executor.py:1027-1034 | a line survives every chunking if and only if it fits under the cap together with the most that the chunk which ends it can bring |
| Subscriptions.AcknowledgedExactly | python/fusion_executor/executor.py:1083-1085 | although the server acknowledges, the client says so if and only if no event and no timeout comes before the acknowledgement |
| Subscriptions.FirstFrameAnswers | python/fusion_executor/executor.py:1083-1088 | unsubscribe reports true if and only if no timeout comes before the first frame and that frame is a positive response |
| RollbackGuard.AutoRollbackGuard.DetectDamage | crates/fe-core/src/lib.rs:559-582 | the number of new tracked mutations, or the failure to read the status |
| RollbackGuard.AutoRollbackGuard.RecordResult | crates/fe-core/src/lib.rs:588-632 | rolls back exactly after a failing command with the check enabled and a new tracked mutation, reports a skipped rollback's reason, fails exactly if status or rollback fail, and is marked as recorded on every path |
| RollbackGuard.MutationCodesDecide | crates/fe-core/src/lib.rs:451-465 | supporting fact: an entry is a tracked mutation if and only if one of its two codes is M, D, R, C or T |
| Pipelines.Admit | crates/fe-core/src/lib.rs:924-1011 | refuses exactly if some gate does, with the result of the first one in order, and asks no gate after it |
| Pipelines.TakeSnapshot | crates/fe-core/src/lib.rs:1020-1066 | snapshot and prior status are taken exactly if a rollback may be wanted and a directory is given |
| Pipelines.TakeSnapshotStreaming | crates/fe-core/src/lib.rs:1289-1326 | the streaming copy of that stretch does the same |
| Pipelines.Slice | crates/fe-diagnostics/src/lib.rs:128-132 | the slicer panics when stripping the output aborts, and otherwise works on the stripped output |
| Pipelines.ExecuteAsync | crates/fe-core/src/lib.rs:924-1151 | outcome and questions asked, for every request and every answer of the outside world |
| Pipelines.AdmitStreaming | crates/fe-core/src/lib.rs:1161-1285 | the streaming gates refuse in the same cases and the same order |
| Pipelines.Forward | crates/fe-core/src/lib.rs:1368-1469 | the forwarding loop sends the planned frames as far as the consumer takes them, and handles the sandbox's result exactly if every chunk was taken |
| Pipelines.ExecuteStreaming | crates/fe-core/src/lib.rs:1161-1502 | frames delivered and questions asked, for every request, every answer and every point at which the consumer leaves |
| Pipelines.PipelinesAgree | crates/fe-core/src/lib.rs:1158-1502 | without cancel the stream is the sandbox's chunks and then the plain pipeline's result up to duration and reason text, which differs exactly at two gates, if and only if the slicer does not panic on an admitted command; both always ask the same questions in the same order |
| Pipelines.PanicsDiffer | crates/fe-core/src/lib.rs:1469-1497 | in that case the panic escapes from the plain pipeline and the stream ends in a result of its own |
| Pipelines.PanicsExactly | crates/fe-diagnostics/src/lib.rs:128-132 | the slicer panics if and only if the command failed in time and its diagnosed output has an odd run of ESC bytes before a character that is not ASCII, or what follows the stripping panics |
| Pipelines.HazardousOutput | crates/fe-core/src/lib.rs:1469-1497 | such output makes the plain pipeline panic and ends the stream in a result about the panic |
| Pipelines.StreamShape | crates/fe-core/src/lib.rs:1370-1458 | chunks in order, at most one final frame, nothing after it |
| Pipelines.RunsExactlyWhenAdmitted | crates/fe-core/src/lib.rs:939-1089 | the command runs if and only if no gate refuses, and only after every gate was asked and the snapshot taken |
| Pipelines.RollbackFieldsExclude | crates/fe-core/src/lib.rs:1121-1148 | at most one of the three rollback fields of a final result is set, panics included |
| Pipelines.DamageIsSignalledExactly | crates/fe-core/src/lib.rs:1385-1502 | after damage with a policy, the streamed result has one of them set if and only if the slicer did not panic, there was a directory and a snapshot to go back to, and the rollback did not give up without a reason |
| Pipelines.PlainDamageIsSignalledExactly | crates/fe-core/src/lib.rs:1089-1151 | the plain pipeline has a result with one of them set under exactly the same conditions |
| Pipelines.LooksForDamageExactly | crates/fe-core/src/lib.rs:1370-1458 | on the streaming path damage is looked for if and only if the command was admitted and started, the sandbox's end was reached by a consumer that took every chunk, policy, directory and snapshot are there, the command failed with the check enabled, and the slicer did not panic |
| Pipelines.UnsignalledDamage | crates/fe-core/src/lib.rs:1385-1502 | a request and answers for which a rollback would succeed after damage, yet it is not tried, no field is set, and the plain pipeline panics |
| PipelineResults.AdmittedExactly | crates/fe-core/src/lib.rs:924-1011 | the five conditions under which a command is run, written out |
| PipelineResults.PlainRefusal | crates/fe-core/src/lib.rs:939-1011 | a refusal has exit code -1, says so, and names the reason of the first gate that refuses and the guard's action id where that gate passes it on |
| PipelineResults.StreamedRefusal | crates/fe-core/src/lib.rs:1161-1285 | the same as the only frame of the stream, with its own reason texts |
| PipelineResults.FirstTokenSplits | crates/fe-core/src/lib.rs:1000-1005 | the binary asked about is the first word of the command |
| PipelineResults.PlainResult | crates/fe-core/src/lib.rs:1089-1151 | exit code, both outputs, flags and process id are the sandbox's; task, command, trace and duration the request's; diagnostics, snapshot and rollback fields follow from the answers |
| PipelineResults.StreamedResult | crates/fe-core/src/lib.rs:1382-1502 | the same of the last frame, with the cancelled flag, or the panic's own result |
| PipelineResults.StreamLength | crates/fe-core/src/lib.rs:1368-1469 | exactly how many frames reach a consumer that leaves at some point |
| PipelineResults.QuestionsInTurn | crates/fe-core/src/lib.rs:924-1151 | both pipelines ask every question at most once and in one fixed order |
| PipelineResults.AsksExactly | crates/fe-core/src/lib.rs:588-632 | slicer, status and rollback are asked for under exactly these conditions |

## Left out

- SQLite durability and restarts: the table is in memory; rows that were RUNNING when the process ended stay so in the program and are not modelled.
- Floating point: clocks, delays, durations and pixel coordinates are reals, so rounding, NaN and infinities are not modelled; casts to machine integers and the overflow error of `**` in the backoff, at the exact limit of the double format, are.
- Unicode: request lines stay bytes (the lossy decoding is not modelled).
- Failure texts with formatted numbers or exception names are abbreviated or given from outside; the progress pattern, JSON decoding, what the diagnostics slicer makes of stripped output, security verdicts, git and the sandbox are answers from outside.
- A progress report from a coroutine after its task has ended; the cancellation of a worker itself; status, listing and export of tasks.
- Memory order: atomics are sequentially consistent; each load, store and compare-exchange is one step.
- A connection task that is aborted while draining: cleanup is stated for connections that end on their own. `drain_connections`, `accept_loop` and its shutdown notification are not modelled.
- What telemetry and screenshot frames carry, and requests other than subscribe, unsubscribe, execute and stream; a plain execution is a stream whose only event is its result.
- Connection resets and other socket errors of the client besides timeout and end of stream.
- Builds without the diagnostics feature; panics of the streaming task outside the diagnostics slicer, and the five-second grace for joining it.
- The maximum of consecutive failures in the rollback policy is accepted and never read, so the model has no such field.
- File snippets, field truncation, sanitising and the traceback patterns of the diagnostics crate: short maps over characters and regular expressions.
- The process layer, the macOS interfaces, the guard service and the TypeScript client.
- StripAnsi.Strip: the first byte must not be a UTF-8 continuation byte, which holds of every string.
- Histogram.HistogramQuantile: takes at most six entries, as its callers pass, and is stated over exact arithmetic.
- Subscriptions.Reassembly: decoding is a function of the line, and frames are short enough for the cap; longer ones are the subject of SafeFromTheCapExactly.
