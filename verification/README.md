# Verified model of the tupoproxy core

A Dafny model of the stateful parts of tupoproxy and proofs of what they keep. Each part is written in the form
the program has: objects that change are classes whose methods are proved against specification functions, loops
are loops, and the concurrent IP tracker is a state machine over its indivisible steps, with theorems about every
interleaving.

| files | part of the program |
|---|---|
| `Tables`, `ShardSpec`, `ShardLoops`, `UserIpTracker` | the per-user IP tracker: tables, loops, and the object itself |
| `TrackerProtocol`, `TrackerInvariants`, `TrackerSteps` | the tracker's steps, its invariant, and one preservation lemma per step |
| `TrackerCounters`, `TrackerRefcounts`, `TrackerLimits`, `TrackerWindow`, `TrackerVerdicts`, `TrackerExamples` | theorems about every run of the tracker, and runs that show where a property ends |
| `CleanupMutex`, `CleanupRefinement` | the same cleanup queues one operation at a time, inside their mutexes, and the proof that this refines the tracker's steps |
| `LogFiles`, `LogDecisions`, `LogRetention`, `LogAppender`, `LogExamples` | the bounded log appender over a directory whose operations may fail |
| `AdmissionGate` | the readiness and fallback gate |
| `Conntrack` | the conntrack pressure controller |
| `AesCbc` | CBC chaining (NIST SP 800-38A, section 6.2) over any block permutation |
| `ConfigMerge`, `ConfigRevision`, `ConfigConcurrency`, `ConfigExamples` | configuration patches, the source revision, and If-Match style concurrency (RFC 9110, section 13.1.1), with runs that show where it ends |
| `TextLines`, `NginxListeners`, `NginxRewrite` | the nginx listener rewrite and its inverse |
| `Wrappers` | optional values, bytes, decimal numerals |

## How the tracker is modelled

A step is one queue operation under a queue mutex, one atomic operation on a counter, or one change of a shard's
tables under its write lock. That a queue operation may be taken as one step is itself proved (`CleanupRefinement`). A task between two steps of an operation is a value (`Task`), so a reserved slot, a
popped batch and an unsubtracted removal are visible to the invariant. Any number of tasks run. `live` and `history`
are the environment's books: sessions admitted and not yet released, and each pair's last successful admission. A
user's history is dropped with the user's entries when the user is cleared.

The methods of `UserIpTracker` are those steps in the program's order. `View()` is the protocol state of the object;
each method says which protocol step it is, or what a whole operation does to the tables and counters.

## What turned out false, and when it holds

- Refcount conservation does not survive every operation. `clear_user_ips` drops the entries of running sessions
  and of pending releases (`ClearOrphansALiveSession` is a run that shows it); `clear_all`, a release nobody was
  admitted for, and a refcount at the 64-bit limit break it too. `ConservationIff` states the exact condition on the
  step and the state before it.
- Under `TimeWindow` a user can have more active IPs than the limit: a session outlives the window, its IP leaves the
  recent map, and another IP takes the room (`TimeWindowExceedsTheLimit`). `TimeWindowPassesIff` gives the exact
  condition at a decision, `TimeWindowCrossing` at every step of every run.
- `current_size` of the log appender is not always the file's length: bytes a failed write leaves behind are not
  counted until the file is opened again (`SizeMissesAFailedWrite`). `Write` states that the two agree if and only if
  no recorded write since the file was opened left bytes, and what each write records.
- A size rotation can lose records: when all thousand archive names of its second are taken the overflow name is
  used, and reused (`OverflowLosesARecord`). `RotateForSize` and `Write` state that nothing is lost if and only if a
  name is free or the overflow file holds nothing, and `Valid()` that over a whole run without retention every record
  is still stored if and only if no rotation lacked that room.
- A commit can overwrite an edit an operator makes to the owner file between the commit's read of that file and its
  write, since such an edit does not take the mutation lock (`OutsideEditCanBeLost`). `OnlyOutsideEditsAreLost`: it does
  so if and only if the last outside edit of the file in that stretch left it other than it was read.
- A snapshot can be a mixture the disk never held, since the root file and its includes are read one after the other
  (`SnapshotCanBeAMixture`). `SnapshotIsTrueIff` gives the exact condition on the edits between the reads.
- After a failed open a log stays shut for the rest of its period, although the file system has recovered
  (`FailedOpeningShutsTheLog`), unless the size it last knew calls for a rotation (`ClosedLogStaysShut`,
  `ClosedLogReopensIff`).
- Without a pool and without fallback the gate is shut while the route stays direct; "shut implies the middle route"
  holds inside the loop, which that branch never enters (`Configure`).

## Model

| member | source | states |
|---|---|---|
| TrackerSteps.StepInv | src/ip_tracker/admission.rs:40-172 | every step of every operation keeps the invariant: lock exclusion, queue shape, positive refcounts, and for each counter "stored entries plus what tasks owe" |
| TrackerCounters.RunInv | src/ip_tracker.rs:85-118 | the invariant holds in every state of every interleaving from the empty tracker |
| TrackerCounters.EntriesNeverExceedCaps | src/ip_tracker/admission.rs:49-151 | in every run each entry counter is the stored entries of all shards plus reservations plus removals not yet subtracted, and stored entries stay within 131072 and 262144 |
| TrackerCounters.QuiescentCountersAreTotals | src/ip_tracker.rs:157-201 | with no operation under way all three counters equal the stored totals |
| TrackerCounters.SubtractionsAreExact | src/ip_tracker.rs:157-165 | no saturating subtraction saturates and no `fetch_sub` wraps, at any step of any run |
| TrackerCounters.QueueLengthCoversPairs | src/ip_tracker/cleanup.rs:5-38 | the queue length is at least the distinct queued pairs, equal exactly when no per-user drain is between its two steps, and no user sub-queue is empty |
| TrackerCounters.ZeroLengthMeansEmptyQueues | src/ip_tracker/cleanup.rs:52-64 | a zero length means every queue is empty, so the fast return skips nothing |
| CleanupMutex.LengthAtEveryInstant | src/ip_tracker/cleanup.rs:5-38 | at every instant, inside the queue mutexes too, the length exceeds the queued pairs by exactly what tasks between two operations owe, so it is never below them |
| CleanupMutex.ZeroAtAnyInstant | src/ip_tracker/cleanup.rs:52-64 | a reader without the mutex that finds zero finds no queued release in any queue |
| CleanupRefinement.BumpSimulated | src/ip_tracker/cleanup.rs:9-19 | an enqueue's operations, interleaved with all others, add up to the protocol's one enqueue, its queue and its length |
| CleanupRefinement.FinishSimulated | src/ip_tracker/cleanup.rs:97-133 | a shard drain's pops and length decrements, interleaved with all others, add up to the protocol's one batch, its queue and its length |
| CleanupRefinement.StepSimulated | src/ip_tracker/cleanup.rs:5-147 | with a section under way counted as not begun, queues and length alike, every single operation is a stutter or exactly one enabled protocol step: enqueue, take a user's queue, lower the length, or pop a batch |
| CleanupRefinement.RunsRefine | src/ip_tracker/cleanup.rs:5-147 | at every point of every interleaving of single operations with the tracker's other steps, the queues and the length so counted are those of a protocol state that satisfies the whole tracker invariant |
| CleanupRefinement.MovesAreProtocolSteps | src/ip_tracker/cleanup.rs:5-147 | along such an interleaving the protocol state stays or takes one enabled step of its own |
| CleanupRefinement.AtRestTheyAgree | src/ip_tracker/cleanup.rs:5-38 | whenever no queue mutex is held, the queues and the length are the protocol's |
| CleanupRefinement.EnqueueFromStart | src/ip_tracker/cleanup.rs:5-38 | such an interleaving from the empty tracker: an enqueue's three operations, two of them pauses of the protocol |
| TrackerCounters.RepeatedDrainsEmptyTheQueue | src/ip_tracker/cleanup.rs:91-133 | n shard drains leave exactly what exceeds 1024 n pairs |
| TrackerRefcounts.GapStep | src/ip_tracker/admission.rs:70-172 | by how much each step of the protocol moves "live sessions plus queued plus in-flight releases minus stored references", for every pair |
| TrackerRefcounts.ConservationIff | src/ip_tracker/snapshot.rs:226-262 | a step keeps refcount conservation if and only if it is not an unmatched release, a clear of a user with stored entries (of running sessions or of releases still pending), a `clear_all` over running sessions, or a count at the 64-bit limit |
| TrackerRefcounts.RefcountsConserved | src/ip_tracker/cleanup.rs:61-147 | in every run without such steps stored references equal sessions plus pending releases, and an IP with a live session is active however late batches are applied |
| TrackerRefcounts.BatchNeverTruncates | src/ip_tracker.rs:167-193 | a batch never asks to remove more references than are stored |
| TrackerRefcounts.NoReferenceLeaks | src/ip_tracker/cleanup.rs:5-147 | in every run, clears included, no stored reference outlives its session, queued release or release in flight |
| TrackerExamples.ClearOrphansALiveSession | src/ip_tracker/snapshot.rs:226-242 | a reachable state in which a live session has no active entry after `clear_user_ips` |
| TrackerExamples.TimeWindowExceedsTheLimit | src/ip_tracker/admission.rs:86-103 | a reachable state with limit 1 under TimeWindow and two active IPs |
| TrackerLimits.StepIsLocal | src/ip_tracker/admission.rs:48-57 | a step changes one shard and one queue at most, and a shard only under its lock |
| TrackerLimits.LimitHolds | src/ip_tracker/admission.rs:86-151 | with one limit L in force, ActiveWindow and Combined keep active IPs at most L in every reachable state, Combined keeps active and recent together at most 2L-1 |
| TrackerLimits.FullWindowAdmitsNoNewIp | src/ip_tracker/admission.rs:59-103 | under TimeWindow and Combined a window that holds L IPs grows only by the re-admission of an IP that is still active |
| TrackerLimits.TimeWindowPassesIff | src/ip_tracker/admission.rs:86-151 | under TimeWindow a decision takes a user past L active IPs if and only if the IP is not active, L are, the window has room or knows the IP, and neither global cap is in the way |
| TrackerLimits.TimeWindowCrossing | src/ip_tracker/admission.rs:86-151 | in every run under TimeWindow a step takes a user past L active IPs if and only if it completes the admission of an inactive IP with L active |
| TrackerVerdicts.PolicyRules | src/ip_tracker.rs:142-155 | a positive limit of the user's own wins over the default whatever that is, else a positive default applies, else none; the window is at least a second |
| TrackerVerdicts.NewIpAdmittedIff | src/ip_tracker/admission.rs:86-151 | an inactive IP is admitted if and only if both caps leave room and: under ActiveWindow fewer than L IPs are active whatever the window holds, under TimeWindow the window holds fewer than L or the IP, under Combined both, without a limit always; a refusal changes no table |
| TrackerVerdicts.ActiveIpAdmittedIff | src/ip_tracker/admission.rs:59-84 | an active IP is admitted whatever the limit, if and only if it is in the window or a recent slot is free: one reference more, seen now |
| TrackerVerdicts.DecisionReservesIff | src/ip_tracker/admission.rs:86-113 | in every run a decision on an inactive IP reserves the active slot exactly when limit and active cap leave room, and otherwise ends the admission |
| TrackerVerdicts.RoomLeadsToAdmission | src/ip_tracker/admission.rs:86-151 | in every run such a decision leads to the IP's admission however other tasks interleave, unless no recent slot is free when it comes to take one |
| TrackerWindow.WindowHolds | src/ip_tracker/admission.rs:27-38 | in every run with one window, what the recent tables store is the last admission, and every pair admitted no longer than the window before the shard's clock is stored |
| TrackerWindow.PruningIsInvisible | src/ip_tracker/snapshot.rs:112-134 | a windowed reader sees exactly the IPs whose last successful admission `t` has now <= t + window, however admissions and compactions pruned before |
| TrackerWindow.CompactionKeepsActive | src/ip_tracker/snapshot.rs:24-67 | compaction changes no active row and drops no user with one |
| ShardSpec.PruneRowKeeps | src/ip_tracker/admission.rs:27-38 | pruning keeps an entry, as it is, if and only if now <= its instant + window |
| ShardSpec.DeferredIsDirect | src/ip_tracker.rs:167-193 | applying a pending count k gives the same table and the same number of deleted entries as k direct removals |
| ShardSpec.AfterBatchCount | src/ip_tracker/cleanup.rs:139-147 | after a batch every pair has its count less its pending releases, floored at zero, and no other pair changes |
| ShardSpec.DrainCount | src/ip_tracker/cleanup.rs:103-112 | what a drain takes and what it leaves add up to the queue, pair by pair: each count is carried exactly once |
| ShardLoops.PopOneCleanup | src/ip_tracker.rs:203-217 | takes one pair with its whole positive count, leaves the rest, keeps every row non-empty, and fails only on an empty queue |
| ShardLoops.DrainBatch | src/ip_tracker/cleanup.rs:98-112 | the pop loop takes exactly min(1024, pending) distinct pairs with their counts and leaves the others |
| ShardLoops.ApplyBatchLoop | src/ip_tracker/cleanup.rs:139-147 | the apply loop, in any order, gives the batch's table and counts exactly the deleted entries |
| ShardLoops.PruneLoop | src/ip_tracker/snapshot.rs:28-36 | compaction's pruning loop keeps of every row exactly the entries with now <= instant + window, and counts what it dropped |
| ShardLoops.SweepLoop | src/ip_tracker/snapshot.rs:38-66 | the sweep drops exactly the users empty in both tables, judged on the tables before it |
| ShardLoops.CountEntries | src/ip_tracker/snapshot.rs:79-105 | summing row lengths counts the distinct pairs |
| UserIpTrackers.UserIpTracker.constructor | src/ip_tracker.rs:85-118 | a new tracker is the protocol's initial state |
| UserIpTrackers.UserIpTracker.EnqueueCleanup | src/ip_tracker/cleanup.rs:5-38 | queues one release and lengthens the queue only for a pair not yet queued |
| UserIpTrackers.UserIpTracker.DrainCleanupForUser | src/ip_tracker/cleanup.rs:61-89 | empties the user's queue into the active table, the zero-length return included |
| UserIpTrackers.UserIpTracker.DrainCleanupShard | src/ip_tracker/cleanup.rs:91-147 | applies exactly the drained batch and shortens the queue length by its size |
| UserIpTrackers.UserIpTracker.DrainCleanupQueue | src/ip_tracker/cleanup.rs:52-59 | one drain of every shard, also when the zero-length return is taken |
| UserIpTrackers.DrainMovesReleases | src/ip_tracker/cleanup.rs:91-147 | a drain leaves what exceeds 1024 pairs, and every release that left the queue has been taken off the active count of its pair |
| UserIpTrackers.UserIpTracker.RemoveIp | src/ip_tracker/admission.rs:154-172 | every shard compacted if that is due; then one reference less, the entry and its counter slot gone at zero, and queues, policy, other tasks and other shards otherwise unchanged |
| UserIpTrackers.UserIpTracker.Admit | src/ip_tracker/admission.rs:43-151 | the verdict in numbers of the state found: limit by mode, IPs with now <= instant + window, both caps; success and refusal each leave exactly the stated tables and counters, so a rollback leaves no trace |
| UserIpTrackers.UserIpTracker.CheckAndAdd | src/ip_tracker/admission.rs:40-151 | drain, compaction if due, then the verdict and tables of an admission on the state those two leave |
| UserIpTrackers.UserIpTracker.Readmit | src/ip_tracker/admission.rs:59-84 | an already active IP is admitted without a limit check unless it needs a recent slot and none is free |
| UserIpTrackers.UserIpTracker.AdmitNew | src/ip_tracker/admission.rs:86-151 | a new IP is admitted exactly within both caps and, by mode, with fewer than L active IPs and with room in the window or the IP in it |
| UserIpTrackers.UserIpTracker.ReserveSlots | src/ip_tracker/admission.rs:105-125 | both slots or none: a failed recent reservation gives the active slot back |
| UserIpTrackers.UserIpTracker.TryIncrementActive | src/ip_tracker.rs:195-201 | takes a slot exactly below the cap |
| UserIpTrackers.UserIpTracker.Compact | src/ip_tracker/snapshot.rs:24-68 | every shard is pruned with one instant and window, then swept |
| UserIpTrackers.CompactedRows | src/ip_tracker/snapshot.rs:24-67 | a compacted shard has every active row, of each recent row exactly the IPs still in the window, and no user without either |
| UserIpTrackers.UserIpTracker.ClearUserIps | src/ip_tracker/snapshot.rs:226-242 | the user leaves both tables and both counters drop by the user's entries |
| UserIpTrackers.UserIpTracker.ClearAll | src/ip_tracker/snapshot.rs:244-262 | every table, queue and counter is empty afterwards |
| UserIpTrackers.UserIpTracker.ReadMemoryStats | src/ip_tracker/snapshot.rs:79-105 | user rows and stored entries summed over all shards, the entries equal to the counters when nothing runs |
| UserIpTrackers.UserIpTracker.RecentCounts | src/ip_tracker/snapshot.rs:112-134 | one count for each asked user, the number of IPs with now <= instant + window |
| LogFiles.ArchivePath | src/logging/file.rs:89-103 | the first free of a thousand archive names, the overflow name when there is none |
| LogFiles.ArchiveNamesDiffer | src/logging/file.rs:89-103 | archives of different stamps or numbers have different names, none of them an overflow name |
| LogFiles.RenameKeepsIff | src/logging/file.rs:80-87 | a rename loses no record if and only if it does not land on a file that holds one |
| LogFiles.ArchiveKeepsIff | src/logging/file.rs:80-103 | a rotation loses no record if and only if an archive name is free or the overflow file is missing or empty |
| LogRetention.SortByModified | src/logging/file.rs:186-186 | the archives, each once, ordered by modification time |
| LogRetention.ChooseRemovals | src/logging/file.rs:166-195 | deletes every archive past the age limit and, of the rest, the oldest, exactly as many as the count asks for |
| LogRetention.RetentionHolds | src/logging/file.rs:131-196 | afterwards every archive has modified + max age >= now, none deleted for the count was newer than one kept, the count is within the maximum and not lower than needed, and nothing but archives went |
| LogAppender.BoundedFileAppender.constructor | src/logging/file.rs:31-62 | opens the active file, goes by its length, and starts within the retention limits when removals succeed |
| LogAppender.BoundedFileAppender.RefreshActivePath | src/logging/file.rs:68-78 | switches exactly when the period's path differs and the file system agrees; each failure leaves the log closed |
| LogAppender.BoundedFileAppender.RenameToArchive | src/logging/file.rs:80-103 | the active file moves whole to the name `archive_path` chooses, the overflow name included; nothing is lost if and only if that has room |
| LogAppender.BoundedFileAppender.RotateForSize | src/logging/file.rs:80-87 | when it succeeds, that success leaves an empty open file and any failure a closed log, and that records are lost if and only if the rename happens without room |
| LogAppender.BoundedFileAppender.Cleanup | src/logging/file.rs:131-196 | removes exactly what retention asks for and the file system allows, never the active file |
| LogAppender.BoundedFileAppender.Put | src/logging/file.rs:215-217 | a whole write is appended and counted; a cut one leaves its bytes uncounted |
| LogAppender.BoundedFileAppender.Write | src/logging/file.rs:199-219 | success, openness, size, file length, bytes left by a failure and lost records as exact conditions on the log found and the answers got; afterwards `current_size` is the file's length if and only if no write since the file was opened left bytes; in the same period, with no cleanup due and size plus length within the limit, only the active file changes and grows by the length; whatever is archived exceeds the limit together with the write; a successful write is the last record, of size at most max(limit, length), after the cleanup that is due after sixty seconds; `Valid` is kept: without retention every record there ever was is stored if and only if no rotation lacked room, and the file count is within its maximum while removals succeed |
| LogDecisions.RotatesIff | src/logging/file.rs:119-123 | a size rotation is called for if and only if the limit is positive and below 2^64-1, the size gone by is positive, and size plus length exceeds the limit |
| LogDecisions.SucceedsIff | src/logging/file.rs:199-219 | a write succeeds if and only if the file system agrees to each operation its period and size call for, and the file stays within the signed 64-bit range |
| LogDecisions.MovesAsideIff | src/logging/file.rs:80-87 | a file is archived if and only if the size calls for it, the file is there, and the switch, the close and the rename succeed |
| LogDecisions.NothingLeftIffZero | src/logging/file.rs:215-216 | the bytes recorded since the file was opened sum to zero if and only if none of those writes left any |
| LogDecisions.ClosedLogReopensIff | src/logging/file.rs:68-87 | a closed log reaches the write again exactly by opening a new period's file, or in the same period when its last known size makes it rotate |
| LogExamples.SizeMissesAFailedWrite | src/logging/file.rs:215-216 | two writes, the first cut short, leave `current_size` one byte short |
| LogExamples.OverflowLosesARecord | src/logging/file.rs:80-103 | with a thousand archives and an overflow file of one second, a successful write loses a record |
| LogExamples.FailedOpeningShutsTheLog | src/logging/file.rs:68-78 | a run from a new log: the period turns, the open fails, and the next write fails too although the file system obliges |
| LogExamples.ClosedLogStaysShut | src/logging/file.rs:199-214 | after a failed open every write of the period fails while the last known size calls for no rotation |
| AdmissionGate.GateTask.constructor | src/maestro/admission.rs:26-61 | the initial decision, published |
| AdmissionGate.GateTask.OnPoll | src/maestro/admission.rs:98-199 | one turn of the loop on the object's fields, decision and publication |
| AdmissionGate.GateTask.Run | src/maestro/admission.rs:79-201 | the loop over any sequence of configuration changes and polls |
| AdmissionGate.Configure | src/maestro/admission.rs:16-210 | when a loop runs at all, and what is published when none does |
| AdmissionGate.GateFollowsReadiness | src/maestro/admission.rs:101-199 | at every loop head published and local values agree, open on the middle route means the last poll was ready, direct means open and not ready, shut means middle |
| AdmissionGate.InitialDecision | src/maestro/admission.rs:34-51 | the first decision: open when ready or with fallback, direct exactly when not ready and with fallback |
| AdmissionGate.PollDecidedByRun | src/maestro/admission.rs:101-199 | in every run, from the events alone: a poll publishes open and direct if and only if it is not ready, fallback is on, and no poll was ever ready, or fast fallback is on, or the outage's first poll that fast fallback did not answer is over six seconds old, with the first of these as reason; any other poll publishes the middle route, open exactly when ready |
| AdmissionGate.ReadyObservedIsEverReady | src/maestro/admission.rs:71-111 | the flag records exactly whether some poll was ready |
| AdmissionGate.OutageIsReal | src/maestro/admission.rs:106-137 | a remembered outage start is the instant of a poll that began an unbroken stretch of not-ready polls |
| AdmissionGate.StrictGraceNeedsAnOutage | src/maestro/admission.rs:125-137 | strict-grace fallback needs an earlier ready poll and an unbroken outage of more than six seconds; the eighty-second constant never decides |
| AdmissionGate.StrictGraceIff | src/maestro/admission.rs:84-137 | in every run, reconfigurations included, it is decided exactly when fallback is on and fast fallback off, readiness was seen, and the outage's first poll that fast fallback did not answer is over six seconds old |
| Conntrack.ConntrackWorker.constructor | src/conntrack_control.rs:95-116 | the worker's first state and flags |
| Conntrack.ConntrackWorker.OnConfigChanged | src/conntrack_control.rs:120-130 | a configuration change re-applies the runtime state and refills the budget |
| Conntrack.ConntrackWorker.CollectPressureSample | src/conntrack_control.rs:218-249 | percentages and differences of saturating totals, remembered for the next sample |
| Conntrack.ConntrackWorker.UpdatePressureState | src/conntrack_control.rs:251-311 | activation over a watermark, release by hysteresis, reset when disabled |
| Conntrack.ConntrackWorker.Run | src/conntrack_control.rs:117-186 | the worker over any sequence of events, then shutdown with both flags cleared |
| Conntrack.WatermarksAreExact | src/conntrack_control.rs:223-281 | the rounded, capped, saturating percentage meets a watermark exactly when the true ratio does |
| Conntrack.WatermarksFromReading | src/conntrack_control.rs:223-281 | a sample hits the high watermark, or clears the low one, exactly when the reading does: connections times 100 against share times maximum, descriptor use, and totals that have grown |
| Conntrack.SetupIsRemembered | src/conntrack_control.rs:95-130 | at every loop head the worker is enabled exactly when the configuration in force asks for it and its probe found backend, capability and binary, and it compares totals with those of the latest tick |
| Conntrack.FlagsTellPressure | src/conntrack_control.rs:188-216 | at every loop head both published flags equal "enabled and active" |
| Conntrack.LowStreakIsTrailingRun | src/conntrack_control.rs:251-311 | the streak is the trailing run of low-clear ticks since activation and stays below three |
| Conntrack.ReleasedOnThirdLowTick | src/conntrack_control.rs:298-311 | while enabled, pressure is released at a tick if and only if it is the third low-clear one in a row |
| Conntrack.PressureIff | src/conntrack_control.rs:251-311 | a run ends under pressure if and only if an enabled tick over a watermark began it and no later tick found the worker disabled or was the third low-clear one |
| Conntrack.AttemptsAreThoseCloses | src/conntrack_control.rs:131-163 | over a run the attempts are exactly the closes by timeout, pressure or reset seen while enabled, under pressure and in budget |
| Conntrack.BudgetBetweenRefills | src/conntrack_control.rs:120-180 | between refills attempts and remaining tokens make up the granted budget |
| Conntrack.AttemptsWithinGrants | src/conntrack_control.rs:95-186 | over a run attempts never exceed the sum of granted budgets |
| Conntrack.CountersByOutcome | src/conntrack_control.rs:148-162 | over a run each of the three outcome counters counts exactly the attempts with that outcome |
| Conntrack.EveryAttemptHasAnOutcome | src/conntrack_control.rs:148-162 | between events attempts equal successes plus not-found plus errors |
| Conntrack.EveryTimeoutCountedOnce | src/conntrack_control.rs:235-241 | with growing totals every accept timeout is counted by exactly one tick |
| AesCbc.DecryptUndoesEncrypt | src/crypto/aes.rs:172-231 | decryption undoes encryption on every aligned input |
| AesCbc.EncryptUndoesDecrypt | src/crypto/aes.rs:172-231 | encryption undoes decryption on every aligned input |
| AesCbc.EncryptConcat | src/crypto/aes.rs:172-199 | encrypting a ++ b is encrypting a, then b with a's last ciphertext block as IV |
| AesCbc.EncryptChains | src/crypto/aes.rs:187-196 | each ciphertext block is the permuted XOR of its plaintext block and the block before |
| AesCbc.DecryptChains | src/crypto/aes.rs:215-228 | each plaintext block is the inverse permutation XOR the ciphertext block before |
| AesCbc.DamageIsLocal | src/crypto/aes.rs:204-231 | a changed ciphertext block changes its own plaintext block, shifts the next by exactly the change, and no other |
| AesCbc.XorBlocks | src/crypto/aes.rs:161-167 | the byte loop computes the blockwise XOR |
| AesCbc.AesCbc.Encrypt | src/crypto/aes.rs:172-199 | the loop computes CBC encryption; unaligned input is refused |
| AesCbc.AesCbc.Decrypt | src/crypto/aes.rs:204-231 | the loop computes CBC decryption; unaligned input is refused |
| AesCbc.AesCbc.EncryptInPlace | src/crypto/aes.rs:234-265 | the array ends with what `Encrypt` returns for its old contents |
| AesCbc.AesCbc.DecryptInPlace | src/crypto/aes.rs:268-301 | the array ends with what `Decrypt` returns for its old contents although each step overwrites the chained block |
| ConfigMerge.DeepMerge | src/api/config_edit.rs:369-383 | the recursive loop, in any key order, computes the merge, and the result is the overlay at every path |
| ConfigMerge.MergeAtPath | src/api/config_edit.rs:369-383 | the merged value at every path: missed paths keep the base, a patch value replaces what was there unless both are tables, two tables give the keys of both, and nothing is below a non-table patch value |
| ConfigMerge.OverlayIsMerge | src/api/config_edit.rs:369-383 | these values determine the merge: nothing else has them at every path |
| ConfigMerge.MergeIsIdempotent | src/api/config_edit.rs:369-383 | merging a patch twice is merging it once |
| ConfigMerge.ValidateServerPatch | src/api/config_edit.rs:299-327 | accepts exactly a non-empty table of editable server fields and names an offending field otherwise |
| ConfigMerge.ValidatePatch | src/api/config_edit.rs:110-142 | accepts exactly the acceptable patches; `access` is refused as such |
| ConfigMerge.AcceptableIff | src/api/config_edit.rs:110-142 | by name: a non-empty table of the six editable sections, with `server` holding `listeners` and nothing else |
| ConfigMerge.OtherSectionsUntouched | src/api/config_edit.rs:110-150 | an accepted patch leaves every section outside the editable list equal |
| ConfigMerge.OtherServerFieldsUntouched | src/api/config_store.rs:304-324 | an accepted patch leaves every `server` field but `listeners` equal |
| ConfigMerge.JsonToToml | src/api/config_edit.rs:332-365 | the recursive conversion succeeds exactly on representable values |
| ConfigMerge.RepresentableIff | src/api/config_edit.rs:332-365 | a value converts if and only if nowhere in it is a number that is neither signed 64-bit nor a float, or a null that is not an object's field |
| ConfigMerge.ConvertedAt | src/api/config_edit.rs:332-365 | the conversion at every trail of fields and array positions: texts, booleans and numbers keep their values (integer when signed 64-bit, else float), arrays their length, objects their non-null fields, and nothing else appears |
| ConfigMerge.NullLeavesValueAlone | src/api/config_edit.rs:332-383 | a null field in a JSON patch leaves the value at its path, and all below it, as it was |
| ConfigRevision.ManifestBytes | src/api/config_store.rs:106-117 | the hasher's updates concatenate to the manifest |
| ConfigRevision.LittleEndianDigits | src/api/config_store.rs:106-117 | a length prefix is the length to base 256, least significant byte first |
| ConfigRevision.ManifestInjective | src/api/config_store.rs:106-117 | two source graphs with one manifest are equal |
| ConfigRevision.ResolveSingleSourceOwner | src/api/config_store.rs:136-201 | finds the one file an edit can be written to, and fails exactly when there is none |
| ConfigConcurrency.CommitsNeverOverwriteUnseen | src/api/config_edit.rs:44-79 | in every run, outside edits included, no commit comes between another's first read and its write, each file of a commit's base is the disk's at the moment it was read, and the commit changes its owner file only |
| ConfigConcurrency.OnlyOutsideEditsAreLost | src/api/config_edit.rs:48-70 | a commit overwrites owner contents it has not seen if and only if the last outside edit of the file between its read and the write left it other than it was read |
| ConfigExamples.OutsideEditCanBeLost | src/api/config_edit.rs:48-70 | a run in which such an edit is lost |
| ConfigConcurrency.SnapshotIsTrueIff | src/config/load.rs:165-195 | a commit's base agrees with the disk at its last read if and only if no file of it was edited after its own read and left different |
| ConfigConcurrency.UndisturbedSnapshot | src/config/load/includes.rs:37-60 | with no edit between its reads, a commit's base is what the include scan reads of that one disk, file by file |
| ConfigExamples.SnapshotCanBeAMixture | src/config/load.rs:165-195 | a run in which an edit between two reads gives a commit a graph the disk held at no moment |
| ConfigConcurrency.NamedRevisionIsTheBase | src/api/config_edit.rs:99-108 | with a collision-free hash, a commit with an expected revision was built on exactly that graph |
| ConfigConcurrency.SameRevisionMeansRestored | src/api/config_edit.rs:99-108 | two commits can name one revision only if both read one graph, and the second read each file of it after the first commit, so every file had come back |
| TextLines.SpacesAre | edge-integration.py:754-780 | the code points of Python's white space and line boundaries, each boundary being white space |
| TextLines.SplitLaws | edge-integration.py:780-780 | splitting into lines: no text gives no line, text without a boundary one, and a line ends at its first boundary, a carriage return with the line feed after it being one |
| TextLines.SplitOfOutput | edge-integration.py:801-801 | reading the written text back gives its lines with trailing blank lines and trailing white space dropped |
| NginxListeners.AlphabetIs | edge-integration.py:806-806 | the characters a marker's text may have: letters, digits, `_`, `=` and `-` |
| NginxListeners.PatchedLine | edge-integration.py:784-798 | a rewritten line restores to its original, carries the marker and ends in no white space |
| NginxListeners.PatchedDirective | edge-integration.py:786-798 | a rewritten line is the same directive on `[::1]:port` or `127.0.0.1:port`, by family, with `proxy_protocol`, every other word in place |
| NginxListeners.PatchedLayout | edge-integration.py:784-798 | the text of a rewritten line: the original's indentation, the rewritten words, the marker with the encoded original, and what followed the semicolon, trimmed |
| NginxListeners.ChangedIffListener | edge-integration.py:754-783 | rewriting changes a line exactly when it is a public TCP listener |
| NginxListeners.ListenerIff | edge-integration.py:754-768 | a line is a listener if and only if behind its indentation it starts with `listen `, mentions no quic and no marker, and names the port alone, after `*:` or digits and dots, or after a bracketed hexadecimal host |
| NginxListeners.ListenerFamily | edge-integration.py:784-788 | a listener counts as IPv6 exactly when its address is the bracketed form |
| NginxListeners.ListenLineIsListener | edge-integration.py:754-768 | every listen directive of that form is found, whatever its indentation, options and comment |
| NginxListeners.StrippedListener | edge-integration.py:754-768 | dropping a line's trailing white space never turns it into a listener |
| NginxRewrite.PatchNginxListeners | edge-integration.py:771-801 | the loop computes the rewritten text, the number of listeners, and which address families had one |
| NginxRewrite.RestoreNginxListeners | edge-integration.py:804-810 | the loop computes the restored text and fails on metadata that does not decode |
| NginxRewrite.PatchIsIdempotent | edge-integration.py:771-801 | for every text, patching twice is patching once and the second pass finds no listener |
| NginxRewrite.RestoreUndoesPatch | edge-integration.py:771-810 | for marker-free text, restoring the patched text gives the original lines, up to the white space the code itself drops at the end |

## Left out

- Statistics counters of the tracker (cap rejections, deferred releases) and its log lines: no effect on the tables.
- The 60-second gate of compaction and the try-lock that lets one drain run at a time: the protocol lets any task compact or drain at any moment, so the theorems cover more runs than the program has.
- Mutex poisoning recovery and task cancellation in the middle of a drain.
- `clear_all` is taken only when nothing else runs; fewer than 2^64 pairs are ever queued.
- QueueLengthCoversPairs: speaks of the states between critical sections, where an enqueue and a shard drain's pops are one step each; the states inside them are those of `CleanupMutex`, tied to these by `CleanupRefinement`.
- Weak memory: atomic operations are modelled sequentially consistent, each taking effect at once for all tasks. The program loads `cleanup_queue_len` with `Ordering::Relaxed` (src/ip_tracker/cleanup.rs:53 and 62), so a drain there may read a stale zero and return although a release is queued, which then waits for a later drain.
- ZeroLengthMeansEmptyQueues: speaks of the length's current value, not of a stale one a relaxed load may return.
- ZeroAtAnyInstant: likewise.
- DrainCleanupForUser: takes the zero-length return on the current value only.
- DrainCleanupQueue: likewise.
- ReadMemoryStats: leaves out the cap-rejection and deferred-release totals, with the statistics counters.
- Active and recent address listings, `get_stats`, `format_stats` and the other snapshot readers: copies of rows the model already has.
- Real dates: the period and the stamp of a log file are functions of the instant; directory entries that vanish or change while a log directory is being listed, and files other programs add to it.
- Flushing: closing a log file may fail, but nothing buffered is lost before that, since the program writes unbuffered.
- The pool, the route controller and the reload watcher of the admission gate: readiness, instants and configurations are its inputs.
- nft, iptables and conntrack commands, descriptor counting and the event queue's capacity: samples, probe results and delete outcomes are inputs of the conntrack worker.
- AES itself, CTR mode, key erasure and slice-length checks: any block permutation with its inverse.
- SHA-256: any collision-free function of the manifest; file lengths fit in 64 bits.
- ResolveSingleSourceOwner: takes TOML parsing and the scan for includes inside a table as parameters.
- The include scan itself: which file is read next is any function of the files read so far; the depth limit and in-memory replacements are among its refusals.
- TOML rendering, configuration validation after the merge, and writing files.
- Base64: any codec that decodes what it encodes into the URL-safe alphabet (RFC 4648, section 5).
- The rest of `edge-integration.py`: process control, provisioning and other text blocks.
