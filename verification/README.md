# Verified models of JiuwenSwarm's concurrent protocols and transformations

This project models the parts of JiuwenSwarm whose correctness depends on interleavings, retries or
recursive data, and proves what they promise for every run and every input.

- **The task-affine read/write lock** (`TaskAffineLock`, `TaskAffineLockProofs`, `TaskAffineAdmission`):
  tasks of one event loop coordinate through a condition with reader, writer and pending-writer counters,
  around a file lock that other processes take too and that only the acquiring task may release. Every
  `await` is an interleaving point; time-outs, cancellation, closing and other processes are actions.
- **The configuration store**: the stamp-keyed parse cache (`ParseCache`, `ParseAttempts`),
  read-modify-write transactions under a thread lock and a lock file (`ConfigTransactions`,
  `ConfigResults`), the recursive template merge (`TemplateMerge`), the migration built on it
  (`TemplateMigration`, `MigrationMeaning`, `PruneMigration`) and the inference of default models
  (`DefaultModels`), over documents defined in `ConfigTree`.
- **The background log writer** (`LogWriter`, `LogWriterRuns`, `LogWriterOutcomes`): a bounded non-blocking
  queue, a drain thread and reference-counted ownership of handlers.
- **Bounded background work** (`BackgroundWork`): a semaphore slot that travels from `submit` to a daemon
  thread, with cancellation and failures on every path.
- **Streamed responses** (`SseFraming`, `StreamAccumulator`, `StreamReconstruction`): an incremental event
  framer and a delta accumulator, compared with framing the whole stream once and concatenating deltas.
  Framing is that of section 9.2.6 of the WHATWG HTML standard, restricted to LF line ends.
- **The layering check** (`Layering`, `LayeringNames`): parent packages, work-list closure of the import
  graph, and the rules.
- **The artifact download** (`ArtifactDownload`): nested retry and fallback with checksum verification.
- **Byte-limited names** (`NameTruncation`): cutting UTF-8 (sections 3 and 4 of RFC 3629) at 80 bytes.

Protocols are written as an `Action` datatype with `Enabled` and `Apply`; a run is a sequence of states
linked by enabled actions, and results about runs hold for any number of tasks, threads, readers or
records. Code that loops over collections is a method proved against a definition that does not mention
the loop. `Basics` holds small shared definitions.
What an operation yields is also stated without the definitions that its own body uses.

Where the code does less than its promise, the model follows the code, one lemma shows an input on which
the promise fails, and another gives the exact condition under which it holds:

- A cancellation that hits the exit block of the lock while it waits for the condition, which another task owns
  at that time, skips the decrement and the release (`TaskAffineLockProofs.StepKeepsInv` is an if-and-only-if);
  the claims about runs are for exits that complete. After a writer's cancelled exit nobody ever enters again,
  after a reader's no writer does (`TaskAffineLockProofs.CancelledWriterLocksEverybodyOut`,
  `TaskAffineLockProofs.CancelledReaderStarvesWriters`); `TaskAffineLockProofs.CancelledExitRun` is such a run.
- `update_config` returns the document in the file exactly when its mutator did not edit the loaded document in
  place and then return None (`ConfigTransactions.ReturnsWhatIsInTheFile`); for every mutator that does, some
  call returns a document that was never written (`ConfigTransactions.EditThenNoneReturnsUnwritten`). The
  mutators at jiuwenswarm/common/config.py:3057-3059 and
  jiuwenswarm/agents/harness/common/rails/permissions/permissions_persist.py:346-348 can do so; their callers
  ignore the returned value.
- An exception inside `Thread.start()` after the thread has begun releases a slot twice
  (`BackgroundWork.StepKeepsInv`, `BackgroundWork.InterruptBreaksTheBound`). One that lands between taking the
  slot and the `try` loses the slot for good; all other held slots can come back
  (`BackgroundWork.SlotComesBackUnlessLost`, `BackgroundWork.LostPoolRejects`).
- A cancelled future is done although its slot may still be held (`BackgroundWork.CancelledFutureMayHoldSlot`);
  that a future which is done has freed its slot holds throughout a run exactly if nobody cancels one in it
  (`BackgroundWork.DoneMeansFreeIff`).
- A failed download does not always remove the wheel. It stays when it cannot be read back, when an exception
  that no handler of the loop catches ends an attempt that had written something or found a file from before the
  call, and when a handler fails to remove it (`ArtifactDownload.UnreadableWheelStays`,
  `ArtifactDownload.UncaughtErrorKeepsWheel`, `ArtifactDownload.UnremovableWheelStays`); in all other cases no file
  is left (`ArtifactDownload.DownloadWheel`).
- The migration settles after one run exactly for templates that ship neither a ReAct-level KVC node nor a
  legacy memory switch beside a flat memory node with further keys (`TemplateMigration.SettlesIff`). With prune it
  must besides have a version key, or the label is pruned and added again by every run, and must not have room
  for a legacy memory switch but none for the flat one (`PruneMigration.PruneSettlesIff`).
- The legacy moves are not counted as changes, although the documentation speaks of moving the setting: a pending
  move reaches the file exactly when the template has something else to add or the version label differs
  (`TemplateMigration.MoveReachesFileIff`), and otherwise is lost (`TemplateMigration.PendingMoveMayBeLost`).
- A cut drops surrogates even where they would fit (`NameTruncation.CutDropsFittingSurrogate`); the exact condition
  is in `NameTruncation.SanitizeIsLongestFit`.
- Reads through the cache are current exactly for histories of the file in which no stamp misleads: one that
  recurs must stand for the document of every version that was readable between its two uses
  (`ParseCache.NeverStaleIff`, `ParseCache.ReusedStampServesStale`). Stamps that never recur are a special case
  (`ParseCache.NeverRecurSuffices`).
- `_read_with_retry` falls through to its final empty document exactly when it is allowed no attempt
  (`ParseCache.FallThroughMeansNoAttempts`).

## Model

| member | source | states |
|---|---|---|
| `TaskAffineLockProofs.StepKeepsInv` | jiuwenswarm/openjiuwen_fs_rwlock_patch.py:53-128 | the nine-part invariant (condition ownership, file holds, file exclusion, counters, writer alone, pollers admitted, quiet when closed, no lost wake-up, task affinity) survives every action except the cancellation of an exit block, which breaks it from every state |
| `TaskAffineLockProofs.RunIsSafe` | jiuwenswarm/openjiuwen_fs_rwlock_patch.py:63-118 | in every state of every run with complete exits: no writer body overlaps another body here or elsewhere, `readers` and `writers_waiting` equal the number of readers inside and of pending writers, `writer` and the file holds match the tasks inside whenever the condition is free, no task released a hold that was not its own |
| `TaskAffineLockProofs.EntryRespectsWriters` | jiuwenswarm/openjiuwen_fs_rwlock_patch.py:79-109 | a reader's body starts only with no writer pending and none inside, a writer's only with nobody inside |
| `TaskAffineLockProofs.ReleaseIsByOwner` | jiuwenswarm/openjiuwen_fs_rwlock_patch.py:63-118 | a hold on the file lock disappears only by a release, at exit or after an abandoned poll, by the task that took it |
| `TaskAffineLockProofs.ClosedStaysEmpty` | jiuwenswarm/openjiuwen_fs_rwlock_patch.py:49-128 | the lock closes only with no holds, and in every later state it is still closed, unheld and empty |
| `TaskAffineLockProofs.StepClosesQuietly` | jiuwenswarm/openjiuwen_fs_rwlock_patch.py:120-128 | `closed` is never reset, and the step that sets it finds no hold |
| `TaskAffineLockProofs.CancelledWriterLocksEverybodyOut` | jiuwenswarm/openjiuwen_fs_rwlock_patch.py:110-118 | in every state after a writer's exit was cancelled at line 113: `writer` is set, the file is held for writing, nobody polls, is inside or closes, no other process can take the file, and no state with the condition free is safe |
| `TaskAffineLockProofs.CancelledReaderStarvesWriters` | jiuwenswarm/openjiuwen_fs_rwlock_patch.py:87-95 | in every state after a reader's exit was cancelled at line 90: more readers are counted than are inside, no writer polls or is inside, the lock is not closed, and the state is not safe |
| `TaskAffineLockProofs.CancelledExitRun` | jiuwenswarm/openjiuwen_fs_rwlock_patch.py:79-118 | a run in which a reader's, or a writer's, exit is cancelled while another task owns the condition |
| `TaskAffineAdmission.AdmissionIff` | jiuwenswarm/openjiuwen_fs_rwlock_patch.py:84-106 | readers share: a reader that tests its predicate is admitted if and only if no writer is pending or inside; a writer if and only if nobody is inside; and exactly those not admitted go to sleep |
| `TaskAffineAdmission.LateTaskGivesUp` | jiuwenswarm/openjiuwen_fs_rwlock_patch.py:53-61 | after its time-out, or on a closed lock, a task is not admitted and can give up |
| `TaskAffineAdmission.PollSucceedsIff` | jiuwenswarm/openjiuwen_fs_rwlock_patch.py:63-77 | a poll takes the file lock if and only if the holds of other processes allow its mode |
| `TaskAffineAdmission.ForeignAcquiresIff` | jiuwenswarm/openjiuwen_fs_rwlock_patch.py:63-77 | another process can take the file lock if and only if no hold in the way of its mode exists, in any process |
| `TaskAffineAdmission.OutsideTaskCan` | jiuwenswarm/openjiuwen_fs_rwlock_patch.py:79-128 | with the condition free, a task can ask for the lock if and only if it is open, and close it if and only if moreover nobody is inside |
| `TaskAffineAdmission.AcquisitionSucceeds` | jiuwenswarm/openjiuwen_fs_rwlock_patch.py:79-106 | nobody in the way, a task gets from outside to inside in four steps of its own, and whoever was inside stays inside |
| `TaskAffineAdmission.SleeperGetsIn` | jiuwenswarm/openjiuwen_fs_rwlock_patch.py:84-106 | so does a notified sleeper, if nobody is in the way when it wakes |
| `TaskAffineAdmission.WithdrawalSucceeds` | jiuwenswarm/openjiuwen_fs_rwlock_patch.py:53-77 | a time-out or a cancellation takes a pending task out in its own steps, wherever it is, without a hold and with the condition given back |
| `TaskAffineAdmission.ExitSucceeds` | jiuwenswarm/openjiuwen_fs_rwlock_patch.py:87-118 | a body that ends gives the hold and the condition back in three steps |
| `TaskAffineAdmission.CloserEnds` | jiuwenswarm/openjiuwen_fs_rwlock_patch.py:120-128 | closing ends with the lock closed, or open if closing the file failed |
| `TaskAffineAdmission.TwoReadersRun` | jiuwenswarm/openjiuwen_fs_rwlock_patch.py:79-86 | a run with two readers inside at the same time |
| `TaskAffineLockProofs.PollerNotSelfBlocked` | jiuwenswarm/openjiuwen_fs_rwlock_patch.py:63-86 | a task polling under the condition is never blocked by a hold of its own process; once other processes are out of the way it can take the file lock, enter and give the condition back |
| `TaskAffineLockProofs.EntryIsExclusive` | jiuwenswarm/openjiuwen_fs_rwlock_patch.py:97-106 | while a task polls there is no active writer, and if it polls for writing nobody is inside or releasing |
| `TaskAffineLockProofs.KeepsCounts` | jiuwenswarm/openjiuwen_fs_rwlock_patch.py:82-109 | `readers` and `writers_waiting` keep counting tasks after time-out, cancellation and waking on a closed lock |
| `TaskAffineLockProofs.KeepsNoLostWakeup` | jiuwenswarm/openjiuwen_fs_rwlock_patch.py:84-118 | a task that sleeps without a pending notification has a false predicate, unless an exit that will notify is under way |
| `TaskAffineLockProofs.KeepsFileExclusive` | jiuwenswarm/openjiuwen_fs_rwlock_patch.py:63-77 | readers-writer exclusion on the file between this process's tasks and other processes is kept |
| `TaskAffineLockProofs.DeadlockFree` | jiuwenswarm/openjiuwen_fs_rwlock_patch.py:53-128 | with no foreign hold, while some task is not outside, some task can step without a time-out or a cancellation |
| `TaskAffineLockProofs.PotentialDrops` | jiuwenswarm/openjiuwen_fs_rwlock_patch.py:53-118 | every such step lowers a natural-number potential, re-tests of woken tasks included |
| `TaskAffineLockProofs.ProductiveRunsDrain` | jiuwenswarm/openjiuwen_fs_rwlock_patch.py:53-128 | runs of such steps are bounded by the potential of their first state, and one that can go no further has every task outside |
| `ParseCache.HitIsCurrent` | jiuwenswarm/common/config.py:235-241 | unless a stamp misleads, a hit returns a parse of a version that was current between the start of the call and now, also when the entry is newer than its stamp or the stamp recurs |
| `ParseCache.StepKeepsInv` | jiuwenswarm/common/config.py:221-256 | every step of a reader or a writer keeps entries filed under a stamp no newer than their document, and every phase of every reader sound |
| `ParseCache.NeverStaleIff` | jiuwenswarm/common/config.py:200-256 | for every history of the file: in no interleaving of any readers is a stale document returned, if and only if no stamp of the history misleads |
| `ParseCache.MisleadingStampServesStale` | jiuwenswarm/common/config.py:235-250 | for every misleading stamp and every positive number of attempts, a run of two readers in which the second gets a document that was not current during its call |
| `ParseCache.NeverRecurSuffices` | jiuwenswarm/common/config.py:204-218 | stamps that never recur do not mislead, whatever the parser |
| `ParseCache.ReadsWereCurrent` | jiuwenswarm/common/config.py:200-256 | in every run whose stamps do not mislead every returned document is the parse of a version that was the file at some instant during that call |
| `ParseCache.FallThroughMeansNoAttempts` | jiuwenswarm/common/config.py:243-256 | in every run a call that has to read falls through to the final empty document if and only if `max_attempts` allows no attempt |
| `ParseAttempts.FailsIff` | jiuwenswarm/common/config.py:243-256 | counted over the steps of every run: a call opens the file at most `max_attempts` times, and fails if and only if an open found no file or as many parses failed as it has attempts; a call that parses a document returns |
| `ParseAttempts.RetriesWhileItMay` | jiuwenswarm/common/config.py:251-254 | after fewer failed parses than attempts, and no absent file, a call can open the file again |
| `ParseCache.ReusedStampServesStale` | jiuwenswarm/common/config.py:204-218 | two texts of one length under one stamp: a reader gets a document that was not current during its call |
| `ConfigTransactions.FileIsSerial` | jiuwenswarm/common/config.py:646-665 | in every state of every run the file is the fold of the committed mutators in lock order, one thread at most is in the critical section, and while none is, the temporary files left are those whose removal failed |
| `ConfigTransactions.HistoryIsLockOrder` | jiuwenswarm/common/config.py:632-643 | entry k of the history is of the thread of the k-th lock-file acquisition and there are no other entries; it only grows, and decided entries never change |
| `ConfigTransactions.StepContinues` | jiuwenswarm/common/config.py:632-665 | one step appends an entry exactly when it acquires the lock file and rewrites no decided entry |
| `ConfigTransactions.OnlyReplaceChangesFile` | jiuwenswarm/common/config.py:584-616 | only the rename changes the file, to the caller's mutator applied to it; time-outs, exceptions, None and failed dumps change nothing |
| `ConfigTransactions.ReturnsWhatIsInTheFile` | jiuwenswarm/common/config.py:657-665 | the value returned is the document in the file as the lock is dropped, if and only if the mutator did not edit the loaded document and return None |
| `ConfigResults.ResultFollows` | jiuwenswarm/common/config.py:646-665 | for every call in every run, as it drops the lock file: it has a value if and only if its entry is committed or its mutator returned None; a committed call returns the document now in the file, one whose mutator returned None the argument as left by it; and where loading, mutating or dumping failed the call raises and its entry is skipped |
| `ConfigResults.ResultIsReturned` | jiuwenswarm/common/config.py:632-665 | what the call returns is the result it had when it dropped the lock file |
| `ConfigResults.StartsIff` | jiuwenswarm/common/config.py:635-637 | a call can start if and only if its process has no other under way |
| `ConfigResults.TakesFileLockIff` | jiuwenswarm/common/config.py:638-643 | it can take the lock file if and only if no call of any process is in its critical section; and it may time out, leaving everything as it was |
| `ConfigResults.MayFail` | jiuwenswarm/common/config.py:578-601 | where loading, dumping and removing the temporary file can fail |
| `ConfigTransactions.EditThenNoneReturnsUnwritten` | jiuwenswarm/common/config.py:661-663 | for every mutator and file where it does, a run that returns a document other than the file's |
| `ConfigTransactions.EnsuringMutator` | jiuwenswarm/common/config.py:661-663 | such a mutator: it inserts an empty mapping and returns None |
| `ConfigTransactions.TempsLeft` | jiuwenswarm/common/config.py:591-601 | in every state the temporary files that exist are those of calls under way and those whose removal failed, and these are distinct |
| `ConfigTransactions.StepKeepsInv` | jiuwenswarm/common/config.py:604-665 | both locks, the temporary files, the history and the file's content stay in agreement at every step |
| `ConfigTransactions.RunKeepsInv` | jiuwenswarm/common/config.py:604-665 | the same in every reachable state |
| `ConfigTransactions.DeadlockFree` | jiuwenswarm/common/config.py:632-643 | while a call is under way some call can go on without a time-out or a failure |
| `ConfigTransactions.CallsEnd` | jiuwenswarm/common/config.py:632-665 | a stretch of a run is no longer than the steps left to the calls under way and nine for each call that starts, whatever fails; and where it can go no further without a time-out or a failure, no call is under way |
| `TemplateMerge.DeepMerge` | jiuwenswarm/common/config.py:3448-3522 | the loops, in any order of keys, give the declaratively defined merged document and count exactly the topmost missing paths, plus the user-only ones with prune |
| `TemplateMerge.MergeKeys` | jiuwenswarm/common/config.py:3491-3503 | the loop over the template's items does the visits one after the other |
| `TemplateMerge.PruneLoop` | jiuwenswarm/common/config.py:3505-3509 | the removal loop ends with the pruned merge and counts each removed path once |
| `TemplateMerge.VisitAllIs` | jiuwenswarm/common/config.py:3491-3503 | visiting keys in any order is one simultaneous merge over those keys, in document and in count |
| `TemplateMerge.MissingMeans` | jiuwenswarm/common/config.py:3490-3494 | a path is counted as an addition exactly if the template has it, the user has its parent as a mapping without it, and it lies within the depth limit of 32 |
| `TemplateMerge.UserValuesKept` | jiuwenswarm/common/config.py:3459-3466 | every user value stays at its path, with prune where the template has that path; only a mapping that meets a mapping may change, into a mapping |
| `TemplateMerge.ExactlyMissingAdded` | jiuwenswarm/common/config.py:3490-3494 | what the user lacked appears exactly at or below the missing paths, with the template's value |
| `TemplateMerge.AddedDownTo32` | jiuwenswarm/common/config.py:3445-3494 | a key that the template has and a mapping of the user lacks is added with its value if its path has at most 32 keys, and is not if it has more |
| `TemplateMerge.ExactlyExtraRemoved` | jiuwenswarm/common/config.py:3505-3509 | with prune, what the user had goes exactly at or below the paths that only the user has |
| `TemplateMerge.PrunedToTemplateKeys` | jiuwenswarm/common/config.py:3505-3509 | with prune every merged mapping has exactly the template's keys |
| `TemplateMerge.NoChangesMeansUnchanged` | jiuwenswarm/common/config.py:3481-3483 | the count is zero if and only if the document is unchanged |
| `TemplateMerge.MergeIsIdempotent` | jiuwenswarm/common/config.py:3448-3522 | a second merge changes nothing and counts zero, with and without prune |
| `TemplateMigration.MoveSubmodes` | jiuwenswarm/common/config.py:3529-3554 | the loop over the legacy sub-modes sets the flat memory switch to the conjunction of their switches, unless one is set or none exists |
| `TemplateMigration.MigrateFromTemplate` | jiuwenswarm/common/config.py:3577-3659 | the outcome and the file after a run, including absent files, AgentOS, non-mapping documents and an empty result |
| `TemplateMigration.FlatSwitchMeans` | jiuwenswarm/common/config.py:3537-3554 | after the sub-mode move the flat switch is the user's own one, else the conjunction of the legacy switches if there is any, else absent |
| `TemplateMigration.SubmodesLeaveRest` | jiuwenswarm/common/config.py:3529-3554 | the sub-mode move changes no path beside the flat switch and a memory node that was no mapping |
| `TemplateMigration.KvcSwitchMoves` | jiuwenswarm/common/config.py:3562-3574 | after the KVC move the application-level switch is the user's own one, else that of the ReAct-level node |
| `TemplateMigration.KvcNodeMoves` | jiuwenswarm/common/config.py:3562-3574 | an application-level node keeps its entries and gains at most the switch; without one the whole ReAct-level node moves up |
| `TemplateMigration.KvcLeavesRest` | jiuwenswarm/common/config.py:3557-3574 | the KVC move changes no path beside the two nodes |
| `TemplateMigration.MigrationKeepsUserValues` | jiuwenswarm/common/config.py:3583-3601 | without prune a run keeps every user value, at every path apart from the moved settings and the version label; only a mapping that the template has too may gain keys |
| `MigrationMeaning.MovedSwitchIs` | jiuwenswarm/common/config.py:3526-3554 | without a flat switch and with a legacy one, the moved switch is a Boolean, false if and only if one of the four legacy switches is null, false, zero or empty |
| `MigrationMeaning.WrittenSwitchIs` | jiuwenswarm/common/config.py:3526-3656 | the same switch stands in the file after any run that writes it |
| `MigrationMeaning.MovedCacheSwitchIs` | jiuwenswarm/common/config.py:3557-3574 | the same for the cache-affinity switch, by its path in the file |
| `MigrationMeaning.ReactNodeStays` | jiuwenswarm/common/config.py:3559-3562 | the ReAct node stays and, if a mapping, loses that key only |
| `MigrationMeaning.CacheNodeStays` | jiuwenswarm/common/config.py:3563-3574 | with a mapping in neither place the application-level key keeps what it has |
| `MigrationMeaning.RunOnOddFile` | jiuwenswarm/common/config.py:3616-3631 | a missing file stays missing, a document that is neither empty nor a mapping raises, and an empty one counts as a mapping |
| `MigrationMeaning.RunWritesIff` | jiuwenswarm/common/config.py:3638-3659 | a run writes if and only if the merge is not empty and changed the moved document or the label is not the current one; and a written file has the label |
| `TemplateMigration.KvcMovedIsClean` | jiuwenswarm/common/config.py:3557-3574 | the ReAct-level KVC node is gone after the move |
| `TemplateMigration.SubmodesMovedSettled` | jiuwenswarm/common/config.py:3545-3554 | after the move a document with a legacy switch has a flat one |
| `TemplateMigration.SecondRunFindsNothingMissing` | jiuwenswarm/common/config.py:3626-3640 | for templates without the legacy nodes, the moves of a second run leave the written document complete |
| `TemplateMigration.SecondRunDoesNothing` | jiuwenswarm/common/config.py:3577-3659 | for templates without the legacy nodes, a second run returns False and leaves the file as it is, for every starting file |
| `TemplateMigration.LegacyKvcNeverSettles` | jiuwenswarm/common/config.py:3557-3574 | a template with a ReAct-level KVC node makes a second run write again |
| `TemplateMigration.LegacySwitchNeverSettles` | jiuwenswarm/common/config.py:3529-3554 | so does one with a legacy memory switch beside a flat memory node with further keys |
| `TemplateMigration.SettlesIff` | jiuwenswarm/common/config.py:3577-3659 | one run settles every file for every version label if and only if the template ships neither |
| `PruneMigration.PruneSettlesIff` | jiuwenswarm/common/config.py:3577-3659 | with prune, one run settles every file for every version label if and only if the template is empty, or has a version key, neither legacy node, and room for the flat memory switch wherever it has room for a legacy one |
| `PruneMigration.SecondPruneDoesNothing` | jiuwenswarm/common/config.py:3577-3659 | for such templates a second pruning run returns False and leaves the file as it is, for every starting file |
| `PruneMigration.LabelIsPrunedForever` | jiuwenswarm/common/config.py:3650-3656 | with a template that is not empty and has no version key, every pruning run writes every document again |
| `PruneMigration.PrunedSwitchNeverSettles` | jiuwenswarm/common/config.py:3529-3554 | with a template that keeps a legacy switch but prunes the flat one, some file is written by two runs in a row |
| `PruneMigration.RulesOutMeans` | jiuwenswarm/common/config.py:3505-3509 | a path of a document passes through one that only the document has, if and only if the template has a mapping on the way that lacks the next key |
| `TemplateMigration.PendingIff` | jiuwenswarm/common/config.py:3529-3574 | the moves change a document exactly if it has a ReAct-level KVC node, or legacy sub-mode switches and no flat one |
| `TemplateMigration.MoveReachesFileIff` | jiuwenswarm/common/config.py:3635-3659 | for every document with a pending move: the file afterwards has the moved settings, and no ReAct-level node but the template's, if and only if the moved document lacks something of the template or the label differs; otherwise the run returns False and the file is as before |
| `TemplateMigration.PendingMoveMayBeLost` | jiuwenswarm/common/config.py:3654-3659 | a document whose ReAct-level switch stays in the file, with nothing reported |
| `DefaultModels.InferIsDefault` | jiuwenswarm/common/config.py:1570-1616 | the grouped loops give every entry the flag defined by the first explicit True of its group, or its first member |
| `DefaultModels.GroupByName` | jiuwenswarm/common/config.py:1583-1591 | each group lists exactly the indices of its name, in order, and every mapping entry is in one |
| `DefaultModels.MarkGroup` | jiuwenswarm/common/config.py:1593-1614 | one turn of the group loop marks exactly that group's entries |
| `DefaultModels.HasExplicit` | jiuwenswarm/common/config.py:1598-1602 | the search finds an explicit True exactly when the group has one |
| `DefaultModels.OneDefaultPerGroup` | jiuwenswarm/common/config.py:1573-1577 | every group has exactly one True afterwards, at its first explicit True if any, else at its first member, and False elsewhere |
| `DefaultModels.OnlyFlagsChange` | jiuwenswarm/common/config.py:1581-1616 | length, order, names, all other fields and entries that are no mappings stay |
| `DefaultModels.InferenceIsIdempotent` | jiuwenswarm/common/config.py:1570-1616 | a second inference changes nothing |
| `LogWriter.BackgroundLogWriter.constructor` | jiuwenswarm/common/background_logging.py:21-34 | a new writer is empty and not stopping |
| `LogWriter.BackgroundLogWriter.Wrap` | jiuwenswarm/common/background_logging.py:41-45 | the targets are registered, each with one more owner, and none stays retired |
| `LogWriter.BackgroundLogWriter.Submit` | jiuwenswarm/common/background_logging.py:50-58 | a record is refused after the stop, counted as dropped when the queue is full, and queued last otherwise |
| `LogWriter.BackgroundLogWriter.Retire` | jiuwenswarm/common/background_logging.py:60-68 | each handler loses an owner, and losing the last one retires it |
| `LogWriter.BackgroundLogWriter.Stop` | jiuwenswarm/common/background_logging.py:70-74 | stopping is set and nothing else changes |
| `LogWriter.BackgroundLogWriter.TakeRetired` | jiuwenswarm/common/background_logging.py:129-133 | the retired handlers are handed out and unregistered |
| `LogWriter.AddOwnersCounts` | jiuwenswarm/common/background_logging.py:41-45 | wrapping adds to each handler's owners its multiplicity among the targets |
| `LogWriter.RetiredCounts` | jiuwenswarm/common/background_logging.py:60-68 | retiring subtracts the multiplicity and retires exactly the handlers that reach zero |
| `LogWriterRuns.StepKeepsRecords` | jiuwenswarm/common/background_logging.py:50-99 | every step keeps first-in-first-out delivery, the fates of records, the drop count and the capacity |
| `LogWriterRuns.RecordsAreConserved` | jiuwenswarm/common/background_logging.py:50-99 | in every run each submitted record is exactly one of rejected, dropped and accepted; accepted is delivered, in flight and queued in this order; the queue keeps its capacity; once the loop ends all accepted records are delivered |
| `LogWriterOutcomes.SubmissionIs` | jiuwenswarm/common/background_logging.py:50-58 | for every submission in every run: rejected if and only if stopping, dropped and counted if and only if not stopping and a bounded queue is at its capacity, else accepted and queued last |
| `LogWriterOutcomes.StopIsFinal` | jiuwenswarm/common/background_logging.py:70-72 | after a stop every submission is rejected |
| `LogWriterOutcomes.DeliveryReportsDrops` | jiuwenswarm/common/background_logging.py:84-92 | with every delivery all drops so far are reported, by one report if there are new ones |
| `LogWriterOutcomes.IdleThreadSweeps` | jiuwenswarm/common/background_logging.py:79-96 | when the thread finds the queue empty, the next thing it does is to take all retired handlers |
| `LogWriterOutcomes.EndClosesEverything` | jiuwenswarm/common/background_logging.py:97-99 | what is registered at the end of the loop, and not wrapped again, is taken for closing by the last sweep |
| `LogWriterOutcomes.WrapRegisters` | jiuwenswarm/common/background_logging.py:36-48 | wrapping registers each target, adds its owners and takes it out of the retired ones |
| `LogWriterOutcomes.LastCloseRetires` | jiuwenswarm/common/background_logging.py:60-68 | closing a proxy retires exactly the handlers that no other live proxy holds |
| `LogWriterRuns.DrainLoopEnds` | jiuwenswarm/common/background_logging.py:70-99 | after the stop the drain thread takes at most six steps per queued record and seven more, whatever its callers do; it can step until it has ended, and then every accepted record is delivered |
| `LogWriterRuns.StepKeepsHandlers` | jiuwenswarm/common/background_logging.py:36-68 | every step keeps owner counts equal to live proxies and registrations equal to closings plus one while registered |
| `LogWriterRuns.OwnershipIsCounted` | jiuwenswarm/common/background_logging.py:36-68 | in every run owners equal the live proxies holding the handler; before final shutdown the registered handlers are the disjoint union of owned and retired ones; a handler is taken for closing at most once per registration |
| `LogWriterRuns.SweepTakesUnowned` | jiuwenswarm/common/background_logging.py:129-139 | until final shutdown only handlers without a live proxy are taken for closing |
| `BackgroundWork.StepKeepsInv` | jiuwenswarm/common/background_work.py:35-63 | every step keeps free slots plus holders equal to `max_workers` and one release per finished submission, except an interrupted start, which always breaks it |
| `BackgroundWork.RunKeepsInv` | jiuwenswarm/common/background_work.py:29-63 | the same in every reachable state |
| `BackgroundWork.BoundedAndReleasedOnce` | jiuwenswarm/common/background_work.py:29-63 | at most `max_workers` callbacks run at once and every slot is given back exactly once |
| `BackgroundWork.RejectionMeansUnfinishedWork` | jiuwenswarm/common/background_work.py:35-54 | `submit` rejects exactly when all slots are held, and no holder's future has a result or an exception |
| `BackgroundWork.SlotComesBackUnlessLost` | jiuwenswarm/common/background_work.py:35-63 | every held slot has a step that brings it closer to being given back, except one abandoned before the `try`, on whose behalf no step is possible |
| `BackgroundWork.FailedStartFreesSlot` | jiuwenswarm/common/background_work.py:55-62 | when no thread starts, the caller gets an exception and the slot is free again |
| `BackgroundWork.AbandonKeepsSlot` | jiuwenswarm/common/background_work.py:37-55 | when `submit` is interrupted before the `try`, the caller gets an exception and the slot stays taken |
| `BackgroundWork.FutureCarriesFinish` | jiuwenswarm/common/background_work.py:46-53 | in every run a future carries the result or the exception of its own callback, which ended exactly once |
| `BackgroundWork.CancelledNeverRuns` | jiuwenswarm/common/background_work.py:42-45 | in every run a cancelled future stays cancelled and its callback never runs |
| `BackgroundWork.LostSlotStaysLost` | jiuwenswarm/common/background_work.py:37-55 | an abandoned slot is held in every later state of every run |
| `BackgroundWork.LostPoolRejects` | jiuwenswarm/common/background_work.py:37-55 | a pool of one that lost its slot rejects every later submission |
| `BackgroundWork.DoneMeansFreeIff` | jiuwenswarm/common/background_work.py:42-53 | for every run without an interrupted start: in all its states every future that is done has freed its slot, if and only if no future is cancelled in it |
| `BackgroundWork.DoneFutureHoldsSlotIff` | jiuwenswarm/common/background_work.py:42-53 | in every run a future that is done holds its slot if and only if it was cancelled and its thread has not given the slot back |
| `BackgroundWork.CancelledFutureMayHoldSlot` | jiuwenswarm/common/background_work.py:42-45 | a run in which the only submission is cancelled, done, and still causes a rejection |
| `BackgroundWork.InterruptBreaksTheBound` | jiuwenswarm/common/background_work.py:55-62 | a run in which an interrupted start lets two callbacks run in a pool of one |
| `SseFraming.IterSseEvents` | local_api_server/server.py:648-657 | the pieces rejoin to the buffer, each event ends at the first separator after its start, and no separator is left over |
| `SseFraming.Frame` | local_api_server/server.py:648-657 | every stream has such a framing |
| `SseFraming.FramingIsUnique` | local_api_server/server.py:648-657 | it has only one |
| `SseFraming.FramingExtends` | local_api_server/server.py:933-936 | when a chunk arrives, framing the leftover with it extends the framing of all bytes before |
| `StreamAccumulator.StreamingResponseAccumulator.constructor` | local_api_server/server.py:304-307 | nothing accumulated, nothing counted |
| `StreamAccumulator.StreamingResponseAccumulator.AddPayload` | local_api_server/server.py:309-378 | the new choices, event count and type counts, in terms of the old ones and the payload |
| `StreamAccumulator.MergeTools` | local_api_server/server.py:347-376 | the loop over one `tool_calls` list absorbs its deltas in order |
| `StreamAccumulator.AccumulationReconstructs` | local_api_server/server.py:309-378 | for every series of deltas, each choice's texts, tool names and tool arguments are the in-order concatenation of what is addressed to it, role, type and id are the latest ones, and no other choice or tool exists |
| `StreamAccumulator.ChoiceIsLocal` | local_api_server/server.py:318-378 | what becomes of a choice depends on its own state and its own deltas only |
| `StreamAccumulator.DisjointPayloadsCommute` | local_api_server/server.py:318-378 | adjacent payloads without a common choice index commute |
| `StreamAccumulator.StreamingResponseAccumulator.Messages` | local_api_server/server.py:380-408 | one message per choice, in index order, with tool calls in index order |
| `StreamReconstruction.Feed` | local_api_server/server.py:938-940 | decoding and adding one more piece accumulates that piece |
| `StreamReconstruction.FeedAll` | local_api_server/server.py:937-940 | so does the loop over the events of a chunk |
| `StreamReconstruction.StreamSse` | local_api_server/server.py:930-953 | for every way of cutting a stream into chunks, events, leftover and messages are those of framing the whole stream once |
| `StreamReconstruction.RenderSays` | local_api_server/server.py:380-408 | a rendered message states exactly what its choice's deltas say |
| `StreamReconstruction.MessagesSayTheDeltas` | local_api_server/server.py:380-408 | the messages are, in index order, the in-order concatenations per choice and per tool of the deltas |
| `Layering.ParentChainIsDottedPrefixes` | scripts/check_layering.py:234-236 | the parent chain is exactly the modules whose name and a dot start the module's name |
| `Layering.Build` | scripts/check_layering.py:238-250 | hard edges gain exactly the parent packages, and full edges are hard, lazy and parents |
| `Layering.Closure` | scripts/check_layering.py:311-320 | the work list ends, with exactly the roots and the modules reachable from them, on any graph |
| `Layering.ClosureHoldsParents` | scripts/check_layering.py:238-250 | a closure contains every parent package of each module in it |
| `Layering.FullClosureContainsHard` | scripts/check_layering.py:242-250 | the closure along full edges contains the one along hard edges |
| `Layering.CollectViolations` | scripts/check_layering.py:343-361 | the pairs collected are exactly the forbidden, non-exempt imports of modules under the rule |
| `Layering.TargetsAgainst` | scripts/check_layering.py:347-361 | the inner loop keeps exactly the forbidden, non-exempt targets |
| `Layering.CheckRule` | scripts/check_layering.py:335-385 | 1 if and only if some forbidden, non-exempt import is outside the known list |
| `LayeringNames.NewViolationMeans` | scripts/check_layering.py:343-366 | what the check looks for, by components of names: a module with one of the prefixes imports, at module level or lazily, a name within a forbidden package, bare or under the project's own, that is within none of the seven exempt ones and not known |
| `LayeringNames.WithinMeans` | scripts/check_layering.py:349-358 | a name is within a package if and only if its components begin with those of the package |
| `LayeringNames.ForbiddenMeans` | scripts/check_layering.py:356-360 | a rule forbids its packages in the top-level form and under the project's own name |
| `LayeringNames.ExemptMeans` | scripts/check_layering.py:92-100 | the seven exempt packages, by components |
| `Layering.RunRules` | scripts/check_layering.py:388-408 | 1 if and only if one of the rules has such an import |
| `ArtifactDownload.DownloadWheel` | jiuwenswarm/common/external_cli_runtime.py:881-968 | for every sequence of attempt outcomes: the turns taken, the URL each requests (the mirror's on the first source if there is one), the outcome and the wheel file; success only with a matching checksum; and, when it raises, exactly when no file is left, by the last turn's error and by what was written |
| `ArtifactDownload.ScheduleIsSound` | jiuwenswarm/common/external_cli_runtime.py:889-939 | at most five attempts per source, sources in mirror-then-origin order, a source used again only after a retryable failure |
| `ArtifactDownload.ScheduleIsUnique` | jiuwenswarm/common/external_cli_runtime.py:889-939 | the outcomes determine the turns |
| `ArtifactDownload.NextTurnIs` | jiuwenswarm/common/external_cli_runtime.py:889-939 | the same source is tried again exactly after a transport error or a status of 408, 425, 429 or from 500 on, up to the fifth attempt; the next one after these or any other status or a wrong digest; and nothing follows otherwise |
| `ArtifactDownload.OutcomeIs` | jiuwenswarm/common/external_cli_runtime.py:924-967 | the outcome, by what the last transfer did |
| `ArtifactDownload.TurnsInOrder` | jiuwenswarm/common/external_cli_runtime.py:891-892 | attempts on one source are consecutive, each but the last retryable |
| `ArtifactDownload.TurnsInRange` | jiuwenswarm/common/external_cli_runtime.py:889-892 | every turn is on a configured source, with an attempt number from one to five |
| `ArtifactDownload.UnreadableWheelStays` | jiuwenswarm/common/external_cli_runtime.py:1073-1081 | a plan whose only turn ends in the read error, after which the downloaded file is still there |
| `ArtifactDownload.UncaughtErrorKeepsWheel` | jiuwenswarm/common/external_cli_runtime.py:912-940 | a plan whose only turn ends in an exception no handler catches: a partial file stays, and without one the file from before the call |
| `ArtifactDownload.UnremovableWheelStays` | jiuwenswarm/common/external_cli_runtime.py:934-937 | a plan whose only turn ends in a checksum mismatch with a file that cannot be removed |
| `NameTruncation.SanitizeIsLongestFit` | jiuwenswarm/common/coding_memory_paths.py:31-40 | for every name, the result is the cleaned name or its longest fitting prefix without surrogates; it is the longest fit if and only if nothing was cut or the kept part has no surrogate |
| `NameTruncation.SanitizeWithoutSurrogates` | jiuwenswarm/common/coding_memory_paths.py:31-40 | without surrogates the result is the longest whole-character prefix that fits in 80 bytes, free of forbidden characters |
| `NameTruncation.CutDropsFittingSurrogate` | jiuwenswarm/common/coding_memory_paths.py:35-40 | long names that begin with a surrogate, for which the result is not the longest prefix that fits |
| `NameTruncation.DecodeCut` | jiuwenswarm/common/coding_memory_paths.py:35-40 | cutting the encoding anywhere and decoding loses only the split last character and the surrogates |
| `NameTruncation.RoundTrip` | jiuwenswarm/common/coding_memory_paths.py:35-40 | encoding and decoding give the text back if and only if it has no surrogate |
| `NameTruncation.LongestFitIsLongest` | jiuwenswarm/common/coding_memory_paths.py:36-40 | the longest fitting prefix is one, and every longer prefix exceeds the limit |
| `NameTruncation.LongestFitIsUnique` | jiuwenswarm/common/coding_memory_paths.py:36-40 | there is only one longest fitting prefix |
| `NameTruncation.CleanIsTrimmed` | jiuwenswarm/common/coding_memory_paths.py:33-34 | the cleaned name is one piece of the substituted name; only white space is cut in front, only dots and blanks and then white space behind, and nothing more could be cut |
| `NameTruncation.SubstituteMeans` | jiuwenswarm/common/coding_memory_paths.py:18-33 | exactly the control characters and the nine reserved ones are replaced, each by an underscore |
| `NameTruncation.CleanKeeps` | jiuwenswarm/common/coding_memory_paths.py:33-34 | the cleaned name holds no forbidden character and no character but those of the name and the underscore |

## Left out

- The lock assumes at most one hold per task, a release that succeeds and exits that are not cancelled; fairness between waiting tasks is not claimed. A task that waits to acquire the condition itself is still outside, as its call has had no effect.
- The parse cache assumes that a replacement is atomic; a text that cannot be decoded, which raises at once, is outside; it models one file, and documents are values, so the deep copies that keep callers apart do not appear.
- Transactions: configuration writers that load and dump without the lock, and the non-atomic `set_config`, are outside; so are crashes of a process. A call that times out on the thread lock has no effect and is no action. A new temporary name is not in use. Retries of the rename are one step.
- TemplateMerge.DeepMerge: works on values rather than updating a tree in place, so key order, comments, aliasing (through YAML anchors, or with the template) and the log of pruned paths are not modelled; keys are strings.
- TemplateMigration.MigrateFromTemplate: runs under the write lock as one step; the template is loaded once and is a value.
- DefaultModels.InferIsDefault: an entry is its model name, its flag and the rest; a `model_client_config` that is no mapping, or a name that cannot be a dictionary key, is outside.
- Log writer: sink failures, levels, contexts and the joining of the thread are left out; wrapping a logger and creating its proxy is one step, and so is closing a proxy. It is not claimed that no record is emitted to a closed handler: a submit and a retire between the time-out of the queue and the sweep break that.
- Bounded background work: contexts, thread names and the wording of errors.
- Streamed responses: decoding an event to a payload is a parameter, usage extraction and forwarding of chunks are left out, a finish reason is a text, and an index for which `int()` raises an overflow is outside.
- Layering: parsing sources and resolving imports into edges is not part of the model; the rules' tables of known imports are parameters; reporting is left out.
- Artifact download: transfer, progress reports, back-off delays and hashing are parameters or left out; the expected digest is taken in lower case.
- NameTruncation.SanitizeIsLongestFit: the result may end in a dot or blank that the cut uncovered; the code does not strip again and nothing is claimed. The hash suffix and path normalisation are left out. Malformed bytes are dropped one by one, which gives the same text as dropping them in groups.
- Launching, ports, signals, HTTP, WebSocket and SDK calls, and the many one-key getters and setters of the configuration: single-branch code around the operations above.
