# Lightroom Sync: a verified model

Lightroom Sync keeps Lightroom presets and catalogs in step between machines that share one
network folder. This project models its agent in Dafny 4.11 and proves what its parts guarantee.
`dafny verify dfyconfig.toml` checks all of it.

The centre is the two-way preset synchroniser. Each machine holds a local tree of presets and a
state file with the file time at which it last saw each path; the network holds a tree and a file of
tombstones. One cycle runs four loops: pull deletions, pull changes, push deletions, push changes.

* `PresetPaths` says which paths a scan lists. `PresetRules` gives the fate of one path in one cycle,
  with a flag for every file operation that may fail.
* `PresetSync` is the synchroniser itself: loops over maps in arbitrary order, errors, cancellation,
  counters and the commit rule, proved equal to the per-path rule for all paths at once.
* `PresetFacts` proves what one cycle guarantees for one path, each time with the exact condition.
  `PresetLaws` gives the outcome as a table without phases, and the laws of two cycles in a row.
* `PresetWorld` puts any number of machines around one network folder. Between cycles users edit, delete
  and select other categories, state files get lost, and somebody may delete on the network directly;
  cycles succeed, give up part-way or lose their tombstones. It proves what every run keeps, and what
  runs without failures keep in addition.
* `PresetConvergence` proves that after two successful cycles of every machine, in any order and from
  any reachable state, everybody has the network's paths at the network's times and nothing moves any
  more. `PresetContents` adds when the contents agree too, which no cycle compares.
* `PresetMishaps` is a family of concrete runs in which one failed cycle brings an old copy back.

Around it:

* `WatermarkTemplate`: rewriting logo paths in watermark templates, with the regular expression as an
  automaton. The rewriting of file contents is a parameter of the preset cycle.
* `Timestamps`, `Manifest`, `LockLine`: the timestamp format, the rule that compares timestamps as
  strings, and the lock line that is printed and parsed with the same format.
* `SyncWorker`, `CatalogOrchestrator`: the single worker with its pause gate, as interleaved atomic
  steps, and the orchestrator that remembers a manifest while Lightroom runs.
* `ZipLayout`, `CatalogRestore`, `ArchiveNames`: names in archives and wrapper folders, cleanup and
  restore of a catalog folder. `PathGlob` and `CatalogBackup`: discovery, with the folder's own path as
  part of the pattern, and the backup. `CatalogRoundTrip` says exactly when a backup brings the artifacts
  back, and `BackupLosses` has a folder for each way it does not. `ZipRetention`: the retention of zips.
* `NetworkHealth`, `LogBuffer`: the circuit breaker with its event trace, and the bounded log with
  cursor reads.

Assumptions. Cycles of different machines do not overlap (the code takes no lock on the share), and
edits fall between cycles: a file edited after the local scan of a running cycle could still be removed
by it, because the scanned time is compared (internal/sync/preset_sync.go:322, 386-392). File
times are integers in nanoseconds and copying preserves them. All machines use one tolerance. File
times may lie ahead of the common clock by a skew of at most the tolerance; where a result needs no
skew it says so. A file operation happens completely or not at all.

Where the code differs from what its documentation suggests:

* `.json` presets are listed by the network scan but not by the local one. A cycle that pulls one
  deletes it from the network at once (`JsonIsTakenOffTheNetwork`); when both sides agree about such a
  path is stated exactly in `JsonKeysAgreeIff`, and which paths the run theorems cover in `CommonIff`.
* A cycle that deletes on the network and then gives up, or cannot save its tombstones, leaves a
  deletion that nobody remembers. An old copy then returns to the network, and a machine that has seen
  the newer version keeps its own beside it, further apart in time than the tolerance
  (`OldCopyReturns`). `NoResurrection` and `SyncMakesMtimesAgree` give the exact conditions over all
  runs. Key sets agree in all cases.
* A backup that lies in one folder loses that folder when restored (`FolderIsLost`), an artifact whose
  extension is not in lower case is removed by a restore but was not backed up (`UpperCaseIsLost`), and
  one whose name has outer spaces comes back under another name (`SpaceIsLost`). A bracket in the path of
  the catalog folder makes discovery look elsewhere: nothing of the folder is backed up, without an error,
  and the restore still removes the catalog (`BracketIsLost`); a malformed one is an error.
  Instead the catalogs of folders beside it may be packed, when the bracket happens to mean them
  (`SiblingIsPacked`). Discovery looks at the top of the folder only, but the cleanup of a restore goes all
  the way down: an artifact in a folder of another name is removed and was not backed up (`NestedIsLost`).
  `BackupThenRestore` says that nothing else keeps the folder's own artifacts from coming back, and which
  backups do not restore at all.
* A backup announced while an earlier one is being restored is never restored
  (`AnnouncedDuringRestore`). Against a timestamp printed by the Python agent, string order repeats a
  restore in one case (`AcceptsPythonIff`, `PythonRepeats`).
* A zip cannot be extracted into the root folder (`SafeNamesStayWithin`).

## Model

| member | source | states |
|---|---|---|
| PresetRules.NoFailureMeansClean | internal/sync/preset_sync.go:250-255 | No fault is swallowed: a path that reports none went through the fault-free cycle, whatever operations were set to fail. |
| PresetRules.DeletedOnce | internal/sync/preset_sync.go:329-345 | A path whose local copy a pull deleted is forgotten, and one whose network copy a push deleted is not pushed: one deletion per path and cycle. |
| PresetRules.CountersShow | internal/sync/preset_sync.go:249-425 | A path is counted as pulled, pushed or deleted exactly when it got newer here, got newer on the network, or vanished, `.json` paths included. |
| PresetRules.AbortKeepsTombSound | internal/sync/preset_sync.go:358-360 | Cut in either phase, with any operations failing, a cycle leaves state and tombstone of the path as they were and keeps every tombstoned network copy newer than its tombstone by more than the tolerance. |
| PresetRules.CleanKeepsTombSound | internal/sync/preset_sync.go:386-399 | A successful cycle keeps the same rule. |
| PresetRules.NetworkChanges | internal/sync/preset_sync.go:337-423 | The network record of a shared path changes in two ways only: removed with a fresh tombstone, or replaced by a strictly newer local copy that outlives the tombstone, which is dropped. |
| PresetSync.PullDeleteOne | internal/sync/preset_sync.go:238-260 | The body of the first pull loop does to its path what the rule says, to no other path anything, and keeps the counters right. |
| PresetSync.PullOne | internal/sync/preset_sync.go:266-318 | The body of the second pull loop: pulled with the network's time if newer than the local copy, or than last seen when there is none; no other path changes. |
| PresetSync.PushDeleteOne | internal/sync/preset_sync.go:329-351 | The body of the first push loop: a remembered path without local file leaves the network with a tombstone and is forgotten; no other path changes. |
| PresetSync.PushOne | internal/sync/preset_sync.go:357-425 | The body of the second push loop: pushed, kept, or removed as a zombie when the tombstone is not outlived; no other path changes. |
| PresetSync.PushCopy | internal/sync/preset_sync.go:401-425 | Copying up writes the rewritten file on both sides with the local time, and what is left when it fails half-way. |
| PresetSync.PullDeletions | internal/sync/preset_sync.go:236-263 | The loop, in any order over the state file, applies the rule to every path and to each once. |
| PresetSync.PullAdditions | internal/sync/preset_sync.go:265-319 | The loop over the network listing, in any order; cut by cancellation, each path is either done or untouched. |
| PresetSync.PushDeletions | internal/sync/preset_sync.go:327-354 | The loop over the new state, in any order, applies the rule to every path and to each once. |
| PresetSync.PushAdditions | internal/sync/preset_sync.go:356-426 | The loop over the local listing, in any order; cut by cancellation, each path is either done or untouched. |
| PresetSync.PullPass | internal/sync/preset_sync.go:236-319 | Both pull loops together compute the pull phases of every path. |
| PresetSync.PushPass | internal/sync/preset_sync.go:321-426 | Both push loops together complete the cycle of every path. |
| PresetSync.CleanReplicaAt | internal/sync/preset_sync.go:236-426 | The reference cycle on whole trees acts on each path by the per-path rule, and on paths nobody mentions not at all. |
| PresetSync.PresetSyncManager.constructor | internal/sync/preset_sync.go:153-177 | A tolerance that is not positive becomes two seconds, and the local scan lists no more than the network scan. |
| PresetSync.SummaryCountsChanges | internal/sync/preset_sync.go:53-59 | The sets behind the summary are exactly the paths that appeared or got newer locally, on the network, and that vanished. |
| PresetSync.PresetSyncManager.Sync | internal/sync/preset_sync.go:180-443 | Success means exactly the fault-free cycle on every path, whatever the iteration order, and under the tombstone rule the counters are the numbers of paths that got newer here, got newer on the network, and vanished; failure leaves both record files as they were and every path somewhere along its way; without trouble it succeeds; tombstones that cannot be saved are lost silently. |
| PresetFacts.KeysAgreeIff | internal/sync/preset_sync.go:366-397 | After a cycle both sides have the path or neither, except exactly when a push over an older network copy is blocked by a tombstone; the tombstone rule excludes that. |
| PresetFacts.MtimesAgreeIff | internal/sync/preset_sync.go:276-373 | The two copies are within the tolerance after a cycle exactly unless the machine remembers a later version than the network holds and its copy is no later than that. |
| PresetFacts.UnreadTombstones | internal/sync/preset_sync.go:229-233 | A cycle that goes on without an unreadable tombstone file keeps the tombstone rule, for all paths at once, exactly if it replaces the file or no tombstone was holding back its copy. |
| PresetFacts.JsonKeysAgreeIff | internal/sync/preset_sync.go:634-640 | For `.json` paths, the exact condition under which both sides agree after a cycle. |
| PresetFacts.JsonIsTakenOffTheNetwork | internal/sync/preset_sync.go:321-344 | A `.json` file new on the network is pulled and removed from the network by the same cycle. |
| PresetFacts.Idempotent | internal/sync/preset_sync.go:369-373 | A second cycle, at any time and with any logo files, changes nothing and counts nothing, also for untracked paths within the tolerance. |
| PresetFacts.Untouched | internal/sync/preset_sync.go:804-811 | Paths of categories that are not selected keep files and records. |
| PresetFacts.LastWriterWins | internal/sync/preset_sync.go:275-285 | Copies further apart than the tolerance: the newer one ends up on both sides. |
| PresetFacts.LocalDeletion | internal/sync/preset_sync.go:279-285 | A path deleted here goes from the network with a tombstone, or comes back, exactly by whether the network copy is more than the tolerance newer than last seen. |
| PresetFacts.NetworkDeletion | internal/sync/preset_sync.go:386-399 | A path deleted elsewhere goes here, or returns to the network, exactly by whether the local copy is more than the tolerance newer than the tombstone. |
| PresetFacts.Bookkeeping | internal/sync/preset_sync.go:423-425 | Remembered paths exist on both sides, and no shared path is counted twice. |
| PresetLaws.CleanIsSettled | internal/sync/preset_sync.go:236-426 | The four phases settle every path that both scans see by one table over copies and records: which file each side then holds, with which contents and time, and what is remembered. |
| PresetLaws.JsonIsSettled | internal/sync/preset_sync.go:321-344 | The same for `.json` paths, which the local scan does not list. |
| PresetLaws.UnlistedIsForgotten | internal/sync/preset_sync.go:236-260 | A path in a selected category that no scan lists loses its record, and its local copy exactly if that is the one last seen. |
| PresetLaws.CopiesAreRemembered | internal/sync/preset_sync.go:316 | After a cycle that pulled or pushed a path both copies have one time and that time is remembered, whatever was remembered before. |
| PresetLaws.ErasedAfterCopyIsDeleted | internal/sync/preset_sync.go:321-345 | A preset that one cycle copied and the user then erased is taken off the network by the next one, with a tombstone. |
| PresetLaws.EditedAfterCopyIsPushed | internal/sync/preset_sync.go:366-425 | A preset that one cycle copied and the user then edited is pushed by the next one, past any tombstone. |
| PresetLaws.RemovedAfterCopyIsRemoved | internal/sync/preset_sync.go:238-260 | A preset that one cycle copied and somebody then took off the network goes here too, without a tombstone. |
| PresetLaws.FirstPull | internal/sync/preset_sync.go:279-318 | A file first seen on the network comes here with the contents that pulling makes of it, and stays there as it is. |
| PresetLaws.FirstPush | internal/sync/preset_sync.go:401-425 | A file first seen here goes to the network with the contents that pushing makes of it, and these are written back here. |
| PresetLaws.FailuresLeaveFiles | internal/sync/preset_sync.go:250-258 | Whichever operation of a phase fails, its file stays as it was. |
| PresetPaths.LogosAreUnseen | internal/sync/preset_sync.go:622-628 | Neither scan sees anything below a folder `Logos`, however deep. |
| PresetPaths.SeenByExtension | internal/sync/preset_sync.go:634-640 | By its extension in any case a file is unseen (`tmp`, `lock`), seen by the network scan alone (`json`), or by both scans or none. |
| PresetPaths.CategoryDecides | internal/sync/preset_sync.go:804-811 | A path is tracked exactly if its first folder, in any case, is a selected category. |
| PresetWorld.OutcomesAreSteps | internal/sync/preset_sync.go:180-443 | Everything `Sync` may leave behind, on one machine and the network, is one of the three kinds of cycle steps of a run, with the phase in which it was cut, and each such step is an outcome that the contract of `Sync` allows. |
| PresetWorld.CycleKeepsBound | internal/sync/preset_sync.go:704-728 | Copies keep their times: no phase of a cycle, finished or not, makes a file time that was not there. |
| PresetWorld.SoundOverRuns | internal/sync/preset_sync.go:386-399 | Every world of every run keeps the tombstone rule and the clock bound, under any edits, deletions, changes of categories, lost state files, failures and cuts. |
| PresetWorld.SyncMakesKeysAgree | internal/sync/preset_sync.go:180-443 | In every run, after anything that went before including failed cycles, a successful cycle leaves its machine and the network with the same shared paths. |
| PresetWorld.CleanVersion | internal/sync/preset_sync.go:337-343 | One cycle never lowers the version of a path: network time, or tombstone time when deleted. |
| PresetWorld.VersionOverRuns | internal/sync/preset_sync.go:366-399 | Over every run without failures the version never falls and no machine remembers a later one. |
| PresetWorld.SyncMakesMtimesAgree | internal/sync/preset_sync.go:276-285 | In every run, failures included, a cycle brings both copies within the tolerance exactly unless its machine remembers a version later than the network's; in a run without failures none does. |
| PresetWorld.SyncResolvesConflicts | internal/sync/preset_sync.go:369-399 | In such runs the newer copy wins, and an edit later than a deletion survives it in both directions, an earlier one does not. |
| PresetWorld.NoResurrection | internal/sync/preset_sync.go:386-399 | In every run, failures included: after a deletion tombstoned at a time, nothing as old as it is ever on the network again, exactly as long as no step takes the path off the network without leaving a tombstone from that time or later. |
| PresetWorld.OrderlyStepsRemember | internal/sync/preset_sync.go:428-439 | Only a cycle that removes the file and then gives up or cannot save its tombstones, and somebody removing it by hand, is such a step. |
| PresetWorld.NoResurrectionWhileOrderly | internal/sync/preset_sync.go:337-345 | So it never comes back while no cycle fails, whichever machine pushes and whether or not it tracked the path. |
| PresetMishaps.OldCopyReturns | internal/sync/preset_sync.go:428-430 | Runs of ten steps with one failed cycle: from a tombstoned deletion to a copy as old as it back on the network, and to a machine whose copy stays further from the network's than the tolerance although its cycle succeeded. |
| PresetMishaps.ExampleFits | internal/sync/preset_sync.go:634-640 | One such run spelled out, for the preset `presets/a.xmp`. |
| PresetConvergence.CommonIff | internal/sync/preset_sync.go:634-640 | Whatever categories the machines have selected, the convergence theorems cover exactly the paths that scans list and that are not `.json`, and those in no selected category. |
| PresetConvergence.TakeCalm | internal/sync/preset_sync.go:366-373 | After its cycle a machine has nothing to write, and cycles of others do not change that unless the path is dead for all. |
| PresetConvergence.NetworkSettles | internal/sync/preset_sync.go:327-426 | Once every machine has synced, no further cycle writes the network or the tombstones. |
| PresetConvergence.Convergence | internal/sync/preset_sync.go:180-443 | Once every machine has synced twice, in any order, each has the network's paths, at its times up to the tolerance, and no further cycle changes any file or record. |
| PresetConvergence.ConvergenceAfterRun | internal/sync/preset_sync.go:180-443 | The same from any world of any run, with file times within the tolerance if the run had no failures. |
| PresetContents.CopiesAreOriginals | internal/sync/preset_sync.go:704-728 | In every run, failures included, each copy of a path that is copied verbatim is a file somebody made, with its time. |
| PresetContents.ContentsConverge | internal/sync/preset_sync.go:276-425 | After a run without failures and two cycles of everybody both copies of such a path are the same, contents included, if its versions lie further apart than the tolerance. |
| WatermarkTemplate.StableRun | internal/sync/preset_sync.go:39 | Whether a begun match of the image path pattern succeeds does not depend on what later images say. |
| WatermarkTemplate.Retokenize | internal/sync/preset_sync.go:39 | Replacing images by images keeps all other text and every match where it was. |
| WatermarkTemplate.RewriteLoop | internal/sync/preset_sync.go:464-500 | The replacement loop computes the rewriting of all matches. |
| WatermarkTemplate.RewriteKeepsText | internal/sync/preset_sync.go:543-571 | A rewritten template, read again, has the old text and exactly the rewritten images. |
| WatermarkTemplate.UnescapeEscape | internal/sync/preset_sync.go:826-835 | Unescaping undoes escaping on clean backslash paths without outer spaces, UNC paths included. |
| WatermarkTemplate.LogoNameKept | internal/sync/preset_sync.go:474-478 | A path written for a logo in a folder reads back as that logo's name. |
| WatermarkTemplate.MatchIff | internal/sync/preset_sync.go:39 | Independent of the automaton: a match starts at a place exactly if the text there is the key, blanks, an equals sign, blanks and a nonempty quoted path. |
| WatermarkTemplate.DoubledParts | internal/sync/preset_sync.go:826-829 | Escaping writes every slash as two backslashes and leaves all else. |
| WatermarkTemplate.PullRefers | internal/sync/preset_sync.go:474-499 | A pulled reference denotes its logo in the local folder if the network has it, and else in the network folder. |
| WatermarkTemplate.PulledTemplate | internal/sync/preset_sync.go:464-500 | So does every reference of a pulled template, and all other text is the network's. |
| WatermarkTemplate.PushRefers | internal/sync/preset_sync.go:553-571 | A reference is rewritten on push exactly if its logo exists here, and then denotes it in the network folder. |
| WatermarkTemplate.PushedTemplate | internal/sync/preset_sync.go:543-571 | So is every reference of a pushed template, and all else is as it was. |
| WatermarkTemplate.PushThenPullKeepsLogos | internal/sync/preset_sync.go:445-586 | Push on one machine, then pull on another, whatever logos each has: text outside image paths and the sequence of logo names are unchanged. |
| Timestamps.BeforeIffEarlier | internal/sync/manifest.go:192 | Comparing calendar fields is comparing microseconds, leap years included. |
| Timestamps.StringOrderIsTimeOrder | internal/sync/manifest.go:160-163 | Between timestamps printed by the agent, string order is time order to the microsecond. |
| Timestamps.StringOrderAgainstPython | internal/sync/manifest.go:160-163 | Against Python's fixed six digits the two orders differ exactly on equal times whose fraction ends in zero. |
| Timestamps.Layout | internal/sync/manifest.go:192 | Where each field of a printed time stands, with how many digits, and what separates them. |
| Manifest.AcceptsIffNewer | internal/sync/manifest.go:150-176 | An offered backup is accepted exactly when it was announced after the last restore. |
| Manifest.AcceptedIffAnnouncedLast | internal/coordinator/catalog_sync_orchestrator.go:150-160 | In every history of checks and finished jobs an offered backup is accepted exactly when it was announced after every network restore finished so far. |
| Manifest.SkipReasons | internal/sync/manifest.go:150-176 | Exactly when a manifest is skipped for each reason, in the order of the rules: own, already synced, zip missing, zip of another size. |
| Manifest.AcceptIff | internal/sync/manifest.go:150-176 | And exactly when it is accepted. |
| Manifest.OwnIsNeverAccepted | internal/sync/manifest.go:155-158 | In every history a machine's own backup, under its name in any case, is never accepted. |
| Manifest.RestoreJobs | internal/coordinator/catalog_sync_orchestrator.go:234-236 | Both kinds of restore jobs stamp the last sync; jobs of the preset synchroniser do not. |
| Manifest.NotTwice | internal/coordinator/catalog_sync_orchestrator.go:150-160 | A backup is never accepted once a restore has finished after its announcement, whatever happens in between. |
| Manifest.AnnouncedDuringRestore | internal/sync/manifest.go:160-163 | A newer backup announced while an earlier one is being restored is skipped. |
| Manifest.AcceptsPythonIff | internal/sync/manifest.go:160-163 | The exact acceptance condition for a backup announced by the Python agent. |
| Manifest.PythonRepeats | internal/sync/manifest.go:160-163 | One restore that is repeated, at a tenth of a second past noon. |
| LockLine.TimeRoundTrip | internal/monitor/lock.go:49-56 | A printed time parses back, cut to the microsecond, whichever agent printed it. |
| LockLine.ParseIff | internal/monitor/lock.go:42-63 | A line is read exactly as the text before its first bar, the text up to the second, and the time behind it, outer spaces aside; any other line is an error. |
| LockLine.PythonLineIsRead | internal/monitor/lock.go:42-63 | A line of the Python agent is read to the microsecond. |
| LockLine.RoundTripIff | internal/monitor/lock.go:36-63 | A lock line parses back to what was printed exactly when neither name contains a bar and the status does not start with a space. |
| SyncWorker.ApplySound | internal/coordinator/sync_worker.go:65-88 | Each atomic step keeps: gate open exactly while paused, a waiting worker on the current or a closed gate, jobs started, held and queued in the order accepted. |
| SyncWorker.SoundOverRuns | internal/coordinator/sync_worker.go:112-143 | So does every interleaving. |
| SyncWorker.NeverStuck | internal/coordinator/sync_worker.go:126-143 | No lost wakeup: a worker that is not paused and has a job can always take a step. |
| SyncWorker.StartedInOrder | internal/coordinator/sync_worker.go:98-124 | The jobs started are always the first accepted, in order. |
| SyncWorker.AtMostOneSlips | internal/coordinator/sync_worker.go:128-135 | While paused at most one job starts, and only one that had passed the check before. |
| SyncWorker.PauseHolds | internal/coordinator/sync_worker.go:65-75 | From a pause on, until somebody resumes, the worker is paused and shown paused, and no job starts but one that had passed the check by then. |
| SyncWorker.ResumeHolds | internal/coordinator/sync_worker.go:78-88 | After a resume, whatever came before, it is not paused and a waiting worker can go on. |
| SyncWorker.AcceptedIff | internal/coordinator/sync_worker.go:98-109 | The accepted jobs grow by exactly the valid jobs that find room, each the last in the queue. |
| SyncWorker.StartsNext | internal/coordinator/sync_worker.go:112-143 | An unpaused worker starts, by steps of its own, the first job of the queue or the one it waited with. |
| SyncWorker.StoppedForGood | internal/coordinator/sync_worker.go:112-143 | A worker that was cancelled starts nothing any more. |
| SyncWorker.SyncWorker.constructor | internal/coordinator/sync_worker.go:45-57 | A new worker is unpaused with a closed gate, and a queue of 16 by default. |
| SyncWorker.SyncWorker.Pause | internal/coordinator/sync_worker.go:65-75 | Pausing makes a new open gate, once. |
| SyncWorker.SyncWorker.Resume | internal/coordinator/sync_worker.go:78-88 | Resuming closes the current gate, which was open. |
| SyncWorker.SyncWorker.Enqueue | internal/coordinator/sync_worker.go:98-109 | A valid job is accepted exactly when there is room. |
| CatalogOrchestrator.StepSound | internal/coordinator/catalog_sync_orchestrator.go:162-179 | Whatever a call finds (Lightroom running or not, queue full or not, sync on or off), it neither loses nor doubles a pending manifest and enqueues nothing while Lightroom runs. |
| CatalogOrchestrator.SoundOverRuns | internal/coordinator/catalog_sync_orchestrator.go:107-128 | In every run a manifest is pending exactly when pending it was the last event, a delayed job follows its own pending at once, and jobs are enqueued only on finding Lightroom stopped. |
| CatalogOrchestrator.PendingLeaves | internal/coordinator/catalog_sync_orchestrator.go:115-127 | A pending manifest goes only by being enqueued, or by the manifest that a startup check has just read being enqueued or pended instead. |
| CatalogOrchestrator.PendingRuns | internal/coordinator/catalog_sync_orchestrator.go:107-128 | In every run, once a later call finds Lightroom stopped and room in the queue, a job has been enqueued for the pending manifest or for one read since, and nothing is pending. |
| CatalogOrchestrator.AcceptedIsKept | internal/coordinator/catalog_sync_orchestrator.go:162-179 | An accepted manifest is pended if Lightroom runs, else enqueued at once if there are folders and room, else an error is reported: it is never forgotten. |
| CatalogOrchestrator.OthersChangeNothing | internal/coordinator/catalog_sync_orchestrator.go:80-104 | Any other startup check changes nothing, and reports an error exactly when sync is on and the manifest cannot be read. |
| CatalogOrchestrator.AcceptedRuns | internal/coordinator/catalog_sync_orchestrator.go:80-128 | In every run a manifest accepted while Lightroom runs leads to a job, for it or for one read since, at the next call that finds Lightroom stopped and room. |
| CatalogOrchestrator.CatalogSyncOrchestrator.CheckStartupManifest | internal/coordinator/catalog_sync_orchestrator.go:80-104 | A startup check has the effect and the error of the step that the run theorems are about. |
| CatalogOrchestrator.CatalogSyncOrchestrator.RunPendingIfAny | internal/coordinator/catalog_sync_orchestrator.go:107-128 | Running what is pending has the effect and the error of its step; on an error the manifest stays pending. |
| ZipLayout.DetectSingleRoot | internal/sync/catalog_restore.go:228-260 | Finds the one top-level folder of an archive without files at the top, or reports that there is none, for any order of entries and either early exit. |
| ZipLayout.OrderDoesNotMatter | internal/sync/catalog_restore.go:228-260 | The answer depends on the set of entries. |
| ZipLayout.EntriesAtTheTop | internal/sync/catalog_restore.go:228-260 | A folder entry at the top never matters, one for the wrapper keeps it, and a file at the top ends it. |
| ZipLayout.StrippingIsInjective | internal/sync/catalog_restore.go:269-274 | Stripping the wrapper keeps different files different. |
| ZipLayout.SafeNamesStayWithin | internal/sync/catalog_restore.go:276-287 | A relative name that passes the first test lands below the base, and passes the second exactly if the base is not the root folder or nothing is added to it. |
| CatalogRestore.Cleanup | internal/sync/catalog_restore.go:81-95 | Removes, in any order, exactly what lies at or below a file or folder whose name matches. |
| CatalogRestore.SweptIffCollected | internal/sync/catalog_restore.go:289-338 | What the walk collects covers a path exactly when some component matches. |
| CatalogRestore.ExtractZipSafe | internal/sync/catalog_restore.go:122-226 | Extracts in order, stripping the wrapper folder if there is one; stops at the first blocked entry with what came before it in place. |
| CatalogRestore.FoldersAddNothing | internal/sync/catalog_restore.go:178-186 | Folder entries that are not blocked could be left out of the archive. |
| ArchiveNames.ExtractsTo | internal/sync/catalog_restore.go:149-223 | Extracting an archive of files puts each where its name, without outer spaces and without the stripped folder, says; where two land on one path the later one wins. |
| ArchiveNames.SpellingsAgree | internal/sync/catalog_restore.go:262-267 | A name with backslashes, or with a leading slash, dot-slash or both, lands where the plain name does. |
| ArchiveNames.ExtractClimbing | internal/sync/catalog_restore.go:164-176 | A file that would land above the destination is blocked. |
| ArchiveNames.WrapperVanishes | internal/sync/catalog_restore.go:158-163 | A tree wrapped in one folder comes out as the tree itself. |
| ArchiveNames.FlattenedTo | internal/sync/catalog_restore.go:138-163 | A folder is stripped exactly when all files lie in it, whatever the order of the entries. |
| PathGlob.SelfMatchIff | internal/sync/retention.go:136-142 | A folder name taken as a pattern matches itself exactly if it has no bracket, and then nothing else; with one it matches only shorter names. |
| PathGlob.ClassMatchIff | internal/sync/retention.go:136-142 | A name with a class in it, negated or not, matches exactly the names with one character in its place that the class admits. |
| PathGlob.RangeMatchIff | internal/sync/retention.go:136-142 | The same for a range. |
| CatalogBackup.DiscoversFolder | internal/sync/retention.go:136-153 | Without a bracket in the folder's path discovery finds exactly the folder's top-level artifacts with all they hold. |
| CatalogBackup.DiscoversElsewhere | internal/sync/retention.go:136-153 | With one it finds nothing of the folder; what it finds lies beside it and is packed under a name that climbs. |
| CatalogBackup.CleanupIsCovered | internal/sync/catalog_restore.go:28-42 | The patterns of the cleanup are exactly the transient ones and those of the artifacts. |
| CatalogBackup.PackedIffTaken | internal/sync/retention.go:16-22 | Of the files of a folder that the second cleanup would spare, a backup holds exactly those below a top-level name that the first cleanup matches case-exactly; whatever it holds the first cleanup removes. |
| CatalogRoundTrip.CatalogNames | internal/sync/retention.go:16-22 | Catalogs, their data and previews, of any stem, are packed, swept, and not swept again. |
| CatalogRoundTrip.TransientNames | internal/sync/catalog_restore.go:359-372 | Journals, locks and database sidecars, of any stem, and the lock text are swept after extraction too. |
| CatalogBackup.CreatePreSyncBackup | internal/sync/retention.go:30-73 | Packs exactly what discovery finds, under any names; a malformed class is an error, and no find is no zip. |
| CatalogRestore.RestoreCatalogFromZip | internal/sync/catalog_restore.go:98-119 | An archive that fails the integrity check changes nothing. Otherwise a restore succeeds exactly when no entry is blocked, and leaves the tree that `BackupThenRestore` speaks about; if one is blocked it leaves the cleaned folder with what came before that entry. |
| CatalogRoundTrip.BackupThenRestore | internal/sync/catalog_restore.go:98-119 | Restoring a backup over any later folder, for any path of the folder: it fails exactly when files were packed from beside a bracket above the last folder; otherwise the artifacts come back, minus transient files, exactly when none was overlooked for the case of its name, none has outer spaces, the backup does not lie in one folder, and the path has no bracket; every other path keeps what it had unless a pattern matches it. |
| BackupLosses.UpperCaseIsLost | internal/sync/retention.go:16-22 | In a folder with a catalog whose extension is in upper case, beside one in lower case, no restore brings all artifacts back. |
| BackupLosses.SpaceIsLost | internal/sync/catalog_restore.go:262-267 | In a folder with a catalog whose name begins with a space no restore brings all artifacts back. |
| BackupLosses.FolderIsLost | internal/sync/catalog_restore.go:228-260 | If a folder of previews is the only artifact no restore brings it back. |
| BackupLosses.BracketIsLost | internal/sync/retention.go:136-142 | With a bracket in the folder's path and nothing beside it, nothing is found, there is no error, and the cleanup of the restore removes the catalog. |
| BackupLosses.SiblingIsPacked | internal/sync/retention.go:136-153 | With a class in the folder's name the catalogs of folders whose names it matches are packed, under names that climb. |
| BackupLosses.NestedIsLost | internal/sync/catalog_restore.go:289-338 | An artifact in a subfolder of another name is swept by a restore and in no backup; it is there afterwards only if a file out of a wrapper landed on its place. |
| BackupLosses.UpperCaseExample | internal/sync/retention.go:16-22 | The case spelled out: `Photos` with `A.LRCAT` and `b.lrcat`. |
| BackupLosses.SpaceExample | internal/sync/catalog_restore.go:262-267 | The case spelled out: a catalog named with a space in front. |
| BackupLosses.FolderExample | internal/sync/catalog_restore.go:228-260 | The case spelled out: `Photos` with `a.lrdata/index` alone. |
| BackupLosses.BracketExample | internal/sync/retention.go:136-142 | The case spelled out: `Photos [2024]` with `b.lrcat`. |
| CatalogRoundTrip.RootFileIsEnough | internal/sync/catalog_restore.go:237-244 | One artifact file at the top keeps the backup from being taken for a wrapped one. |
| ZipRetention.ListZips | internal/sync/retention.go:89-123 | Lists all zips strictly newest first. |
| ZipRetention.IsZipByExtension | internal/sync/retention.go:97 | A file counts as a zip exactly by its extension, in any case. |
| ZipRetention.CleanupZipRetention | internal/sync/retention.go:75-134 | On success exactly the zips with fewer newer ones than the limit remain, their number is the smaller of limit and count, with a limit of one where none is given, other files stay; a failure never removes a zip to be kept. |
| ZipRetention.KeptAreNewer | internal/sync/retention.go:118-125 | Every kept zip is later than every removed one, or as late and the greater by path. |
| ZipRetention.SecondCleanupIsIdle | internal/sync/retention.go:114-116 | A second cleanup removes nothing. |
| ZipRetention.NewestSurvives | internal/coordinator/catalog_sync_orchestrator.go:216-220 | The zip about to be restored survives the cleanup before it if no other is later, or as late and greater by path. |
| NetworkHealth.CheckSound | internal/monitor/network_health.go:202-219 | Each check, at any time and with any outcome, keeps the breaker's state, count and opening time, the events and the spacing in agreement with the probes so far. |
| NetworkHealth.SoundOverChecks | internal/monitor/network_health.go:57-121 | Over all sequences of checks: closed exactly while fewer than the threshold of the latest probes failed in a row; events are a prefix of (lost+ recovered)*; no probe before the timeout. |
| NetworkHealth.OpensOnThreshold | internal/monitor/network_health.go:92-96 | The breaker opens exactly on the probe that completes the row. |
| NetworkHealth.ProbesIff | internal/monitor/network_health.go:57-69 | After every history a check probes exactly unless the latest row of failures reached the threshold and its timeout still runs; a check that does not probe changes nothing. |
| NetworkHealth.EventsAreReported | internal/monitor/network_health.go:172-180 | Over all sequences of checks the events are a loss for every failure that reaches the threshold and a recovery for every success after one, and nothing else. |
| NetworkHealth.CircuitBreaker.AllowNow | internal/monitor/network_health.go:57-69 | A probe is let through unless the breaker opened less than the timeout ago; letting one through after that makes it half-open and raises no event. |
| NetworkHealth.CircuitBreaker.Failure | internal/monitor/network_health.go:85-100 | A failure opens a half-open breaker and a closed one at the threshold, with one loss event, and otherwise only counts. |
| NetworkHealth.ShareHealthMonitor.Check | internal/monitor/network_health.go:202-219 | One check of the monitor is the step that the history theorems are about. |
| LogBuffer.Buffer.Add | internal/logstream/buffer.go:38-63 | The buffer holds the last entries of the whole log, numbered from 1. |
| LogBuffer.Buffer.Since | internal/logstream/buffer.go:67-95 | Returns the entries held after the cursor, oldest first, up to the limit. |
| LogBuffer.PageIsFull | internal/logstream/buffer.go:67-95 | A page has all entries that wait behind the cursor, or the first of them up to the limit, which is 200 if none is given. |
| LogBuffer.CursorReadsAreFaithful | internal/logstream/buffer.go:65-95 | However reads and writes interleave, a reader that follows its cursor gets strictly increasing ids, nothing twice, and misses exactly what was evicted before it came there. |

## Left out

- PresetSync.PresetSyncManager.Sync: does not model float64 seconds, an unreadable state or tombstone file (the code goes on with an empty one; in runs a state file may be lost, and `UnreadTombstones` says what the other does), the count of logos, or a category name that is a file.
- PresetSync.NoteError: the code keeps the first of several errors; which one is not modelled.
- PresetPaths.ReachOf: lower case is ASCII, and categories are single folder names spelled alike on all machines.
- PresetWorld.SyncMakesKeysAgree: does not cover `.json` paths, where it is false, nor cycles that overlap on the share.
- WatermarkTemplate.PushThenPullKeepsLogos: `filepath.Clean` is a parameter that does nothing the second time, and each logo name is assumed to make a clean path in the two folders; volume names without a folder, and copies of logo files that fail, are not modelled.
- LockLine.RoundTripIff: session and epoch, which are not printed, are not modelled.
- SyncWorker.NeverStuck: the body of a job, its watchdog and the events it emits are not modelled.
- CatalogOrchestrator.SoundOverRuns: each call sees Lightroom's state once, as the code does; that Lightroom may start before the job runs is not excluded.
- CatalogRoundTrip.BackupThenRestore: empty folders, file modes, a file where a folder is needed, links, and the progress callback are not modelled. Lower case is ASCII, names compare by case, and paths are taken below the volume. No name ends in a plain space or a dot, or holds a star or question mark, as on Windows, nor consists of other spaces. Where nothing to be brought back was packed but something else poses for it, only what lands at each path is said.
- PresetContents.ContentsConverge: watermark templates are rewritten on the way, so their contents are not compared.
- PresetWorld.NoResurrection: a tombstone file that is lost or unreadable is not a step of a run.
- Manifest.AcceptedIffAnnouncedLast: all machines read one clock.
- ZipLayout.SafeNamesStayWithin: paths are sequences of components of a slash-separated system.
- ZipRetention.ListZips: the library sort is an insertion sort here.
- NetworkHealth.CheckSound: a monitor without a probe is not modelled; time is what the caller passes.
- LogBuffer.Buffer.Add: level and message arrive normalised, and the time of an entry is not kept.
- The mutual exclusion of `.manifest_lock`: its steal path lets two waiters both hold the lock.
- User interface, tray, installer, IPC, Windows calls, update checks, configuration, heartbeat and watchdog timers: plumbing and easy members.
- Zip compression, JSON and YAML parsing, and the file system below the level of one operation.
