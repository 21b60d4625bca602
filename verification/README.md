# Verified model of Libra

Libra finds build artifacts and SDKs on a developer machine, plans a cleanup, moves what it cleans into quarantine, can
bring it back, and can purge it. This project models the five parts of it whose correctness rests on more than one
function, and proves what they are meant to guarantee. `dafny verify dfyconfig.toml` checks all of it.

* **The quarantine transaction** (`FileTree`, `Disk`, `Quarantine`, `QuarantineEngine`, `Protocol`, `CleanupService`,
  `RoundTrip`, `PurgeService`, `Lifecycle`, `Conservation`, `UnrecordedPurge`). The file system is a map from paths to
  nodes. A `Disk` performs one system call at a time; an environment decides freely which of them fail, and a ghost
  trace records every state between calls, so that a claim about the trace is a claim about a crash at any moment.
  `Move`, `Restore` and `Purge` are the loops of the source. The invariant `Safe` says of every item that its tree is
  whole in exactly one of its two places and that a complete manifest on disk names it with both; it is carried over
  every crash state and over whole runs of restores.
  Runs that also purge, with outcomes recorded, lost or cut by a crash, keep every tree whole until a purge begins that
  may delete it (`Conservation`).
* **The parallel walk** (`Excludes`, `Walk`, `ScanProtocol`, `Scan`, `ScanOnce`, `WalkTotals`). `Scan` is a step relation
  over queue, workers, both channels and the coordinator, on a fixed file system. Every schedule with any number of
  workers ends, never deadlocks, and counts what the sequential walk counts; `WalkTotals` says what that is in terms of
  what the file system answers.
* **From evidence to plan** (`Confidence`, `ConfidenceLaws`, `Profiles`, `Risk`, `ResourceService`, `Sorting`,
  `Planner`). Claim scores, axis scores, risk, freshness, reclassification, and the greedy planner with the store's own
  check of its plans.
* **The daemon's diff** (`DaemonDiff`, `DaemonLog`). Events of one poll for every iteration order of the maps involved,
  and the log over any run of polls.
* **Containment structures** (`Workspaces`, `ProjectForest`), resting on `Paths`.

Paths are component sequences that are already normalized; `[]` is the filesystem root. Names derived from digests and
random IDs are arbitrary functions or parameters, time is an integer, and SQLite tables are maps whose rows are written
whole or not at all. What the outside world answers (system calls, repository lookups, validators, detectors) is a
parameter or an oracle and is never restricted beyond what its own contract says.

Where the code and what is said about it differ, the model follows the code:

* `ReclassifyRequired` is described as blocking what a project requires. The code sends official-tool caches and
  regenerable project artifacts to REVIEW (`RequirementBlocks`). No required resource stays SAFE in either case.
* `ApplyFreshness` is idempotent except for a never-observed resource whose profile is empty but for exempting every
  axis; stored resources are never like that.
* An absolute exclude for the filesystem root matches the root and nothing in it.
* Axes declared not applicable are not stored by SQLite; no verdict depends on it, because they score 100.
* The store refuses a plan that selects a resource whose recorded modification time is the zero time. Measuring never
  records that time, and no detector sets one; only a row stored otherwise can carry it.
* Two workspace manifests of one directory make the verdict on a project depend on the order of discovery exactly when
  they disagree about it.
* The project table counts path separators, so `/` is as deep as `/a`: a row for `/` that comes first takes over
  grandchildren of `/`.
* A purge that deletes no item completely, or cannot write its outcome, leaves the record as it was, whatever is gone by
  then. An item can be hurt that way exactly if it is `Purgeable` when the purge begins: no other ever is
  (`UnrecordedPurge.NoPurgeHurtsMore`), and all of these are lost at once if only the Update is refused
  (`UnrecordedPurge.LostWithoutRecord`). A damaged tree comes back as RESTORED
  (`UnrecordedPurge.DamagedTreeComesBack`, with `UnrecordedPurge.TwoFiles` for a concrete disk). Over whole runs,
  `Conservation.ConservedOverRuns` keeps every tree until a purge finds it `Purgeable`; and while Restores are
  recorded, and purges record whatever they may have touched, all statuses stay true
  (`Conservation.CleanRunIsFaithful`).
* `Restore` asks for no status. After a recorded purge it always records FAILED, over PURGED too
  (`Conservation.RestoreAfterPurge`).
* A purge that recorded PURGED tries to remove the directory around each manifest. It never succeeds where Move made the
  directory of the slots in it, because nothing removes that one (`PurgeService.ItemsDirectoryStays`).
* A link that was moved is never purged: it ends FAILED and stays in quarantine
  (`Lifecycle.ReliablePurgeEmptiesQuarantine`).
* Scan roots are told apart by their text. Where one lies below another, what is below both is visited and counted twice,
  exactly as `ScanOnce.OnceExactlyWhen` says.

## Model

| member | source | states |
|---|---|---|
| Paths.ContainmentIsPartialOrder | internal/pathutil/normalize.go:66-86 | Containment is reflexive, antisymmetric and transitive on normalized paths |
| Paths.AncestorsFormAChain | internal/pathutil/normalize.go:66-86 | It is a tree order: two paths that contain a third nest, and are equal if equally deep |
| Paths.NothingInCommon | internal/pathutil/normalize.go:66-86 | Two paths that do not nest have no descendant in common |
| FileTree.RenameMovesTree | internal/safety/quarantine.go:54 | A rename takes over the whole tree below the source, leaves nothing there, and adds nothing to it |
| FileTree.RenameKeepsTree | internal/safety/quarantine.go:54 | A rename leaves every tree that nests with neither end exactly as it was |
| FileTree.MkdirKeepsTree | internal/safety/quarantine.go:49 | Making a directory changes no tree that does not nest with it |
| FileTree.RemoveKeepsTree | internal/app/purge_service.go:71 | A removal, complete or partial, changes no tree that does not nest with it |
| FileTree.RenameLeaf | internal/safety/quarantine.go:144 | Renaming one plain file over another touches those two names only |
| Disks.Disk.MkdirAll | internal/safety/quarantine.go:132 | os.MkdirAll: only missing ancestors appear, even when it fails half way; every state on the way is recorded for the crash claims |
| Disks.Disk.Rename | internal/safety/quarantine.go:54 | os.Rename: all or nothing; succeeds exactly when possible and permitted by the environment |
| Disks.Disk.WriteFile | internal/safety/quarantine.go:141 | os.WriteFile: may fail leaving a damaged file, changes no other path |
| Disks.Disk.Lstat | internal/safety/quarantine.go:72-80 | os.Lstat: reports absence only of an absent path with nothing but directories above it, and may fail for any path, then saying neither |
| Disks.Disk.ReadFile | internal/app/purge_service.go:130 | Reading gives the file content or an error |
| Disks.Disk.RemoveAll | internal/app/purge_service.go:71 | os.RemoveAll: tries every node, a directory after its contents, and goes on after a refusal; exactly the tree gone means success; never anything outside the tree |
| Disks.GoneUnlessRefused | internal/app/purge_service.go:71 | A removal that does not fully succeed was refused some deletion |
| Disks.RefusedStays | internal/app/purge_service.go:71 | A node whose deletion is refused stays, with everything above it |
| Disks.FirstGoes | internal/app/purge_service.go:71 | Where one deletion is granted and no more, a tree of several nodes loses one, and not its root |
| Disks.Disk.Remove | internal/app/purge_service.go:110-111 | os.Remove takes a plain file or an empty directory, and nothing else |
| QuarantineSpec.IntactInOnePlace | internal/safety/quarantine.go:43-104 | An item tree that exists is whole at exactly one of its original and its quarantine path |
| QuarantineSpec.ManifestStepTransitive | internal/safety/quarantine.go:117-149 | Writing manifests twice disturbs no more than once |
| QuarantineSpec.SafeAfterMkdir | internal/safety/quarantine.go:43-64 | Making directories keeps the invariant: every tree whole in one place and named, with both paths, by a complete manifest |
| QuarantineSpec.SafeAfterManifests | internal/safety/quarantine.go:117-149 | Rewriting manifests with draft and rename keeps that invariant in every intermediate state |
| QuarantineSpec.SafeAfterRename | internal/safety/quarantine.go:43-104 | Renaming an item between its two places keeps that invariant, in both directions |
| QuarantineSpec.RenameDisturbsNoOther | internal/safety/quarantine.go:43-104 | Moving one item leaves both places of every other item alone |
| QuarantineSpec.ManifestRecords | internal/safety/quarantine.go:117-149 | A manifest once complete keeps naming its items while manifests are rewritten |
| QuarantineSpec.CompleteManifestRecords | internal/safety/quarantine.go:117-149 | A complete manifest names each of its items with both paths |
| QuarantineSpec.PreparedAtOriginal | internal/safety/quarantine.go:32-41 | Preparing moves no tree and fills no slot |
| QuarantineSpec.ChangesTransitive | internal/safety/quarantine.go:66-104 | The bound on what a transaction may touch composes over any number of steps |
| QuarantineSpec.EffectOfMkdir | internal/safety/quarantine.go:49 | The directory made for a move disturbs no item and touches nothing occupied |
| QuarantineSpec.EffectOfRename | internal/safety/quarantine.go:54 | The rename of a move carries its own item over and touches nothing else |
| QuarantineSpec.EffectOfManifests | internal/safety/quarantine.go:117-149 | The manifest update after a move disturbs no item |
| QuarantineSpec.PassageAndSource | internal/safety/quarantine.go:43-104 | With the directories made, nothing but the environment can stop the rename of an item that is still there |
| QuarantineSpec.PassableAfterMkdir | internal/safety/quarantine.go:49 | Making directories puts no obstacle in the way of later moves |
| QuarantineSpec.PassableAfterManifests | internal/safety/quarantine.go:117-149 | Nor does writing manifests |
| QuarantineSpec.PassableAfterRename | internal/safety/quarantine.go:54 | Nor does moving an item |
| QuarantineEngine.GroupByManifest | internal/safety/quarantine.go:118-121 | Items are grouped by manifest path, each group in transaction order and complete |
| QuarantineEngine.WriteManifest | internal/safety/quarantine.go:131-147 | Every state of one manifest write is harmless; success leaves the complete manifest in place, and comes without failures where nothing is in the way |
| QuarantineEngine.WriteManifests | internal/safety/quarantine.go:117-149 | The same for all manifests; success means every item is named with both paths on disk |
| QuarantineEngine.Prepare | internal/safety/quarantine.go:32-41 | Places every item below its quarantine root, changing nothing else of it; on success all are recorded before anything moves; succeeds without failures where nothing is in the way |
| QuarantineEngine.MoveItem | internal/safety/quarantine.go:43-64 | One item: MOVED means its whole tree is in quarantine, FAILED that it is where it was; all crash states are safe; nothing occupied is overwritten; the manifests follow where they can be written |
| QuarantineEngine.Move | internal/safety/quarantine.go:43-64 | All items: the same over the loop, in every state of the disk; without failures every existing PENDING item ends MOVED |
| QuarantineEngine.MoveAdvances | internal/safety/quarantine.go:43-64 | One round of the loop keeps what the earlier rounds achieved |
| QuarantineEngine.MoveBack | internal/safety/quarantine.go:89-98 | The two system calls that bring a tree back: on any disk success means that the original path holds what the slot held, failure that both are as they were; no other occupied path changes |
| QuarantineEngine.BringBack | internal/safety/quarantine.go:70-99 | On any disk an empty slot makes the item FAILED, or leaves it SKIPPED, an occupied original path makes it SKIPPED, and a path that cannot be looked at FAILED; in none of these cases is anything touched |
| QuarantineEngine.RestoreItem | internal/safety/quarantine.go:66-104 | One item, on any disk: RESTORED means that its slot moved to its original path, anything else that both places are as they were, with the status telling which lookup refused it; every other item keeps both |
| QuarantineEngine.Restore | internal/safety/quarantine.go:66-104 | On any disk: items that end RESTORED here hold at the original path what their slot held, all others keep both places, and no other occupied path changes but manifests, which keep naming what they named; on a safe one every crash state is safe, and without failures all MOVED items come back |
| QuarantineEngine.MovedComesBack | internal/safety/quarantine.go:66-104 | Without failures a MOVED item whose tree is in its slot comes back whole |
| QuarantineEngine.ManifestsKeepNames | internal/safety/quarantine.go:117-149 | Rewriting manifests keeps every item named that was, on any disk |
| QuarantineEngine.RestoreAdvances | internal/safety/quarantine.go:66-104 | One round keeps the promise made for any disk |
| QuarantineEngine.SafeRestoreAdvances | internal/safety/quarantine.go:66-104 | One round keeps the promise made for a safe disk |
| Protocol.NestedMeansSameRoot | internal/safety/quarantine.go:106-115 | Two places below quarantine directories of one transaction nest only if those directories coincide |
| Protocol.OutsideQuarantine | internal/safety/quarantine.go:106-115 | A path outside quarantine directories lies in no place of a fresh transaction, and contains one only if it contains the parent of its quarantine directory |
| Protocol.DefaultPlacementIsLayout | internal/safety/quarantine.go:106-115 | The default placement under each parent keeps items, slots and manifests of a fresh non-nested plan apart |
| QuarantineSpec.ManifestGoesThrough | internal/safety/quarantine.go:131-147 | With its directory there, draft and commit of a manifest go through and leave the others possible |
| QuarantineSpec.MoveKeepsWritable | internal/safety/quarantine.go:43-104 | Moving an item puts nothing in the way of any manifest |
| RoundTrip.ExecutedTells | internal/app/cleanup_service.go:28-69 | After an Execute without failures each item is MOVED, or SKIPPED because rejected, or FAILED because it did not exist |
| RoundTrip.RestoreUndoesExecute | internal/app/cleanup_service.go:28-82 | With no step failing, Restore after Execute brings back every item that was moved and every path, whatever else was rejected or missing, but for manifests and new directories leading to quarantine |
| RoundTrip.ExecuteThenRestore | internal/app/cleanup_service.go:28-82 | The two services in a row on a disk and a repository that refuse nothing: exactly that, and the record says so |
| Repository.TransactionRepository.Create | internal/store/sqlite/cleanup_transaction_repository.go:24-42 | A row is created whole or not at all |
| Repository.TransactionRepository.Update | internal/store/sqlite/cleanup_transaction_repository.go:44-63 | A row is replaced whole or not at all |
| Repository.TransactionRepository.FindByID | internal/store/sqlite/cleanup_transaction_repository.go:65-100 | Finds exactly the stored record, or fails |
| CleanupService.FinishTransaction | internal/app/cleanup_service.go:84-113 | The final status says whether all, some or none of the items made it |
| CleanupService.Execute | internal/app/cleanup_service.go:28-69 | Every crash state is safe; a transaction that was not started left every tree in place; the record is truthful and says when it was finished; without failures it is started and recorded and every accepted existing item is MOVED |
| CleanupService.MovingIsCrashSafe | internal/app/cleanup_service.go:28-69 | Every state on the way of Move is one a crash may leave: trees whole, no filled slot without its manifest |
| CleanupService.MoveIsExecuted | internal/app/cleanup_service.go:28-69 | Preparing and moving add up to the guarantee of Execute |
| CleanupService.Restore | internal/app/cleanup_service.go:71-82 | Loads, restores and records, each without failures; the promises of the engine hold for the stored items, and the record says when |
| PurgeService.ValidatePurgeItem | internal/app/purge_service.go:118-147 | Accepts only slots strictly inside the items directory and listed in this transaction's manifest, and without read failures all of these |
| PurgeService.RecordedItemsPass | internal/app/purge_service.go:118-147 | Whatever Prepare placed and Move left recorded passes this validation |
| PurgeService.PurgeItem | internal/app/purge_service.go:48-77 | One item: only its own validated slot is touched, and never a slot that became a link; of what could be deleted, PURGED is said exactly of what is gone |
| PurgeService.PurgeItems | internal/app/purge_service.go:46-78 | All items: every removed path was in the validated slot of a MOVED item that still held a real tree, in every state on the way |
| PurgeService.PurgeOneMore | internal/app/purge_service.go:46-78 | Confinement composes over the loop |
| PurgeService.OthersUntouched | internal/app/purge_service.go:46-78 | Purging some items leaves slot and manifest of the others as they were |
| PurgeService.Preview | internal/app/purge_service.go:46-61 | A dry run lists the slots of MOVED items that may be deleted, without read failures all of them, and changes nothing |
| PurgeService.Tidy | internal/app/purge_service.go:108-113 | Clean-up removes no more than the manifests and their directories when these are empty, and without failures all these manifests |
| PurgeService.Purge | internal/app/purge_service.go:33-116 | Runs on every quarantined transaction past retention that can be loaded, and on no other; deletes only validated slots that are no links, then manifests; of what could be deleted, PURGED is recorded exactly of what is gone, and nothing at all only if no such slot is empty or the record cannot be written; a dry run or a refusal changes nothing; without failures nothing that can be purged stays |
| PurgeService.PurgesOnlyKeepsNames | internal/app/purge_service.go:46-78 | Deleting slots takes no manifest away |
| PurgeService.ItemsDirectoryStays | internal/app/purge_service.go:108-113 | No purge removes the directory of the slots next to a manifest, so neither the directory around it, although it is tried |
| PurgeService.PlacedDirectoriesStay | internal/app/purge_service.go:108-113 | With the default placement that is so for every item |
| PurgeService.PurgeKeepsOthers | internal/app/purge_service.go:33-116 | Only an item that is MOVED, listed in its manifest, strictly inside the items directory and a real tree can lose anything; every other keeps both places |
| PurgeService.PurgeKeepsOriginals | internal/app/purge_service.go:33-116 | A purge, complete or not, keeps what is at the original path of every item, so also what an unrecorded Restore brought back |
| PurgeService.PurgeOnlyTakes | internal/app/purge_service.go:33-116 | Whatever tree one looks at, a purge only takes from it |
| PurgeService.ReliablePurgeIsClean | internal/app/purge_service.go:46-102 | A purge without failures deletes and records as PURGED exactly what was purgeable, and leaves every other item alone |
| Lifecycle.ExecuteDoesRecord | internal/app/cleanup_service.go:28-69 | What Execute guarantees is a first record of a history |
| Lifecycle.RestoreDoesRecord | internal/app/cleanup_service.go:71-82 | What Restore guarantees is a step of a history |
| Lifecycle.PurgeDoesRecord | internal/app/purge_service.go:33-116 | What Purge guarantees is a step of a history |
| Lifecycle.SameItemsThroughout | internal/app/cleanup_service.go:28-113 | Over any history items keep identity and both paths |
| Lifecycle.TerminalStatuses | internal/safety/quarantine.go:66-99 | Over any history RESTORED, PURGED and FAILED are final, MOVED and PENDING never come back, SKIPPED leads only to RESTORED or FAILED |
| Lifecycle.PurgeComesFirst | internal/app/purge_service.go:38-43 | No purge of a transaction is recorded after a recorded restore or purge of it |
| Lifecycle.StatusOnlyAdvances | internal/app/cleanup_service.go:71-113 | The recorded transaction status only moves on, from quarantined over purged and FAILED to restored; only FAILED, PARTIALLY_RESTORED and RESTORED can stay |
| Lifecycle.MovedIsPurgeable | internal/app/purge_service.go:118-147 | Every item that Execute moved passes validation, and may be purged exactly if it is no link |
| Lifecycle.PurgeTooEarly | internal/app/purge_service.go:38-43 | Until the retention period, counted from the end of Execute, is over, a purge is rejected and leaves disk and repository as Execute did, whatever else they refuse |
| Lifecycle.ReliablePurgeEmptiesQuarantine | internal/app/purge_service.go:46-102 | After Execute, a purge without failures deletes everything moved but links, which end FAILED and stay; it reports PURGED exactly when there was no link and no item had failed to move |
| Conservation.RestoreIsStep | internal/app/cleanup_service.go:71-82 | What Restore promises, recorded, unrecorded or cut by a crash, is a step of a run |
| Conservation.PurgeIsStep | internal/app/purge_service.go:33-116 | So is what Purge promises, however it ends: recorded, unrecorded, or cut by a crash before its outcome was recorded or while it tidies up |
| Conservation.ConservedOverRuns | internal/app/cleanup_service.go:28-82 | Execute, then Restores and Purges in any order, recorded, unrecorded or cut by a crash anywhere: every tree is whole in one of its places until a purge begins that may delete it, and even then nothing but parts of it go missing |
| Conservation.EverythingIsNamed | internal/safety/quarantine.go:117-149 | Over the same runs nothing ever lies in quarantine that no complete manifest names with both its paths |
| Conservation.OutOfReach | internal/app/purge_service.go:33-116 | A tree that is back at its original path stays as it is over all later calls, a purge of a record that still says MOVED included |
| Conservation.QuarantinedMeansUntouched | internal/app/purge_service.go:38-43 | A record that still says quarantined is the one Execute wrote |
| Conservation.RetentionCountsFromExecute | internal/app/purge_service.go:38-43 | Over any run, a purge that is due is one of the record Execute wrote, at least the retention period after Execute recorded it as finished |
| Conservation.NeverMovedMeansEmpty | internal/app/cleanup_service.go:28-69 | What was never moved has an empty slot ever after |
| Conservation.PurgedMeansEmptied | internal/app/purge_service.go:83-113 | PURGED is recorded only when no item has anything left in quarantine, whatever failed, whatever came before, and even if tidying dies half way |
| Conservation.NothingToRestoreAfterPurge | internal/safety/quarantine.go:66-104 | After a recorded purge Restore finds nothing to bring back |
| Conservation.RestoreAfterPurge | internal/app/cleanup_service.go:71-113 | Whatever is recorded at any time after a recorded purge is a Restore, and says FAILED |
| Conservation.NothingMovesAnyMore | internal/safety/quarantine.go:66-104 | Once nothing is left to restore, no Restore changes the disk |
| Conservation.ConservedOverRestores | internal/app/cleanup_service.go:28-82 | Execute and any run of Restores, crashes included: in every state on the way every tree is whole in one place and named by its manifest; while outcomes are recorded, statuses tell where |
| Conservation.ReliablePurgeIsFaithful | internal/app/purge_service.go:46-102 | A purge on a disk and repository that refuse nothing records PURGED for whatever was purgeable |
| Conservation.CleanRunIsFaithful | internal/app/cleanup_service.go:28-113 | Over recorded Restores, and purges that record whatever they may have touched, every status tells the truth about its item |
| UnrecordedPurge.NoPurgeHurtsMore | internal/app/purge_service.go:46-105 | Whatever is refused, a purge leaves alone every item that is not purgeable when it begins |
| UnrecordedPurge.LostWithoutRecord | internal/app/purge_service.go:95-105 | If only the Update is refused, every purgeable tree of a due transaction is gone and the record is as it was; all else is untouched |
| UnrecordedPurge.PurgeGivesUp | internal/app/purge_service.go:71-97 | For each purgeable item with several nodes, among whatever other items, one granted deletion damages its tree, and the purge gives up with the record unchanged |
| UnrecordedPurge.DamagedTreeComesBack | internal/app/purge_service.go:71-97 | A later Restore, refused nothing, brings exactly that damaged tree back and records it RESTORED |
| UnrecordedPurge.TwoFiles | internal/app/purge_service.go:71-97 | A concrete disk, a directory with two files, on which that happens |
| Excludes.NewExcludeMatcher | internal/scanner/ignore.go:22-53 | Sorts excludes into absolute, any-segment and relative ones; fails exactly if a root or an absolute exclude cannot be normalized |
| Excludes.AbsoluteMatches | internal/scanner/ignore.go:55-64 | An absolute exclude covers its path and what is below, and nothing else |
| Excludes.NameMatches | internal/scanner/ignore.go:65-85 | A name covers exactly what has it on the way down from a root |
| Excludes.RelativeMatches | internal/scanner/ignore.go:65-85 | A relative exclude covers exactly what begins with it below a root |
| Excludes.EachOnItsOwn | internal/scanner/ignore.go:55-97 | A path is excluded exactly if one exclude alone covers it below one root |
| Excludes.MatchesBelow | internal/scanner/ignore.go:55-97 | What lies below an excluded path is excluded, the filesystem root aside |
| Excludes.SomethingIsKept | internal/scanner/ignore.go:55-97 | Whatever the excludes, some path other than the root is not matched |
| Excludes.ClosedUnlessRootExcluded | internal/scanner/ignore.go:55-97 | Exclusion is closed under descendants exactly if the filesystem root is not an exclude |
| Excludes.RootExcludeMissesItsContents | internal/scanner/ignore.go:95-97 | An absolute exclude of the root matches the root and nothing below it |
| Walk.ScanDirectoryLoop | internal/scanner/scanner.go:168-197 | Reading one directory: entries in order, links skipped, excludes dropped, subdirectories within the depth bound |
| Walk.WalkAllOrderless | internal/scanner/scanner.go:98-131 | The totals of walking several directories do not depend on their order |
| Walk.WalkUnfolds | internal/scanner/scanner.go:98-131 | The walk of a directory is its own listing plus the walk of its subdirectories |
| Walk.VisitsAreVisited | internal/scanner/scanner.go:98-131 | The depth-first sequence of entries has exactly the entries the walk counts, once each |
| Walk.ListingKept | internal/scanner/scanner.go:168-197 | In one directory excludes drop exactly the excluded entries and subdirectories |
| Walk.PruningIsFiltering | internal/scanner/scanner.go:176-195 | Pruning at excluded directories visits exactly the entries of the unpruned walk that are not excluded, in the same order |
| ScanProtocol.InitInvariant | internal/scanner/scanner.go:58-97 | The invariant holds when Scan starts |
| ScanProtocol.HandOver | internal/scanner/scanner.go:78-96 | Passing a directory between queue, worker and channel neither loses nor doubles it |
| ScanProtocol.Received | internal/scanner/scanner.go:113-128 | Receiving a listing counts one directory and puts its subdirectories in its place |
| ScanProtocol.AbsorbSome | internal/scanner/scanner.go:113-128 | A listing cut short by the visitor never counts more than the walk has |
| ScanProtocol.ListingAfterParent | internal/scanner/scanner.go:113-128 | Visiting a listing keeps directories before what is below them |
| ScanProtocol.StepKeepsInvariant | internal/scanner/scanner.go:74-131 | Every step of coordinator, workers and environment keeps: active = busy workers + buffered results, exact accounting, parents first |
| ScanProtocol.NothingOutstanding | internal/scanner/scanner.go:98-131 | With queue empty and active zero, everything has been counted |
| Scan.NeverStuck | internal/scanner/scanner.go:74-133 | No deadlock: until Scan has returned and every worker is gone some step is possible without outside help |
| Scan.StepMakesProgress | internal/scanner/scanner.go:74-133 | Every step lowers a measure that is bounded below |
| Scan.EveryRunEnds | internal/scanner/scanner.go:74-133 | Every schedule is finite with a bound known at the start, and stops only when Scan has returned and all workers are gone |
| Scan.EverySchedule | internal/scanner/scanner.go:58-133 | For every schedule and worker count a completed scan has the totals and entries of the sequential walk; a cut-short one never more, in any counter; only cancellation or the visitor cuts it short |
| WalkTotals.VisitedExactly | internal/scanner/scanner.go:168-222 | A walk visits exactly what is listed, not excluded and can be inspected, within the depth limit and along directories of that kind, and tells of each the kind and size the file system answers |
| WalkTotals.TotalsOfWalk | internal/scanner/scanner.go:98-131 | Files, size and directories of a walk are the number and the sum of sizes of the files it visits, and the directories it enters |
| WalkTotals.TotalsOfScan | internal/scanner/scanner.go:98-131 | The same number and sum for a scan of several roots |
| WalkTotals.CompletedScan | internal/scanner/scanner.go:58-133 | So every completed scan reports them, whatever the schedule |
| WalkTotals.IssuesExactly | internal/scanner/scanner.go:168-208 | A walk reports exactly the directories it enters and cannot read, and the entries it meets and cannot inspect |
| Scan.CanFinish | internal/scanner/scanner.go:58-133 | Any state can be run to the end, and without cancellation to completion |
| Scan.AncestorsFirst | internal/scanner/scanner.go:98-130 | In every state of every run each directory between a root and a visited entry was visited before the entry |
| Scan.PrepareRoots | internal/scanner/scanner.go:135-166 | Accepts each existing, unexcluded directory once, in the order of the configuration; reports each other unexcluded root once and each that does not normalize, and nothing else |
| ScanOnce.VisitsOnce | internal/scanner/scanner.go:168-197 | One walk visits no path twice |
| ScanOnce.WalksMeetExactlyWhen | internal/scanner/scanner.go:98-131 | The walks of two roots have a path in common exactly when one enters the directory of the other and finds something in it |
| ScanOnce.OnceExactlyWhen | internal/scanner/scanner.go:135-166 | All walks together visit no path twice exactly when no root is so doubled |
| ScanOnce.EveryScheduleVisitsOnce | internal/scanner/scanner.go:58-133 | In every state of every run nothing was visited twice if no root is doubled; if one is, every completed scan visits some path twice |
| ScanOnce.RootsThatDoNotNest | internal/scanner/scanner.go:135-166 | Roots that do not nest are never doubled |
| ScanOnce.NestedRootsDouble | internal/scanner/scanner.go:135-166 | Two nested roots with one file below both are |
| Scan.ReceiveListing | internal/scanner/scanner.go:113-128 | The coordinator's loop counts and visits exactly the prefix up to the first visitor error |
| Scan.VisitsOfRoots | internal/scanner/scanner.go:58-133 | The entries of a scan are those of the walks of its roots |
| Scan.ExcludingIsFilteringFromRoots | internal/scanner/scanner.go:58-197 | A scan with excludes visits what the unrestricted scan of the same roots visits, less the excluded entries |
| DaemonDiff.FindTarget | cmd/daemon.go:277-283 | Finds a created file of the same size, time and root if there is one, in any map order |
| DaemonDiff.ComparePaths | cmd/daemon.go:255-270 | First pass: one true event per path in both snapshots that changed, and the deleted files set aside |
| DaemonDiff.FindCreated | cmd/daemon.go:271-275 | Second pass: exactly the created files |
| DaemonDiff.Diff | cmd/daemon.go:250-296 | True events only, every changed path in exactly one of them, and no deletion left that could have been half of a rename |
| DaemonLog.OnePathEach | cmd/daemon.go:250-296 | Distinct events concern distinct paths, so events can be counted by path |
| DaemonLog.RenamesAtMost | cmd/daemon.go:276-291 | Any correct account pairs files of one description at most as often as both sides have them |
| DaemonLog.GreedyPairsAll | cmd/daemon.go:276-291 | The greedy match pairs them that often |
| DaemonLog.GreedyIsMaximum | cmd/daemon.go:276-291 | No correct account has more renames; their number is the sum over descriptions of the smaller side |
| DaemonLog.CountsOf | cmd/daemon.go:250-296 | The number of events of each kind in terms of the two snapshots |
| DaemonLog.CountsAreOrderFree | cmd/daemon.go:250-296 | So these numbers do not depend on map iteration order |
| DaemonLog.ReplayAt | cmd/daemon.go:250-296 | Replaying an account gives each path what its one event says |
| DaemonLog.ReplayReachesAfter | cmd/daemon.go:250-296 | Replaying the diff on the old sizes gives the new ones |
| DaemonLog.ReorderedDescribes | cmd/daemon.go:292-294 | An account stays correct in any order |
| DaemonLog.ReplayInAnyOrder | cmd/daemon.go:250-296 | So the events of one poll may be replayed in any order |
| DaemonLog.Daemon.Poll | cmd/daemon.go:161-186 | A failed snapshot changes nothing; a good one appends a correct account with no deletion left that could be half of a rename, becomes the snapshot of the next poll if anything changed, and exactly the roots of its events are scanned again |
| DaemonLog.Daemon.Append | cmd/daemon.go:167-171 | All changes are logged and their roots collected |
| DaemonLog.RunDaemon | cmd/daemon.go:155-186 | Over any run of polls, failed ones included, the log replays from the first snapshot to the latest one that worked, and is made of one correct account per poll, each against the snapshot last taken over |
| DaemonLog.FiledUnderItsRoot | cmd/daemon.go:155-186 | Every logged event is filed under the root its file had in a snapshot |
| ConfidenceClaims.AssessClaim | internal/app/confidence_claims.go:13-85 | The loop computes score, status, families and identifiers as specified by the evidence as a set |
| ConfidenceClaims.Corroborate | internal/app/confidence_claims.go:52-64 | The score climbs from the strongest family once per further family |
| ConfidenceClaims.ScoreBounds | internal/app/confidence_claims.go:52-82 | At most 97 however many agree; at most 49 when contradicted and 30 when stale |
| ConfidenceClaims.SameItemsSameScore | internal/app/confidence_claims.go:13-85 | Permuting or repeating evidence changes neither score nor status |
| ConfidenceClaims.ScoreDependsOnLittle | internal/app/confidence_claims.go:13-85 | The score depends only on strongest item, number of families and the two flags |
| ConfidenceClaims.SupportNeverHurts | internal/app/confidence_claims.go:13-85 | One more supporting unexpired item of known kind never lowers the score |
| ConfidenceLaws.OneItem | internal/domain/evidence.go:61-68 | What a claim with one item is worth: 90, 85, 75, 60 or 40 by its kind, less once expired, nothing when unknown or contradicted |
| ConfidenceLaws.AnotherSource | internal/app/confidence_claims.go:52-64 | Another source of the same kind adds a quarter of what is missing, and at most 5 |
| ConfidenceLaws.SameSourceAddsNothing | internal/app/confidence_claims.go:34-44 | A source that repeats itself adds nothing |
| ConfidenceLaws.ContradictionCaps | internal/app/confidence_claims.go:66-82 | A first contradiction makes the claim conflicting and caps its score at 49 |
| ConfidenceLaws.UnknownItem | internal/app/confidence_claims.go:22-26 | An item of unknown kind changes no score and makes a known claim partial |
| ConfidenceLaws.ExpiryCaps | internal/app/confidence_claims.go:66-82 | Expiry of a supporting item caps the score at 30 and makes a known claim partial |
| Profiles.Limiting | internal/domain/risk_assessment.go:81-100 | The limiting axis applies and no other undercuts it |
| Profiles.LimitingIsFirst | internal/domain/risk_assessment.go:81-100 | Among equals it is the first |
| Profiles.OverallOf | internal/domain/risk_assessment.go:120-145 | Overall is the lowest applicable score, 100 without any |
| Profiles.OverallIsLowest | internal/domain/risk_assessment.go:120-145 | With all axes, or with all but the exempt ones, it is the lowest of the stated scores |
| Profiles.Overall | internal/domain/risk_assessment.go:120-145 | The running minimum computes it |
| Profiles.CleanupSummary | internal/domain/risk_assessment.go:81-112 | Summary of the five cleanup axes, and the planning gate |
| Profiles.WeakestOfFive | internal/domain/risk_assessment.go:81-100 | The summary is about the five cleanup axes, and of equally low ones names the first |
| Profiles.ZeroExactlyWhen | internal/domain/risk_assessment.go:114-118 | A profile is zero exactly without version, assessments and any score |
| Profiles.AssessAxis | internal/app/confidence_claims.go:89-109 | An axis is as good as its weakest required claim and as doubtful as its most doubtful one |
| Profiles.MostDoubtful | internal/app/confidence_claims.go:89-109 | One conflicting claim makes the axis conflicting, failing that one unknown claim unknown, failing that one partial claim partial |
| Profiles.EligibleMeansHighSummary | internal/domain/risk_assessment.go:81-112 | A profile that passes the gate has every applicable cleanup axis at 80 or more |
| Profiles.BelowTheGate | internal/domain/risk_assessment.go:102-112 | One axis below its threshold closes the planning gate, whatever the others score |
| Profiles.AtTheGate | internal/domain/risk_assessment.go:102-112 | Scores just at the thresholds open it |
| Profiles.AboveTheGate | internal/domain/risk_assessment.go:102-112 | So do higher ones, and exempt axes whatever they score |
| RiskPolicy.SafeExactlyWhen | internal/app/risk_policy.go:111-178 | SAFE exactly for ordinary unprotected regenerable resources with complete evidence, no critical unknown, and no dependency unless rebuildable in place |
| RiskPolicy.BlockedExactlyWhen | internal/app/risk_policy.go:111-178 | BLOCKED exactly for Android SDKs and Docker volumes and, of what no official tool handles, for the protected, the system-managed, and what a project depends on that cannot be rebuilt, where that dependency is active or from the scan itself and not in doubt |
| RiskPolicy.DispositionOf | internal/app/risk_policy.go:111-178 | Only SAFE is quarantined automatically, what has an official tool is left to it, BLOCKED is never deleted |
| RiskPolicy.ReasonsTell | internal/app/risk_policy.go:111-178 | Each reason and rating comes with its own circumstances |
| RiskPolicy.CompleteExactlyWhen | internal/app/risk_policy.go:33-77 | Cleanup evidence is complete exactly if each fact is verified, or stated the old way and not verified otherwise |
| RiskPolicy.EachFactIsItsOwn | internal/app/risk_policy.go:42-61 | Each normalized fact is verified by its own newer result or, without one, by its own legacy flag |
| RiskPolicy.LessEvidenceIsNoSafer | internal/app/risk_policy.go:111-178 | Less evidence, a protected path or a dependency never makes a resource safer |
| Freshness.ApplyFreshness | internal/app/confidence.go:33-60 | The in-place update computes the view of a resource at a time |
| Freshness.ViewAt | internal/app/confidence.go:33-60 | What the view changes and what it keeps: legacy confidence on every axis of an empty profile, the freshness score, overall confidence, and a SAFE verdict gone stale |
| Freshness.AssessmentsAt | internal/app/confidence.go:38-46 | Only the assessments of freshness change, and are partial below 80 |
| Freshness.WorthByAge | internal/app/confidence.go:14-29 | 100 for a week, at least 80 for 30 days, at least 50 for 90, 0 without an observation |
| Freshness.AgeOnlyRaisesRisk | internal/app/confidence.go:33-60 | Risk never falls with age, and SAFE is lost exactly when the observation is missing or over 30 days old |
| Freshness.FreshnessOnlyFades | internal/app/confidence.go:14-29 | Freshness never rises with time |
| Freshness.IdempotentUnlessEmpty | internal/app/confidence.go:33-60 | Applying it twice at one time equals once, except exactly for never-observed empty profiles with all axes exempt |
| Freshness.NothingButExemptionsExists | internal/app/confidence.go:33-60 | There are such profiles |
| Freshness.StoredResourcesAreIdempotent | internal/app/confidence.go:33-60 | No stored resource is such an exception |
| ResourceService.ConfidenceProfile | internal/app/resource_service.go:203-259 | Builds the profile: every axis assessed once with the score it states; for project resources the three project axes are known, conflicting or unknown as their facts are, and reach 90 exactly with them verified |
| ResourceService.LoneItem | internal/app/resource_service.go:203-272 | A claim resting on one item has that item's score or none |
| ResourceService.FactDecides | internal/app/resource_service.go:225-272 | A verified fact becomes supporting evidence, a refuted one contradicting, any other unknown |
| ResourceService.AxisIsDecided | internal/app/confidence_claims.go:89-109 | An axis whose claims rest on such facts needs all of them, and one refuted makes it conflicting |
| ResourceService.AxesOfProjectEvidence | internal/app/resource_service.go:203-259 | Ownership, regenerability and path safety score 90 exactly when the facts behind them are verified, and one refuted fact makes them conflicting |
| ResourceService.LatestModified | internal/scanner/resource_size.go:22-46 | A measured resource has the latest modification time of its entries, or none; never the zero time |
| ResourceService.Observe | internal/app/resource_service.go:70-135 | SAFE exactly with complete evidence of a regenerable ordinary resource, BLOCKED exactly for SDKs, volumes and what the system manages; disposition, sizes and profile follow; the confidence gate and the evidence gate agree |
| ResourceService.SafeForThirtyDays | internal/app/resource_service.go:70-135 | A resource observed SAFE stays SAFE and eligible exactly for 30 days |
| ResourceService.StoringKeepsTheVerdict | internal/store/sqlite/resource_repository.go:28-103 | Losing the exempt axes on storage changes neither eligibility nor overall score |
| ResourceService.ReclassifyRequired | internal/app/resource_service.go:169-192 | Risk only rises, SAFE is lost, nothing is reclaimable; BLOCKED exactly as RequirementBlocks says, with the disposition that goes with it; but for risk, assessment and reclaimable size nothing changes; fails exactly where the resource is missing or cannot be stored |
| ResourceService.RequiredNodeModulesAreOnlyReviewed | internal/app/resource_service.go:158-192 | A required regenerable node_modules goes to review, not to BLOCKED |
| Orchestrator.ReclassifyAll | internal/app/analysis_orchestrator.go:300-323 | After the loop each required resource is reclassified in the repository, and the result takes over its risk and reclaimable size and nothing else; the rest is as it was; fails exactly where a required resource is missing, or needs a row that is not stored |
| Orchestrator.RequiredStaysUnselectable | internal/app/analysis_orchestrator.go:300-323 | Nor does it become SAFE at any later time |
| Sorting.Sort | internal/app/plan_service.go:109-117 | What sort.Slice promises: a sorted permutation |
| Sorting.SortedIsUnique | internal/app/plan_service.go:109-117 | Where nothing ties, sorting has one result |
| Planner.BeforeIsStrictOrder | internal/app/plan_service.go:109-117 | Confidence, size and ID order resources strictly |
| Planner.StringLessMeans | internal/app/plan_service.go:109-117 | IDs are compared at the first character where they differ, a prefix coming first |
| Planner.RankedBest | internal/app/plan_service.go:109-117 | The more confident comes first, of equally confident ones the larger, then the lower ID |
| Planner.ListOf | internal/app/plan_service.go:93-108 | Which list a resource goes to: its scope, its verdict, 30 days, and the gate |
| Planner.InScope | internal/app/plan_service.go:78-90 | The scope filter keeps exactly what lies at or below the project root |
| Planner.Partition | internal/app/plan_service.go:93-108 | The three lists are the resources of each category as seen now, in listing order |
| Planner.OwnerProjectID | internal/app/plan_service.go:177-188 | The first OWNS edge decides, none means no owner, a failed lookup is passed on |
| Planner.SelectGreedily | internal/app/plan_service.go:128-159 | The loop takes the shortest prefix of owned candidates reaching a positive target, else all; fails exactly at a failed lookup it gets to |
| Planner.SelectsIsUnique | internal/app/plan_service.go:128-159 | That description leaves one selection |
| Planner.Build | internal/app/plan_service.go:68-162 | The whole planner: ranking, selection, status, review and blocked lists, and its failures |
| Planner.InsufficientExactlyWhen | internal/app/plan_service.go:155-159 | INSUFFICIENT exactly when all owned candidates together stay below the target |
| Planner.PlanIgnoresListingOrder | internal/app/plan_service.go:92-162 | With distinct IDs the outcome does not depend on the order of the listing |
| Planner.PlannedIsSafe | internal/app/plan_service.go:92-154 | Every plan item is of a resource that is SAFE, eligible, in scope and owned at planning time, and has its path, type, size, time and confidence, and the source of the first edge that owns it |
| Planner.PlannedItemsDiffer | internal/app/plan_service.go:140-154 | Distinct resources become distinct items |
| Planner.RequiredIsNeverPlanned | internal/app/plan_service.go:92-108 | What a run found required is in no later plan, for any time, scope and target |
| Planner.CandidateForThirtyDays | internal/app/plan_service.go:93-108 | A resource observed SAFE is a candidate exactly for 30 days, then goes to review |
| PlanRepository.ValidateCleanupPlan | internal/store/sqlite/cleanup_plan_repository.go:119-151 | The loop accepts exactly the plans with complete SAFE items of distinct resources and a matching total |
| PlanRepository.BuiltPlanIsAccepted | internal/store/sqlite/cleanup_plan_repository.go:119-151 | A plan built from stored resources is accepted exactly when target and IDs are proper and no selected resource has a zero modification time |
| PlanRepository.UsableTimesSuffice | internal/app/plan_service.go:204-212 | So it is accepted, whatever the target, if no owned candidate has such a time; without a target that is necessary too |
| PlanRepository.ZeroModificationTimeIsRefused | internal/app/plan_service.go:204-212 | A stored candidate whose recorded modification time is the zero time is planned but refused |
| Workspaces.TopLevelWorkspaceCandidates | internal/app/analysis_orchestrator.go:431-459 | Keeps, in order, all but the Node workspaces strictly inside another |
| Workspaces.SurvivorsDoNotNest | internal/app/analysis_orchestrator.go:431-459 | Surviving Node roots form an antichain |
| Workspaces.DroppedIsCovered | internal/app/analysis_orchestrator.go:431-459 | Every dropped workspace lies strictly inside a survivor |
| Workspaces.ContainingSurvivorsShareRoot | internal/app/analysis_orchestrator.go:431-459 | All survivors containing one project have one root |
| Workspaces.NodeProjectAllowedByWorkspaces | internal/app/analysis_orchestrator.go:515-538 | The first containing Node workspace decides; without one a project passes |
| Workspaces.AllowedByAll | internal/app/analysis_orchestrator.go:515-538 | With one candidate per root, allowed means admitted by all containing survivors |
| Workspaces.VerdictIgnoresOrder | internal/app/analysis_orchestrator.go:431-538 | With one candidate per root the verdict does not depend on candidate order |
| Workspaces.OrderDecidesExactlyWhen | internal/app/analysis_orchestrator.go:431-538 | In general order decides exactly when two containing survivors disagree |
| Workspaces.SameRootCandidatesCanDisagree | internal/app/analysis_orchestrator.go:515-538 | Two manifests of one directory with different members do |
| ProjectForest.NearestEnclosingProject | internal/output/projects.go:120-140 | The loop finds the nearest enclosing row, or -1 |
| ProjectForest.NearestMeans | internal/output/projects.go:120-140 | That row has most separators among the enclosing rows and is the first such; none means none encloses |
| ProjectForest.Parent | internal/output/projects.go:120-140 | A parent path is strictly shorter, so the forest has no cycle |
| ProjectForest.ParentIsDeepestExactlyWhen | internal/output/projects.go:115-140 | The parent is a deepest proper ancestor, except exactly where a row for the filesystem root precedes all enclosing rows just below it and none is deeper |
| ProjectForest.WithoutRootRowsParentIsDeepest | internal/output/projects.go:115-140 | Without a row for the filesystem root it always is |
| ProjectForest.RootBeforeItsChild | internal/output/projects.go:115-140 | A concrete table where it is not |
| ProjectForest.DeepestEnclosingIsOnePath | internal/output/projects.go:115-140 | Equally deep enclosing rows have one path |
| ProjectForest.BuildProjectForest | internal/output/projects.go:93-113 | Every node has exactly its rows as children, roots are the rows without parent, all in input order |
| ProjectForest.WriteProjectTree | internal/output/projects.go:151-160 | Prints the rows of a subtree in preorder |
| ProjectForest.RenderText | internal/output/projects.go:54-66 | Prints the whole forest, root by root |
| ProjectForest.EveryRowIsPrintedOnce | internal/output/projects.go:93-160 | Every row is printed, and printed once |
| ProjectForest.SiblingsAreDisjoint | internal/output/projects.go:93-113 | Subtrees of siblings share no row |
| ProjectForest.HasRoot | internal/output/projects.go:93-113 | Every row hangs in the tree of some root |

## Left out

- Links: symbolic links in the directories above an item, and links followed when a file is written or a directory made.
- Path text: volume names, Unicode normalization, Windows case folding, relative configured paths.
- Nested plan items: `Execute` and `Move` are stated for items that do not contain one another, with a fresh transaction ID, distinct slot names and empty slots (`Layout`).
- RoundTrip.RestoreUndoesExecute: is about calls that do not fail, on a disk where the directory of every item exists; with failures Conservation.ConservedOverRuns and Conservation.ConservedOverRestores are what remains.
- Scan.EverySchedule: the file system is fixed during a scan.
- Scan.PrepareRoots: roots that cannot be normalized are reported without their text.
- ConfidenceClaims.AssessClaim: evidence identifiers are a multiset, not the sorted list of the source, and reasons are left out.
- Planner.Build: one reading of the clock serves the whole call; sums are unbounded integers, so 64-bit overflow is not modelled; regeneration commands are not carried.
- PlanRepository.ValidateCleanupPlan: paths, types and statuses have no invalid values in the model, so those checks have nothing to refuse.
- Freshness.ApplyFreshness: the source writes into the slice of assessments it shares with its caller; the model works on values.
- ResourceService.Observe: the enrichment of cleanup evidence from Git and the file system is an input, and persisting the resource is not part of it.
- DaemonLog.Daemon.Poll: the scans started for changed roots, the entries for start and incremental scan, and errors of appending to the log are left out.
- CleanupService.Execute: resource lookup and validation are one answer per item, accepted or not; JSON encoding and manifest time stamps are left out.
- Repository.TransactionRepository.FindByID: items come back in stored order, not ordered by ID.
- Other processes that create or change files while a transaction or a scan runs.
- Prefix drawing and column layout of the project table; duplicate and Git-fallback filters of projects.
- Adapters, commands, progress output, configuration editing, version matching, database migrations: foreign I/O or simple code.
