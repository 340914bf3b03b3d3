# Verified model of the file manager's core

This project models, in Dafny, the parts of the self-hosted file manager whose correctness is hardest to see by
reading one function: the crash-safe upload engine, the file tree with its trash, keyset pagination, and shares with
their session cookies. It is organised as follows.

* `Schema` holds the SQLite rows as maps, with unique indexes and foreign keys as guards on single-row statements.
* `Forest`, `Tree`, `TreeEdits`, `TrashBin` and `Purge` give the tree operations as functions on those maps, the joint
  invariant that makes them safe, and what each operation decides. `FilesService` is the mutable service: the cycle
  walk, the recursive common table expression, the row-by-row updates and deletes, proved against those functions.
* `Machine` is the whole system as a state machine. One action is one durable write (statement, transaction or file
  system call), taken together with the reads it rests on, one read whose result is kept, a failure, or a crash.
  Holders of the upload mutex exclude one another; tree and share operations and the object removals that follow a purge
  come between any two actions. What a holder of the mutex has read still stands when it writes (`Safety.ReadsStand`).
* `Invariant`, `Steps` and `Reconciling` prove that every action keeps the invariant, `Frames` what each kind of action
  leaves alone. `Safety` draws the consequences for all runs. `Orphans` says exactly which objects without a row and
  `Leftovers` exactly which staging files a run can leave behind. `Witnesses` holds concrete runs: one for each of these
  causes, and one for each guarantee that depends on a condition.
* `Recovery` and `Convergence` prove that reconciliations interrupted by crashes end where an uninterrupted one ends.
* `Db`, `Storage`, `UploadService` and `PurgeHandler` are the mutable services. A parameter `fails` names the calls that
  meet an error. Every upload operation is proved to leave the stated tables and files, and its writes, one after the
  other, to be a run of the machine, so that whatever `Safety` says of all runs holds of them, crashes inside them
  included. `ReconcileRows` follows the two passes of a reconciliation row by row, `OpRuns` relates operations to runs.
  `App` puts all services over one database and one store: every client call is a step of the machine, and a purge is a
  step followed by its removals. The methods state their effect on rows, files and bytes outright, beside the functions
  and runs they agree with.
* `Paging`, `Session`, `Shares`, `SharesService` and `Revocation` cover listing, cookies and shares. `Basics` is
  vocabulary.

`dafny verify dfyconfig.toml` checks everything.

## Where the code differs from its documentation

`docs/adr/0002-tus-upload-crash-safe-finalization.md` promises that no corrupt or orphan files are left behind. It does
not hold, in these ways.

* Content. A chunk that is too long, fails, or is torn by a crash stays in the staging file
  (`internal/uploads/service.go:200-211`). The object of a finished upload is the concatenation of the accepted chunks if
  and only if there were no such bytes (`Safety.ContentExactIff`; a run that spoils it is `Witnesses.ContentSpoilt`).
* Orphaned objects. In every run an object without a file row, whose removal is not owed either, is the object of an
  upload of one of four kinds, and every upload of these kinds has such an object (`Orphans.OrphanIff`): it is being
  finalised and was renamed (`Witnesses.OrphanByCrash`; reconciling ends this state); it was terminated after its rename,
  which removes only the staging file (`internal/uploads/service.go:315-340`, `Witnesses.OrphanByTermination`); it was
  marked complete although its name was taken when it was reconciled (`internal/uploads/service.go:421-434`,
  `Witnesses.OrphanByTakenName`); or its file was purged, and its key was not read, its removal failed, or a crash came
  first (`internal/files/service.go:437-445`, `internal/httpapi/handlers.go:290-300`, `Witnesses.OrphanByLostRemoval`).
  An orphan of the last three kinds is there after every further run (`Orphans.OrphanStays`).
* An upload that is reconciled gains its file if and only if its name is free on its turn (`Convergence.FileGainedIff`).
* Staging files. In every run a staging file is there if and only if an active upload still has it, the operation under
  way has yet to give it a row or to remove it, or it was left (`Leftovers.StagingIff`). It is left in two ways: a crash
  comes before the row is written (`Witnesses.StagingWithoutRow`) or before the file is removed
  (`Witnesses.StagingOfTerminated`), or its removal fails and the error is dropped
  (`internal/uploads/service.go:131,338,373`): after a failed insertion (`Witnesses.StagingOfFailedInsert`), a termination
  (`Witnesses.StagingOfFailedRemoval`) or an expiry (`Witnesses.StagingOfExpired`). What is left belongs to a terminated
  or expired upload, and then goes only if that upload is terminated once more (`Leftovers.LeftUntilTerminated`), or to no
  upload, and then stays after every further run (`Leftovers.StrandedStays`).
* Crashes between phases are said to be repaired. Rows that a crash leaves in `verifying`, between the last chunk and the
  durable intent, are left as they are by every reconciliation (`Convergence.RowOutcome`, `Witnesses.VerifyingStays`) and
  keep their reservation until the upload is terminated.

Other findings:

* A failed query for a quota sum counts as 0 (`internal/uploads/service.go:85-89`), so the quota holds for runs without
  such a failure (`Safety.QuotaHolds`) and can be exceeded with one (`Witnesses.QuotaBroken`).
* An expiry removes the staging file even when the update of the row failed (`internal/uploads/service.go:366-373`). The
  upload is then still open but has no file for its chunks (`Witnesses.StagingLost`).
* Upload rows are never deleted, and `uploads.parent_id` is `ON DELETE RESTRICT`: a folder that any upload ever named
  can never be purged, in any further run (`Safety.NamedFolderStays`). This is also what protects files finalised into a
  folder after it was trashed.
* A folder listing puts folders before files, but its cursor compares only name key and id
  (`internal/files/service.go:142-144`). `Paging.MixedFolderSkips` shows a file that is never returned, and
  `Paging.ExactlyOnceIff` says for all listings when every row is returned exactly once.
* `ValidateSessionCookie` accepts anything for a share without password, also after a revocation; it is the token lookup
  that refuses such a share (`Revocation.RevokedForEver`, `Revocation.CookieValidIff`).
* A reconciler never marks an upload failed: the branch for a missing pair of files is unreachable (`Safety.OneCopy`).

The last point, the classification of orphaned objects and the theorems on runs in general assume of the reconciler that
the statements of one repair transaction (`internal/uploads/service.go:419-434,455-473`) succeed or fail together and that
its existence checks are right. Its code drops these errors as well. If only the insertion of the node failed, an upload
would be completed without its file although the name is free; if only the update of the upload failed, the file would be
there while the upload is still being finalised, and once that file is purged the branch for a missing pair of files is
reached.

## Model

| member | source | states |
|---|---|---|
| Safety.Reachable | internal/uploads/service.go:40-484 | the joint invariant holds after every run of uploads, terminations, reconciliations, tree and share operations, purges, crashes and failures, those among them whose errors the code drops: a sum read as 0, an expiry whose row is not written, a remembered parent not read, a removal that fails |
| Reconciling.StepKeeps | internal/uploads/service.go:40-484 | every single durable write, read, failure or crash keeps the invariant |
| Safety.ReadsStand | internal/uploads/service.go:402-414 | what the holder of the mutex read of an unfinished upload (its row, its two files, that its key has no file row) stands after every action that needs no mutex |
| Safety.NoDanglingFile | internal/uploads/service.go:263-312 | in every run each committed file has its node, its object on disk, and the checksum of that object's bytes |
| Safety.QuotaHolds | internal/uploads/service.go:83-93 | in every run in which no sum query fails, stored bytes plus reservations stay within the storage limit, although the sums are read apart and purges run in between |
| Witnesses.QuotaBroken | internal/uploads/service.go:85-89 | a run in which one sum query fails ends above the limit |
| UploadService.GuardMeansQuota | internal/uploads/service.go:83-93 | in every state reached without a failed sum query the guard refuses exactly the uploads that would exceed the limit |
| Steps.CommitConservesQuota | internal/uploads/service.go:286-312 | a commit moves exactly the expected size from reserved to stored |
| Safety.GuardRightIff | internal/uploads/service.go:91 | the int64 quota guard is right for all sums it can meet if and only if the two limits together stay below 2^63 |
| Safety.ContentExactIff | internal/uploads/service.go:190-236 | the object of a committed file is the concatenation of the accepted chunks, of the recorded length, if and only if no stray bytes were appended |
| Witnesses.ContentSpoilt | internal/uploads/service.go:200-211 | a run with a torn write ends in a committed file of size 1 whose object has two bytes |
| Safety.OneCopy | internal/uploads/service.go:402-480 | while bytes are taken or checked the object does not exist, and the staging file does if and only if no expiry of this upload lost its row update; while finalizing exactly one of them exists; no upload is ever failed |
| Safety.DroppedExactly | internal/uploads/service.go:366-373 | an upload counts as having lost its staging file from exactly the step on in which an expiry of its own row fails to write the row |
| Safety.HistoryIdle | internal/uploads/service.go:184-226 | every upload row has its history and a chunk under way is among the stray bytes, so the tests of history in the machine decide no reachable step |
| Witnesses.StagingLost | internal/uploads/service.go:366-373 | a run in which an expiry fails to write its row ends with an upload still created and no staging file |
| Safety.Bookkeeping | internal/uploads/service.go:208-226 | received never exceeds expected, reservations follow the state, later states have received everything, and a staging file of an upload that takes or checks bytes holds at least what was received |
| Safety.AtMostOneFile | internal/uploads/service.go:286-312 | two file rows under one upload's key are the same row, and then the upload is complete and has committed once |
| Safety.AtMostOnce | internal/uploads/service.go:407-470 | over a whole run, purges included, at most one step gives an upload's key a file row, and none does unless the upload is complete |
| Safety.FilesAndNodesMatch | migrations/001_initial_schema.sql:39-48 | in every run the file nodes are exactly the nodes with a file row |
| Safety.CounterCounts | internal/uploads/service.go:407-470 | an upload's commit counter rises by one exactly in the step that gives its key a file row |
| Safety.RowAsRequested | internal/uploads/service.go:111-128 | in every run an upload row that appears has the folder, name and size of the request under way, its size reserved, nothing received, and the two keys drawn for it |
| Safety.CommittedAsRequested | internal/uploads/service.go:286-303 | in every run a file row that appears is that of an upload, with its key, size and checksum, and its node is new, in the upload's folder, under its name and untrashed |
| Safety.Lifecycle | internal/uploads/service.go:184-226 | over every run an upload row keeps its identity, accepted bytes only grow, complete and terminated are final, and what is over never becomes active again |
| Safety.OnlyTrashDisappears | internal/files/service.go:406-466 | in every run a node that disappears was trashed and lay in the purged subtree |
| Safety.NamedFolderStays | migrations/001_initial_schema.sql:54-57 | the folder an upload names in some reachable state is there after every further run |
| Safety.TreeAlwaysSound | migrations/001_initial_schema.sql:9-25 | in every run each node's chain ends at a system folder, active siblings have distinct names, and an untrashed node below a trashed one is a file in a folder some upload names |
| Orphans.OrphanIff | internal/uploads/service.go:343-484 | in every run an object has no file row and no removal owed if and only if it belongs to an upload that is finalizing or terminated after its rename, complete without ever committing, or complete with its file purged and the removal lost |
| Orphans.OrphanStays | internal/uploads/service.go:315-484 | an orphaned object whose upload is terminated or complete is there, without a row and without a removal owed, after every further run, reconciliations included |
| Witnesses.OrphanByCrash | internal/uploads/service.go:274-284 | first cause: a crash between the rename and the metadata commit |
| Witnesses.OrphanByTermination | internal/uploads/service.go:324-338 | second cause: termination after that crash closes the row and removes no object |
| Witnesses.OrphanByTakenName | internal/uploads/service.go:421-434 | third cause: a folder takes the name, and a complete reconciliation marks the upload complete without a file row |
| Witnesses.OrphanByLostRemoval | internal/httpapi/handlers.go:286-305 | fourth cause: a crash after the rows were purged and before the object was removed |
| Leftovers.StagingIff | internal/uploads/service.go:107-133 | in every run a staging file is there if and only if an active upload still has it, or the operation under way holds it, or a failed removal or a crash left it; the three exclude one another, and what is held or left belongs to ended uploads or to none |
| Leftovers.StagingFileOf | internal/uploads/service.go:315-373 | an upload has its staging file, by its state: while active exactly unless an expiry dropped it or it was renamed, once ended exactly while its removal is under way or after it was left, once complete never |
| Leftovers.LeftUntilTerminated | internal/uploads/service.go:315-340 | a staging file stops being left in exactly the step that terminates the upload that names it |
| Leftovers.StrandedStays | internal/uploads/service.go:343-484 | a staging file that no row names and no operation holds is there, without a row, after every further run, reconciliations included |
| Witnesses.StagingWithoutRow | internal/uploads/service.go:107-133 | a crash between creating the staging file and inserting the row leaves the file of no upload |
| Witnesses.StagingOfTerminated | internal/uploads/service.go:324-338 | a crash between closing the row and removing the file leaves the file of a terminated upload |
| Witnesses.StagingOfFailedRemoval | internal/uploads/service.go:338 | a removal that fails leaves the file of a terminated upload |
| Witnesses.StagingOfFailedInsert | internal/uploads/service.go:129-133 | an insertion and then a removal that fail leave the file of no upload |
| Witnesses.StagingOfExpired | internal/uploads/service.go:366-373 | a removal that fails leaves the file of an expired upload |
| Convergence.RecoveryConverges | internal/uploads/service.go:377-484 | any number of reconciliations, each cut short anywhere, followed by one that finishes, end in the same view as one uninterrupted reconciliation, with nothing left finalizing |
| Recovery.ViewsAgree | internal/uploads/service.go:377-484 | two states have the same view if and only if they have the same upload rows, objects and folders, the same names taken, the same files up to node ids, and the same bytes staged for uploads being finalised |
| Convergence.PhaseBImmaterial | internal/uploads/service.go:274-277 | a crash after the durable intent recovers to the same view whether the rename had happened or not |
| Convergence.FileGainedIff | internal/uploads/service.go:421-434 | an interrupted upload gains its file if and only if its name is free once the rows before it have been dealt with |
| Convergence.RowOutcome | internal/uploads/service.go:350-481 | a reconciliation completes every finalizing row, expires every stale one, and leaves all others alone |
| Witnesses.VerifyingStays | internal/uploads/service.go:208-243 | a crash after the last chunk leaves a row verifying with its reservation, a state RowOutcome says no reconciliation changes |
| UploadService.Service.CreateUpload | internal/uploads/service.go:40-136 | which of the refusals and failing calls answers, in their order, each condition on tables, wrapped sum and calls spelled out; on success every column of the new row (the requested folder and name, the whole size reserved, nothing received, the two keys) and an empty staging file; otherwise no row, and a staging file only if its removal failed; a run of the machine |
| UploadService.Service.WriteChunk | internal/uploads/service.go:175-239 | a chunk is taken if and only if the upload exists, takes bytes, has not expired, the offset is what was received and its staging file opens; then the bytes are appended, and counted unless they are too many or reading or the update fails; the chunk that completes the size finalises the upload; each other case answers its own error and changes nothing; a run of the machine |
| UploadService.Service.FinalizeUpload | internal/uploads/service.go:241-313 | checksum and intent on the row, the bytes under the object key, and, if no call fails and no active sibling has the name, a file node with the row's folder and name, a file row with its size and checksum, and the row complete; otherwise exactly the stages before the failing one |
| UploadService.Service.TerminateUpload | internal/uploads/service.go:315-340 | a row that is not complete gives up its reservation and its staging file; no change if the lookup or the update fails, the file stays if its removal does; a run of the machine |
| UploadService.Service.Reconcile | internal/uploads/service.go:343-484 | row by row and for any set of failing calls: stale rows expire, interrupted ones are completed once their object is there, no other row changes; the staging files of stale rows go and those of interrupted ones become their objects, byte for byte, and no other staging file or object changes; the nodes and file rows that come in are those of completed uploads whose names were free, and no other changes; with no failing call it reaches the target view and leaves nothing finalizing and nothing stale; a run of the machine |
| UploadService.SumOf | internal/uploads/service.go:85-89 | adding up the rows one by one gives the sum of the column |
| Tree.ChainEnds | internal/files/service.go:232-250 | every parent chain is finite and ends at ROOT or TRASH_ROOT |
| Forest.WithinIff | internal/files/service.go:232-250 | a node is in a subtree if and only if a path of parents leads from it to the root of the subtree |
| Tree.UntrashedBelowTrashed | internal/uploads/service.go:286-290 | an untrashed node below a trashed one is a file directly in a trashed folder that an upload names |
| Tree.CreateFolderKeeps | internal/files/service.go:38-73 | creating a folder keeps the tree invariant |
| Tree.RenameKeeps | internal/files/service.go:181-209 | renaming keeps the tree invariant |
| Tree.MoveKeeps | internal/files/service.go:211-266 | moving past the cycle check keeps the tree invariant |
| TreeEdits.CreateFolderDecided | internal/files/service.go:38-73 | a folder is created if and only if its parent is an active folder and its id and name are free; it is a leaf and nothing else changes |
| TreeEdits.RenameDecided | internal/files/service.go:181-209 | a rename succeeds if and only if the new name is free among active siblings, and changes the name alone |
| TreeEdits.MoveDecided | internal/files/service.go:211-266 | a move succeeds if and only if the target is an active folder outside the subtree and the name is free there, and changes the parent alone |
| TreeEdits.MoveCarriesSubtree | internal/files/service.go:252-257 | after a move exactly the moved subtree hangs below the target and its ancestors, and all other pairs are related as before |
| Tree.TrashKeeps | internal/files/service.go:268-313 | trashing keeps the tree invariant |
| Tree.TrashRelocates | internal/files/service.go:286-310 | trashing hangs the node under TRASH_ROOT, remembers its parent, flags exactly its subtree and changes no other row |
| Tree.RestoreKeeps | internal/files/service.go:342-404 | restoring keeps the tree invariant |
| Tree.RestoreTargetOutside | internal/files/service.go:351-370 | why no cycle check is needed: the chosen target is an active folder and never lies inside the restored subtree, even if the remembered parent could not be read |
| Tree.RestoreIsAllOrNothing | internal/files/service.go:372-402 | the two guarded updates succeed if and only if the table they aim at has distinct active siblings, and then they reach it |
| TrashBin.RestoreDecided | internal/files/service.go:342-404 | a restore succeeds if and only if its target has no active sibling of that name and no two children of one parent in the subtree share a name |
| TrashBin.RestoreMeans | internal/files/service.go:342-404 | where a restored node comes, when that succeeds, what each row is afterwards, and which error it is otherwise, on the tables alone |
| TrashBin.TrashThenRestore | internal/files/service.go:268-404 | restoring right after trashing gives every row back if and only if the parent was active and the whole subtree untrashed |
| FilesService.Subnodes | internal/files/service.go:297-309 | the recursive query ends on a forest and yields, without duplicates, exactly the nodes whose upward walk meets the start |
| FilesService.WalkMeets | internal/files/service.go:232-250 | the cycle walk ends and meets the node if and only if the target lies in its subtree |
| FilesService.Service.CreateFolder | internal/files/service.go:38-73 | success if and only if the parent, ROOT by default, is an untrashed folder, the id is new and no active sibling has the name; then exactly this row comes in; otherwise the error of the first failing check and no change |
| FilesService.Service.RenameNode | internal/files/service.go:181-209 | success if and only if the node exists, is no system folder and is trashed or has no active sibling of that name; then its name alone changes; otherwise the error of the first failing check and no change |
| FilesService.Service.MoveNode | internal/files/service.go:211-266 | success if and only if the node is no system folder, the target is an untrashed folder outside its subtree, and the node is trashed or its name is free there; then its parent alone changes; otherwise the error of the first failing check and no change |
| FilesService.Service.TrashNode | internal/files/service.go:268-313 | success if and only if the node exists and is no system folder; then it lies under TRASH_ROOT and remembers its parent, exactly its subtree is flagged, and no other row changes |
| FilesService.Service.RestoreNode | internal/files/service.go:342-404 | the target is the remembered parent if that was read and is an untrashed folder, else ROOT; success if and only if the name is free there and no two siblings below the node share a name; then exactly the subtree is unflagged and the node hung under the target; otherwise which error, and no change |
| FilesService.Service.ClearTrashed | internal/files/service.go:379-396 | a row-by-row update fails if and only if the finished table would break the index, whatever the row order |
| FilesService.Service.PurgeNode | internal/files/service.go:406-466 | success if and only if the node is trashed and no system folder, no upload names a folder below it and children are visited first; then nodes, file rows and shares are there if and only if they were there and they, or the share's target, lie outside the subtree, all unchanged, and the keys of the purged files are returned once each except those a failing query does not deliver; otherwise which error, and no change |
| FilesService.Service.StorageKeys | internal/files/service.go:427-445 | the keys collected are exactly those of the subtree's files that are read, without duplicates |
| FilesService.Service.ListNodes | internal/files/service.go:80-179 | the rows are untrashed, no system folders, children of the given folder (ROOT by default) or matches of the search pattern, after the cursor by name key and id; folders precede files in a folder listing, then name key and id decide; at most the limit if it is in 1..200 and 50 otherwise; what is missing comes later in this order, and a next cursor, the place of the last row, is there exactly when something is missing |
| Purge.PurgeDecided | internal/files/service.go:406-466 | a purge commits if and only if no upload names a folder of the subtree and the engine visits children first; then a node, a file row or a share is there if and only if it was there and it, or the share's target, is outside the subtree, and all that is there, uploads included, is unchanged |
| Purge.PurgeOnlyTrash | internal/files/service.go:406-466 | a committed purge deletes no untrashed node |
| Purge.PurgeKeeps | migrations/001_initial_schema.sql:11-78 | a committed purge leaves no reference to a missing node |
| Purge.PurgeKeysExact | internal/files/service.go:427-445 | the returned keys are exactly those that had a file row before the purge and have none after |
| PurgeHandler.Api.HandlePurgeNode | internal/httpapi/handlers.go:286-305 | after a purge an object is there, unchanged, if and only if it was there and it is not that of a purged file whose key was read, is valid and whose removal went through; no remaining file loses its object |
| App.App.PurgeNode | internal/httpapi/handlers.go:286-305 | over the joint state the call is the purge action followed by one removal or failed removal for each purged key |
| App.App.TrashNode | internal/files/service.go:268-313 | the table and answer of every case, and over the joint state exactly one action of the machine |
| App.App.MoveNode | internal/files/service.go:211-266 | the table and answer of every case, and over the joint state exactly one action of the machine |
| App.App.RestoreNode | internal/files/service.go:342-404 | the table and answer of every case, and over the joint state exactly one action of the machine |
| Storage.PathsInjective | internal/storage/storage.go:49-68 | every generated key has a path and distinct keys have distinct paths |
| Storage.PathsMean | internal/storage/storage.go:49-68 | a key has a path if and only if it has four characters and no separator; objects lie one level below their directory, under the first two characters of the key |
| Storage.Store.MoveStagingToObject | internal/storage/storage.go:97-124 | the bytes leave one area and appear in the other in one step, or an invalid key, a missing file or a failing call changes nothing |
| Storage.Store.CreateStagingFile | internal/storage/storage.go:70-76 | an empty file, or an error and no change if the key is invalid or taken or the call fails |
| Paging.DrainAscends | internal/files/service.go:81-115 | a drained search is strictly ascending whatever happens to the table between pages |
| Paging.LessMeans | internal/files/service.go:104-118 | the order of texts is by the first character that differs, and a prefix comes first |
| Paging.DrainMissesNothing | internal/files/service.go:104-115 | a row that matches throughout is returned |
| Paging.ListingReturnsOnce | internal/files/service.go:91-147 | a node that matches throughout under the same name key is returned exactly once by a search, or by a folder listing that holds one kind of node on every page, wherever other nodes come, go or move between pages |
| Paging.DrainInventsNothing | internal/files/service.go:156-163 | every row returned was in the table its page was read from |
| Paging.PageCount | internal/files/service.go:164-173 | N rows at limit L take max(1, ceil(N / L)) pages, in a search and in a folder whose children are of one kind |
| Paging.Drain | internal/files/service.go:91-173 | following the cursors of a table that stays as it is ends, mixed folders included, and takes that many calls |
| Paging.DrainIsSortedList | internal/files/service.go:136-173 | draining a search, or a folder whose children are of one kind, gives the sorted list |
| Paging.ExactlyOnceIff | internal/files/service.go:136-147 | any listing returns every row exactly once if and only if each page boundary of its sorted list also separates it by name key and id |
| Paging.MixedFolderSkips | internal/files/service.go:142-144 | a folder with one folder and one file, listed singly, never returns the file |
| Session.TokenRoundTrip | internal/shares/service.go:272-278 | a printed token splits into five parts if and only if the share id has no dot, and the parts parse back to what was printed |
| Session.ParseDecimal | internal/shares/service.go:249-260 | parsing undoes printing exactly on 64-bit values |
| Session.DecimalShape | internal/shares/service.go:273 | a number is printed as a minus sign if negative and its digits without leading zeros |
| Session.ParseIntMeans | internal/shares/service.go:249-260 | a text parses to a number if and only if it is at most one sign and then only digits of that value, in the 64-bit range |
| Session.HexMeans | internal/shares/service.go:266-268 | a signature is printed as two lower-case hexadecimal digits for each byte |
| Session.HexInjective | internal/shares/service.go:266-270 | different signatures print differently |
| Session.SplitParts | internal/shares/service.go:235 | splitting loses nothing and leaves no dot in any part |
| Session.PrintedTokenAccepted | internal/shares/service.go:227-278 | a printed token is accepted for a share if and only if id, version and epoch are that share's and it has not expired, or no password is needed |
| Session.AcceptedIff | internal/shares/service.go:227-270 | a share with no or an empty password accepts everything; any other accepts exactly the texts made of its own dot-free id, texts of its version and epoch, an expiry not passed, and the hexadecimal signature of these four parts as they stand |
| SharesService.Service.CreateShare | internal/shares/service.go:74-132 | which refusal, or every column of the new row: target, token hash, password hash if a password is set, expiry, unrevoked, version one, the current epoch; no other row changes and tokens stay unique |
| SharesService.Service.GetShareByToken | internal/shares/service.go:143-166 | not found if and only if no row has the token; for the row that has it, revoked, expired, revoked by epoch, or that row, in this order |
| SharesService.Service.RevokeShare | internal/shares/service.go:192-207 | not found, or the flag is set and the version raised by one in this row alone |
| SharesService.Service.UnlockWithPassword | internal/shares/service.go:209-225 | no password if none or an empty one is set, else wrong password, else the cookie: id, version, epoch and the time a day ahead, joined by dots and followed by the hexadecimal signature of that text; it is accepted exactly until then |
| SharesService.Service.CheckNodeInShare | internal/shares/service.go:281-310 | success if and only if the node is untrashed and the share's target is the node or an ancestor |
| Shares.LookupExact | internal/shares/service.go:143-166 | a lookup yields a share if and only if its row carries the token and is unrevoked, unexpired and of the current epoch |
| Revocation.RevokedForEver | internal/shares/service.go:155-163 | after a revocation the token fails lookup after every further run, at any time and under any epoch |
| Revocation.RowHistory | internal/shares/service.go:192-207 | over every run a share row is gone for good or is the old row with one more version per revocation |
| Revocation.SharesOutlive | migrations/001_initial_schema.sql:78 | in every run a share row disappears only in the purge of a trashed node whose subtree holds its target |
| Revocation.TokensStayUnique | migrations/001_initial_schema.sql:79 | token hashes are distinct in every run |
| Revocation.CookieValidIff | internal/shares/service.go:245-262 | a cookie issued earlier is accepted if and only if no password is needed, or no revocation came since and it has not expired |

## Left out

- Convergence.RecoveryConverges: takes the query's row order and the reconciler's time as fixed over the attempts, and compares states up to node ids and staging files no unfinished row needs.
- UploadService.Service.Reconcile: does not model one statement of a repair transaction failing while a later one of the same transaction succeeds, nor an existence check that meets an error; a transaction, update, rename or removal that fails as a whole is modelled, and the row count is 0 whether it is read or not.
- Reconciling.StepKeeps: the same statements and checks of the reconciler succeed or fail as a whole.
- UploadService.Service.CreateUpload: free disk space is one boolean parameter; fresh ids and keys are parameters assumed never drawn before.
- Storage.Store.MoveStagingToObject: no power loss, so no fsync; a rename either happened or did not.
- Purge.PurgeDecided: the order in which SQLite visits the rows of one delete is a parameter, RESTRICT being checked row by row.
- Safety.Reachable: the storage and file limits are non-negative and their sum is below 2^63, outside of which the quota guard itself is wrong (Safety.GuardRightIff); the reconciler's checks are as for Reconciling.StepKeeps.
- Safety.TreeAlwaysSound: each tree operation is atomic, so a move's walk and update are not interleaved with other moves.
- FilesService.Service.ListNodes: LIKE and name normalisation are parameters, and the cursor's base64 and JSON are the identity.
- Session.TokenRoundTrip: version, epoch and expiry are 64-bit, as their types in the source say; share versions themselves are unbounded here.
- SharesService.Service.UnlockWithPassword: hashing of passwords and tokens are parameters, not assumed to be injective or secure; time is whole seconds.
- The methods of the services run one after the other; interleavings are those of `Machine`. A statement of the tree and share services that meets an error and whose error is returned changes nothing and is not a case of their methods.
- Timestamps that are only compared with NULL are booleans; created_at, updated_at, owner, MIME type and last_error are not columns here.
- The backup selection, ListTrash, ListShares and GetUpload, which only read or set one flag.
- HTTP routing, authentication, audit log, download handlers, configuration and migrations beyond the first schema.
