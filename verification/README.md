# SyncGDrive: a model of the synchronisation engine

SyncGDrive mirrors one local directory tree to Google Drive, in one direction. This
project models the parts that decide and carry out what is mirrored, and proves what
they promise.

- **Reconciliation.** `scan::run` compares the local tree, the recorded rows and the
  remote listing, creates missing folders and sends tasks; `worker::handle` carries
  them out against the remote tree, the path cache and the rows. `World.dfy` specifies
  the effect of a task, `TaskEffects.dfy` spells it out; `Worker.dfy`, `Scan.dfy`,
  `PathCache.dfy`, `Database.dfy` and `Provider.dfy` hold the methods proved against it. `Agreement.dfy` and `Runs.dfy`
  show that the cache always is the listing of the remote tree and that the recorded
  hashes are true; `Confluence.dfy` and `Draining.dfy` that tasks may be handled in any
  order; `Convergence.dfy` puts it together: convergence and fixpoint; `Mirror.dfy`
  joins the methods to it; `StaleCache.dfy` shows what entries of deleted paths do,
  `FailedListing.dfy` what a failed listing does with a cache that is not complete;
  `Examples.dfy` has an instance of the assumptions and one of each exception.
- **Remote listing.** `Listing.dfy`: the paged worklist traversal equals a recursive
  walk of the tree.
- **Events to tasks.** `Dispatch.dfy` (debouncing), `Offline.dfy` (the queue of an
  offline period and its flush), `EngineLoop.dfy` (pause, resume, rescans, workers).
- **Token buckets.** `TokenBucket.dfy`, `Bandwidth.dfy`, `RateLimiter.dfy`.

Sequences of names stand for relative paths; `Paths.dfy` relates them to the joined
strings the program uses as keys. The remote is a map from ids to nodes with a name and
a parent id (`RemoteTree.dfy`). Hashing and the ignore rules are arbitrary functions of
`Env`; the order of the directory walk, of hash sets and of remote pages is arbitrary.

Assumptions, always written as `requires`: remote names are non-empty, free of slashes
and unique in their folder; no path is a file in one view and a directory in another
(`KindsAgree`); everything below an ignored directory is ignored (`IgnoreClosed`, only
where needed); a renamed object is a file and its target is uncached (`SafeRename`; what
happens otherwise is `Agreement.RenameAgreement`). One handled task is one atomic step,
and a failed provider call has no remote effect.

## Where code, comments and expectations differ

The model follows the code.

- The comments speak of exponential backoff; the pause between attempts is constant
  (src/engine/scan.rs:504-535, `Providers.Provider.Retry`).
- A simulation is meant to write nothing locally, but it refreshes and adopts rows
  (src/engine/scan.rs:282-299, `Scan.DryRunWritesRows`, `Examples.SimulationWritesRow`).
- The task channel holds 1024 tasks (src/engine/mod.rs:222), and its only receiver is
  another arm of the loop that awaits a scan or a flush; one that sends more never ends
  (`Scan.EndsExactlyIfTasksFit`, `Offline.FlushEndsExactlyIfTasksFit`).
- A failed remote listing counts as an empty one (src/engine/scan.rs:72-78). With an
  agreeing cache the scan still converges except for remote files without a row
  (`Convergence.RemainsExactly`); otherwise every non-empty file the remote has and the
  cache lacks is uploaded a second time (`FailedListing.DuplicatedExactly`).
- A scan adds the listing to the cache and never clears it (src/engine/scan.rs:81-91).
  A file or folder that someone else deleted stays cached, and the files at and below
  it never come back (`StaleCache.FileConvergesUnlessStale`,
  `Examples.DeletedFileStaysAway`).
- A command that drops a scan may drop a mkdir after the folder was made
  (src/engine/mod.rs:156-167, 261-281); the cache then lacks it (`Runs.MakeDirLacking`).
- A remote file without a row is adopted without comparing bytes
  (src/engine/scan.rs:292-303); this is the one way a scan records a false hash
  (`Convergence.ScanSound`, `Examples.AdoptedFileStaysDifferent`). Empty local files are
  never uploaded (src/engine/scan.rs:308).
- Renaming onto a path with a row moves the remote object and the cache entry but not
  the row (src/engine/worker.rs:268-279, `Agreement.ExecuteSound`,
  `Examples.RenameOntoRecorded`).
- An upload that is given up after a hash mismatch leaves an object behind that is
  neither cached nor recorded (src/engine/worker.rs:152-173, `Agreement.FailedUpload`).
  The next scan adopts it as it is (`Runs.LeftObjectIsAdopted`); the same task handled
  before that makes a second object (`Runs.SecondUploadDuplicates`).
- Opening the help interrupts the initial scan but no later one
  (src/engine/mod.rs:275-281, 141-180), and a rescan owed when the engine is resumed
  offline waits for another pause (`EngineLoop.OwedRescanWaits`).
- The caller that clears an expired lock of the API limiter passes without paying a
  token (src/engine/rate_limiter.rs:63-67, `RateLimiter.FreePassesExceedTheRate`).
- A file up to the chunk threshold asks the bandwidth limiter for its whole size at
  once (src/remote/gdrive.rs:165-174): above the limit it waits for ever
  (`Bandwidth.UploadWaits`).

## Model

| member | source | states |
|---|---|---|
| Convergence.Converges | src/engine/scan.rs:63-445 | A finished scan and all its tasks, in any order, with a sound database and honest modification times: every local file that is not ignored, not empty and not adopted is on the remote at its path with the local hash, and a remote file remains at a path that is neither local nor ignored if and only if the listing failed, the file was there before and no row recorded it. This is for a cache without stale paths and a complete listing, or an agreeing cache and a failed listing; stale paths are in `StaleCache`, other caches with a failed listing in `FailedListing` |
| Convergence.FileConverges | src/engine/scan.rs:271-308 | Without assuming sound rows or honest times, and after a failed listing too if the cache agreed: an inventoried non-empty file ends with its hash on the remote if and only if the scan judged it out of date or the remote already had it; so the files skipped unseen (same time, same recorded hash, adopted) are exactly the ones that may miss |
| StaleCache.FileConvergesUnlessStale | src/engine/scan.rs:81-91 | The scan never clears the cache. After a complete listing upon a cache whose stale entries have ids the remote no longer has, a finished scan and all its tasks, finished or failed, in any order: an inventoried non-empty file ends with its hash on the remote if and only if the scan judged it out of date or the remote already had it, and neither its path nor one above it was stale |
| StaleCache.ConvergesUnlessStale | src/engine/scan.rs:63-445 | With such a cache, sound rows and honest times: a local file that is not ignored, not empty and not adopted is on the remote with its hash if and only if no entry at its path or above it was stale, and no remote file remains at a path that is neither local nor ignored |
| StaleCache.NothingElseRemains | src/engine/scan.rs:364-438 | With such a cache no remote file remains at a path that is neither ignored nor an inventoried file |
| StaleCache.NoFolderBelowStale | src/engine/scan.rs:188-206 | No folder is made below a stale entry: a scan that needs one does not finish |
| StaleCache.HauntedStep | src/engine/worker.rs:120-160 | A task at or below a stale entry changes neither the remote nor the cache: an upload to a dead id or below a dead folder fails, a deletion of one fails too |
| StaleCache.StepElsewhere | src/engine/worker.rs:58-228 | Any other task does what it would do without the stale entries |
| StaleCache.MixedUploads | src/engine/worker.rs:58-200 | In a batch of both, in any order, every upload that is not below a stale entry is done |
| StaleCache.MixedKeeps | src/engine/worker.rs:58-228 | and whatever is no target, or a target below a stale entry, stays as it was |
| Convergence.RemainsExactly | src/engine/scan.rs:364-438 | At a path that is neither ignored nor an inventoried file, a remote file remains after the tasks if and only if it was there without a row and the listing that would have shown it failed |
| Convergence.SameHashSameBytes | src/engine/integrity.rs:28-42 | If the hash tells contents apart, holding the local hash means holding the local bytes |
| Convergence.SecondScanIsIdle | src/engine/scan.rs:173-438 | A second scan of an unchanged local tree, in whatever order it walks, creates no folder and sends no upload; the rows it still deletes are exactly those of ignored paths that are no inventoried files; from the remote it deletes exactly what the first scan could not see because its listing failed, so nothing after a complete one |
| Convergence.DeletionsRepeat | src/engine/worker.rs:205-208 | Every later scan sends these deletions again, since the worker skips ignored paths and the rows stay |
| Convergence.RowsLeft | src/engine/worker.rs:205-226 | A row without an inventoried file is still there after the tasks if and only if its path is ignored |
| Convergence.TasksSucceed | src/engine/worker.rs:58-228 | Every task the scan sent succeeds when handled, in any order, and the cache agrees with the remote tree at the end |
| Convergence.OrderDoesNotMatter | src/engine/worker.rs:58-228 | Any other order of the same handled tasks ends in the same remote tree, cache and database |
| Mirror.Mirror | src/engine/scan.rs:63-445 | The methods together: the scan, then each of its tasks through the worker, taken from the channel in any order, failed ones given up. If each finished, or failed only where it is specified to, then with a cache that had nothing stale (or agreed, after a failed listing), true rows and honest times the state has converged; and after a complete listing, whatever stale entries the cache had, each file is there exactly as `StaleCache.FileConvergesUnlessStale` says |
| Mirror.HandleQueue | src/engine/mod.rs:548-604 | Handling a queue in any order, when each task finishes or fails only where it is specified to, is handling each of its tasks once, with new ids that are all different, from the state at the start to the state at the end |
| Mirror.HandleRound | src/engine/mod.rs:548-604 | The same for the tasks of a finished scan |
| Mirror.ScanOnce | src/engine/scan.rs:42-465 | The scan of a round leaves all decided tasks in the channel, each with a proper path |
| Convergence.ScanJobsDue | src/engine/scan.rs:329-438 | Right after the scan every task it sent is able to do its work: the parent folder is cached and exists, the cached object is a file, no folder is deleted; and all tasks are on unrelated paths |
| Convergence.EmittedPaths | src/engine/scan.rs:329-438 | Uploads, deletions of recorded paths and deletions of remote paths are pairwise disjoint, and no deletion names an inventoried local file |
| Convergence.EmittedOnce | src/engine/scan.rs:329-438 | No task is sent twice |
| Convergence.FilePathsApart | src/engine/scan.rs:329-438 | If no path is a file in one view and a directory in another, different file paths, so the paths of different tasks, are never above each other |
| Convergence.ListingAgrees | src/engine/scan.rs:81-91 | Adding a complete listing to a cache without stale paths makes the cache agree with the remote tree |
| Convergence.AgreesIsListing | src/remote/path_cache.rs:59-86 | A cache agrees with a remote tree if and only if it is exactly the path -> (id, parent id) map its listing gives |
| Convergence.ScanSound | src/engine/scan.rs:280-303 | A scan keeps all recorded hashes true if and only if every adopted file has the local hash on the remote |
| Convergence.VisitedUnlessIgnored | src/engine/scan.rs:105-109 | If everything below an ignored directory is ignored, a local path is inventoried unless it is ignored itself |
| Convergence.UploadFacts | src/engine/scan.rs:236-308 | The scan uploads exactly the inventoried non-empty files it judges out of date |
| Convergence.UploadsExactly | src/engine/scan.rs:271-308 | Case by case: sent are the inventoried, non-empty files that are not cached, and the cached ones whose row has another time and another hash |
| Convergence.RowsExactly | src/engine/scan.rs:271-303 | Case by case, in a simulation too: a cached file without a row, or whose row has another time but its hash, gets a row with its hash and time; all other rows are as they were |
| Convergence.TouchedRowRefreshed | src/engine/scan.rs:280-291 | A cached file with the recorded hash has its present time in its row after the scan |
| Convergence.RowsCurrent | src/engine/scan.rs:173-438 | After the round every inventoried, non-empty file is cached and recorded with its present time |
| Convergence.NothingToSend | src/engine/scan.rs:273-308 | so that the next scan sends none of them |
| Convergence.NothingIgnoredIsSent | src/engine/scan.rs:105-109 | Nothing ignored, and nothing below it, is uploaded or made |
| Decisions.TasksInOrder | src/engine/scan.rs:329-438 | The uploads are sent first, then the deletions of recorded paths, then those of remote files |
| Convergence.DbOrphanFacts | src/engine/scan.rs:370-391 | The recorded paths it deletes are exactly those that are no inventoried files |
| Convergence.RemoteOrphanFacts | src/engine/scan.rs:402-438 | The remote paths it deletes are exactly the listed remote files that are neither inventoried, nor local directories, nor recorded, nor ignored; none after a failed listing |
| FailedListing.DuplicatedExactly | src/engine/scan.rs:72-78 | After a failed listing with a cache that is right but not complete (an empty one over a remote that is not empty), a finished scan and all its tasks in any order: an inventoried non-empty file the remote had is there twice, in the same folder under the same name, if and only if the cache lacked it |
| FailedListing.UploadedAgain | src/engine/scan.rs:271-308 | Such a file is uploaded again |
| FailedListing.FileFrom | src/engine/worker.rs:120-160 | A file of the final tree was there before, with the same name in the same folder, or was put there for an uncached path |
| FailedListing.FoldersFound | src/remote/gdrive.rs:447-507 | Folders are not duplicated then: mkdir hands back the old ones, and every cached entry stays right |
| FailedListing.ParentFound | src/engine/scan.rs:178-214 | The parent folder cached for such a file is the one the remote file is in |
| Examples.NewFileReconciled | src/engine/scan.rs:63-445 | All that convergence assumes can be had at once, with work to do: an empty remote and one new file, for every file name, content, hash and remote root |
| Examples.AdoptedFileStaysDifferent | src/engine/scan.rs:292-303 | Adoption is a real exception: whenever the remote holds bytes of another hash under the name of an unrecorded file, rows and times are beyond reproach, yet the scan sends nothing, the remote never gets the local content, and the row it writes is false |
| Examples.SameTimeStaysDifferent | src/engine/scan.rs:275-279 | So is a file changed within the second its row records: the rows are true, the scan skips the file, and the remote never gets the new content |
| Examples.SimulationWritesRow | src/engine/scan.rs:292-303 | A simulated scan that adopts a file writes its row |
| Examples.RenameOntoRecorded | src/engine/worker.rs:268-279 | From a consistent state with true rows, renaming a file onto a recorded one fails after the object was moved: two objects of one name, and a false row if the hashes differ |
| Examples.DeletedFileStaysAway | src/engine/scan.rs:81-91 | A file stored by the engine and deleted on the remote by someone else: listing complete, rows and times beyond reproach, and the scan sends nothing, so it never comes back |
| Examples.FileIsDuplicated | src/engine/scan.rs:72-78 | One file, an empty cache and a failed listing: the file ends up twice on the remote |
| Examples.GivenUpFileStays | src/engine/scan.rs:292-303 | The upload of a new file given up with wrong bytes, then a scan: the wrong bytes stay |
| Examples.GivenUpFileIsDuplicated | src/engine/worker.rs:120-122 | The same task handled again instead: two objects of one name |
| Runs.CacheIsListing | src/remote/path_cache.rs:40-99 | From an empty cache, after every run of listings put into the cache in part or whole (dropped or failed scans included), mkdirs that make or find a folder and whose answer may be lost, comparisons, handled tasks and given-up uploads that puts no second object where the cache lacks one: the cache is the map a listing of the remote tree of that moment would give, without the paths it lacks; it is the whole map if and only if it lacks none |
| Runs.RunLacking | src/engine/worker.rs:58-283 | Every such run keeps exactly those paths out of the cache |
| Runs.ActLacking | src/engine/worker.rs:58-283 | So does every single action: a given-up upload to an uncached path or a mkdir whose scan was dropped adds the path, a mkdir that finds the folder or a listed entry takes it away, so does the deletion of a folder above it |
| Runs.ClearExactly | src/engine/worker.rs:141-173 | An action keeps names unique if and only if it puts nothing where such an object was left |
| Runs.AgreesExactly | src/engine/worker.rs:152-173 | The cache agrees with the remote tree if and only if it lacks nothing |
| Runs.EndIsAction | src/engine/worker.rs:23-50 | Whatever end a task has, it changed nothing or was one of the two actions a worker can take: handled, or given up with an object left behind |
| Runs.LeftObjectIsAdopted | src/engine/scan.rs:292-303 | When the upload of a new file was given up, the next scan and all its tasks leave the local hash on the remote if and only if the bytes left behind have it: they are adopted, not repaired |
| Runs.UnrecordedStays | src/engine/scan.rs:292-303 | The same holds for every remote file without a row |
| Runs.SecondUploadDuplicates | src/engine/worker.rs:120-122 | Handling such a task again before the next listing makes a second object with the same name in the same folder |
| Runs.ActSound | src/engine/worker.rs:92-102 | One action keeps all recorded hashes true, of uncached objects too, if and only if it writes no false one: no adoption of a file with other remote bytes, no rename onto a differing row, no given-up upload that leaves other bytes than the row at its path records |
| Runs.RunSound | src/engine/worker.rs:191-196 | A run without such actions keeps all recorded hashes true throughout |
| Runs.RelistLacking | src/engine/scan.rs:72-91 | A complete listing brings the cache to the whole listing, whatever it lacked |
| Runs.FillLacking | src/engine/scan.rs:81-91 | Putting the first entries of a listing into the cache takes exactly their paths off what it lacks |
| Runs.MakeDirLacking | src/engine/scan.rs:188-213 | A mkdir makes the folder, or finds the one the cache lacks; with its answer the path is cached, without it the cache lacks it |
| Runs.WholeFill | src/engine/scan.rs:81-91 | All entries put in one by one are the cache fill of the scan |
| Runs.CompareSound | src/engine/scan.rs:271-303 | Comparing one file keeps the recorded hashes true if and only if it does not adopt a file whose remote bytes have another hash |
| Runs.ComparedInSteps | src/engine/scan.rs:245-306 | Comparing the files of a scan one by one leaves the same rows as comparing them all against the rows at the start |
| Agreement.ExecuteConsistent | src/engine/worker.rs:23-283 | A handled upload, deletion or rename of a file to an uncached path keeps cache and remote tree in agreement, whether it takes effect or is refused (uploads given up halfway are in `Runs`) |
| Agreement.ExecuteSound | src/engine/worker.rs:92-196 | Each of them keeps the recorded hashes true, except a rename that meets a row at its target: then if and only if that row already had the hash of the moved file |
| Agreement.RenameAgreement | src/engine/worker.rs:253-279 | A file rename that takes effect keeps the agreement if and only if the target was uncached or the source itself |
| Agreement.FailedUpload | src/engine/worker.rs:152-173 | When the last attempt stored wrong bytes and the worker gives up, cache and tree still agree if and only if the path was cached before, and the rows stay true if and only if none of them refers to other bytes |
| Agreement.AgreesParentClosed | src/remote/path_cache.rs:88-99 | A cache that agrees holds the parent of each of its entries under the id the entry names |
| Agreement.UploadAgrees | src/engine/worker.rs:141-191 | Storing a file at a cached or at a new path and caching the returned id keeps the agreement |
| Agreement.DeleteAgrees | src/engine/worker.rs:216-223 | Deleting the object and dropping the path with all below it keeps the agreement |
| Agreement.MoveAgrees | src/engine/worker.rs:268-278 | Moving a file, dropping the old path and caching the new one keeps the agreement |
| Confluence.Commute | src/engine/worker.rs:58-228 | Two uploads or deletions on unrelated paths give the same remote tree, cache and database in both orders, whether they succeed or fail |
| Confluence.AnyOrder | src/engine/worker.rs:58-228 | A whole batch of such tasks gives the same result in every order |
| Confluence.PlannedNode | src/engine/worker.rs:58-228 | A batch does to a node what the one job that plans for it planned at the start |
| Confluence.UnplannedNodeStays | src/engine/worker.rs:58-228 | and leaves every other node as it was |
| Confluence.StepIsPlan | src/engine/worker.rs:58-228 | What an upload or a deletion does is one of five local effects, computed from what it reads |
| Confluence.PlanConfined | src/engine/worker.rs:58-228 | That effect stays within the path of the task, its cached id and its new id |
| Confluence.PlanStable | src/engine/worker.rs:75-122 | A task elsewhere does not change which effect a task has |
| Draining.Achieves | src/engine/worker.rs:58-228 | A task whose work can be done succeeds, does what it is for, and leaves every other path with its entry, row and bytes |
| Draining.StaysDue | src/engine/worker.rs:58-228 | It stays able to do its work while tasks on unrelated paths are handled |
| Draining.DrainAchieves | src/engine/worker.rs:58-228 | After the whole batch every task has achieved what it is for |
| Draining.DrainKeeps | src/engine/worker.rs:58-228 | After the whole batch every path that is no target is as it was, and the cache still agrees |
| Scan.Run | src/engine/scan.rs:42-465 | The scan as a whole, at every end: a listing that is complete or, only after an error answer, counts as empty; folders made and rows compared as far as it came; no change of the provider but mkdirs, and in a simulation none at all; the channel holds a first part of the decided tasks, all of them when the scan finishes, none in a simulation. By itself it ends early only because of a shutdown, a closed channel, the mkdir that used up its own attempts, or a full channel (a command that drops it is in `EngineLoop`, what it may leave in `Runs`); when it is done or stuck, exactly one mkdir succeeded for each folder decided on |
| Scan.DecideAndSend | src/engine/scan.rs:93-465 | Phases 1 to 6 do and send exactly what is decided from the filled cache and the rows at the start; at every other end they have done a part of it, for one of the reasons given for `Scan.Run` |
| Scan.PrepareAndCompare | src/engine/scan.rs:145-326 | Phases 1 to 3: at every end the folders kept and the rows of the files compared so far; when not cut short, the folders, rows and uploads decided |
| Scan.FillCache | src/engine/scan.rs:63-91 | The cache keeps what it had and gets every listed folder, then every listed file; a listing fails only after an error answer, and then adds nothing |
| Scan.Inventory | src/engine/scan.rs:101-135 | Directories other than the root and regular files are told apart, in the order of the walk |
| Scan.MakeFolder | src/engine/scan.rs:188-213 | A missing folder is created remotely by one successful mkdir (or gets a placeholder id in a simulation, without any call) and cached under its parent; it fails only when the attempts are used up or the engine shuts down |
| Scan.UnderscoredAt | src/engine/scan.rs:191-193 | The placeholder of a simulated folder is its path with underscores for slashes |
| Scan.EnsureDir | src/engine/scan.rs:178-214 | For one uncached directory exactly its uncached prefixes are made, shortest first, with one successful mkdir each |
| Scan.CreateDirs | src/engine/scan.rs:150-215 | Exactly the missing folders are made and cached, with exactly one successful mkdir each and no other; nothing that was cached changes; a parent-closed cache stays parent-closed, an agreeing one stays in agreement, the remote grows by folders only, a simulation makes no call; it is cut short only by a shutdown or by the mkdir whose own attempts were used up |
| Scan.MkdirAgrees | src/remote/gdrive.rs:447-507 | With an agreeing cache, creating an uncached folder never hands back an old one: the tree grows by one node and the agreement is kept |
| Scan.CompareFiles | src/engine/scan.rs:236-308 | Each file gets the verdict its row, its modification time, its hash and the cache demand; refreshed and adopted files get a new row, and the non-empty out-of-date ones are the uploads; cut short by a shutdown, the first so many files have been dealt with |
| Scan.SendUploads | src/engine/scan.rs:329-358 | The uploads are offered in order; a simulation sends none |
| Scan.SendDeletes | src/engine/scan.rs:370-438 | Deletions are offered for exactly the paths that pass the test of the phase |
| Scan.EndsExactlyIfTasksFit | src/engine/scan.rs:355-358 | With k tasks queued, nobody receiving or sending, no shutdown, no closed channel and no mkdir giving up, a scan of m tasks ends if and only if k + m fit into the channel; else it is stuck |
| Scan.DryRunFidelity | src/engine/scan.rs:191-213 | A simulated and a real scan from the same state and listing leave the same rows and the same cached paths, although the simulated ids are placeholders (`Scan.Run` reports the same decision for both, and at no end of a simulation has the provider been called) |
| Scan.DryRunWritesRows | src/engine/scan.rs:282-299 | A simulated scan leaves the database untouched if and only if no file is refreshed or adopted |
| Decisions.MadeDirsIn | src/engine/scan.rs:150-215 | The folders the nested loop makes are exactly the missing ones: uncached prefixes of local directories that are not cached at the start |
| Decisions.MadeDirsDistinct | src/engine/scan.rs:150-215 | It makes each of them once, although the cache grows while it runs |
| Decisions.MissingWhenParentClosed | src/engine/scan.rs:173-215 | In a parent-closed cache these are all uncached prefixes of all local directories |
| Decisions.ComparedRow | src/engine/scan.rs:271-303 | After the comparison exactly the refreshed and adopted files have a new row, with their hash and time; all other rows are as before |
| Decisions.ComparedUnchanged | src/engine/scan.rs:271-303 | The rows are unchanged if and only if no file is refreshed or adopted |
| Listing.ListRemote | src/remote/gdrive.rs:340-441 | The paged worklist always ends on a finite number of 429 answers, and fails if and only if its last request was answered with an error; when it succeeds it lists, as a multiset, what the recursive walk lists, each folder before anything in it |
| Listing.ListedExactly | src/remote/gdrive.rs:340-441 | Such a result holds every node below the root exactly once, under its joined path and its parent id, folders and files apart |
| Listing.ListingExactly | src/remote/gdrive.rs:394-429 | Spelled out: an entry is among the files, or the folders, if and only if its path leads to its id, that is a file, or a folder, and it names the parent |
| Listing.WalkExactly | src/remote/gdrive.rs:394-429 | The recursive walk, spelled out: a child under the joined path with its folder as parent, then all below it if it is a folder, then the other children |
| Listing.FoldersFirstExactly | src/remote/gdrive.rs:405-411 | Each folder is in the root or in one listed before it |
| Listing.BelowIsWalk | src/remote/gdrive.rs:347-437 | What is owed to a worklist entry is what the recursive walk from that folder yields |
| Listing.ListedOnce | src/remote/gdrive.rs:394-429 | An entry is in the recursive walk if and only if it is a node below the root under its own path and parent, and then once |
| Listing.EachIdOnce | src/remote/gdrive.rs:394-429 | No id is listed twice |
| Listing.ListFolder | src/remote/gdrive.rs:347-437 | All pages of one folder together add exactly its children, whatever the page boundaries and 429 answers; only an error answer ends it early |
| Listing.UnderwayNext | src/remote/gdrive.rs:347-437 | Listing one folder of the worklist leaves what is listed and what is owed together unchanged, and less to do |
| Listing.ListPage | src/remote/gdrive.rs:371-391 | One answer is an error exactly where the server gives one, a 429, or the next items up to some position; a 429 and an empty page that is not the last come finitely often |
| PathCaching.PathCache.Insert | src/remote/path_cache.rs:48-57 | Inserting under the joined string replaces exactly the entry of that path |
| PathCaching.PathCache.Lookup | src/remote/path_cache.rs:42-45 | Looking up the joined string finds the entry of exactly that path |
| PathCaching.PathCache.RebuildFromIndex | src/remote/path_cache.rs:61-86 | The cache becomes the listing: cleared, then folders, then files, later entries winning |
| PathCaching.PathCache.RemoveCascades | src/remote/path_cache.rs:90-99 | Dropping the key and all keys starting with it and a slash drops exactly the path and its component-wise descendants |
| PathCaching.PathCache.ResolveDeepestKnownParent | src/remote/path_cache.rs:104-121 | The longest cached proper ancestor with its entry, or nothing if and only if there is none |
| PathCaching.CascadeParentClosed | src/remote/path_cache.rs:88-99 | Dropping a path with everything below it leaves no entry without its parent |
| PathCaching.RemovingOnlyThePathIsNotEnough | src/remote/path_cache.rs:93-98 | Without the second step an entry would lose its parent |
| PathCaching.AncestorsCached | src/remote/path_cache.rs:101-121 | In a parent-closed cache all ancestors of a cached path are cached |
| PathCaching.FilledKeys | src/engine/scan.rs:81-91 | After inserting a list exactly the old and the listed paths are cached, a listed path with a listed entry |
| Paths.JoinInjective | src/engine/worker.rs:297-304 | Different paths have different joined strings |
| Paths.JoinBelow | src/remote/path_cache.rs:96-98 | A joined string starts with another one and a slash if and only if its path is below the other path, so "a/bc" is not below "a/b" |
| Paths.ComponentsOfJoin | src/engine/scan.rs:181-186 | Splitting a joined string gives the components back |
| RemoteTree.InsertAt | src/remote/gdrive.rs:447-540 | A new object is found at exactly one new path, and no other path changes |
| RemoteTree.DeleteAt | src/remote/gdrive.rs:543-572 | After a deletion exactly the paths at and below the deleted one are gone |
| RemoteTree.MoveAt | src/remote/gdrive.rs:575-629 | After moving a file it is at its new path only, and no other path changes |
| RemoteTree.InsertCollides | src/remote/gdrive.rs:447-540 | A new object keeps names unique in every folder if and only if there was none at its path |
| RemoteTree.MoveCollides | src/remote/gdrive.rs:575-629 | So does a moved file |
| Worker.HandleTask | src/engine/worker.rs:23-50 | A finished task has had exactly the specified effect with verified bytes; a stopped one changed nothing; a failed one changed nothing, or left an unverified object at its path, or moved the object but not the row, and it failed only because of a shutdown, used-up attempts, an uncached parent, a missing local file or a refused row; at most max(1, max_attempts) requests; ids of its new objects come after those of earlier tasks; a simulation asks for nothing |
| TaskEffects.SyncSkipsExactly | src/engine/worker.rs:59-79 | An upload task fails for a path that is gone and does nothing for a directory, an ignored path, an empty file, and a cached file whose row has its time |
| TaskEffects.SyncRefreshesExactly | src/engine/worker.rs:92-102 | For any other cached file with the recorded hash it sets the row to its hash and time, and nothing else |
| TaskEffects.SyncNeedsParent | src/engine/worker.rs:104-118 | Else it fails, changing nothing, if the parent folder is not cached |
| TaskEffects.SyncRewritesExactly | src/engine/worker.rs:120-196 | Else it stores a cached file under its id, if that still is a file on the remote: bytes, name, entry and row of that path, and nothing else |
| TaskEffects.SyncCreatesExactly | src/engine/worker.rs:120-196 | and an uncached one as a new object in its parent folder, if that still is a folder |
| TaskEffects.DeleteExactly | src/engine/worker.rs:205-228 | A deletion does nothing for an ignored path, fails for an entry whose object is gone, else removes the cached object, the entries at and below the path, and the row, and nothing else |
| TaskEffects.RenameUnknownExactly | src/engine/worker.rs:233-251 | A rename within what is ignored does nothing; of an original not cached or not recorded it is the upload of the target, if that is a file not ignored |
| TaskEffects.RenameKnownExactly | src/engine/worker.rs:253-282 | A known original keeps its bytes and gets the new name and folder, its entry moves and takes the entries below it away, its row moves with all it says unless the new key is taken, and nothing else changes; it fails, changing nothing, if object or folder is gone |
| TaskEffects.RenameNeedsParent | src/engine/worker.rs:256-266 | and if the new parent folder is not cached |
| TaskEffects.RowMovesExactly | src/db.rs:356-363 | A row moves to the new key with all it says; an occupied key refuses it, and then no row changes |
| Worker.SyncFile | src/engine/worker.rs:58-200 | Missing, ignored, non-regular, empty, and unchanged files end at once, an equal hash refreshes the row, anything else is uploaded; at most max(1, max_attempts) requests and one new object |
| Worker.UploadAndRecord | src/engine/worker.rs:104-200 | Cache and row are written only after an upload whose remote hash was the local one |
| Worker.UploadVerified | src/engine/worker.rs:131-189 | At most max(1, max_attempts) uploads (exactly so many when it gives up without a shutdown), at most one new object, success only with equal hashes |
| Worker.UploadAgain | src/engine/worker.rs:141-156 | Uploading again to the id of an earlier attempt gives the tree a single upload of the new bytes would have given |
| Worker.FindParent | src/engine/worker.rs:290-304 | The parent id is the root at top level, else the cached id of the parent path, else missing |
| Worker.DeletePath | src/engine/worker.rs:205-228 | An ignored path is left alone; otherwise object, cached paths and row go together, or nothing changes |
| Worker.RenamePath | src/engine/worker.rs:233-283 | An unknown original is synchronised as a new file; a known one is moved with its cache entry and its row, and an occupied row key is the only failure that leaves a change behind |
| Worker.MoveKnown | src/engine/worker.rs:253-282 | The move of a known original: remote, cache, then row; it fails with everything as it was, or, when the row is refused, after the object was moved |
| Worker.MoveObject | src/engine/worker.rs:256-273 | The remote part: the object is moved into the parent of the target, or nothing changed because the parent is not cached, the attempts are used up or the engine shuts down |
| Persistence.Database.Upsert | src/db.rs:224-232 | Sets exactly one row |
| Persistence.Database.Rename | src/db.rs:356-363 | The row moves to the new key with its hash and time and is gone from the old one, or nothing changes if and only if another row has that key; every other row is as it was |
| Persistence.Database.Delete | src/db.rs:350-354 | Removes exactly one row |
| Persistence.Database.PushOfflineTask | src/db.rs:296-306 | The new row comes last and has an id above all others |
| Persistence.Database.GetOfflineTasks | src/db.rs:309-328 | All rows, in increasing order of their ids |
| Persistence.Database.RemoveOfflineTask | src/db.rs:331-335 | Removes exactly the row with that id, or fails and removes none |
| Persistence.WithoutMiddle | src/db.rs:331-335 | In a table with increasing ids, removing an id removes exactly the one row |
| Providers.Provider.Retry | src/engine/scan.rs:494-535 | At most max(1, max_attempts) calls, exactly so many when it gives up without a shutdown, nothing changed unless it succeeds, and the waiting time is the constant initial pause times the number of failures |
| Providers.Provider.Upload | src/remote/gdrive.rs:513-540 | An upload to an id rewrites that object, one without creates one object in the parent folder; the reported hash is that of the stored bytes |
| Providers.Provider.Invoke | src/remote/gdrive.rs:447-629 | mkdir reuses a folder of that name, delete removes the object, rename renames and reparents it; a failed call changes nothing |
| EngineContexts.TaskChannel.Send | src/engine/mod.rs:222 | A send appends, or reports a closed channel, or waits for ever on a full one that nobody empties |
| Offline.RoundTrip | src/engine/mod.rs:661-701 | Every task under the local root is read back from its row as it was |
| Offline.EncodedExactly | src/engine/mod.rs:661-701 | The stored action is "sync", "delete" or "rename", the path the one below the root, and for a rename the old path besides; nothing is stored if a path is not under the root |
| Offline.DecodedExactly | src/engine/offline.rs:42-57 | The flush reads these three actions and joins the paths to the root; no other action is known |
| Offline.PushTask | src/engine/mod.rs:661-701 | A task is written down if and only if its paths are under the root, and then as the last row |
| Offline.FlushRow | src/engine/offline.rs:42-68 | A known row is sent and then deleted, an unknown one stays |
| Offline.FlushQueue | src/engine/offline.rs:26-72 | At every end, the sent tasks are the decodings of a prefix of the rows in order, every deleted row was sent, at most the last sent one is still stored, and all other rows are still there in order |
| Offline.FlushEndsExactlyIfTasksFit | src/engine/offline.rs:60-68 | Undisturbed, a flush ends if and only if its tasks fit into the channel, and then all were sent in order and only unknown rows are left |
| Dispatch.DispatchAll | src/engine/mod.rs:641-713 | Over a whole trace the loop sends exactly the expected tasks, each once, in the order of the events behind them |
| Dispatch.OnEvent | src/engine/mod.rs:650-708 | What one tick or one file event makes the dispatcher do, to its map and to the tasks |
| Dispatch.FiresExactly | src/engine/mod.rs:650-673 | A tick sends a path if and only if some modification of it lies at least the debounce time back with nothing touching the path and no late enough tick since |
| Dispatch.SentExactly | src/engine/mod.rs:650-697 | Spelled out: a path goes out at a tick if and only if some event modified it, at least the debounce time ago, and since then there was no event of that path and no tick late enough |
| Dispatch.LoggedExactly | src/engine/mod.rs:661-706 | Sent are a deletion and a rename with their event and a SyncFile at such a tick, to the offline queue if and only if the engine counted as offline then |
| Dispatch.PendingExact | src/engine/mod.rs:642-711 | A path is pending if and only if a modification of it is still waiting, with the time of that modification |
| Dispatch.OriginExact | src/engine/mod.rs:642-711 | Reading the trace backwards finds that modification, if and only if there is one |
| Dispatch.SendsAreApart | src/engine/mod.rs:650-673 | Two SyncFile tasks of one path are at least the debounce time apart, with a newer modification between them |
| Dispatch.NoSendAfterRemoval | src/engine/mod.rs:683-697 | After a deletion or a rename touching a path no SyncFile for it follows without a newer modification |
| Dispatch.ModificationIsSent | src/engine/mod.rs:650-682 | A modification that nothing disturbs goes out at the first late enough tick |
| EngineLoop.RunInv | src/engine/mod.rs:360-604 | In every state of every run tasks are taken in the order they were accepted, none lost and none twice; at most max(1, max_workers) are executed at once; a paused engine only waits for commands |
| EngineLoop.NextInv | src/engine/mod.rs:548-604 | Every arm of the loop keeps this |
| EngineLoop.CommandsAreRead | src/engine/mod.rs:141-180 | Commands are read by the initial scan, by scans started on a command, and by the waiting loop |
| EngineLoop.ScanBeginsExactly | src/engine/mod.rs:365-546 | A scan begins if and only if the engine is online and a Resume finds a rescan owed, or it runs and gets a forced scan or a changed root, or its timer rings |
| EngineLoop.ScanEndsExactly | src/engine/mod.rs:141-180 | A scan ends if and only if it ends by itself, a command cuts it short, or the engine ends; the timed one reads no command, and only the initial one reacts to the help |
| EngineLoop.PauseBeginsExactly | src/engine/mod.rs:261-495 | The engine is paused if and only if it reads a Pause or the settings or the help is opened, where a scan started on a command ignores the help |
| EngineLoop.PauseEndsExactly | src/engine/mod.rs:365-389 | Only a Resume ends the pause |
| EngineLoop.RescanOwedExactly | src/engine/mod.rs:141-424 | A rescan comes to be owed if and only if a command cuts a scan short or a paused engine gets a configuration |
| EngineLoop.EngineEndsExactly | src/engine/mod.rs:141-495 | The engine ends with a shutdown, a scan that reports one or a configuration without a folder, and never during a flush |
| EngineLoop.OfflineExactly | src/engine/mod.rs:497-524 | The engine goes offline if and only if the initial scan or a health check fails, and comes back only with a health check that succeeds |
| EngineLoop.FlushBeginsExactly | src/engine/mod.rs:500-512 | A flush of all stored tasks begins if and only if the engine comes back online and the queue can be read |
| EngineLoop.FlushNext | src/engine/offline.rs:42-68 | It sends one task after the other and ends when all are sent or with the first row that cannot be removed |
| EngineLoop.FlushSendsAll | src/engine/offline.rs:42-68 | In every run a flush entered with n tasks has sent exactly n when it ends by itself |
| EngineLoop.ChannelExactly | src/engine/mod.rs:222 | The channel takes 1024 tasks; they are taken by the waiting engine that is not paused, oldest first, and handed over when a worker is free |
| EngineLoop.RescanStaysOwed | src/engine/mod.rs:361-424 | An owed rescan stays owed, or runs, until a scan ends or the engine does, whatever commands and offline periods come |
| EngineLoop.FlagIsSpentOnAScan | src/engine/mod.rs:371-384 | The flag is given up if and only if a paused engine is resumed online, and then the scan runs |
| EngineLoop.OwedRescanWaits | src/engine/mod.rs:369-384 | In every run, the rescan is owed by an engine that runs if and only if the engine was once resumed offline while owing it and has not been paused since |
| EngineLoop.WaitsNext | src/engine/mod.rs:369-384 | This waiting begins only with a Resume while offline and ends only with a pause or with the engine; coming online, a flush, the timer, a forced scan or a changed configuration do not end it |
| EngineLoop.OwedRescanMayWait | src/engine/mod.rs:369-372 | Such a run exists, and the network may be back: the engine is online, running and idle while the rescan is still owed |
| EngineLoop.NothingTakenWhilePaused | src/engine/mod.rs:361-424 | While the engine is paused no task is taken, until a Resume arrives |
| EngineLoop.NothingTakenWhileBusy | src/engine/mod.rs:510 | From entering a scan or a flush to leaving it no task is taken and the queue only grows: the receiver is another arm of the loop that awaits them |
| EngineLoop.StuckExactly | src/engine/mod.rs:510 | While a flush waits for room, only the end of a task can happen, not even a shutdown |
| EngineLoop.StuckForEver | src/engine/mod.rs:510 | So it stays stuck for the rest of the run, which is at most as long as there were tasks being executed |
| EngineLoop.Loop.InterruptScan | src/engine/mod.rs:141-180 | A pause or the settings cut a scan short and leave it owed; a shutdown ends the engine; the help does so for the initial scan only |
| EngineLoop.Loop.HandleCommand | src/engine/mod.rs:365-495 | Every command, paused or running, has the specified effect on the whole state |
| EngineLoop.Loop.CheckHealth | src/engine/mod.rs:497-524 | The offline flag follows the health check, and coming back online starts a flush after the flag is cleared |
| EngineLoop.Loop.SendFlushed | src/engine/offline.rs:60-67 | A flush sends a task and goes on if its row could be removed |
| EngineLoop.Loop.TakeTask | src/engine/mod.rs:548-549 | The oldest queued task is taken |
| EngineLoop.Loop.SpawnWorker | src/engine/mod.rs:551-571 | It goes to a worker once a permit is free |
| EngineLoop.Loop.FinishWorker | src/engine/mod.rs:573-602 | A finished worker gives its permit back |
| TokenBucket.DrawKeepsValid | src/engine/bandwidth.rs:247-266 | The tokens stay between zero and the limit, and a short request waits a positive time |
| TokenBucket.DrawExactly | src/engine/bandwidth.rs:250-264 | A request is served if and only if it fits into one second and the bucket holds enough by now; it takes exactly what it asked for, else nothing is taken and the wait is exactly the time in which the rest comes in |
| TokenBucket.WaitIsLeast | src/engine/bandwidth.rs:262-264 | At any time before the end of the wait the request would be short again |
| TokenBucket.DrawConserves | src/engine/bandwidth.rs:250-259 | While the bucket does not brim over, what is spent and what is saved is what was there and what came in |
| TokenBucket.WaitSuffices | src/engine/bandwidth.rs:262-269 | Sleeping as long as told, or longer, is enough for a request within the limit |
| TokenBucket.DrawWithinBudget | src/engine/bandwidth.rs:250-259 | What was spent in a window plus what is saved never exceeds one second plus the time passed, times the limit |
| Bandwidth.WindowBound | src/engine/bandwidth.rs:241-274 | Over any sequence of callers the bytes granted in a window of length T are at most limit * (1 + T) |
| Bandwidth.RunWithinBudget | src/engine/bandwidth.rs:241-274 | The potential argument behind it, for every prefix of the requests |
| Bandwidth.BytesConserved | src/engine/bandwidth.rs:241-274 | The same over any sequence of requests: bytes granted and bytes saved are exactly what was there and what the limit let in |
| Bandwidth.BandwidthLimiter.Poll | src/engine/bandwidth.rs:247-266 | One pass through the critical section, against the bucket it is specified by |
| Bandwidth.BandwidthLimiter.Acquire | src/engine/bandwidth.rs:241-274 | A lone request passes if and only if nothing is limited or it fits into one second, after at most one sleep; a larger one still waits after any number of sleeps |
| Bandwidth.BandwidthLimiter.AcquireAll | src/remote/gdrive.rs:291-305 | Block after block gets through if and only if none is larger than a non-zero limit |
| Bandwidth.UploadWaits | src/remote/gdrive.rs:165-174 | An upload up to the threshold waits for ever if and only if a limit is set and less than the file; a larger one never does with a limit of at least a block, and does below that once a read fills its buffer |
| RateLimiter.WindowBound | src/engine/rate_limiter.rs:48-97 | In a window of length T the paid passes are at most max_rps * (1 + T), and the free passes are exactly the locks held at its start or set in it that are no longer held at its end; 429 answers that only extend a lock add none |
| RateLimiter.RunWithinBudget | src/engine/rate_limiter.rs:48-97 | The potential argument behind the first bound, for every prefix of the events |
| RateLimiter.FreePassesAreLocks | src/engine/rate_limiter.rs:59-67 | After every prefix of the events, free passes and the lock still held are together the lock held at the start and the locks set since |
| RateLimiter.NoFreePassWithoutNewLock | src/engine/rate_limiter.rs:103-116 | After a free pass there is no further one until a 429 sets a lock anew |
| RateLimiter.FreePassesExceedTheRate | src/engine/rate_limiter.rs:63-67 | The extra term is needed: two requests pass at one instant although the rate is one a second |
| RateLimiter.NoPassWhilePunished | src/engine/rate_limiter.rs:59-62 | After a 429 at time t asking for r seconds no request passes before t + r, whatever other 429 answers come |
| RateLimiter.NoWaitAfterPunishment | src/engine/rate_limiter.rs:59-67 | A request at or after every time asked for does not wait for the lock: it removes it and passes, or there is none and only the bucket counts |
| RateLimiter.LockAtMost | src/engine/rate_limiter.rs:103-116 | The lock never ends later than the latest time asked for |
| RateLimiter.PunishExactly | src/engine/rate_limiter.rs:103-116 | One 429 answer sets the end of the lock to the later of the old one and the time it asks for |
| RateLimiter.AskExactly | src/engine/rate_limiter.rs:54-89 | One answer, case by case: the rest of the lock, a free pass that removes it, or a token drawn |
| RateLimiter.LockHolds | src/engine/rate_limiter.rs:103-116 | Overlapping punishments never shorten the lock |
| RateLimiter.ApiRateLimiter.Poll | src/engine/rate_limiter.rs:54-89 | One pass through the critical section, against the specified answer |
| RateLimiter.ApiRateLimiter.HandleRateLimit | src/engine/rate_limiter.rs:103-116 | The lock becomes the later of the old and the new end |
| RateLimiter.ApiRateLimiter.Acquire | src/engine/rate_limiter.rs:48-97 | A lone caller passes after at most one sleep, and not before the end of a lock it met |

## Left out

- HTTP, JSON, OAuth2, token storage, upload wire formats and the change feed: only the effect of a call on the remote tree is modelled.
- The md5, size and modification time of listed files: the scan does not use them.
- User interface, notifications, status messages, logging and the progress tracker with its five-second speed window: easy members only.
- Configuration parsing, schema migration and the instance lock.
- File system events before they are `WatchEvent`s, and glob matching: arbitrary inputs.
- SQLite errors other than the key conflict of a rename and a failing row deletion in a flush.
- Local files that cannot be read or change while one task is handled, and symbolic links.
- Modification times before 1970 or unreadable ones: times are arbitrary integers taken as given.
- Concurrency inside one handled task and between scan and workers within one step: runs interleave whole steps. A deletion and the loss of its answer are not told apart from a failed call.
- A rename whose current parents cannot be read (src/remote/gdrive.rs:592-613): the request then changes the name only.
- A change of the local root at run time (src/engine/mod.rs:390-408, 443-474): one root is fixed, and restarting the watcher and clearing the rows are left out.
- Tasks on paths outside the local root: paths in tasks are relative to it, except in the offline queue.
- Deduplication of the offline queue: the code does none.
- Dispatch.DispatchAll: a send always finds room and an open channel; the code may wait for room, and stops when the channel is closed.
- EngineLoop.Loop.CheckHealth: the three seconds of waiting and the token refresh before a flush are left out; tasks of live events may overtake queued ones, so order is claimed for the flush alone.
- Providers.Provider.Retry: the pause is counted, not slept, and an interruption is noticed at its end.
- Bandwidth.BandwidthLimiter.Acquire: one caller is watched; several callers share the bucket in `Bandwidth.WindowBound`. Rounding of floating-point numbers is not modelled in either bucket.
- RemoteTree.DeleteAt: objects below a deleted folder stay in the map but are no longer below the root.
- Runs.CacheIsListing: runs that put a second object where the cache lacks one are excluded (`RunClear`): names are then no longer unique, exactly then (`Runs.ClearExactly`), and a listing is no longer a map. Changes of the remote by others are not among the actions; `StaleCache` has what a deletion leaves.
- StaleCache.FileConvergesUnlessStale: the id of a stale entry is one the remote no longer has, not one that others have moved or renamed.
- A listing is one step: what workers change on the remote while it runs is not modelled.
- Agreement.ExecuteConsistent: renames of folders and onto cached paths are excluded; the code leaves the former to a later scan and the latter breaks the agreement (`Agreement.RenameAgreement`).
