# Verified model of the S3-backed LevelDB storage

`s3/storage.go`, `s3/lock.go` and `s3/retry.go` make a goleveldb storage out of an S3 bucket. A file may exist in five
places at once: its S3 object, its S3 shadow object, the local `pending_uploads` directory (with a checksum sidecar), the
local journal and manifest cache, and the in-memory LRU. This project models those stores, every operation that moves
data between them, the distributed lock, the retry arithmetic and the file names, and proves what the system is for:
acknowledged bytes survive, removed files stay removed, recovery is order-independent and never wipes a recoverable
database, a process that lost its lock stops writing, at most one process holds an unexpired lease.

## How the model is built

* `Store.dfy` has the stores as maps, the primitive steps that change them, a record of what the client wrote and was
  told, and the invariant: every copy of a file extends the acknowledged bytes and is a prefix of the written bytes.
* `Programs.dfy` gives the steps of each operation as a sequence. The outcomes of S3 calls, disk operations and goroutine
  scheduling are parameters. An S3 write or delete may fail after taking effect or without it; reads may fail but do not
  lie. A crash may fall between any two steps.
* `Storage.dfy` is the storage as the object it is: `S3Storage` and `MemWriter` with the source's fields, updated in place
  by one method per operation, loops where the source has loops. Ghost state records the steps taken. Each contract says
  which steps a call takes and in which order, and what that means for the caller: the invariant is kept, a Remove that
  returns nil leaves no copy, a Sync that returns nil leaves everything acknowledged, an Open returns bytes between the
  acknowledged and the written ones. `StepsOfEvent` and `Kept` carry the results about runs over to the methods.
* `Effects.dfy` has what each call leaves in each store and what it answers, case by case: a second account of the operations
  besides their steps, in terms of file types, fields before and answers. The contracts in `Storage.dfy` repeat it for the fields.
* `Cuts.dfy` is about what a crash in the middle of a call leaves: which copies go only once another one is in place.
* `Guards.dfy` shows that each operation's steps respect the invariant; `Durability.dfy` has the results about whole runs.
* `Dispatch.dfy` is the bounded goroutine pool as a state machine, with its effect on the stores; `Passes.dfy` shows that a
  run of the pool is one of the interleavings the results about whole runs cover.
* `Recovery.dfy`, `Outcomes.dfy`, `Leftovers.dfy`, `Cleanup.dfy` and `Fencing.dfy` are about recovery inside `Lock`, effects
  across several operations, copies that outlive their file, CURRENT, and the loss of the lock. `PendingDir.dfy` is the
  pending directory and `List`, `AtomicFile.dfy` is `atomicWriteFile`, `Lease.dfy` the lock, `Retry.dfy` the two retry loops,
  `Names.dfy` and `Scan.dfy` the file names and Go's number scanning.

## What the client and the environment must respect

* The client creates a name only if no file of that name is acknowledged, or it gave that file up, and no writer is open on
  it; copies of an earlier file may still be around. A name that is not on S3 and has no open writer always qualifies
  (`Store.OffS3IsFree`), and a Create that a crash cut short or whose directory could not be made may be repeated
  (`Durability.CreateMayBeRepeated`).
* The client renames only to names of which no copy is left, and within one class of locally cached files, and leaves no
  writer open on a file it removes or renames. It points CURRENT only at manifests that reached S3 or the local cache.
* Deleting a pending, shadow or local file takes effect; the code ignores those errors. `Leftovers.StalePendingLoses` and
  `Leftovers.StaleShadowLoses` say what is lost otherwise, and exactly when.
* Where a rename has to rewrite a pending or local file, it does not fail half-way through the acknowledged bytes: the code
  writes such a file in place. `Leftovers.RenameExactly` says that this is exactly what a rename needs,
  `Leftovers.TornPendingLoses` and `Leftovers.TornLocalLoses` what is lost otherwise.
* For lease exclusion: `Lock` calls are atomic, no two of them draw the same process ID and time and random numbers one of
  which begins the other, the process check reports live holders as alive, only a holder within its lease renews or unlocks.

## Where the code differs from what one might expect

* Renewing the lease rewrites the same timestamp (`s3/lock.go:208-211`), so it never moves the deadline, although the
  comment says that it extends the lease: `Lease.RenewalDoesNotExtend`.
* The lock excludes other processes only as far as the process check is right about live holders and nobody unlocks or
  renews after its lease: `Lease.TakeoverExactly`, `Lease.ReleaseExactly`, `Lease.RenewExactly`.
* A rename looks at the shadow and at the checksum only if the file is pending (`s3/storage.go:904-932`), so a shadow can
  stay behind under the old name: `Outcomes.RenameMovesAll` has the exact condition, `Leftovers.ShadowWithoutPending` a run
  that meets it, `Leftovers.RenamedComesBack` what the next recovery does about it.
* A wipe leaves the shadows, and a pending directory outside the local cache, in place (`s3/storage.go:1542-1564`), and the next
  recovery uploads them: `Leftovers.WipedFilesReturn`.
* `cleanupOrphaned` ignores the answer to its delete of CURRENT (`s3/storage.go:1567-1569`), so its nil alone does not make
  CURRENT consistent; `Cleanup.CleanupExactly` has the exact condition.
* A corrupt pending file hides its shadow copy for one recovery: `Recovery.DamagedEquation`, `Recovery.SecondRecoveryHeals`.
* The long retry's delay can wrap to a negative wait; `Retry.LongDelaysOrdered` says exactly when it does not.
* `Lock` called again on a storage whose lock was lost uploads what it finds and may rebuild CURRENT: `Fencing.LockIsNotFenced`
  is a run, `Fencing.LockFencedExactly` says when it leaves the bucket alone.
* `storageLocker.Unlock` leaves `lockHeld` set, so retry passes go on: `Fencing.UnlockAndRetries`.
* The manifest search never chooses number 0, and `parseFileDesc` takes a manifest's sidecar for the manifest.
* A file with both an S3 object and a shadow is listed twice unless it is pending: `PendingDir.ListDistinctExactly`.
* The repository's README gives 3 attempts and 100 ms as retry defaults; `s3/config.go` has its own values. The results
  hold for all values.

## Model

| member | source | states |
|---|---|---|
| Names.ParsePrinted | s3/storage.go:313-337 | Parsing undoes printing for all four file types and every 64-bit number of any width |
| Names.PrintInjective | s3/storage.go:1575-1577 | Two descriptors share a cache key or an S3 key if and only if they are equal |
| Names.Normalises | s3/storage.go:313-337 | Whatever spelling is accepted (`.sst`, unpadded, signed) normalises to a name that parses to the same descriptor |
| Names.Spellings | s3/storage.go:313-337 | Numbers of any width, `.sst` for a table and anything after a manifest's number are accepted; a number with any other extension is no database file |
| Names.SignsAndBlanks | s3/storage.go:313-316 | Blanks but newlines and a plus sign may stand before the number; a number that does not fit 64 bits names no file |
| Names.ClassOfType | s3/storage.go:1609-1614 | Journals and manifests are mirrored in the local cache, tables and temporary files are not; only manifests escape the size limit |
| Names.SidecarExactly | s3/storage.go:672-674 | A sidecar is exactly a name with `.cksum` behind it |
| Names.PrintedIsPlain | s3/storage.go:296-297 | A printed name is no sidecar, not CURRENT, not LOCK, and survives trimming with or without the final newline |
| Names.SidecarParsesAsManifest | s3/storage.go:330-333 | The parser accepts `MANIFEST-n.cksum` as manifest n, so callers must filter the suffix |
| Storage.S3Storage.constructor | s3/storage.go:166-177 | A process starts on the stores it finds, with an empty LRU and no flag set |
| Storage.S3Storage.StepsOfEvent | s3/storage.go:112-128 | A call whose recorded steps are those of an event leaves the object where the run of events says, and keeps the invariant at every point where a crash could stop it |
| Storage.S3Storage.Kept | s3/storage.go:112-128 | The same for the call in progress: what every contract that promises the invariant rests on |
| Storage.S3Storage.Create | s3/storage.go:436-477 | Refuses when closed or fenced, with these errors; else registers the file with an empty LRU entry and returns an open, empty writer unless it is a journal or manifest whose local directory cannot be made; keeps the invariant for every name that is not acknowledged, or was given up, and has no open writer |
| Storage.MemWriter.constructor | s3/storage.go:450-457 | A new writer is open, empty and agrees with what was written |
| Storage.MemWriter.Write | s3/storage.go:48-67 | Appends to the buffer; when the disk answers the local cache holds the whole buffer of a journal or a manifest at once, and is never touched by a table or a temporary file; a closed writer changes nothing; the invariant is kept |
| Storage.MemWriter.Flush | s3/storage.go:468-473 | The local cache first, then the upload; acknowledged exactly when both went through |
| Storage.MemWriter.Sync | s3/storage.go:69-77 | Returns nil exactly when the buffer was mirrored where due, is a manifest's or within the size limit, the lock is not lost and the upload went through; the stores afterwards in every case; then all of it is acknowledged, on S3 and in every other copy that exists |
| Storage.MemWriter.Close | s3/storage.go:79-88 | As Sync, and the writer is closed whatever happens; closing twice is an error without effect |
| Storage.S3Storage.UploadFile | s3/storage.go:479-522 | Size and lock checks first; after a failed upload the data is persisted, after a good one pending file, sidecar and shadow go and the LRU is refreshed, in this order |
| Storage.S3Storage.PersistToLocal | s3/storage.go:527-556 | Pending file, sidecar, shadow backup, in this order; succeeds when the pending file was written |
| Storage.S3Storage.Open | s3/storage.go:391-434 | The bytes of the LRU entry, else of S3 if it answers and has the file (cached if small enough), else of the readable pending file, else "not found" exactly when S3 answered; what is returned extends the acknowledged bytes and is a prefix of the written ones |
| Storage.S3Storage.Remove | s3/storage.go:828-866 | LRU, local cache, pending file, sidecar, shadow and last the S3 object; nil exactly when that delete was answered, and then no copy and no record is left; the stores afterwards in every case |
| Storage.S3Storage.Rename | s3/storage.go:868-957 | Copy first; nil exactly when the copy and one of two deletes of the source were answered; the stores afterwards in every case; the new name then answers for the acknowledged bytes |
| Storage.S3Storage.RenamePending | s3/storage.go:898-932 | Moves a pending file and its sidecar, by rename or by rewriting, and replaces the shadow; a rewrite that fails may leave the beginning of the file under the new name |
| Storage.S3Storage.ReadPendingFiles | s3/storage.go:656-717 | The scan of the directory deletes the corrupt entries one by one and returns the upload list of the state it found; a file whose CRC differs from that of the bytes its sidecar was written for is deleted and not returned, any other is returned and stays |
| Storage.S3Storage.TakeTurn | s3/storage.go:1250-1275 | What one step of a goroutine does to the stores: the upload, or one of the deletes and the LRU refresh after it |
| Storage.S3Storage.RunAll | s3/storage.go:1243-1282 | The dispatcher of a recovery and its goroutines, any interleaving the semaphore allows, take exactly the store steps of the pool's run |
| Storage.S3Storage.RunWatched | s3/storage.go:1023-1084 | The same for the retry pass, with the lease monitor setting lockLost between any two of its steps |
| Dispatch.FlagAt | s3/storage.go:1076-1084 | The flag is the only difference to the unwatched run: it is set once, after some number of the store steps |
| Dispatch.FlagCommutes | s3/storage.go:1149-1160 | Wherever in a pass the flag is set, the pass ends in the same state |
| Passes.PassOfPool | s3/storage.go:1017-1054 | A complete bounded run of the retry pool is one of the retry passes of the results about whole runs |
| Passes.RecoveryOfPool | s3/storage.go:1233-1290 | The same for the uploads of a recovery |
| Storage.S3Storage.RetryPendingFilesOnce | s3/storage.go:991-1055 | Does nothing when the lock is lost or not held; else drops corrupt files and runs the bounded pool over the rest, unless closed; if the lease monitor fires meanwhile its flag is set after k steps and stays; the invariant is kept |
| Storage.S3Storage.SyncFromShadow | s3/storage.go:584-630 | Pulls the shadow copies of files that are not pending, each with a fresh sidecar |
| Storage.S3Storage.SyncPendingToS3 | s3/storage.go:1212-1291 | Shadow first, then the bounded pool over the pending files; nil exactly when the directory could be read and every upload succeeded |
| Storage.S3Storage.SyncLocalToS3 | s3/storage.go:1163-1203 | Uploads the local cache but for LOCK and CURRENT, stops at the first failure, nil exactly when none failed |
| Storage.S3Storage.RemoveAllOrphaned | s3/storage.go:1532-1573 | Nothing when the lock is lost; else LRU, local cache (and the pending directory inside it), every listed object, CURRENT |
| Storage.S3Storage.VerifyCurrentManifest | s3/storage.go:1322-1380 | A missing manifest is restored from the local cache, else from pending, else everything is wiped; nil in the source's cases |
| Storage.S3Storage.RecoverFromLocalCache | s3/storage.go:1389-1452 | Without CURRENT: rebuild from the local cache, else from pending, else wipe if the bucket lists anything; nil in the source's cases |
| Storage.S3Storage.CleanupOrphaned | s3/storage.go:1304-1316 | Chooses between the two by whether CURRENT exists; when it returns nil and a delete of CURRENT it came to took effect, CURRENT is consistent |
| Storage.FindLatestManifest | s3/storage.go:1462-1474 | The search loop returns what the specification function says, the first name among equal numbers |
| Storage.FindUsableManifest | s3/storage.go:1456-1524 | The search plus the reading of what it found, as both rebuild sources use it; unreadable or empty counts as none |
| Storage.S3Storage.Lock | s3/storage.go:188-227 | Pending files, local cache, then cleanup only if the local cache was uploaded, else the lock is released; succeeds exactly then, and then LOCK names the process and it holds the lock; keeps the invariant, and loses no object if CURRENT names a manifest on S3 or readable locally |
| Storage.S3Storage.Unlock | s3/storage.go:229-251 | Clears lockHeld; LOCK is gone exactly if the lock was not lost and the first delete takes effect, or fails and the second takes effect, and is unchanged otherwise |
| Storage.S3Storage.LockerUnlock | s3/storage.go:94-110 | The same for LOCK, without clearing lockHeld |
| Storage.S3Storage.LeaseLost | s3/storage.go:1149-1160 | The monitor sets lockLost and nothing else |
| Storage.S3Storage.Close | s3/storage.go:1113-1132 | Closes once and purges the LRU; retry passes after it upload nothing |
| Storage.S3Storage.SetMeta | s3/storage.go:253-272 | Writes CURRENT unless closed or fenced; after nil it decodes to the descriptor given |
| Storage.S3Storage.GetMeta | s3/storage.go:274-311 | A descriptor returned is what CURRENT decodes to and its object exists; "none" means that CURRENT is absent or names a missing object; when S3 answers it fails only on a CURRENT that does not decode |
| Storage.S3Storage.List | s3/storage.go:339-389 | The merged view of bucket and pending directory, an unreadable directory counting as empty |
| Storage.ReadYourWrites | s3/storage.go:391-477 | Create, Write, Sync, Open: what was synced is read back exactly, from the LRU or, once that dropped it, from S3 |
| Effects.CreateLeaves | s3/storage.go:436-477 | The whole new state: the record and the LRU entry, no other store; for which types a missing directory ends the writer |
| Effects.WriteLeaves | s3/storage.go:48-67 | The whole new state for each of the four types |
| Effects.SyncLeaves | s3/storage.go:468-522 | The whole new state for each way a Sync can go, the types the size limit applies to, and nil exactly when it went through |
| Effects.CloseLeaves | s3/storage.go:79-88 | Close is Sync with the writer gone, whatever Sync answers |
| Effects.PersistLeaves | s3/storage.go:527-556 | Nothing without the pending file; with it the sidecar as its write leaves it, and the shadow if that upload takes effect |
| Effects.OpenExactly | s3/storage.go:391-434 | When Open succeeds, from which store the bytes come, when it says "not found", and what enters the LRU |
| Effects.PersistedIsRead | s3/storage.go:417-427 | After a Close whose upload failed but was persisted, and a crash, Open returns exactly what was written |
| Effects.RemoveLeaves | s3/storage.go:828-866 | The whole new state for each type and each answer of the S3 delete |
| Effects.RenameLeaves | s3/storage.go:868-957 | The whole new disk and bucket after a rename, whichever of its calls fail and whether or not they take effect |
| Effects.PullLeaves | s3/storage.go:599-628 | A shadow copy is pulled exactly if nothing of that name is pending and it can be read and written |
| Effects.LocalStops | s3/storage.go:1172-1203 | The upload of the local cache ends at its first failure: what was before it is on S3, nothing after it is |
| Effects.WipeLeavesAll | s3/storage.go:1532-1573 | The whole new state after a wipe, whichever of its calls fail |
| Effects.RestoreLeaves | s3/storage.go:1340-1379 | A missing manifest comes from its local copy, else from its pending copy, which then leaves that directory, else everything is wiped; when that returns nil |
| Effects.VerifyLeaves | s3/storage.go:1322-1380 | When cleanup leaves an existing CURRENT alone, when it wipes, when it restores, and when it returns nil |
| Effects.RebuildLeaves | s3/storage.go:1404-1442 | The whole new state after a rebuild, whichever of its two writes fails |
| Effects.RebuiltLeaves | s3/storage.go:1389-1442 | Cleanup without CURRENT rebuilds from what it found; a manifest from the pending directory leaves it once both writes were answered |
| Effects.NothingToRebuild | s3/storage.go:1444-1452 | Without a manifest cleanup wipes exactly when the bucket lists a file, main or shadow |
| Effects.OrphansGo | s3/storage.go:1444-1449 | So orphaned files go: afterwards no object of the database is left |
| Effects.HighestIsUsed | s3/storage.go:1456-1524 | The manifest with the highest number above zero is used if it can be read and is not empty; a lower one never is in its place |
| Effects.SidecarsLeftOut | s3/storage.go:1503-1506 | The search in the pending directory skips the sidecars and nothing else |
| Effects.CurrentDecodes | s3/storage.go:286-292 | CURRENT decodes to what the name in it parses to, whatever blanks surround it |
| Effects.LockLeaves | s3/storage.go:188-227 | LOCK and the flags after Lock: held, and LOCK naming the process, exactly if the lock was acquired and the local cache uploaded |
| Effects.UnlockLeaves | s3/storage.go:229-251 | The whole new state after either Unlock |
| Effects.SetMetaLeaves | s3/storage.go:253-272 | CURRENT changes, to the name and a newline, exactly on an open storage with its lock whose write takes effect |
| Effects.ShutdownLeaves | s3/storage.go:1113-1132 | Close sets the flag and empties the LRU, once |
| Effects.OneOfMany | s3/storage.go:1026-1054 | Whatever the schedule, the copies of a file end up as if its goroutine had run alone |
| Effects.PassLeaves | s3/storage.go:1026-1054 | A retry pass and each sound file: uploaded and gone from pending and shadow, or given up with both and the sidecar still there |
| Effects.ReuploadLeaves | s3/storage.go:1247-1281 | The same for a recovery, whichever uploads of other files fail; small files enter the LRU |
| Cuts.PassCut | s3/storage.go:1036-1052 | Stop a retry pass after any of its steps, whatever the schedule: each sound pending file is on S3 with its bytes, or still waits with its sidecar and shadow |
| Cuts.ReuploadCut | s3/storage.go:1250-1275 | The same for the uploads of a recovery |
| Cuts.MergeCut | s3/storage.go:1026-1054 | The beginning of an interleaving is an interleaving of beginnings |
| Cuts.SyncCut | s3/storage.go:479-522 | Stop a Sync after any of its steps: S3 has the buffer, or pending file and shadow are as they were or hold it |
| Cuts.RemoveCut | s3/storage.go:828-866 | Stop a Remove after any of its steps: the S3 object is as it was, or every other copy is gone |
| Cuts.RestoreCut | s3/storage.go:1358-1374 | Stop the restoring of a pending manifest after any of its steps: it is on S3, or still pending with its sidecar |
| Cuts.PullsLeave | s3/storage.go:597-628 | Every shadow copy is tried; one that cannot be read or written stops none of the others |
| Cuts.IdlePass | s3/storage.go:991-1013 | A pass without the lock, or that cannot read the directory, changes nothing; on a closed storage it uploads nothing |
| Store.OffS3IsFree | s3/storage.go:436-477 | In every reachable state a name that is not on S3 and has no open writer may be created |
| Store.GuardedKeepsInv | s3/storage.go:436-556 | The invariant holds at every point of a guarded sequence, so a crash may cut it anywhere |
| Durability.ReachableGood | s3/storage.go:112-128 | In every run from an empty bucket the invariant holds after every step of every call |
| Durability.Durable | s3/storage.go:436-556 | Whatever happens after a file was acknowledged (failures, retries, crashes, recoveries, loss of the machine), until it is removed, renamed or wiped S3 holds an object that extends the acknowledged bytes, and so does every other copy |
| Durability.SyncAcknowledges | s3/storage.go:69-88 | Sync and Close acknowledge everything written exactly when they return nil, and then every copy that exists holds all of it |
| Durability.CreateMayBeRepeated | s3/storage.go:436-477 | A Create cut anywhere by a crash, or whose local directory could not be made, may be repeated at once |
| Durability.FirstSyncAcknowledges | s3/storage.go:436-522 | Wherever the invariant holds, creating, writing and syncing any file that is not too large is a disciplined history that acknowledges exactly the bytes written, even if copies of an earlier file of that name were left |
| Durability.ReadSandwich | s3/storage.go:391-434 | In every reachable state a successful Open returns bytes that extend the acknowledged ones and are a prefix of the written ones (the latter not for a name created anew beside old copies, until its first Sync); an acknowledged file can be opened when S3 answers |
| Durability.NoResurrection | s3/storage.go:828-866 | After Remove returned nil no retry, crash, recovery or other call brings a copy back before the name is made anew |
| Durability.RemoveAtomic | s3/storage.go:828-866 | A Remove cut or failed anywhere, followed by any history, leaves no file or one whose every copy extends the acknowledged bytes |
| Durability.RenameHandsOver | s3/storage.go:868-957 | After any cut of a rename the new name answers for the acknowledged bytes once the copy was reported done, the old one before |
| Durability.RenameAtomic | s3/storage.go:868-957 | After any cut and any further history that spares that name S3 holds an object under it that extends the acknowledged bytes |
| Outcomes.RenameMovesAll | s3/storage.go:898-953 | The whole new state of a rename without failures; the old name is gone from all stores if and only if the file was pending or had neither shadow nor checksum |
| Outcomes.ShadowSurvivesMachineLoss | s3/storage.go:558-568 | An upload that failed on a machine since lost is recovered byte for byte elsewhere if its shadow backup was made |
| Outcomes.UnsyncedWriteRecovered | s3/storage.go:56-65 | After a crash, recovery puts everything written to a journal or manifest on S3, synced or not, if its local writes succeeded |
| Recovery.AnyOrder | s3/storage.go:1247-1281 | Every schedule of goroutines that work on different files ends in the same state |
| Recovery.RecoveryEquation | s3/storage.go:1163-1291 | S3 becomes the old S3 overridden by (shadow overridden by pending) overridden by the local cache without LOCK and CURRENT; pending and shadow are drained; pending and shadow names need only parse |
| Recovery.OrderIrrelevant | s3/storage.go:1247-1281 | Interleaving and directory order matter to none of the stores but the LRU |
| Recovery.RecoveryIdempotent | s3/storage.go:1163-1291 | A second recovery changes nothing at all |
| Recovery.DamagedEquation | s3/storage.go:606-610 | Without any assumption on checksums: exactly the corrupt names are left out, and exactly their shadows stay behind |
| Recovery.SecondRecoveryHeals | s3/storage.go:584-717 | The next recovery uploads those shadows; only corrupt files without a shadow are lost |
| Cleanup.CurrentRoundTrip | s3/storage.go:264-267 | What SetMeta and a rebuild write decodes to the descriptor they were given |
| Cleanup.NeverWipes | s3/storage.go:188-227 | If CURRENT names a manifest on S3 or readable in the local cache, Lock deletes no S3 object and keeps CURRENT, whichever calls fail |
| Cleanup.NeverWipesInRuns | s3/storage.go:1304-1380 | Over whole runs with crashes: once CURRENT names such a manifest no recovery wipes the database |
| Cleanup.DurableUnderDiscipline | s3/storage.go:188-227 | Durability with hypotheses on the client and on what recovery can read only: CURRENT kept on a backed manifest, the file neither removed nor renamed |
| Cleanup.LatestIsHighest | s3/storage.go:1462-1474 | The chosen manifest has the highest number, above zero; none is chosen exactly when no number is above zero |
| Cleanup.CurrentConsistency | s3/storage.go:1304-1452 | Whichever calls fail, when cleanup returns nil and a delete of CURRENT it came to took effect, CURRENT is absent or names an existing object, and GetMeta returns exactly that |
| Cleanup.CleanupExactly | s3/storage.go:1322-1452 | Whichever calls fail, with or without effect: a cleanup that returns nil leaves CURRENT consistent if and only if its delete of CURRENT takes effect, or the manifest of a CURRENT that stays was on S3, or was brought there, or was uploaded unseen and survived the wipe |
| Cleanup.RebuildsHighest | s3/storage.go:1389-1524 | A rebuilt CURRENT names the highest positive manifest number of the source used, with that file's bytes |
| Cleanup.ManifestBeforeCurrent | s3/storage.go:1404-1442 | During a rebuild CURRENT is written right after its manifest and never before, whatever fails |
| Cleanup.WipeClears | s3/storage.go:1532-1573 | A wipe in which S3 answers leaves no database object and no CURRENT and empty caches; the shadows stay, and so does the pending directory unless it lies in the local cache |
| Leftovers.WipedFilesReturn | s3/storage.go:1538-1564 | The next recovery after a wipe puts exactly the shadows and what stayed pending on S3; it stays empty if and only if there was none |
| Leftovers.PassUploads | s3/storage.go:1026-1054 | Whatever the schedule, a retry pass puts exactly the pending bytes of each file it reaches on S3 |
| Leftovers.NoLeak | s3/storage.go:505-515 | The run with ineffective deletions differs from the modelled Sync in nothing else |
| Leftovers.StalePendingLoses | s3/storage.go:505-512 | A failed Sync, a longer acknowledged one whose deletion of the pending file has no effect, a retry pass: S3 is back to the older bytes, and acknowledged ones are lost if and only if any had been added |
| Leftovers.StaleShadowLoses | s3/storage.go:571-579 | The same for the shadow, through the next recovery |
| Leftovers.RenamedComesBack | s3/storage.go:904-932 | A shadow without a pending file stays under the old name in a rename, and the next recovery uploads it there |
| Leftovers.RenameExactly | s3/storage.go:917-953 | A rename keeps the invariant if and only if a rewrite of the pending or the local file that fails leaves nothing, or at least the acknowledged bytes |
| Leftovers.TornPendingLoses | s3/storage.go:917-932 | The next retry pass puts what a failed rewrite of the pending file left on S3; acknowledged bytes are lost if and only if they did not all get written |
| Leftovers.TornLocalLoses | s3/storage.go:945-953 | The same for the local file, through the next recovery |
| Leftovers.ShadowWithoutPending | s3/storage.go:558-568 | Such a state is reached by a Close whose upload fails but is backed up, and the loss of the machine |
| Fencing.FencedRun | s3/storage.go:253-286 | Once lockLost is set it stays set and no sequence of calls, retry passes, Unlocks or wipes changes any object of the bucket |
| Fencing.LockFencedExactly | s3/storage.go:188-227 | When Lock on a storage that lost its lock leaves the bucket alone: the database objects and shadows exactly when there is nothing new to upload, CURRENT exactly when it exists or cannot be rebuilt, LOCK never |
| Fencing.LostCleanup | s3/storage.go:1304-1452 | Cleanup without the lock wipes nothing and changes at most CURRENT |
| Fencing.LockIsNotFenced | s3/storage.go:188-214 | A run for every journal or manifest: created, written, lock lost, lock taken again, and the file appears on S3 |
| Fencing.UnlockAndRetries | s3/storage.go:94-110 | S3Storage.Unlock ends the retry passes, the locker's Unlock does not |
| Dispatch.BoundedInOrder | s3/storage.go:1017-1055 | In every interleaving at most k uploads are in flight, k being the configured number if positive and 4 otherwise, files are dispatched once and in order, and a file starts only after all but k - 1 earlier ones finished |
| Dispatch.OneSlotIsSequential | s3/storage.go:1023-1054 | With one slot a file starts only when every earlier one has finished |
| Dispatch.NeverStuck | s3/storage.go:1243-1282 | Until every file has finished some step is possible |
| Dispatch.FewLateUploads | s3/storage.go:1067-1084 | If lockLost is set in the middle of a pass at most k more uploads start in it |
| Dispatch.FirstFailure | s3/storage.go:1284-1290 | The loop over the results returns the first failure, nil exactly when there is none |
| Dispatch.NilIffAllUploaded | s3/storage.go:1243-1290 | At the end there is one result per file, all good exactly when every upload succeeded |
| Dispatch.PoolIsMerge | s3/storage.go:1026-1054 | The store steps of a bounded run are one of the interleavings of its goroutines' steps |
| Dispatch.JobShape | s3/storage.go:1058-1111 | In a complete run each goroutine fails some attempts and then uploads and cleans up, or gives up; recovery tries once |
| PendingDir.SumTextMeans | s3/storage.go:546-547 | A checksum text is eight lower-case hexadecimal digits that denote the CRC-32; two contents share it exactly when they share the CRC |
| PendingDir.DamageFound | s3/storage.go:691-701 | If a persisted file comes to hold other bytes, it is deleted with its sidecar and not returned exactly when the CRCs differ |
| PendingDir.PendingSetExact | s3/storage.go:656-717 | The upload list is sorted by priority and holds exactly the readable, parseable, non-sidecar entries not contradicted by their checksum, none twice |
| PendingDir.SortedPermutes | s3/storage.go:711-714 | Sorting orders by priority and loses nothing |
| PendingDir.OnlyCorruptDropped | s3/storage.go:691-701 | Exactly the mismatching entries are deleted, each with its sidecar, and nothing else changes |
| PendingDir.PersistRoundTrip | s3/storage.go:527-556 | What persistToLocal completed is read back byte for byte under the same descriptor |
| PendingDir.PersistSurvives | s3/storage.go:545-549 | Whatever became of the sidecar, the file is read back if and only if no readable sidecar contradicts it |
| Passes.UrgentFirst | s3/storage.go:641-652 | In a retry pass and in a recovery with one slot every table has finished before a journal starts, every journal before a manifest, these before temporary files |
| PendingDir.MergeListings | s3/storage.go:352-388 | The three loops of List compute the merged view |
| PendingDir.ListIsMergedView | s3/storage.go:339-389 | As a set: every descriptor of the requested types in either source; pending first; no sidecar |
| PendingDir.ListHasNoDuplicates | s3/storage.go:367-386 | No duplicates when pending names are canonical and the bucket's listing has none |
| PendingDir.ListDistinctExactly | s3/client.go:301-307 | With canonical names, none twice per source, List has no duplicates if and only if no requested file that is not pending has both an S3 object and a shadow |
| AtomicFile.Directory.AtomicWriteFile | s3/storage.go:1582-1607 | At every point the file is the old complete version or the new one; nil exactly when no step failed, and then the new version is in place and no temporary file is left |
| AtomicFile.TempIsIgnored | s3/storage.go:1584 | A temporary file left behind is never taken for a database file or a checksum |
| Lease.LockIdRoundTrip | s3/lock.go:48 | Parsing a printed lock ID gives it back, whatever its signs and widths |
| Lease.LockIdInjective | s3/lock.go:125-132 | Two lock IDs print alike only if they are equal |
| Lease.LockIdPrefix | s3/lock.go:108-119 | One printed ID begins another if and only if they agree in process ID and time and the digits of the random number do: when a torn local LOCK could pass for another ID |
| Lease.S3Lock.Lock | s3/lock.go:47-78 | With S3 and the disk answering, acquires exactly when there is no LOCK, or the readable local file agrees with it, or it is no lock ID, past its lease, or of a foreign process that is gone; the new remote and local LOCK in each case |
| Lease.LockExactly | s3/lock.go:62-73 | The same as a statement about every state, with nothing changed when the lock is held |
| Lease.LockFails | s3/lock.go:55-78 | What each failing call makes of the two LOCKs and of the result |
| Lease.OwnLockAgain | s3/lock.go:108-119 | A process whose Unlock failed without effect gets its lock again, after any wait and whatever the process check says |
| Lease.S3Lock.AcquireLock | s3/lock.go:147-165 | The local file before the object; the local file goes again if the object could not be written; a failed local write may leave any beginning of the ID |
| Lease.S3Lock.Unlock | s3/lock.go:85-103 | Stops renewal, deletes the object, then the local file; may be repeated |
| Lease.S3Lock.RenewLease | s3/lock.go:172-211 | One tick of the renewal goroutine: rewrites the same ID, ends when stopped or after a failure, which it reports |
| Lease.LeaseExclusion | s3/lock.go:47-165 | Over every run of any number of processes at most one holds an unexpired lease, and LOCK names it |
| Lease.HolderBlocks | s3/lock.go:58-69 | A process within its lease keeps every other one from changing LOCK |
| Lease.RenewalDoesNotExtend | s3/lock.go:208-211 | However often a process renews and however much time passes, LOCK and its deadline stay what they were |
| Lease.TakeoverExactly | s3/lock.go:125-143 | Another process gets the lock that names p if and only if p's lease ran out or the process check reports its foreign ID as gone; p within its lease then ends up beside it exactly in the second case |
| Lease.ReleaseExactly | s3/lock.go:85-103 | An Unlock leaves LOCK true to its holders if and only if no other process is within its lease; always when LOCK names the caller |
| Lease.RenewExactly | s3/lock.go:208-211 | The same for a renewal |
| Lease.ThirdGetsIn | s3/lock.go:85-103 | After an Unlock any further process gets in at once, beside another within its lease exactly when there was one |
| Lease.DishonestCheckBreaks | s3/lock.go:138-140 | A concrete run: a process check that reports a live holder as gone hands out the lock twice |
| Lease.LateUnlockBreaks | s3/lock.go:85-103 | A concrete run, for every lease the clock can measure: an Unlock after the lease ran out lets a third process in |
| Retry.BackoffBound | s3/retry.go:42-48 | For every positive base and every attempt the jitter range is not empty and the delay lies in [0, base * 2^attempt), wrap-around included; exact without overflow |
| Retry.EveryDelayDrawn | s3/retry.go:47 | Every delay of the range can be drawn |
| Retry.JitterRange | s3/retry.go:43-46 | The range ends at base * 2^attempt reduced to 64 bits, or at base where that is not positive |
| Retry.WithRetry | s3/retry.go:12-37 | The loop returns what the specification function says: error, calls made, time slept |
| Retry.RetryMeaning | s3/retry.go:12-37 | At most maxAttempts calls; nil exactly when the last call succeeded; retried only after retryable errors without cancellation; exhaustion exactly when all attempts were used up, apart from a context error of that form |
| Retry.SleepsExactly | s3/retry.go:28-33 | The time slept is one backoff, drawn for that attempt, after each call that failed and may be retried, the last allowed one excepted |
| Retry.RetryableInChain | s3/errors.go:29-32 | An error is retried exactly if some error in its chain is a RetryableError |
| Retry.SleepsBounded | s3/retry.go:28-33 | With N >= 2 attempts the sleeps add up to less than base * (2^(N-1) - 1) |
| Retry.UploadWithInfiniteRetry | s3/storage.go:1058-1111 | Each attempt after seeing no stop signal, no lost lock and time left; the reason for each way it ends; at most R + T / 30 s attempts when both limits are set, else it ends with the first turn that uploads, closes or loses the lock |
| Retry.LongDelayExact | s3/storage.go:1092-1101 | Without overflow the wait is base * 2^attempt capped at 30 s, and 30 s from the attempt limit on |
| Retry.LongDelaysOrdered | s3/storage.go:1092-1101 | The waits are positive, at most 30 s and never shrink if and only if base * 2^(R-1) fits 64 bits |

## Left out

- The AWS client, its paginators, endpoints, credentials, bucket checks and per-request timeouts: S3 is a map whose calls may fail.
- `PutBytesIfNotExists`, which neither the storage nor the lock uses, and `RetryPendingUploads`, which nothing calls.
- Logging, pending-pressure callbacks, `HasPendingUploads`, option defaults and validation, the programs under `cmd/`.
- Races between the retry pass and a foreground writer on the same file: a pass is one call of a run, its own goroutines interleave as the semaphore allows.
- A second node that still has an old local cache, and writes by other processes after the lease was lost.
- CRC-32 is a function from bytes to a number; the LRU is a map from which any entry may vanish at any time; clock, random draws and process liveness are parameters with stated ranges.
- Temporary files that a crash leaves in the cache directory, subdirectories, and a directory removal that fails half-way.
- The order `sort.Slice` gives to files of equal priority is the directory's; the goroutine schedules cover every other order.
- `uploadWithInfiniteRetry` without limits under an environment in which no upload ever succeeds: Retry.UploadWithInfiniteRetry is about runs that end, and in the durability model an attempt list has any finite length.
- Recovery.RecoveryEquation: S3 and the disk answer every call; what failing uploads leave of each file is in Effects.ReuploadLeaves, and what runs keep in Durability.Durable.
- Cleanup.NeverWipes: a manifest that is only in pending or shadow is not covered, as the source promises nothing for it beyond a best-effort upload.
