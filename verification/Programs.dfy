/** What each storage operation does to the stores, step by step. The outcomes of S3 calls, disk operations and
    scheduling are parameters, so each program covers every way the environment can behave. */
module Programs {
  import opened Scan
  import opened Names
  import opened Store

  datatype Config = Config(
    crc: Bytes -> nat,      // CRC-32 of the content
    maxFileSize: nat,
    concurrency: int,       // PendingMaxConcurrency
    nested: bool            // pending_uploads lies inside the local cache directory (the default)
  )

  /** An S3 write or delete: done, or reported as failed after it did or did not take effect. */
  datatype Outcome = Done | Failed(took: bool)

  /** Writing a checksum sidecar: done, or failed leaving the old file or any other content. */
  datatype SumWrite = SumDone | SumFailed(left: Option<string>)

  predicate TakesEffect(o: Outcome) {
    o.Done? || o.took
  }

  function Effect(o: Outcome, a: Action): seq<Action> {
    if o.Done? || o.took then [a] else []
  }

  // ---------- checksums ----------

  function HexChar(d: nat): char
    requires d < 16
  {
    if d < 10 then DigitChar(d) else ('a' as int + d - 10) as char
  }

  function Hex(x: nat, digits: nat): (s: string)
    ensures |s| == digits
  {
    if digits == 0 then [] else Hex(x / 16, digits - 1) + [HexChar(x % 16)]
  }

  /** Sprintf("%08x", crc32(data)). */
  function SumText(cfg: Config, data: Bytes): (s: string)
    ensures |s| == 8
  {
    Hex(cfg.crc(data) % 0x1_0000_0000, 8)
  }

  function SumActs(cfg: Config, n: string, data: Bytes, w: SumWrite): seq<Action> {
    match w
    case SumDone => [Do(PutSum(n, SumText(cfg, data)))]
    case SumFailed(None) => []
    case SumFailed(Some(c)) => [Do(PutSum(n, c))]
  }

  // ---------- writers ----------

  datatype PersistEnv = PersistEnv(fileOk: bool, sum: SumWrite, shadow: Outcome)
  datatype UploadEnv = UploadEnv(put: Outcome, persist: PersistEnv)
  datatype SyncEnv = SyncEnv(localOk: bool, up: UploadEnv)

  /** Create does not look whether copies of an earlier file of that name are left. */
  function CreateNote(d: Disk, n: string): Note {
    if Absent(d, n) then Created(n) else Reused(n)
  }

  function CreateActs(s: State, n: string, dirOk: bool): seq<Action> {
    if s.c.closed || s.c.lost then []
    else
      [Record(CreateNote(s.d, n)), Do(Put(Lru, n, []))]
      + (if CachedName(n) && !dirOk then [Record(CloseWriter(n))] else [])
  }

  /** memWriter.Write: journals and manifests go to the local cache at once. */
  function WriteActs(s: State, n: string, p: Bytes, localOk: bool): seq<Action>
    requires n in s.l.written
  {
    [Record(Append(n, p))] + (if CachedName(n) && localOk then [Do(Put(Local, n, s.l.written[n] + p))] else [])
  }

  predicate TooLarge(cfg: Config, n: string, data: Bytes) {
    !IsMetadataKey(n) && |data| > cfg.maxFileSize
  }

  function PersistActs(cfg: Config, n: string, data: Bytes, e: PersistEnv): seq<Action> {
    if !e.fileOk then []
    else [Do(Put(Pending, n, data))] + SumActs(cfg, n, data, e.sum) + Effect(e.shadow, Do(Put(Shadow, n, data)))
  }

  function SettleActs(n: string, data: Bytes): seq<Action> {
    [Do(Put(S3, n, data)), Do(Del(Pending, n)), Do(DelSum(n)), Do(Del(Shadow, n)), Do(Put(Lru, n, data))]
  }

  /** uploadFile past its size and lock checks. */
  function UploadActs(cfg: Config, n: string, data: Bytes, e: UploadEnv): seq<Action> {
    if e.put.Done? then SettleActs(n, data)
    else Effect(e.put, Do(Put(S3, n, data))) + PersistActs(cfg, n, data, e.persist)
  }

  function MirrorActs(s: State, n: string): seq<Action>
    requires n in s.l.written
  {
    if CachedName(n) then [Do(Put(Local, n, s.l.written[n]))] else []
  }

  /** Whether Sync returns nil. */
  predicate SyncOk(cfg: Config, s: State, n: string, e: SyncEnv)
    requires n in s.l.written
  {
    && (CachedName(n) ==> e.localOk)
    && !TooLarge(cfg, n, s.l.written[n]) && !s.c.lost
    && e.up.put.Done?
  }

  function SyncActs(cfg: Config, s: State, n: string, e: SyncEnv): seq<Action>
    requires n in s.l.written
  {
    if CachedName(n) && !e.localOk then []
    else if TooLarge(cfg, n, s.l.written[n]) || s.c.lost then MirrorActs(s, n)
    else MirrorActs(s, n) + UploadActs(cfg, n, s.l.written[n], e.up) + (if e.up.put.Done? then [Record(Ack(n))] else [])
  }

  function CloseActs(cfg: Config, s: State, n: string, e: SyncEnv): seq<Action>
    requires n in s.l.written
  {
    [Record(CloseWriter(n))] + SyncActs(cfg, s, n, e)
  }

  // ---------- reading ----------

  datatype OpenError = Closed | NotExist | Unreachable
  datatype OpenResult = Opened(data: Bytes) | NotOpened(error: OpenError)

  /** Open: the LRU entry, else the S3 object, else the pending file. GetBytes may fail but does not lie. */
  function OpenOutcome(s: State, n: string, getOk: bool, readOk: bool): OpenResult {
    if s.c.closed then NotOpened(Closed)
    else if n in s.d.lru then Opened(s.d.lru[n])
    else if getOk && n in s.d.files then Opened(s.d.files[n])
    else if n in s.d.pending && readOk then Opened(s.d.pending[n])
    else NotOpened(if getOk then NotExist else Unreachable)
  }

  function OpenActs(cfg: Config, s: State, n: string, getOk: bool): seq<Action> {
    if s.c.closed || n in s.d.lru || !getOk || n !in s.d.files || |s.d.files[n]| > cfg.maxFileSize then []
    else [Do(Put(Lru, n, s.d.files[n]))]
  }

  // ---------- removing and renaming ----------

  function RemoveActs(s: State, n: string, e: Outcome): seq<Action> {
    if s.c.closed || s.c.lost then []
    else
      [Record(Doom(n)), Do(Del(Lru, n))] + (if CachedName(n) then [Do(Del(Local, n))] else [])
      + [Do(Del(Pending, n)), Do(DelSum(n)), Do(Del(Shadow, n))]
      + Effect(e, Do(Del(S3, n))) + (if e.Done? then [Record(Forget(n))] else [])
  }

  datatype RenameEnv = RenameEnv(
    copy: Outcome, getOk: bool,
    moveOk: bool, moveSumOk: bool, readOk: bool, writeOk: bool, sum: SumWrite, shadow: Outcome,
    del: Outcome, delAgain: Outcome,
    readLocalOk: bool, writeLocalOk: bool,
    torn: Option<nat>, tornLocal: Option<nat>)    // how many bytes a failed rewrite leaves in the new file, if any

  function Torn(x: Bytes, k: nat): Bytes {
    if k <= |x| then x[..k] else x
  }

  /** os.WriteFile of a copy under the new name. */
  function CopyOverActs(p: Place, n: string, x: Bytes, ok: bool, torn: Option<nat>): seq<Action> {
    if ok then [Do(Put(p, n, x))] else if torn.Some? then [Do(Put(p, n, Torn(x, torn.value)))] else []
  }

  function MoveBothActs(o: string, n: string, moveSumOk: bool): seq<Action> {
    [Do(Move(o, n))] + if moveSumOk then [Do(MoveSum(o, n))] else []
  }

  function MoveShadowActs(o: string, n: string, data: Bytes, readOk: bool, out: Outcome): seq<Action> {
    [Do(Del(Shadow, o))] + if readOk then Effect(out, Do(Put(Shadow, n, data))) else []
  }

  function RewriteActs(cfg: Config, o: string, n: string, data: Bytes, w: SumWrite): seq<Action> {
    [Do(Put(Pending, n, data)), Do(Del(Pending, o)), Do(DelSum(o))] + SumActs(cfg, n, data, w)
  }

  function RenamePendingActs(cfg: Config, s: State, o: string, n: string, e: RenameEnv): seq<Action> {
    if o !in s.d.pending then []
    else if e.moveOk then MoveBothActs(o, n, e.moveSumOk) + MoveShadowActs(o, n, s.d.pending[o], e.readOk, e.shadow)
    else if !e.readOk then []
    else if !e.writeOk then CopyOverActs(Pending, n, s.d.pending[o], false, e.torn)
    else RewriteActs(cfg, o, n, s.d.pending[o], e.sum) + MoveShadowActs(o, n, s.d.pending[o], true, e.shadow)
  }

  function RenameLruActs(s: State, o: string, n: string, e: RenameEnv): seq<Action>
    requires o in s.d.files
  {
    if e.getOk then [Do(Del(Lru, o)), Do(Put(Lru, n, s.d.files[o]))] else []
  }

  function RenameDeleteActs(o: string, e: RenameEnv): seq<Action> {
    Effect(e.del, Do(Del(S3, o))) + (if e.del.Done? then [] else Effect(e.delAgain, Do(Del(S3, o))))
  }

  function RenameLocalActs(s: State, o: string, n: string, e: RenameEnv): seq<Action> {
    if CachedName(o) && o in s.d.local && e.readLocalOk
    then CopyOverActs(Local, n, s.d.local[o], e.writeLocalOk, e.tornLocal) + [Do(Del(Local, o))]
    else []
  }

  /** Whether Rename returns nil. */
  predicate RenameOk(s: State, o: string, e: RenameEnv) {
    RenameCopies(s, o, e) && (e.del.Done? || e.delAgain.Done?)
  }

  /** Whether Rename gets past the S3 copy. */
  predicate RenameCopies(s: State, o: string, e: RenameEnv) {
    !s.c.closed && !s.c.lost && o in s.d.files && e.copy.Done?
  }

  /** Everything after a successful copy, up to the return. */
  function RenameTail(cfg: Config, s: State, o: string, n: string, e: RenameEnv): seq<Action>
    requires o in s.d.files
  {
    RenameLruActs(s, o, n, e) + RenamePendingActs(cfg, s, o, n, e) + RenameDeleteActs(o, e)
    + (if e.del.Done? || e.delAgain.Done? then RenameLocalActs(s, o, n, e) else [])
  }

  function RenameActs(cfg: Config, s: State, o: string, n: string, e: RenameEnv): seq<Action> {
    if s.c.closed || s.c.lost || o !in s.d.files then []
    else if e.copy.Failed? then Effect(e.copy, CopyOrphan(o, n))
    else
      var acts := [CopyFile(o, n)] + RenameTail(cfg, s, o, n, e);
      // the old name is forgotten once no copy is left
      acts + (if (e.del.Done? || e.delAgain.Done?) && Absent(ApplyAll(s, acts).d, o) then [Record(Forget(o))] else [])
  }

  // ---------- the pending directory ----------

  datatype PendingFile = PendingFile(name: string, data: Bytes, fd: FileDesc)
  datatype ReadEnv = ReadEnv(names: seq<string>, fileOk: string -> bool, sumOk: string -> bool)

  function Priority(fd: FileDesc): nat {
    match fd.ftype
    case Table => 0
    case Journal => 1
    case Manifest => 2
    case Temp => 99
  }

  /** The pending file is there, can be read, and is neither a sidecar nor oddly named. */
  predicate Readable(d: Disk, n: string, r: ReadEnv) {
    !IsSidecar(n) && n in d.pending && r.fileOk(n) && ParseFileDesc(n).Some?
  }

  /** Its sidecar can be read and contradicts it. */
  predicate Corrupt(cfg: Config, d: Disk, n: string, r: ReadEnv)
    requires n in d.pending
  {
    n in d.sums && r.sumOk(n) && TrimSpace(d.sums[n]) != SumText(cfg, d.pending[n])
  }

  function PendingFiles(cfg: Config, d: Disk, names: seq<string>, r: ReadEnv): (fs: seq<PendingFile>)
    ensures forall i :: 0 <= i < |fs| ==> fs[i].name in d.pending && fs[i].data == d.pending[fs[i].name]
  {
    if names == [] then []
    else
      var n := names[|names| - 1];
      PendingFiles(cfg, d, names[..|names| - 1], r)
      + (if Readable(d, n, r) && !Corrupt(cfg, d, n, r)
         then [PendingFile(n, d.pending[n], ParseFileDesc(n).value)] else [])
  }

  /** Corrupt files are deleted with their sidecar. */
  function DropActs(cfg: Config, d: Disk, names: seq<string>, r: ReadEnv): seq<Action> {
    if names == [] then []
    else
      var n := names[|names| - 1];
      DropActs(cfg, d, names[..|names| - 1], r)
      + (if Readable(d, n, r) && Corrupt(cfg, d, n, r) then [Do(Del(Pending, n)), Do(DelSum(n))] else [])
  }

  function Insert(f: PendingFile, fs: seq<PendingFile>): seq<PendingFile> {
    if fs == [] || Priority(fs[|fs| - 1].fd) <= Priority(f.fd) then fs + [f]
    else Insert(f, fs[..|fs| - 1]) + [fs[|fs| - 1]]
  }

  /** Ordered by upload priority; sort.Slice leaves the order of equal files open, here it is the directory's. */
  function Sorted(fs: seq<PendingFile>): seq<PendingFile> {
    if fs == [] then [] else Insert(fs[|fs| - 1], Sorted(fs[..|fs| - 1]))
  }

  function UploadList(cfg: Config, d: Disk, r: ReadEnv): seq<PendingFile> {
    Sorted(PendingFiles(cfg, d, r.names, r))
  }

  // ---------- goroutines ----------

  /** One schedule of the goroutines' remaining steps; whatever the schedule leaves over runs in order at the end. */
  function Merge(todo: seq<seq<Action>>, sched: seq<nat>): seq<Action>
    decreases |sched|
  {
    if sched == [] then Flatten(todo)
    else if sched[0] < |todo| && todo[sched[0]] != [] then
      [todo[sched[0]][0]] + Merge(todo[sched[0] := todo[sched[0]][1..]], sched[1..])
    else Merge(todo, sched[1..])
  }

  function Flatten(todo: seq<seq<Action>>): seq<Action> {
    if todo == [] then [] else todo[0] + Flatten(todo[1..])
  }

  // ---------- the background retry pass ----------

  /** uploadWithInfiniteRetry: failed attempts, each of which may have taken effect, then success or giving up. */
  datatype RetryEnv = RetryEnv(failures: seq<bool>, success: bool)
  datatype PassEnv = PassEnv(dirOk: bool, read: ReadEnv, each: string -> RetryEnv, sched: seq<nat>)

  function AttemptActs(n: string, data: Bytes, failures: seq<bool>): seq<Action> {
    if failures == [] then []
    else Effect(Failed(failures[0]), Do(Put(S3, n, data))) + AttemptActs(n, data, failures[1..])
  }

  function RetryActs(f: PendingFile, e: RetryEnv): seq<Action> {
    var key := FdName(f.fd);
    AttemptActs(key, f.data, e.failures)
    + (if e.success then
         [Do(Put(S3, key, f.data)), Do(Del(Pending, f.name)), Do(DelSum(f.name)), Do(Del(Shadow, f.name))]
       else [])
  }

  function RetryLists(fs: seq<PendingFile>, each: string -> RetryEnv): (todo: seq<seq<Action>>)
    ensures |todo| == |fs|
  {
    seq(|fs|, i requires 0 <= i < |fs| => RetryActs(fs[i], each(fs[i].name)))
  }

  function PassActs(cfg: Config, s: State, e: PassEnv): seq<Action> {
    if s.c.lost || !s.c.held || !e.dirOk then []
    else DropActs(cfg, s.d, e.read.names, e.read)
         // after Close every goroutine sees the stop signal before its first attempt
         + (if s.c.closed then [] else Merge(RetryLists(UploadList(cfg, s.d, e.read), e.each), e.sched))
  }

  // ---------- recovery inside Lock ----------

  datatype PullEnv = PullEnv(getOk: bool, writeOk: bool, sum: SumWrite)
  datatype PendEnv = PendEnv(
    listOk: bool, shadowNames: seq<string>, pull: string -> PullEnv,
    dirOk: bool, read: ReadEnv, up: string -> Outcome, sched: seq<nat>)

  function PullActs(cfg: Config, s: State, n: string, e: PullEnv): seq<Action> {
    if n == "" || n in s.d.pending || n !in s.d.shadow || !e.getOk || !e.writeOk then []
    else [Do(Put(Pending, n, s.d.shadow[n]))] + SumActs(cfg, n, s.d.shadow[n], e.sum)
  }

  /** syncFromShadow. */
  function ShadowActs(cfg: Config, s: State, names: seq<string>, pull: string -> PullEnv): seq<Action>
    decreases |names|
  {
    if names == [] then []
    else
      var acts := PullActs(cfg, s, names[0], pull(names[0]));
      acts + ShadowActs(cfg, ApplyAll(s, acts), names[1..], pull)
  }

  function RecoverOneActs(cfg: Config, f: PendingFile, o: Outcome): seq<Action> {
    if o.Done? then
      [Do(Put(S3, f.name, f.data)), Do(Del(Pending, f.name)), Do(DelSum(f.name)), Do(Del(Shadow, f.name))]
      + (if |f.data| <= cfg.maxFileSize then [Do(Put(Lru, FdName(f.fd), f.data))] else [])
    else Effect(o, Do(Put(S3, f.name, f.data)))
  }

  function RecoverLists(cfg: Config, fs: seq<PendingFile>, up: string -> Outcome): (todo: seq<seq<Action>>)
    ensures |todo| == |fs|
  {
    seq(|fs|, i requires 0 <= i < |fs| => RecoverOneActs(cfg, fs[i], up(fs[i].name)))
  }

  function PullAllActs(cfg: Config, s: State, e: PendEnv): seq<Action> {
    if e.listOk then ShadowActs(cfg, s, e.shadowNames, e.pull) else []
  }

  function ReuploadActs(cfg: Config, s: State, e: PendEnv): seq<Action> {
    if !e.dirOk then []
    else
      DropActs(cfg, s.d, e.read.names, e.read)
      + Merge(RecoverLists(cfg, UploadList(cfg, s.d, e.read), e.up), e.sched)
  }

  function SyncPendingActs(cfg: Config, s: State, e: PendEnv): seq<Action> {
    var pulls := PullAllActs(cfg, s, e);
    pulls + ReuploadActs(cfg, ApplyAll(s, pulls), e)
  }

  datatype LocalEnv = LocalEnv(dirOk: bool, names: seq<string>, readOk: string -> bool, put: string -> Outcome)

  predicate Uploads(d: Disk, n: string, e: LocalEnv) {
    n != "LOCK" && n != "CURRENT" && n in d.local && e.readOk(n)
  }

  /** syncLocalToS3's loop: the first failed upload ends it. */
  function LocalActs(d: Disk, names: seq<string>, e: LocalEnv): seq<Action> {
    if names == [] then []
    else if !Uploads(d, names[0], e) then LocalActs(d, names[1..], e)
    else Effect(e.put(names[0]), Do(Put(S3, names[0], d.local[names[0]])))
         + (if e.put(names[0]).Done? then LocalActs(d, names[1..], e) else [])
  }

  predicate LocalOk(d: Disk, names: seq<string>, e: LocalEnv) {
    forall i :: 0 <= i < |names| ==> Uploads(d, names[i], e) ==> e.put(names[i]).Done?
  }

  // ---------- cleaning up after an interrupted session ----------

  datatype WipeEnv = WipeEnv(lostMeanwhile: bool, rmOk: bool, listOk: bool, listing: seq<FileDesc>,
                             del: string -> Outcome, delCurrent: Outcome)
  datatype CleanEnv = CleanEnv(
    existsCurrentOk: bool, getCurrentOk: bool, existsManifestOk: bool, listOk: bool,
    localNames: seq<string>, pendingNames: seq<string>,
    readLocal: string -> bool, readPending: string -> bool,
    putLocal: Outcome, putPending: Outcome, putCurrent: Outcome, wipe: WipeEnv)

  /** What CURRENT says: its content, trimmed, as a file descriptor. */
  function DecodeCurrent(content: string): Option<FileDesc> {
    ParseFileDesc(TrimSpace(content))
  }

  function CurrentContent(fd: FileDesc): string {
    FdName(fd) + "\n"
  }

  function WipeDeletes(listing: seq<FileDesc>, del: string -> Outcome): seq<Action> {
    if listing == [] then []
    else Effect(del(FdName(listing[0])), Do(Del(S3, FdName(listing[0])))) + WipeDeletes(listing[1..], del)
  }

  /** removeAllOrphaned. */
  function WipeActs(cfg: Config, s: State, e: WipeEnv): seq<Action> {
    if s.c.lost || e.lostMeanwhile then []
    else
      [Record(DoomAll), Do(Purge(Lru))]
      + (if e.rmOk then [Do(Purge(Local))] + (if cfg.nested then [Do(Purge(Pending)), Do(PurgeSums)] else []) else [])
      + (if e.listOk then WipeDeletes(e.listing, e.del) + Effect(e.delCurrent, DelCurrent) else [])
  }

  /** The names client.List sees: main and shadow objects alike, by base name. */
  function ListedNames(d: Disk): set<string> {
    set n | n in d.files.Keys + d.shadow.Keys && ParseFileDesc(n).Some?
  }

  function VerifyActs(cfg: Config, s: State, e: CleanEnv): seq<Action> {
    if s.c.current.None? || !e.getCurrentOk then []
    else
      match DecodeCurrent(s.c.current.value)
      case None => WipeActs(cfg, s, e.wipe)
      case Some(fd) => if !e.existsManifestOk || FdName(fd) in s.d.files then [] else RestoreActs(cfg, s, FdName(fd), e)
  }

  /** verifyCurrentManifest about a manifest that is not on S3: the local cache, else pending, else a wipe. */
  function RestoreActs(cfg: Config, s: State, m: string, e: CleanEnv): seq<Action> {
    if FromLocal(s, m, e) && e.putLocal.Done? then PutLocalActs(s, m, e)
    else
      PutLocalActs(s, m, e) + PutPendingActs(s, m, e)
      + (if FromPending(s, m, e) && e.putPending.Done? then [Do(Del(Pending, m)), Do(DelSum(m))]
         else WipeActs(cfg, s, e.wipe))
  }

  predicate FromLocal(s: State, m: string, e: CleanEnv) {
    m in s.d.local && e.readLocal(m) && s.d.local[m] != []
  }

  predicate FromPending(s: State, m: string, e: CleanEnv) {
    m in s.d.pending && e.readPending(m) && s.d.pending[m] != []
  }

  function PutLocalActs(s: State, m: string, e: CleanEnv): seq<Action> {
    if FromLocal(s, m, e) then Effect(e.putLocal, Do(Put(S3, m, s.d.local[m]))) else []
  }

  function PutPendingActs(s: State, m: string, e: CleanEnv): seq<Action> {
    if FromPending(s, m, e) then Effect(e.putPending, Do(Put(S3, m, s.d.pending[m]))) else []
  }

  /** The manifest search: the highest number above zero, the first name in directory order among equals. */
  function LatestManifest(names: seq<string>): Option<(int, string)> {
    if names == [] then None
    else
      var best := LatestManifest(names[..|names| - 1]);
      var n := names[|names| - 1];
      match ManifestNum(n)
      case None => best
      case Some(num) => if num > (if best.Some? then best.value.0 else 0) then Some((num, n)) else best
  }

  /** The number and content of the manifest to rebuild CURRENT from, if the directory has a usable one. */
  function UsableManifest(names: seq<string>, m: map<string, Bytes>, readOk: string -> bool)
    : Option<(FileDesc, Bytes)>
  {
    match LatestManifest(names)
    case None => None
    case Some((num, n)) =>
      if n in m && readOk(n) && m[n] != [] then Some((FileDesc(Manifest, num), m[n])) else None
  }

  function NonSidecars(names: seq<string>): seq<string> {
    if names == [] then []
    else NonSidecars(names[..|names| - 1]) + (if IsSidecar(names[|names| - 1]) then [] else [names[|names| - 1]])
  }

  function RebuildActs(cfg: Config, s: State, fd: FileDesc, data: Bytes, put: Outcome, e: CleanEnv): seq<Action> {
    Effect(put, Do(Put(S3, FdName(fd), data)))
    + (if put.Failed? then WipeActs(cfg, s, e.wipe)
       else Effect(e.putCurrent, PutCurrent(CurrentContent(fd)))
            + (if e.putCurrent.Failed? then WipeActs(cfg, s, e.wipe) else []))
  }

  function RebuildSource(s: State, e: CleanEnv): Option<(FileDesc, Bytes)> {
    var fromLocal := UsableManifest(e.localNames, s.d.local, e.readLocal);
    if fromLocal.Some? then fromLocal else UsableManifest(NonSidecars(e.pendingNames), s.d.pending, e.readPending)
  }

  function RecoverCurrentActs(cfg: Config, s: State, e: CleanEnv): seq<Action> {
    if !e.listOk then []
    else
      match UsableManifest(e.localNames, s.d.local, e.readLocal)
      case Some((fd, data)) => RebuildActs(cfg, s, fd, data, e.putLocal, e)
      case None =>
        match UsableManifest(NonSidecars(e.pendingNames), s.d.pending, e.readPending)
        case Some((fd, data)) =>
          RebuildActs(cfg, s, fd, data, e.putPending, e)
          + (if e.putPending.Done? && e.putCurrent.Done? then [Do(Del(Pending, FdName(fd))), Do(DelSum(FdName(fd)))]
             else [])
        case None => if ListedNames(s.d) != {} then WipeActs(cfg, s, e.wipe) else []
  }

  /** cleanupOrphaned. */
  function CleanupActs(cfg: Config, s: State, e: CleanEnv): seq<Action> {
    if !e.existsCurrentOk then []
    else if s.c.current.Some? then VerifyActs(cfg, s, e)
    else RecoverCurrentActs(cfg, s, e)
  }

  // ---------- when the cleanup returns nil ----------

  /** removeAllOrphaned; what its deletes answer is only logged. */
  predicate WipeOk(s: State, e: WipeEnv) {
    !s.c.lost && !e.lostMeanwhile && e.listOk
  }

  predicate RebuildOk(s: State, put: Outcome, e: CleanEnv) {
    (put.Done? && e.putCurrent.Done?) || WipeOk(s, e.wipe)
  }

  predicate RestoreOk(s: State, m: string, e: CleanEnv) {
    || (FromLocal(s, m, e) && e.putLocal.Done?)
    || (FromPending(s, m, e) && e.putPending.Done?)
    || WipeOk(s, e.wipe)
  }

  predicate VerifyOk(s: State, e: CleanEnv)
    requires s.c.current.Some?
  {
    && e.getCurrentOk
    && match DecodeCurrent(s.c.current.value)
       case None => WipeOk(s, e.wipe)
       case Some(fd) => e.existsManifestOk && (FdName(fd) in s.d.files || RestoreOk(s, FdName(fd), e))
  }

  predicate RecoverCurrentOk(s: State, e: CleanEnv) {
    && e.listOk
    && if UsableManifest(e.localNames, s.d.local, e.readLocal).Some? then RebuildOk(s, e.putLocal, e)
       else if RebuildSource(s, e).Some? then RebuildOk(s, e.putPending, e)
       else ListedNames(s.d) != {} ==> WipeOk(s, e.wipe)
  }

  predicate CleanupOk(s: State, e: CleanEnv) {
    e.existsCurrentOk && if s.c.current.Some? then VerifyOk(s, e) else RecoverCurrentOk(s, e)
  }

  // ---------- Lock, Unlock, SetMeta ----------

  datatype LockEnv = LockEnv(
    acquired: Outcome, id: string, pend: PendEnv, local: LocalEnv, clean: CleanEnv, unlock: Outcome)

  /** syncLocalToS3 fails when the directory cannot be read or an upload fails. */
  predicate LocalSyncOk(s: State, e: LocalEnv) {
    e.dirOk && LocalOk(s.d, e.names, e)
  }

  function LocalSyncActs(s: State, e: LocalEnv): seq<Action> {
    if e.dirOk then LocalActs(s.d, e.names, e) else []
  }

  /** The two uploads of Lock: pending files first, then the local cache. */
  function LockSyncActs(cfg: Config, s: State, e: LockEnv): seq<Action> {
    var a1 := SyncPendingActs(cfg, s, e.pend);
    a1 + LocalSyncActs(ApplyAll(s, a1), e.local)
  }

  function AfterPending(cfg: Config, s: State, e: LockEnv): State {
    ApplyAll(s, SyncPendingActs(cfg, s, e.pend))
  }

  /** Lock past the acquisition of the S3 lock; cleanup runs only after the local cache was uploaded. */
  function LockActs(cfg: Config, s: State, e: LockEnv): seq<Action> {
    if s.c.closed then []
    else if e.acquired.Failed? then Effect(e.acquired, PutLock(e.id))
    else
      var s0 := Apply(s, PutLock(e.id));
      var sync := LockSyncActs(cfg, s0, e);
      [PutLock(e.id)] + sync +
      (if LocalSyncOk(AfterPending(cfg, s0, e), e.local)
       then CleanupActs(cfg, ApplyAll(s0, sync), e.clean) + [SetHeld(true)]
       else Effect(e.unlock, DelLock))
  }

  function ReleaseActs(s: State, first: Outcome, second: Outcome): seq<Action> {
    if s.c.lost then []
    else Effect(first, DelLock) + (if first.Done? then [] else Effect(second, DelLock))
  }

  /** S3Storage.Unlock. */
  function UnlockActs(s: State, first: Outcome, second: Outcome): seq<Action> {
    [SetHeld(false)] + ReleaseActs(s, first, second)
  }

  function SetMetaActs(s: State, fd: FileDesc, e: Outcome): seq<Action> {
    if s.c.closed || s.c.lost then [] else Effect(e, PutCurrent(CurrentContent(fd)))
  }

  datatype MetaResult = Meta(fd: FileDesc) | NoMeta | MetaFailed

  function GetMetaOutcome(s: State, existsOk: bool, getOk: bool, existsManifestOk: bool): MetaResult {
    if s.c.closed || !existsOk then MetaFailed
    else if s.c.current.None? then NoMeta
    else if !getOk then MetaFailed
    else match DecodeCurrent(s.c.current.value)
      case None => MetaFailed
      case Some(fd) =>
        if !existsManifestOk then MetaFailed
        else if FdName(fd) in s.d.files then Meta(fd) else NoMeta
  }

  /** S3Storage.Close. */
  function ShutdownActs(s: State): seq<Action> {
    if s.c.closed then [] else [SetClosed, Do(Purge(Lru))]
  }
}
