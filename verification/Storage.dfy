/** The storage as the object it is: fields updated in place, one method per operation. Ghost state records every
    step, so each contract says which steps the method takes, in which order; what any prefix of them keeps is proved
    in Durability. */
module Storage {
  import opened Scan
  import opened Names
  import opened Store
  import opened Programs
  import opened Guards
  import opened Dispatch
  import opened Passes
  import C = Cleanup
  import E = Effects
  import D = Durability
  import PendingDir

  datatype Error = ErrClosed | ErrLockLost | ErrFileTooLarge | ErrNotExist | ErrS3 | ErrDisk | ErrLockNotAcquired

  class S3Storage {
    const cfg: Config
    var files: map<string, Bytes>
    var shadow: map<string, Bytes>
    var pending: map<string, Bytes>
    var sums: map<string, string>
    var local: map<string, Bytes>
    var lru: map<string, Bytes>
    var current: Option<string>
    var lock: Option<string>
    var closed: bool
    var lost: bool
    var held: bool
    ghost var ledger: Ledger
    ghost var trace: seq<Action>
    ghost const start: State

    ghost function St(): State
      reads this
    {
      State(Disk(files, shadow, pending, local, lru, sums), ledger, Control(current, lock, closed, lost, held))
    }

    /** The fields are what the recorded steps make of the state the process started in. */
    ghost predicate Valid()
      reads this
    {
      St() == ApplyAll(start, trace)
    }

    /** Since the call began, exactly these steps were taken. */
    twostate predicate Did(acts: seq<Action>)
      reads this
    {
      Valid() && trace == old(trace) + acts
    }

    /** The other stores of copies are as they were. */
    twostate predicate OnlyAt(p: Place)
      reads this
    {
      && (p != S3 ==> files == old(files)) && (p != Shadow ==> shadow == old(shadow))
         && (p != Pending ==> pending == old(pending))
      && (p != Local ==> local == old(local)) && (p != Lru ==> lru == old(lru))
    }

    /** A process that finds these stores. */
    constructor (cfg: Config, d: Disk, current: Option<string>, lock: Option<string>, ghost l: Ledger)
      ensures Valid() && trace == [] && this.cfg == cfg
      ensures St() == State(d.(lru := map[]), l, Control(current, lock, false, false, false))
    {
      this.cfg := cfg;
      files, shadow, pending, sums, local, lru := d.files, d.shadow, d.pending, d.sums, d.local, map[];
      this.current, this.lock := current, lock;
      closed, lost, held := false, false, false;
      ledger := l;
      trace := [];
      start := State(d.(lru := map[]), l, Control(current, lock, false, false, false));
    }

    // ---------- single steps ----------

    ghost method Log(s: State, a: Action)
      requires s == ApplyAll(start, trace) && St() == Apply(s, a)
      modifies `trace
      ensures Valid() && trace == old(trace) + [a]
    {
      hide Apply, ApplyAll;
      ApplyAllSnoc(start, trace, a);
      trace := trace + [a];
    }

    method Put(p: Place, n: string, x: Bytes)
      requires Valid()
      modifies `files, `shadow, `pending, `local, `lru, `trace
      ensures OnlyAt(p) && Did([Do(Io.Put(p, n, x))]) && St() == Apply(old(St()), Do(Io.Put(p, n, x)))
      ensures p == Lru ==> lru == old(lru)[n := x]
    {
      ghost var s := St();
      match p {
        case S3 => files := files[n := x];
        case Shadow => shadow := shadow[n := x];
        case Pending => pending := pending[n := x];
        case Local => local := local[n := x];
        case Lru => lru := lru[n := x];
      }
      Log(s, Do(Io.Put(p, n, x)));
    }

    method Delete(p: Place, n: string)
      requires Valid()
      modifies `files, `shadow, `pending, `local, `lru, `trace
      ensures OnlyAt(p) && Did([Do(Del(p, n))]) && St() == Apply(old(St()), Do(Del(p, n)))
      ensures p == Lru ==> lru == old(lru) - {n}
    {
      ghost var s := St();
      match p {
        case S3 => files := files - {n};
        case Shadow => shadow := shadow - {n};
        case Pending => pending := pending - {n};
        case Local => local := local - {n};
        case Lru => lru := lru - {n};
      }
      Log(s, Do(Del(p, n)));
    }

    method Clear(p: Place)
      requires Valid()
      modifies `files, `shadow, `pending, `local, `lru, `trace
      ensures OnlyAt(p) && Did([Do(Purge(p))]) && St() == Apply(old(St()), Do(Purge(p)))
      ensures p == Lru ==> lru == map[]
    {
      ghost var s := St();
      match p {
        case S3 => files := map[];
        case Shadow => shadow := map[];
        case Pending => pending := map[];
        case Local => local := map[];
        case Lru => lru := map[];
      }
      Log(s, Do(Purge(p)));
    }

    method WriteSum(n: string, text: string)
      requires Valid()
      modifies `sums, `trace
      ensures Did([Do(PutSum(n, text))]) && St() == Apply(old(St()), Do(PutSum(n, text)))
    {
      ghost var s := St();
      sums := sums[n := text];
      Log(s, Do(PutSum(n, text)));
    }

    method DeleteSum(n: string)
      requires Valid()
      modifies `sums, `trace
      ensures Did([Do(DelSum(n))]) && St() == Apply(old(St()), Do(DelSum(n)))
    {
      ghost var s := St();
      sums := sums - {n};
      Log(s, Do(DelSum(n)));
    }

    method ClearSums()
      requires Valid()
      modifies `sums, `trace
      ensures Did([Do(PurgeSums)]) && St() == Apply(old(St()), Do(PurgeSums))
    {
      ghost var s := St();
      sums := map[];
      Log(s, Do(PurgeSums));
    }

    /** os.Rename of a pending file. */
    method MovePending(o: string, n: string)
      requires Valid() && o in pending
      modifies `pending, `trace
      ensures Did([Do(Move(o, n))]) && St() == Apply(old(St()), Do(Move(o, n)))
    {
      ghost var s := St();
      pending := (pending - {o})[n := pending[o]];
      Log(s, Do(Move(o, n)));
    }

    method MoveSumFile(o: string, n: string)
      requires Valid()
      modifies `sums, `trace
      ensures Did([Do(MoveSum(o, n))]) && St() == Apply(old(St()), Do(MoveSum(o, n)))
    {
      ghost var s := St();
      if o in sums {
        sums := (sums - {o})[n := sums[o]];
      }
      Log(s, Do(MoveSum(o, n)));
    }

    /** The copy was made but reported as failed. */
    method OrphanCopy(o: string, n: string)
      requires Valid() && o in files && o in ledger.written
      modifies `files, `ledger, `trace
      ensures Did([CopyOrphan(o, n)]) && St() == Apply(old(St()), CopyOrphan(o, n))
    {
      ghost var s := St();
      files := files[n := files[o]];
      ledger := Orphaned(ledger, o, n);
      Log(s, CopyOrphan(o, n));
    }

    method CopyObject(o: string, n: string)
      requires Valid() && o in files && o in ledger.written
      modifies `files, `ledger, `trace
      ensures Did([CopyFile(o, n)]) && St() == Apply(old(St()), CopyFile(o, n))
    {
      ghost var s := St();
      files := files[n := files[o]];
      ledger := Copied(ledger, o, n);
      Log(s, CopyFile(o, n));
    }

    method SetCurrent(content: Option<string>)
      requires Valid()
      modifies `current, `trace
      ensures
        var a := if content.Some? then PutCurrent(content.value) else DelCurrent;
        current == content && Did([a]) && St() == Apply(old(St()), a)
    {
      ghost var s := St();
      current := content;
      Log(s, if content.Some? then PutCurrent(content.value) else DelCurrent);
    }

    method SetLock(id: Option<string>)
      requires Valid()
      modifies `lock, `trace
      ensures
        var a := if id.Some? then PutLock(id.value) else DelLock;
        lock == id && Did([a]) && St() == Apply(old(St()), a)
    {
      ghost var s := St();
      lock := id;
      Log(s, if id.Some? then PutLock(id.value) else DelLock);
    }

    method StoreHeld(on: bool)
      requires Valid()
      modifies `held, `trace
      ensures Did([SetHeld(on)]) && St() == Apply(old(St()), SetHeld(on)) && held == on
    {
      ghost var s := St();
      held := on;
      Log(s, SetHeld(on));
    }

    method StoreLost()
      requires Valid()
      modifies `lost, `trace
      ensures Did([SetLost]) && St() == Apply(old(St()), SetLost) && lost
    {
      ghost var s := St();
      lost := true;
      Log(s, SetLost);
    }

    method StoreClosed()
      requires Valid()
      modifies `closed, `trace
      ensures Did([SetClosed]) && St() == Apply(old(St()), SetClosed) && closed
    {
      ghost var s := St();
      closed := true;
      Log(s, SetClosed);
    }

    ghost method Note(note: Store.Note)
      requires Valid()
      modifies `ledger, `trace
      ensures Did([Record(note)]) && St() == Apply(old(St()), Record(note))
    {
      var s := St();
      ledger := ApplyNote(ledger, note);
      Log(s, Record(note));
    }

    /** An S3 write that may fail having written or not. */
    method PutBytes(p: Place, n: string, x: Bytes, o: Outcome) returns (ok: bool)
      requires Valid()
      modifies `files, `shadow, `pending, `local, `lru, `trace
      ensures OnlyAt(p) && Did(Effect(o, Do(Io.Put(p, n, x)))) && ok == o.Done?
      ensures St() == if o.Done? || o.took then Apply(old(St()), Do(Io.Put(p, n, x))) else old(St())
    {
      if o.Done? || o.took {
        Put(p, n, x);
      }
      return o.Done?;
    }

    method RemoveObject(n: string, o: Outcome) returns (ok: bool)
      requires Valid()
      modifies `files, `shadow, `pending, `local, `lru, `trace
      ensures OnlyAt(S3) && Did(Effect(o, Do(Del(S3, n)))) && ok == o.Done?
      ensures St() == if o.Done? || o.took then Apply(old(St()), Do(Del(S3, n))) else old(St())
    {
      if o.Done? || o.took {
        Delete(S3, n);
      }
      return o.Done?;
    }

    /** The same state again, after these steps. */
    lemma Caught(s: State, before: seq<Action>, acts: seq<Action>)
      requires Valid() && s == ApplyAll(start, before) && trace == before + acts
      ensures St() == ApplyAll(s, acts)
    {
      ApplyAllConcat(start, before, acts);
    }

    /** Deletes the pending file, its checksum and its shadow. */
    method DropBackups(n: string)
      requires Valid()
      modifies `files, `shadow, `pending, `local, `lru, `sums, `trace
      ensures Did([Do(Del(Pending, n)), Do(DelSum(n)), Do(Del(Shadow, n))])
    {
      hide Apply, ApplyAll;
      Delete(Pending, n);
      DeleteSum(n);
      Delete(Shadow, n);
    }

    /** Why the contracts below matter: an operation whose steps are those of an event keeps the invariant at every
        point where a crash could stop it, and leaves the storage where the run of events says. */
    lemma StepsOfEvent(s: State, before: seq<Action>, ev: D.Event)
      requires Valid() && s == ApplyAll(start, before) && trace == before + D.EventActs(cfg, s, ev)
      requires Good(s) && D.Allowed(s, ev)
      ensures St() == D.After(cfg, s, D.Call(ev, None)) && Good(St())
      ensures forall k :: |before| <= k <= |trace| ==> Good(ApplyAll(start, trace[..k]))
    {
      hide ApplyAll, Good, D.EventActs, D.Allowed;
      var acts := D.EventActs(cfg, s, ev);
      Caught(s, before, acts);
      D.CallSafe(cfg, s, D.Call(ev, None));
      D.EventSafe(cfg, s, ev);
      forall k | |before| <= k <= |trace|
        ensures Good(ApplyAll(start, trace[..k]))
      {
        D.SafePrefix(s, acts, k - |before|);
        assert trace[..k] == before + acts[..k - |before|];
        ApplyAllConcat(start, before, acts[..k - |before|]);
      }
    }

    /** The same for the call in progress. */
    twostate lemma Kept(ev: D.Event)
      requires old(Valid()) && Did(D.EventActs(cfg, old(St()), ev))
      ensures old(Good(St())) && D.Allowed(old(St()), ev) ==>
        Good(St()) && St() == D.After(cfg, old(St()), D.Call(ev, None))
    {
      if old(Good(St())) && D.Allowed(old(St()), ev) {
        StepsOfEvent(old(St()), old(trace), ev);
      }
    }

    // ---------- reading ----------

    /** Whatever is returned extends the acknowledged bytes and is a prefix of the written ones. */
    method Open(fd: FileDesc, getOk: bool, readOk: bool) returns (r: OpenResult)
      requires Valid()
      modifies `files, `shadow, `pending, `local, `lru, `trace
      ensures Did(OpenActs(cfg, old(St()), FdName(fd), getOk))
      ensures r == OpenOutcome(old(St()), FdName(fd), getOk, readOk)
      ensures
        var n := FdName(fd);
        if closed then r == NotOpened(Closed)
        else if n in old(lru) then r == Opened(old(lru)[n])
        else if getOk && n in files then r == Opened(files[n])
        else if n in pending && readOk then r == Opened(pending[n])
        else r == NotOpened(if getOk then NotExist else Unreachable)
      ensures OnlyAt(Lru)
      ensures
        var n := FdName(fd);
        lru == if !closed && n !in old(lru) && getOk && n in files && |files[n]| <= cfg.maxFileSize
               then old(lru)[n := files[n]] else old(lru)
      ensures old(Good(St())) ==> Good(St()) && (r.Opened? ==> ledger.Between(FdName(fd), r.data))
    {
      hide FdName, Apply, ApplyAll, Good, D.After;
      D.OpenBetween(St(), FdName(fd), getOk, readOk);
      var name := FdName(fd);
      if closed {
        r := NotOpened(Closed);
      } else if name in lru {
        r := Opened(lru[name]);
      } else if getOk && name in files {
        r := Opened(files[name]);
        if |files[name]| <= cfg.maxFileSize {
          Put(Lru, name, files[name]);
        }
      } else if name in pending && readOk {
        r := Opened(pending[name]);
      } else {
        r := NotOpened(if getOk then NotExist else Unreachable);
      }
      Kept(D.EOpen(fd, getOk));
    }

    /** The LRU drops an entry, as it may at any time. */
    method Evict(n: string)
      requires Valid()
      modifies `files, `shadow, `pending, `local, `lru, `trace
      ensures Did([Do(Del(Lru, n))]) && OnlyAt(Lru) && lru == old(lru) - {n} && (old(Good(St())) ==> Good(St()))
    {
      hide Apply, ApplyAll, Good, D.After;
      Delete(Lru, n);
      Kept(D.EEvict(n));
    }

    // ---------- writing ----------

    method Create(fd: FileDesc, dirOk: bool) returns (r: Result<MemWriter>)
      requires Valid() && IsInt64(fd.num)
      modifies this
      ensures Did(CreateActs(old(St()), FdName(fd), dirOk))
      ensures r.Err? <==>
                old(closed) || old(lost) || ((fd.ftype == Journal || fd.ftype == Manifest) && !dirOk)
      ensures old(closed) ==> r == Err(ErrClosed)
      ensures !old(closed) && old(lost) ==> r == Err(ErrLockLost)
      ensures closed == old(closed)
      ensures OnlyAt(Lru) && lru == if old(closed) || old(lost) then old(lru) else old(lru)[FdName(fd) := []]
      ensures r.Ok? ==>
                fresh(r.value) && r.value.storage == this && r.value.fd == fd && r.value.Valid()
                && !r.value.closed && r.value.buf == []
      ensures old(Good(St()) && Free(ledger, FdName(fd))) ==> Good(St())
    {
      hide FdName, ParseFileDesc, ApplyAll, Good, D.After;
      if closed {
        return Err(ErrClosed);
      }
      if lost {
        return Err(ErrLockLost);
      }
      var name := FdName(fd);
      ParsePrinted(fd);
      Note(CreateNote(St().d, name));
      Put(Lru, name, []);
      if CachedLocally(fd) && !dirOk {
        Note(CloseWriter(name));
        r := Err(ErrDisk);
      } else {
        var w := new MemWriter(this, fd);
        r := Ok(w);
      }
      Kept(D.ECreate(fd, dirOk));
    }

    method SaveSum(n: string, data: Bytes, w: SumWrite)
      requires Valid()
      modifies `sums, `trace
      ensures Did(SumActs(cfg, n, data, w))
    {
      hide SumText, Apply, ApplyAll;
      match w {
        case SumDone => WriteSum(n, SumText(cfg, data));
        case SumFailed(None) =>
        case SumFailed(Some(left)) => WriteSum(n, left);
      }
    }

    method PersistToLocal(n: string, data: Bytes, e: PersistEnv) returns (ok: bool)
      requires Valid()
      modifies `shadow, `pending, `sums, `files, `local, `lru, `trace
      ensures Did(PersistActs(cfg, n, data, e)) && ok == e.fileOk
      ensures St() == if !ok then old(St()) else old(St()).(d := old(St()).d.(
                        pending := old(pending)[n := data], sums := E.Summed(cfg, old(sums), n, data, e.sum),
                        shadow := if TakesEffect(e.shadow) then old(shadow)[n := data] else old(shadow)))
    {
      hide SumText, Apply, ApplyAll;
      E.PersistLeaves(cfg, old(St()), n, data, e);
      ok := PersistSteps(n, data, e);
      Caught(old(St()), old(trace), PersistActs(cfg, n, data, e));
    }

    method PersistSteps(n: string, data: Bytes, e: PersistEnv) returns (ok: bool)
      requires Valid()
      modifies `shadow, `pending, `sums, `files, `local, `lru, `trace
      ensures Did(PersistActs(cfg, n, data, e)) && ok == e.fileOk
    {
      hide SumText, Apply, ApplyAll;
      if !e.fileOk {
        return false;
      }
      Put(Pending, n, data);
      SaveSum(n, data, e.sum);
      var backedUp := PutBytes(Shadow, n, data, e.shadow);
      return true;
    }

    method FinishUpload(n: string, data: Bytes)
      requires Valid()
      modifies `files, `shadow, `pending, `local, `lru, `sums, `trace
      ensures Did([Do(Del(Pending, n)), Do(DelSum(n)), Do(Del(Shadow, n)), Do(Io.Put(Lru, n, data))])
    {
      hide Apply, ApplyAll;
      DropBackups(n);
      Put(Lru, n, data);
    }

    method UploadFile(n: string, data: Bytes, e: UploadEnv) returns (err: Option<Error>)
      requires Valid()
      modifies `shadow, `pending, `sums, `files, `local, `lru, `trace
      ensures Did(if TooLarge(cfg, n, data) || old(lost) then [] else UploadActs(cfg, n, data, e))
      ensures err.None? <==> !TooLarge(cfg, n, data) && !old(lost) && e.put.Done?
      ensures TooLarge(cfg, n, data) ==> err == Some(ErrFileTooLarge)
      ensures !TooLarge(cfg, n, data) && old(lost) ==> err == Some(ErrLockLost)
    {
      hide TooLarge, PersistActs, Apply, ApplyAll;
      if TooLarge(cfg, n, data) {
        return Some(ErrFileTooLarge);
      }
      if lost {
        return Some(ErrLockLost);
      }
      var ok := PutBytes(S3, n, data, e.put);
      if !ok {
        var kept := PersistToLocal(n, data, e.persist);
        return Some(ErrS3);
      }
      FinishUpload(n, data);
      return None;
    }

    // ---------- removing and renaming ----------

    method DropCaches(fd: FileDesc)
      requires Valid()
      modifies `files, `shadow, `pending, `local, `lru, `trace
      ensures Did([Do(Del(Lru, FdName(fd)))] + if CachedLocally(fd) then [Do(Del(Local, FdName(fd)))] else [])
    {
      hide FdName, Apply, ApplyAll;
      Delete(Lru, FdName(fd));
      if CachedLocally(fd) {
        Delete(Local, FdName(fd));
      }
    }

    method RemoveCopies(fd: FileDesc, del: Outcome) returns (ok: bool)
      requires Valid() && IsInt64(fd.num)
      modifies `files, `shadow, `pending, `local, `lru, `sums, `trace
      ensures Did(RemoveDeletes(FdName(fd), del)) && ok == del.Done?
    {
      hide FdName, ParseFileDesc, Apply, ApplyAll;
      ParsePrinted(fd);
      DropCaches(fd);
      DropBackups(FdName(fd));
      ok := RemoveObject(FdName(fd), del);
    }

    method Remove(fd: FileDesc, del: Outcome) returns (err: Option<Error>)
      requires Valid() && IsInt64(fd.num)
      modifies this
      ensures Did(RemoveActs(old(St()), FdName(fd), del))
      ensures err.None? <==> !old(closed) && !old(lost) && del.Done?
      ensures old(Good(St()) && FdName(fd) !in ledger.open) ==>
        Good(St()) && (err.None? ==> Absent(St().d, FdName(fd)) && FdName(fd) !in ledger.written)
      ensures
        var n := FdName(fd);
        St().d == if old(closed) || old(lost) then old(St()).d
                  else Disk(if TakesEffect(del) then old(files) - {n} else old(files), old(shadow) - {n},
                      old(pending) - {n},
                            if fd.ftype == Journal || fd.ftype == Manifest then old(local) - {n} else old(local),
                            old(lru) - {n}, old(sums) - {n})
    {
      hide RemoveActs, ApplyAll, Good, Absent, D.After, FdName;
      err := RemoveSteps(fd, del);
      Caught(old(St()), old(trace), RemoveActs(old(St()), FdName(fd), del));
      E.RemoveLeaves(old(St()), fd, del);
      Kept(D.ERemove(fd, del));
      D.RemoveOutcome(cfg, old(St()), fd, del);
    }

    method RemoveSteps(fd: FileDesc, del: Outcome) returns (err: Option<Error>)
      requires Valid() && IsInt64(fd.num)
      modifies this
      ensures Did(RemoveActs(old(St()), FdName(fd), del))
      ensures err.None? <==> !old(closed) && !old(lost) && del.Done?
    {
      hide FdName, RemoveDeletes, RemoveActs, Apply, ApplyAll;
      NoRemove(old(St()), FdName(fd), del);
      if closed {
        return Some(ErrClosed);
      }
      if lost {
        return Some(ErrLockLost);
      }
      RemoveShape(St(), FdName(fd), del);
      Note(Doom(FdName(fd)));
      var ok := RemoveCopies(fd, del);
      if ok {
        Note(Forget(FdName(fd)));
        err := None;
      } else {
        err := Some(ErrS3);
      }
    }

    /** The shadow of a renamed file: the old one goes, the new one is written if the data could be read. */
    method MoveShadow(o: string, n: string, data: Bytes, readOk: bool, out: Outcome)
      requires Valid()
      modifies `files, `shadow, `pending, `local, `lru, `trace
      ensures Did(MoveShadowActs(o, n, data, readOk, out))
      ensures local == old(local)
    {
      hide Apply, ApplyAll;
      Delete(Shadow, o);
      if readOk {
        var backedUp := PutBytes(Shadow, n, data, out);
      }
    }

    /** os.Rename of the pending file and of its checksum. */
    method MoveBoth(o: string, n: string, moveSumOk: bool)
      requires Valid() && o in pending
      modifies `pending, `sums, `trace
      ensures Did(MoveBothActs(o, n, moveSumOk))
    {
      hide Apply, ApplyAll;
      MovePending(o, n);
      if moveSumOk {
        MoveSumFile(o, n);
      }
    }

    /** When the pending file cannot be renamed it is written under the new name and deleted under the old. */
    method RewritePending(o: string, n: string, data: Bytes, w: SumWrite)
      requires Valid()
      modifies `files, `shadow, `pending, `local, `lru, `sums, `trace
      ensures Did(RewriteActs(cfg, o, n, data, w))
      ensures local == old(local)
    {
      hide SumText, Apply, ApplyAll;
      Put(Pending, n, data);
      Delete(Pending, o);
      DeleteSum(o);
      SaveSum(n, data, w);
    }

    /** os.WriteFile of a copy under the new name; a failed write may leave the beginning of the file. */
    method CopyOver(p: Place, n: string, data: Bytes, ok: bool, torn: Option<nat>)
      requires Valid()
      modifies `files, `shadow, `pending, `local, `lru, `trace
      ensures Did(CopyOverActs(p, n, data, ok, torn)) && OnlyAt(p)
    {
      hide Apply, ApplyAll;
      if ok {
        Put(p, n, data);
      } else if torn.Some? {
        Put(p, n, Torn(data, torn.value));
      }
    }

    method RenamePending(o: string, n: string, e: RenameEnv)
      requires Valid()
      modifies `files, `shadow, `pending, `local, `lru, `sums, `trace
      ensures Did(RenamePendingActs(cfg, old(St()), o, n, e))
      ensures local == old(local)
    {
      hide Apply, ApplyAll, MoveBothActs, MoveShadowActs, RewriteActs;
      if o !in pending {
        return;
      }
      var data := pending[o];
      if e.moveOk {
        MoveBoth(o, n, e.moveSumOk);
        MoveShadow(o, n, data, e.readOk, e.shadow);
      } else if e.readOk {
        if !e.writeOk {
          CopyOver(Pending, n, data, false, e.torn);
          return;
        }
        RewritePending(o, n, data, e.sum);
        MoveShadow(o, n, data, true, e.shadow);
      }
    }

    /** Deletes the old object, trying once more if that failed. */
    method DeleteSource(o: string, e: RenameEnv) returns (ok: bool)
      requires Valid()
      modifies `files, `shadow, `pending, `local, `lru, `trace
      ensures Did(RenameDeleteActs(o, e)) && ok == (e.del.Done? || e.delAgain.Done?)
      ensures local == old(local)
    {
      hide ApplyAll;
      ok := RemoveObject(o, e.del);
      if !ok {
        ok := RemoveObject(o, e.delAgain);
      }
    }

    method RenameLocal(oldFd: FileDesc, n: string, e: RenameEnv)
      requires Valid() && IsInt64(oldFd.num)
      modifies `files, `shadow, `pending, `local, `lru, `trace
      ensures Did(RenameLocalActs(old(St()), FdName(oldFd), n, e))
    {
      hide FdName, ParseFileDesc, Apply, ApplyAll;
      ParsePrinted(oldFd);
      var o := FdName(oldFd);
      if CachedLocally(oldFd) && o in local && e.readLocalOk {
        CopyOver(Local, n, local[o], e.writeLocalOk, e.tornLocal);
        Delete(Local, o);
      }
    }

    method RenameLru(o: string, n: string, e: RenameEnv)
      requires Valid() && o in files
      modifies `files, `shadow, `pending, `local, `lru, `trace
      ensures Did(RenameLruActs(old(St()), o, n, e)) && OnlyAt(Lru)
    {
      hide Apply, ApplyAll;
      if e.getOk {
        Delete(Lru, o);
        Put(Lru, n, files[o]);
      }
    }

    /** Everything after a successful copy. */
    method FinishRename(oldFd: FileDesc, n: string, e: RenameEnv) returns (ok: bool)
      requires Valid() && IsInt64(oldFd.num) && FdName(oldFd) in files
      modifies `files, `shadow, `pending, `local, `lru, `sums, `trace
      ensures Did(RenameTail(cfg, old(St()), FdName(oldFd), n, e)) && ok == (e.del.Done? || e.delAgain.Done?)
    {
      hide FdName, ParseFileDesc, Apply, ApplyAll, RenameLruActs, RenamePendingActs, RenameDeleteActs, RenameLocalActs;
      var o := FdName(oldFd);
      ghost var s, before := St(), trace;
      RenameLru(o, n, e);
      ghost var done := RenameLruActs(s, o, n, e);
      SameSources(cfg, s, St(), o, n, e);
      RenamePending(o, n, e);
      done := done + RenamePendingActs(cfg, s, o, n, e);
      assert trace == before + done;
      ok := DeleteSource(o, e);
      done := done + RenameDeleteActs(o, e);
      assert trace == before + done;
      if ok {
        SameLocal(s, St(), o, n, e);
        RenameLocal(oldFd, n, e);
      }
    }

    method Rename(oldFd: FileDesc, newFd: FileDesc, e: RenameEnv) returns (err: Option<Error>)
      requires Valid() && IsInt64(oldFd.num)
      requires FdName(oldFd) in files ==> FdName(oldFd) in ledger.written
      modifies this
      ensures Did(RenameActs(cfg, old(St()), FdName(oldFd), FdName(newFd), e))
      ensures err.None? <==> !old(closed) && !old(lost) && FdName(oldFd) in old(files) && e.copy == Done
                             && (e.del == Done || e.delAgain == Done)
      ensures
        var o, n := FdName(oldFd), FdName(newFd);
        St().d == if old(closed) || old(lost) || o !in old(files) || e.copy == Failed(false) then old(St()).d
                  else if e.copy == Failed(true) then old(St()).d.(files := old(files)[n := old(files)[o]])
                  else E.RenamedStores(cfg, old(St()).d, oldFd, n, e)
      ensures old(Good(St()) && D.Allowed(St(), D.ERename(oldFd, newFd, e))) ==>
        && Good(St())
        && (err.None? && old(Live(ledger, FdName(oldFd))) ==>
              Live(ledger, FdName(newFd)) && ledger.acked[FdName(newFd)] == old(ledger.acked[FdName(oldFd)]))
    {
      hide FdName, RenameActs, RenameOk, E.RenamedStores, ApplyAll, Good, Live, D.After, D.Allowed;
      err := RenameSteps(oldFd, newFd, e);
      Caught(old(St()), old(trace), RenameActs(cfg, old(St()), FdName(oldFd), FdName(newFd), e));
      E.RenameLeaves(cfg, old(St()), oldFd, FdName(newFd), e);
      Kept(D.ERename(oldFd, newFd, e));
      if old(Good(St()) && D.Allowed(St(), D.ERename(oldFd, newFd, e)) && Live(ledger, FdName(oldFd))) {
        D.RenameHandsOver(cfg, old(St()), oldFd, newFd, e, None);
      }
    }

    method RenameSteps(oldFd: FileDesc, newFd: FileDesc, e: RenameEnv) returns (err: Option<Error>)
      requires Valid() && IsInt64(oldFd.num)
      requires FdName(oldFd) in files ==> FdName(oldFd) in ledger.written
      modifies this
      ensures Did(RenameActs(cfg, old(St()), FdName(oldFd), FdName(newFd), e))
      ensures err.None? <==> RenameOk(old(St()), FdName(oldFd), e)
    {
      hide FdName, ParseFileDesc, ApplyAll, RenameTail, Absent;
      var o, n := FdName(oldFd), FdName(newFd);
      if closed {
        return Some(ErrClosed);
      }
      if lost {
        return Some(ErrLockLost);
      }
      if o !in files {
        return Some(ErrNotExist);
      }
      if e.copy.Failed? {
        if e.copy.took {
          OrphanCopy(o, n);
        }
        return Some(ErrS3);
      }
      ghost var s, before := St(), trace;
      CopyObject(o, n);
      SameTail(cfg, s, St(), o, n, e);
      var ok := FinishRename(oldFd, n, e);
      if !ok {
        return Some(ErrS3);
      }
      ghost var acts := [CopyFile(o, n)] + RenameTail(cfg, s, o, n, e);
      assert trace == before + acts;
      Caught(s, before, acts);
      ghost var gone := Absent(St().d, o);
      if gone {
        Note(Forget(o));
      }
      return None;
    }

    // ---------- the pending directory ----------

    /** One entry of the directory: read, skipped, or found corrupt and deleted. */
    method ReadEntry(n: string, r: ReadEnv) returns (found: seq<PendingFile>)
      requires Valid()
      modifies `files, `shadow, `pending, `local, `lru, `sums, `trace
      ensures Did(DropEntry(cfg, old(St()).d, n, r)) && found == FoundEntry(cfg, old(St()).d, n, r)
      ensures forall k :: k != n ==> SameEntry(old(St()).d, St().d, k)
    {
      hide ApplyAll, ParseFileDesc, IsSidecar, TrimSpace, SumText, SameEntry;
      SameEntries(St().d);
      found := [];
      if !IsSidecar(n) && n in pending && r.fileOk(n) {
        var parsed := ParseFileDesc(n);
        if parsed.Some? {
          if n in sums && r.sumOk(n) && TrimSpace(sums[n]) != SumText(cfg, pending[n]) {
            DropPending(n);
          } else {
            found := [PendingFile(n, pending[n], parsed.value)];
          }
        }
      }
    }

    /** readPendingFiles; a directory lists no name twice. */
    method ReadPendingFiles(r: ReadEnv) returns (fs: seq<PendingFile>)
      requires Valid() && PendingDir.NoDuplicates(r.names)
      modifies `files, `shadow, `pending, `local, `lru, `sums, `trace
      ensures Did(DropActs(cfg, old(St()).d, r.names, r)) && fs == UploadList(cfg, old(St()).d, r)
      ensures PendingDir.Judged(cfg, old(St().d), r, fs, St().d)
    {
      fs := ScanPending(r);
      hide ApplyAll, UploadList, DropActs, PendingDir.Judged;
      Caught(old(St()), old(trace), DropActs(cfg, old(St()).d, r.names, r));
      PendingDir.SidecarsDecide(cfg, old(St()), r);
    }

    method ScanPending(r: ReadEnv) returns (fs: seq<PendingFile>)
      requires Valid() && PendingDir.NoDuplicates(r.names)
      modifies `files, `shadow, `pending, `local, `lru, `sums, `trace
      ensures Did(DropActs(cfg, old(St()).d, r.names, r)) && fs == UploadList(cfg, old(St()).d, r)
    {
      hide ApplyAll, SameEntry, DropEntry, FoundEntry, DropActs, PendingFiles;
      ghost var d := St().d;
      SameEntries(d);
      NoEntries(cfg, d, r);
      var found: seq<PendingFile> := [];
      for i := 0 to |r.names|
        invariant Did(DropActs(cfg, d, r.names[..i], r))
        invariant found == PendingFiles(cfg, d, r.names[..i], r)
        invariant forall j :: i <= j < |r.names| ==> SameEntry(d, St().d, r.names[j])
      {
        ghost var e := St().d;
        EntryStep(cfg, d, r.names[..i], r.names[i], r);
        EntrySame(cfg, d, e, r.names[i], r);
        assert r.names[..i + 1] == r.names[..i] + [r.names[i]];
        var more := ReadEntry(r.names[i], r);
        found := found + more;
        forall j | i + 1 <= j < |r.names|
          ensures SameEntry(d, St().d, r.names[j])
        {
          SameTwice(d, e, St().d, r.names[j]);
        }
      }
      assert r.names[..|r.names|] == r.names;
      fs := Sorted(found);
    }

    /** Deletes one pending file and its checksum. */
    method DropPending(n: string)
      requires Valid()
      modifies `files, `shadow, `pending, `local, `lru, `sums, `trace
      ensures Did([Do(Del(Pending, n)), Do(DelSum(n))])
      ensures forall k :: k != n ==> SameEntry(old(St()).d, St().d, k)
    {
      hide ApplyAll;
      Delete(Pending, n);
      DeleteSum(n);
    }

    // ---------- the goroutine pool ----------

    /** One step of the pool: what a goroutine does to the stores in it. */
    method TakeTurn(p: Pool, st: Step)
      requires Valid() && Enabled(p, st) && |p.jobs| == |p.work|
      modifies `files, `shadow, `pending, `local, `lru, `sums, `trace
      ensures Did(EffectOf(p, st))
    {
      hide Apply, ApplyAll;
      match st {
        case PutReturns(j, ok, took) =>
          var answered := PutBytes(S3, p.work[j].key, p.work[j].data, if ok then Done else Failed(took));
        case CleanUp(j) =>
          var w := p.work[j];
          if p.jobs[j].done == 0 {
            Delete(Pending, w.name);
          } else if p.jobs[j].done == 1 {
            DeleteSum(w.name);
          } else if p.jobs[j].done == 2 {
            Delete(Shadow, w.name);
          } else {
            Put(Lru, w.cache.value, w.data);
          }
        case _ =>
      }
    }

    /** The dispatcher and its goroutines, interleaved as the run says, until all have finished. */
    method RunAll(start: Pool, run: seq<Step>) returns (p: Pool)
      requires Valid() && Possible(start, run) && |start.jobs| == |start.work|
      modifies `files, `shadow, `pending, `local, `lru, `sums, `trace
      ensures Did(PoolActs(start, run)) && p == RunPool(start, run)
    {
      hide Apply, ApplyAll, Enabled, EffectOf, Take;
      p := start;
      for i := 0 to |run|
        invariant Valid() && |p.jobs| == |p.work| && Possible(p, run[i..])
                  && RunPool(p, run[i..]) == RunPool(start, run)
        invariant trace + PoolActs(p, run[i..]) == old(trace) + PoolActs(start, run)
      {
        ghost var left, before := run[i..], trace;
        assert left[0] == run[i] && left[1..] == run[i + 1..];
        ghost var q := p;
        TakeTurn(p, run[i]);
        p := Take(p, run[i]);
        Associate(before, EffectOf(q, run[i]), PoolActs(p, left[1..]));
      }
      assert run[|run|..] == [];
    }

    // ---------- the background retry pass ----------

    /** The goroutines of the retry pass, with the lease monitor beside them. */
    method RunWatched(start: Pool, run: seq<Step>)
      requires Valid() && Possible(start, run) && |start.jobs| == |start.work| && start.lost == lost
      modifies `files, `shadow, `pending, `local, `lru, `sums, `trace, `lost
      ensures Did(WatchedActs(start, run)) && lost == RunPool(start, run).lost
    {
      hide Apply, ApplyAll, Enabled, EffectOf, Take;
      var p := start;
      for i := 0 to |run|
        invariant Valid() && |p.jobs| == |p.work| && Possible(p, run[i..])
                  && RunPool(p, run[i..]) == RunPool(start, run)
        invariant trace + WatchedActs(p, run[i..]) == old(trace) + WatchedActs(start, run) && p.lost == lost
      {
        ghost var left, before := run[i..], trace;
        assert left[0] == run[i] && left[1..] == run[i + 1..];
        ghost var q := p;
        LostStays(p, run[i]);
        if run[i].LoseLock? && !lost {
          StoreLost();
        } else {
          TakeTurn(p, run[i]);
        }
        p := Take(p, run[i]);
        Associate(before, if run[i].LoseLock? && !q.lost then [SetLost] else EffectOf(q, run[i]),
                  WatchedActs(p, left[1..]));
      }
      assert run[|run|..] == [];
    }

    /** retryPendingFilesOnce, with the goroutines' run; e is the same pass as an event of a run of calls. If the lease
        monitor fires meanwhile, its flag is set after k of the pass's steps. */
    method RetryPendingFilesOnce(dirOk: bool, read: ReadEnv, run: seq<Step>) returns (ghost e: PassEnv, ghost k: nat)
      requires Valid() && PendingDir.NoDuplicates(read.names)
      requires !lost && held && dirOk && !closed ==> Complete(RetryPool(cfg, UploadList(cfg, St().d, read)), run)
      modifies `files, `shadow, `pending, `local, `lru, `sums, `trace, `lost
      ensures e.dirOk == dirOk && e.read == read
      ensures
        var acts := PassActs(cfg, old(St()), e);
        k <= |acts| && Did(if lost && !old(lost) then Inserted(acts, k) else acts)
      ensures
        var t := ApplyAll(old(St()), PassActs(cfg, old(St()), e));
        St() == if lost && !old(lost) then Apply(t, SetLost) else t
      ensures old(Good(St())) ==> Good(St())
      ensures old(lost) || !old(held) ==> trace == old(trace)
    {
      hide Apply, ApplyAll, PassActs, Complete, Good, D.After, Inserted;
      NoPass(cfg, St());
      e, k := RetrySteps(dirOk, read, run);
      ghost var s, acts := old(St()), PassActs(cfg, old(St()), e);
      Caught(s, old(trace), if lost && !old(lost) then Inserted(acts, k) else acts);
      if lost && !old(lost) {
        FlagCommutes(s, acts, k);
      }
      PassKeepsGood(cfg, s, e);
    }

    method RetrySteps(dirOk: bool, read: ReadEnv, run: seq<Step>) returns (ghost e: PassEnv, ghost k: nat)
      requires Valid() && PendingDir.NoDuplicates(read.names)
      requires !lost && held && dirOk && !closed ==> Complete(RetryPool(cfg, UploadList(cfg, St().d, read)), run)
      modifies `files, `shadow, `pending, `local, `lru, `sums, `trace, `lost
      ensures e.dirOk == dirOk && e.read == read
      ensures
        var acts := PassActs(cfg, old(St()), e);
        && k <= |acts| && (forall a :: a in acts[k..] ==> a.Do?)
        && Did(if lost && !old(lost) then Inserted(acts, k) else acts)
      ensures old(lost) || !old(held) ==> lost == old(lost)
    {
      hide Apply, ApplyAll, UploadList, DropActs, Merge, RetryLists, RunPool, Possible, PoolActs, Inserted, WatchedActs;
      e := PassEnv(dirOk, read, n => RetryEnv([], false), []);
      k := |PassActs(cfg, old(St()), e)|;
      if lost {
        return;
      }
      if !held {
        return;
      }
      if !dirOk {
        return;
      }
      ghost var d := St().d;
      var fs := ReadPendingFiles(read);
      if closed {
        return;
      }
      PendingDir.UploadListDistinct(cfg, d, read);
      ghost var each, sched;
      each, sched, k := WatchedPass(cfg, fs, run, DropActs(cfg, d, read.names, read));
      e := PassEnv(dirOk, read, each, sched);
      RunWatched(RetryPool(cfg, fs), run);
    }

    // ---------- recovery ----------

    method PullOne(n: string, e: PullEnv)
      requires Valid()
      modifies `files, `shadow, `pending, `local, `lru, `sums, `trace
      ensures Did(PullActs(cfg, old(St()), n, e))
    {
      hide SumText, SumActs, Apply, ApplyAll;
      if n == "" || n in pending || n !in shadow || !e.getOk || !e.writeOk {
        return;
      }
      var data := shadow[n];
      Put(Pending, n, data);
      SaveSum(n, data, e.sum);
    }

    /** syncFromShadow. */
    method SyncFromShadow(names: seq<string>, pull: string -> PullEnv)
      requires Valid()
      modifies `files, `shadow, `pending, `local, `lru, `sums, `trace
      ensures Did(ShadowActs(cfg, old(St()), names, pull))
    {
      hide PullActs, Apply, ApplyAll;
      for i := 0 to |names|
        invariant Valid()
        invariant trace + ShadowActs(cfg, St(), names[i..], pull)
                  == old(trace) + ShadowActs(cfg, old(St()), names, pull)
      {
        ghost var left, s, before := names[i..], St(), trace;
        assert left[0] == names[i] && left[1..] == names[i + 1..];
        PullOne(names[i], pull(names[i]));
        Caught(s, before, PullActs(cfg, s, names[i], pull(names[i])));
      }
      assert names[|names|..] == [];
    }

    /** syncPendingToS3: nil exactly when the directory could be read and every upload succeeded. q says how S3 and the
        disk answer; which uploads succeed and how they interleave is what the run decides, and e records it. */
    method SyncPendingToS3(q: PendEnv, run: seq<Step>) returns (ok: bool, ghost e: PendEnv)
      requires Valid() && PendingDir.NoDuplicates(q.read.names) && RecoveryRun(cfg, St(), q, run)
      modifies `files, `shadow, `pending, `local, `lru, `sums, `trace
      ensures e == q.(up := e.up, sched := e.sched)
      ensures Did(SyncPendingActs(cfg, old(St()), e))
      ensures
        var t := ApplyAll(old(St()), PullAllActs(cfg, old(St()), e));
        ok <==> e.dirOk && forall f :: f in UploadList(cfg, t.d, e.read) ==> e.up(f.name).Done?
    {
      hide Apply, ApplyAll, UploadList, DropActs, ShadowActs, Merge, RecoverLists, Possible, RunPool, PoolActs;
      ghost var s := St();
      if q.listOk {
        SyncFromShadow(q.shadowNames, q.pull);
      }
      e := q;
      ghost var pulls := PullAllActs(cfg, s, q);
      assert trace == old(trace) + pulls;
      Caught(s, old(trace), pulls);
      if !q.dirOk {
        return false, e;
      }
      ghost var t := St();
      var fs := ReadPendingFiles(q.read);
      ghost var drops := DropActs(cfg, t.d, q.read.names, q.read);
      PendingDir.UploadListDistinct(cfg, t.d, q.read);
      ghost var up, sched := RecoveryOfPool(cfg, fs, run);
      e := q.(up := up, sched := sched);
      var p := RunAll(RecoverPool(cfg, fs), run);
      assert trace == old(trace) + (pulls + (drops + Merge(RecoverLists(cfg, fs, up), sched)));
      AllGood(cfg, fs, run, up);
      var failed := FirstFailure(p.results);
      return failed.None?, e;
    }

    /** syncLocalToS3: the first failed upload ends it. */
    /** One entry of the local cache. */
    method UploadCached(name: string, e: LocalEnv) returns (ok: bool)
      requires Valid()
      modifies `files, `shadow, `pending, `local, `lru, `trace
      ensures OnlyAt(S3)
      ensures Did(LocalEntry(old(St().d), name, e))
      ensures ok <==> (Uploads(old(St().d), name, e) ==> e.put(name).Done?)
    {
      hide Apply, ApplyAll;
      ok := true;
      if name != "LOCK" && name != "CURRENT" && name in local && e.readOk(name) {
        ok := PutBytes(S3, name, local[name], e.put(name));
      }
    }

    method SyncLocalToS3(e: LocalEnv) returns (ok: bool)
      requires Valid()
      modifies `files, `shadow, `pending, `local, `lru, `sums, `trace
      ensures Did(LocalSyncActs(old(St()), e)) && ok == LocalSyncOk(old(St()), e)
      ensures ok <==> E.CacheUploads(old(local), e)
    {
      hide Apply, ApplyAll, E.CacheUploads, Effect, LocalActs, LocalOk, Uploads;
      E.CacheUploadsMeans(St(), e);
      LocalNone(St().d, e);
      if !e.dirOk {
        return false;
      }
      ghost var d := St().d;
      for i := 0 to |e.names|
        invariant Valid() && local == d.local
        invariant trace + LocalActs(d, e.names[i..], e) == old(trace) + LocalActs(d, e.names, e)
        invariant LocalOk(d, e.names[..i], e)
      {
        ghost var left := e.names[i..];
        assert left[0] == e.names[i] && left[1..] == e.names[i + 1..];
        assert e.names[..i + 1] == e.names[..i] + [e.names[i]];
        ghost var before := trace;
        UploadsSame(St().d, d, e.names[i], e);
        LocalStep(d, left, e);
        LocalOkStep(d, e.names[..i], e.names[i], e);
        LocalOkPrefix(d, e.names, e, i + 1);
        var done := UploadCached(e.names[i], e);
        if !done {
          return false;
        }
        Associate(before, LocalEntry(d, e.names[i], e), LocalActs(d, left[1..], e));
      }
      assert e.names[|e.names|..] == [] && e.names[..|e.names|] == e.names;
      return true;
    }

    // ---------- cleaning up ----------

    method DeleteListed(listing: seq<FileDesc>, del: string -> Outcome)
      requires Valid()
      modifies `files, `shadow, `pending, `local, `lru, `sums, `trace
      ensures Did(WipeDeletes(listing, del))
    {
      hide FdName, Apply, ApplyAll, Effect, OnlyAt;
      for i := 0 to |listing|
        invariant Valid() && trace + WipeDeletes(listing[i..], del) == old(trace) + WipeDeletes(listing, del)
      {
        ghost var before, left := trace, listing[i..];
        assert left[0] == listing[i] && left[1..] == listing[i + 1..];
        var name := FdName(listing[i]);
        var ok := RemoveObject(name, del(name));
        Associate(before, Effect(del(name), Do(Del(S3, name))), WipeDeletes(left[1..], del));
      }
      assert listing[|listing|..] == [];
    }

    method PurgeLocalFiles(rmOk: bool)
      requires Valid()
      modifies `files, `shadow, `pending, `local, `lru, `sums, `trace
      ensures Did(PurgeLocalActs(cfg, rmOk))
    {
      hide Apply, ApplyAll;
      if rmOk {
        Clear(Local);
        if cfg.nested {
          Clear(Pending);
          ClearSums();
        }
      }
    }

    /** removeAllOrphaned; lostMeanwhile: the lease monitor sets lockLost before the check. */
    method RemoveAllOrphaned(e: WipeEnv) returns (ok: bool)
      requires Valid()
      modifies this
      ensures Did(WipeActs(cfg, old(St()), e))
      ensures ok == WipeOk(old(St()), e)
    {
      hide Apply, ApplyAll, WipeActs, PurgeLocalActs, WipeDeletes;
      WipeShape(cfg, St(), e);
      if lost || e.lostMeanwhile {
        return false;
      }
      Note(DoomAll);
      Clear(Lru);
      PurgeLocalFiles(e.rmOk);
      if !e.listOk {
        return false;
      }
      DeleteListed(e.listing, e.del);
      if e.delCurrent.Done? || e.delCurrent.took {
        SetCurrent(None);
      }
      return true;
    }

    /** Uploads the manifest from the local cache, if that has a readable one with content. */
    method RestoreFromLocal(m: string, e: CleanEnv) returns (done: bool)
      requires Valid()
      modifies `files, `shadow, `pending, `local, `lru, `trace
      ensures Did(PutLocalActs(old(St()), m, e)) && OnlyAt(S3)
      ensures done == (FromLocal(old(St()), m, e) && e.putLocal.Done?)
    {
      hide Apply, ApplyAll;
      if m in local && e.readLocal(m) && local[m] != [] {
        done := PutBytes(S3, m, local[m], e.putLocal);
      } else {
        done := false;
      }
    }

    method RestoreFromPending(m: string, e: CleanEnv) returns (done: bool)
      requires Valid()
      modifies `files, `shadow, `pending, `local, `lru, `trace
      ensures Did(PutPendingActs(old(St()), m, e))
      ensures done == (FromPending(old(St()), m, e) && e.putPending.Done?)
    {
      hide Apply, ApplyAll;
      if m in pending && e.readPending(m) && pending[m] != [] {
        done := PutBytes(S3, m, pending[m], e.putPending);
      } else {
        done := false;
      }
    }

    /** verifyCurrentManifest, from the search for the manifest on. */
    method RestoreManifest(m: string, e: CleanEnv) returns (ok: bool)
      requires Valid() && m !in files
      modifies this
      ensures Did(RestoreActs(cfg, old(St()), m, e)) && ok == RestoreOk(old(St()), m, e)
    {
      hide FromLocal, FromPending, PutLocalActs, PutPendingActs, Apply, ApplyAll, WipeActs;
      ghost var s, before := St(), trace;
      var done := RestoreFromLocal(m, e);
      if done {
        return true;
      }
      SamePendingSource(s, St(), m, e);
      done := RestoreFromPending(m, e);
      ghost var puts := PutLocalActs(s, m, e) + PutPendingActs(s, m, e);
      assert trace == before + puts;
      if done {
        Delete(Pending, m);
        DeleteSum(m);
        return true;
      }
      WipeSame(cfg, s, St(), e.wipe);
      ok := RemoveAllOrphaned(e.wipe);
    }

    /** verifyCurrentManifest. */
    method VerifyCurrentManifest(e: CleanEnv) returns (ok: bool)
      requires Valid() && current.Some?
      modifies this
      ensures Did(VerifyActs(cfg, old(St()), e)) && ok == VerifyOk(old(St()), e)
    {
      hide FdName, DecodeCurrent, Apply, ApplyAll, RestoreActs, WipeActs, RestoreOk;
      if !e.getCurrentOk {
        return false;
      }
      var decoded := DecodeCurrent(current.value);
      if decoded.None? {
        ok := RemoveAllOrphaned(e.wipe);
        return;
      }
      var m := FdName(decoded.value);
      if !e.existsManifestOk {
        return false;
      }
      if m in files {
        return true;
      }
      ok := RestoreManifest(m, e);
    }

    /** Uploads a manifest and points CURRENT at it. */
    method Rebuild(fd: FileDesc, data: Bytes, put: Outcome, e: CleanEnv) returns (ok: bool)
      requires Valid()
      modifies this
      ensures Did(RebuildActs(cfg, old(St()), fd, data, put, e)) && ok == RebuildOk(old(St()), put, e)
    {
      hide FdName, Apply, ApplyAll, WipeActs;
      ghost var s := St();
      var done := PutBytes(S3, FdName(fd), data, put);
      if !done {
        WipeSame(cfg, s, St(), e.wipe);
        ok := RemoveAllOrphaned(e.wipe);
        return;
      }
      if e.putCurrent.Done? || e.putCurrent.took {
        SetCurrent(Some(CurrentContent(fd)));
      }
      if e.putCurrent.Failed? {
        WipeSame(cfg, s, St(), e.wipe);
        ok := RemoveAllOrphaned(e.wipe);
        return;
      }
      return true;
    }

    /** recoverFromLocalCache. */
    method RecoverFromLocalCache(e: CleanEnv) returns (ok: bool)
      requires Valid() && current.None?
      modifies this
      ensures Did(RecoverCurrentActs(cfg, old(St()), e)) && ok == RecoverCurrentOk(old(St()), e)
    {
      hide FdName, ParseFileDesc, NonSidecars, UsableManifest, Apply, ApplyAll, WipeActs, RebuildActs, RebuildOk;
      if !e.listOk {
        return false;
      }
      var usable := FindUsableManifest(e.localNames, local, e.readLocal);
      if usable.Some? {
        ok := Rebuild(usable.value.0, usable.value.1, e.putLocal, e);
        return;
      }
      usable := FindUsableManifest(NonSidecars(e.pendingNames), pending, e.readPending);
      if usable.Some? {
        ok := RebuildFromPending(usable.value.0, usable.value.1, e);
        return;
      }
      if (set n | n in files.Keys + shadow.Keys && ParseFileDesc(n).Some?) != {} {
        ok := RemoveAllOrphaned(e.wipe);
        return;
      }
      return true;
    }

    /** As Rebuild; the pending file goes once both writes were answered. */
    method RebuildFromPending(fd: FileDesc, data: Bytes, e: CleanEnv) returns (ok: bool)
      requires Valid()
      modifies this
      ensures Did(RebuildActs(cfg, old(St()), fd, data, e.putPending, e)
                  + if e.putPending.Done? && e.putCurrent.Done?
                    then [Do(Del(Pending, FdName(fd))), Do(DelSum(FdName(fd)))] else [])
      ensures ok == RebuildOk(old(St()), e.putPending, e)
    {
      hide FdName, Apply, ApplyAll, RebuildActs, RebuildOk;
      ok := Rebuild(fd, data, e.putPending, e);
      if e.putPending.Done? && e.putCurrent.Done? {
        Delete(Pending, FdName(fd));
        DeleteSum(FdName(fd));
      }
    }

    /** cleanupOrphaned: when it returns nil, and a delete of CURRENT it came to takes effect, CURRENT is consistent. */
    method CleanupOrphaned(e: CleanEnv) returns (ok: bool)
      requires Valid()
      modifies this
      ensures Did(CleanupActs(cfg, old(St()), e)) && ok == CleanupOk(old(St()), e)
      ensures ok && C.CurrentGoes(e) ==> C.CurrentConsistent(St())
    {
      hide Apply, ApplyAll, VerifyActs, RecoverCurrentActs, VerifyOk, RecoverCurrentOk, C.CurrentConsistent;
      ghost var s, before := St(), trace;
      if !e.existsCurrentOk {
        return false;
      }
      if current.Some? {
        ok := VerifyCurrentManifest(e);
      } else {
        ok := RecoverFromLocalCache(e);
      }
      Caught(s, before, CleanupActs(cfg, s, e));
      if ok && C.CurrentGoes(e) {
        C.CurrentConsistency(cfg, s, e);
      }
    }

    // ---------- Lock and Unlock ----------

    /** Lock. q and e relate as in SyncPendingToS3. If CURRENT names a manifest on S3 or readable in the local cache, no
        object of the database is lost and CURRENT stays, whichever calls fail. */
    method Lock(q: LockEnv, run: seq<Step>) returns (err: Option<Error>, ghost e: LockEnv)
      requires Valid() && PendingDir.NoDuplicates(q.pend.read.names)
      requires RecoveryRun(cfg, Apply(St(), PutLock(q.id)), q.pend, run)
      modifies this
      ensures e == q.(pend := q.pend.(up := e.pend.up, sched := e.pend.sched))
      ensures Did(LockActs(cfg, old(St()), e))
      ensures err.None? <==> !old(closed) && e.acquired == Done && E.CacheUploads(old(local), e.local)
      ensures err.None? ==> held && lock == Some(e.id)
      ensures err.Some? ==> held == old(held) && current == old(current)
      ensures old(Good(St())) ==> Good(St())
      ensures C.Recoverable(old(St()), q) ==> old(files.Keys) <= files.Keys && current == old(current)
    {
      hide Good, D.After, C.Recoverable, Apply, ApplyAll, AfterPending, LocalSyncOk, LockActs, RecoveryRun,
           E.CacheUploads;
      err, e := LockSteps(q, run);
      Kept(D.ELock(e));
      Caught(old(St()), old(trace), LockActs(cfg, old(St()), e));
      E.LockLeaves(cfg, old(St()), e);
      E.SyncKeeps(cfg, Apply(old(St()), PutLock(e.id)), e);
      LockTaken(old(St()), e.id);
      C.NothingLost(cfg, old(St()), q, e);
    }

    method LockSteps(q: LockEnv, run: seq<Step>) returns (err: Option<Error>, ghost e: LockEnv)
      requires Valid() && PendingDir.NoDuplicates(q.pend.read.names)
      requires RecoveryRun(cfg, Apply(St(), PutLock(q.id)), q.pend, run)
      modifies this
      ensures e == q.(pend := q.pend.(up := e.pend.up, sched := e.pend.sched))
      ensures Did(LockActs(cfg, old(St()), e))
      ensures
        var s0 := Apply(old(St()), PutLock(e.id));
        err.None? <==> !old(closed) && e.acquired.Done? && LocalSyncOk(AfterPending(cfg, s0, e), e.local)
    {
      hide Apply, ApplyAll, LockSyncActs, AfterPending, LocalSyncOk, CleanupActs, LockActs, SyncPendingActs,
           RecoveryRun;
      e := q;
      LockShape(cfg, St(), e);
      if closed {
        return Some(ErrClosed), e;
      }
      if q.acquired.Done? || q.acquired.took {
        SetLock(Some(q.id));
      }
      if q.acquired.Failed? {
        return Some(ErrLockNotAcquired), e;
      }
      ghost var s0, before := St(), trace;
      var ok;
      ok, e := SyncBoth(q, run);
      LockShape(cfg, old(St()), e);
      ghost var sync := LockSyncActs(cfg, s0, e);
      Caught(s0, before, sync);
      assert trace == old(trace) + ([PutLock(e.id)] + sync);
      FinishLock(ok, q);
      err := if ok then None else Some(ErrS3);
    }

    /** After the uploads: cleanup if they went through, else the lock is given back. */
    method FinishLock(synced: bool, e: LockEnv)
      requires Valid()
      modifies this
      ensures Did(if synced then CleanupActs(cfg, old(St()), e.clean) + [SetHeld(true)] else Effect(e.unlock, DelLock))
    {
      hide Apply, ApplyAll, CleanupActs;
      if !synced {
        if e.unlock.Done? || e.unlock.took {
          SetLock(None);
        }
        return;
      }
      var cleaned := CleanupOrphaned(e.clean);
      StoreHeld(true);
    }

    /** The two uploads of Lock; errors of the first are only logged. */
    method SyncBoth(q: LockEnv, run: seq<Step>) returns (ok: bool, ghost e: LockEnv)
      requires Valid() && PendingDir.NoDuplicates(q.pend.read.names) && RecoveryRun(cfg, St(), q.pend, run)
      modifies `files, `shadow, `pending, `local, `lru, `sums, `trace
      ensures e == q.(pend := q.pend.(up := e.pend.up, sched := e.pend.sched))
      ensures Did(LockSyncActs(cfg, old(St()), e)) && ok == LocalSyncOk(AfterPending(cfg, old(St()), e), e.local)
    {
      hide Apply, ApplyAll, SyncPendingActs, LocalSyncActs, LocalSyncOk, PullAllActs, RecoveryRun;
      ghost var s, before := St(), trace;
      var recovered;
      ghost var pend;
      recovered, pend := SyncPendingToS3(q.pend, run);
      e := q.(pend := pend);
      Caught(s, before, SyncPendingActs(cfg, s, e.pend));
      ok := SyncLocalToS3(q.local);
    }

    /** Two attempts to delete the LOCK object. */
    method ReleaseLock(first: Outcome, second: Outcome)
      requires Valid() && !lost
      modifies `lock, `trace
      ensures Did(ReleaseActs(old(St()), first, second))
      ensures lock == if TakesEffect(first) || (first.Failed? && TakesEffect(second)) then None else old(lock)
    {
      hide Apply, ApplyAll;
      if first.Done? || first.took {
        SetLock(None);
      }
      if first.Failed? && (second.Done? || second.took) {
        SetLock(None);
      }
    }

    method Unlock(first: Outcome, second: Outcome)
      requires Valid()
      modifies this
      ensures Did(UnlockActs(old(St()), first, second))
      ensures !held && lost == old(lost)
      ensures !lost && (TakesEffect(first) || (first.Failed? && TakesEffect(second))) ==> lock == None
      ensures lost || !(TakesEffect(first) || (first.Failed? && TakesEffect(second))) ==> lock == old(lock)
      ensures old(Good(St())) ==> Good(St())
    {
      hide Apply, ApplyAll, Good, D.After;
      StoreHeld(false);
      if !lost {
        ReleaseLock(first, second);
      }
      Kept(D.EUnlock(first, second));
    }

    /** storageLocker.Unlock: the same without clearing lockHeld. */
    method LockerUnlock(first: Outcome, second: Outcome)
      requires Valid()
      modifies this
      ensures Did(ReleaseActs(old(St()), first, second))
      ensures held == old(held) && lost == old(lost)
      ensures !lost && (TakesEffect(first) || (first.Failed? && TakesEffect(second))) ==> lock == None
      ensures lost || !(TakesEffect(first) || (first.Failed? && TakesEffect(second))) ==> lock == old(lock)
      ensures old(Good(St())) ==> Good(St())
    {
      hide ApplyAll, Good, D.After;
      if !lost {
        ReleaseLock(first, second);
      }
      Kept(D.ELockerUnlock(first, second));
    }

    /** The lease monitor. */
    method LeaseLost()
      requires Valid()
      modifies `lost, `trace
      ensures Did([SetLost]) && lost && (old(Good(St())) ==> Good(St()))
    {
      hide Good, Apply, ApplyAll, D.After;
      StoreLost();
      Kept(D.ELeaseLost);
    }

    method Close()
      requires Valid()
      modifies `closed, `files, `shadow, `pending, `local, `lru, `trace
      ensures Did(ShutdownActs(old(St()))) && closed && (old(Good(St())) ==> Good(St()))
      ensures OnlyAt(Lru) && lru == if old(closed) then old(lru) else map[]
    {
      hide Apply, ApplyAll, Good, D.After;
      if closed {
        return;
      }
      StoreClosed();
      Clear(Lru);
      Kept(D.EShutdown);
    }

    // ---------- CURRENT and List ----------

    method SetMeta(fd: FileDesc, put: Outcome) returns (err: Option<Error>)
      requires Valid()
      modifies `current, `trace
      ensures Did(SetMetaActs(old(St()), fd, put))
      ensures err.None? <==> !closed && !lost && put.Done?
      ensures err.None? && IsInt64(fd.num) ==> current.Some? && DecodeCurrent(current.value) == Some(fd)
      ensures closed || lost || !TakesEffect(put) ==> current == old(current)
      ensures old(Good(St())) ==> Good(St())
    {
      hide CurrentContent, DecodeCurrent, Apply, ApplyAll, Good, D.After;
      if closed {
        return Some(ErrClosed);
      }
      if lost {
        return Some(ErrLockLost);
      }
      if put.Done? || put.took {
        SetCurrent(Some(CurrentContent(fd)));
      }
      if IsInt64(fd.num) {
        C.CurrentRoundTrip(fd);
      }
      Kept(D.ESetMeta(fd, put));
      err := if put.Done? then None else Some(ErrS3);
    }

    /** GetMeta: a descriptor it returns is what CURRENT decodes to, and its object exists; when it finds none,
        CURRENT is absent or names an object that does not exist; when S3 answers it fails only on a CURRENT that does
        not decode. */
    method GetMeta(existsOk: bool, getOk: bool, existsManifestOk: bool) returns (r: MetaResult)
      ensures r == GetMetaOutcome(St(), existsOk, getOk, existsManifestOk)
      ensures r.Meta? ==> current.Some? && DecodeCurrent(current.value) == Some(r.fd) && FdName(r.fd) in files
      ensures r.NoMeta? ==>
                current.None?
                || (DecodeCurrent(current.value).Some? && FdName(DecodeCurrent(current.value).value) !in files)
      ensures existsOk && getOk && existsManifestOk && !closed ==>
                (r.MetaFailed? <==> current.Some? && DecodeCurrent(current.value).None?)
    {
      hide FdName, DecodeCurrent;
      if closed || !existsOk {
        return MetaFailed;
      }
      if current.None? {
        return NoMeta;
      }
      if !getOk {
        return MetaFailed;
      }
      var decoded := DecodeCurrent(current.value);
      if decoded.None? || !existsManifestOk {
        return MetaFailed;
      }
      return if FdName(decoded.value) in files then Meta(decoded.value) else NoMeta;
    }

    /** List; a pending directory that cannot be read counts as empty. */
    method List(types: set<FileType>, listOk: bool, listing: seq<FileDesc>, dirOk: bool, names: seq<string>)
      returns (r: Result<seq<FileDesc>>)
      ensures r == if closed then Err(ErrClosed) else if !listOk then Err(ErrS3)
                   else Ok(PendingDir.ListView(PendingDir.PendingFds(if dirOk then names else []), listing, types))
    {
      if closed {
        return Err(ErrClosed);
      }
      if !listOk {
        return Err(ErrS3);
      }
      var filtered := PendingDir.MergeListings(if dirOk then names else [], listing, types);
      return Ok(filtered);
    }
  }

  /** findLatestLocalManifest and findLatestPendingManifest: numbers start at zero and only a higher one replaces
      the best. */
  method FindLatestManifest(names: seq<string>) returns (best: Option<(int, string)>)
    ensures best == LatestManifest(names)
  {
    hide ManifestNum;
    var bestNum := 0;
    best := None;
    for i := 0 to |names|
      invariant best == LatestManifest(names[..i]) && bestNum == (if best.Some? then best.value.0 else 0)
    {
      assert names[..i + 1][..i] == names[..i];
      var num := ManifestNum(names[i]);
      if num.Some? && num.value > bestNum {
        bestNum := num.value;
        best := Some((num.value, names[i]));
      }
    }
    assert names[..|names|] == names;
  }

  lemma Associate(a: seq<Action>, b: seq<Action>, c: seq<Action>)
    ensures (a + b) + c == a + (b + c)
  {
  }

  /** The search and the reading of what it found; an unreadable or empty file does not count. */
  method FindUsableManifest(names: seq<string>, m: map<string, Bytes>, readOk: string -> bool)
      returns (r: Option<(FileDesc, Bytes)>)
    ensures r == UsableManifest(names, m, readOk)
  {
    var best := FindLatestManifest(names);
    if best.Some? && best.value.1 in m && readOk(best.value.1) && m[best.value.1] != [] {
      return Some((FileDesc(Manifest, best.value.0), m[best.value.1]));
    }
    return None;
  }

  function PurgeLocalActs(cfg: Config, rmOk: bool): seq<Action> {
    if rmOk then [Do(Purge(Local))] + (if cfg.nested then [Do(Purge(Pending)), Do(PurgeSums)] else []) else []
  }

  lemma WipeShape(cfg: Config, s: State, e: WipeEnv)
    ensures WipeActs(cfg, s, e) ==
      if s.c.lost || e.lostMeanwhile then []
      else [Record(DoomAll), Do(Purge(Lru))] + PurgeLocalActs(cfg, e.rmOk)
           + (if e.listOk then WipeDeletes(e.listing, e.del) + Effect(e.delCurrent, DelCurrent) else [])
  {
  }

  lemma SamePendingSource(s: State, t: State, m: string, e: CleanEnv)
    requires s.d.pending == t.d.pending
    ensures FromPending(s, m, e) == FromPending(t, m, e) && PutPendingActs(s, m, e) == PutPendingActs(t, m, e)
  {
  }

  /** Lock past the acquisition: the two uploads, then cleanup or the lock's release. */
  lemma LockShape(cfg: Config, s: State, e: LockEnv)
    ensures LockActs(cfg, s, e) ==
      if s.c.closed then []
      else if e.acquired.Failed? then Effect(e.acquired, PutLock(e.id))
      else
        var s0 := Apply(s, PutLock(e.id));
        var sync := LockSyncActs(cfg, s0, e);
        [PutLock(e.id)] + sync +
        (if LocalSyncOk(AfterPending(cfg, s0, e), e.local)
         then CleanupActs(cfg, ApplyAll(s0, sync), e.clean) + [SetHeld(true)] else Effect(e.unlock, DelLock))
  {
  }

  function LocalEntry(d: Disk, n: string, e: LocalEnv): seq<Action> {
    if Uploads(d, n, e) then Effect(e.put(n), Do(Io.Put(S3, n, d.local[n]))) else []
  }

  lemma UploadsSame(d: Disk, e: Disk, n: string, env: LocalEnv)
    requires d.local == e.local
    ensures Uploads(d, n, env) == Uploads(e, n, env) && LocalEntry(d, n, env) == LocalEntry(e, n, env)
  {
  }

  lemma LocalNone(d: Disk, e: LocalEnv)
    ensures LocalActs(d, [], e) == [] && LocalOk(d, [], e)
  {
  }

  lemma LocalStep(d: Disk, left: seq<string>, e: LocalEnv)
    requires left != []
    ensures LocalActs(d, left, e) ==
            LocalEntry(d, left[0], e)
            + if Uploads(d, left[0], e) ==> e.put(left[0]).Done? then LocalActs(d, left[1..], e) else []
  {
  }

  lemma LocalOkStep(d: Disk, front: seq<string>, n: string, e: LocalEnv)
    ensures LocalOk(d, front + [n], e) <==> LocalOk(d, front, e) && (Uploads(d, n, e) ==> e.put(n).Done?)
  {
    hide Uploads;
    if LocalOk(d, front + [n], e) {
      assert (front + [n])[|front|] == n;
      forall i | 0 <= i < |front| && Uploads(d, front[i], e)
        ensures e.put(front[i]).Done?
      {
        assert (front + [n])[i] == front[i];
      }
    }
  }

  lemma LocalOkPrefix(d: Disk, names: seq<string>, e: LocalEnv, i: nat)
    requires i <= |names|
    ensures LocalOk(d, names, e) ==> LocalOk(d, names[..i], e)
  {
  }

  lemma WipeSame(cfg: Config, s: State, t: State, e: WipeEnv)
    requires s.c.lost == t.c.lost
    ensures WipeActs(cfg, s, e) == WipeActs(cfg, t, e)
  {
  }

  /** The pending file n and its checksum are the same in both. */
  ghost predicate SameEntry(d: Disk, e: Disk, n: string) {
    && (n in d.pending <==> n in e.pending) && (n in d.pending ==> d.pending[n] == e.pending[n])
    && (n in d.sums <==> n in e.sums) && (n in d.sums ==> d.sums[n] == e.sums[n])
  }

  lemma SameEntries(d: Disk)
    ensures forall n :: SameEntry(d, d, n)
  {
  }

  lemma SameTwice(a: Disk, b: Disk, c: Disk, n: string)
    requires SameEntry(a, b, n) && SameEntry(b, c, n)
    ensures SameEntry(a, c, n)
  {
  }

  /** What reading one entry of the directory deletes. */
  function DropEntry(cfg: Config, d: Disk, n: string, r: ReadEnv): seq<Action> {
    if Readable(d, n, r) && Corrupt(cfg, d, n, r) then [Do(Del(Pending, n)), Do(DelSum(n))] else []
  }

  /** What reading one entry of the directory finds. */
  function FoundEntry(cfg: Config, d: Disk, n: string, r: ReadEnv): seq<PendingFile> {
    if Readable(d, n, r) && !Corrupt(cfg, d, n, r) then [PendingFile(n, d.pending[n], ParseFileDesc(n).value)] else []
  }

  lemma NoEntries(cfg: Config, d: Disk, r: ReadEnv)
    ensures DropActs(cfg, d, [], r) == [] && PendingFiles(cfg, d, [], r) == []
  {
  }

  lemma EntryStep(cfg: Config, d: Disk, front: seq<string>, n: string, r: ReadEnv)
    ensures DropActs(cfg, d, front + [n], r) == DropActs(cfg, d, front, r) + DropEntry(cfg, d, n, r)
    ensures PendingFiles(cfg, d, front + [n], r) == PendingFiles(cfg, d, front, r) + FoundEntry(cfg, d, n, r)
  {
    hide ParseFileDesc, IsSidecar, TrimSpace, SumText;
    var names := front + [n];
    assert names[..|names| - 1] == front && names[|names| - 1] == n;
  }

  lemma EntrySame(cfg: Config, d: Disk, e: Disk, n: string, r: ReadEnv)
    requires SameEntry(d, e, n)
    ensures DropEntry(cfg, d, n, r) == DropEntry(cfg, e, n, r) && FoundEntry(cfg, d, n, r) == FoundEntry(cfg, e, n, r)
  {
    hide ParseFileDesc, IsSidecar, TrimSpace, SumText;
  }

  /** A pass keeps the invariant, and so does the flag. */
  lemma PassKeepsGood(cfg: Config, s: State, e: PassEnv)
    ensures
      var t := ApplyAll(s, PassActs(cfg, s, e));
      Good(s) ==> Good(t) && Good(Apply(t, SetLost))
  {
    hide Apply, ApplyAll, PassActs, Good, D.EventActs, D.CallActs;
    if Good(s) {
      D.CallSafe(cfg, s, D.Call(D.ERetryPass(e), None));
      PassIsEvent(cfg, s, e);
      D.LostKeepsGood(ApplyAll(s, PassActs(cfg, s, e)));
    }
  }

  lemma PassIsEvent(cfg: Config, s: State, e: PassEnv)
    ensures D.CallActs(cfg, s, D.Call(D.ERetryPass(e), None)) == PassActs(cfg, s, e)
  {
  }

  lemma NoPass(cfg: Config, s: State)
    ensures s.c.lost || !s.c.held ==> forall e :: PassActs(cfg, s, e) == []
  {
  }

  /** The run is a complete one of the pool that uploads what is pending once the shadow copies are pulled. */
  ghost predicate RecoveryRun(cfg: Config, s: State, q: PendEnv, run: seq<Step>) {
    q.dirOk ==> Complete(RecoverPool(cfg, UploadList(cfg, ApplyAll(s, PullAllActs(cfg, s, q)).d, q.read)), run)
  }

  /** The results are all good exactly when every upload succeeded. */
  lemma AllGood(cfg: Config, fs: seq<PendingFile>, run: seq<Step>, up: string -> Outcome)
    requires Complete(RecoverPool(cfg, fs), run)
    requires forall i :: 0 <= i < |fs| ==> up(fs[i].name).Done? == RunPool(RecoverPool(cfg, fs), run).jobs[i].ok
    ensures (forall r :: r in RunPool(RecoverPool(cfg, fs), run).results ==> r.1) <==>
            (forall f :: f in fs ==> up(f.name).Done?)
  {
    hide Possible, RunPool;
    var p := RecoverPool(cfg, fs);
    NilIffAllUploaded(false, cfg.concurrency, p.work, run);
    if forall r :: r in RunPool(p, run).results ==> r.1 {
      forall f | f in fs
        ensures up(f.name).Done?
      {
        var i :| 0 <= i < |fs| && fs[i] == f;
        assert RunPool(p, run).jobs[i] == Finished(true);
      }
    }
  }

  lemma SameSources(cfg: Config, s: State, t: State, o: string, n: string, e: RenameEnv)
    requires s.d.pending == t.d.pending
    ensures RenamePendingActs(cfg, t, o, n, e) == RenamePendingActs(cfg, s, o, n, e)
  {
  }

  lemma SameLocal(s: State, t: State, o: string, n: string, e: RenameEnv)
    requires s.d.local == t.d.local
    ensures RenameLocalActs(t, o, n, e) == RenameLocalActs(s, o, n, e)
  {
  }

  lemma SameTail(cfg: Config, s: State, t: State, o: string, n: string, e: RenameEnv)
    requires o in s.d.files && o in s.l.written && t == Apply(s, CopyFile(o, n))
    ensures o in t.d.files && RenameTail(cfg, t, o, n, e) == RenameTail(cfg, s, o, n, e)
  {
    hide SumText, CachedName;
  }

  lemma LockTaken(s: State, id: string)
    ensures Apply(s, PutLock(id)).d.local == s.d.local
  {
  }

  lemma NoRemove(s: State, n: string, e: Outcome)
    ensures s.c.closed || s.c.lost ==> RemoveActs(s, n, e) == []
  {
  }

  datatype Result<T> = Ok(value: T) | Err(error: Error)

  lemma SameFlush(cfg: Config, s: State, n: string, e: SyncEnv)
    requires n in s.l.written
    ensures
      var t := Apply(s, Record(CloseWriter(n)));
      && n in t.l.written && SyncActs(cfg, t, n, e) == SyncActs(cfg, s, n, e)
         && SyncOk(cfg, t, n, e) == SyncOk(cfg, s, n, e)
  {
    hide ParseFileDesc, UploadActs;
  }

  lemma IsClose(cfg: Config, s: State, n: string, e: SyncEnv)
    requires n in s.l.written
    ensures CloseActs(cfg, s, n, e) == [Record(CloseWriter(n))] + SyncActs(cfg, s, n, e)
  {
  }

  class MemWriter {
    const storage: S3Storage
    const fd: FileDesc
    var buf: Bytes
    var closed: bool

    /** The buffer holds everything written to the file. */
    ghost predicate Valid()
      reads this, storage
    {
      && storage.Valid() && IsInt64(fd.num)
      && (!closed ==>
            && FdName(fd) in storage.ledger.written && storage.ledger.written[FdName(fd)] == buf
            && FdName(fd) in storage.ledger.open)
    }

    /** Everything in the buffer is acknowledged, S3 has it, and so has every other copy that exists. */
    ghost predicate Acknowledged()
      reads this, storage
    {
      var n := FdName(fd);
      Live(storage.ledger, n) && storage.ledger.acked[n] == buf && Settled(storage.St(), n)
    }

    constructor (storage: S3Storage, fd: FileDesc)
      requires storage.Valid() && IsInt64(fd.num)
      requires FdName(fd) in storage.ledger.written && storage.ledger.written[FdName(fd)] == []
               && FdName(fd) in storage.ledger.open
      ensures this.storage == storage && this.fd == fd && buf == [] && !closed && Valid()
    {
      this.storage, this.fd := storage, fd;
      buf, closed := [], false;
    }

    method Write(p: Bytes, localOk: bool) returns (err: Option<Error>)
      requires Valid()
      modifies this, storage
      ensures Valid() && closed == old(closed) && (err.None? <==> !closed)
      ensures closed ==> buf == old(buf) && storage.trace == old(storage.trace)
      ensures !closed ==> buf == old(buf) + p && storage.Did(WriteActs(old(storage.St()), FdName(fd), p, localOk))
      ensures !closed && localOk && (fd.ftype == Journal || fd.ftype == Manifest) ==>
                storage.local == old(storage.local)[FdName(fd) := buf]
      ensures !localOk || fd.ftype == Table || fd.ftype == Temp ==> storage.local == old(storage.local)
      ensures storage.closed == old(storage.closed)
      ensures old(Good(storage.St())) ==> Good(storage.St())
    {
      hide FdName, ParseFileDesc, ApplyAll, Good, D.After;
      if closed {
        return Some(ErrClosed);
      }
      ParsePrinted(fd);
      storage.Note(Append(FdName(fd), p));
      buf := buf + p;
      if CachedLocally(fd) && localOk {
        storage.Put(Local, FdName(fd), buf);
      }
      storage.Kept(D.EWrite(FdName(fd), p, localOk));
      return None;
    }

    /** syncFn: for journals and manifests the local cache first, then the upload. */
    method Flush(e: SyncEnv) returns (err: Option<Error>)
      requires Valid() && FdName(fd) in storage.ledger.written && storage.ledger.written[FdName(fd)] == buf
      modifies storage
      ensures storage.Did(SyncActs(storage.cfg, old(storage.St()), FdName(fd), e))
      ensures err.None? <==> SyncOk(storage.cfg, old(storage.St()), FdName(fd), e)
      ensures storage.ledger.written == old(storage.ledger.written) && storage.ledger.open == old(storage.ledger.open)
    {
      hide FdName, ParseFileDesc, TooLarge, UploadActs, ApplyAll;
      ParsePrinted(fd);
      if CachedLocally(fd) {
        if !e.localOk {
          return Some(ErrDisk);
        }
        storage.Put(Local, FdName(fd), buf);
      }
      err := storage.UploadFile(FdName(fd), buf, e.up);
      if err.None? {
        storage.Note(Ack(FdName(fd)));
      }
    }

    method Sync(e: SyncEnv) returns (err: Option<Error>)
      requires Valid()
      modifies storage
      ensures Valid()
      ensures closed ==> err == Some(ErrClosed) && storage.trace == old(storage.trace)
      ensures !closed ==>
        && storage.Did(SyncActs(storage.cfg, old(storage.St()), FdName(fd), e))
        && (err.None? <==> E.Uploading(storage.cfg, fd, buf, storage.lost, e.localOk) && e.up.put == Done)
        && storage.St().d == E.Synced(storage.cfg, old(storage.St()).d, fd, buf, storage.lost, e)
      ensures storage.lost == old(storage.lost) && storage.closed == old(storage.closed)
      ensures old(Good(storage.St())) ==> Good(storage.St()) && (err.None? ==> Acknowledged())
    {
      hide FdName, SyncActs, SyncOk, Good, Live, Settled, ApplyAll, D.After, E.Uploading, E.Synced;
      if closed {
        return Some(ErrClosed);
      }
      E.SyncLeaves(storage.cfg, storage.St(), fd, e);
      err := Flush(e);
      storage.Caught(old(storage.St()), old(storage.trace),
                     SyncActs(storage.cfg, old(storage.St()), FdName(fd), e));
      storage.Kept(D.ESync(FdName(fd), e));
      if old(Good(storage.St())) {
        D.SyncAcknowledges(storage.cfg, old(storage.St()), FdName(fd), e);
      }
    }

    method Close(e: SyncEnv) returns (err: Option<Error>)
      requires Valid()
      modifies this, storage
      ensures Valid() && closed
      ensures old(closed) ==> err == Some(ErrClosed) && storage.trace == old(storage.trace)
      ensures !old(closed) ==>
        && storage.Did(CloseActs(storage.cfg, old(storage.St()), FdName(fd), e))
        && (err.None? <==> E.Uploading(storage.cfg, fd, buf, storage.lost, e.localOk) && e.up.put == Done)
        && storage.St().d == E.Synced(storage.cfg, old(storage.St()).d, fd, buf, storage.lost, e)
      ensures buf == old(buf) && storage.lost == old(storage.lost)
      ensures old(Good(storage.St())) ==> Good(storage.St()) && (err.None? ==> Acknowledged())
    {
      hide FdName, SyncActs, SyncOk, ApplyAll, Good, Live, Settled, D.After, E.Uploading, E.Synced, CloseActs;
      if closed {
        return Some(ErrClosed);
      }
      closed := true;
      ghost var s := storage.St();
      SameFlush(storage.cfg, s, FdName(fd), e);
      E.SyncLeaves(storage.cfg, s, fd, e);
      E.CloseLeaves(storage.cfg, s, fd, e);
      storage.Note(CloseWriter(FdName(fd)));
      err := Flush(e);
      assert storage.Did(CloseActs(storage.cfg, s, FdName(fd), e)) by { IsClose(storage.cfg, s, FdName(fd), e); }
      storage.Caught(s, old(storage.trace), CloseActs(storage.cfg, s, FdName(fd), e));
      storage.Kept(D.EClose(FdName(fd), e));
      if old(Good(storage.St())) {
        D.SyncAcknowledges(storage.cfg, s, FdName(fd), e);
      }
    }
  }

  /** What a client gets from the contracts: it reads back exactly what it wrote and synced, from the LRU, or from S3
      once the LRU has dropped the entry, whatever copies of an earlier file of that name were left. */
  method ReadYourWrites(storage: S3Storage, fd: FileDesc, x: Bytes, localOk: bool, e: SyncEnv, evicted: bool,
      getOk: bool,
                        readOk: bool)
    returns (synced: bool, r: OpenResult)
    requires storage.Valid() && Good(storage.St()) && IsInt64(fd.num) && Free(storage.ledger, FdName(fd))
    modifies storage
    ensures storage.Valid() && Good(storage.St())
    ensures synced ==> r == if evicted && !getOk then NotOpened(Unreachable) else Opened(x)
  {
    hide FdName, Good, CreateActs, WriteActs, SyncActs, OpenActs, SyncOk, OpenOutcome, Settled, ApplyAll, E.Synced,
         E.Uploading, Live, D.After;
    synced, r := false, NotOpened(NotExist);
    var created := storage.Create(fd, true);
    assert Good(storage.St());
    if created.Ok? {
      var w := created.value;
      var failed := w.Write(x, localOk);
      assert [] + x == x;
      ghost var before := storage.St();
      failed := w.Sync(e);
      assert Good(storage.St());
      synced := failed.None?;
      if synced {
        E.SyncedIsCached(storage.cfg, before.d, fd, x, storage.lost, e);
      }
      r := ReadBack(storage, fd, evicted, getOk, readOk);
    }
  }

  method ReadBack(storage: S3Storage, fd: FileDesc, evicted: bool, getOk: bool, readOk: bool) returns (r: OpenResult)
    requires storage.Valid() && Good(storage.St()) && !storage.closed
    modifies storage
    ensures storage.Valid() && Good(storage.St())
    ensures
      var n := FdName(fd);
      old(n in storage.lru && n in storage.files && storage.lru[n] == storage.files[n] && n !in storage.pending) ==>
        r == if evicted && !getOk then NotOpened(Unreachable) else Opened(old(storage.files)[n])
  {
    hide FdName, Good, OpenActs, OpenOutcome, ApplyAll, D.After;
    if evicted {
      storage.Evict(FdName(fd));
    }
    r := storage.Open(fd, getOk, readOk);
  }
}
