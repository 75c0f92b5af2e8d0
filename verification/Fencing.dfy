/** What losing the lock stops. */
module Fencing {
  import opened Scan
  import opened Names
  import opened Store
  import opened Programs
  import opened Guards
  import opened Durability
  import opened Recovery
  import opened Cleanup

  /** Every object of the bucket: database files, shadow copies, CURRENT and LOCK. */
  predicate SameBucket(s: State, t: State) {
    s.d.files == t.d.files && s.d.shadow == t.d.shadow && s.c.current == t.c.current && s.c.lock == t.c.lock
  }

  /** The calls a client may go on making: everything but taking the lock anew. */
  predicate Fenced(c: Call) {
    !c.ev.ELock? && !c.ev.EMachineLost? && c.cut.None?
  }

  /** The step leaves the bucket and lockLost alone. */
  predicate OffBucket(a: Action) {
    match a
    case Do(Put(p, _, _)) => p != S3 && p != Shadow
    case Do(Del(p, _)) => p != S3 && p != Shadow
    case Do(Purge(p)) => p != S3 && p != Shadow
    case Do(_) => true
    case Record(_) => true
    case SetHeld(_) => true
    case SetLost => true
    case SetClosed => true
    case _ => false
  }

  lemma OffBucketStep(s: State, a: Action)
    requires OffBucket(a)
    ensures SameBucket(s, Apply(s, a)) && (s.c.lost ==> Apply(s, a).c.lost)
  {
    if a.Do? {
      hide ApplyIo;
      IoElsewhere(s.d, a.io, S3);
      IoElsewhere(s.d, a.io, Shadow);
      assert s.d.At(S3) == s.d.files && s.d.At(Shadow) == s.d.shadow;
    }
  }

  lemma {:induction false} OffBucketSteps(s: State, acts: seq<Action>)
    requires forall a :: a in acts ==> OffBucket(a)
    ensures SameBucket(s, ApplyAll(s, acts)) && (s.c.lost ==> ApplyAll(s, acts).c.lost)
  {
    if acts != [] {
      var front := acts[..|acts| - 1];
      assert forall a :: a in front ==> a in acts;
      OffBucketSteps(s, front);
      assert acts[|acts| - 1] in acts;
      OffBucketStep(ApplyAll(s, front), acts[|acts| - 1]);
    }
  }

  lemma LostEventSteps(cfg: Config, s: State, ev: Event)
    requires s.c.lost && !ev.ELock? && !ev.EMachineLost?
    ensures forall a :: a in EventActs(cfg, s, ev) ==> OffBucket(a)
  {
    hide FdName, CachedName, TooLarge;
  }

  /** removeAllOrphaned deletes nothing once the lock is lost. */
  lemma LostStopsWipe(cfg: Config, s: State, e: WipeEnv)
    ensures (s.c.lost || e.lostMeanwhile) ==> ApplyAll(s, WipeActs(cfg, s, e)) == s
  {
  }

  /** What a process without the lock may still attempt: a call, or the wipe at the end of a recovery under way. */
  datatype Deed = Calls(call: Call) | Wipes(env: WipeEnv)

  function Attempt(cfg: Config, s: State, x: Deed): State {
    match x
    case Calls(c) => After(cfg, s, c)
    case Wipes(e) => ApplyAll(s, WipeActs(cfg, s, e))
  }

  function AttemptAll(cfg: Config, s: State, h: seq<Deed>): State
    decreases |h|
  {
    if h == [] then s else AttemptAll(cfg, Attempt(cfg, s, h[0]), h[1..])
  }

  /** Once lockLost is set it stays set, and no sequence of calls and wipes - SetMeta, Create, Write, Sync, Close,
      Open, Remove, Rename, retry passes, both Unlocks, shutdown, evictions, removeAllOrphaned - changes any object of
      the bucket. */
  lemma {:induction false} FencedRun(cfg: Config, s: State, h: seq<Deed>)
    requires s.c.lost && forall i :: 0 <= i < |h| && h[i].Calls? ==> Fenced(h[i].call)
    ensures AttemptAll(cfg, s, h).c.lost && SameBucket(s, AttemptAll(cfg, s, h))
    decreases |h|
  {
    if h != [] {
      match h[0] {
        case Calls(c) =>
          LostEventSteps(cfg, s, c.ev);
          OffBucketSteps(s, CallActs(cfg, s, c));
        case Wipes(e) => LostStopsWipe(cfg, s, e);
      }
      FencedRun(cfg, Attempt(cfg, s, h[0]), h[1..]);
    }
  }

  // ---------- Lock is not fenced ----------

  /** Every S3 call of the cleanup is answered. */
  predicate CleanupAnswers(e: CleanEnv) {
    && e.existsCurrentOk && e.getCurrentOk && e.existsManifestOk && e.listOk
    && e.putLocal == Done && e.putPending == Done && e.putCurrent == Done
  }

  /** The local cache has a usable manifest above number zero, so that a missing CURRENT would be rebuilt. */
  predicate WouldRebuild(s: State, e: CleanEnv) {
    s.c.current.None? && UsableManifest(e.localNames, s.d.local, e.readLocal).Some?
  }

  /** Cleanup after both uploads went through, in a process that lost the lock: it wipes nothing, and the manifest a
      rebuild writes is on S3 already; only CURRENT can change. */
  lemma LostCleanup(cfg: Config, u: State, e: CleanEnv)
    requires Good(u) && u.c.lost && CleanupAnswers(e) && u.d.pending == map[]
    requires forall n :: n in u.d.local && n != "LOCK" && n != "CURRENT" ==>
             n in u.d.files && u.d.files[n] == u.d.local[n]
    ensures
      var t := ApplyAll(u, CleanupActs(cfg, u, e));
      && t.d.files == u.d.files && t.d.shadow == u.d.shadow && t.c.lock == u.c.lock && t.c.lost
      && (t.c.current == u.c.current <==> !WouldRebuild(u, e))
  {
    hide FdName, ParseFileDesc, DecodeCurrent, CurrentContent, UsableManifest, NonSidecars, ApplyAll, Good;
    NoSteps(u);
    if u.c.current.Some? {
      LostVerify(cfg, u, e);
    } else if UsableManifest(e.localNames, u.d.local, e.readLocal).Some? {
      var (fd, data) := UsableManifest(e.localNames, u.d.local, e.readLocal).value;
      assert u.d.local == u.d.At(Local);
      UsableManifestNamed(u, Local, e.localNames, e.readLocal);
      PrintedIsPlain(fd);
      RebuildEffect(cfg, u, fd, data, e);
      var x, y := Do(Put(S3, FdName(fd), data)), PutCurrent(CurrentContent(fd));
      ApplyTwo(u, x, y);
      assert u.d.files[FdName(fd) := data] == u.d.files;
    } else {
      NoUsable(NonSidecars(e.pendingNames), e.readPending);
    }
  }

  lemma NoUsable(names: seq<string>, readOk: string -> bool)
    ensures UsableManifest(names, map[], readOk) == None
  {
  }

  lemma LostVerify(cfg: Config, u: State, e: CleanEnv)
    requires u.c.lost && u.c.current.Some? && u.d.pending == map[]
    requires forall n :: n in u.d.local && n != "LOCK" && n != "CURRENT" ==> n in u.d.files
    ensures VerifyActs(cfg, u, e) == []
  {
    hide FdName, ParseFileDesc, DecodeCurrent;
    if DecodeCurrent(u.c.current.value).Some? {
      DecodedIsPlain(u.c.current.value);
    }
  }

  lemma LockParts(cfg: Config, s: State, e: LockEnv)
    requires !s.c.closed && e.acquired == Done
    requires LocalSyncOk(AfterPending(cfg, Apply(s, PutLock(e.id)), e), e.local)
    ensures
      var s0 := Apply(s, PutLock(e.id));
      var u := ApplyAll(s0, LockSyncActs(cfg, s0, e));
      After(cfg, s, Call(ELock(e), None)) == Apply(ApplyAll(u, CleanupActs(cfg, u, e.clean)), SetHeld(true))
  {
    hide LockSyncActs, CleanupActs, ApplyAll, Apply, AfterPending, LocalSyncOk;
    var s0 := Apply(s, PutLock(e.id));
    var sync := LockSyncActs(cfg, s0, e);
    var u := ApplyAll(s0, sync);
    var clean := CleanupActs(cfg, u, e.clean);
    GuardedOne(s, PutLock(e.id));
    ApplyAllConcat(s, [PutLock(e.id)], sync);
    ApplyAllConcat(s, [PutLock(e.id)] + sync, clean + [SetHeld(true)]);
    ApplyAllSnoc(u, clean, SetHeld(true));
  }

  /** Taking the lock again is not fenced. With S3 and the disk answering, Lock on a storage that has lost its lock
      always rewrites LOCK; it leaves the database objects and the shadows alone if and only if there is no shadow and
      S3 already holds what is pending and what is cached locally; and it leaves CURRENT alone if and only if there is
      one or no local manifest to rebuild it from. */
  lemma LockFencedExactly(cfg: Config, s: State, e: LockEnv)
    requires Good(s) && s.c.lost && !s.c.closed && e.acquired == Done && AllAnswer(cfg, s, e) && CleanupAnswers(e.clean)
    ensures
      var t := After(cfg, s, Call(ELock(e), None));
      && t.c.lost && t.c.lock == Some(e.id)
      && (t.d.files == s.d.files && t.d.shadow == s.d.shadow <==>
            s.d.shadow == map[] && (s.d.files + s.d.pending) + (s.d.local - {"LOCK", "CURRENT"}) == s.d.files)
      && (t.c.current == s.c.current <==> !WouldRebuild(s, e.clean))
  {
    hide Good, AllAnswer, CleanupAnswers, UsableManifest, LockSyncActs, CleanupActs, ApplyAll, AfterPending,
         LocalSyncOk, After;
    LostSync(cfg, s, e);
    var s0 := Apply(s, PutLock(e.id));
    LostCleanup(cfg, ApplyAll(s0, LockSyncActs(cfg, s0, e)), e.clean);
    LockParts(cfg, s, e);
    FilesSame(s.d.files, s.d.shadow, s.d.pending, s.d.local - {"LOCK", "CURRENT"});
  }

  lemma FilesSame(files: map<string, Bytes>, shadow: map<string, Bytes>, pending: map<string, Bytes>,
      mirror: map<string, Bytes>)
    ensures (files + (shadow + pending)) + mirror == files && map[] == shadow <==>
            shadow == map[] && (files + pending) + mirror == files
  {
    if shadow == map[] {
      assert shadow + pending == pending;
    }
  }

  /** The state between the uploads and the cleanup. */
  lemma LostSync(cfg: Config, s: State, e: LockEnv)
    requires Good(s) && AllAnswer(cfg, s, e)
    ensures
      var s0 := Apply(s, PutLock(e.id));
      var u := ApplyAll(s0, LockSyncActs(cfg, s0, e));
      && Good(u) && LocalSyncOk(AfterPending(cfg, s0, e), e.local) && u.c == s.c.(lock := Some(e.id))
      && u.d.files == (s.d.files + (s.d.shadow + s.d.pending)) + (s.d.local - {"LOCK", "CURRENT"})
      && u.d.pending == map[] && u.d.shadow == map[] && u.d.local == s.d.local
  {
    hide Good, AllAnswer, LockSyncActs, ApplyAll, AfterPending, LocalSyncOk;
    var s0 := Apply(s, PutLock(e.id));
    SameStores(cfg, s, s0, e);
    SafeOne(s, PutLock(e.id));
    SafeKeepsGood(s, [PutLock(e.id)]);
    RecoveryEquation(cfg, s0, e);
    LockSyncSafe(cfg, s0, e);
    SafeKeepsGood(s0, LockSyncActs(cfg, s0, e));
    SyncSucceeds(cfg, s0, e);
  }

  lemma SameStores(cfg: Config, s: State, t: State, e: LockEnv)
    requires s.d == t.d && AllAnswer(cfg, s, e)
    ensures AllAnswer(cfg, t, e)
  {
    hide Answers, SumsValid;
  }

  lemma SyncSucceeds(cfg: Config, s: State, e: LockEnv)
    requires AllAnswer(cfg, s, e)
    ensures LocalSyncOk(AfterPending(cfg, s, e), e.local)
  {
    hide Answers, SumsValid, ApplyAll;
  }

  /** A recovery in which the pending directory cannot be read and the cleanup cannot reach S3. */
  function BareEnv(n: string): LockEnv {
    LockEnv(Done, "id",
            PendEnv(false, [], _ => PullEnv(false, false, SumDone), false, ReadEnv([], _ => false, _ => false),
                _ => Done, []),
            LocalEnv(true, [n], _ => true, _ => Done),
            CleanEnv(false, false, false, false, [], [], _ => false, _ => false, Done, Done, Done,
                     WipeEnv(false, false, false, [], _ => Done, Done)),
            Done)
  }

  lemma BareLockActs(cfg: Config, s: State, n: string)
    requires !s.c.closed && n in s.d.local && n != "LOCK" && n != "CURRENT"
    ensures LockActs(cfg, s, BareEnv(n)) == [PutLock("id"), Do(Put(S3, n, s.d.local[n])), SetHeld(true)]
  {
    hide ParseFileDesc;
    var e := BareEnv(n);
    var s0 := Apply(s, PutLock("id"));
    assert SyncPendingActs(cfg, s0, e.pend) == [];
    assert [n][1..] == [] && LocalActs(s0.d, [], e.local) == [];
    assert LockSyncActs(cfg, s0, e) == [Do(Put(S3, n, s.d.local[n]))];
  }

  /** A run that shows it, for every journal or manifest: it is created and written, the lock is lost, and the lock is
      taken again; the file, never synced, appears on S3. */
  lemma LockIsNotFenced(cfg: Config, fd: FileDesc, x: Bytes)
    requires IsInt64(fd.num) && (fd.ftype == Journal || fd.ftype == Manifest)
    ensures
      var n := FdName(fd);
      var h := [Call(ECreate(fd, true), None), Call(EWrite(n, x, true), None), Call(ELeaseLost, None)];
      var s := Play(cfg, EMPTY, h);
      var t := After(cfg, s, Call(ELock(BareEnv(n)), None));
      && Disciplined(cfg, EMPTY, h) && Good(s) && s.c.lost
      && n !in s.d.files && n in t.d.files && t.d.files[n] == x
  {
    hide ParseFileDesc, FdName, CachedName, LockActs, BareEnv, ApplyAll, Good, Disciplined, Play, After;
    ClassOfType(fd);
    var n := FdName(fd);
    var a, b, c := Call(ECreate(fd, true), None), Call(EWrite(n, x, true), None), Call(ELeaseLost, None);
    PrintedIsPlain(fd);
    ParsePrinted(fd);
    PlayThree(cfg, EMPTY, a, b, c);
    var s := Play(cfg, EMPTY, [a, b, c]);
    WrittenThenLost(cfg, fd, x);
    EmptyGood();
    PlayGood(cfg, EMPTY, [a, b, c]);
    BareLockUploads(cfg, s, n);
  }

  lemma BareLockUploads(cfg: Config, s: State, n: string)
    requires !s.c.closed && n in s.d.local && n != "LOCK" && n != "CURRENT"
    ensures
      var t := After(cfg, s, Call(ELock(BareEnv(n)), None));
      n in t.d.files && t.d.files[n] == s.d.local[n]
  {
    hide LockActs, BareEnv, ApplyAll;
    BareLockActs(cfg, s, n);
    ApplyThree(s, PutLock("id"), Do(Put(S3, n, s.d.local[n])), SetHeld(true));
  }

  lemma WrittenThenLost(cfg: Config, fd: FileDesc, x: Bytes)
    requires IsInt64(fd.num) && CachedName(FdName(fd))
    ensures
      var n := FdName(fd);
      var t := After(cfg, EMPTY, Call(ECreate(fd, true), None));
      var u := After(cfg, t, Call(EWrite(n, x, true), None));
      var s := After(cfg, u, Call(ELeaseLost, None));
      && n in t.l.open && s.c.lost && !s.c.closed && n in s.d.local && s.d.local[n] == x && n !in s.d.files
  {
    hide FdName, CachedName, ApplyAll, CreateActs, WriteActs;
    var n := FdName(fd);
    CreateIs(n);
    ApplyTwo(EMPTY, Record(Created(n)), Do(Put(Lru, n, [])));
    var t := After(cfg, EMPTY, Call(ECreate(fd, true), None));
    WriteIs(t, n, x);
    ApplyTwo(t, Record(Append(n, x)), Do(Put(Local, n, t.l.written[n] + x)));
    var u := After(cfg, t, Call(EWrite(n, x, true), None));
    GuardedOne(u, SetLost);
    assert [] + x == x;
  }

  lemma CreateIs(n: string)
    ensures CreateActs(EMPTY, n, true) == [Record(Created(n)), Do(Put(Lru, n, []))]
  {
    hide CachedName;
  }

  lemma WriteIs(s: State, n: string, x: Bytes)
    requires n in s.l.written && CachedName(n)
    ensures WriteActs(s, n, x, true) == [Record(Append(n, x)), Do(Put(Local, n, s.l.written[n] + x))]
  {
    hide CachedName;
  }

  // ---------- the two Unlocks ----------

  /** S3Storage.Unlock ends the retry passes; the locker's own Unlock leaves lockHeld set, so they go on. */
  lemma UnlockAndRetries(cfg: Config, s: State, first: Outcome, second: Outcome, e: PassEnv)
    ensures PassActs(cfg, After(cfg, s, Call(EUnlock(first, second), None)), e) == []
    ensures After(cfg, s, Call(ELockerUnlock(first, second), None)).c.held == s.c.held
    ensures PassActs(cfg, After(cfg, s, Call(ELockerUnlock(first, second), None)), e) == PassActs(cfg, s, e)
  {
    hide PassActs, ApplyAll, ReleaseActs;
    var rest := ReleaseActs(s, first, second);
    GuardedOne(s, SetHeld(false));
    ApplyAllConcat(s, [SetHeld(false)], rest);
    ReleaseKeeps(s, Apply(s, SetHeld(false)), first, second);
    ReleaseKeeps(s, s, first, second);
    NotHeld(cfg, After(cfg, s, Call(EUnlock(first, second), None)), e);
    SamePass(cfg, s, After(cfg, s, Call(ELockerUnlock(first, second), None)), e);
  }

  lemma NotHeld(cfg: Config, s: State, e: PassEnv)
    ensures !s.c.held ==> PassActs(cfg, s, e) == []
  {
  }

  lemma SamePass(cfg: Config, s: State, t: State, e: PassEnv)
    requires s.d == t.d && s.c.lost == t.c.lost && s.c.held == t.c.held && s.c.closed == t.c.closed
    ensures PassActs(cfg, s, e) == PassActs(cfg, t, e)
  {
    hide UploadList, DropActs, Merge;
  }

  lemma ReleaseKeeps(s: State, t: State, first: Outcome, second: Outcome)
    ensures ApplyAll(t, ReleaseActs(s, first, second)) in {t, Apply(t, DelLock)}
  {
    GuardedOne(t, DelLock);
    ApplyTwo(t, DelLock, DelLock);
    NoSteps(t);
    hide ApplyAll;
    var acts := ReleaseActs(s, first, second);
    assert acts == [] || acts == [DelLock] || acts == [DelLock, DelLock];
  }
}
