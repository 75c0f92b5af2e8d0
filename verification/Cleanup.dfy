/** cleanupOrphaned, CURRENT, and when recovery may and may not wipe the database. */
module Cleanup {
  import opened Scan
  import opened Names
  import opened Store
  import opened Programs
  import opened Guards
  import opened Durability

  // ---------- decoding CURRENT ----------

  /** What SetMeta and a rebuild write into CURRENT decodes to the descriptor they were given. */
  lemma CurrentRoundTrip(fd: FileDesc)
    requires IsInt64(fd.num)
    ensures DecodeCurrent(CurrentContent(fd)) == Some(fd)
  {
    PrintedIsPlain(fd);
    ParsePrinted(fd);
  }

  /** The manifest CURRENT names, if it decodes. */
  function CurrentManifest(s: State): Option<string> {
    if s.c.current.None? then None
    else match DecodeCurrent(s.c.current.value)
      case None => None
      case Some(fd) => Some(FdName(fd))
  }

  lemma DecodedIsPlain(content: string)
    requires DecodeCurrent(content).Some?
    ensures var m := FdName(DecodeCurrent(content).value); m != "LOCK" && m != "CURRENT" && IsFileName(m)
  {
    ParsedNumIsInt64(TrimSpace(content));
    PrintedIsPlain(DecodeCurrent(content).value);
    Normalises(TrimSpace(content));
  }

  // ---------- recovery never wipes a recoverable database ----------

  /** The manifest has a copy on S3 or in the local cache. */
  predicate Backed(s: State, m: string) {
    m in s.d.files || m in s.d.local
  }

  /** If the manifest is only in the local cache, recovery finds it there and can read it. */
  predicate SeesLocal(s: State, e: LockEnv, m: string) {
    m in s.d.files || (m in e.local.names && e.local.readOk(m))
  }

  lemma {:induction false} AddsKeep(s: State, acts: seq<Action>)
    requires AllAdd(acts)
    ensures
      var t := ApplyAll(s, acts);
      s.d.files.Keys <= t.d.files.Keys && s.d.local.Keys <= t.d.local.Keys && t.c == s.c
  {
    if acts != [] {
      var front := acts[..|acts| - 1];
      assert forall a :: a in front ==> a in acts;
      AddsKeep(s, front);
      assert acts[|acts| - 1] in acts;
      AddKeeps(ApplyAll(s, front), acts[|acts| - 1]);
    }
  }

  lemma AddKeeps(s: State, a: Action)
    requires Adds(a)
    ensures var t := Apply(s, a); s.d.files.Keys <= t.d.files.Keys && s.d.local.Keys <= t.d.local.Keys && t.c == s.c
  {
    assert s.d.At(S3) == s.d.files && s.d.At(Local) == s.d.local;
    var d' := ApplyIo(s.d, a.io);
    assert d'.At(S3) == d'.files && d'.At(Local) == d'.local;
  }

  /** When the local cache was uploaded without an error, every readable file of it is on S3. */
  lemma {:induction false} LocalUploaded(s: State, d: Disk, names: seq<string>, e: LocalEnv, m: string)
    requires LocalOk(d, names, e) && m in names && Uploads(d, m, e)
    ensures m in ApplyAll(s, LocalActs(d, names, e)).d.files
    decreases |names|
  {
    var n := names[0];
    LocalAdds(d, names[1..], e);
    if Uploads(d, n, e) {
      assert e.put(n).Done?;
      var a := Do(Put(S3, n, d.local[n]));
      var rest := LocalActs(d, names[1..], e);
      GuardedOne(s, a);
      var t := Apply(s, a);
      assert t.d.files == t.d.At(S3);
      ApplyAllConcat(s, [a], rest);
      if n == m {
        AddsKeep(t, rest);
      } else {
        LocalUploaded(t, d, names[1..], e, m);
      }
    } else {
      LocalUploaded(s, d, names[1..], e, m);
    }
  }

  /** If CURRENT names a manifest that is on S3 or readable in the local cache, then whichever S3 calls fail,
      Lock deletes no S3 object of the database: cleanup is reached only after the local cache was uploaded. */
  lemma NeverWipes(cfg: Config, s: State, e: LockEnv)
    requires CurrentManifest(s).Some? && Backed(s, CurrentManifest(s).value)
             && SeesLocal(s, e, CurrentManifest(s).value)
    ensures forall a :: a in LockActs(cfg, s, e) ==> Adds(a) || a.PutLock? || a.DelLock? || a.SetHeld?
    ensures s.d.files.Keys <= ApplyAll(s, LockActs(cfg, s, e)).d.files.Keys
    ensures ApplyAll(s, LockActs(cfg, s, e)).c.current == s.c.current
    ensures s.d.local.Keys <= ApplyAll(s, LockActs(cfg, s, e)).d.local.Keys
  {
    hide ParseFileDesc, FdName, ApplyAll, SyncPendingActs, LocalActs, LocalOk;
    if !s.c.closed && e.acquired.Done? {
      var m := CurrentManifest(s).value;
      DecodedIsPlain(s.c.current.value);
      var s0 := Apply(s, PutLock(e.id));
      var sync := LockSyncActs(cfg, s0, e);
      SyncUploads(cfg, s0, e, m);
      var t := ApplyAll(s0, sync);
      assert LocalSyncOk(AfterPending(cfg, s0, e), e.local) ==> CleanupActs(cfg, t, e.clean) == [];
      var last := if LocalSyncOk(AfterPending(cfg, s0, e), e.local) then [] + [SetHeld(true)]
          else Effect(e.unlock, DelLock);
      assert LockActs(cfg, s, e) == [PutLock(e.id)] + sync + last;
      GuardedOne(s, PutLock(e.id));
      ApplyAllConcat(s, [PutLock(e.id)], sync);
      ApplyAllConcat(s, [PutLock(e.id)] + sync, last);
      GuardedOne(t, SetHeld(true));
      GuardedOne(t, DelLock);
      LastStep(t, last);
    } else {
      GuardedOne(s, PutLock(e.id));
      LastStep(s, []);
    }
  }

  /** CURRENT decodes, and its manifest is on S3 or readable in the local cache. */
  predicate Recoverable(s: State, e: LockEnv) {
    CurrentManifest(s).Some? && Backed(s, CurrentManifest(s).value) && SeesLocal(s, e, CurrentManifest(s).value)
  }

  lemma NothingLost(cfg: Config, s: State, q: LockEnv, e: LockEnv)
    requires e.local == q.local
    ensures Recoverable(s, q) ==>
      var t := ApplyAll(s, LockActs(cfg, s, e));
      s.d.files.Keys <= t.d.files.Keys && t.c.current == s.c.current
  {
    hide LockActs, ApplyAll, CurrentManifest;
    if Recoverable(s, q) {
      NeverWipes(cfg, s, e);
    }
  }

  lemma LastStep(t: State, last: seq<Action>)
    requires last == [] || last == [DelLock] || last == [] + [SetHeld(true)]
    ensures var u := ApplyAll(t, last); u.d == t.d && u.c.current == t.c.current
  {
    GuardedOne(t, SetHeld(true));
    GuardedOne(t, DelLock);
    assert [] + [SetHeld(true)] == [SetHeld(true)];
  }

  lemma SyncUploads(cfg: Config, s: State, e: LockEnv, m: string)
    requires Backed(s, m) && SeesLocal(s, e, m) && m != "LOCK" && m != "CURRENT"
    ensures AllAdd(LockSyncActs(cfg, s, e))
    ensures var t := ApplyAll(s, LockSyncActs(cfg, s, e));
            && s.d.files.Keys <= t.d.files.Keys && s.d.local.Keys <= t.d.local.Keys && t.c == s.c
            && (LocalSyncOk(AfterPending(cfg, s, e), e.local) ==> m in t.d.files)
  {
    hide ApplyAll, SyncPendingActs, LocalActs, LocalOk;
    var a1 := SyncPendingActs(cfg, s, e.pend);
    var t := AfterPending(cfg, s, e);
    SyncPendingAdds(cfg, s, e.pend);
    LocalAdds(t.d, e.local.names, e.local);
    AddsKeep(s, a1);
    AddsKeep(s, LockSyncActs(cfg, s, e));
    if LocalSyncOk(t, e.local) && m !in s.d.files {
      ApplyAllConcat(s, a1, LocalSyncActs(t, e.local));
      LocalUploaded(t, t.d, e.local.names, e.local, m);
    }
  }

  // ---------- ... over whole runs ----------

  /** The client changes CURRENT only to manifests that reached S3 or the local cache, and neither removes nor renames
      the manifest CURRENT names; the machine is not lost while that manifest is only in its local cache; recovery can
      read it. */
  predicate KeepsCurrent(s: State, ev: Event) {
    && CurrentManifest(s).Some?
    && var m := CurrentManifest(s).value;
    match ev
    case ESetMeta(fd, _) => IsInt64(fd.num) && Backed(s, FdName(fd))
    case ERemove(fd, _) => FdName(fd) != m
    case ERename(o, _, _) => FdName(o) != m
    case EMachineLost => m in s.d.files
    case ELock(e) => SeesLocal(s, e, m)
    case _ => true
  }

  predicate CurrentKept(cfg: Config, s: State, h: seq<Call>)
    decreases |h|
  {
    h == [] || (KeepsCurrent(s, h[0].ev) && CurrentKept(cfg, After(cfg, s, h[0]), h[1..]))
  }

  ghost predicate CurrentBacked(s: State) {
    CurrentManifest(s).Some? && Backed(s, CurrentManifest(s).value)
  }

  /** The step takes nothing from m's copies on S3 and in the local cache, and leaves CURRENT alone. */
  predicate Respects(a: Action, m: string) {
    match a
    case Do(Del(p, n)) => n != m || (p != S3 && p != Local)
    case Do(Purge(p)) => p != S3 && p != Local
    case PutCurrent(_) => false
    case DelCurrent => false
    case NodeLoss => false
    case _ => true
  }

  lemma StepKeepsBacked(s: State, a: Action, m: string)
    requires Respects(a, m)
    ensures Apply(s, a).c.current == s.c.current
    ensures m in s.d.files ==> m in Apply(s, a).d.files
    ensures m in s.d.local ==> m in Apply(s, a).d.local
  {
    if a.Do? {
      IoKeepsBacked(s.d, a.io, m);
    }
  }

  lemma IoKeepsBacked(d: Disk, a: Io, m: string)
    requires Respects(Do(a), m)
    ensures m in d.files ==> m in ApplyIo(d, a).files
    ensures m in d.local ==> m in ApplyIo(d, a).local
  {
    hide ApplyIo;
    var e := ApplyIo(d, a);
    assert d.At(S3) == d.files && d.At(Local) == d.local && e.At(S3) == e.files && e.At(Local) == e.local;
    IoKeepsCopy(d, a, S3, m);
    IoKeepsCopy(d, a, Local, m);
  }

  lemma IoKeepsCopy(d: Disk, a: Io, p: Place, m: string)
    requires a != Del(p, m) && a != Purge(p) && p != Pending
    ensures m in d.At(p) ==> m in ApplyIo(d, a).At(p)
  {
  }

  lemma {:induction false} StepsKeepBacked(s: State, acts: seq<Action>, m: string)
    requires Backed(s, m) && forall a :: a in acts ==> Respects(a, m)
    ensures ApplyAll(s, acts).c.current == s.c.current && Backed(ApplyAll(s, acts), m)
  {
    if acts != [] {
      var front := acts[..|acts| - 1];
      assert forall a :: a in front ==> a in acts;
      StepsKeepBacked(s, front, m);
      assert acts[|acts| - 1] in acts;
      StepKeepsBacked(ApplyAll(s, front), acts[|acts| - 1], m);
    }
  }

  lemma RenameRespects(cfg: Config, s: State, o: string, n: string, e: RenameEnv, m: string)
    requires o != m
    ensures forall a :: a in RenameActs(cfg, s, o, n, e) ==> Respects(a, m)
  {
    hide ApplyAll, Absent, CachedName, RenameTail;
    if o in s.d.files {
      RenameTailRespects(cfg, s, o, n, e, m);
    }
  }

  lemma RenameTailRespects(cfg: Config, s: State, o: string, n: string, e: RenameEnv, m: string)
    requires o != m && o in s.d.files
    ensures forall a :: a in RenameTail(cfg, s, o, n, e) ==> Respects(a, m)
  {
    RenamePendingRespects(cfg, s, o, n, e, m);
    RenameRestRespects(s, o, n, e, m);
    hide RenamePendingActs, RenameLruActs, RenameDeleteActs, RenameLocalActs, Respects;
  }

  lemma RenamePendingRespects(cfg: Config, s: State, o: string, n: string, e: RenameEnv, m: string)
    ensures forall a :: a in RenamePendingActs(cfg, s, o, n, e) ==> Respects(a, m)
  {
    hide SumText;
  }

  lemma RenameRestRespects(s: State, o: string, n: string, e: RenameEnv, m: string)
    requires o != m && o in s.d.files
    ensures forall a :: a in RenameLruActs(s, o, n, e) ==> Respects(a, m)
    ensures forall a :: a in RenameDeleteActs(o, e) ==> Respects(a, m)
    ensures forall a :: a in RenameLocalActs(s, o, n, e) ==> Respects(a, m)
  {
    hide CachedName;
  }

  lemma SyncRespects(cfg: Config, s: State, n: string, e: SyncEnv, m: string)
    requires n in s.l.written
    ensures forall a :: a in SyncActs(cfg, s, n, e) ==> Respects(a, m)
  {
    hide CachedName, TooLarge, SumText;
    assert forall a :: a in UploadActs(cfg, n, s.l.written[n], e.up) ==> Respects(a, m);
  }

  predicate StepFine(a: Action, m: string) {
    Respects(a, m) && a != Record(DoomAll)
  }

  lemma AddsFine(acts: seq<Action>, m: string)
    requires AllAdd(acts)
    ensures forall a :: a in acts ==> StepFine(a, m)
  {
  }

  lemma WriterEventFine(cfg: Config, s: State, ev: Event, m: string)
    requires ev.ESync? || ev.EClose?
    ensures forall a :: a in EventActs(cfg, s, ev) ==> StepFine(a, m)
  {
    hide SyncActs;
    if ev.name in s.l.written {
      SyncRespects(cfg, s, ev.name, ev.sync, m);
      SyncSteps(cfg, s, ev.name, ev.sync);
    }
  }

  lemma SmallEventFine(cfg: Config, s: State, ev: Event, m: string)
    requires CurrentManifest(s) == Some(m) && KeepsCurrent(s, ev)
    requires !ev.ESync? && !ev.EClose? && !ev.ERename? && !ev.ERetryPass? && !ev.ELock? && !ev.ESetMeta?
             && !ev.EMachineLost?
    ensures forall a :: a in EventActs(cfg, s, ev) ==> StepFine(a, m)
  {
    hide FdName, CachedName, DecodeCurrent;
  }

  lemma LockEventFine(cfg: Config, s: State, e: LockEnv, m: string)
    requires CurrentManifest(s) == Some(m) && Backed(s, m) && SeesLocal(s, e, m)
    ensures forall a :: a in LockActs(cfg, s, e) ==> StepFine(a, m)
  {
    hide LockActs, CurrentManifest, Backed, SeesLocal, ApplyAll;
    NeverWipes(cfg, s, e);
  }

  lemma EventRespects(cfg: Config, s: State, ev: Event, m: string)
    requires CurrentManifest(s) == Some(m) && Backed(s, m) && KeepsCurrent(s, ev) && !ev.ESetMeta? && !ev.EMachineLost?
    ensures forall a :: a in EventActs(cfg, s, ev) ==> StepFine(a, m)
  {
    hide FdName, CurrentManifest, RenameActs, PassActs, LockActs;
    match ev
    case ESync(_, _) => WriterEventFine(cfg, s, ev, m);
    case EClose(_, _) => WriterEventFine(cfg, s, ev, m);
    case ERename(o, n, e) =>
      RenameRespects(cfg, s, FdName(o), FdName(n), e, m);
      RenameSteps(cfg, s, FdName(o), FdName(n), e);
    case ERetryPass(e) =>
      PassAdds(cfg, s, e);
      AddsFine(PassActs(cfg, s, e), m);
    case ELock(e) => LockEventFine(cfg, s, e, m);
    case _ => SmallEventFine(cfg, s, ev, m);
  }

  lemma CallKeepsCurrent(cfg: Config, s: State, c: Call)
    requires CurrentBacked(s) && KeepsCurrent(s, c.ev)
    ensures CurrentBacked(After(cfg, s, c)) && !Wipes(cfg, s, c)
  {
    hide FdName, DecodeCurrent, EventActs;
    var m := CurrentManifest(s).value;
    var acts := EventActs(cfg, s, c.ev);
    var done := CallActs(cfg, s, c);
    assert forall a :: a in done ==> a == Crash || a in acts;
    if c.ev.ESetMeta? || c.ev.EMachineLost? {
      SpecialKeepsCurrent(cfg, s, c);
    } else {
      EventRespects(cfg, s, c.ev, m);
      StepsKeepBacked(s, done, m);
    }
  }

  lemma NoWipeIn(cfg: Config, s: State, c: Call)
    requires c.ev.ESetMeta? || c.ev.EMachineLost?
    ensures !Wipes(cfg, s, c)
  {
    hide CurrentContent;
  }

  /** The state after at most one step and at most one crash. */
  lemma OneStepCalls(cfg: Config, s: State, c: Call, x: Action)
    requires EventActs(cfg, s, c.ev) == [] || EventActs(cfg, s, c.ev) == [x]
    ensures After(cfg, s, c) in {s, Apply(s, x), Restart(s), Restart(Apply(s, x))}
  {
    hide EventActs, Apply, ApplyAll, Restart;
    var acts := CallActs(cfg, s, c);
    assert acts == [] || acts == [x] || acts == [Crash] || acts == [x, Crash];
    GuardedOne(s, x);
    GuardedOne(s, Crash);
    ApplyTwo(s, x, Crash);
    CrashRestarts(s);
    CrashRestarts(Apply(s, x));
    NoSteps(s);
  }

  lemma CrashRestarts(s: State)
    ensures Apply(s, Crash) == Restart(s)
  {
  }

  lemma NoSteps(s: State)
    ensures ApplyAll(s, []) == s
  {
  }

  lemma SpecialKeepsCurrent(cfg: Config, s: State, c: Call)
    requires CurrentBacked(s) && KeepsCurrent(s, c.ev) && (c.ev.ESetMeta? || c.ev.EMachineLost?)
    ensures CurrentBacked(After(cfg, s, c)) && !Wipes(cfg, s, c)
  {
    hide FdName, DecodeCurrent, CurrentContent, After, Wipes;
    NoWipeIn(cfg, s, c);
    if c.ev.ESetMeta? {
      CurrentRoundTrip(c.ev.fd);
      OneStepCalls(cfg, s, c, PutCurrent(CurrentContent(c.ev.fd)));
    } else {
      OneStepCalls(cfg, s, c, NodeLoss);
    }
  }

  /** Once CURRENT names a manifest that is on S3 or in the local cache, no recovery in any disciplined history wipes
      the database, whatever fails and wherever it crashes; CURRENT goes on naming such a manifest. */
  lemma {:induction false} NeverWipesInRuns(cfg: Config, s: State, h: seq<Call>)
    requires CurrentBacked(s) && CurrentKept(cfg, s, h)
    ensures CurrentBacked(Play(cfg, s, h))
    ensures forall i :: 0 <= i < |h| ==> !Wipes(cfg, Play(cfg, s, h[..i]), h[i])
    decreases |h|
  {
    if h != [] {
      hide CurrentBacked, Wipes, KeepsCurrent, After;
      CallKeepsCurrent(cfg, s, h[0]);
      var t := After(cfg, s, h[0]);
      NeverWipesInRuns(cfg, t, h[1..]);
      forall i | 0 <= i < |h|
        ensures !Wipes(cfg, Play(cfg, s, h[..i]), h[i])
      {
        if i > 0 {
          assert h[..i][1..] == h[1..][..i - 1] && h[..i][0] == h[0] && h[i] == h[1..][i - 1];
          assert Play(cfg, s, h[..i]) == Play(cfg, t, h[1..][..i - 1]);
        }
      }
    }
  }

  // ---------- durability in the client's own terms ----------

  /** The client neither removes n nor renames it away. */
  predicate NotGivenUp(h: seq<Call>, n: string) {
    forall i :: 0 <= i < |h| ==>
      && (h[i].ev.ERemove? ==> FdName(h[i].ev.fd) != n)
      && (h[i].ev.ERename? ==> FdName(h[i].ev.src) != n)
  }

  lemma {:induction false} DisciplineSpares(cfg: Config, s: State, h: seq<Call>, n: string)
    requires CurrentBacked(s) && CurrentKept(cfg, s, h) && NotGivenUp(h, n)
    ensures SparedThroughout(cfg, s, h, n)
    decreases |h|
  {
    if h != [] {
      hide CurrentBacked, Wipes, KeepsCurrent, After;
      CallKeepsCurrent(cfg, s, h[0]);
      DisciplineSpares(cfg, After(cfg, s, h[0]), h[1..], n);
    }
  }

  /** Durability with nothing said about what happens inside the calls: once CURRENT names a manifest on S3 or in the
      local cache, and as long as the client keeps it so and gives n up neither by Remove nor by Rename, every copy of
      an acknowledged file n extends the acknowledged bytes and S3 has one, whatever fails, crashes and is recovered. */
  lemma DurableUnderDiscipline(cfg: Config, s: State, h: seq<Call>, n: string)
    requires Good(s) && Disciplined(cfg, s, h) && CurrentBacked(s) && CurrentKept(cfg, s, h)
    requires Live(s.l, n) && NotGivenUp(h, n)
    ensures
      var t := Play(cfg, s, h);
      n in t.d.files && s.l.acked[n] <= t.d.files[n] && EveryCopyExtends(t, n, s.l.acked[n])
  {
    hide Good, Live, Disciplined, SparedThroughout, Play, CurrentBacked, CurrentKept, NotGivenUp;
    DisciplineSpares(cfg, s, h, n);
    AckSurvives(cfg, s, h, n);
    LiveIsAcked(s.l, n);
    LiveIsAcked(Play(cfg, s, h).l, n);
    AckedCopies(Play(cfg, s, h), n, s.l.acked[n]);
  }

  // ---------- CURRENT after cleanup ----------

  /** The search returns the highest manifest number above zero; number zero is never chosen. */
  lemma {:induction false} LatestIsHighest(names: seq<string>)
    ensures
      match LatestManifest(names)
      case Some((num, n)) =>
        n in names && ManifestNum(n) == Some(num) && num > 0
        && (forall k :: k in names && ManifestNum(k).Some? ==> ManifestNum(k).value <= num)
      case None => forall k :: k in names && ManifestNum(k).Some? ==> ManifestNum(k).value <= 0
  {
    hide ManifestNum;
    if names != [] {
      var front := names[..|names| - 1];
      LatestIsHighest(front);
      assert names == front + [names[|names| - 1]];
    }
  }

  /** If the database is wiped, the delete of CURRENT takes effect; its answer is ignored. */
  predicate CurrentGoes(e: CleanEnv) {
    e.wipe.delCurrent.Done? || e.wipe.delCurrent.took
  }

  predicate CurrentConsistent(s: State) {
    s.c.current.None? || (CurrentManifest(s).Some? && CurrentManifest(s).value in s.d.files)
  }

  lemma WipeDropsCurrent(cfg: Config, s: State, e: CleanEnv)
    requires WipeOk(s, e.wipe) && CurrentGoes(e)
    ensures WipeActs(cfg, s, e.wipe) != [] && WipeActs(cfg, s, e.wipe)[|WipeActs(cfg, s, e.wipe)| - 1] == DelCurrent
  {
    hide WipeDeletes;
  }

  lemma WipeLast(cfg: Config, s: State, pre: seq<Action>, e: CleanEnv)
    requires WipeOk(s, e.wipe) && CurrentGoes(e)
    ensures ApplyAll(s, pre + WipeActs(cfg, s, e.wipe)).c.current == None
  {
    hide WipeActs;
    WipeDropsCurrent(cfg, s, e);
    var acts := pre + WipeActs(cfg, s, e.wipe);
    assert acts[|acts| - 1] == DelCurrent;
  }

  lemma PutOnS3(s: State, m: string, x: Bytes)
    ensures var t := ApplyAll(s, [Do(Put(S3, m, x))]);
            t.c == s.c && t.d.files == s.d.files[m := x] && t.d.local == s.d.local && t.d.pending == s.d.pending
  {
    GuardedOne(s, Do(Put(S3, m, x)));
  }

  /** Steps that only add, among them the upload of m: CURRENT stays and m is on S3. */
  lemma AddedOnS3(s: State, pre: seq<Action>, m: string, x: Bytes, tail: seq<Action>)
    requires AllAdd(pre) && AllAdd(tail)
    ensures var t := ApplyAll(s, pre + [Do(Put(S3, m, x))] + tail); m in t.d.files && t.c == s.c
  {
    AddsKeep(s, pre);
    var u := ApplyAll(s, pre);
    PutOnS3(u, m, x);
    ApplyAllConcat(s, pre, [Do(Put(S3, m, x))]);
    ApplyAllConcat(s, pre + [Do(Put(S3, m, x))], tail);
    AddsKeep(ApplyAll(s, pre + [Do(Put(S3, m, x))]), tail);
  }

  lemma VerifyConsistent(cfg: Config, s: State, e: CleanEnv)
    requires s.c.current.Some? && VerifyOk(s, e) && CurrentGoes(e)
    ensures CurrentConsistent(ApplyAll(s, VerifyActs(cfg, s, e)))
  {
    hide ParseFileDesc, FdName, TrimSpace, WipeActs, FromLocal, FromPending, WipeOk, ApplyAll;
    NoSteps(s);
    match DecodeCurrent(s.c.current.value)
    case None =>
      WipeLast(cfg, s, [], e);
      assert [] + WipeActs(cfg, s, e.wipe) == WipeActs(cfg, s, e.wipe);
    case Some(fd) =>
      var m := FdName(fd);
      if m !in s.d.files {
        RestoreConsistent(cfg, s, m, e);
      }
  }

  lemma RestoreConsistent(cfg: Config, s: State, m: string, e: CleanEnv)
    requires RestoreOk(s, m, e) && CurrentGoes(e)
    ensures var t := ApplyAll(s, RestoreActs(cfg, s, m, e)); t.c.current == None || (m in t.d.files && t.c == s.c)
  {
    hide WipeActs, WipeOk, ApplyAll;
    var pre := PutLocalActs(s, m, e);
    if FromLocal(s, m, e) && e.putLocal.Done? {
      AddedOnS3(s, [], m, s.d.local[m], []);
      assert [] + [Do(Put(S3, m, s.d.local[m]))] + [] == pre;
    } else if FromPending(s, m, e) && e.putPending.Done? {
      var tail := [Do(Del(Pending, m)), Do(DelSum(m))];
      AddedOnS3(s, pre, m, s.d.pending[m], tail);
      assert PutPendingActs(s, m, e) == [Do(Put(S3, m, s.d.pending[m]))];
    } else {
      WipeLast(cfg, s, pre + PutPendingActs(s, m, e), e);
    }
  }

  lemma RebuildEffect(cfg: Config, s: State, fd: FileDesc, data: Bytes, e: CleanEnv)
    requires e.putCurrent == Done
    ensures
      var acts := RebuildActs(cfg, s, fd, data, Done, e);
      acts == [Do(Put(S3, FdName(fd), data)), PutCurrent(CurrentContent(fd))]
      && var t := ApplyAll(s, acts);
      t.c.current == Some(CurrentContent(fd)) && t.d.files == s.d.files[FdName(fd) := data]
  {
    hide FdName, CurrentContent;
    ApplyTwo(s, Do(Put(S3, FdName(fd), data)), PutCurrent(CurrentContent(fd)));
    PutOnS3(s, FdName(fd), data);
    assert [Do(Put(S3, FdName(fd), data))] + ([PutCurrent(CurrentContent(fd))] + []) ==
           [Do(Put(S3, FdName(fd), data)), PutCurrent(CurrentContent(fd))];
  }

  lemma UsableIsInt64(names: seq<string>, m: map<string, Bytes>, readOk: string -> bool)
    requires UsableManifest(names, m, readOk).Some?
    ensures IsInt64(UsableManifest(names, m, readOk).value.0.num)
  {
    LatestManifestNamed(names);
  }

  /** Both writes of a rebuild are answered. */
  predicate RebuildAnswers(s: State, e: CleanEnv) {
    && e.existsCurrentOk && e.listOk && e.putCurrent.Done?
    && if UsableManifest(e.localNames, s.d.local, e.readLocal).Some? then e.putLocal.Done? else e.putPending.Done?
  }

  /** A rebuilt CURRENT names the manifest found, and that manifest is on S3 with the content found. */
  lemma Rebuilds(cfg: Config, s: State, e: CleanEnv)
    requires s.c.current.None? && RebuildSource(s, e).Some? && RebuildAnswers(s, e)
    ensures
      var (fd, data) := RebuildSource(s, e).value;
      var t := ApplyAll(s, CleanupActs(cfg, s, e));
      t.c.current == Some(CurrentContent(fd)) && IsInt64(fd.num)
      && FdName(fd) in t.d.files && t.d.files[FdName(fd)] == data
  {
    hide ParseFileDesc, FdName, UsableManifest, RebuildActs, CurrentContent;
    var (fd, data) := RebuildSource(s, e).value;
    RebuildEffect(cfg, s, fd, data, e);
    var acts := RebuildActs(cfg, s, fd, data, Done, e);
    if UsableManifest(e.localNames, s.d.local, e.readLocal).Some? {
      UsableIsInt64(e.localNames, s.d.local, e.readLocal);
    } else {
      UsableIsInt64(NonSidecars(e.pendingNames), s.d.pending, e.readPending);
      var tail := [Do(Del(Pending, FdName(fd))), Do(DelSum(FdName(fd)))];
      ApplyAllConcat(s, acts, tail);
      ApplyTwo(ApplyAll(s, acts), tail[0], tail[1]);
    }
  }

  lemma NotRebuilt(cfg: Config, s: State, e: CleanEnv)
    requires s.c.current.None? && e.existsCurrentOk && RecoverCurrentOk(s, e) && CurrentGoes(e)
    requires RebuildSource(s, e).Some? ==> !RebuildAnswers(s, e)
    ensures ApplyAll(s, CleanupActs(cfg, s, e)).c.current == None
  {
    hide ParseFileDesc, FdName, WipeActs, WipeOk, UsableManifest, NonSidecars, CurrentContent, ApplyAll, ListedNames;
    NoSteps(s);
    if RebuildSource(s, e).Some? {
      var (fd, data) := RebuildSource(s, e).value;
      var put := if UsableManifest(e.localNames, s.d.local, e.readLocal).Some? then e.putLocal else e.putPending;
      var pre := Effect(put, Do(Put(S3, FdName(fd), data)))
                 + if put.Failed? then [] else Effect(e.putCurrent, PutCurrent(CurrentContent(fd)));
      WipeLast(cfg, s, pre, e);
      assert CleanupActs(cfg, s, e) == pre + WipeActs(cfg, s, e.wipe);
    } else if ListedNames(s.d) != {} {
      WipeLast(cfg, s, [], e);
      assert [] + WipeActs(cfg, s, e.wipe) == WipeActs(cfg, s, e.wipe);
    }
  }

  /** Cleanup leaves CURRENT consistent: whichever calls fail, when it returns nil and a delete of CURRENT it may have
      come to takes effect, CURRENT is absent afterwards or decodes to a descriptor whose object exists, and a GetMeta
      that can reach S3 returns exactly that. */
  lemma CurrentConsistency(cfg: Config, s: State, e: CleanEnv)
    requires CleanupOk(s, e) && CurrentGoes(e)
    ensures
      var t := ApplyAll(s, CleanupActs(cfg, s, e));
      && CurrentConsistent(t)
      && (!t.c.closed ==>
            GetMetaOutcome(t, true, true, true) ==
            if t.c.current.None? then NoMeta else Meta(DecodeCurrent(t.c.current.value).value))
  {
    hide ParseFileDesc, FdName, TrimSpace, VerifyActs, VerifyOk, RecoverCurrentActs, RecoverCurrentOk, RebuildAnswers,
         CurrentContent, ApplyAll;
    if s.c.current.Some? {
      VerifyConsistent(cfg, s, e);
    } else if RebuildSource(s, e).Some? && RebuildAnswers(s, e) {
      Rebuilds(cfg, s, e);
      CurrentRoundTrip(RebuildSource(s, e).value.0);
    } else {
      NotRebuilt(cfg, s, e);
    }
  }

  /** A wipe leaves object m in place: every delete of it failed and had no effect. */
  predicate Survives(e: CleanEnv, m: string) {
    forall fd :: fd in e.wipe.listing && FdName(fd) == m ==> e.wipe.del(m) == Failed(false)
  }

  /** An upload of CURRENT's manifest m from the local or the pending directory was reported as failed but
      took effect. */
  predicate Sneaked(s: State, e: CleanEnv, m: string) {
    (FromLocal(s, m, e) && e.putLocal == Failed(true)) || (FromPending(s, m, e) && e.putPending == Failed(true))
  }

  /** The manifest of a CURRENT that stays is on S3 afterwards: it was there, or an upload of it succeeded, or an upload
      took effect unseen and survived the wipe that followed. */
  predicate Restored(s: State, e: CleanEnv)
    requires s.c.current.Some?
  {
    && DecodeCurrent(s.c.current.value).Some?
    && var m := FdName(DecodeCurrent(s.c.current.value).value);
    || m in s.d.files || (FromLocal(s, m, e) && e.putLocal.Done?) || (FromPending(s, m, e) && e.putPending.Done?)
    || (Sneaked(s, e, m) && Survives(e, m))
  }

  /** A rebuild uploads its manifest, and CURRENT is written although that write is reported as failed, so a
      wipe follows. */
  predicate Written(s: State, e: CleanEnv) {
    && RebuildSource(s, e).Some? && e.putCurrent == Failed(true)
    && if UsableManifest(e.localNames, s.d.local, e.readLocal).Some? then e.putLocal.Done? else e.putPending.Done?
  }

  predicate Settled(s: State, e: CleanEnv) {
    if s.c.current.Some? then Restored(s, e) else Written(s, e) ==> Survives(e, FdName(RebuildSource(s, e).value.0))
  }

  /** A step that changes neither an object nor CURRENT. */
  predicate SparesFiles(a: Action) {
    match a
    case Do(Del(p, _)) => p != S3
    case Do(Purge(p)) => p != S3
    case Do(io) => io.PurgeSums? || io.DelSum?
    case Record(_) => true
    case _ => false
  }

  lemma SparesStep(s: State, a: Action)
    requires SparesFiles(a)
    ensures Apply(s, a).c == s.c && Apply(s, a).d.files == s.d.files
  {
    if a.Do? {
      var d' := ApplyIo(s.d, a.io);
      assert d'.files == d'.At(S3) && s.d.files == s.d.At(S3);
    }
  }

  lemma {:induction false} SparesAll(s: State, acts: seq<Action>)
    requires forall a :: a in acts ==> SparesFiles(a)
    ensures ApplyAll(s, acts).c == s.c && ApplyAll(s, acts).d.files == s.d.files
  {
    hide SparesFiles, Apply;
    if acts != [] {
      var front := acts[..|acts| - 1];
      assert forall a :: a in front ==> a in acts;
      SparesAll(s, front);
      assert acts[|acts| - 1] in acts;
      SparesStep(ApplyAll(s, front), acts[|acts| - 1]);
    }
  }

  lemma {:induction false} WipeDeletesLeave(s: State, listing: seq<FileDesc>, del: string -> Outcome, m: string)
    ensures
      var t := ApplyAll(s, WipeDeletes(listing, del));
      && t.c == s.c
      && (m in t.d.files <==>
            m in s.d.files && forall fd :: fd in listing && FdName(fd) == m ==> del(m) == Failed(false))
    decreases |listing|
  {
    hide FdName, ApplyAll;
    if listing == [] {
      NoSteps(s);
    } else {
      var n := FdName(listing[0]);
      var a := Effect(del(n), Do(Del(S3, n)));
      NoSteps(s);
      GuardedOne(s, Do(Del(S3, n)));
      WipeDeletesLeave(ApplyAll(s, a), listing[1..], del, m);
      ApplyAllConcat(s, a, WipeDeletes(listing[1..], del));
      assert forall fd :: fd in listing <==> fd == listing[0] || fd in listing[1..];
    }
  }

  /** What a wipe whose delete of CURRENT has no effect leaves of CURRENT and of one object. */
  lemma WipeLeaves(cfg: Config, s: State, t: State, e: CleanEnv, m: string)
    requires WipeOk(s, e.wipe) && !CurrentGoes(e)
    ensures
      var u := ApplyAll(t, WipeActs(cfg, s, e.wipe));
      u.c == t.c && (m in u.d.files <==> m in t.d.files && Survives(e, m))
  {
    hide FdName, ApplyAll, WipeDeletes;
    var start := WipeActs(cfg, s, e.wipe.(listOk := false));
    var dels := WipeDeletes(e.wipe.listing, e.wipe.del);
    assert WipeActs(cfg, s, e.wipe) == start + dels;
    SparesAll(t, start);
    WipeDeletesLeave(ApplyAll(t, start), e.wipe.listing, e.wipe.del, m);
    ApplyAllConcat(t, start, dels);
  }

  lemma PutMaybe(s: State, m: string, x: Bytes, o: Outcome)
    ensures
      var t := ApplyAll(s, Effect(o, Do(Put(S3, m, x))));
      t.c == s.c && t.d.files.Keys == s.d.files.Keys + if o == Failed(false) then {} else {m}
  {
    hide ApplyAll;
    NoSteps(s);
    PutOnS3(s, m, x);
  }

  /** What the delete of CURRENT decides. Whichever calls fail, with or without effect, a cleanup that returns nil
      leaves CURRENT consistent if and only if the delete takes effect or the manifest of a CURRENT that stays is on
      S3 afterwards. */
  lemma CleanupExactly(cfg: Config, s: State, e: CleanEnv)
    requires CleanupOk(s, e)
    ensures CurrentConsistent(ApplyAll(s, CleanupActs(cfg, s, e))) <==> CurrentGoes(e) || Settled(s, e)
  {
    hide ParseFileDesc, FdName, TrimSpace, ApplyAll, CleanupActs, CurrentConsistent, CleanupOk, Settled;
    if CurrentGoes(e) {
      CurrentConsistency(cfg, s, e);
    } else if s.c.current.Some? {
      VerifyExactly(cfg, s, e);
    } else {
      RecoverExactly(cfg, s, e);
    }
  }

  lemma VerifyExactly(cfg: Config, s: State, e: CleanEnv)
    requires CleanupOk(s, e) && !CurrentGoes(e) && s.c.current.Some?
    ensures CurrentConsistent(ApplyAll(s, CleanupActs(cfg, s, e))) <==> Settled(s, e)
  {
    hide ParseFileDesc, FdName, TrimSpace, ApplyAll, FromLocal, FromPending, WipeActs, WipeOk, Survives, RestoreActs;
    NoSteps(s);
    if DecodeCurrent(s.c.current.value).Some? {
      var m := FdName(DecodeCurrent(s.c.current.value).value);
      if m !in s.d.files {
        RestoreExactly(cfg, s, m, e);
      }
    } else {
      WipeLeaves(cfg, s, s, e, "");
    }
  }

  lemma RestoreExactly(cfg: Config, s: State, m: string, e: CleanEnv)
    requires RestoreOk(s, m, e) && !CurrentGoes(e) && m !in s.d.files
    ensures
      var t := ApplyAll(s, RestoreActs(cfg, s, m, e));
      && t.c == s.c
      && (m in t.d.files <==>
            (FromLocal(s, m, e) && e.putLocal.Done?) || (FromPending(s, m, e) && e.putPending.Done?)
            || (Sneaked(s, e, m) && Survives(e, m)))
  {
    hide WipeActs, WipeOk, ApplyAll, Survives;
    if (FromLocal(s, m, e) && e.putLocal.Done?) || (FromPending(s, m, e) && e.putPending.Done?) {
      Brought(cfg, s, m, e);
    } else {
      var a, b := PutLocalActs(s, m, e), PutPendingActs(s, m, e);
      var t := ApplyAll(s, a);
      NoSteps(s);
      NoSteps(t);
      if FromLocal(s, m, e) {
        PutMaybe(s, m, s.d.local[m], e.putLocal);
      }
      if FromPending(s, m, e) {
        PutMaybe(t, m, s.d.pending[m], e.putPending);
      }
      ApplyAllConcat(s, a, b);
      ApplyAllConcat(s, a + b, WipeActs(cfg, s, e.wipe));
      WipeLeaves(cfg, s, ApplyAll(s, a + b), e, m);
    }
  }

  lemma Brought(cfg: Config, s: State, m: string, e: CleanEnv)
    requires (FromLocal(s, m, e) && e.putLocal.Done?) || (FromPending(s, m, e) && e.putPending.Done?)
    ensures var t := ApplyAll(s, RestoreActs(cfg, s, m, e)); m in t.d.files && t.c == s.c
  {
    hide WipeActs, ApplyAll;
    var pre := PutLocalActs(s, m, e);
    if FromLocal(s, m, e) && e.putLocal.Done? {
      AddedOnS3(s, [], m, s.d.local[m], []);
      assert [] + [Do(Put(S3, m, s.d.local[m]))] + [] == pre;
    } else {
      AddedOnS3(s, pre, m, s.d.pending[m], [Do(Del(Pending, m)), Do(DelSum(m))]);
      assert PutPendingActs(s, m, e) == [Do(Put(S3, m, s.d.pending[m]))];
    }
  }

  lemma RecoverExactly(cfg: Config, s: State, e: CleanEnv)
    requires CleanupOk(s, e) && !CurrentGoes(e) && s.c.current.None?
    ensures CurrentConsistent(ApplyAll(s, CleanupActs(cfg, s, e))) <==> Settled(s, e)
  {
    hide ParseFileDesc, FdName, TrimSpace, ApplyAll, WipeActs, WipeOk, UsableManifest, NonSidecars, CurrentContent,
         ListedNames, Survives, RebuildActs;
    NoSteps(s);
    if RebuildSource(s, e).None? {
      if ListedNames(s.d) != {} {
        WipeLeaves(cfg, s, s, e, "");
      }
    } else if RebuildAnswers(s, e) {
      Rebuilds(cfg, s, e);
      CurrentRoundTrip(RebuildSource(s, e).value.0);
    } else {
      var (fd, data) := RebuildSource(s, e).value;
      var put := if UsableManifest(e.localNames, s.d.local, e.readLocal).Some? then e.putLocal else e.putPending;
      SourceIsInt64(s, e);
      RebuildFails(cfg, s, fd, data, put, e);
      var acts := RebuildActs(cfg, s, fd, data, put, e);
      assert acts + [] == acts;
    }
  }

  lemma SourceIsInt64(s: State, e: CleanEnv)
    requires RebuildSource(s, e).Some?
    ensures IsInt64(RebuildSource(s, e).value.0.num)
  {
    hide UsableManifest, NonSidecars;
    if UsableManifest(e.localNames, s.d.local, e.readLocal).Some? {
      UsableIsInt64(e.localNames, s.d.local, e.readLocal);
    } else {
      UsableIsInt64(NonSidecars(e.pendingNames), s.d.pending, e.readPending);
    }
  }

  /** A rebuild one of whose writes is reported as failed: CURRENT is there afterwards only if its own write failed
      with effect. */
  lemma RebuildFails(cfg: Config, s: State, fd: FileDesc, data: Bytes, put: Outcome, e: CleanEnv)
    requires s.c.current.None? && IsInt64(fd.num) && WipeOk(s, e.wipe) && !CurrentGoes(e)
             && (put.Failed? || e.putCurrent.Failed?)
    ensures
      CurrentConsistent(ApplyAll(s, RebuildActs(cfg, s, fd, data, put, e))) <==>
      (put.Done? && e.putCurrent == Failed(true) ==> Survives(e, FdName(fd)))
  {
    hide FdName, CurrentContent, DecodeCurrent, ApplyAll, WipeActs, Survives, WipeOk;
    var m := FdName(fd);
    var a := Effect(put, Do(Put(S3, m, data)));
    var t := ApplyAll(s, a);
    PutMaybe(s, m, data, put);
    CurrentRoundTrip(fd);
    if put.Failed? {
      ApplyAllConcat(s, a, WipeActs(cfg, s, e.wipe));
      WipeLeaves(cfg, s, t, e, m);
    } else {
      var b := Effect(e.putCurrent, PutCurrent(CurrentContent(fd)));
      NoSteps(t);
      GuardedOne(t, PutCurrent(CurrentContent(fd)));
      ApplyAllConcat(s, a, b);
      ApplyAllConcat(s, a + b, WipeActs(cfg, s, e.wipe));
      assert a + (b + WipeActs(cfg, s, e.wipe)) == a + b + WipeActs(cfg, s, e.wipe);
      WipeLeaves(cfg, s, ApplyAll(s, a + b), e, m);
    }
  }

  /** The number a rebuild chooses is positive and the highest in the directory it was found in:
      the local cache if that has a usable manifest, else the pending directory without its sidecars. */
  lemma RebuildsHighest(s: State, e: CleanEnv)
    requires RebuildSource(s, e).Some?
    ensures
      var (fd, data) := RebuildSource(s, e).value;
      var fromLocal := UsableManifest(e.localNames, s.d.local, e.readLocal).Some?;
      var names := if fromLocal then e.localNames else NonSidecars(e.pendingNames);
      && fd.ftype == Manifest && fd.num > 0 && data != []
      && (forall k :: k in names && ManifestNum(k).Some? ==> ManifestNum(k).value <= fd.num)
      && (exists k :: k in names && ManifestNum(k) == Some(fd.num)
            && (if fromLocal then k in s.d.local && s.d.local[k] == data
                else k in s.d.pending && s.d.pending[k] == data))
  {
    hide ManifestNum, LatestManifest, NonSidecars;
    LatestIsHighest(e.localNames);
    LatestIsHighest(NonSidecars(e.pendingNames));
    var fromLocal := UsableManifest(e.localNames, s.d.local, e.readLocal).Some?;
    var names := if fromLocal then e.localNames else NonSidecars(e.pendingNames);
    var (num, n) := LatestManifest(names).value;
  }

  /** Deleting the listed names, every delete answered, removes exactly those objects. */
  lemma {:induction false} WipeDeletesEffect(s: State, listing: seq<FileDesc>, del: string -> Outcome)
    requires forall n :: del(n) == Done
    ensures ApplyAll(s, WipeDeletes(listing, del)) ==
            s.(d := s.d.(files := s.d.files - (set fd | fd in listing :: FdName(fd))))
    decreases |listing|
  {
    hide FdName;
    if listing == [] {
      assert s.d.files - (set fd | fd in listing :: FdName(fd)) == s.d.files;
    } else {
      var n := FdName(listing[0]);
      var a := Do(Del(S3, n));
      GuardedOne(s, a);
      var t := Apply(s, a);
      assert t == s.(d := s.d.(files := s.d.files - {n}));
      WipeDeletesEffect(t, listing[1..], del);
      ApplyAllConcat(s, [a], WipeDeletes(listing[1..], del));
      assert forall fd :: fd in listing <==> fd == listing[0] || fd in listing[1..];
      assert (set fd | fd in listing :: FdName(fd)) == {n} + (set fd | fd in listing[1..] :: FdName(fd));
      assert (s.d.files - {n}) - (set fd | fd in listing[1..] :: FdName(fd)) ==
             s.d.files - (set fd | fd in listing :: FdName(fd));
    }
  }

  /** removeAllOrphaned, when S3 answers: no object of the database and no CURRENT is left, the LRU is empty, the
      local cache is empty if its directory could be removed, and with it the pending directory that lies inside it
      by default. */
  lemma WipeClears(cfg: Config, s: State, e: WipeEnv)
    requires Good(s) && !s.c.lost && !e.lostMeanwhile && e.listOk && e.rmOk && e.delCurrent == Done
    requires forall n :: e.del(n) == Done
    requires forall n :: n in s.d.files ==> ParseFileDesc(n).Some? && ParseFileDesc(n).value in e.listing
    ensures
      var t := ApplyAll(s, WipeActs(cfg, s, e));
      && t.d == Disk(map[], s.d.shadow, if cfg.nested then map[] else s.d.pending, map[], map[],
                     if cfg.nested then map[] else s.d.sums)
      && t.c == s.c.(current := None)
  {
    hide ParseFileDesc, FdName, WipeDeletes, ApplyAll, NamesOk;
    var names := set fd | fd in e.listing :: FdName(fd);
    var nested := if cfg.nested then [Do(Purge(Pending)), Do(PurgeSums)] else [];
    var start := [Record(DoomAll), Do(Purge(Lru)), Do(Purge(Local))] + nested;
    var dels := WipeDeletes(e.listing, e.del);
    AllListed(s, e.listing);
    WipeStart(cfg, s);
    var t := ApplyAll(s, start);
    WipeDeletesEffect(t, e.listing, e.del);
    assert s.d.files - names == map[];
    ApplyAllConcat(s, start, dels);
    ApplyAllSnoc(s, start + dels, DelCurrent);
    assert WipeActs(cfg, s, e) == start + dels + [DelCurrent];
  }

  lemma AllListed(s: State, listing: seq<FileDesc>)
    requires Good(s) && forall n :: n in s.d.files ==> ParseFileDesc(n).Some? && ParseFileDesc(n).value in listing
    ensures forall n :: n in s.d.files ==> exists fd :: fd in listing && FdName(fd) == n
  {
    hide ParseFileDesc, FdName;
    forall n | n in s.d.files
      ensures exists fd :: fd in listing && FdName(fd) == n
    {
      assert n in s.d.At(S3);
      assert IsFileName(n);
    }
  }

  lemma WipeStart(cfg: Config, s: State)
    ensures
      var nested := if cfg.nested then [Do(Purge(Pending)), Do(PurgeSums)] else [];
      var t := ApplyAll(s, [Record(DoomAll), Do(Purge(Lru)), Do(Purge(Local))] + nested);
      && t.d == Disk(s.d.files, s.d.shadow, if cfg.nested then map[] else s.d.pending, map[], map[],
                     if cfg.nested then map[] else s.d.sums)
      && t.c == s.c
  {
    var start := [Record(DoomAll), Do(Purge(Lru)), Do(Purge(Local))];
    ApplyThree(s, Record(DoomAll), Do(Purge(Lru)), Do(Purge(Local)));
    if cfg.nested {
      var nested := [Do(Purge(Pending)), Do(PurgeSums)];
      ApplyTwo(ApplyAll(s, start), Do(Purge(Pending)), Do(PurgeSums));
      ApplyAllConcat(s, start, nested);
    } else {
      assert start + [] == start;
    }
  }

  lemma WipeNoPut(cfg: Config, s: State, e: WipeEnv)
    ensures forall a :: a in WipeActs(cfg, s, e) ==> !a.PutCurrent?
  {
    WipeDeletesQuietToo(e.listing, e.del);
  }

  lemma {:induction false} WipeDeletesQuietToo(listing: seq<FileDesc>, del: string -> Outcome)
    ensures forall a :: a in WipeDeletes(listing, del) ==> a.Do?
  {
    hide FdName;
    if listing != [] {
      WipeDeletesQuietToo(listing[1..], del);
    }
  }

  lemma RebuildShape(cfg: Config, s: State, fd: FileDesc, data: Bytes, put: Outcome, e: CleanEnv)
    ensures
      var acts := RebuildActs(cfg, s, fd, data, put, e);
      forall i :: 0 <= i < |acts| && acts[i].PutCurrent? ==>
        i == 1 && acts[1] == PutCurrent(CurrentContent(fd)) && acts[0] == Do(Put(S3, FdName(fd), data)) && put.Done?
  {
    hide FdName, WipeActs, CurrentContent;
    WipeNoPut(cfg, s, e.wipe);
    var acts := RebuildActs(cfg, s, fd, data, put, e);
    var first := Effect(put, Do(Put(S3, FdName(fd), data)));
    var mid := if put.Failed? then [] else Effect(e.putCurrent, PutCurrent(CurrentContent(fd)));
    var wipe := if put.Failed? || e.putCurrent.Failed? then WipeActs(cfg, s, e.wipe) else [];
    assert acts == first + mid + wipe;
    assert forall j :: |first| + |mid| <= j < |acts| ==> acts[j] == wipe[j - |first| - |mid|] && acts[j] in wipe;
  }

  /** During a rebuild CURRENT is never written before its manifest, whatever fails: the one step that writes CURRENT
      comes right after the step that put the manifest it names on S3. */
  lemma ManifestBeforeCurrent(cfg: Config, s: State, e: CleanEnv)
    ensures
      var acts := CleanupActs(cfg, s, e);
      forall i :: 0 <= i < |acts| && acts[i].PutCurrent? ==>
        && i == 1 && s.c.current.None? && RebuildSource(s, e).Some?
        && var (fd, data) := RebuildSource(s, e).value;
           acts[1] == PutCurrent(CurrentContent(fd)) && acts[0] == Do(Put(S3, FdName(fd), data))
  {
    hide ParseFileDesc, FdName, TrimSpace, WipeActs, RebuildActs, UsableManifest, CurrentContent, ListedNames,
         FromLocal, FromPending;
    var acts := CleanupActs(cfg, s, e);
    WipeNoPut(cfg, s, e.wipe);
    assert forall i :: 0 <= i < |acts| ==> acts[i] in acts;
    if s.c.current.Some? {
      assert forall a :: a in acts ==> !a.PutCurrent?;
    } else if RebuildSource(s, e).Some? {
      var (fd, data) := RebuildSource(s, e).value;
      var put := if UsableManifest(e.localNames, s.d.local, e.readLocal).Some? then e.putLocal else e.putPending;
      RebuildShape(cfg, s, fd, data, put, e);
      var tail := [Do(Del(Pending, FdName(fd))), Do(DelSum(FdName(fd)))];
      var rebuild := RebuildActs(cfg, s, fd, data, put, e);
      assert acts == [] || acts == rebuild || acts == rebuild + [] || acts == rebuild + tail;
      assert forall i :: |rebuild| <= i < |acts| ==> acts[i] in tail;
    } else {
      assert forall a :: a in acts ==> !a.PutCurrent?;
    }
  }
}
