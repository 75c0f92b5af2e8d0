/** Whole runs: any sequence of client calls, retry passes, recoveries, evictions, lease losses and machine losses,
    with a crash allowed after any step of any call. */
module Durability {
  import opened Scan
  import opened Names
  import opened Store
  import opened Programs
  import opened Guards

  datatype Event =
    | ECreate(fd: FileDesc, dirOk: bool)
    | EWrite(name: string, p: Bytes, localOk: bool)
    | ESync(name: string, sync: SyncEnv)
    | EClose(name: string, sync: SyncEnv)
    | EOpen(fd: FileDesc, getOk: bool)
    | ERemove(fd: FileDesc, del: Outcome)
    | ERename(src: FileDesc, dst: FileDesc, ren: RenameEnv)
    | ESetMeta(fd: FileDesc, put: Outcome)
    | ERetryPass(pass: PassEnv)
    | ELock(env: LockEnv)
    | EUnlock(first: Outcome, second: Outcome)
    | ELockerUnlock(first: Outcome, second: Outcome)
    | ELeaseLost
    | EShutdown
    | EEvict(name: string)
    | EMachineLost

  function EventActs(cfg: Config, s: State, ev: Event): seq<Action> {
    match ev
    case ECreate(fd, dirOk) => CreateActs(s, FdName(fd), dirOk)
    case EWrite(n, p, ok) => if n in s.l.written then WriteActs(s, n, p, ok) else []
    case ESync(n, e) => if n in s.l.written then SyncActs(cfg, s, n, e) else []
    case EClose(n, e) => if n in s.l.written then CloseActs(cfg, s, n, e) else []
    case EOpen(fd, ok) => OpenActs(cfg, s, FdName(fd), ok)
    case ERemove(fd, e) => RemoveActs(s, FdName(fd), e)
    case ERename(o, n, e) => RenameActs(cfg, s, FdName(o), FdName(n), e)
    case ESetMeta(fd, e) => SetMetaActs(s, fd, e)
    case ERetryPass(e) => PassActs(cfg, s, e)
    case ELock(e) => LockActs(cfg, s, e)
    case EUnlock(a, b) => UnlockActs(s, a, b)
    case ELockerUnlock(a, b) => ReleaseActs(s, a, b)
    case ELeaseLost => [SetLost]
    case EShutdown => ShutdownActs(s)
    case EEvict(n) => [Do(Del(Lru, n))]
    case EMachineLost => [NodeLoss]
  }

  /** What the client promises: Create only under free names, Rename only to fresh ones, no writer left open on a file
      that is removed or renamed, a rename stays within the class of locally cached files. Of the environment it asks
      that a rewrite in a rename does not fail half-way through the acknowledged bytes; Leftovers.RenameExactly is
      about that. */
  predicate Allowed(s: State, ev: Event) {
    match ev
    case ECreate(fd, _) => IsInt64(fd.num) && Free(s.l, FdName(fd))
    case EWrite(n, _, _) => n in s.l.open
    case ESync(n, _) => n in s.l.open
    case EClose(n, _) => n in s.l.open
    case ERemove(fd, _) => FdName(fd) !in s.l.open
    case ERename(o, n, e) => IsInt64(n.num) && MayRename(s, FdName(o), FdName(n)) && Tidy(s, FdName(o), e)
    case _ => true
  }

  /** One call, possibly cut short by a crash after `cut` steps. */
  datatype Call = Call(ev: Event, cut: Option<nat>)

  function CallActs(cfg: Config, s: State, c: Call): seq<Action> {
    var acts := EventActs(cfg, s, c.ev);
    match c.cut
    case None => acts
    case Some(k) => acts[..if k < |acts| then k else |acts|] + [Crash]
  }

  function After(cfg: Config, s: State, c: Call): State {
    ApplyAll(s, CallActs(cfg, s, c))
  }

  function Play(cfg: Config, s: State, h: seq<Call>): State
    decreases |h|
  {
    if h == [] then s else Play(cfg, After(cfg, s, h[0]), h[1..])
  }

  predicate Disciplined(cfg: Config, s: State, h: seq<Call>)
    decreases |h|
  {
    h == [] || (Allowed(s, h[0].ev) && Disciplined(cfg, After(cfg, s, h[0]), h[1..]))
  }

  // ---------- every call keeps the invariant, wherever it is cut ----------

  lemma SmallEventSafe(cfg: Config, s: State, ev: Event)
    requires Good(s)
    requires ev.ESetMeta? || ev.EUnlock? || ev.ELockerUnlock? || ev.ELeaseLost? || ev.EShutdown? || ev.EEvict?
             || ev.EMachineLost?
    ensures Safe(s, EventActs(cfg, s, ev))
  {
    hide Safe, Good, CurrentContent;
    if ev.ELeaseLost? {
      SafeOne(s, SetLost);
    } else if ev.EMachineLost? {
      SafeOne(s, NodeLoss);
    } else {
      PlainSafe(s, EventActs(cfg, s, ev));
    }
  }

  lemma EventSafe(cfg: Config, s: State, ev: Event)
    requires Good(s) && Allowed(s, ev)
    ensures Safe(s, EventActs(cfg, s, ev))
  {
    hide ParseFileDesc, FdName, Safe, Free, MayRename, Tidy, Sandwiched, NamesOk,
         CreateActs, WriteActs, SyncActs, CloseActs, OpenActs, RemoveActs, RenameActs, PassActs, LockActs;
    EmptySafe(s);
    match ev
    case ECreate(fd, ok) =>
      ParsePrinted(fd);
      CreateSafe(s, FdName(fd), ok);
    case EWrite(n, p, ok) => WriteSafe(s, n, p, ok);
    case ESync(n, e) => SyncSafe(cfg, s, n, e);
    case EClose(n, e) => CloseSafe(cfg, s, n, e);
    case EOpen(fd, ok) => OpenSafe(cfg, s, FdName(fd), ok);
    case ERemove(fd, e) => RemoveSafe(s, FdName(fd), e);
    case ERename(o, n, e) => RenameSafe(cfg, s, FdName(o), FdName(n), e);
    case ERetryPass(e) => PassSafe(cfg, s, e);
    case ELock(e) => LockSafe(cfg, s, e);
    case _ => SmallEventSafe(cfg, s, ev);
  }

  lemma SafePrefix(s: State, acts: seq<Action>, k: nat)
    requires Good(s) && Safe(s, acts) && k <= |acts|
    ensures Safe(s, acts[..k]) && Good(ApplyAll(s, acts[..k]))
  {
    GuardedKeepsInv(s, acts, k);
    assert forall a :: a in acts[..k] ==> a in acts;
    NamesGuardedKeepsNames(s, acts[..k]);
  }

  lemma CallSafe(cfg: Config, s: State, c: Call)
    requires Good(s) && Allowed(s, c.ev)
    ensures Safe(s, CallActs(cfg, s, c)) && Good(After(cfg, s, c))
  {
    hide Good, Safe, EventActs, Allowed, ApplyAll;
    var acts := EventActs(cfg, s, c.ev);
    EventSafe(cfg, s, c.ev);
    if c.cut.Some? {
      var k := if c.cut.value < |acts| then c.cut.value else |acts|;
      SafePrefix(s, acts, k);
      SafeOne(ApplyAll(s, acts[..k]), Crash);
      SafeConcat(s, acts[..k], [Crash]);
    }
    SafeKeepsGood(s, CallActs(cfg, s, c));
  }

  /** The invariant holds after every disciplined history. */
  lemma {:induction false} PlayGood(cfg: Config, s: State, h: seq<Call>)
    requires Good(s) && Disciplined(cfg, s, h)
    ensures Good(Play(cfg, s, h))
    decreases |h|
  {
    if h != [] {
      CallSafe(cfg, s, h[0]);
      PlayGood(cfg, After(cfg, s, h[0]), h[1..]);
    }
  }

  lemma LostKeepsGood(s: State)
    requires Good(s)
    ensures Good(Apply(s, SetLost))
  {
    hide Good;
    SafeOne(s, SetLost);
    SafeKeepsGood(s, [SetLost]);
  }

  lemma EmptyGood()
    ensures Good(EMPTY)
  {
  }

  /** From an empty bucket on, at every step of every call of every disciplined history. */
  lemma ReachableGood(cfg: Config, h: seq<Call>, c: Call, k: nat)
    requires Disciplined(cfg, EMPTY, h)
    requires Allowed(Play(cfg, EMPTY, h), c.ev) && k <= |CallActs(cfg, Play(cfg, EMPTY, h), c)|
    ensures Good(ApplyAll(Play(cfg, EMPTY, h), CallActs(cfg, Play(cfg, EMPTY, h), c)[..k]))
  {
    EmptyGood();
    PlayGood(cfg, EMPTY, h);
    var s := Play(cfg, EMPTY, h);
    CallSafe(cfg, s, c);
    SafePrefix(s, CallActs(cfg, s, c), k);
  }

  // ---------- which steps a call can contain ----------

  /** Neither a change of the client's record nor a copy under a new name. */
  predicate Quiet(a: Action) {
    !a.Record? && !a.CopyFile? && !a.CopyOrphan?
  }

  ghost predicate AllQuiet(acts: seq<Action>) {
    forall a :: a in acts ==> Quiet(a)
  }

  ghost predicate QuietOrWipe(acts: seq<Action>) {
    forall a :: a in acts ==> Quiet(a) || a == Record(DoomAll)
  }

  /** Writes, and deletes only from pending and shadow. */
  predicate Adds(a: Action) {
    a.Do? && (a.io.Put? || a.io.PutSum? || a.io.DelSum? || (a.io.Del? && (a.io.p == Pending || a.io.p == Shadow)))
  }

  ghost predicate AllAdd(acts: seq<Action>) {
    forall a :: a in acts ==> Adds(a)
  }

  lemma MergeAdds(todo: seq<seq<Action>>, sched: seq<nat>)
    requires forall i :: 0 <= i < |todo| ==> AllAdd(todo[i])
    ensures AllAdd(Merge(todo, sched))
  {
    forall a | a in Merge(todo, sched) ensures Adds(a) {
      MergeMembers(todo, sched, a);
    }
  }

  lemma {:induction false} DropAdds(cfg: Config, d: Disk, names: seq<string>, r: ReadEnv)
    ensures AllAdd(DropActs(cfg, d, names, r))
  {
    hide Readable, Corrupt;
    if names != [] {
      DropAdds(cfg, d, names[..|names| - 1], r);
    }
  }

  lemma {:induction false} AttemptAdds(n: string, data: Bytes, failures: seq<bool>)
    ensures AllAdd(AttemptActs(n, data, failures))
  {
    if failures != [] {
      AttemptAdds(n, data, failures[1..]);
    }
  }

  lemma RetryAdds(f: PendingFile, e: RetryEnv)
    ensures AllAdd(RetryActs(f, e))
  {
    hide FdName;
    AttemptAdds(FdName(f.fd), f.data, e.failures);
  }

  lemma PassAdds(cfg: Config, s: State, e: PassEnv)
    ensures AllAdd(PassActs(cfg, s, e))
  {
    hide UploadList, RetryActs, Merge, DropActs;
    DropAdds(cfg, s.d, e.read.names, e.read);
    var fs := UploadList(cfg, s.d, e.read);
    var todo := RetryLists(fs, e.each);
    forall i | 0 <= i < |todo| ensures AllAdd(todo[i]) {
      RetryAdds(fs[i], e.each(fs[i].name));
    }
    MergeAdds(todo, e.sched);
  }

  lemma {:induction false} ShadowAdds(cfg: Config, s: State, names: seq<string>, pull: string -> PullEnv)
    ensures AllAdd(ShadowActs(cfg, s, names, pull))
    decreases |names|
  {
    if names != [] {
      var acts := PullActs(cfg, s, names[0], pull(names[0]));
      ShadowAdds(cfg, ApplyAll(s, acts), names[1..], pull);
    }
  }

  lemma RecoverOneAdds(cfg: Config, f: PendingFile, o: Outcome)
    ensures AllAdd(RecoverOneActs(cfg, f, o))
  {
  }

  lemma SyncPendingAdds(cfg: Config, s: State, e: PendEnv)
    ensures AllAdd(SyncPendingActs(cfg, s, e))
  {
    hide UploadList, RecoverOneActs, Merge, DropActs, ShadowActs, ApplyAll;
    ShadowAdds(cfg, s, e.shadowNames, e.pull);
    var t := ApplyAll(s, PullAllActs(cfg, s, e));
    DropAdds(cfg, t.d, e.read.names, e.read);
    var fs := UploadList(cfg, t.d, e.read);
    var todo := RecoverLists(cfg, fs, e.up);
    forall i | 0 <= i < |todo| ensures AllAdd(todo[i]) {
      RecoverOneAdds(cfg, fs[i], e.up(fs[i].name));
    }
    MergeAdds(todo, e.sched);
  }

  lemma {:induction false} LocalAdds(d: Disk, names: seq<string>, e: LocalEnv)
    ensures AllAdd(LocalActs(d, names, e))
  {
    if names != [] {
      LocalAdds(d, names[1..], e);
    }
  }

  lemma {:induction false} WipeDeletesQuiet(listing: seq<FileDesc>, del: string -> Outcome)
    ensures AllQuiet(WipeDeletes(listing, del))
  {
    hide FdName;
    if listing != [] {
      WipeDeletesQuiet(listing[1..], del);
    }
  }

  lemma WipeQuiet(cfg: Config, s: State, e: WipeEnv)
    ensures QuietOrWipe(WipeActs(cfg, s, e))
  {
    WipeDeletesQuiet(e.listing, e.del);
  }

  lemma RebuildQuiet(cfg: Config, s: State, fd: FileDesc, data: Bytes, put: Outcome, e: CleanEnv)
    ensures QuietOrWipe(RebuildActs(cfg, s, fd, data, put, e))
  {
    hide FdName, WipeActs, CurrentContent;
    WipeQuiet(cfg, s, e.wipe);
  }

  lemma CleanupQuiet(cfg: Config, s: State, e: CleanEnv)
    ensures QuietOrWipe(CleanupActs(cfg, s, e))
  {
    hide FdName, WipeActs, RebuildActs, UsableManifest, DecodeCurrent, FromLocal, FromPending, ListedNames;
    WipeQuiet(cfg, s, e.wipe);
    var a := UsableManifest(e.localNames, s.d.local, e.readLocal);
    if a.Some? {
      RebuildQuiet(cfg, s, a.value.0, a.value.1, e.putLocal, e);
    }
    var b := UsableManifest(NonSidecars(e.pendingNames), s.d.pending, e.readPending);
    if b.Some? {
      RebuildQuiet(cfg, s, b.value.0, b.value.1, e.putPending, e);
    }
  }

  lemma LockQuiet(cfg: Config, s: State, e: LockEnv)
    ensures QuietOrWipe(LockActs(cfg, s, e))
  {
    hide ApplyAll, SyncPendingActs, LocalActs, CleanupActs, LocalOk;
    var s0 := Apply(s, PutLock(e.id));
    SyncPendingAdds(cfg, s0, e.pend);
    LocalAdds(AfterPending(cfg, s0, e).d, e.local.names, e.local);
    CleanupQuiet(cfg, ApplyAll(s0, LockSyncActs(cfg, s0, e)), e.clean);
  }

  /** Whether recovery inside this call came to removeAllOrphaned. */
  predicate Wipes(cfg: Config, s: State, c: Call) {
    Record(DoomAll) in CallActs(cfg, s, c)
  }

  /** The call neither removes n, nor renames it away, nor wipes the database. */
  predicate Spares(cfg: Config, s: State, c: Call, n: string) {
    && (c.ev.ERemove? ==> FdName(c.ev.fd) != n)
    && (c.ev.ERename? ==> FdName(c.ev.src) != n)
    && !Wipes(cfg, s, c)
  }

  /** The call neither creates n nor renames something to it. */
  predicate DoesNotMake(c: Call, n: string) {
    && (c.ev.ECreate? ==> FdName(c.ev.fd) != n)
    && (c.ev.ERename? ==> FdName(c.ev.dst) != n)
  }

  lemma RenameSteps(cfg: Config, s: State, o: string, n: string, e: RenameEnv)
    ensures forall a :: a in RenameActs(cfg, s, o, n, e) ==>
      Quiet(a) || a == CopyFile(o, n) || a == CopyOrphan(o, n) || a == Record(Forget(o))
  {
    hide ApplyAll, Absent, CachedName, RenameTail;
    if o in s.d.files {
      RenameTailQuiet(cfg, s, o, n, e);
    }
  }

  lemma RenameTailQuiet(cfg: Config, s: State, o: string, n: string, e: RenameEnv)
    requires o in s.d.files
    ensures AllQuiet(RenameTail(cfg, s, o, n, e))
  {
    hide CachedName, SumText;
    assert AllQuiet(RenamePendingActs(cfg, s, o, n, e));
    assert AllQuiet(RenameLruActs(s, o, n, e));
    assert AllQuiet(RenameDeleteActs(o, e));
    assert AllQuiet(RenameLocalActs(s, o, n, e));
  }

  lemma UploadQuiet(cfg: Config, n: string, data: Bytes, e: UploadEnv)
    ensures AllQuiet(UploadActs(cfg, n, data, e))
  {
    hide SumText;
  }

  lemma SyncSteps(cfg: Config, s: State, n: string, e: SyncEnv)
    requires n in s.l.written
    ensures forall a :: a in SyncActs(cfg, s, n, e) ==> Quiet(a) || a == Record(Ack(n))
  {
    hide UploadActs, CachedName, TooLarge;
    UploadQuiet(cfg, n, s.l.written[n], e.up);
  }

  /** The step gives n up, or brings it into being, only as the event says. */
  predicate StepOf(ev: Event, a: Action, n: string) {
    && (GivesUp(a, n) ==> (ev.ERemove? && FdName(ev.fd) == n) || (ev.ERename? && FdName(ev.src) == n)
                           || a == Record(DoomAll))
    && (Introduces(a, n) ==> (ev.ECreate? && FdName(ev.fd) == n) || (ev.ERename? && FdName(ev.dst) == n))
  }

  lemma QuietStep(ev: Event, a: Action, n: string)
    requires Quiet(a) || a == Record(DoomAll)
    ensures StepOf(ev, a, n)
  {
    hide FdName;
  }

  lemma SmallEventSteps(cfg: Config, s: State, ev: Event, n: string)
    requires !ev.ESync? && !ev.EClose? && !ev.ERename? && !ev.ERetryPass? && !ev.ELock?
    ensures forall a :: a in EventActs(cfg, s, ev) ==> StepOf(ev, a, n)
  {
    hide FdName, CachedName, CurrentContent;
  }

  /** A step of a call that gives up a file or brings one into being comes from the matching event. */
  lemma EventSteps(cfg: Config, s: State, ev: Event, n: string)
    ensures forall a :: a in EventActs(cfg, s, ev) ==> StepOf(ev, a, n)
  {
    hide FdName, SyncActs, RenameActs, PassActs, LockActs, Quiet;
    forall a | Quiet(a) || a == Record(DoomAll)
      ensures StepOf(ev, a, n)
    {
      QuietStep(ev, a, n);
    }
    match ev
    case ESync(m, e) => if m in s.l.written { SyncSteps(cfg, s, m, e); }
    case EClose(m, e) => if m in s.l.written { SyncSteps(cfg, s, m, e); }
    case ERename(o, m, e) => RenameSteps(cfg, s, FdName(o), FdName(m), e);
    case ERetryPass(e) =>
      PassAdds(cfg, s, e);
      AddsAreQuiet();
    case ELock(e) => LockQuiet(cfg, s, e);
    case _ => SmallEventSteps(cfg, s, ev, n);
  }

  lemma AddsAreQuiet()
    ensures forall a :: Adds(a) ==> Quiet(a)
  {
  }

  lemma CallSteps(cfg: Config, s: State, c: Call, n: string)
    ensures Spares(cfg, s, c, n) ==> forall a :: a in CallActs(cfg, s, c) ==> !GivesUp(a, n)
    ensures DoesNotMake(c, n) ==> forall a :: a in CallActs(cfg, s, c) ==> !Introduces(a, n)
  {
    hide EventActs, FdName;
    EventSteps(cfg, s, c.ev, n);
    var acts := EventActs(cfg, s, c.ev);
    assert forall a :: a in CallActs(cfg, s, c) ==> a == Crash || a in acts;
  }

  // ---------- acknowledged bytes survive ----------

  predicate SparedThroughout(cfg: Config, s: State, h: seq<Call>, n: string)
    decreases |h|
  {
    h == [] || (Spares(cfg, s, h[0], n) && SparedThroughout(cfg, After(cfg, s, h[0]), h[1..], n))
  }

  lemma {:induction false} AckSurvives(cfg: Config, s: State, h: seq<Call>, n: string)
    requires Good(s) && Disciplined(cfg, s, h) && Live(s.l, n) && SparedThroughout(cfg, s, h, n)
    ensures Good(Play(cfg, s, h)) && Live(Play(cfg, s, h).l, n) && s.l.acked[n] <= Play(cfg, s, h).l.acked[n]
    decreases |h|
  {
    if h != [] {
      CallSafe(cfg, s, h[0]);
      CallSteps(cfg, s, h[0], n);
      GuardedKeepsAck(s, CallActs(cfg, s, h[0]), n);
      AckSurvives(cfg, After(cfg, s, h[0]), h[1..], n);
    }
  }

  /** Every copy of n in t extends a. */
  ghost predicate EveryCopyExtends(t: State, n: string, a: Bytes) {
    forall p :: n in t.d.At(p) ==> a <= t.d.At(p)[n] <= (if n in t.l.written then t.l.written[n] else [])
  }

  lemma AckedCopies(t: State, n: string, a: Bytes)
    requires Good(t) && n in t.l.acked && a <= t.l.acked[n]
    ensures EveryCopyExtends(t, n, a) && (Live(t.l, n) ==> n in t.d.files && a <= t.d.files[n])
  {
    hide ParseFileDesc, FdName;
    forall p | n in t.d.At(p)
      ensures a <= t.d.At(p)[n] <= t.l.written[n]
    {
      assert t.l.Between(n, t.d.At(p)[n]);
    }
    if Live(t.l, n) {
      assert n in t.d.At(S3);
    }
  }

  /** Durability. Take any history h1 from an empty bucket and any file n acknowledged and not given up at its end.
      Whatever happens next - writes, failed uploads, retries, renames of other files, crashes between any two steps,
      recoveries, the loss of the machine - as long as n itself is not removed, renamed or wiped, S3 holds an object
      for n that extends the acknowledged bytes, and so does every other copy of n that exists. */
  lemma Durable(cfg: Config, h1: seq<Call>, h2: seq<Call>, n: string)
    requires Disciplined(cfg, EMPTY, h1) && Live(Play(cfg, EMPTY, h1).l, n)
    requires Disciplined(cfg, Play(cfg, EMPTY, h1), h2) && SparedThroughout(cfg, Play(cfg, EMPTY, h1), h2, n)
    ensures
      var s := Play(cfg, EMPTY, h1);
      var t := Play(cfg, s, h2);
      n in t.d.files && s.l.acked[n] <= t.d.files[n] && EveryCopyExtends(t, n, s.l.acked[n])
  {
    hide Good, Live, Disciplined, SparedThroughout, Play;
    EmptyGood();
    PlayGood(cfg, EMPTY, h1);
    var s := Play(cfg, EMPTY, h1);
    AckSurvives(cfg, s, h2, n);
    LiveIsAcked(s.l, n);
    LiveIsAcked(Play(cfg, s, h2).l, n);
    AckedCopies(Play(cfg, s, h2), n, s.l.acked[n]);
  }

  lemma LiveIsAcked(l: Ledger, n: string)
    requires Live(l, n)
    ensures n in l.acked
  {
  }

  /** What Sync and Close acknowledge: everything written so far when they return nil, nothing otherwise. */
  lemma SyncAcknowledges(cfg: Config, s: State, n: string, e: SyncEnv)
    requires Good(s) && n in s.l.open
    ensures
      var t := After(cfg, s, Call(ESync(n, e), None));
      var u := After(cfg, s, Call(EClose(n, e), None));
      if SyncOk(cfg, s, n, e)
      then t.l == ApplyNote(s.l, Ack(n)) && Live(t.l, n) && t.l.acked[n] == s.l.written[n] && Settled(t, n)
           && u.l == t.l.(open := s.l.open - {n}) && Live(u.l, n) && Settled(u, n)
      else t.l == s.l && u.l == s.l.(open := s.l.open - {n})
  {
    hide ParseFileDesc, FdName, Guarded, NamesGuarded, ApplyAll, NamesOk, SyncActs, Settled, Sandwiched;
    SyncEffect(cfg, s, n, e);
    var a := Record(CloseWriter(n));
    SafeOne(s, a);
    SafeKeepsGood(s, [a]);
    SyncEffect(cfg, Apply(s, a), n, e);
    SameSync(cfg, s, n, e);
    ApplyAllConcat(s, [a], SyncActs(cfg, s, n, e));
  }

  lemma SameSync(cfg: Config, s: State, n: string, e: SyncEnv)
    requires n in s.l.written
    ensures SyncActs(cfg, Apply(s, Record(CloseWriter(n))), n, e) == SyncActs(cfg, s, n, e)
  {
    hide ParseFileDesc;
  }

  lemma SyncEffect(cfg: Config, s: State, n: string, e: SyncEnv)
    requires Good(s) && n in s.l.written
    ensures
      var t := ApplyAll(s, SyncActs(cfg, s, n, e));
      if SyncOk(cfg, s, n, e) then t.l == ApplyNote(s.l, Ack(n)) && Settled(t, n) else t.l == s.l
  {
    hide ParseFileDesc, FdName, NamesGuarded, NamesOk, UploadActs, Sandwiched;
    SyncSafe(cfg, s, n, e);
    var acts := SyncActs(cfg, s, n, e);
    UploadPlain(cfg, s.l, n, s.l.written[n], e.up);
    if SyncOk(cfg, s, n, e) {
      var front := MirrorActs(s, n) + UploadActs(cfg, n, s.l.written[n], e.up);
      assert acts == front + [Record(Ack(n))];
      PlainSafe(s, front);
      GuardedConcat(s, front, [Record(Ack(n))]);
      GuardedOne(ApplyAll(s, front), Record(Ack(n)));
      ApplyAllConcat(s, front, [Record(Ack(n))]);
    } else {
      PlainSafe(s, acts);
    }
  }

  /** The shortest history to an acknowledged file. */
  function FirstSync(fd: FileDesc, x: Bytes, e: SyncEnv): seq<Call> {
    [Call(ECreate(fd, true), None), Call(EWrite(FdName(fd), x, true), None), Call(ESync(FdName(fd), e), None)]
  }

  lemma PlayThree(cfg: Config, s: State, a: Call, b: Call, c: Call)
    ensures
      var t := After(cfg, s, a);
      var u := After(cfg, t, b);
      && Play(cfg, s, [a, b, c]) == After(cfg, u, c)
      && (Disciplined(cfg, s, [a, b, c]) <==> Allowed(s, a.ev) && Allowed(t, b.ev) && Allowed(u, c.ev))
  {
    hide Allowed, After;
    assert [a, b, c][1..] == [b, c] && [b, c][1..] == [c] && [c][1..] == [];
    var u := After(cfg, After(cfg, s, a), b);
    assert Play(cfg, u, [c]) == After(cfg, u, c);
    assert Disciplined(cfg, u, [c]) == Allowed(u, c.ev);
  }

  lemma CreateRecords(cfg: Config, s: State, fd: FileDesc)
    requires !s.c.closed && !s.c.lost
    ensures
      var t := After(cfg, s, Call(ECreate(fd, true), None));
      t.l == ApplyNote(s.l, CreateNote(s.d, FdName(fd))) && t.c == s.c
  {
    hide FdName, CachedName, CreateNote, ApplyNote;
    var n := FdName(fd);
    ApplyTwo(s, Record(CreateNote(s.d, n)), Do(Put(Lru, n, [])));
    assert CreateActs(s, n, true) == [Record(CreateNote(s.d, n)), Do(Put(Lru, n, []))];
  }

  lemma WriteRecords(cfg: Config, s: State, n: string, x: Bytes)
    requires n in s.l.written
    ensures var t := After(cfg, s, Call(EWrite(n, x, true), None)); t.l == ApplyNote(s.l, Append(n, x)) && t.c == s.c
  {
    hide CachedName;
    var a, b := Record(Append(n, x)), Do(Put(Local, n, s.l.written[n] + x));
    GuardedOne(s, a);
    ApplyTwo(s, a, b);
    assert WriteActs(s, n, x, true) == if CachedName(n) then [a, b] else [a];
  }

  /** A file the client may create can be acknowledged: wherever the invariant holds, the empty bucket included,
      creating it, writing anything that is not too large and syncing it with S3 and the disk answering is a disciplined
      history that acknowledges just that - even if copies of an earlier file of that name were left somewhere. */
  lemma FirstSyncAcknowledges(cfg: Config, s: State, fd: FileDesc, x: Bytes, e: SyncEnv)
    requires Good(s) && !s.c.closed && !s.c.lost && IsInt64(fd.num) && Free(s.l, FdName(fd))
    requires (fd.ftype != Manifest ==> |x| <= cfg.maxFileSize) && e.localOk && e.up.put.Done?
    ensures
      var t := Play(cfg, s, FirstSync(fd, x, e));
      && Disciplined(cfg, s, FirstSync(fd, x, e)) && Good(t)
      && Live(t.l, FdName(fd)) && t.l.acked[FdName(fd)] == x && Settled(t, FdName(fd))
  {
    SizeLimit(cfg, fd, x);
    hide FdName, ParseFileDesc, TooLarge, After, Play, Disciplined, Good, Settled, CreateNote, Live, Free;
    var n := FdName(fd);
    var a, b, c := Call(ECreate(fd, true), None), Call(EWrite(n, x, true), None), Call(ESync(n, e), None);
    var t := After(cfg, s, a);
    var u := After(cfg, t, b);
    PlayThree(cfg, s, a, b, c);
    CreateRecords(cfg, s, fd);
    NotedOpen(s, n);
    CallSafe(cfg, s, a);
    WriteRecords(cfg, t, n, x);
    CallSafe(cfg, t, b);
    assert [] + x == x;
    SyncAcknowledges(cfg, u, n, e);
    CallSafe(cfg, u, c);
  }

  /** Every type but the manifest is limited in size. */
  lemma SizeLimit(cfg: Config, fd: FileDesc, data: Bytes)
    requires IsInt64(fd.num)
    ensures TooLarge(cfg, FdName(fd), data) <==> fd.ftype != Manifest && |data| > cfg.maxFileSize
  {
    hide FdName, IsMetadataKey;
    ClassOfType(fd);
  }

  lemma NotedOpen(s: State, n: string)
    ensures var l := ApplyNote(s.l, CreateNote(s.d, n)); n in l.written && l.written[n] == [] && n in l.open
  {
  }

  lemma {:induction false} StaysUnacked(s: State, acts: seq<Action>, n: string)
    requires !Live(s.l, n)
    requires forall a :: a in acts ==> a != Record(Ack(n)) && a != Record(DoomAll) && !a.CopyFile?
    ensures !Live(ApplyAll(s, acts).l, n)
  {
    if acts != [] {
      var front := acts[..|acts| - 1];
      assert forall a :: a in front ==> a in acts;
      StaysUnacked(s, front, n);
      assert acts[|acts| - 1] in acts;
    }
  }

  /** A Create that a crash cut short, or whose local directory could not be made, may be repeated. */
  lemma CreateMayBeRepeated(cfg: Config, s: State, fd: FileDesc, dirOk: bool, cut: Option<nat>, again: bool)
    requires Good(s) && Allowed(s, ECreate(fd, dirOk))
    requires cut.Some? || ((fd.ftype == Journal || fd.ftype == Manifest) && !dirOk)
    ensures Allowed(After(cfg, s, Call(ECreate(fd, dirOk), cut)), ECreate(fd, again))
  {
    hide FdName, ParseFileDesc, Good, Absent, Live;
    ParsePrinted(fd);
    var n := FdName(fd);
    var c := Call(ECreate(fd, dirOk), cut);
    var acts := CallActs(cfg, s, c);
    assert forall a :: a in acts ==> a in EventActs(cfg, s, c.ev) || a == Crash;
    StaysUnacked(s, acts, n);
    if acts != [] {
      LastCloses(ApplyAll(s, acts[..|acts| - 1]), n);
    }
  }

  lemma LastCloses(s: State, n: string)
    ensures n !in Apply(s, Crash).l.open && n !in Apply(s, Record(CloseWriter(n))).l.open
  {
  }

  // ---------- reading ----------

  /** Where the invariant holds, a successful Open returns bytes that extend what was acknowledged and are a prefix of
      what was written. */
  lemma OpenBetween(s: State, n: string, getOk: bool, readOk: bool)
    ensures Good(s) && OpenOutcome(s, n, getOk, readOk).Opened? ==>
            s.l.Between(n, OpenOutcome(s, n, getOk, readOk).data)
    ensures Good(s) && Live(s.l, n) && getOk && !s.c.closed ==> OpenOutcome(s, n, getOk, readOk).Opened?
  {
    hide ParseFileDesc, FdName;
    if Good(s) {
      assert forall p :: n in s.d.At(p) ==> s.l.Between(n, s.d.At(p)[n]);
      assert n in s.d.lru ==> n in s.d.At(Lru);
      assert n in s.d.files ==> n in s.d.At(S3);
      assert n in s.d.pending ==> n in s.d.At(Pending);
    }
  }

  /** In every reachable state a successful Open returns bytes that extend what was acknowledged and are a prefix of
      what was written, whether they come from the LRU entry, from S3 or from the pending file. */
  lemma ReadSandwich(cfg: Config, h: seq<Call>, n: string, getOk: bool, readOk: bool)
    requires Disciplined(cfg, EMPTY, h)
    ensures
      var s := Play(cfg, EMPTY, h);
      var r := OpenOutcome(s, n, getOk, readOk);
      && (r.Opened? ==> s.l.Between(n, r.data))
      && (Live(s.l, n) && getOk && !s.c.closed ==> r.Opened?)
      && (n !in s.l.written ==> r.NotOpened?)
  {
    hide ParseFileDesc, FdName, Disciplined, Good, Live;
    EmptyGood();
    PlayGood(cfg, EMPTY, h);
    OpenBetween(Play(cfg, EMPTY, h), n, getOk, readOk);
  }

  // ---------- removing ----------

  predicate NeverMade(h: seq<Call>, n: string) {
    forall i :: 0 <= i < |h| ==> DoesNotMake(h[i], n)
  }

  lemma {:induction false} StaysGone(cfg: Config, s: State, h: seq<Call>, n: string)
    requires n !in s.l.written && NeverMade(h, n)
    ensures n !in Play(cfg, s, h).l.written
    decreases |h|
  {
    if h != [] {
      CallSteps(cfg, s, h[0], n);
      StepsKeepGone(s, CallActs(cfg, s, h[0]), n);
      StaysGone(cfg, After(cfg, s, h[0]), h[1..], n);
    }
  }

  lemma UnrecordedIsAbsent(s: State, n: string)
    requires Good(s) && n !in s.l.written
    ensures Absent(s.d, n)
  {
    hide ParseFileDesc, FdName;
    forall p ensures n !in s.d.At(p) {
      assert n in s.d.At(p) ==> s.l.Between(n, s.d.At(p)[n]);
    }
    assert n !in s.d.At(S3) && n !in s.d.At(Shadow) && n !in s.d.At(Pending) && n !in s.d.At(Local)
        && n !in s.d.At(Lru);
  }

  /** No resurrection. Once Remove has returned nil the file is in none of the stores, and no retry, crash, recovery or
      other call brings it back until the name is created again or renamed to. */
  lemma NoResurrection(cfg: Config, s: State, fd: FileDesc, h: seq<Call>)
    requires Good(s) && Allowed(s, ERemove(fd, Done)) && !s.c.closed && !s.c.lost
    requires Disciplined(cfg, After(cfg, s, Call(ERemove(fd, Done), None)), h) && NeverMade(h, FdName(fd))
    ensures
      var t := After(cfg, s, Call(ERemove(fd, Done), None));
      && Absent(t.d, FdName(fd)) && FdName(fd) !in t.l.written
      && Absent(Play(cfg, t, h).d, FdName(fd))
  {
    hide ParseFileDesc, FdName, Good, Disciplined, Absent;
    var n := FdName(fd);
    var c := Call(ERemove(fd, Done), None);
    RemoveSafe(s, n, Done);
    CallSafe(cfg, s, c);
    var t := After(cfg, s, c);
    RemoveForgets(s, n);
    StaysGone(cfg, t, h, n);
    PlayGood(cfg, t, h);
    UnrecordedIsAbsent(Play(cfg, t, h), n);
  }

  /** What a Remove that returns nil leaves: no copy and no record. */
  lemma RemoveOutcome(cfg: Config, s: State, fd: FileDesc, del: Outcome)
    ensures
      Good(s) && Allowed(s, ERemove(fd, del)) && !s.c.closed && !s.c.lost && del.Done? ==>
        var t := After(cfg, s, Call(ERemove(fd, del), None));
        Absent(t.d, FdName(fd)) && FdName(fd) !in t.l.written
  {
    hide ParseFileDesc, FdName, Good, Absent;
    if Good(s) && Allowed(s, ERemove(fd, del)) && !s.c.closed && !s.c.lost && del.Done? {
      RemoveSafe(s, FdName(fd), del);
      RemoveForgets(s, FdName(fd));
    }
  }

  lemma RemoveForgets(s: State, n: string)
    requires !s.c.closed && !s.c.lost
    ensures n !in ApplyAll(s, RemoveActs(s, n, Done)).l.written
  {
    hide CachedName, RemoveActs, RemoveDeletes, ApplyAll, Effect;
    RemoveShape(s, n, Done);
    ApplyAllSnoc(s, [Record(Doom(n))] + RemoveDeletes(n, Done), Record(Forget(n)));
  }

  /** n is unrecorded, or what was acknowledged for it still binds every copy. */
  predicate StillBound(s: State, n: string, a: Bytes) {
    n in s.l.written ==> n in s.l.acked && a <= s.l.acked[n]
  }

  lemma StepKeepsBound(s: State, x: Action, n: string, a: Bytes)
    requires Inv(s) && StillBound(s, n, a) && !Introduces(x, n)
    ensures StillBound(Apply(s, x), n, a)
  {
  }

  lemma {:induction false} StepsKeepBound(s: State, acts: seq<Action>, n: string, a: Bytes)
    requires Inv(s) && Guarded(s, acts) && StillBound(s, n, a)
    requires forall x :: x in acts ==> !Introduces(x, n)
    ensures StillBound(ApplyAll(s, acts), n, a)
  {
    if acts != [] {
      var front := acts[..|acts| - 1];
      StepsKeepBound(s, front, n, a);
      GuardedKeepsInv(s, front, |front|);
      assert front[..|front|] == front;
      StepKeepsBound(ApplyAll(s, front), acts[|acts| - 1], n, a);
    }
  }

  lemma {:induction false} PlayKeepsBound(cfg: Config, s: State, h: seq<Call>, n: string, a: Bytes)
    requires Good(s) && Disciplined(cfg, s, h) && StillBound(s, n, a) && NeverMade(h, n)
    ensures Good(Play(cfg, s, h)) && StillBound(Play(cfg, s, h), n, a)
    decreases |h|
  {
    if h != [] {
      CallSafe(cfg, s, h[0]);
      CallSteps(cfg, s, h[0], n);
      StepsKeepBound(s, CallActs(cfg, s, h[0]), n, a);
      PlayKeepsBound(cfg, After(cfg, s, h[0]), h[1..], n, a);
    }
  }

  /** Remove is crash-atomic. Cut it anywhere, or let its S3 delete fail, and go on with any history, recoveries
      included: as long as the name is not made anew, the file is gone or every copy of it extends the
      acknowledged bytes. */
  lemma RemoveAtomic(cfg: Config, s: State, fd: FileDesc, e: Outcome, cut: Option<nat>, h: seq<Call>)
    requires Good(s) && Allowed(s, ERemove(fd, e)) && FdName(fd) in s.l.acked
    requires Disciplined(cfg, After(cfg, s, Call(ERemove(fd, e), cut)), h) && NeverMade(h, FdName(fd))
    ensures
      var t := Play(cfg, After(cfg, s, Call(ERemove(fd, e), cut)), h);
      Absent(t.d, FdName(fd)) || EveryCopyExtends(t, FdName(fd), s.l.acked[FdName(fd)])
  {
    hide ParseFileDesc, FdName, Disciplined, EventActs;
    var n := FdName(fd);
    var c := Call(ERemove(fd, e), cut);
    var whole := [c] + h;
    assert whole[1..] == h && whole[0] == c;
    assert Disciplined(cfg, s, whole) by { DisciplinedCons(cfg, s, c, h); }
    assert forall i :: 0 <= i < |whole| ==> whole[i] == c || whole[i] in h;
    PlayKeepsBound(cfg, s, whole, n, s.l.acked[n]);
    var t := Play(cfg, s, whole);
    if n in t.l.written {
      AckedCopies(t, n, s.l.acked[n]);
    } else {
      UnrecordedIsAbsent(t, n);
    }
  }

  lemma DisciplinedCons(cfg: Config, s: State, c: Call, h: seq<Call>)
    requires Allowed(s, c.ev) && Disciplined(cfg, After(cfg, s, c), h)
    ensures Disciplined(cfg, s, [c] + h)
  {
    assert ([c] + h)[1..] == h;
  }

  // ---------- renaming ----------

  /** Who answers for the acknowledged bytes of the old file after a rename was cut or ended: the new name as soon as
      the S3 copy was reported done, the old name before that. */
  lemma RenameHandsOver(cfg: Config, s: State, o: FileDesc, n: FileDesc, e: RenameEnv, cut: Option<nat>)
    requires Good(s) && Allowed(s, ERename(o, n, e)) && Live(s.l, FdName(o))
    ensures
      var c := Call(ERename(o, n, e), cut);
      var t := After(cfg, s, c);
      var copied := !s.c.closed && !s.c.lost && e.copy.Done? && (cut.Some? ==> cut.value >= 1);
      if copied then Live(t.l, FdName(n)) && t.l.acked[FdName(n)] == s.l.acked[FdName(o)]
      else Live(t.l, FdName(o)) && t.l.acked[FdName(o)] == s.l.acked[FdName(o)]
  {
    hide ParseFileDesc, Sandwiched, NamesOk, FdName, CachedName, RenameActs, ApplyAll, Fresh;
    var from, to := FdName(o), FdName(n);
    var done := CallActs(cfg, s, Call(ERename(o, n, e), cut));
    if s.c.closed || s.c.lost || e.copy.Failed? || (cut.Some? && cut.value == 0) {
      NotCopiedSteps(cfg, s, from, to, e, cut);
      var acts := RenameActs(cfg, s, from, to, e);
      var kept := match cut case None => acts case Some(k) => acts[..if k < |acts| then k else |acts|];
      var crash := if cut.Some? then [Crash] else [];
      assert done == kept + crash;
      RenameNotCopied(s, from, to, kept, crash);
    } else {
      assert from in s.d.files;
      CopyComesFirst(cfg, s, o, n, e, cut);
      CopyHandsOver(s, from, to, done);
    }
  }

  /** A rename whose copy is reported done copies first and records nothing about the new name after that. */
  lemma CopyComesFirst(cfg: Config, s: State, o: FileDesc, n: FileDesc, e: RenameEnv, cut: Option<nat>)
    requires !s.c.closed && !s.c.lost && e.copy.Done? && (cut.Some? ==> cut.value >= 1) && FdName(o) in s.d.files
    ensures
      var done := CallActs(cfg, s, Call(ERename(o, n, e), cut));
      && done != [] && done[0] == CopyFile(FdName(o), FdName(n))
      && forall a :: a in done[1..] ==> Quiet(a) || a == Record(Forget(FdName(o)))
  {
    hide FdName, ApplyAll, Absent, RenameTail, Quiet;
    var from, to := FdName(o), FdName(n);
    RenameTailQuiet(cfg, s, from, to, e);
    CrashIsQuiet();
    var acts := RenameActs(cfg, s, from, to, e);
    var done := CallActs(cfg, s, Call(ERename(o, n, e), cut));
    assert forall a :: a in acts[1..] ==> a in RenameTail(cfg, s, from, to, e) || a == Record(Forget(from));
    assert forall a :: a in done[1..] ==> a == Crash || a in acts[1..];
  }

  lemma CrashIsQuiet()
    ensures Quiet(Crash)
  {
  }

  lemma CopyHandsOver(s: State, o: string, n: string, done: seq<Action>)
    requires Inv(s) && Live(s.l, o) && o != n && o in s.d.files
    requires done != [] && done[0] == CopyFile(o, n)
    requires forall a :: a in done[1..] ==> Quiet(a) || a == Record(Forget(o))
    ensures var t := ApplyAll(s, done); Live(t.l, n) && t.l.acked[n] == s.l.acked[o]
  {
    hide Sandwiched, Quiet, ApplyAll;
    var rest := done[1..];
    assert done == [done[0]] + rest;
    ApplyAllConcat(s, [done[0]], rest);
    GuardedOne(s, done[0]);
    StepsKeepAckOf(Apply(s, done[0]), rest, n);
  }

  /** Steps that record nothing about n leave its acknowledgement as it is. */
  lemma {:induction false} StepsKeepAckOf(s: State, acts: seq<Action>, n: string)
    requires forall a :: a in acts ==> Quiet(a) || (a.Record? && a.note.Forget? && a.note.name != n)
    ensures Live(ApplyAll(s, acts).l, n) == Live(s.l, n)
    ensures n in s.l.acked ==> n in ApplyAll(s, acts).l.acked && ApplyAll(s, acts).l.acked[n] == s.l.acked[n]
  {
    if acts != [] {
      var front := acts[..|acts| - 1];
      assert forall a :: a in front ==> a in acts;
      StepsKeepAckOf(s, front, n);
      assert acts[|acts| - 1] in acts;
    }
  }

  lemma NotCopiedSteps(cfg: Config, s: State, o: string, n: string, e: RenameEnv, cut: Option<nat>)
    requires s.c.closed || s.c.lost || e.copy.Failed? || cut == Some(0)
    ensures
      var acts := RenameActs(cfg, s, o, n, e);
      var kept := match cut case None => acts case Some(k) => acts[..if k < |acts| then k else |acts|];
      kept == [] || kept == [CopyOrphan(o, n)]
  {
    hide RenameTail, Absent;
  }

  /** A copy that was reported as failed leaves the old file's record alone. */
  lemma RenameNotCopied(s: State, o: string, n: string, kept: seq<Action>, crash: seq<Action>)
    requires Good(s) && o != n && Live(s.l, o)
    requires kept == [] || kept == [CopyOrphan(o, n)]
    requires crash == [] || crash == [Crash]
    ensures Live(ApplyAll(s, kept + crash).l, o) && ApplyAll(s, kept + crash).l.acked[o] == s.l.acked[o]
  {
    hide ParseFileDesc, NamesOk, Sandwiched;
    ApplyAllConcat(s, kept, crash);
    GuardedOne(s, CopyOrphan(o, n));
    GuardedOne(ApplyAll(s, kept), Crash);
  }

  /** The name that answers for the old file's bytes after a rename was cut or ended. */
  function Keeper(s: State, o: FileDesc, n: FileDesc, e: RenameEnv, cut: Option<nat>): string {
    FdName(if !s.c.closed && !s.c.lost && e.copy.Done? && (cut.Some? ==> cut.value >= 1) then n else o)
  }

  /** Rename is crash-atomic. Stop it after any step, or let it fail anywhere, and go on with any history that spares
      the name that answers for the file then: S3 holds an object under it that extends the bytes acknowledged under the
      old name. */
  lemma RenameAtomic(cfg: Config, s: State, o: FileDesc, n: FileDesc, e: RenameEnv, cut: Option<nat>, h: seq<Call>)
    requires Good(s) && Allowed(s, ERename(o, n, e)) && Live(s.l, FdName(o))
    requires Disciplined(cfg, After(cfg, s, Call(ERename(o, n, e), cut)), h)
    requires SparedThroughout(cfg, After(cfg, s, Call(ERename(o, n, e), cut)), h, Keeper(s, o, n, e, cut))
    ensures
      var t := Play(cfg, After(cfg, s, Call(ERename(o, n, e), cut)), h);
      var keeper := Keeper(s, o, n, e, cut);
      keeper in t.d.files && s.l.acked[FdName(o)] <= t.d.files[keeper]
  {
    hide ParseFileDesc, FdName, Disciplined, SparedThroughout, Good, Allowed, Play, After;
    var c := Call(ERename(o, n, e), cut);
    var t := After(cfg, s, c);
    CallSafe(cfg, s, c);
    RenameHandsOver(cfg, s, o, n, e, cut);
    var keeper := Keeper(s, o, n, e, cut);
    AckSurvives(cfg, t, h, keeper);
    AckedCopies(Play(cfg, t, h), keeper, s.l.acked[FdName(o)]);
  }
}
