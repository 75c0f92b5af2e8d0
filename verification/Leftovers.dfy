/** Copies that outlive their file: what a wipe, a failed deletion and a rename leave behind, and what recovery and the
    retry pass make of it. */
module Leftovers {
  import opened Scan
  import opened Names
  import opened Store
  import opened Programs
  import opened Guards
  import opened PendingDir
  import opened Recovery
  import opened Durability
  import opened Cleanup
  import opened Outcomes

  // ---------- after a wipe ----------

  /** Wiped files come back. removeAllOrphaned deletes neither the shadows nor, unless it lies in the local cache
      directory, what is pending; with S3 and the disk answering, the next recovery puts exactly that on S3, corrupt
      files aside. So the database stays empty if and only if there was no shadow, and nothing pending either unless the
      pending directory went too. */
  lemma WipedFilesReturn(cfg: Config, s: State, e: WipeEnv, p: PendEnv)
    requires Good(s) && !s.c.lost && !e.lostMeanwhile && e.listOk && e.rmOk && e.delCurrent == Done
    requires forall n :: e.del(n) == Done
    requires forall n :: n in s.d.files ==> ParseFileDesc(n).Some? && ParseFileDesc(n).value in e.listing
    requires Answers(ApplyAll(s, WipeActs(cfg, s, e)).d, p)
    ensures
      var t := ApplyAll(s, WipeActs(cfg, s, e));
      var u := ApplyAll(t, SyncPendingActs(cfg, t, p));
      var left := if cfg.nested then map[] else s.d.pending;
      var bad := Damaged(cfg, t.d, p.read);
      && u.d.files == (s.d.shadow + left) - bad
      && (cfg.nested ==> u.d.files == s.d.shadow)
      && (bad == {} ==> (u.d.files == map[] <==> s.d.shadow == map[] && left == map[]))
  {
    hide ApplyAll, WipeActs, SyncPendingActs, Answers, Corrupt, ParseFileDesc, FdName, Good;
    WipeClears(cfg, s, e);
    var t := ApplyAll(s, WipeActs(cfg, s, e));
    DamagedEquation(cfg, t, p);
    MapsEmpty(s.d.shadow, t.d.pending, Damaged(cfg, t.d, p.read));
    if cfg.nested {
      assert Damaged(cfg, t.d, p.read) == {};
    }
  }

  lemma MapsEmpty(shadow: map<string, Bytes>, left: map<string, Bytes>, bad: set<string>)
    ensures map[] + ((shadow + left) - bad) == (shadow + left) - bad
    ensures (shadow + left) - {} == map[] <==> shadow == map[] && left == map[]
    ensures left == map[] ==> (shadow + left) - {} == shadow
  {
    if n :| n in shadow + left {
      assert n in (shadow + left) - {};
    }
    assert forall n :: n in shadow || n in left ==> n in shadow + left;
  }

  // ---------- what steps leave alone ----------

  lemma {:induction false} PlaceKept(s: State, acts: seq<Action>, p: Place)
    requires forall a :: a in acts ==> a.Record? || (a.Do? && Elsewhere(a.io, p))
    ensures ApplyAll(s, acts).d.At(p) == s.d.At(p)
  {
    if acts != [] {
      var front, a := acts[..|acts| - 1], acts[|acts| - 1];
      assert forall x :: x in front ==> x in acts;
      PlaceKept(s, front, p);
      assert a in acts;
      if a.Do? {
        IoElsewhere(ApplyAll(s, front).d, a.io, p);
      }
    }
  }

  lemma {:induction false} SumsKept(s: State, acts: seq<Action>)
    requires forall a :: a in acts ==> a.Record? || (a.Do? && (a.io.Put? || a.io.Del?))
    ensures ApplyAll(s, acts).d.sums == s.d.sums
  {
    if acts != [] {
      var front, a := acts[..|acts| - 1], acts[|acts| - 1];
      assert forall x :: x in front ==> x in acts;
      SumsKept(s, front);
      assert a in acts;
      if a.Do? {
        OneFileSums(ApplyAll(s, front).d, a.io);
      }
    }
  }

  lemma {:induction false} LedgerKept(s: State, acts: seq<Action>)
    requires forall a :: a in acts ==> a.Do?
    ensures ApplyAll(s, acts).l == s.l && ApplyAll(s, acts).c == s.c
  {
    if acts != [] {
      var front := acts[..|acts| - 1];
      assert forall x :: x in front ==> x in acts;
      LedgerKept(s, front);
      assert acts[|acts| - 1] in acts;
    }
  }

  ghost predicate OnOthers(acts: seq<Action>, n: string) {
    forall x :: x in acts ==> exists k :: k != n && OnFile(x, k)
  }

  /** Steps on other files leave the copies of n alone. */
  lemma {:induction false} OthersKeep(s: State, acts: seq<Action>, p: Place, n: string)
    requires OnOthers(acts, n)
    ensures var t := ApplyAll(s, acts);
            (n in t.d.At(p) <==> n in s.d.At(p)) && (n in s.d.At(p) ==> t.d.At(p)[n] == s.d.At(p)[n])
  {
    if acts != [] {
      var front, a := acts[..|acts| - 1], acts[|acts| - 1];
      assert forall x :: x in front ==> x in acts;
      OthersKeep(s, front, p, n);
      assert a in acts;
      var k :| k != n && OnFile(a, k);
      OneFileEffect(ApplyAll(s, front).d, a.io, p);
    }
  }

  lemma OthersAfter(todo: seq<seq<Action>>, names: seq<string>, j: nat)
    requires Separate(todo, names) && j < |todo|
    ensures OnOthers(Flatten(todo[j + 1..]), names[j])
  {
    var after := Flatten(todo[j + 1..]);
    forall x | x in after
      ensures exists k :: k != names[j] && OnFile(x, k)
    {
      FlattenMembers(todo[j + 1..], x);
      var i :| 0 <= i < |todo[j + 1..]| && x in todo[j + 1..][i];
      assert x in todo[i + j + 1] && OnFile(x, names[i + j + 1]);
    }
  }

  // ---------- the retry pass uploads what is pending ----------

  /** The file goes by the name its descriptor prints to. */
  predicate Canonical(f: PendingFile) {
    f.name == FdName(f.fd)
  }

  lemma ListedAreCanonical(cfg: Config, d: Disk, r: ReadEnv)
    requires forall n :: n in d.pending ==> IsFileName(n)
    ensures forall f :: f in UploadList(cfg, d, r) ==> Canonical(f)
  {
    hide ParseFileDesc, FdName;
    forall f | f in UploadList(cfg, d, r)
      ensures Canonical(f)
    {
      UploadListMembers(cfg, d, r, f);
      assert IsFileName(f.name);
    }
  }

  lemma {:induction false} AttemptsOnFile(n: string, data: Bytes, failures: seq<bool>)
    ensures AllOnFile(AttemptActs(n, data, failures), n)
  {
    if failures != [] {
      AttemptsOnFile(n, data, failures[1..]);
    }
  }

  lemma RetryOnFile(f: PendingFile, e: RetryEnv)
    requires Canonical(f)
    ensures AllOnFile(RetryActs(f, e), f.name)
  {
    hide FdName;
    AttemptsOnFile(f.name, f.data, e.failures);
  }

  lemma RetryEffect(s: State, f: PendingFile, e: RetryEnv)
    requires Canonical(f) && e.success
    ensures
      var t := ApplyAll(s, RetryActs(f, e));
      f.name in t.d.files && t.d.files[f.name] == f.data && f.name !in t.d.pending
  {
    hide FdName, ApplyAll, AttemptActs;
    var n, x := f.name, f.data;
    var failed := AttemptActs(n, x, e.failures);
    var big := [Do(Put(S3, n, x)), Do(Del(Pending, n)), Do(DelSum(n)), Do(Del(Shadow, n))];
    ApplyAllConcat(s, failed, big);
    RecoverBigEffect(ApplyAll(s, failed), n, x);
  }

  lemma RetriesSeparate(fs: seq<PendingFile>, each: string -> RetryEnv)
    requires NamesDistinct(fs) && forall f :: f in fs ==> Canonical(f)
    ensures Separate(RetryLists(fs, each), seq(|fs|, i requires 0 <= i < |fs| => fs[i].name))
  {
    hide Canonical;
    var todo := RetryLists(fs, each);
    forall i | 0 <= i < |todo|
      ensures AllOnFile(todo[i], fs[i].name)
    {
      assert fs[i] in fs;
      RetryOnFile(fs[i], each(fs[i].name));
    }
  }

  /** Whatever the schedule, a file whose upload succeeds ends up on S3 with the pending bytes and is no
      longer pending. */
  lemma UploadsOne(t: State, fs: seq<PendingFile>, each: string -> RetryEnv, sched: seq<nat>, j: nat)
    requires NamesDistinct(fs) && (forall f :: f in fs ==> Canonical(f)) && j < |fs| && each(fs[j].name).success
    ensures
      var u := ApplyAll(t, Merge(RetryLists(fs, each), sched));
      var n := fs[j].name;
      n in u.d.files && u.d.files[n] == fs[j].data && n !in u.d.pending && u.l == t.l
  {
    hide Canonical, RetryActs, Merge, ApplyAll, NamesDistinct;
    assert fs[j] in fs;
    var n, todo := fs[j].name, RetryLists(fs, each);
    var names := seq(|fs|, i requires 0 <= i < |fs| => fs[i].name);
    RetriesSeparate(fs, each);
    AnyOrder(t, todo, names, sched);
    FlattenSplit(todo, j);
    OthersBefore(todo, names, j);
    OthersAfter(todo, names, j);
    var before, after := Flatten(todo[..j]), Flatten(todo[j + 1..]);
    ApplyAllConcat(t, before, todo[j]);
    ApplyAllConcat(t, before + todo[j], after);
    var v := ApplyAll(t, before + todo[j]);
    RetryEffect(ApplyAll(t, before), fs[j], each(n));
    OthersKeep(v, after, S3, n);
    OthersKeep(v, after, Pending, n);
    MergeOnDisk(todo, names, sched);
    LedgerKept(t, Merge(todo, sched));
  }

  lemma MergeOnDisk(todo: seq<seq<Action>>, names: seq<string>, sched: seq<nat>)
    requires Separate(todo, names)
    ensures forall a :: a in Merge(todo, sched) ==> a.Do?
  {
    forall a | a in Merge(todo, sched)
      ensures a.Do?
    {
      MergeMembers(todo, sched, a);
      var i :| 0 <= i < |todo| && a in todo[i];
      assert OnFile(a, names[i]);
    }
  }

  /** The pass reaches n: it runs, the directory lists n, n can be read, no checksum contradicts it, its
      upload succeeds. */
  predicate Reaches(cfg: Config, s: State, e: PassEnv, n: string) {
    && !s.c.lost && s.c.held && !s.c.closed && e.dirOk
    && n in e.read.names && n in s.d.pending && Readable(s.d, n, e.read) && !Corrupt(cfg, s.d, n, e.read)
       && e.each(n).success
  }

  /** A retry pass puts exactly the pending bytes of the files it reaches on S3. */
  lemma PassUploads(cfg: Config, s: State, e: PassEnv, n: string)
    requires Reaches(cfg, s, e, n) && NoDuplicates(e.read.names) && forall k :: k in s.d.pending ==> IsFileName(k)
    ensures
      var t := ApplyAll(s, PassActs(cfg, s, e));
      n in t.d.files && t.d.files[n] == s.d.pending[n] && n !in t.d.pending && t.l == s.l
  {
    ListedAreCanonical(cfg, s.d, e.read);
    hide ParseFileDesc, FdName, Canonical, UploadList, Merge, DropActs, ApplyAll, RetryLists, Corrupt, Readable,
         NamesDistinct;
    var fs := UploadList(cfg, s.d, e.read);
    var f := PendingFile(n, s.d.pending[n], ParseFileDesc(n).value);
    PendingSetExact(cfg, s.d, e.read, f);
    UploadListDistinct(cfg, s.d, e.read);
    var j :| 0 <= j < |fs| && fs[j] == f;
    var drops := DropActs(cfg, s.d, e.read.names, e.read);
    OnlyCorruptDropped(cfg, s, s.d, e.read.names, e.read);
    ApplyAllConcat(s, drops, Merge(RetryLists(fs, e.each), e.sched));
    UploadsOne(ApplyAll(s, drops), fs, e.each, e.sched, j);
  }

  // ---------- when a deletion has no effect ----------

  /** The steps of a Sync that is acknowledged while the deletion of the pending file or of the shadow has no effect;
      the code ignores the errors of both. */
  function LeakySyncActs(s: State, n: string, keepPending: bool, keepShadow: bool): seq<Action>
    requires n in s.l.written
  {
    MirrorActs(s, n) + LeakyActs(n, s.l.written[n], keepPending, keepShadow) + [Record(Ack(n))]
  }

  function LeakyActs(n: string, data: Bytes, keepPending: bool, keepShadow: bool): seq<Action> {
    [Do(Put(S3, n, data))]
    + (if keepPending then [] else [Do(Del(Pending, n)), Do(DelSum(n))])
    + (if keepShadow then [] else [Do(Del(Shadow, n))])
    + [Do(Put(Lru, n, data))]
  }

  /** With both deletions effective these are the steps of the modelled Sync. */
  lemma NoLeak(cfg: Config, s: State, n: string, e: SyncEnv)
    requires n in s.l.written && SyncOk(cfg, s, n, e)
    ensures LeakySyncActs(s, n, false, false) == SyncActs(cfg, s, n, e)
  {
    hide CachedName, TooLarge;
  }

  /** The upload fails, but is persisted with checksum and shadow backup. */
  predicate FailsPersisted(e: SyncEnv) {
    e.localOk && e.up.put.Failed? && e.up.persist == PersistEnv(true, SumDone, Done)
  }

  /** The run: a Sync fails and persists what was written, more is written, and the next Sync is acknowledged with a
      deletion that had no effect. */
  function StaleRun(cfg: Config, s: State, n: string, x: Bytes, e: SyncEnv, keepPending: bool, keepShadow: bool)
    : (t: State)
    requires n in s.l.written
  {
    var s1 := ApplyAll(s, SyncActs(cfg, s, n, e));
    if n !in s1.l.written then s1
    else
      var s2 := ApplyAll(s1, WriteActs(s1, n, x, true));
      if n !in s2.l.written then s2 else ApplyAll(s2, LeakySyncActs(s2, n, keepPending, keepShadow))
  }

  lemma FailedSync(cfg: Config, s: State, n: string, e: SyncEnv)
    requires Good(s) && n in s.l.written && !s.c.lost && !TooLarge(cfg, n, s.l.written[n]) && FailsPersisted(e)
    ensures
      var t := ApplyAll(s, SyncActs(cfg, s, n, e));
      var b := s.l.written[n];
      && t.l == s.l && t.c == s.c
      && n in t.d.pending && t.d.pending[n] == b && n in t.d.shadow && t.d.shadow[n] == b
      && n in t.d.sums && t.d.sums[n] == SumText(cfg, b)
  {
    hide CachedName, TooLarge, SumText, ApplyAll, Good;
    var b := s.l.written[n];
    var front := MirrorActs(s, n) + Effect(e.up.put, Do(Put(S3, n, b)));
    var persist := PersistActs(cfg, n, b, e.up.persist);
    assert SyncActs(cfg, s, n, e) == front + persist;
    ApplyAllConcat(s, front, persist);
    var t := ApplyAll(s, front);
    LedgerKept(s, front + persist);
    PersistEffect(cfg, t, n, b, e.up.persist);
    PersistShadow(cfg, t, n, b, e.up.persist);
  }

  lemma LeakySync(s: State, n: string, keepPending: bool, keepShadow: bool)
    requires n in s.l.written
    ensures
      var t := ApplyAll(s, LeakySyncActs(s, n, keepPending, keepShadow));
      && t.l == ApplyNote(s.l, Ack(n)) && t.c == s.c && n in t.d.files && t.d.files[n] == s.l.written[n]
      && (keepPending ==> t.d.pending == s.d.pending && t.d.sums == s.d.sums)
      && (!keepPending ==> n !in t.d.pending)
      && (keepShadow ==> t.d.shadow == s.d.shadow)
  {
    hide CachedName, ApplyAll;
    var data := s.l.written[n];
    var front, leaky := MirrorActs(s, n), LeakyActs(n, data, keepPending, keepShadow);
    ApplyAllSnoc(s, front + leaky, Record(Ack(n)));
    LedgerKept(s, front + leaky);
    LeakyKeeps(s, front + leaky, keepPending, keepShadow);
    ApplyAllConcat(s, front, leaky);
    LeakyFiles(ApplyAll(s, front), n, data, keepPending, keepShadow);
  }

  lemma LeakyKeeps(s: State, acts: seq<Action>, keepPending: bool, keepShadow: bool)
    requires forall a :: a in acts ==> a.Do? && (keepShadow ==> Elsewhere(a.io, Shadow))
    requires forall a :: a in acts && keepPending ==> Elsewhere(a.io, Pending) && (a.io.Put? || a.io.Del?)
    ensures
      var t := ApplyAll(s, acts);
      && (keepPending ==> t.d.pending == s.d.pending && t.d.sums == s.d.sums)
      && (keepShadow ==> t.d.shadow == s.d.shadow)
  {
    hide ApplyAll, Elsewhere;
    var t := ApplyAll(s, acts);
    assert t.d.shadow == t.d.At(Shadow) && t.d.pending == t.d.At(Pending);
    assert s.d.shadow == s.d.At(Shadow) && s.d.pending == s.d.At(Pending);
    if keepPending {
      PlaceKept(s, acts, Pending);
      SumsKept(s, acts);
    }
    if keepShadow {
      PlaceKept(s, acts, Shadow);
    }
  }

  lemma LeakyFiles(s: State, n: string, data: Bytes, keepPending: bool, keepShadow: bool)
    ensures
      var t := ApplyAll(s, LeakyActs(n, data, keepPending, keepShadow));
      n in t.d.files && t.d.files[n] == data && (!keepPending ==> n !in t.d.pending)
  {
    hide ApplyAll;
    var put := [Do(Put(S3, n, data))];
    var dels := if keepPending then [] else [Do(Del(Pending, n)), Do(DelSum(n))];
    var rest := (if keepShadow then [] else [Do(Del(Shadow, n))]) + [Do(Put(Lru, n, data))];
    assert LeakyActs(n, data, keepPending, keepShadow) == put + (dels + rest);
    UploadOne(s, n, data);
    var t := ApplyAll(s, put);
    ApplyAllConcat(s, put, dels + rest);
    PlaceKept(t, dels + rest, S3);
    var u := ApplyAll(t, dels + rest);
    assert u.d.files == u.d.At(S3) && t.d.files == t.d.At(S3);
    if !keepPending {
      ApplyTwo(t, dels[0], dels[1]);
      ApplyAllConcat(t, dels, rest);
      PlaceKept(ApplyAll(t, dels), rest, Pending);
      assert u.d.pending == u.d.At(Pending) && ApplyAll(t, dels).d.pending == ApplyAll(t, dels).d.At(Pending);
    }
  }

  /** What the run leaves: everything acknowledged and on S3, and the older bytes where the deletion had no effect. */
  lemma StaleRunEnds(cfg: Config, s: State, n: string, x: Bytes, e: SyncEnv, keepPending: bool, keepShadow: bool)
    requires Good(s) && n in s.l.written && !s.c.lost && !TooLarge(cfg, n, s.l.written[n]) && FailsPersisted(e)
    ensures
      var t := StaleRun(cfg, s, n, x, e, keepPending, keepShadow);
      var b := s.l.written[n];
      && t.c == s.c && t.l.Acked(n) == b + x && n in t.d.files && t.d.files[n] == b + x
      && (keepPending ==> n in t.d.pending && t.d.pending[n] == b && n in t.d.sums && t.d.sums[n] == SumText(cfg, b))
      && (!keepPending ==> n !in t.d.pending)
      && (keepShadow ==> n in t.d.shadow && t.d.shadow[n] == b)
  {
    hide CachedName, TooLarge, SumText, ApplyAll, SyncActs, LeakySyncActs, Good;
    FailedSync(cfg, s, n, e);
    var s1 := ApplyAll(s, SyncActs(cfg, s, n, e));
    var write := WriteActs(s1, n, x, true);
    WriteRecords(cfg, s1, n, x);
    var s2 := ApplyAll(s1, write);
    PlaceKept(s1, write, Pending);
    PlaceKept(s1, write, Shadow);
    SumsKept(s1, write);
    assert s2.d.pending == s2.d.At(Pending) && s1.d.pending == s1.d.At(Pending);
    assert s2.d.shadow == s2.d.At(Shadow) && s1.d.shadow == s1.d.At(Shadow);
    LeakySync(s2, n, keepPending, keepShadow);
  }

  /** If the pending file stays behind, the next retry pass that reaches it replaces the acknowledged bytes by the older
      ones: for every strict prefix, that is, for every x but the empty one, acknowledged bytes are lost. */
  lemma StalePendingLoses(cfg: Config, s: State, n: string, x: Bytes, e: SyncEnv, keepShadow: bool, pass: PassEnv)
    requires Good(s) && n in s.l.written && !s.c.lost && !TooLarge(cfg, n, s.l.written[n]) && FailsPersisted(e)
    requires var t := StaleRun(cfg, s, n, x, e, true, keepShadow);
             && t.c.held && !t.c.closed && pass.dirOk && pass.each(n).success
             && n in pass.read.names && pass.read.fileOk(n) && NoDuplicates(pass.read.names)
             && forall k :: k in t.d.pending ==> IsFileName(k)
    ensures
      var t := StaleRun(cfg, s, n, x, e, true, keepShadow);
      var u := ApplyAll(t, PassActs(cfg, t, pass));
      && u.l.Acked(n) == s.l.written[n] + x && n in u.d.files && u.d.files[n] == s.l.written[n]
      && (u.l.Acked(n) <= u.d.files[n] <==> x == [])
  {
    hide ApplyAll, StaleRun, PassActs, SumText, TrimSpace, ParseFileDesc, FdName, TooLarge, FailsPersisted, Good;
    StaleRunEnds(cfg, s, n, x, e, true, keepShadow);
    var t := StaleRun(cfg, s, n, x, e, true, keepShadow);
    assert IsFileName(n);
    PrintedIsPlainName(n);
    SumTextTrimmed(cfg, s.l.written[n]);
    PassUploads(cfg, t, pass, n);
  }

  lemma PrintedIsPlainName(n: string)
    requires IsFileName(n)
    ensures !IsSidecar(n)
  {
    PrintedIsPlain(ParseFileDesc(n).value);
  }

  /** If the shadow stays behind, the next recovery pulls it and does the same. */
  lemma StaleShadowLoses(cfg: Config, s: State, n: string, x: Bytes, e: SyncEnv, p: PendEnv)
    requires Good(s) && n in s.l.written && !s.c.lost && !TooLarge(cfg, n, s.l.written[n]) && FailsPersisted(e)
    requires Answers(StaleRun(cfg, s, n, x, e, false, true).d, p)
    ensures
      var t := StaleRun(cfg, s, n, x, e, false, true);
      var u := ApplyAll(t, SyncPendingActs(cfg, t, p));
      && u.l.Acked(n) == s.l.written[n] + x && n in u.d.files && u.d.files[n] == s.l.written[n]
      && (u.l.Acked(n) <= u.d.files[n] <==> x == [])
  {
    hide ApplyAll, StaleRun, SyncPendingActs, Answers, TooLarge, FailsPersisted, Good, Corrupt;
    StaleRunEnds(cfg, s, n, x, e, false, true);
    var t := StaleRun(cfg, s, n, x, e, false, true);
    DamagedEquation(cfg, t, p);
    assert n !in Damaged(cfg, t.d, p.read);
  }

  // ---------- the shadow a rename leaves behind ----------

  /** A shadow without a pending file stays under the old name in a rename, and the next recovery uploads it there. */
  lemma RenamedComesBack(cfg: Config, s: State, o: string, n: string, e: RenameEnv, p: PendEnv)
    requires Smooth(e) && Good(s) && MayRename(s, o, n) && o in s.d.files && !s.c.closed && !s.c.lost
    requires o in s.d.shadow && o !in s.d.pending
    requires Answers(ApplyAll(s, RenameActs(cfg, s, o, n, e)).d, p)
    ensures
      var t := ApplyAll(s, RenameActs(cfg, s, o, n, e));
      var u := ApplyAll(t, SyncPendingActs(cfg, t, p));
      o !in t.d.files && o in u.d.files && u.d.files[o] == s.d.shadow[o]
  {
    hide ApplyAll, RenameActs, SyncPendingActs, Answers, Corrupt, Good, MayRename, CachedName;
    RenameMovesAll(cfg, s, o, n, e);
    var t := ApplyAll(s, RenameActs(cfg, s, o, n, e));
    DamagedEquation(cfg, t, p);
    assert o !in Damaged(cfg, t.d, p.read);
  }

  // ---------- a rewrite that fails half-way ----------

  lemma PutLands(s: State, p: Place, n: string, x: Bytes)
    ensures var t := ApplyAll(s, [Do(Put(p, n, x))]); t.d.At(p) == s.d.At(p)[n := x]
  {
    GuardedOne(s, Do(Put(p, n, x)));
  }

  predicate OffPending(a: Action) {
    a.Do? && Elsewhere(a.io, Pending) && (a.io.Put? || a.io.Del?)
  }

  predicate OffLocal(a: Action) {
    a.Do? && Elsewhere(a.io, Local)
  }

  lemma LruKinds(s: State, o: string, n: string, e: RenameEnv)
    requires o in s.d.files
    ensures forall a :: a in RenameLruActs(s, o, n, e) + RenameDeleteActs(o, e) ==> OffPending(a) && OffLocal(a)
  {
  }

  lemma LocalKinds(s: State, o: string, n: string, e: RenameEnv)
    ensures forall a :: a in RenameLocalActs(s, o, n, e) ==> OffPending(a)
  {
    hide CachedName;
  }

  lemma PendingKinds(cfg: Config, s: State, o: string, n: string, e: RenameEnv)
    ensures forall a :: a in RenamePendingActs(cfg, s, o, n, e) ==> OffLocal(a)
  {
    hide SumText, SumActs;
    if o in s.d.pending {
      var x := s.d.pending[o];
      assert forall a :: a in MoveBothActs(o, n, e.moveSumOk) ==> OffLocal(a);
      assert forall a, r :: a in MoveShadowActs(o, n, x, r, e.shadow) ==> OffLocal(a);
      SumKinds(cfg, n, x, e.sum);
      assert forall a :: a in RewriteActs(cfg, o, n, x, e.sum) ==> OffLocal(a);
      hide MoveBothActs, MoveShadowActs, RewriteActs, OffLocal;
      assert forall a :: a in CopyOverActs(Pending, n, x, false, e.torn) ==> OffLocal(a) by { TornKinds(n, x, e.torn); }
    }
  }

  lemma TornKinds(n: string, x: Bytes, torn: Option<nat>)
    ensures forall a :: a in CopyOverActs(Pending, n, x, false, torn) ==> OffLocal(a)
  {
  }

  lemma SumKinds(cfg: Config, n: string, x: Bytes, w: SumWrite)
    ensures forall a :: a in SumActs(cfg, n, x, w) ==> OffLocal(a)
  {
    hide SumText;
  }

  lemma TailOnDisk(cfg: Config, s: State, o: string, n: string, e: RenameEnv)
    requires o in s.d.files
    ensures forall a :: a in RenameTail(cfg, s, o, n, e) ==> a.Do?
  {
    LruKinds(s, o, n, e);
    LocalKinds(s, o, n, e);
    PendingKinds(cfg, s, o, n, e);
    hide RenameLruActs, RenamePendingActs, RenameDeleteActs, RenameLocalActs, Elsewhere;
  }

  /** The end of a rename past the copy: only the record may change once more. */
  lemma RenameEnds(cfg: Config, s: State, o: string, n: string, e: RenameEnv)
    requires Inv(s) && MayRename(s, o, n) && RenameCopies(s, o, e)
    ensures
      var t := ApplyAll(s, RenameActs(cfg, s, o, n, e));
      t.d == ApplyAll(Apply(s, CopyFile(o, n)), RenameTail(cfg, s, o, n, e)).d && t.c == s.c
          && t.l.Acked(n) == s.l.Acked(o)
  {
    hide ApplyAll, RenameTail, Absent, CachedName, IsFileName, Inv, Fresh;
    var copy, tail := CopyFile(o, n), RenameTail(cfg, s, o, n, e);
    var t := Apply(s, copy);
    assert t.l.Acked(n) == s.l.Acked(o) && t.c == s.c by {
      AckedGoesAlong(s, o, n);
    }
    GuardedOne(s, copy);
    ApplyAllConcat(s, [copy], tail);
    TailOnDisk(cfg, s, o, n, e);
    LedgerKept(t, tail);
    var u := ApplyAll(t, tail);
    ApplyAllSnoc(s, [copy] + tail, Record(Forget(o)));
    assert [copy] + tail + [] == [copy] + tail;
    assert Apply(u, Record(Forget(o))).l.Acked(n) == u.l.Acked(n);
  }

  lemma AckedGoesAlong(s: State, o: string, n: string)
    requires o in s.d.files && o in s.l.written
    ensures var t := Apply(s, CopyFile(o, n)); t.l.Acked(n) == s.l.Acked(o) && t.c == s.c
  {
  }

  /** The torn copy stays in the pending directory. */
  lemma TornPendingStays(cfg: Config, s: State, o: string, n: string, e: RenameEnv)
    requires Inv(s) && MayRename(s, o, n) && TearsPending(s, o, e)
    ensures
      var t := ApplyAll(s, RenameActs(cfg, s, o, n, e));
      && t.d.pending == s.d.pending[n := Torn(s.d.pending[o], e.torn.value)] && t.d.sums == s.d.sums && t.c == s.c
      && t.l.Acked(n) == s.l.Acked(o)
  {
    hide ApplyAll, Inv, Fresh, CachedName, IsFileName, Absent;
    RenameEnds(cfg, s, o, n, e);
    var a := RenameLruActs(s, o, n, e);
    var b := RenameDeleteActs(o, e) + if e.del.Done? || e.delAgain.Done? then RenameLocalActs(s, o, n, e) else [];
    var torn := Torn(s.d.pending[o], e.torn.value);
    var t := Apply(s, CopyFile(o, n));
    assert RenameTail(cfg, s, o, n, e) == a + [Do(Put(Pending, n, torn))] + b;
    assert t.d.pending == s.d.pending && t.d.sums == s.d.sums;
    LruKinds(s, o, n, e);
    LocalKinds(s, o, n, e);
    hide RenameLruActs, RenameDeleteActs, RenameLocalActs, RenameActs, RenameTail, Apply, Torn;
    LandsPending(t, a, n, torn, b);
  }

  lemma LandsPending(t: State, a: seq<Action>, n: string, x: Bytes, b: seq<Action>)
    requires forall y :: y in a + b ==> OffPending(y)
    ensures
      var u := ApplyAll(t, a + [Do(Put(Pending, n, x))] + b);
      u.d.pending == t.d.pending[n := x] && u.d.sums == t.d.sums
  {
    hide ApplyAll, Elsewhere;
    assert forall y :: y in a ==> y in a + b;
    assert forall y :: y in b ==> y in a + b;
    var put := [Do(Put(Pending, n, x))];
    ApplyAllConcat(t, a, put);
    ApplyAllConcat(t, a + put, b);
    PlaceKept(t, a, Pending);
    PutLands(ApplyAll(t, a), Pending, n, x);
    PlaceKept(ApplyAll(t, a + put), b, Pending);
    SumsKept(t, a + put + b);
    var u := ApplyAll(t, a + put + b);
    assert u.d.pending == u.d.At(Pending) && t.d.pending == t.d.At(Pending);
  }

  lemma TornLocalStays(cfg: Config, s: State, o: string, n: string, e: RenameEnv)
    requires Inv(s) && MayRename(s, o, n) && TearsLocal(s, o, e)
    ensures
      var t := ApplyAll(s, RenameActs(cfg, s, o, n, e));
      && t.d.local == s.d.local[n := Torn(s.d.local[o], e.tornLocal.value)] - {o} && t.c == s.c
      && t.l.Acked(n) == s.l.Acked(o)
  {
    hide ApplyAll, Inv, Fresh, CachedName, IsFileName, Absent, SumText;
    RenameEnds(cfg, s, o, n, e);
    var a := RenameLruActs(s, o, n, e) + RenamePendingActs(cfg, s, o, n, e) + RenameDeleteActs(o, e);
    var torn := Torn(s.d.local[o], e.tornLocal.value);
    var t := Apply(s, CopyFile(o, n));
    assert RenameLocalActs(s, o, n, e) == [Do(Put(Local, n, torn)), Do(Del(Local, o))];
    assert t.d.local == s.d.local;
    LruKinds(s, o, n, e);
    PendingKinds(cfg, s, o, n, e);
    hide RenameLruActs, RenameDeleteActs, RenameLocalActs, RenamePendingActs, RenameActs, Apply, Torn;
    LandsLocal(t, a, o, n, torn);
  }

  lemma LandsLocal(t: State, a: seq<Action>, o: string, n: string, x: Bytes)
    requires forall y :: y in a ==> OffLocal(y)
    ensures ApplyAll(t, a + [Do(Put(Local, n, x)), Do(Del(Local, o))]).d.local == t.d.local[n := x] - {o}
  {
    hide ApplyAll, Elsewhere;
    var put := [Do(Put(Local, n, x)), Do(Del(Local, o))];
    ApplyAllConcat(t, a, put);
    PlaceKept(t, a, Local);
    ApplyTwo(ApplyAll(t, a), put[0], put[1]);
    var u := ApplyAll(t, a);
    assert u.d.local == u.d.At(Local) && t.d.local == t.d.At(Local);
  }

  lemma TooShort(t: State, p: Place, n: string)
    requires n in t.d.At(p) && |t.d.At(p)[n]| < |t.l.Acked(n)|
    ensures !Good(t)
  {
  }

  /** A rename keeps the invariant if and only if a rewrite of the pending or the local file that fails leaves nothing
      under the new name, or at least the acknowledged bytes. */
  lemma RenameExactly(cfg: Config, s: State, o: string, n: string, e: RenameEnv)
    requires Good(s) && MayRename(s, o, n)
    ensures Good(ApplyAll(s, RenameActs(cfg, s, o, n, e))) <==> Tidy(s, o, e)
  {
    hide ApplyAll, RenameActs, MayRename, Good, CachedName, Inv, NamesOk;
    var t := ApplyAll(s, RenameActs(cfg, s, o, n, e));
    assert Inv(s) by { GoodIsInv(s); }
    if Tidy(s, o, e) {
      RenameSafe(cfg, s, o, n, e);
      SafeKeepsGood(s, RenameActs(cfg, s, o, n, e));
    } else if TearsPending(s, o, e) && |s.l.Acked(o)| > e.torn.value {
      TornPendingStays(cfg, s, o, n, e);
      assert t.d.pending == t.d.At(Pending);
      TooShort(t, Pending, n);
    } else {
      TornLocalStays(cfg, s, o, n, e);
      assert t.d.local == t.d.At(Local) && o != n by { NamesDiffer(s, o, n); }
      TooShort(t, Local, n);
    }
  }

  lemma GoodIsInv(s: State)
    requires Good(s)
    ensures Inv(s)
  {
  }

  lemma NamesDiffer(s: State, o: string, n: string)
    requires MayRename(s, o, n)
    ensures o != n
  {
  }

  /** The next retry pass that reaches the torn pending file puts it on S3 in place of the whole one. */
  lemma TornPendingLoses(cfg: Config, s: State, o: string, n: string, e: RenameEnv, pass: PassEnv)
    requires Good(s) && MayRename(s, o, n) && TearsPending(s, o, e)
    requires s.c.held && pass.dirOk && n in pass.read.names && NoDuplicates(pass.read.names)
    requires pass.read.fileOk(n) && pass.each(n).success
    ensures
      var t := ApplyAll(s, RenameActs(cfg, s, o, n, e));
      var u := ApplyAll(t, PassActs(cfg, t, pass));
      && n in u.d.files && u.d.files[n] == Torn(s.d.pending[o], e.torn.value) && u.l.Acked(n) == s.l.Acked(o)
      && (u.l.Acked(n) <= u.d.files[n] <==> |s.l.Acked(o)| <= e.torn.value)
  {
    hide ApplyAll, RenameActs, PassActs, ParseFileDesc, FdName, CachedName, SumText, TrimSpace;
    assert IsFileName(n) && n !in s.d.sums && s.l.Between(o, s.d.At(Pending)[o]);
    PendingNames(s);
    hide Good, MayRename, IsFileName;
    GoodIsInv(s);
    TornPendingStays(cfg, s, o, n, e);
    PrintedIsPlainName(n);
    var t := ApplyAll(s, RenameActs(cfg, s, o, n, e));
    PassUploads(cfg, t, pass, n);
  }

  lemma PendingNames(s: State)
    requires Good(s)
    ensures forall k :: k in s.d.pending ==> IsFileName(k)
  {
    hide IsFileName, CachedName;
    forall k | k in s.d.pending
      ensures IsFileName(k)
    {
      assert k in s.d.At(Pending) && s.l.Between(k, s.d.At(Pending)[k]);
    }
  }

  /** The next recovery uploads the torn local file in place of the whole one. */
  lemma TornLocalLoses(cfg: Config, s: State, o: string, n: string, e: RenameEnv, local: LocalEnv)
    requires Good(s) && MayRename(s, o, n) && TearsLocal(s, o, e)
    requires local.dirOk && n in local.names && local.readOk(n) && forall k :: local.put(k) == Done
    ensures
      var t := ApplyAll(s, RenameActs(cfg, s, o, n, e));
      var u := ApplyAll(t, LocalSyncActs(t, local));
      && n in u.d.files && u.d.files[n] == Torn(s.d.local[o], e.tornLocal.value) && u.l.Acked(n) == s.l.Acked(o)
      && (u.l.Acked(n) <= u.d.files[n] <==> |s.l.Acked(o)| <= e.tornLocal.value)
  {
    hide ApplyAll, RenameActs, LocalActs, ParseFileDesc, FdName, CachedName;
    assert s.l.Between(o, s.d.At(Local)[o]) && IsFileName(n);
    NamesDiffer(s, o, n);
    PrintedIsPlain(ParseFileDesc(n).value);
    hide Good, MayRename, IsFileName;
    GoodIsInv(s);
    TornLocalStays(cfg, s, o, n, e);
    var t := ApplyAll(s, RenameActs(cfg, s, o, n, e));
    LocalEffect(t, t.d, local.names, local);
  }

  lemma {:induction false} StaysAbsent(s: State, acts: seq<Action>, n: string, k: string)
    requires k != n && Absent(s.d, k) && forall a :: a in acts ==> a.Record? || OnFile(a, n)
    ensures Absent(ApplyAll(s, acts).d, k)
  {
    if acts != [] {
      var front, a := acts[..|acts| - 1], acts[|acts| - 1];
      assert forall x :: x in front ==> x in acts;
      StaysAbsent(s, front, n, k);
      assert a in acts;
      if a.Do? {
        AbsentStep(ApplyAll(s, front).d, a, n, k);
      }
    }
  }

  lemma AbsentStep(d: Disk, a: Action, n: string, k: string)
    requires k != n && Absent(d, k) && OnFile(a, n)
    ensures Absent(ApplyIo(d, a.io), k)
  {
    AbsentAt(d, k);
    hide ApplyIo, Absent;
    forall p
      ensures k !in ApplyIo(d, a.io).At(p)
    {
      OneFileEffect(d, a.io, p);
    }
    OneFileSums(d, a.io);
    AbsentAt(ApplyIo(d, a.io), k);
  }

  lemma AbsentAt(d: Disk, k: string)
    ensures Absent(d, k) <==> (forall p :: k !in d.At(p)) && k !in d.sums
  {
    if forall p :: k !in d.At(p) {
      assert k !in d.At(S3) && k !in d.At(Shadow) && k !in d.At(Pending) && k !in d.At(Local) && k !in d.At(Lru);
    }
  }

  /** Such a state is reachable: from any state with an acknowledged file that is being written, a Close whose upload
      fails but is persisted, and the loss of the machine. */
  lemma ShadowWithoutPending(cfg: Config, s: State, n: string, e: SyncEnv, k: string)
    requires Good(s) && Live(s.l, n) && n in s.l.open && !s.c.lost && !TooLarge(cfg, n, s.l.written[n])
             && FailsPersisted(e)
    requires k != n && Fresh(s, k) && k !in s.l.open && IsFileName(k) && CachedName(n) == CachedName(k)
    ensures
      var h := [Call(EClose(n, e), None), Call(EMachineLost, None)];
      var t := Play(cfg, s, h);
      && Disciplined(cfg, s, h) && Good(t) && MayRename(t, n, k) && !t.c.closed && !t.c.lost
      && n in t.d.files && n in t.d.shadow && n !in t.d.pending && n !in t.d.sums
  {
    hide ParseFileDesc, FdName, CachedName, TooLarge, SumText, ApplyAll, Good, SyncActs, Live, Absent;
    var a, b := Call(EClose(n, e), None), Call(EMachineLost, None);
    var s0 := Apply(s, Record(CloseWriter(n)));
    var u := After(cfg, s, a);
    var t := After(cfg, u, b);
    PlayTwo(cfg, s, a, b);
    CallSafe(cfg, s, a);
    CallSafe(cfg, u, b);
    ClosedAfterFailure(cfg, s, n, e, k);
    GuardedOne(u, NodeLoss);
    LossKeepsShadow(u);
    LossKeepsAbsent(u, k);
    OpenIsWritten(s, n);
    LiveIgnoresOpen(s.l, n);
    LiveIgnoresOpen(s.l, k);
    LiveHasObject(t, n);
  }

  lemma LiveHasObject(t: State, n: string)
    ensures Good(t) && Live(t.l, n) ==> n in t.d.files
  {
  }

  lemma LiveIgnoresOpen(l: Ledger, n: string)
    ensures forall open :: Live(l.(open := open), n) == Live(l, n)
  {
  }

  lemma OpenIsWritten(s: State, n: string)
    ensures Good(s) && n in s.l.open ==> n in s.l.written
  {
  }

  lemma PlayTwo(cfg: Config, s: State, a: Call, b: Call)
    ensures Play(cfg, s, [a, b]) == After(cfg, After(cfg, s, a), b)
    ensures Disciplined(cfg, s, [a, b]) <==> Allowed(s, a.ev) && Allowed(After(cfg, s, a), b.ev)
  {
    hide Allowed, After;
    assert [a, b][1..] == [b] && [b][1..] == [];
    var t := After(cfg, s, a);
    assert Play(cfg, t, [b]) == After(cfg, t, b);
    assert Disciplined(cfg, t, [b]) == Allowed(t, b.ev);
  }

  lemma ClosedAfterFailure(cfg: Config, s: State, n: string, e: SyncEnv, k: string)
    requires Good(s) && n in s.l.open && !s.c.lost && !TooLarge(cfg, n, s.l.written[n]) && FailsPersisted(e)
    requires k != n && Absent(s.d, k)
    ensures
      var u := After(cfg, s, Call(EClose(n, e), None));
      u.l == s.l.(open := s.l.open - {n}) && n in u.d.shadow && Absent(u.d, k)
  {
    hide CachedName, TooLarge, SumText, ApplyAll, Good, Absent;
    OpenIsWritten(s, n);
    var note := Record(CloseWriter(n));
    var s0 := Apply(s, note);
    SafeOne(s, note);
    SafeKeepsGood(s, [note]);
    SameSync(cfg, s, n, e);
    ApplyAllConcat(s, [note], SyncActs(cfg, s, n, e));
    FailedSync(cfg, s0, n, e);
    var front := MirrorActs(s, n) + Effect(e.up.put, Do(Put(S3, n, s.l.written[n])));
    assert forall a :: a in CloseActs(cfg, s, n, e) ==> a.Record? || OnFile(a, n);
    StaysAbsent(s, CloseActs(cfg, s, n, e), n, k);
  }

  lemma LossKeepsAbsent(u: State, k: string)
    ensures Absent(u.d, k) ==> Absent(Apply(u, NodeLoss).d, k)
  {
  }
}
