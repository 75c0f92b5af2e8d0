/** What a crash in the middle of a call leaves of a file, and which copies go only once another one is in place. */
module Cuts {
  import opened Scan
  import opened Names
  import opened Store
  import opened Programs
  import opened Guards
  import opened PendingDir
  import opened Recovery
  import opened Durability
  import opened Cleanup
  import opened Leftovers
  import opened Effects

  // ---------- the beginning of an interleaving ----------

  /** Each goroutine got some way. */
  ghost predicate CutShort(cut: seq<seq<Action>>, todo: seq<seq<Action>>) {
    |cut| == |todo| && forall i :: 0 <= i < |todo| ==> cut[i] <= todo[i]
  }

  lemma {:induction false} FlattenCut(todo: seq<seq<Action>>, k: nat) returns (cut: seq<seq<Action>>)
    requires k <= |Flatten(todo)|
    ensures CutShort(cut, todo) && Flatten(cut) == Flatten(todo)[..k]
  {
    if todo == [] {
      cut := [];
    } else {
      var a, rest := todo[0], Flatten(todo[1..]);
      var k0 := if k <= |a| then k else |a|;
      var more := FlattenCut(todo[1..], k - k0);
      cut := [a[..k0]] + more;
      assert cut[1..] == more;
      assert (a + rest)[..k] == a[..k0] + rest[..k - k0];
    }
  }

  lemma NoneYet(todo: seq<seq<Action>>) returns (cut: seq<seq<Action>>)
    ensures CutShort(cut, todo) && Merge(cut, []) == []
  {
    cut := seq(|todo|, _ => []);
    AllEmpty(cut);
  }

  lemma {:induction false} AllEmpty(cut: seq<seq<Action>>)
    requires forall i :: 0 <= i < |cut| ==> cut[i] == []
    ensures Flatten(cut) == []
  {
    if cut != [] {
      AllEmpty(cut[1..]);
    }
  }

  /** The beginning of an interleaving is an interleaving of beginnings. */
  lemma {:induction false} MergeCut(todo: seq<seq<Action>>, sched: seq<nat>, k: nat)
    returns (cut: seq<seq<Action>>, turns: seq<nat>)
    requires k <= |Merge(todo, sched)|
    ensures CutShort(cut, todo) && Merge(cut, turns) == Merge(todo, sched)[..k]
    decreases |sched|
  {
    if k == 0 {
      cut := NoneYet(todo);
      turns := [];
    } else if sched == [] {
      cut := FlattenCut(todo, k);
      turns := [];
    } else if sched[0] < |todo| && todo[sched[0]] != [] {
      var j := sched[0];
      var a, later := todo[j][0], todo[j := todo[j][1..]];
      var short, rest := MergeCut(later, sched[1..], k - 1);
      MergeFirst(todo, sched);
      assert ([a] + Merge(later, sched[1..]))[..k] == [a] + Merge(later, sched[1..])[..k - 1];
      cut, turns := short[j := [a] + short[j]], [j] + rest;
      assert cut[j][1..] == short[j] && cut[j := cut[j][1..]] == short;
      MergeTakes(cut, j, rest);
      assert todo[j] == [a] + later[j];
    } else {
      cut, turns := MergeCut(todo, sched[1..], k);
    }
  }

  lemma CutsSeparate(cut: seq<seq<Action>>, todo: seq<seq<Action>>, names: seq<string>)
    requires CutShort(cut, todo) && Separate(todo, names)
    ensures Separate(cut, names)
  {
    forall i | 0 <= i < |cut|
      ensures AllOnFile(cut[i], names[i])
    {
      assert forall a :: a in cut[i] ==> a in todo[i];
    }
  }

  // ---------- no pending file goes before its upload ----------

  /** S3 has x under the name n, or the pending file, its sidecar and its shadow are still what they were. */
  ghost predicate UpOrWaiting(before: Disk, after: Disk, n: string, x: Bytes) {
    || Find(after.files, n) == Some(x)
    || (Find(after.pending, n) == Find(before.pending, n) && Find(after.sums, n) == Find(before.sums, n)
        && Find(after.shadow, n) == Find(before.shadow, n))
  }

  lemma {:induction false} AttemptsCut(s: State, n: string, x: Bytes, failures: seq<bool>, p: seq<Action>)
    requires p <= AttemptActs(n, x, failures)
    ensures ApplyAll(s, p).d == s.d.(files := ApplyAll(s, p).d.files)
    decreases |p|
  {
    if p != [] {
      hide AttemptActs;
      var front, a := p[..|p| - 1], p[|p| - 1];
      AttemptsCut(s, n, x, failures, front);
      AttemptsPut(n, x, failures, a);
    }
  }

  lemma {:induction false} AttemptsPut(n: string, x: Bytes, failures: seq<bool>, a: Action)
    requires a in AttemptActs(n, x, failures)
    ensures a == Do(Put(S3, n, x))
  {
    if failures != [] && a in AttemptActs(n, x, failures[1..]) {
      AttemptsPut(n, x, failures[1..], a);
    }
  }

  lemma UploadThenClean(s: State, n: string, x: Bytes, p: seq<Action>, tail: seq<Action>)
    requires p <= [Do(Put(S3, n, x))] + tail
    requires forall a :: a in tail ==> a.Record? || (a.Do? && Elsewhere(a.io, S3))
    ensures p != [] ==> Find(ApplyAll(s, p).d.files, n) == Some(x)
    ensures p == [] ==> ApplyAll(s, p) == s
  {
    NoStep(s);
    if p != [] {
      hide ApplyAll, Elsewhere;
      var put, rest := Do(Put(S3, n, x)), p[1..];
      assert p == [put] + rest && forall a :: a in rest ==> a in tail;
      StepThen(s, put, rest);
      var t := Apply(s, put);
      PlaceKept(t, rest, S3);
      assert ApplyAll(t, rest).d.files == ApplyAll(t, rest).d.At(S3) && t.d.files == t.d.At(S3);
    }
  }

  lemma RetryCut(s: State, f: PendingFile, e: RetryEnv, p: seq<Action>)
    requires Canonical(f) && p <= RetryActs(f, e)
    ensures UpOrWaiting(s.d, ApplyAll(s, p).d, f.name, f.data)
  {
    hide FdName, ApplyAll, AttemptActs;
    var n, x := f.name, f.data;
    var failed := AttemptActs(n, x, e.failures);
    if p <= failed {
      AttemptsCut(s, n, x, e.failures, p);
    } else {
      var put, tail := Do(Put(S3, n, x)), [Do(Del(Pending, n)), Do(DelSum(n)), Do(Del(Shadow, n))];
      assert RetryActs(f, e) == failed + if e.success then [put] + tail else [];
      var q := p[|failed|..];
      assert p == failed + q;
      ApplyAllConcat(s, failed, q);
      UploadThenClean(ApplyAll(s, failed), n, x, q, tail);
      assert q != [];
    }
  }

  lemma RecoverCut(cfg: Config, s: State, f: PendingFile, o: Outcome, p: seq<Action>)
    requires Canonical(f) && p <= RecoverOneActs(cfg, f, o)
    ensures UpOrWaiting(s.d, ApplyAll(s, p).d, f.name, f.data)
  {
    hide FdName, ApplyAll;
    var n, x := f.name, f.data;
    var put := Do(Put(S3, n, x));
    if o.Done? {
      var tail := [Do(Del(Pending, n)), Do(DelSum(n)), Do(Del(Shadow, n))]
                  + if |x| <= cfg.maxFileSize then [Do(Put(Lru, n, x))] else [];
      assert RecoverOneActs(cfg, f, o) == [put] + tail;
      UploadThenClean(s, n, x, p, tail);
    } else {
      assert Effect(o, put) == if o.took then [put] + [] else [];
      UploadThenClean(s, n, x, p, []);
    }
  }

  lemma CutCarries(before: Disk, u: Disk, v: Disk, w: Disk, n: string, x: Bytes)
    requires SameCopies(u, before, n) && SameCopies(w, v, n) && UpOrWaiting(u, v, n, x)
    ensures UpOrWaiting(before, w, n, x)
  {
    hide SameCopies;
    CopiesByStore(u, before, n);
    CopiesByStore(w, v, n);
  }

  /** Stop a retry pass after any of its steps: each sound pending file is on S3 with its bytes, or still waits with
      sidecar and shadow. */
  lemma PassCut(cfg: Config, s: State, e: PassEnv, n: string, k: nat)
    requires !s.c.lost && s.c.held && !s.c.closed && e.dirOk && NoDuplicates(e.read.names)
    requires (forall m :: m in s.d.pending ==> IsFileName(m)) && Sound(cfg, s.d, e.read, n)
    requires k <= |PassActs(cfg, s, e)|
    ensures UpOrWaiting(s.d, ApplyAll(s, PassActs(cfg, s, e)[..k]).d, n, s.d.pending[n])
  {
    ListedAreCanonical(cfg, s.d, e.read);
    hide ParseFileDesc, FdName, Canonical, UploadList, Merge, DropActs, ApplyAll, RetryActs, Sound, SameCopies,
         CutShort,
         NamesDistinct, UpOrWaiting, Separate;
    var fs, drops := UploadList(cfg, s.d, e.read), DropActs(cfg, s.d, e.read.names, e.read);
    var todo := RetryLists(fs, e.each);
    UploadListDistinct(cfg, s.d, e.read);
    var j := SoundListed(cfg, s, e.read, n);
    RetriesSeparate(fs, e.each);
    if k <= |drops| {
      assert PassActs(cfg, s, e)[..k] == drops[..k];
      DropsCut(cfg, s, s.d, e.read.names, e.read, n, k);
    } else {
      var cut, turns := MergeCut(todo, e.sched, k - |drops|);
      assert PassActs(cfg, s, e)[..k] == drops + Merge(cut, turns);
      PoolCut(s, drops, todo, cut, turns, seq(|fs|, i requires 0 <= i < |fs| => fs[i].name), j);
      CutAt(cut, todo, j);
      assert fs[j] in fs;
      RetryCut(ApplyAll(s, drops), fs[j], e.each(n), cut[j]);
      CutCarries(s.d, ApplyAll(s, drops).d, ApplyAll(ApplyAll(s, drops), cut[j]).d,
                 ApplyAll(s, drops + Merge(cut, turns)).d, n, fs[j].data);
    }
  }

  lemma CutAt(cut: seq<seq<Action>>, todo: seq<seq<Action>>, j: nat)
    requires CutShort(cut, todo) && j < |todo|
    ensures |cut| == |todo| && cut[j] <= todo[j]
  {
  }

  lemma PoolCut(s: State, drops: seq<Action>, todo: seq<seq<Action>>, cut: seq<seq<Action>>, turns: seq<nat>,
                names: seq<string>, j: nat)
    requires CutShort(cut, todo) && Separate(todo, names) && j < |todo| == |names| == |cut|
    ensures SameCopies(ApplyAll(s, drops + Merge(cut, turns)).d, ApplyAll(ApplyAll(s, drops), cut[j]).d, names[j])
  {
    hide Separate, CutShort, SameCopies, ApplyAll, Merge;
    CutsSeparate(cut, todo, names);
    ApplyAllConcat(s, drops, Merge(cut, turns));
    OneOfMany(ApplyAll(s, drops), cut, names, turns, j);
  }

  /** Reading the directory never touches a sound file, however far it gets. */
  lemma {:induction false} DropsCut(cfg: Config, s: State, d: Disk, names: seq<string>, r: ReadEnv, n: string, k: nat)
    requires Sound(cfg, d, r, n) && k <= |DropActs(cfg, d, names, r)|
    ensures UpOrWaiting(s.d, ApplyAll(s, DropActs(cfg, d, names, r)[..k]).d, n, d.pending[n])
    decreases k
  {
    var acts := DropActs(cfg, d, names, r);
    if k == 0 {
      NoStep(s);
    } else {
      hide Sound, DropActs, Readable, Corrupt, UpOrWaiting, ApplyAll;
      DropsCut(cfg, s, d, names, r, n, k - 1);
      assert acts[..k] == acts[..k - 1] + [acts[k - 1]] && acts[k - 1] in acts;
      ApplyAllSnoc(s, acts[..k - 1], acts[k - 1]);
      DropsOthers(cfg, d, names, r, n, acts[k - 1]);
      OtherDropped(s.d, ApplyAll(s, acts[..k - 1]), acts[k - 1], n, d.pending[n]);
    }
  }

  lemma OtherDropped(before: Disk, t: State, a: Action, n: string, x: Bytes)
    requires UpOrWaiting(before, t.d, n, x)
    requires exists m :: m != n && (a == Do(Del(Pending, m)) || a == Do(DelSum(m)))
    ensures UpOrWaiting(before, Apply(t, a).d, n, x)
  {
  }

  lemma {:induction false} DropsOthers(cfg: Config, d: Disk, names: seq<string>, r: ReadEnv, n: string, a: Action)
    requires Sound(cfg, d, r, n) && a in DropActs(cfg, d, names, r)
    ensures exists m :: m != n && (a == Do(Del(Pending, m)) || a == Do(DelSum(m)))
  {
    var front, m := names[..|names| - 1], names[|names| - 1];
    if a in DropActs(cfg, d, front, r) {
      hide Sound, Readable, Corrupt;
      DropsOthers(cfg, d, front, r, n, a);
    } else {
      hide ParseFileDesc, TrimSpace, SumText, IsSidecar, IsFileName, DropActs;
      assert Readable(d, m, r) && Corrupt(cfg, d, m, r) && m != n by { DroppedNow(cfg, d, names, r, n, a); }
      DroppedNow(cfg, d, names, r, n, a);
    }
  }

  lemma DroppedNow(cfg: Config, d: Disk, names: seq<string>, r: ReadEnv, n: string, a: Action)
    requires Sound(cfg, d, r, n) && a in DropActs(cfg, d, names, r) && names != []
    requires a !in DropActs(cfg, d, names[..|names| - 1], r)
    ensures
      var m := names[|names| - 1];
      && Readable(d, m, r) && Corrupt(cfg, d, m, r) && m != n
      && (a == Do(Del(Pending, m)) || a == Do(DelSum(m)))
  {
    hide ParseFileDesc, TrimSpace, SumText, IsSidecar, IsFileName;
  }

  /** The same for the uploads of a recovery. */
  lemma ReuploadCut(cfg: Config, s: State, e: PendEnv, n: string, k: nat)
    requires e.dirOk && NoDuplicates(e.read.names)
    requires (forall m :: m in s.d.pending ==> IsFileName(m)) && Sound(cfg, s.d, e.read, n)
    requires k <= |ReuploadActs(cfg, s, e)|
    ensures UpOrWaiting(s.d, ApplyAll(s, ReuploadActs(cfg, s, e)[..k]).d, n, s.d.pending[n])
  {
    ListedAreCanonical(cfg, s.d, e.read);
    hide ParseFileDesc, FdName, Canonical, UploadList, Merge, DropActs, ApplyAll, RecoverOneActs, Sound, SameCopies,
         CutShort,
         NamesDistinct, UpOrWaiting, Separate;
    var fs, drops := UploadList(cfg, s.d, e.read), DropActs(cfg, s.d, e.read.names, e.read);
    var todo := RecoverLists(cfg, fs, e.up);
    UploadListDistinct(cfg, s.d, e.read);
    var j := SoundListed(cfg, s, e.read, n);
    RecoveriesSeparate(cfg, fs, e.up);
    if k <= |drops| {
      assert ReuploadActs(cfg, s, e)[..k] == drops[..k];
      DropsCut(cfg, s, s.d, e.read.names, e.read, n, k);
    } else {
      var cut, turns := MergeCut(todo, e.sched, k - |drops|);
      assert ReuploadActs(cfg, s, e)[..k] == drops + Merge(cut, turns);
      PoolCut(s, drops, todo, cut, turns, seq(|fs|, i requires 0 <= i < |fs| => fs[i].name), j);
      CutAt(cut, todo, j);
      assert fs[j] in fs;
      RecoverCut(cfg, ApplyAll(s, drops), fs[j], e.up(n), cut[j]);
      CutCarries(s.d, ApplyAll(s, drops).d, ApplyAll(ApplyAll(s, drops), cut[j]).d,
                 ApplyAll(s, drops + Merge(cut, turns)).d, n, fs[j].data);
    }
  }

  // ---------- Sync, Remove and the restored manifest ----------

  /** Stop a Sync after any of its steps: S3 has the buffer, or what was pending and its shadow are as they were or hold
      the buffer. */
  lemma SyncCut(cfg: Config, s: State, n: string, e: SyncEnv, k: nat)
    requires n in s.l.written && k <= |SyncActs(cfg, s, n, e)|
    ensures
      var buf, t := s.l.written[n], ApplyAll(s, SyncActs(cfg, s, n, e)[..k]).d;
      || Find(t.files, n) == Some(buf)
      || ((Find(t.pending, n) == Find(s.d.pending, n) || Find(t.pending, n) == Some(buf))
          && (Find(t.shadow, n) == Find(s.d.shadow, n) || Find(t.shadow, n) == Some(buf)))
  {
    hide CachedName, TooLarge, ApplyAll, UploadActs;
    var buf, mirror := s.l.written[n], MirrorActs(s, n);
    var up := UploadActs(cfg, n, buf, e.up);
    var p := SyncActs(cfg, s, n, e)[..k];
    NoStep(s);
    GuardedOne(s, Do(Put(Local, n, buf)));
    if p <= mirror {
      assert p == [] || p == [Do(Put(Local, n, buf))];
    } else {
      var q := p[|mirror|..];
      assert p == mirror + q;
      ApplyAllConcat(s, mirror, q);
      UploadCut(cfg, ApplyAll(s, mirror), n, buf, e.up, q);
    }
  }

  lemma UploadCut(cfg: Config, s: State, n: string, buf: Bytes, e: UploadEnv, q: seq<Action>)
    requires q <= UploadActs(cfg, n, buf, e) + if e.put.Done? then [Record(Ack(n))] else []
    ensures
      var t := ApplyAll(s, q).d;
      || Find(t.files, n) == Some(buf)
      || ((Find(t.pending, n) == Find(s.d.pending, n) || Find(t.pending, n) == Some(buf))
          && (Find(t.shadow, n) == Find(s.d.shadow, n) || Find(t.shadow, n) == Some(buf)))
  {
    hide SumText, ApplyAll;
    if e.put.Done? {
      var tail := [Do(Del(Pending, n)), Do(DelSum(n)), Do(Del(Shadow, n)), Do(Put(Lru, n, buf)), Record(Ack(n))];
      assert UploadActs(cfg, n, buf, e) + [Record(Ack(n))] == [Do(Put(S3, n, buf))] + tail;
      UploadThenClean(s, n, buf, q, tail);
    } else {
      forall a | a in q
        ensures Backs(a, n, buf)
      {
        BacksUp(cfg, n, buf, e, a);
      }
      BackedUp(s, n, buf, q);
    }
  }

  predicate Backs(a: Action, n: string, buf: Bytes) {
    a.Do? && (a.io.PutSum? || a.io == Put(S3, n, buf) || a.io == Put(Pending, n, buf) || a.io == Put(Shadow, n, buf))
  }

  lemma BacksUp(cfg: Config, n: string, buf: Bytes, e: UploadEnv, a: Action)
    requires e.put.Failed? && a in UploadActs(cfg, n, buf, e)
    ensures Backs(a, n, buf)
  {
    hide SumText;
  }

  lemma {:induction false} BackedUp(s: State, n: string, buf: Bytes, q: seq<Action>)
    requires forall a :: a in q ==> Backs(a, n, buf)
    ensures
      var t := ApplyAll(s, q).d;
      && (Find(t.pending, n) == Find(s.d.pending, n) || Find(t.pending, n) == Some(buf))
      && (Find(t.shadow, n) == Find(s.d.shadow, n) || Find(t.shadow, n) == Some(buf))
  {
    if q != [] {
      var front := q[..|q| - 1];
      assert forall a :: a in front ==> a in q;
      BackedUp(s, n, buf, front);
      assert q[|q| - 1] in q;
    }
  }

  /** Stop a Remove after any of its steps: the S3 object is as it was, or every other copy is gone. */
  lemma RemoveCut(s: State, fd: FileDesc, e: Outcome, k: nat)
    requires IsInt64(fd.num) && k <= |RemoveActs(s, FdName(fd), e)|
    requires FdName(fd) in s.d.local ==> fd.ftype == Journal || fd.ftype == Manifest
    ensures
      var n, t := FdName(fd), ApplyAll(s, RemoveActs(s, FdName(fd), e)[..k]).d;
      || t.files == s.d.files
      || (n !in t.shadow && n !in t.pending && n !in t.local && n !in t.lru && n !in t.sums)
  {
    hide FdName, ApplyAll, CachedName;
    NoStep(s);
    ClassOfType(fd);
    var n := FdName(fd);
    var acts := RemoveActs(s, n, e);
    if !s.c.closed && !s.c.lost {
      var copies := [Record(Doom(n)), Do(Del(Lru, n))] + (if CachedName(n) then [Do(Del(Local, n))] else [])
                    + [Do(Del(Pending, n)), Do(DelSum(n)), Do(Del(Shadow, n))];
      var end := Effect(e, Do(Del(S3, n))) + if e.Done? then [Record(Forget(n))] else [];
      assert acts == copies + end;
      if k <= |copies| {
        var p := acts[..k];
        assert p == copies[..k];
        forall a | a in p
          ensures a.Record? || (a.Do? && Elsewhere(a.io, S3))
        {
          assert a in copies;
        }
        PlaceKept(s, p, S3);
        assert ApplyAll(s, p).d.files == ApplyAll(s, p).d.At(S3) && s.d.files == s.d.At(S3);
      } else {
        var q := end[..k - |copies|];
        assert acts[..k] == copies + q;
        ApplyAllConcat(s, copies, q);
        CopiesGo(s, n);
        OnlyTheObject(ApplyAll(s, copies), n, e, q);
      }
    }
  }

  lemma CopiesGo(s: State, n: string)
    ensures
      var acts := [Record(Doom(n)), Do(Del(Lru, n))] + (if CachedName(n) then [Do(Del(Local, n))] else [])
                  + [Do(Del(Pending, n)), Do(DelSum(n)), Do(Del(Shadow, n))];
      var t := ApplyAll(s, acts).d;
      && n !in t.shadow && n !in t.pending && n !in t.lru && n !in t.sums && (CachedName(n) ==> n !in t.local)
      && (!CachedName(n) ==> t.local == s.d.local)
  {
    hide ApplyAll, CachedName;
    var doom := Record(Doom(n));
    var a := [Do(Del(Lru, n))] + (if CachedName(n) then [Do(Del(Local, n))] else []);
    var b := [Do(Del(Pending, n)), Do(DelSum(n)), Do(Del(Shadow, n))];
    var t := Apply(s, doom);
    assert [doom, Do(Del(Lru, n))] + (if CachedName(n) then [Do(Del(Local, n))] else []) + b == [doom] + (a + b);
    StepThen(s, doom, a + b);
    RemoveCachesEffect(t, n);
    ApplyAllConcat(t, a, b);
    RemovePendingEffect(ApplyAll(t, a), n);
  }

  lemma OnlyTheObject(t: State, n: string, e: Outcome, q: seq<Action>)
    requires q <= Effect(e, Do(Del(S3, n))) + if e.Done? then [Record(Forget(n))] else []
    ensures ApplyAll(t, q).d == t.d.(files := ApplyAll(t, q).d.files)
  {
    hide ApplyAll;
    NoStep(t);
    GuardedOne(t, Do(Del(S3, n)));
    ApplyTwo(t, Do(Del(S3, n)), Record(Forget(n)));
    assert q == [] || q == [Do(Del(S3, n))] || q == [Do(Del(S3, n)), Record(Forget(n))];
  }

  /** Stop the restoring of a manifest from the pending directory after any of its steps: it is on S3, or still pending
      with its sidecar. */
  lemma RestoreCut(cfg: Config, s: State, m: string, e: CleanEnv, k: nat)
    requires m in s.d.pending && e.readPending(m) && s.d.pending[m] != [] && e.putPending == Done
    requires !(m in s.d.local && e.readLocal(m) && s.d.local[m] != []) && k <= |RestoreActs(cfg, s, m, e)|
    ensures UpOrWaiting(s.d, ApplyAll(s, RestoreActs(cfg, s, m, e)[..k]).d, m, s.d.pending[m])
  {
    var x := s.d.pending[m];
    var tail := [Do(Del(Pending, m)), Do(DelSum(m))];
    assert RestoreActs(cfg, s, m, e) == [Do(Put(S3, m, x))] + tail;
    UploadThenClean(s, m, x, RestoreActs(cfg, s, m, e)[..k], tail);
  }

  // ---------- pulling the shadow copies ----------

  /** Every shadow copy is tried: one that cannot be read or written stops none of the others. No other
      store changes. */
  lemma {:induction false} PullsLeave(cfg: Config, s: State, names: seq<string>, pull: string -> PullEnv, n: string)
    ensures
      var t := ApplyAll(s, ShadowActs(cfg, s, names, pull));
      var pulled := n in names && n != "" && n in s.d.shadow && n !in s.d.pending && pull(n).getOk && pull(n).writeOk;
      && Find(t.d.pending, n) == (if pulled then Some(s.d.shadow[n]) else Find(s.d.pending, n))
      && Find(t.d.sums, n) == Find(if pulled then Summed(cfg, s.d.sums, n, s.d.shadow[n], pull(n).sum) else s.d.sums, n)
      && t == s.(d := s.d.(pending := t.d.pending, sums := t.d.sums))
    decreases |names|
  {
    hide ApplyAll, PullActs, SumText;
    if names == [] {
      NoStep(s);
    } else {
      var acts := PullActs(cfg, s, names[0], pull(names[0]));
      PullLeaves(cfg, s, names[0], pull(names[0]));
      var t := ApplyAll(s, acts);
      PullsLeave(cfg, t, names[1..], pull, n);
      ApplyAllConcat(s, acts, ShadowActs(cfg, t, names[1..], pull));
      assert n in names <==> n == names[0] || n in names[1..];
    }
  }

  // ---------- passes that upload nothing ----------

  /** A pass without the lock, or that cannot read the directory, changes nothing; on a closed storage it uploads
      nothing and takes away only corrupt files. */
  lemma IdlePass(cfg: Config, s: State, e: PassEnv)
    ensures
      var t := ApplyAll(s, PassActs(cfg, s, e));
      && (s.c.lost || !s.c.held || !e.dirOk ==> t == s)
      && (s.c.closed ==> t == s.(d := s.d.(pending := t.d.pending, sums := t.d.sums))
                         && t.d.pending.Keys <= s.d.pending.Keys)
  {
    hide ApplyAll, DropActs, Dropped, Merge;
    NoStep(s);
    OnlyCorruptDropped(cfg, s, s.d, e.read.names, e.read);
    assert DropActs(cfg, s.d, e.read.names, e.read) + [] == DropActs(cfg, s.d, e.read.names, e.read);
  }
}
