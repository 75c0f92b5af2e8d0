/** Whole effects across operations: what a rename that meets no failure leaves behind, and what recovery brings back of
    writes that never reached S3. */
module Outcomes {
  import opened Scan
  import opened Names
  import opened Store
  import opened Programs
  import opened Guards
  import opened Recovery

  // ---------- a rename without failures ----------

  predicate Smooth(e: RenameEnv) {
    && e.copy == Done && e.getOk && e.moveOk && e.moveSumOk && e.readOk && e.shadow == Done
    && e.del == Done && e.readLocalOk && e.writeLocalOk
  }

  /** Every copy of o under the name n instead, except that the shadow and the checksum follow the pending file only. */
  function Renamed(d: Disk, o: string, n: string): Disk
    requires o in d.files
  {
    var waiting := o in d.pending;
    Disk(d.files[n := d.files[o]] - {o},
         if waiting then (d.shadow - {o})[n := d.pending[o]] else d.shadow,
         if waiting then (d.pending - {o})[n := d.pending[o]] else d.pending,
         if CachedName(o) && o in d.local then d.local[n := d.local[o]] - {o} else d.local,
         (d.lru - {o})[n := d.files[o]],
         if waiting && o in d.sums then (d.sums - {o})[n := d.sums[o]] else d.sums)
  }

  lemma LruStage(s: State, o: string, n: string, e: RenameEnv)
    requires o in s.d.files && e.getOk
    ensures ApplyAll(s, RenameLruActs(s, o, n, e)) == s.(d := s.d.(lru := (s.d.lru - {o})[n := s.d.files[o]]))
  {
    ApplyTwo(s, Do(Del(Lru, o)), Do(Put(Lru, n, s.d.files[o])));
  }

  lemma PendingStage(cfg: Config, s: State, o: string, n: string, e: RenameEnv)
    requires Smooth(e) && o in s.d.pending
    ensures ApplyAll(s, RenamePendingActs(cfg, s, o, n, e)) ==
      s.(d := s.d.(pending := (s.d.pending - {o})[n := s.d.pending[o]],
                   shadow := (s.d.shadow - {o})[n := s.d.pending[o]],
                   sums := if o in s.d.sums then (s.d.sums - {o})[n := s.d.sums[o]] else s.d.sums))
  {
    var x := s.d.pending[o];
    ApplyTwo(s, Do(Move(o, n)), Do(MoveSum(o, n)));
    var t := ApplyAll(s, [Do(Move(o, n)), Do(MoveSum(o, n))]);
    ApplyTwo(t, Do(Del(Shadow, o)), Do(Put(Shadow, n, x)));
    ApplyAllConcat(s, [Do(Move(o, n)), Do(MoveSum(o, n))], [Do(Del(Shadow, o)), Do(Put(Shadow, n, x))]);
    assert RenamePendingActs(cfg, s, o, n, e)
        == [Do(Move(o, n)), Do(MoveSum(o, n))] + [Do(Del(Shadow, o)), Do(Put(Shadow, n, x))];
  }

  lemma DeleteStage(s: State, o: string, e: RenameEnv)
    requires Smooth(e)
    ensures ApplyAll(s, RenameDeleteActs(o, e)) == s.(d := s.d.(files := s.d.files - {o}))
  {
    GuardedOne(s, Do(Del(S3, o)));
    assert RenameDeleteActs(o, e) == [Do(Del(S3, o))];
  }

  lemma LocalStage(s: State, o: string, n: string, e: RenameEnv)
    requires Smooth(e) && CachedName(o) && o in s.d.local
    ensures ApplyAll(s, RenameLocalActs(s, o, n, e)) == s.(d := s.d.(local := s.d.local[n := s.d.local[o]] - {o}))
  {
    hide CachedName;
    ApplyTwo(s, Do(Put(Local, n, s.d.local[o])), Do(Del(Local, o)));
    assert RenameLocalActs(s, o, n, e) == [Do(Put(Local, n, s.d.local[o])), Do(Del(Local, o))];
  }

  lemma NoStage(s: State)
    ensures ApplyAll(s, []) == s
  {
  }

  /** The steps after the copy, taken together; t is the state after the copy. */
  lemma TailEffect(cfg: Config, s: State, t: State, o: string, n: string, e: RenameEnv)
    requires Smooth(e) && o in s.d.files && o != n
    requires t.d == s.d.(files := s.d.files[n := s.d.files[o]])
    ensures ApplyAll(t, RenameTail(cfg, s, o, n, e)) == t.(d := Renamed(s.d, o, n))
  {
    hide CachedName, ApplyAll, RenameLruActs, RenamePendingActs, RenameDeleteActs, RenameLocalActs;
    var a, b, c, f := RenameLruActs(s, o, n, e), RenamePendingActs(cfg, s, o, n, e), RenameDeleteActs(o, e),
        RenameLocalActs(s, o, n, e);
    StageSources(cfg, s, t, o, n, e);
    LruStage(t, o, n, e);
    var t1 := ApplyAll(t, a);
    StageSources(cfg, s, t1, o, n, e);
    if o in s.d.pending {
      PendingStage(cfg, t1, o, n, e);
    } else {
      NoStage(t1);
    }
    var t2 := ApplyAll(t1, b);
    DeleteStage(t2, o, e);
    var t3 := ApplyAll(t2, c);
    StageSources(cfg, s, t3, o, n, e);
    if CachedName(o) && o in s.d.local {
      LocalStage(t3, o, n, e);
    } else {
      NoStage(t3);
    }
    ApplyAllConcat(t, a, b);
    ApplyAllConcat(t, a + b, c);
    ApplyAllConcat(t, a + b + c, f);
  }

  /** What the stages do depends only on the stores they read. */
  lemma StageSources(cfg: Config, s: State, t: State, o: string, n: string, e: RenameEnv)
    requires o in s.d.files
    ensures s.d.pending == t.d.pending ==> RenamePendingActs(cfg, s, o, n, e) == RenamePendingActs(cfg, t, o, n, e)
    ensures s.d.local == t.d.local ==> RenameLocalActs(s, o, n, e) == RenameLocalActs(t, o, n, e)
    ensures o in t.d.files && t.d.files[o] == s.d.files[o] ==> RenameLruActs(s, o, n, e) == RenameLruActs(t, o, n, e)
    ensures o !in s.d.pending ==> RenamePendingActs(cfg, s, o, n, e) == []
    ensures !(CachedName(o) && o in s.d.local) ==> RenameLocalActs(s, o, n, e) == []
  {
    hide CachedName, SumText;
  }

  /** A rename that meets no failure moves every copy to the new name, with one exception: the code looks at the shadow
      and at the checksum only if the file is pending. So the old name is gone from all stores, and forgotten, if and
      only if the file was pending or had neither of the two; a shadow left behind is what the next recovery uploads
      under the old name. */
  lemma RenameMovesAll(cfg: Config, s: State, o: string, n: string, e: RenameEnv)
    requires Smooth(e) && Good(s) && MayRename(s, o, n) && o in s.d.files && !s.c.closed && !s.c.lost
    ensures
      var t := ApplyAll(s, RenameActs(cfg, s, o, n, e));
      && t.d == Renamed(s.d, o, n)
      && n in t.l.written && t.l.written[n] == s.l.written[o] && t.l.Acked(n) == s.l.Acked(o)
      && (Absent(t.d, o) <==> o in s.d.pending || (o !in s.d.shadow && o !in s.d.sums))
      && (o !in t.l.written <==> Absent(t.d, o))
  {
    hide ParseFileDesc, FdName, ApplyAll, RenameTail, IsFileName, Renamed, Absent;
    LocalIsCached(s, o);
    RenamedAbsent(s.d, o, n);
    var copy := CopyFile(o, n);
    var t := Apply(s, copy);
    CopyResult(s, o, n);
    hide Good, Apply;
    GuardedOne(s, copy);
    TailEffect(cfg, s, t, o, n, e);
    var tail := RenameTail(cfg, s, o, n, e);
    ApplyAllConcat(s, [copy], tail);
    var u := ApplyAll(s, [copy] + tail);
    ApplyAllSnoc(s, [copy] + tail, Record(Forget(o)));
    ForgetResult(u, o, n);
    assert [copy] + tail + [] == [copy] + tail;
  }

  lemma CopyResult(s: State, o: string, n: string)
    requires Inv(s) && o in s.d.files && o in s.l.written && o != n
    ensures
      var t := Apply(s, CopyFile(o, n));
      && t.d == s.d.(files := s.d.files[n := s.d.files[o]])
      && n in t.l.written && t.l.written[n] == s.l.written[o] && t.l.Acked(n) == s.l.Acked(o) && o in t.l.written
  {
  }

  lemma ForgetResult(u: State, o: string, n: string)
    requires o != n
    ensures
      var t := Apply(u, Record(Forget(o)));
      && t.d == u.d && o !in t.l.written && t.l.Acked(n) == u.l.Acked(n)
      && (n in u.l.written ==> n in t.l.written && t.l.written[n] == u.l.written[n])
  {
  }

  lemma LocalIsCached(s: State, n: string)
    requires Good(s)
    ensures n in s.d.local ==> CachedName(n)
  {
  }

  lemma RenamedAbsent(d: Disk, o: string, n: string)
    requires o in d.files && o != n && (o in d.local ==> CachedName(o))
    ensures Absent(Renamed(d, o, n), o) <==> o in d.pending || (o !in d.shadow && o !in d.sums)
  {
    hide CachedName;
  }

  // ---------- what recovery brings back ----------

  /** Another machine recovers an upload that failed on a machine since lost, if the backup under the shadow prefix
      was made. */
  lemma ShadowSurvivesMachineLoss(cfg: Config, s: State, n: string, data: Bytes, e: PersistEnv, p: PendEnv)
    requires e.fileOk && e.shadow == Done
    requires var lost := Apply(ApplyAll(s, PersistActs(cfg, n, data, e)), NodeLoss); Answers(lost.d, p)
    ensures
      var lost := Apply(ApplyAll(s, PersistActs(cfg, n, data, e)), NodeLoss);
      var t := ApplyAll(lost, SyncPendingActs(cfg, lost, p));
      n in t.d.files && t.d.files[n] == data && n !in t.d.shadow && n !in t.d.pending
  {
    hide Apply, ApplyAll, PersistActs, SyncPendingActs, Answers, Corrupt;
    PersistShadow(cfg, s, n, data, e);
    LossKeepsShadow(ApplyAll(s, PersistActs(cfg, n, data, e)));
    var lost := Apply(ApplyAll(s, PersistActs(cfg, n, data, e)), NodeLoss);
    DamagedEquation(cfg, lost, p);
    assert Damaged(cfg, lost.d, p.read) == {};
  }

  lemma LossKeepsShadow(u: State)
    ensures
      var t := Apply(u, NodeLoss);
      && t.d.shadow == u.d.shadow && t.d.pending == map[] && t.d.sums == map[] && !t.c.closed && !t.c.lost
      && t.l == u.l.(open := {})
  {
  }

  lemma PersistShadow(cfg: Config, s: State, n: string, data: Bytes, e: PersistEnv)
    requires e.fileOk && e.shadow == Done
    ensures var t := ApplyAll(s, PersistActs(cfg, n, data, e)); n in t.d.shadow && t.d.shadow[n] == data
  {
    hide SumText, SumActs;
    var front := [Do(Put(Pending, n, data))] + SumActs(cfg, n, data, e.sum);
    ApplyAllSnoc(s, front, Do(Put(Shadow, n, data)));
    assert PersistActs(cfg, n, data, e) == front + [Do(Put(Shadow, n, data))];
  }

  /** Journals and manifests survive without ever having been synced: a crash after a Write whose local write succeeded,
      then a recovery in which S3 and the disk answer, puts everything written so far on S3. */
  lemma UnsyncedWriteRecovered(cfg: Config, s: State, fd: FileDesc, x: Bytes, e: LockEnv)
    requires IsInt64(fd.num) && (fd.ftype == Journal || fd.ftype == Manifest) && FdName(fd) in s.l.written
    requires AllAnswer(cfg, Apply(ApplyAll(s, WriteActs(s, FdName(fd), x, true)), Crash), e)
    ensures
      var crashed := Apply(ApplyAll(s, WriteActs(s, FdName(fd), x, true)), Crash);
      var t := ApplyAll(crashed, LockSyncActs(cfg, crashed, e));
      FdName(fd) in t.d.files && t.d.files[FdName(fd)] == s.l.written[FdName(fd)] + x
  {
    hide ParseFileDesc, FdName, Apply, ApplyAll, AllAnswer, LockSyncActs, WriteActs, CachedName;
    ParsePrinted(fd);
    PrintedIsPlain(fd);
    assert CachedName(FdName(fd)) by { CachedNameOf(fd); }
    MirrorSurvives(s, FdName(fd), x);
    RecoveryEquation(cfg, Apply(ApplyAll(s, WriteActs(s, FdName(fd), x, true)), Crash), e);
  }

  lemma CachedNameOf(fd: FileDesc)
    requires ParseFileDesc(FdName(fd)) == Some(fd) && CachedLocally(fd)
    ensures CachedName(FdName(fd))
  {
  }

  lemma MirrorSurvives(s: State, n: string, x: Bytes)
    requires n in s.l.written && CachedName(n)
    ensures
      var t := Apply(ApplyAll(s, WriteActs(s, n, x, true)), Crash);
      n in t.d.local && t.d.local[n] == s.l.written[n] + x
  {
    hide CachedName, ApplyAll;
    ApplyTwo(s, Record(Append(n, x)), Do(Put(Local, n, s.l.written[n] + x)));
    assert WriteActs(s, n, x, true) == [Record(Append(n, x)), Do(Put(Local, n, s.l.written[n] + x))];
  }
}
