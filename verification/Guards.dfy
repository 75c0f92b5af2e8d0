/** Every program of the storage, started in a good state by a client that keeps its discipline, takes only
    guarded steps. */
module Guards {
  import opened Scan
  import opened Names
  import opened Store
  import opened Programs

  ghost predicate Good(s: State) {
    Inv(s) && NamesOk(s)
  }

  ghost predicate Safe(s: State, acts: seq<Action>) {
    Guarded(s, acts) && NamesGuarded(acts)
  }

  lemma SafeKeepsGood(s: State, acts: seq<Action>)
    requires Good(s) && Safe(s, acts)
    ensures Good(ApplyAll(s, acts))
  {
    GuardedKeepsInv(s, acts, |acts|);
    assert acts[..|acts|] == acts;
    NamesGuardedKeepsNames(s, acts);
  }

  lemma SafeConcat(s: State, a: seq<Action>, b: seq<Action>)
    requires Safe(s, a) && Safe(ApplyAll(s, a), b)
    ensures Safe(s, a + b) && ApplyAll(s, a + b) == ApplyAll(ApplyAll(s, a), b)
  {
    GuardedConcat(s, a, b);
    ApplyAllConcat(s, a, b);
  }

  /** Harmless steps that put nothing in the local cache. */
  ghost predicate Plain(l: Ledger, acts: seq<Action>) {
    forall a :: a in acts ==> Harmless(l, a) && NameGuard(a)
  }

  lemma PlainSafe(s: State, acts: seq<Action>)
    requires Plain(s.l, acts)
    ensures Safe(s, acts) && ApplyAll(s, acts).l == s.l && ApplyAll(s, acts).c.lost == s.c.lost
  {
    HarmlessGuarded(s, acts);
  }

  lemma EmptySafe(s: State)
    ensures Safe(s, []) && ApplyAll(s, []) == s
  {
  }

  lemma SafeOne(s: State, a: Action)
    requires Guard(s, a) && NameGuard(a)
    ensures Safe(s, [a]) && ApplyAll(s, [a]) == Apply(s, a)
  {
    GuardedOne(s, a);
  }

  // ---------- writers ----------

  lemma CreateSafe(s: State, n: string, dirOk: bool)
    requires Good(s) && IsFileName(n) && Free(s.l, n)
    ensures Safe(s, CreateActs(s, n, dirOk))
  {
    if !s.c.closed && !s.c.lost {
      var note := Record(CreateNote(s.d, n));
      var s1 := Apply(s, note);
      SafeOne(s, note);
      PlainSafe(s1, [Do(Put(Lru, n, []))]);
      SafeConcat(s, [note], [Do(Put(Lru, n, []))]);
      var two := [note] + [Do(Put(Lru, n, []))];
      assert two == [note, Do(Put(Lru, n, []))];
      if CachedName(n) && !dirOk {
        SafeOne(ApplyAll(s, two), Record(CloseWriter(n)));
        SafeConcat(s, two, [Record(CloseWriter(n))]);
      } else {
        assert two + [] == two;
      }
    }
  }

  lemma WriteSafe(s: State, n: string, p: Bytes, localOk: bool)
    requires Good(s) && n in s.l.open
    ensures Safe(s, WriteActs(s, n, p, localOk))
  {
    var a := Record(Append(n, p));
    SafeOne(s, a);
    StepKeepsInv(s, a);
    var rest := if CachedName(n) && localOk then [Do(Put(Local, n, s.l.written[n] + p))] else [];
    PlainSafe(Apply(s, a), rest);
    SafeConcat(s, [a], rest);
  }

  lemma PersistPlain(cfg: Config, l: Ledger, n: string, data: Bytes, e: PersistEnv)
    requires l.Between(n, data)
    ensures Plain(l, PersistActs(cfg, n, data, e))
  {
  }

  lemma UploadPlain(cfg: Config, l: Ledger, n: string, data: Bytes, e: UploadEnv)
    requires l.Between(n, data)
    ensures Plain(l, UploadActs(cfg, n, data, e))
  {
    PersistPlain(cfg, l, n, data, e.persist);
  }

  lemma UploadEffect(s: State, n: string, x: Bytes)
    ensures ApplyAll(s, [Do(Put(S3, n, x)), Do(Del(Pending, n)), Do(DelSum(n))]) ==
            s.(d := s.d.(files := s.d.files[n := x], pending := s.d.pending - {n}, sums := s.d.sums - {n}))
  {
    ApplyThree(s, Do(Put(S3, n, x)), Do(Del(Pending, n)), Do(DelSum(n)));
  }

  lemma SettleEffect(s: State, n: string, x: Bytes)
    ensures ApplyAll(s, [Do(Del(Shadow, n)), Do(Put(Lru, n, x))]) ==
            s.(d := s.d.(shadow := s.d.shadow - {n}, lru := s.d.lru[n := x]))
  {
    ApplyTwo(s, Do(Del(Shadow, n)), Do(Put(Lru, n, x)));
  }

  /** After a successful upload of everything written, every copy left is complete. */
  lemma UploadSettles(s: State, n: string)
    requires n in s.l.written && (n in s.d.local ==> s.d.local[n] == s.l.written[n])
    ensures Settled(ApplyAll(s, SettleActs(n, s.l.written[n])), n)
  {
    hide ApplyAll;
    var x := s.l.written[n];
    var a, b := [Do(Put(S3, n, x)), Do(Del(Pending, n)), Do(DelSum(n))], [Do(Del(Shadow, n)), Do(Put(Lru, n, x))];
    UploadEffect(s, n, x);
    SettleEffect(ApplyAll(s, a), n, x);
    ApplyAllConcat(s, a, b);
    assert SettleActs(n, x) == a + b;
  }

  lemma MirrorPlain(s: State, n: string)
    requires Inv(s) && n in s.l.written
    ensures Plain(s.l, MirrorActs(s, n))
    ensures n in s.d.local && CachedName(n) ==> n in ApplyAll(s, MirrorActs(s, n)).d.local
    ensures CachedName(n) ==> ApplyAll(s, MirrorActs(s, n)).d.local == s.d.local[n := s.l.written[n]]
    ensures !CachedName(n) ==> ApplyAll(s, MirrorActs(s, n)) == s
  {
    hide ParseFileDesc;
    GuardedOne(s, Do(Put(Local, n, s.l.written[n])));
  }

  lemma SyncDone(cfg: Config, s: State, n: string, e: SyncEnv)
    requires Good(s) && n in s.l.written && SyncOk(cfg, s, n, e)
    ensures Safe(s, SyncActs(cfg, s, n, e))
  {
    hide ParseFileDesc, FdName, Guarded, NamesGuarded, ApplyAll, Sandwiched, Plain, TooLarge, MirrorActs, IsFileName,
         Settled;
    var data := s.l.written[n];
    var mirror, up := MirrorActs(s, n), UploadActs(cfg, n, data, e.up);
    MirrorPlain(s, n);
    PlainSafe(s, mirror);
    var t := ApplyAll(s, mirror);
    UploadPlain(cfg, s.l, n, data, e.up);
    PlainSafe(t, up);
    SafeConcat(s, mirror, up);
    assert n in t.d.local ==> t.d.local[n] == t.l.written[n] by {
      assert n in s.d.local ==> CachedName(n);
    }
    UploadSettles(t, n);
    SafeOne(ApplyAll(s, mirror + up), Record(Ack(n)));
    SafeConcat(s, mirror + up, [Record(Ack(n))]);
  }

  lemma SyncNotDone(cfg: Config, s: State, n: string, e: SyncEnv)
    requires Good(s) && n in s.l.written && !SyncOk(cfg, s, n, e)
    ensures Plain(s.l, SyncActs(cfg, s, n, e))
  {
    hide ParseFileDesc, FdName, Sandwiched, Plain, TooLarge, MirrorActs, UploadActs, NamesOk;
    MirrorPlain(s, n);
    UploadPlain(cfg, s.l, n, s.l.written[n], e.up);
    PlainConcat(s.l, MirrorActs(s, n), UploadActs(cfg, n, s.l.written[n], e.up));
    var both := MirrorActs(s, n) + UploadActs(cfg, n, s.l.written[n], e.up);
    assert both + [] == both;
    PlainEmpty(s.l);
  }

  lemma PlainEmpty(l: Ledger)
    ensures Plain(l, [])
  {
  }

  lemma PlainConcat(l: Ledger, a: seq<Action>, b: seq<Action>)
    requires Plain(l, a) && Plain(l, b)
    ensures Plain(l, a + b)
  {
  }

  lemma SyncSafe(cfg: Config, s: State, n: string, e: SyncEnv)
    requires Good(s) && n in s.l.written
    ensures Safe(s, SyncActs(cfg, s, n, e))
  {
    hide Good, Safe, SyncActs, SyncOk, Plain;
    if SyncOk(cfg, s, n, e) {
      SyncDone(cfg, s, n, e);
    } else {
      SyncNotDone(cfg, s, n, e);
      PlainSafe(s, SyncActs(cfg, s, n, e));
    }
  }

  lemma CloseSafe(cfg: Config, s: State, n: string, e: SyncEnv)
    requires Good(s) && n in s.l.open
    ensures Safe(s, CloseActs(cfg, s, n, e))
  {
    var a := Record(CloseWriter(n));
    SafeOne(s, a);
    SafeKeepsGood(s, [a]);
    SyncSafe(cfg, Apply(s, a), n, e);
    assert SyncActs(cfg, Apply(s, a), n, e) == SyncActs(cfg, s, n, e);
    SafeConcat(s, [a], SyncActs(cfg, s, n, e));
  }

  lemma OpenSafe(cfg: Config, s: State, n: string, getOk: bool)
    requires Good(s)
    ensures Safe(s, OpenActs(cfg, s, n, getOk))
  {
    if n in s.d.files {
      assert n in s.d.At(S3);
    }
    PlainSafe(s, OpenActs(cfg, s, n, getOk));
  }

  // ---------- removing ----------

  function RemoveDeletes(n: string, e: Outcome): seq<Action> {
    [Do(Del(Lru, n))] + (if CachedName(n) then [Do(Del(Local, n))] else [])
    + [Do(Del(Pending, n)), Do(DelSum(n)), Do(Del(Shadow, n))] + Effect(e, Do(Del(S3, n)))
  }

  function Gone(d: Disk, n: string): Disk {
    Disk(d.files - {n}, d.shadow - {n}, d.pending - {n}, if CachedName(n) then d.local - {n} else d.local, d.lru - {n},
        d.sums - {n})
  }

  lemma RemoveCachesEffect(s: State, n: string)
    ensures ApplyAll(s, [Do(Del(Lru, n))] + (if CachedName(n) then [Do(Del(Local, n))] else [])) ==
            s.(d := s.d.(lru := s.d.lru - {n}, local := if CachedName(n) then s.d.local - {n} else s.d.local))
  {
    hide ParseFileDesc;
    GuardedOne(s, Do(Del(Lru, n)));
    if CachedName(n) {
      ApplyAllSnoc(s, [Do(Del(Lru, n))], Do(Del(Local, n)));
    } else {
      assert [Do(Del(Lru, n))] + [] == [Do(Del(Lru, n))];
    }
  }

  lemma RemovePendingEffect(s: State, n: string)
    ensures ApplyAll(s, [Do(Del(Pending, n)), Do(DelSum(n)), Do(Del(Shadow, n))]) ==
            s.(d := s.d.(pending := s.d.pending - {n}, sums := s.d.sums - {n}, shadow := s.d.shadow - {n}))
  {
    ApplyThree(s, Do(Del(Pending, n)), Do(DelSum(n)), Do(Del(Shadow, n)));
  }

  lemma RemoveDeletesEffect(s: State, n: string)
    ensures ApplyAll(s, RemoveDeletes(n, Done)) == s.(d := Gone(s.d, n))
  {
    hide ParseFileDesc, ApplyAll;
    var a := [Do(Del(Lru, n))] + (if CachedName(n) then [Do(Del(Local, n))] else []);
    var b := [Do(Del(Pending, n)), Do(DelSum(n)), Do(Del(Shadow, n))];
    RemoveCachesEffect(s, n);
    RemovePendingEffect(ApplyAll(s, a), n);
    ApplyAllConcat(s, a, b);
    ApplyAllSnoc(s, a + b, Do(Del(S3, n)));
    assert RemoveDeletes(n, Done) == a + b + [Do(Del(S3, n))];
  }

  lemma RemoveDeletesPlain(l: Ledger, n: string, e: Outcome)
    requires !Live(l, n)
    ensures Plain(l, RemoveDeletes(n, e))
  {
    hide CachedName;
  }

  lemma RemoveDeletesSafe(s: State, n: string, e: Outcome)
    requires Good(s) && !Live(s.l, n)
    ensures Safe(s, RemoveDeletes(n, e)) && ApplyAll(s, RemoveDeletes(n, e)).l == s.l
    ensures e.Done? ==> Absent(ApplyAll(s, RemoveDeletes(n, e)).d, n)
  {
    hide CachedName, ApplyAll, Plain, RemoveDeletes, Inv, Guarded, NamesGuarded, IsFileName;
    RemoveDeletesPlain(s.l, n, e);
    PlainSafe(s, RemoveDeletes(n, e));
    if e.Done? {
      RemoveDeletesEffect(s, n);
      assert n in s.d.local ==> CachedName(n);
    }
  }

  lemma RemoveShape(s: State, n: string, e: Outcome)
    requires !s.c.closed && !s.c.lost
    ensures RemoveActs(s, n, e) ==
            [Record(Doom(n))] + RemoveDeletes(n, e) + (if e.Done? then [Record(Forget(n))] else [])
  {
  }

  lemma RemoveSafe(s: State, n: string, e: Outcome)
    requires Good(s) && n !in s.l.open
    ensures Safe(s, RemoveActs(s, n, e))
    ensures !s.c.closed && !s.c.lost && e.Done? ==> Absent(ApplyAll(s, RemoveActs(s, n, e)).d, n)
  {
    if !s.c.closed && !s.c.lost {
      var doom, dels := Record(Doom(n)), RemoveDeletes(n, e);
      RemoveShape(s, n, e);
      SafeOne(s, doom);
      SafeKeepsGood(s, [doom]);
      RemoveDeletesSafe(Apply(s, doom), n, e);
      SafeConcat(s, [doom], dels);
      ApplyAllConcat(s, [doom], dels);
      if e.Done? {
        SafeOne(ApplyAll(s, [doom] + dels), Record(Forget(n)));
        SafeConcat(s, [doom] + dels, [Record(Forget(n))]);
        ApplyAllSnoc(s, [doom] + dels, Record(Forget(n)));
      } else {
        assert [doom] + dels + [] == [doom] + dels;
      }
    }
  }

  // ---------- renaming ----------

  /** The client renames a closed file to a fresh name of the same class. */
  predicate MayRename(s: State, o: string, n: string) {
    && o in s.l.written && o !in s.l.open && o != n
    && IsFileName(n) && Fresh(s, n) && n !in s.l.open
    && CachedName(o) == CachedName(n)
  }

  /** The rename rewrites the pending file, or the local one, and that fails and leaves part of it under the
      new name. */
  predicate TearsPending(s: State, o: string, e: RenameEnv) {
    RenameCopies(s, o, e) && o in s.d.pending && !e.moveOk && e.readOk && !e.writeOk && e.torn.Some?
  }

  predicate TearsLocal(s: State, o: string, e: RenameEnv) {
    RenameOk(s, o, e) && CachedName(o) && o in s.d.local && e.readLocalOk && !e.writeLocalOk && e.tornLocal.Some?
  }

  /** A rewrite that fails leaves nothing, or at least the acknowledged bytes. */
  predicate Tidy(s: State, o: string, e: RenameEnv) {
    && (TearsPending(s, o, e) ==> |s.l.Acked(o)| <= e.torn.value)
    && (TearsLocal(s, o, e) ==> |s.l.Acked(o)| <= e.tornLocal.value)
  }

  lemma TornBetween(l: Ledger, n: string, x: Bytes, k: nat)
    requires l.Between(n, x) && |l.Acked(n)| <= k
    ensures l.Between(n, Torn(x, k))
  {
  }

  lemma RenamePendingSafe(cfg: Config, s: State, t: State, o: string, n: string, e: RenameEnv)
    requires t.d.pending == s.d.pending
    requires RenameCopies(s, o, e) && (TearsPending(s, o, e) ==> |t.l.Acked(n)| <= e.torn.value)
    requires o in s.d.pending ==> t.l.Between(n, s.d.pending[o])
    ensures Safe(t, RenamePendingActs(cfg, s, o, n, e)) && ApplyAll(t, RenamePendingActs(cfg, s, o, n, e)).l == t.l
  {
    if o in s.d.pending {
      var x := s.d.pending[o];
      MoveShadowPlain(t.l, o, n, x, e.readOk, e.shadow);
      MoveShadowPlain(t.l, o, n, x, true, e.shadow);
      RewritePlain(cfg, t.l, o, n, x, e.sum);
      hide MoveShadowActs, RewriteActs, Safe, Plain, ApplyAll, SumText;
      if e.moveOk {
        var move := Do(Move(o, n));
        var rest := (if e.moveSumOk then [Do(MoveSum(o, n))] else []) + MoveShadowActs(o, n, x, e.readOk, e.shadow);
        SafeOne(t, move);
        assert RenamePendingActs(cfg, s, o, n, e) == [move] + rest;
        MovePlain(Apply(t, move).l, o, n, x, e);
        PlainSafe(Apply(t, move), rest);
        SafeConcat(t, [move], rest);
        GuardedOne(t, move);
        ApplyAllConcat(t, [move], rest);
      } else {
        if e.readOk && !e.writeOk {
          CopyOverPlain(t.l, n, x, e.torn);
        }
        EmptySafe(t);
        PlainConcat(t.l, RewriteActs(cfg, o, n, x, e.sum), MoveShadowActs(o, n, x, true, e.shadow));
        if e.readOk {
          PlainSafe(t, RenamePendingActs(cfg, s, o, n, e));
        }
      }
    } else {
      EmptySafe(t);
    }
  }

  lemma MovePlain(l: Ledger, o: string, n: string, x: Bytes, e: RenameEnv)
    requires l.Between(n, x)
    ensures Plain(l, (if e.moveSumOk then [Do(MoveSum(o, n))] else []) + MoveShadowActs(o, n, x, e.readOk, e.shadow))
  {
    MoveShadowPlain(l, o, n, x, e.readOk, e.shadow);
    hide MoveShadowActs;
  }

  lemma CopyOverPlain(l: Ledger, n: string, x: Bytes, torn: Option<nat>)
    requires l.Between(n, x) && (torn.Some? ==> |l.Acked(n)| <= torn.value)
    ensures Plain(l, CopyOverActs(Pending, n, x, false, torn))
  {
    if torn.Some? {
      TornBetween(l, n, x, torn.value);
    }
  }

  lemma MoveShadowPlain(l: Ledger, o: string, n: string, x: Bytes, readOk: bool, out: Outcome)
    requires l.Between(n, x)
    ensures Plain(l, MoveShadowActs(o, n, x, readOk, out))
  {
  }

  lemma RewritePlain(cfg: Config, l: Ledger, o: string, n: string, x: Bytes, w: SumWrite)
    requires l.Between(n, x)
    ensures Plain(l, RewriteActs(cfg, o, n, x, w))
  {
    hide SumText;
  }

  lemma RenameLruKeeps(s: State, t: State, o: string, n: string, e: RenameEnv)
    requires o in s.d.files && t.l.Between(n, s.d.files[o])
    ensures Safe(t, RenameLruActs(s, o, n, e))
    ensures ApplyAll(t, RenameLruActs(s, o, n, e)).l == t.l
    ensures ApplyAll(t, RenameLruActs(s, o, n, e)).d.pending == t.d.pending
  {
    var acts := RenameLruActs(s, o, n, e);
    PlainSafe(t, acts);
    if e.getOk {
      ApplyTwo(t, acts[0], acts[1]);
    }
  }

  /** After the S3 copy, every copy of the old file would do as a copy of the new one. */
  lemma CopiedBetween(s: State, o: string, n: string, p: Place)
    requires Inv(s) && MayRename(s, o, n) && o in s.d.files && o in s.d.At(p)
    ensures Apply(s, CopyFile(o, n)).l.Between(n, s.d.At(p)[o])
  {
    hide ParseFileDesc, FdName;
    assert s.l.Between(o, s.d.At(p)[o]);
  }

  lemma RenameEndPlain(s: State, l: Ledger, o: string, n: string, e: RenameEnv)
    requires !Live(l, o) && (CachedName(o) ==> CachedName(n))
    requires o in s.d.local ==> l.Between(n, s.d.local[o])
    requires RenameOk(s, o, e) && TearsLocal(s, o, e) ==> |l.Acked(n)| <= e.tornLocal.value
    ensures Plain(l, RenameDeleteActs(o, e)) && (RenameOk(s, o, e) ==> Plain(l, RenameLocalActs(s, o, n, e)))
  {
    hide ParseFileDesc, FdName;
    if RenameOk(s, o, e) && TearsLocal(s, o, e) {
      TornBetween(l, n, s.d.local[o], e.tornLocal.value);
    }
  }

  lemma RenameTailSafe(cfg: Config, s: State, o: string, n: string, e: RenameEnv)
    requires Good(s) && MayRename(s, o, n) && RenameCopies(s, o, e) && Tidy(s, o, e)
    ensures Safe(Apply(s, CopyFile(o, n)), RenameTail(cfg, s, o, n, e))
    ensures ApplyAll(Apply(s, CopyFile(o, n)), RenameTail(cfg, s, o, n, e)).l == Copied(s.l, o, n)
  {
    hide ParseFileDesc, FdName, Inv, NamesOk, Guarded, NamesGuarded, ApplyAll, Plain, Fresh;
    var t := Apply(s, CopyFile(o, n));
    CopiedBetween(s, o, n, S3);
    assert t.l.Acked(n) == s.l.Acked(o);
    if o in s.d.pending { CopiedBetween(s, o, n, Pending); }
    if o in s.d.local { CopiedBetween(s, o, n, Local); }
    var a1 := RenameLruActs(s, o, n, e);
    var a2 := RenamePendingActs(cfg, s, o, n, e);
    var a3 := RenameDeleteActs(o, e);
    var a4 := RenameLocalActs(s, o, n, e);
    RenameLruKeeps(s, t, o, n, e);
    RenamePendingSafe(cfg, s, ApplyAll(t, a1), o, n, e);
    SafeConcat(t, a1, a2);
    RenameEndPlain(s, t.l, o, n, e);
    PlainSafe(ApplyAll(t, a1 + a2), a3);
    SafeConcat(t, a1 + a2, a3);
    var u := ApplyAll(t, a1 + a2 + a3);
    if RenameOk(s, o, e) {
      PlainSafe(u, a4);
      SafeConcat(t, a1 + a2 + a3, a4);
    }
    assert a1 + a2 + a3 + [] == a1 + a2 + a3;
  }

  lemma RenameSafe(cfg: Config, s: State, o: string, n: string, e: RenameEnv)
    requires Good(s) && MayRename(s, o, n) && Tidy(s, o, e)
    ensures Safe(s, RenameActs(cfg, s, o, n, e))
  {
    if !s.c.closed && !s.c.lost && o in s.d.files {
      if e.copy.Failed? {
        if e.copy.took {
          SafeOne(s, CopyOrphan(o, n));
        }
      } else {
        var copy := CopyFile(o, n);
        SafeOne(s, copy);
        RenameTailSafe(cfg, s, o, n, e);
        var tail := RenameTail(cfg, s, o, n, e);
        SafeConcat(s, [copy], tail);
        ApplyAllConcat(s, [copy], tail);
        var t := ApplyAll(s, [copy] + tail);
        if (e.del.Done? || e.delAgain.Done?) && Absent(t.d, o) {
          SafeOne(t, Record(Forget(o)));
          SafeConcat(s, [copy] + tail, [Record(Forget(o))]);
        } else {
          assert [copy] + tail + [] == [copy] + tail;
        }
      }
    }
  }

  // ---------- goroutines ----------

  lemma {:induction false} FlattenMembers(todo: seq<seq<Action>>, a: Action)
    requires a in Flatten(todo)
    ensures exists i :: 0 <= i < |todo| && a in todo[i]
  {
    if a !in todo[0] {
      FlattenMembers(todo[1..], a);
      var i :| 0 <= i < |todo| - 1 && a in todo[1..][i];
      assert a in todo[i + 1];
    }
  }

  /** A merged run takes its steps from the goroutines. */
  lemma {:induction false} MergeMembers(todo: seq<seq<Action>>, sched: seq<nat>, a: Action)
    requires a in Merge(todo, sched)
    ensures exists i :: 0 <= i < |todo| && a in todo[i]
    decreases |sched|
  {
    if sched == [] {
      FlattenMembers(todo, a);
    } else if sched[0] < |todo| && todo[sched[0]] != [] {
      var j := sched[0];
      if a == todo[j][0] {
        assert a in todo[j];
      } else {
        var rest := todo[j := todo[j][1..]];
        MergeMembers(rest, sched[1..], a);
        var i :| 0 <= i < |rest| && a in rest[i];
        assert a in todo[i];
      }
    } else {
      MergeMembers(todo, sched[1..], a);
    }
  }

  lemma MergePlain(l: Ledger, todo: seq<seq<Action>>, sched: seq<nat>)
    requires forall i :: 0 <= i < |todo| ==> Plain(l, todo[i])
    ensures Plain(l, Merge(todo, sched))
  {
    forall a | a in Merge(todo, sched)
      ensures Harmless(l, a) && NameGuard(a)
    {
      MergeMembers(todo, sched, a);
    }
  }

  // ---------- the pending directory ----------

  lemma DropOnePlain(l: Ledger, n: string, on: bool)
    ensures Plain(l, if on then [Do(Del(Pending, n)), Do(DelSum(n))] else [])
  {
  }

  lemma {:induction false} DropPlain(cfg: Config, l: Ledger, d: Disk, names: seq<string>, r: ReadEnv)
    ensures Plain(l, DropActs(cfg, d, names, r))
  {
    hide ParseFileDesc, IsSidecar, Corrupt, Plain;
    if names == [] {
      PlainEmpty(l);
    } else {
      var n := names[|names| - 1];
      var on := Readable(d, n, r) && Corrupt(cfg, d, n, r);
      DropPlain(cfg, l, d, names[..|names| - 1], r);
      DropOnePlain(l, n, on);
      PlainConcat(l, DropActs(cfg, d, names[..|names| - 1], r), 
                  if on then [Do(Del(Pending, n)), Do(DelSum(n))] else []);
    }
  }

  lemma {:induction false} InsertMembers(f: PendingFile, fs: seq<PendingFile>, g: PendingFile)
    ensures g in Insert(f, fs) <==> g == f || g in fs
  {
    if fs == [] || Priority(fs[|fs| - 1].fd) <= Priority(f.fd) {
    } else {
      InsertMembers(f, fs[..|fs| - 1], g);
      assert fs == fs[..|fs| - 1] + [fs[|fs| - 1]];
    }
  }

  lemma {:induction false} SortedMembers(fs: seq<PendingFile>, g: PendingFile)
    ensures g in Sorted(fs) <==> g in fs
  {
    if fs != [] {
      SortedMembers(fs[..|fs| - 1], g);
      InsertMembers(fs[|fs| - 1], Sorted(fs[..|fs| - 1]), g);
      assert fs == fs[..|fs| - 1] + [fs[|fs| - 1]];
    }
  }

  /** What the directory scan returns: exactly the readable, well-named, uncorrupted files of the listing. */
  lemma {:induction false} PendingFilesMembers(cfg: Config, d: Disk, names: seq<string>, r: ReadEnv, f: PendingFile)
    ensures f in PendingFiles(cfg, d, names, r) <==>
            f.name in names && Readable(d, f.name, r) && !Corrupt(cfg, d, f.name, r)
            && f == PendingFile(f.name, d.pending[f.name], ParseFileDesc(f.name).value)
  {
    if names != [] {
      PendingFilesMembers(cfg, d, names[..|names| - 1], r, f);
      assert names == names[..|names| - 1] + [names[|names| - 1]];
    }
  }

  lemma UploadListMembers(cfg: Config, d: Disk, r: ReadEnv, f: PendingFile)
    requires f in UploadList(cfg, d, r)
    ensures Readable(d, f.name, r) && f.data == d.pending[f.name] && ParseFileDesc(f.name) == Some(f.fd)
  {
    SortedMembers(PendingFiles(cfg, d, r.names, r), f);
    PendingFilesMembers(cfg, d, r.names, r, f);
  }

  lemma {:induction false} AttemptPlain(l: Ledger, n: string, data: Bytes, failures: seq<bool>)
    requires l.Between(n, data)
    ensures Plain(l, AttemptActs(n, data, failures))
  {
    if failures != [] {
      AttemptPlain(l, n, data, failures[1..]);
    }
  }

  lemma RetryPlain(l: Ledger, f: PendingFile, e: RetryEnv)
    requires l.Between(f.name, f.data) && f.name == FdName(f.fd)
    ensures Plain(l, RetryActs(f, e))
  {
    AttemptPlain(l, f.name, f.data, e.failures);
  }

  lemma PassSafe(cfg: Config, s: State, e: PassEnv)
    requires Good(s)
    ensures Safe(s, PassActs(cfg, s, e))
  {
    var drops := DropActs(cfg, s.d, e.read.names, e.read);
    DropPlain(cfg, s.l, s.d, e.read.names, e.read);
    var fs := UploadList(cfg, s.d, e.read);
    var todo := RetryLists(fs, e.each);
    forall i | 0 <= i < |todo|
      ensures Plain(s.l, todo[i])
    {
      UploadListMembers(cfg, s.d, e.read, fs[i]);
      assert fs[i].name in s.d.At(Pending);
      assert IsFileName(fs[i].name);
      RetryPlain(s.l, fs[i], e.each(fs[i].name));
    }
    MergePlain(s.l, todo, e.sched);
    PlainSafe(s, PassActs(cfg, s, e));
  }

  // ---------- recovery ----------

  lemma PullPlain(cfg: Config, s: State, n: string, e: PullEnv)
    requires Inv(s)
    ensures Plain(s.l, PullActs(cfg, s, n, e))
  {
    hide SumText;
    assert n in s.d.shadow ==> n in s.d.At(Shadow);
  }

  lemma {:induction false} ShadowSafe(cfg: Config, s: State, names: seq<string>, pull: string -> PullEnv)
    requires Good(s)
    ensures Safe(s, ShadowActs(cfg, s, names, pull))
    decreases |names|
  {
    hide ParseFileDesc, FdName, Inv, NamesOk, Guarded, NamesGuarded, ApplyAll, Plain, PullActs;
    if names == [] {
      EmptySafe(s);
    } else {
      var acts := PullActs(cfg, s, names[0], pull(names[0]));
      PullPlain(cfg, s, names[0], pull(names[0]));
      PlainSafe(s, acts);
      SafeKeepsGood(s, acts);
      ShadowSafe(cfg, ApplyAll(s, acts), names[1..], pull);
      SafeConcat(s, acts, ShadowActs(cfg, ApplyAll(s, acts), names[1..], pull));
    }
  }

  lemma RecoverOnePlain(cfg: Config, l: Ledger, f: PendingFile, o: Outcome)
    requires l.Between(f.name, f.data) && f.name == FdName(f.fd)
    ensures Plain(l, RecoverOneActs(cfg, f, o))
  {
  }

  lemma ReuploadPlain(cfg: Config, s: State, e: PendEnv)
    requires Good(s)
    ensures Plain(s.l, ReuploadActs(cfg, s, e))
  {
    hide ParseFileDesc, Harmless, DropActs, Merge, RecoverOneActs, UploadList;
    DropPlain(cfg, s.l, s.d, e.read.names, e.read);
    var fs := UploadList(cfg, s.d, e.read);
    var todo := RecoverLists(cfg, fs, e.up);
    forall i | 0 <= i < |todo|
      ensures Plain(s.l, todo[i])
    {
      UploadListMembers(cfg, s.d, e.read, fs[i]);
      assert fs[i].name in s.d.At(Pending);
      assert IsFileName(fs[i].name);
      RecoverOnePlain(cfg, s.l, fs[i], e.up(fs[i].name));
    }
    MergePlain(s.l, todo, e.sched);
  }

  lemma SyncPendingSafe(cfg: Config, s: State, e: PendEnv)
    requires Good(s)
    ensures Safe(s, SyncPendingActs(cfg, s, e))
  {
    hide ParseFileDesc, FdName, Inv, NamesOk, Guarded, NamesGuarded, ApplyAll, Plain;
    var pulls := PullAllActs(cfg, s, e);
    if e.listOk {
      ShadowSafe(cfg, s, e.shadowNames, e.pull);
    } else {
      EmptySafe(s);
    }
    var t := ApplyAll(s, pulls);
    SafeKeepsGood(s, pulls);
    ReuploadPlain(cfg, t, e);
    PlainSafe(t, ReuploadActs(cfg, t, e));
    SafeConcat(s, pulls, ReuploadActs(cfg, t, e));
  }

  lemma {:induction false} LocalPlain(s: State, names: seq<string>, e: LocalEnv)
    requires Good(s)
    ensures Plain(s.l, LocalActs(s.d, names, e))
  {
    hide ParseFileDesc;
    if names != [] {
      LocalPlain(s, names[1..], e);
      assert names[0] in s.d.local ==> names[0] in s.d.At(Local);
    }
  }

  lemma {:induction false} WipeDeletesPlain(l: Ledger, listing: seq<FileDesc>, del: string -> Outcome)
    requires forall n :: !Live(l, n)
    ensures Plain(l, WipeDeletes(listing, del))
  {
    if listing != [] {
      WipeDeletesPlain(l, listing[1..], del);
    }
  }

  lemma WipeSafe(cfg: Config, s: State, e: WipeEnv)
    requires Good(s)
    ensures Safe(s, WipeActs(cfg, s, e))
  {
    hide ParseFileDesc, FdName, Inv, NamesOk, Guarded, NamesGuarded, ApplyAll;
    var acts := WipeActs(cfg, s, e);
    if acts == [] {
      EmptySafe(s);
    } else {
      var doom := Record(DoomAll);
      SafeOne(s, doom);
      var t := Apply(s, doom);
      NothingLive(s);
      WipeRestPlain(cfg, s, e, t.l);
      assert acts == [doom] + acts[1..];
      PlainSafe(t, acts[1..]);
      SafeConcat(s, [doom], acts[1..]);
    }
  }

  lemma NothingLive(s: State)
    requires Inv(s)
    ensures forall n :: !Live(Apply(s, Record(DoomAll)).l, n)
  {
  }

  lemma PlainTail(l: Ledger, o: Outcome, nested: bool)
    ensures Plain(l, []) && Plain(l, Effect(o, DelCurrent))
    ensures Plain(l, [Do(Purge(Lru))] + []) && Plain(l, [Do(Purge(Lru))] + ([Do(Purge(Local))] + []))
    ensures Plain(l, [Do(Purge(Lru))] + ([Do(Purge(Local))] + [Do(Purge(Pending)), Do(PurgeSums)]))
  {
  }

  lemma WipeRestPlain(cfg: Config, s: State, e: WipeEnv, l: Ledger)
    requires WipeActs(cfg, s, e) != [] && forall n :: !Live(l, n)
    ensures Plain(l, WipeActs(cfg, s, e)[1..])
  {
    hide FdName, Live, Plain;
    var start := [Do(Purge(Lru))]
      + (if e.rmOk then [Do(Purge(Local))] + (if cfg.nested then [Do(Purge(Pending)), Do(PurgeSums)] else []) else []);
    var end := if e.listOk then WipeDeletes(e.listing, e.del) + Effect(e.delCurrent, DelCurrent) else [];
    assert WipeActs(cfg, s, e)[1..] == start + end;
    WipeDeletesPlain(l, e.listing, e.del);
    var dels := WipeDeletes(e.listing, e.del);
    PlainTail(l, e.delCurrent, cfg.nested);
    PlainConcat(l, dels, Effect(e.delCurrent, DelCurrent));
    PlainConcat(l, start, end);
  }

  /** A manifest number scanned from a proper file name names that file. */
  lemma ManifestNameOf(n: string)
    requires IsFileName(n) && ManifestNum(n).Some?
    ensures FdName(FileDesc(Manifest, ManifestNum(n).value)) == n
  {
    assert n[0] == 'M';
    assert SkipSpace(n) == Some(n);
    assert DigitRun(n) == 0;
    assert ScanInt(n) == None;
  }

  lemma {:induction false} LatestManifestNamed(names: seq<string>)
    requires LatestManifest(names).Some?
    ensures var (num, n) := LatestManifest(names).value; n in names && ManifestNum(n) == Some(num) && num > 0
  {
    var best := LatestManifest(names[..|names| - 1]);
    var n := names[|names| - 1];
    if best.Some? {
      LatestManifestNamed(names[..|names| - 1]);
    }
  }

  lemma UsableManifestNamed(s: State, p: Place, names: seq<string>, readOk: string -> bool)
    requires Good(s) && UsableManifest(names, s.d.At(p), readOk).Some?
    ensures var (fd, data) := UsableManifest(names, s.d.At(p), readOk).value;
            FdName(fd) in s.d.At(p) && data == s.d.At(p)[FdName(fd)] && s.l.Between(FdName(fd), data)
            && IsInt64(fd.num)
  {
    LatestManifestNamed(names);
    var (num, n) := LatestManifest(names).value;
    assert s.l.Between(n, s.d.At(p)[n]);
    assert IsFileName(n);
    ManifestNameOf(n);
  }

  lemma RebuildSafe(cfg: Config, s: State, fd: FileDesc, data: Bytes, put: Outcome, e: CleanEnv)
    requires Good(s) && s.l.Between(FdName(fd), data)
    ensures Safe(s, RebuildActs(cfg, s, fd, data, put, e))
  {
    hide ParseFileDesc, FdName;
    var a1 := Effect(put, Do(Put(S3, FdName(fd), data)));
    var a2 := Effect(e.putCurrent, PutCurrent(CurrentContent(fd)));
    PlainSafe(s, a1);
    SafeKeepsGood(s, a1);
    var t := ApplyAll(s, a1);
    PlainSafe(t, a2);
    SafeKeepsGood(t, a2);
    if put.Failed? {
      WipeSafe(cfg, t, e.wipe);
      SafeConcat(s, a1, WipeActs(cfg, s, e.wipe));
    } else {
      var u := ApplyAll(t, a2);
      WipeSafe(cfg, u, e.wipe);
      var a3 := if e.putCurrent.Failed? then WipeActs(cfg, s, e.wipe) else [];
      assert Safe(u, a3);
      SafeConcat(t, a2, a3);
      SafeConcat(s, a1, a2 + a3);
    }
  }

  lemma VerifySafe(cfg: Config, s: State, e: CleanEnv)
    requires Good(s)
    ensures Safe(s, VerifyActs(cfg, s, e))
  {
    hide FdName, Safe, ApplyAll, Inv, NamesOk, WipeActs, PutLocalActs, PutPendingActs;
    EmptySafe(s);
    WipeSafe(cfg, s, e.wipe);
    if s.c.current.Some? && e.getCurrentOk && DecodeCurrent(s.c.current.value).Some? {
      VerifyCases(cfg, s, e, FdName(DecodeCurrent(s.c.current.value).value));
    }
  }

  lemma VerifyPutsPlain(s: State, m: string, e: CleanEnv)
    requires Inv(s)
    ensures Plain(s.l, PutLocalActs(s, m, e)) && Plain(s.l, PutPendingActs(s, m, e))
  {
    assert m in s.d.local ==> m in s.d.At(Local);
    assert m in s.d.pending ==> m in s.d.At(Pending);
  }

  lemma VerifyCases(cfg: Config, s: State, e: CleanEnv, m: string)
    requires Good(s)
    ensures
      var a1, a2 := PutLocalActs(s, m, e), PutPendingActs(s, m, e);
      Safe(s, a1) && Safe(s, a1 + a2 + [Do(Del(Pending, m)), Do(DelSum(m))])
          && Safe(s, a1 + a2 + WipeActs(cfg, s, e.wipe))
  {
    hide Guarded, NamesGuarded, ApplyAll, Inv, NamesOk, PutLocalActs, PutPendingActs;
    var a1, a2 := PutLocalActs(s, m, e), PutPendingActs(s, m, e);
    VerifyPutsPlain(s, m, e);
    PlainSafe(s, a1);
    PlainSafe(s, a1 + a2);
    PlainSafe(s, a1 + a2 + [Do(Del(Pending, m)), Do(DelSum(m))]);
    SafeKeepsGood(s, a1 + a2);
    WipeSafe(cfg, ApplyAll(s, a1 + a2), e.wipe);
    SafeConcat(s, a1 + a2, WipeActs(cfg, s, e.wipe));
  }

  lemma RecoverCurrentSafe(cfg: Config, s: State, e: CleanEnv)
    requires Good(s)
    ensures Safe(s, RecoverCurrentActs(cfg, s, e))
  {
    hide ParseFileDesc, FdName, Inv, NamesOk, Guarded, NamesGuarded, ApplyAll, Plain, RebuildActs, WipeActs,
         UsableManifest, ListedNames;
    EmptySafe(s);
    WipeSafe(cfg, s, e.wipe);
    match UsableManifest(e.localNames, s.d.local, e.readLocal)
    case Some((fd, data)) =>
      UsableManifestNamed(s, Local, e.localNames, e.readLocal);
      RebuildSafe(cfg, s, fd, data, e.putLocal, e);
    case None =>
      match UsableManifest(NonSidecars(e.pendingNames), s.d.pending, e.readPending)
      case None =>
      case Some((fd, data)) =>
        UsableManifestNamed(s, Pending, NonSidecars(e.pendingNames), e.readPending);
        RebuildSafe(cfg, s, fd, data, e.putPending, e);
        var acts := RebuildActs(cfg, s, fd, data, e.putPending, e);
        var on := e.putPending.Done? && e.putCurrent.Done?;
        var tail := if on then [Do(Del(Pending, FdName(fd))), Do(DelSum(FdName(fd)))] else [];
        DropOnePlain(ApplyAll(s, acts).l, FdName(fd), on);
        PlainSafe(ApplyAll(s, acts), tail);
        SafeConcat(s, acts, tail);
  }

  lemma CleanupSafe(cfg: Config, s: State, e: CleanEnv)
    requires Good(s)
    ensures Safe(s, CleanupActs(cfg, s, e))
  {
    PlainSafe(s, []);
    VerifySafe(cfg, s, e);
    RecoverCurrentSafe(cfg, s, e);
  }

  lemma LockSyncSafe(cfg: Config, s: State, e: LockEnv)
    requires Good(s)
    ensures Safe(s, LockSyncActs(cfg, s, e))
  {
    var a1 := SyncPendingActs(cfg, s, e.pend);
    SyncPendingSafe(cfg, s, e.pend);
    SafeKeepsGood(s, a1);
    var t := ApplyAll(s, a1);
    LocalPlain(t, e.local.names, e.local);
    PlainSafe(t, LocalSyncActs(t, e.local));
    SafeConcat(s, a1, LocalSyncActs(t, e.local));
  }

  lemma LockSafe(cfg: Config, s: State, e: LockEnv)
    requires Good(s)
    ensures Safe(s, LockActs(cfg, s, e))
  {
    hide ParseFileDesc, FdName, Inv, NamesOk, Guarded, NamesGuarded, ApplyAll, LocalSyncOk, CleanupActs, LockSyncActs,
         AfterPending;
    EmptySafe(s);
    PlainSafe(s, Effect(e.acquired, PutLock(e.id)));
    if !s.c.closed && e.acquired.Done? {
      var put := PutLock(e.id);
      SafeOne(s, put);
      SafeKeepsGood(s, [put]);
      var s0 := Apply(s, put);
      var sync := LockSyncActs(cfg, s0, e);
      LockSyncSafe(cfg, s0, e);
      SafeConcat(s, [put], sync);
      SafeKeepsGood(s0, sync);
      var t := ApplyAll(s0, sync);
      var clean := CleanupActs(cfg, t, e.clean);
      CleanupSafe(cfg, t, e.clean);
      SafeOne(ApplyAll(t, clean), SetHeld(true));
      SafeConcat(t, clean, [SetHeld(true)]);
      PlainSafe(t, Effect(e.unlock, DelLock));
      var last := if LocalSyncOk(AfterPending(cfg, s0, e), e.local) then clean + [SetHeld(true)]
          else Effect(e.unlock, DelLock);
      SafeConcat(s, [put] + sync, last);
    }
  }
}
