/** What each call leaves in each store and what it answers, case by case and in the source's own terms: file types,
    answers of S3 and the disk, the fields before. */
module Effects {
  import opened Scan
  import opened Names
  import opened Store
  import opened Programs
  import opened Guards
  import opened PendingDir
  import opened Recovery
  import opened Durability
  import opened Cleanup
  import opened Outcomes
  import opened Leftovers

  // ---------- sequences of steps ----------

  lemma NoStep(s: State)
    ensures ApplyAll(s, []) == s
  {
  }

  lemma StepThen(s: State, a: Action, rest: seq<Action>)
    ensures ApplyAll(s, [a] + rest) == ApplyAll(Apply(s, a), rest)
  {
    hide Apply;
    GuardedOne(s, a);
    ApplyAllConcat(s, [a], rest);
  }

  lemma EffectLeaves(s: State, o: Outcome, a: Action)
    ensures ApplyAll(s, Effect(o, a)) == if TakesEffect(o) then Apply(s, a) else s
  {
    NoStep(s);
    GuardedOne(s, a);
  }

  // ---------- writing ----------

  /** What is mirrored in the local cache: journals and manifests, never tables or temporary files. */
  function Mirrored(local: map<string, Bytes>, fd: FileDesc, data: Bytes, localOk: bool): map<string, Bytes> {
    match fd.ftype
    case Journal => if localOk then local[FdName(fd) := data] else local
    case Manifest => if localOk then local[FdName(fd) := data] else local
    case Table => local
    case Temp => local
  }

  /** Create registers the file with an empty LRU entry and touches no other store; a journal or manifest whose local
      directory cannot be made is left without a writer. */
  lemma CreateLeaves(s: State, fd: FileDesc, dirOk: bool)
    requires IsInt64(fd.num)
    ensures
      var n, t := FdName(fd), ApplyAll(s, CreateActs(s, FdName(fd), dirOk));
      if s.c.closed || s.c.lost then t == s
      else
        && t.c == s.c && t.d == s.d.(lru := s.d.lru[n := []])
        && t.l.written == s.l.written[n := []] && t.l.acked == s.l.acked - {n} && t.l.doomed == s.l.doomed - {n}
        && t.l.open == (if (fd.ftype == Journal || fd.ftype == Manifest) && !dirOk then s.l.open - {n}
                        else s.l.open + {n})
  {
    hide FdName, Absent, ApplyAll;
    ClassOfType(fd);
    NoStep(s);
    var n := FdName(fd);
    var a, b, c := Record(CreateNote(s.d, n)), Do(Put(Lru, n, [])), Record(CloseWriter(n));
    ApplyTwo(s, a, b);
    ApplyAllSnoc(s, [a, b], c);
    assert [a, b] + [] == [a, b];
  }

  /** Write puts the bytes behind the buffer; a journal or manifest is mirrored at once, a table or temporary file
      is not. */
  lemma WriteLeaves(s: State, fd: FileDesc, p: Bytes, localOk: bool)
    requires IsInt64(fd.num) && FdName(fd) in s.l.written
    ensures
      var n, t := FdName(fd), ApplyAll(s, WriteActs(s, FdName(fd), p, localOk));
      var buf := s.l.written[n] + p;
      t.c == s.c && t.l == s.l.(written := s.l.written[n := buf])
      && t.d == s.d.(local := Mirrored(s.d.local, fd, buf, localOk))
  {
    hide FdName, ApplyAll;
    ClassOfType(fd);
    var n := FdName(fd);
    var a, b := Record(Append(n, p)), Do(Put(Local, n, s.l.written[n] + p));
    GuardedOne(s, a);
    ApplyTwo(s, a, b);
    assert [a] + [] == [a] && [a] + [b] == [a, b];
  }

  /** A sidecar that was written, left as it was, or left with other content. */
  function Summed(cfg: Config, sums: map<string, string>, n: string, data: Bytes, w: SumWrite): map<string, string> {
    match w
    case SumDone => sums[n := SumText(cfg, data)]
    case SumFailed(None) => sums
    case SumFailed(Some(c)) => sums[n := c]
  }

  lemma SumLeaves(cfg: Config, s: State, n: string, data: Bytes, w: SumWrite)
    ensures ApplyAll(s, SumActs(cfg, n, data, w)) == s.(d := s.d.(sums := Summed(cfg, s.d.sums, n, data, w)))
  {
    hide SumText, ApplyAll;
    NoStep(s);
    GuardedOne(s, Do(PutSum(n, SumText(cfg, data))));
    if w.SumFailed? && w.left.Some? {
      GuardedOne(s, Do(PutSum(n, w.left.value)));
    }
  }

  /** persistToLocal: nothing if the pending file could not be written; else the file, its sidecar, and the shadow if
      that upload takes effect. */
  lemma PersistLeaves(cfg: Config, s: State, n: string, data: Bytes, e: PersistEnv)
    ensures
      ApplyAll(s, PersistActs(cfg, n, data, e)) ==
      if !e.fileOk then s
      else s.(d := s.d.(
        pending := s.d.pending[n := data], sums := Summed(cfg, s.d.sums, n, data, e.sum),
        shadow := if TakesEffect(e.shadow) then s.d.shadow[n := data] else s.d.shadow))
  {
    hide SumText, ApplyAll, SumActs, Effect, Summed;
    NoStep(s);
    if e.fileOk {
      var put, sums := Do(Put(Pending, n, data)), SumActs(cfg, n, data, e.sum);
      var shadow := Effect(e.shadow, Do(Put(Shadow, n, data)));
      assert PersistActs(cfg, n, data, e) == [put] + (sums + shadow);
      StepThen(s, put, sums + shadow);
      var t := Apply(s, put);
      SumLeaves(cfg, t, n, data, e.sum);
      ApplyAllConcat(t, sums, shadow);
      EffectLeaves(ApplyAll(t, sums), e.shadow, Do(Put(Shadow, n, data)));
    }
  }

  /** The stores after an upload that went through: on S3 and in the LRU, no longer pending, no sidecar, no shadow. */
  function Uploaded(d: Disk, n: string, data: Bytes): Disk {
    Disk(d.files[n := data], d.shadow - {n}, d.pending - {n}, d.local, d.lru[n := data], d.sums - {n})
  }

  lemma SettleLeaves(s: State, n: string, data: Bytes)
    ensures ApplyAll(s, SettleActs(n, data)) == s.(d := Uploaded(s.d, n, data))
  {
    hide ApplyAll;
    var a, b := Do(Put(S3, n, data)), Do(Put(Lru, n, data));
    var m := [Do(Del(Pending, n)), Do(DelSum(n)), Do(Del(Shadow, n))];
    assert SettleActs(n, data) == [a] + (m + [b]);
    StepThen(s, a, m + [b]);
    RemovePendingEffect(Apply(s, a), n);
    ApplyAllSnoc(Apply(s, a), m, b);
  }

  /** The stores after an upload that failed, with or without effect, and was persisted as far as the disk let it. */
  function Kept(cfg: Config, d: Disk, n: string, data: Bytes, e: UploadEnv): Disk {
    var f := d.(files := if TakesEffect(e.put) then d.files[n := data] else d.files);
    if !e.persist.fileOk then f
    else f.(
      pending := d.pending[n := data], sums := Summed(cfg, d.sums, n, data, e.persist.sum),
      shadow := if TakesEffect(e.persist.shadow) then d.shadow[n := data] else d.shadow)
  }

  lemma UploadLeaves(cfg: Config, s: State, n: string, data: Bytes, e: UploadEnv)
    ensures ApplyAll(s, UploadActs(cfg, n, data, e)) ==
            s.(d := if e.put.Done? then Uploaded(s.d, n, data) else Kept(cfg, s.d, n, data, e))
  {
    hide ApplyAll, SettleActs, PersistActs, Uploaded, Summed;
    if e.put.Done? {
      SettleLeaves(s, n, data);
    } else {
      var put := Do(Put(S3, n, data));
      EffectLeaves(s, e.put, put);
      ApplyAllConcat(s, Effect(e.put, put), PersistActs(cfg, n, data, e.persist));
      PersistLeaves(cfg, ApplyAll(s, Effect(e.put, put)), n, data, e.persist);
    }
  }

  /** Files other than manifests are limited in size. */
  predicate Oversized(cfg: Config, fd: FileDesc, data: Bytes) {
    fd.ftype != Manifest && |data| > cfg.maxFileSize
  }

  /** Sync gets as far as the upload. */
  predicate Uploading(cfg: Config, fd: FileDesc, buf: Bytes, lost: bool, localOk: bool) {
    !((fd.ftype == Journal || fd.ftype == Manifest) && !localOk) && !Oversized(cfg, fd, buf) && !lost
  }

  /** The stores after a Sync of the buffer. */
  function Synced(cfg: Config, d: Disk, fd: FileDesc, buf: Bytes, lost: bool, e: SyncEnv): Disk {
    var m := d.(local := Mirrored(d.local, fd, buf, e.localOk));
    if !Uploading(cfg, fd, buf, lost, e.localOk) then m
    else if e.up.put.Done? then Uploaded(m, FdName(fd), buf)
    else Kept(cfg, m, FdName(fd), buf, e.up)
  }

  lemma SyncedIsCached(cfg: Config, d: Disk, fd: FileDesc, buf: Bytes, lost: bool, e: SyncEnv)
    requires Uploading(cfg, fd, buf, lost, e.localOk) && e.up.put == Done
    ensures
      var t, n := Synced(cfg, d, fd, buf, lost, e), FdName(fd);
      t.lru == d.lru[n := buf] && t.files == d.files[n := buf] && t.pending == d.pending - {n}
  {
  }

  /** Sync: the local cache first; a table, journal or temporary file over the limit, or a lost lock, ends it
      there; then the upload. It returns nil exactly when all of that went through, and acknowledges the buffer
      exactly then. */
  lemma SyncLeaves(cfg: Config, s: State, fd: FileDesc, e: SyncEnv)
    requires IsInt64(fd.num) && FdName(fd) in s.l.written
    ensures
      var n, t := FdName(fd), ApplyAll(s, SyncActs(cfg, s, FdName(fd), e));
      var buf := s.l.written[n];
      var ok := Uploading(cfg, fd, buf, s.c.lost, e.localOk) && e.up.put.Done?;
      && t.c == s.c && t.d == Synced(cfg, s.d, fd, buf, s.c.lost, e) && (SyncOk(cfg, s, n, e) <==> ok)
      && t.l == if ok then s.l.(acked := s.l.acked[n := buf], reused := s.l.reused - {n}) else s.l
  {
    hide FdName, ApplyAll, UploadActs, Uploaded, Kept, CachedName, IsMetadataKey;
    ClassOfType(fd);
    NoStep(s);
    var n := FdName(fd);
    var mirror, up := MirrorActs(s, n), UploadActs(cfg, n, s.l.written[n], e.up);
    GuardedOne(s, Do(Put(Local, n, s.l.written[n])));
    var t := ApplyAll(s, mirror);
    ApplyAllConcat(s, mirror, up);
    UploadLeaves(cfg, t, n, s.l.written[n], e.up);
    ApplyAllSnoc(s, mirror + up, Record(Ack(n)));
    assert mirror + up + [] == mirror + up;
  }

  // ---------- reading ----------

  /** Open on an open storage succeeds exactly when the LRU has the name, or S3 answers and has it, or it is pending and
      can be read; the bytes come from the first of the three that has them; a failure says that the file does not exist
      exactly when S3 answered. Only what came from S3 and is not over the size limit enters the LRU. */
  lemma OpenExactly(cfg: Config, s: State, n: string, getOk: bool, readOk: bool)
    ensures
      var r, t := OpenOutcome(s, n, getOk, readOk), ApplyAll(s, OpenActs(cfg, s, n, getOk));
      if s.c.closed then r == NotOpened(Closed) && t == s
      else
        && (r.Opened? <==> n in s.d.lru || (getOk && n in s.d.files) || (n in s.d.pending && readOk))
        && (n in s.d.lru ==> r == Opened(s.d.lru[n]))
        && (n !in s.d.lru && getOk && n in s.d.files ==> r == Opened(s.d.files[n]))
        && (n !in s.d.lru && !(getOk && n in s.d.files) && n in s.d.pending && readOk ==> r == Opened(s.d.pending[n]))
        && (r.NotOpened? ==> (r.error == NotExist <==> getOk) && (r.error == Unreachable <==> !getOk))
        && t == s.(d := s.d.(lru := if n !in s.d.lru && getOk && n in s.d.files && |s.d.files[n]| <= cfg.maxFileSize
                                    then s.d.lru[n := s.d.files[n]] else s.d.lru))
  {
    hide ApplyAll;
    NoStep(s);
    if n in s.d.files {
      GuardedOne(s, Do(Put(Lru, n, s.d.files[n])));
    }
  }

  // ---------- removing ----------

  /** Remove deletes every copy before the S3 object; only journals and manifests have one in the local cache. The
      record goes exactly when the S3 delete was answered. */
  lemma RemoveLeaves(s: State, fd: FileDesc, e: Outcome)
    requires IsInt64(fd.num)
    ensures
      var n, t := FdName(fd), ApplyAll(s, RemoveActs(s, FdName(fd), e));
      if s.c.closed || s.c.lost then t == s
      else
        && t.c == s.c
        && t.d == Disk(if TakesEffect(e) then s.d.files - {n} else s.d.files, s.d.shadow - {n}, s.d.pending - {n},
                       if fd.ftype == Journal || fd.ftype == Manifest then s.d.local - {n} else s.d.local,
                       s.d.lru - {n}, s.d.sums - {n})
        && t.l.written == (if e.Done? then s.l.written - {n} else s.l.written)
        && t.l.acked == (if e.Done? then s.l.acked - {n} else s.l.acked) && t.l.open == s.l.open
  {
    hide FdName, ApplyAll, CachedName, RemoveDeletes;
    ClassOfType(fd);
    NoStep(s);
    if !s.c.closed && !s.c.lost {
      var n := FdName(fd);
      var doom, dels := Record(Doom(n)), RemoveDeletes(n, e);
      var t := Apply(s, doom);
      DeletesLeave(t, n, e);
      RemoveShape(s, n, e);
      StepThen(s, doom, dels);
      ApplyAllSnoc(s, [doom] + dels, Record(Forget(n)));
      assert [doom] + dels + [] == [doom] + dels;
    }
  }

  lemma DeletesLeave(s: State, n: string, e: Outcome)
    ensures ApplyAll(s, RemoveDeletes(n, e)) ==
            s.(d := Gone(s.d, n).(files := if TakesEffect(e) then s.d.files - {n} else s.d.files))
  {
    hide ApplyAll, CachedName;
    var a := [Do(Del(Lru, n))] + (if CachedName(n) then [Do(Del(Local, n))] else []);
    var b := [Do(Del(Pending, n)), Do(DelSum(n)), Do(Del(Shadow, n))];
    RemoveCachesEffect(s, n);
    RemovePendingEffect(ApplyAll(s, a), n);
    ApplyAllConcat(s, a, b);
    ApplyAllConcat(s, a + b, Effect(e, Do(Del(S3, n))));
    EffectLeaves(ApplyAll(s, a + b), e, Do(Del(S3, n)));
  }

  // ---------- renaming ----------

  /** The pending file goes along: moved, or written anew. */
  predicate Follows(d: Disk, o: string, e: RenameEnv) {
    o in d.pending && (e.moveOk || (e.readOk && e.writeOk))
  }

  function FilesRenamed(d: Disk, o: string, n: string, e: RenameEnv): map<string, Bytes>
    requires o in d.files
  {
    var copied := d.files[n := d.files[o]];
    if TakesEffect(e.del) || (e.del.Failed? && TakesEffect(e.delAgain)) then copied - {o} else copied
  }

  function LruRenamed(d: Disk, o: string, n: string, e: RenameEnv): map<string, Bytes>
    requires o in d.files
  {
    if e.getOk then (d.lru - {o})[n := d.files[o]] else d.lru
  }

  function PendingRenamed(d: Disk, o: string, n: string, e: RenameEnv): map<string, Bytes> {
    if o !in d.pending then d.pending
    else if e.moveOk then (d.pending - {o})[n := d.pending[o]]
    else if e.readOk && e.writeOk then d.pending[n := d.pending[o]] - {o}
    else if e.readOk && e.torn.Some? then d.pending[n := Torn(d.pending[o], e.torn.value)]
    else d.pending
  }

  function ShadowRenamed(d: Disk, o: string, n: string, e: RenameEnv): map<string, Bytes> {
    if !Follows(d, o, e) then d.shadow
    else if e.readOk && TakesEffect(e.shadow) then (d.shadow - {o})[n := d.pending[o]]
    else d.shadow - {o}
  }

  function SumsRenamed(cfg: Config, d: Disk, o: string, n: string, e: RenameEnv): map<string, string> {
    if !Follows(d, o, e) then d.sums
    else if !e.moveOk then Summed(cfg, d.sums - {o}, n, d.pending[o], e.sum)
    else if e.moveSumOk && o in d.sums then (d.sums - {o})[n := d.sums[o]]
    else d.sums
  }

  function LocalRenamed(d: Disk, o: FileDesc, n: string, e: RenameEnv): map<string, Bytes> {
    var m := FdName(o);
    if !(o.ftype == Journal || o.ftype == Manifest) || m !in d.local || !e.readLocalOk then d.local
    else if e.writeLocalOk then d.local[n := d.local[m]] - {m}
    else if e.tornLocal.Some? then d.local[n := Torn(d.local[m], e.tornLocal.value)] - {m}
    else d.local - {m}
  }

  lemma MoveShadowLeaves(s: State, o: string, n: string, data: Bytes, readOk: bool, out: Outcome)
    ensures ApplyAll(s, MoveShadowActs(o, n, data, readOk, out)) ==
            s.(d := s.d.(shadow := if readOk && TakesEffect(out) then (s.d.shadow - {o})[n := data]
                                   else s.d.shadow - {o}))
  {
    hide ApplyAll;
    var del := Do(Del(Shadow, o));
    var t := Apply(s, del);
    EffectLeaves(t, out, Do(Put(Shadow, n, data)));
    NoStep(t);
    StepThen(s, del, if readOk then Effect(out, Do(Put(Shadow, n, data))) else []);
  }

  lemma MoveBothLeaves(s: State, o: string, n: string, moveSumOk: bool)
    requires o in s.d.pending
    ensures ApplyAll(s, MoveBothActs(o, n, moveSumOk)) ==
            s.(d := s.d.(pending := (s.d.pending - {o})[n := s.d.pending[o]],
                         sums := if moveSumOk && o in s.d.sums then (s.d.sums - {o})[n := s.d.sums[o]] else s.d.sums))
  {
    hide ApplyAll;
    GuardedOne(s, Do(Move(o, n)));
    ApplyTwo(s, Do(Move(o, n)), Do(MoveSum(o, n)));
    assert MoveBothActs(o, n, moveSumOk) ==
           if moveSumOk then [Do(Move(o, n)), Do(MoveSum(o, n))] else [Do(Move(o, n))];
  }

  lemma RewriteLeaves(cfg: Config, s: State, o: string, n: string, data: Bytes, w: SumWrite)
    ensures ApplyAll(s, RewriteActs(cfg, o, n, data, w)) ==
            s.(d := s.d.(pending := s.d.pending[n := data] - {o}, sums := Summed(cfg, s.d.sums - {o}, n, data, w)))
  {
    hide ApplyAll, SumActs, Summed;
    var a, b, c := Do(Put(Pending, n, data)), Do(Del(Pending, o)), Do(DelSum(o));
    ApplyThree(s, a, b, c);
    ApplyAllConcat(s, [a, b, c], SumActs(cfg, n, data, w));
    SumLeaves(cfg, ApplyAll(s, [a, b, c]), n, data, w);
  }

  lemma CopyOverLeaves(s: State, p: Place, n: string, x: Bytes, ok: bool, torn: Option<nat>)
    ensures ApplyAll(s, CopyOverActs(p, n, x, ok, torn)) ==
            if ok then Apply(s, Do(Put(p, n, x)))
            else if torn.Some? then Apply(s, Do(Put(p, n, Torn(x, torn.value)))) else s
  {
    hide ApplyAll, Apply, Torn;
    NoStep(s);
    GuardedOne(s, Do(Put(p, n, x)));
    if torn.Some? {
      GuardedOne(s, Do(Put(p, n, Torn(x, torn.value))));
    }
  }

  lemma RenamePendingLeaves(cfg: Config, s: State, t: State, o: string, n: string, e: RenameEnv)
    requires t.d.pending == s.d.pending && t.d.sums == s.d.sums && t.d.shadow == s.d.shadow
    ensures ApplyAll(t, RenamePendingActs(cfg, s, o, n, e)) ==
            t.(d := t.d.(pending := PendingRenamed(s.d, o, n, e), sums := SumsRenamed(cfg, s.d, o, n, e),
                         shadow := ShadowRenamed(s.d, o, n, e)))
  {
    hide ApplyAll, MoveBothActs, MoveShadowActs, RewriteActs, CopyOverActs, Summed, Torn;
    NoStep(t);
    if o in s.d.pending {
      var x := s.d.pending[o];
      if e.moveOk {
        var a := MoveBothActs(o, n, e.moveSumOk);
        MoveBothLeaves(t, o, n, e.moveSumOk);
        ApplyAllConcat(t, a, MoveShadowActs(o, n, x, e.readOk, e.shadow));
        MoveShadowLeaves(ApplyAll(t, a), o, n, x, e.readOk, e.shadow);
      } else if e.readOk && e.writeOk {
        var a := RewriteActs(cfg, o, n, x, e.sum);
        RewriteLeaves(cfg, t, o, n, x, e.sum);
        ApplyAllConcat(t, a, MoveShadowActs(o, n, x, true, e.shadow));
        MoveShadowLeaves(ApplyAll(t, a), o, n, x, true, e.shadow);
      } else {
        CopyOverLeaves(t, Pending, n, x, false, e.torn);
      }
    }
  }

  lemma RenameDeleteLeaves(s: State, o: string, e: RenameEnv)
    ensures ApplyAll(s, RenameDeleteActs(o, e)) ==
            if TakesEffect(e.del) || (e.del.Failed? && TakesEffect(e.delAgain))
            then s.(d := s.d.(files := s.d.files - {o})) else s
  {
    hide ApplyAll;
    var del := Do(Del(S3, o));
    EffectLeaves(s, e.del, del);
    var t := ApplyAll(s, Effect(e.del, del));
    NoStep(t);
    EffectLeaves(t, e.delAgain, del);
    ApplyAllConcat(s, Effect(e.del, del), if e.del.Done? then [] else Effect(e.delAgain, del));
    assert s.d.files - {o} - {o} == s.d.files - {o};
  }

  lemma RenameLocalLeaves(s: State, t: State, o: FileDesc, n: string, e: RenameEnv)
    requires t.d.local == s.d.local && IsInt64(o.num)
    ensures ApplyAll(t, RenameLocalActs(s, FdName(o), n, e)) == t.(d := t.d.(local := LocalRenamed(s.d, o, n, e)))
  {
    hide FdName, ApplyAll, CopyOverActs, CachedName, Torn;
    ClassOfType(o);
    NoStep(t);
    var m := FdName(o);
    if m in s.d.local {
      var a := CopyOverActs(Local, n, s.d.local[m], e.writeLocalOk, e.tornLocal);
      CopyOverLeaves(t, Local, n, s.d.local[m], e.writeLocalOk, e.tornLocal);
      ApplyAllSnoc(t, a, Do(Del(Local, m)));
    }
  }

  lemma RenameLruLeaves(s: State, t: State, o: string, n: string, e: RenameEnv)
    requires o in s.d.files && t.d.lru == s.d.lru
    ensures ApplyAll(t, RenameLruActs(s, o, n, e)) == t.(d := t.d.(lru := LruRenamed(s.d, o, n, e)))
  {
    hide ApplyAll;
    NoStep(t);
    ApplyTwo(t, Do(Del(Lru, o)), Do(Put(Lru, n, s.d.files[o])));
  }

  /** The stores after a rename whose copy was made and reported, whatever failed after that. The local copy moves, or
      is lost when it cannot be written, only if one of the two deletes of the source was answered. */
  function RenamedStores(cfg: Config, d: Disk, o: FileDesc, n: string, e: RenameEnv): Disk
    requires FdName(o) in d.files
  {
    var m := FdName(o);
    Disk(FilesRenamed(d, m, n, e), ShadowRenamed(d, m, n, e), PendingRenamed(d, m, n, e),
         if e.del.Done? || e.delAgain.Done? then LocalRenamed(d, o, n, e) else d.local,
         LruRenamed(d, m, n, e), SumsRenamed(cfg, d, m, n, e))
  }

  lemma RenameTailLeaves(cfg: Config, s: State, t: State, o: FileDesc, n: string, e: RenameEnv)
    requires IsInt64(o.num) && FdName(o) in s.d.files
    requires t.d == s.d.(files := s.d.files[n := s.d.files[FdName(o)]])
    ensures ApplyAll(t, RenameTail(cfg, s, FdName(o), n, e)) == t.(d := RenamedStores(cfg, s.d, o, n, e))
  {
    hide FdName, ApplyAll, RenameLruActs, RenamePendingActs, RenameDeleteActs, RenameLocalActs, Summed, Torn,
         PendingRenamed, ShadowRenamed, SumsRenamed, LocalRenamed, LruRenamed;
    var m := FdName(o);
    var a, b := RenameLruActs(s, m, n, e), RenamePendingActs(cfg, s, m, n, e);
    var c, l := RenameDeleteActs(m, e), RenameLocalActs(s, m, n, e);
    RenameLruLeaves(s, t, m, n, e);
    ApplyAllConcat(t, a, b);
    RenamePendingLeaves(cfg, s, ApplyAll(t, a), m, n, e);
    ApplyAllConcat(t, a + b, c);
    RenameDeleteLeaves(ApplyAll(t, a + b), m, e);
    ApplyAllConcat(t, a + b + c, l);
    RenameLocalLeaves(s, ApplyAll(t, a + b + c), o, n, e);
    assert a + b + c + [] == a + b + c;
  }

  /** Rename, whatever fails: nothing happens when closed, fenced or without the object; a copy reported as failed may
      have been made; else the stores are as RenamedStores says. It returns nil exactly when the copy and one of the two
      deletes were answered. */
  lemma RenameLeaves(cfg: Config, s: State, o: FileDesc, n: string, e: RenameEnv)
    requires IsInt64(o.num) && (FdName(o) in s.d.files ==> FdName(o) in s.l.written)
    ensures
      var m, t := FdName(o), ApplyAll(s, RenameActs(cfg, s, FdName(o), n, e));
      && t.c == s.c
      && (t.d == if s.c.closed || s.c.lost || m !in s.d.files || e.copy == Failed(false) then s.d
                 else if e.copy == Failed(true) then s.d.(files := s.d.files[n := s.d.files[m]])
                 else RenamedStores(cfg, s.d, o, n, e))
      && (RenameOk(s, m, e) <==> !s.c.closed && !s.c.lost && m in s.d.files && e.copy == Done
                                 && (e.del == Done || e.delAgain == Done))
  {
    hide FdName, ApplyAll, RenameTail, RenamedStores, Absent;
    NoStep(s);
    var m := FdName(o);
    EffectLeaves(s, e.copy, CopyOrphan(m, n));
    if RenameCopies(s, m, e) {
      var copy, tail := CopyFile(m, n), RenameTail(cfg, s, m, n, e);
      StepThen(s, copy, tail);
      RenameTailLeaves(cfg, s, Apply(s, copy), o, n, e);
      ApplyAllSnoc(s, [copy] + tail, Record(Forget(m)));
      assert [copy] + tail + [] == [copy] + tail;
    }
  }

  // ---------- pulling shadow copies ----------

  /** A shadow copy is pulled if nothing of that name is pending and it can be read and written; else
      nothing happens. */
  lemma PullLeaves(cfg: Config, s: State, n: string, e: PullEnv)
    ensures ApplyAll(s, PullActs(cfg, s, n, e)) ==
            if n != "" && n in s.d.shadow && n !in s.d.pending && e.getOk && e.writeOk
            then s.(d := s.d.(pending := s.d.pending[n := s.d.shadow[n]],
                              sums := Summed(cfg, s.d.sums, n, s.d.shadow[n], e.sum)))
            else s
  {
    hide ApplyAll, SumActs, Summed;
    NoStep(s);
    if n != "" && n in s.d.shadow && n !in s.d.pending && e.getOk && e.writeOk {
      var put := Do(Put(Pending, n, s.d.shadow[n]));
      StepThen(s, put, SumActs(cfg, n, s.d.shadow[n], e.sum));
      SumLeaves(cfg, Apply(s, put), n, s.d.shadow[n], e.sum);
    }
  }

  // ---------- uploading the local cache ----------

  lemma {:induction false} LocalStops(s: State, d: Disk, names: seq<string>, e: LocalEnv, i: nat)
    requires i < |names| && Uploads(d, names[i], e) && e.put(names[i]).Failed?
    requires forall k :: 0 <= k < i && Uploads(d, names[k], e) ==> e.put(names[k]).Done?
    ensures
      var before := s.d.files + Mirror(d, names[..i], e);
      ApplyAll(s, LocalActs(d, names, e)) ==
      s.(d := s.d.(files := if e.put(names[i]).took then before[names[i] := d.local[names[i]]] else before))
    ensures !LocalOk(d, names, e)
    decreases i
  {
    hide ApplyAll, Mirror;
    var n := names[0];
    if Uploads(d, n, e) {
      EffectLeaves(s, e.put(n), Do(Put(S3, n, d.local[n])));
    }
    if i == 0 {
      MirrorNone(s, d, e);
      assert Effect(e.put(n), Do(Put(S3, n, d.local[n]))) + [] == Effect(e.put(n), Do(Put(S3, n, d.local[n])));
    } else {
      assert names[..i][1..] == names[1..][..i - 1] && names[..i][0] == n && names[1..][i - 1] == names[i];
      assert forall k :: 0 <= k < i - 1 ==> names[1..][k] == names[k + 1];
      MirrorStep(d, names[..i], e, s.d.files);
      if Uploads(d, n, e) {
        var a := Effect(e.put(n), Do(Put(S3, n, d.local[n])));
        LocalStops(ApplyAll(s, a), d, names[1..], e, i - 1);
        ApplyAllConcat(s, a, LocalActs(d, names[1..], e));
      } else {
        LocalStops(s, d, names[1..], e, i - 1);
      }
    }
  }

  lemma MirrorNone(s: State, d: Disk, e: LocalEnv)
    ensures forall names: seq<string> :: s.d.files + Mirror(d, names[..0], e) == s.d.files
  {
    assert Mirror(d, [], e) == map[];
    assert forall names: seq<string> :: names[..0] == [];
  }

  // ---------- CURRENT, LOCK, shutting down ----------

  /** LOCK is gone if the first delete takes effect, or it fails and the second takes effect, unless the lock was lost;
      otherwise it is as it was. */
  function Released(s: State, first: Outcome, second: Outcome): Option<string> {
    if !s.c.lost && (TakesEffect(first) || (first.Failed? && TakesEffect(second))) then None else s.c.lock
  }

  /** Unlock and the locker's Unlock change nothing but LOCK; the first clears lockHeld as well. */
  lemma UnlockLeaves(s: State, first: Outcome, second: Outcome)
    ensures ApplyAll(s, ReleaseActs(s, first, second)) == s.(c := s.c.(lock := Released(s, first, second)))
    ensures ApplyAll(s, UnlockActs(s, first, second)) ==
            s.(c := s.c.(held := false, lock := Released(s, first, second)))
  {
    hide ApplyAll;
    ReleaseLeaves(s, first, second);
    var off := SetHeld(false);
    StepThen(s, off, ReleaseActs(s, first, second));
    ReleaseLeaves(Apply(s, off), first, second);
    assert ReleaseActs(Apply(s, off), first, second) == ReleaseActs(s, first, second);
  }

  lemma ReleaseLeaves(s: State, first: Outcome, second: Outcome)
    ensures ApplyAll(s, ReleaseActs(s, first, second)) == s.(c := s.c.(lock := Released(s, first, second)))
  {
    hide ApplyAll;
    NoStep(s);
    EffectLeaves(s, first, DelLock);
    var t := ApplyAll(s, Effect(first, DelLock));
    EffectLeaves(t, second, DelLock);
    NoStep(t);
    ApplyAllConcat(s, Effect(first, DelLock), if first.Done? then [] else Effect(second, DelLock));
  }

  /** SetMeta changes CURRENT alone, to the name and a newline, and only on an open storage that has its lock. */
  lemma SetMetaLeaves(s: State, fd: FileDesc, e: Outcome)
    ensures ApplyAll(s, SetMetaActs(s, fd, e)) ==
            if s.c.closed || s.c.lost || !TakesEffect(e) then s
            else s.(c := s.c.(current := Some(FdName(fd) + "\n")))
  {
    hide ApplyAll, FdName;
    NoStep(s);
    EffectLeaves(s, e, PutCurrent(CurrentContent(fd)));
  }

  /** Close ends the storage and empties the LRU. */
  lemma ShutdownLeaves(s: State)
    ensures ApplyAll(s, ShutdownActs(s)) ==
            if s.c.closed then s else s.(c := s.c.(closed := true), d := s.d.(lru := map[]))
  {
    hide ApplyAll;
    NoStep(s);
    ApplyTwo(s, SetClosed, Do(Purge(Lru)));
  }

  // ---------- wiping and rebuilding ----------

  function Deleted(listing: seq<FileDesc>, del: string -> Outcome): set<string> {
    set fd | fd in listing && del(FdName(fd)) != Failed(false) :: FdName(fd)
  }

  lemma {:induction false} WipeDeletesTake(s: State, listing: seq<FileDesc>, del: string -> Outcome)
    ensures ApplyAll(s, WipeDeletes(listing, del)) == s.(d := s.d.(files := s.d.files - Deleted(listing, del)))
    decreases |listing|
  {
    hide FdName, ApplyAll;
    NoStep(s);
    if listing == [] {
      assert s.d.files - Deleted([], del) == s.d.files;
    } else {
      var n := FdName(listing[0]);
      var a := Effect(del(n), Do(Del(S3, n)));
      EffectLeaves(s, del(n), Do(Del(S3, n)));
      WipeDeletesTake(ApplyAll(s, a), listing[1..], del);
      ApplyAllConcat(s, a, WipeDeletes(listing[1..], del));
      DeletedStep(s.d.files, listing, del);
    }
  }

  lemma DeletedStep(files: map<string, Bytes>, listing: seq<FileDesc>, del: string -> Outcome)
    requires listing != []
    ensures
      var n := FdName(listing[0]);
      (if del(n) != Failed(false) then files - {n} else files) - Deleted(listing[1..], del)
      == files - Deleted(listing, del)
  {
    hide FdName;
    var n := FdName(listing[0]);
    assert forall fd :: fd in listing <==> fd == listing[0] || fd in listing[1..];
    assert Deleted(listing, del) == (if del(n) != Failed(false) then {n} else {}) + Deleted(listing[1..], del);
  }

  /** The state after removeAllOrphaned: without the lock nothing changes; else the LRU is empty, the local cache too if
      its directory could be removed, and the pending directory with it if it lies inside; if the bucket could be
      listed, the listed objects whose delete took effect are gone, and CURRENT. The shadows stay. */
  function Wiped(cfg: Config, s: State, e: WipeEnv): State {
    if s.c.lost || e.lostMeanwhile then s
    else
      var both := e.rmOk && cfg.nested;
      State(Disk(if e.listOk then s.d.files - Deleted(e.listing, e.del) else s.d.files, s.d.shadow,
                 if both then map[] else s.d.pending, if e.rmOk then map[] else s.d.local, map[],
                 if both then map[] else s.d.sums),
            ApplyNote(s.l, DoomAll),
            s.c.(current := if e.listOk && TakesEffect(e.delCurrent) then None else s.c.current))
  }

  lemma PurgesLeave(cfg: Config, s: State, rmOk: bool)
    ensures
      var nested := if cfg.nested then [Do(Purge(Pending)), Do(PurgeSums)] else [];
      var acts := [Record(DoomAll), Do(Purge(Lru))] + if rmOk then [Do(Purge(Local))] + nested else [];
      var both := rmOk && cfg.nested;
      ApplyAll(s, acts) ==
      State(s.d.(lru := map[], local := if rmOk then map[] else s.d.local, pending := if both then map[]
          else s.d.pending,
                 sums := if both then map[] else s.d.sums), ApplyNote(s.l, DoomAll), s.c)
  {
    hide ApplyAll, ApplyNote;
    var start := [Record(DoomAll), Do(Purge(Lru))];
    ApplyTwo(s, start[0], start[1]);
    var t := ApplyAll(s, start);
    assert t == State(s.d.(lru := map[]), ApplyNote(s.l, DoomAll), s.c);
    assert start + [] == start;
    if rmOk {
      var nested := if cfg.nested then [Do(Purge(Pending)), Do(PurgeSums)] else [];
      ApplyAllConcat(s, start, [Do(Purge(Local))] + nested);
      StepThen(t, Do(Purge(Local)), nested);
      var u := Apply(t, Do(Purge(Local)));
      NoStep(u);
      ApplyTwo(u, Do(Purge(Pending)), Do(PurgeSums));
    }
  }

  /** w is any state with the same lock status as s: cleanup plans the wipe before its uploads. */
  lemma WipeLeavesAll(cfg: Config, s: State, w: State, e: WipeEnv)
    requires s.c.lost == w.c.lost
    ensures ApplyAll(w, WipeActs(cfg, s, e)) == Wiped(cfg, w, e)
  {
    hide FdName, ApplyAll, WipeDeletes, ApplyNote, Deleted;
    NoStep(w);
    if !s.c.lost && !e.lostMeanwhile {
      var nested := if cfg.nested then [Do(Purge(Pending)), Do(PurgeSums)] else [];
      var start := [Record(DoomAll), Do(Purge(Lru))] + if e.rmOk then [Do(Purge(Local))] + nested else [];
      PurgesLeave(cfg, w, e.rmOk);
      var t := ApplyAll(w, start);
      var dels, last := WipeDeletes(e.listing, e.del), Effect(e.delCurrent, DelCurrent);
      assert WipeActs(cfg, s, e) == start + if e.listOk then dels + last else [];
      assert start + [] == start;
      WipeDeletesTake(t, e.listing, e.del);
      EffectLeaves(ApplyAll(t, dels), e.delCurrent, DelCurrent);
      ApplyAllConcat(t, dels, last);
      ApplyAllConcat(w, start, dels + last);
    }
  }

  /** An upload as it ends: in place if it took effect. */
  function Placed(s: State, m: string, x: Bytes, o: Outcome): State {
    if TakesEffect(o) then s.(d := s.d.(files := s.d.files[m := x])) else s
  }

  lemma PlacedBy(s: State, m: string, x: Bytes, o: Outcome)
    ensures ApplyAll(s, Effect(o, Do(Put(S3, m, x)))) == Placed(s, m, x, o)
  {
    EffectLeaves(s, o, Do(Put(S3, m, x)));
  }

  lemma DropLeaves(s: State, m: string)
    ensures ApplyAll(s, [Do(Del(Pending, m)), Do(DelSum(m))]) ==
            s.(d := s.d.(pending := s.d.pending - {m}, sums := s.d.sums - {m}))
  {
    ApplyTwo(s, Do(Del(Pending, m)), Do(DelSum(m)));
  }

  /** verifyCurrentManifest about a manifest missing from S3: its readable, non-empty local copy goes there;
      failing that, its readable, non-empty pending copy does and leaves the pending directory; failing that,
      everything is wiped. */
  lemma RestoreLeaves(cfg: Config, s: State, m: string, e: CleanEnv)
    ensures
      var t := ApplyAll(s, RestoreActs(cfg, s, m, e));
      var inLocal := m in s.d.local && e.readLocal(m) && s.d.local[m] != [];
      var inPending := m in s.d.pending && e.readPending(m) && s.d.pending[m] != [];
      var u := if inLocal then Placed(s, m, s.d.local[m], e.putLocal) else s;
      var v := if inPending then Placed(u, m, s.d.pending[m], e.putPending) else u;
      if inLocal && e.putLocal.Done? then t == u && RestoreOk(s, m, e)
      else if inPending && e.putPending.Done?
      then t == v.(d := v.d.(pending := s.d.pending - {m}, sums := s.d.sums - {m})) && RestoreOk(s, m, e)
      else t == Wiped(cfg, v, e.wipe) && (RestoreOk(s, m, e) <==> !s.c.lost && !e.wipe.lostMeanwhile && e.wipe.listOk)
  {
    hide ApplyAll, WipeActs, Wiped;
    var a, b := PutLocalActs(s, m, e), PutPendingActs(s, m, e);
    NoStep(s);
    if FromLocal(s, m, e) {
      PlacedBy(s, m, s.d.local[m], e.putLocal);
    }
    var u := ApplyAll(s, a);
    NoStep(u);
    if FromPending(s, m, e) {
      PlacedBy(u, m, s.d.pending[m], e.putPending);
    }
    ApplyAllConcat(s, a, b);
    var v := ApplyAll(s, a + b);
    ApplyAllConcat(s, a + b, WipeActs(cfg, s, e.wipe));
    ApplyAllConcat(s, a + b, [Do(Del(Pending, m)), Do(DelSum(m))]);
    DropLeaves(v, m);
    WipeLeavesAll(cfg, s, v, e.wipe);
  }

  /** A rebuild: the manifest first, then CURRENT; if either write is reported as failed, everything is wiped. */
  lemma RebuildLeaves(cfg: Config, s: State, fd: FileDesc, data: Bytes, put: Outcome, e: CleanEnv)
    ensures
      var t := ApplyAll(s, RebuildActs(cfg, s, fd, data, put, e));
      var u := Placed(s, FdName(fd), data, put);
      var v := if TakesEffect(e.putCurrent) then u.(c := u.c.(current := Some(CurrentContent(fd)))) else u;
      && t == (if put.Failed? then Wiped(cfg, u, e.wipe) else if e.putCurrent.Failed? then Wiped(cfg, v, e.wipe) else v)
      && (RebuildOk(s, put, e) <==>
            (put.Done? && e.putCurrent.Done?) || (!s.c.lost && !e.wipe.lostMeanwhile && e.wipe.listOk))
  {
    hide ApplyAll, WipeActs, Wiped, FdName, CurrentContent;
    var m := FdName(fd);
    var a, b := Effect(put, Do(Put(S3, m, data))), Effect(e.putCurrent, PutCurrent(CurrentContent(fd)));
    var wipe := WipeActs(cfg, s, e.wipe);
    PlacedBy(s, m, data, put);
    var u := ApplyAll(s, a);
    if put.Failed? {
      ApplyAllConcat(s, a, wipe);
      WipeLeavesAll(cfg, s, u, e.wipe);
    } else {
      EffectLeaves(u, e.putCurrent, PutCurrent(CurrentContent(fd)));
      ApplyAllConcat(s, a, b + wipe);
      ApplyAllConcat(s, a, b);
      ApplyAllConcat(u, b, wipe);
      WipeLeavesAll(cfg, s, ApplyAll(u, b), e.wipe);
      assert b + [] == b;
    }
  }

  /** The manifest to rebuild from: the one with the highest number above zero, if it can be read and is not empty; a
      lower one is never used in its place. */
  lemma HighestIsUsed(names: seq<string>, m: map<string, Bytes>, readOk: string -> bool, n: string)
    requires n in names && ManifestNum(n).Some? && ManifestNum(n).value > 0
    requires forall k :: k in names && k != n && ManifestNum(k).Some? ==> ManifestNum(k).value < ManifestNum(n).value
    ensures
      UsableManifest(names, m, readOk) ==
      if n in m && readOk(n) && m[n] != [] then Some((FileDesc(Manifest, ManifestNum(n).value), m[n])) else None
  {
    hide ManifestNum;
    LatestIsHighest(names);
    if LatestManifest(names).Some? {
      LatestHasNum(names);
    }
  }

  /** Sidecars are never taken for manifests in the pending directory, all else is. */
  lemma {:induction false} SidecarsLeftOut(names: seq<string>, n: string)
    ensures n in NonSidecars(names) <==> n in names && !IsSidecar(n)
  {
    hide IsSidecar;
    if names != [] {
      SidecarsLeftOut(names[..|names| - 1], n);
      assert names == names[..|names| - 1] + [names[|names| - 1]];
    }
  }

  /** CURRENT decodes to what the name in it parses to, whatever blanks are around the name. */
  lemma CurrentDecodes(pre: string, name: string, post: string)
    requires AllSpace(pre) && AllSpace(post) && name != [] && !IsSpace(name[0]) && !IsSpace(name[|name| - 1])
    ensures DecodeCurrent(pre + name + post) == ParseFileDesc(name)
  {
    hide ParseFileDesc, TrimSpace;
    TrimExactly(pre, name, post);
  }

  lemma {:induction false} LatestHasNum(names: seq<string>)
    ensures LatestManifest(names).Some? ==>
              LatestManifest(names).value.1 in names
              && ManifestNum(LatestManifest(names).value.1) == Some(LatestManifest(names).value.0)
  {
    hide ManifestNum;
    LatestIsHighest(names);
  }

  /** Without CURRENT and without a manifest to rebuild it from, cleanup wipes exactly when the bucket
      lists something. */
  lemma NothingToRebuild(cfg: Config, s: State, e: CleanEnv)
    requires s.c.current.None? && e.existsCurrentOk && e.listOk && RebuildSource(s, e).None?
    ensures
      var t := ApplyAll(s, CleanupActs(cfg, s, e));
      if exists n :: (n in s.d.files || n in s.d.shadow) && ParseFileDesc(n).Some?
      then t == Wiped(cfg, s, e.wipe)
           && (CleanupOk(s, e) <==> !s.c.lost && !e.wipe.lostMeanwhile && e.wipe.listOk)
      else t == s && CleanupOk(s, e)
  {
    hide ApplyAll, WipeActs, Wiped, ParseFileDesc, UsableManifest, NonSidecars;
    NoStep(s);
    WipeLeavesAll(cfg, s, s, e.wipe);
    assert (exists n :: (n in s.d.files || n in s.d.shadow) && ParseFileDesc(n).Some?) <==> ListedNames(s.d) != {} by {
      if n :| (n in s.d.files || n in s.d.shadow) && ParseFileDesc(n).Some? {
        assert n in ListedNames(s.d);
      }
    }
  }

  /** So orphaned files go: with S3 answering and the lock held, a cleanup without CURRENT and without a manifest leaves
      no object of the database and returns nil. */
  lemma OrphansGo(cfg: Config, s: State, e: CleanEnv)
    requires Good(s) && s.c.current.None? && !s.c.lost && e.existsCurrentOk && e.listOk && RebuildSource(s, e).None?
    requires !e.wipe.lostMeanwhile && e.wipe.listOk && forall n :: e.wipe.del(n) == Done
    requires forall n :: n in s.d.files ==> ParseFileDesc(n).Some? && ParseFileDesc(n).value in e.wipe.listing
    ensures ApplyAll(s, CleanupActs(cfg, s, e)).d.files == map[] && CleanupOk(s, e)
  {
    hide ParseFileDesc, FdName, ApplyAll, CleanupActs, CleanupOk, UsableManifest, NonSidecars;
    NothingToRebuild(cfg, s, e);
    forall n | n in s.d.files
      ensures n in Deleted(e.wipe.listing, e.wipe.del)
    {
      ObjectIsListed(s, n, e.wipe);
    }
    assert s.d.files - Deleted(e.wipe.listing, e.wipe.del) == map[];
  }

  lemma ObjectIsListed(s: State, n: string, e: WipeEnv)
    requires Good(s) && n in s.d.files && ParseFileDesc(n).Some? && ParseFileDesc(n).value in e.listing
    requires e.del(n) == Done
    ensures n in Deleted(e.listing, e.del)
  {
    hide ParseFileDesc, FdName, CachedName;
    assert n in s.d.At(S3) && s.l.Between(n, s.d.At(S3)[n]);
    assert IsFileName(n);
  }

  /** Without CURRENT but with a manifest, cleanup rebuilds from it; one found in the pending directory leaves it once
      both writes were answered. */
  lemma RebuiltLeaves(cfg: Config, s: State, e: CleanEnv)
    requires s.c.current.None? && e.existsCurrentOk && e.listOk && RebuildSource(s, e).Some?
    ensures
      var (fd, data) := RebuildSource(s, e).value;
      var fromLocal := UsableManifest(e.localNames, s.d.local, e.readLocal).Some?;
      var put := if fromLocal then e.putLocal else e.putPending;
      var r := ApplyAll(s, RebuildActs(cfg, s, fd, data, put, e));
      && ApplyAll(s, CleanupActs(cfg, s, e)) ==
         (if !fromLocal && put.Done? && e.putCurrent.Done?
          then r.(d := r.d.(pending := r.d.pending - {FdName(fd)}, sums := r.d.sums - {FdName(fd)})) else r)
      && (CleanupOk(s, e) <==>
            (put.Done? && e.putCurrent.Done?) || (!s.c.lost && !e.wipe.lostMeanwhile && e.wipe.listOk))
  {
    hide ApplyAll, RebuildActs, WipeActs, FdName, UsableManifest, NonSidecars;
    var (fd, data) := RebuildSource(s, e).value;
    var put := if UsableManifest(e.localNames, s.d.local, e.readLocal).Some? then e.putLocal else e.putPending;
    var acts, drop := RebuildActs(cfg, s, fd, data, put, e), [Do(Del(Pending, FdName(fd))), Do(DelSum(FdName(fd)))];
    ApplyAllConcat(s, acts, drop);
    DropLeaves(ApplyAll(s, acts), FdName(fd));
    assert acts + [] == acts;
  }

  /** With CURRENT, cleanup does nothing when its manifest is on S3 or a call is not answered, wipes when CURRENT does
      not decode, and otherwise does as RestoreLeaves says. */
  lemma VerifyLeaves(cfg: Config, s: State, e: CleanEnv)
    requires s.c.current.Some?
    ensures
      var t := ApplyAll(s, CleanupActs(cfg, s, e));
      match DecodeCurrent(s.c.current.value)
      case None =>
        if e.existsCurrentOk && e.getCurrentOk
        then t == Wiped(cfg, s, e.wipe)
             && (CleanupOk(s, e) <==> !s.c.lost && !e.wipe.lostMeanwhile && e.wipe.listOk)
        else t == s && !CleanupOk(s, e)
      case Some(fd) =>
        if e.existsCurrentOk && e.getCurrentOk && e.existsManifestOk && FdName(fd) !in s.d.files
        then t == ApplyAll(s, RestoreActs(cfg, s, FdName(fd), e))
             && (CleanupOk(s, e) <==> RestoreOk(s, FdName(fd), e))
        else t == s && (CleanupOk(s, e) <==> e.existsCurrentOk && e.getCurrentOk && e.existsManifestOk)
  {
    hide ApplyAll, WipeActs, Wiped, FdName, DecodeCurrent, RestoreActs, RestoreOk;
    NoStep(s);
    WipeLeavesAll(cfg, s, s, e.wipe);
  }

  // ---------- Lock ----------

  /** Cleanup touches neither LOCK nor a flag. */
  lemma CleanupKeepsLock(cfg: Config, s: State, e: CleanEnv)
    ensures
      var t := ApplyAll(s, CleanupActs(cfg, s, e));
      t.c == s.c.(current := t.c.current)
  {
    hide ApplyAll, CleanupActs, CleanupOk, RebuildActs, RestoreActs, FdName, DecodeCurrent, CurrentContent,
         ParseFileDesc,
         RestoreOk, Wiped, RebuildSource;
    WipeKeepsLock(cfg, s, e.wipe);
    if s.c.current.Some? {
      VerifyLeaves(cfg, s, e);
      if DecodeCurrent(s.c.current.value).Some? {
        RestoreKeepsLock(cfg, s, FdName(DecodeCurrent(s.c.current.value).value), e);
      }
    } else if !e.existsCurrentOk || !e.listOk {
      NothingAnswered(cfg, s, e);
    } else if RebuildSource(s, e).None? {
      NothingToRebuild(cfg, s, e);
    } else {
      RebuiltLeaves(cfg, s, e);
      var (fd, data) := RebuildSource(s, e).value;
      RebuildKeepsLock(cfg, s, fd, data, e.putLocal, e);
      RebuildKeepsLock(cfg, s, fd, data, e.putPending, e);
    }
  }

  lemma WipeKeepsLock(cfg: Config, s: State, e: WipeEnv)
    ensures Wiped(cfg, s, e).c == s.c.(current := Wiped(cfg, s, e).c.current)
  {
    hide ApplyNote, Deleted;
  }

  lemma RestoreKeepsLock(cfg: Config, s: State, m: string, e: CleanEnv)
    ensures var t := ApplyAll(s, RestoreActs(cfg, s, m, e)); t.c == s.c.(current := t.c.current)
  {
    hide ApplyAll, RestoreActs, RestoreOk, Wiped;
    RestoreLeaves(cfg, s, m, e);
    forall w: State | w.c == s.c
      ensures Wiped(cfg, w, e.wipe).c == s.c.(current := Wiped(cfg, w, e.wipe).c.current)
    {
      WipeKeepsLock(cfg, w, e.wipe);
    }
  }

  lemma RebuildKeepsLock(cfg: Config, s: State, fd: FileDesc, data: Bytes, put: Outcome, e: CleanEnv)
    ensures var t := ApplyAll(s, RebuildActs(cfg, s, fd, data, put, e)); t.c == s.c.(current := t.c.current)
  {
    hide ApplyAll, RebuildActs, RebuildOk, Wiped, FdName, CurrentContent;
    RebuildLeaves(cfg, s, fd, data, put, e);
    var u := Placed(s, FdName(fd), data, put);
    WipeKeepsLock(cfg, u, e.wipe);
    WipeKeepsLock(cfg, u.(c := u.c.(current := Some(CurrentContent(fd)))), e.wipe);
  }

  lemma NothingAnswered(cfg: Config, s: State, e: CleanEnv)
    requires s.c.current.None? && (!e.existsCurrentOk || !e.listOk)
    ensures ApplyAll(s, CleanupActs(cfg, s, e)) == s && !CleanupOk(s, e)
  {
    NoStep(s);
  }

  /** The local cache could be read and every file of it that is uploaded got through. */
  predicate CacheUploads(local: map<string, Bytes>, e: LocalEnv) {
    && e.dirOk
    && forall n :: n in e.names && n != "LOCK" && n != "CURRENT" && n in local && e.readOk(n) ==> e.put(n).Done?
  }

  lemma CacheUploadsMeans(s: State, e: LocalEnv)
    ensures LocalSyncOk(s, e) <==> CacheUploads(s.d.local, e)
  {
    assert LocalOk(s.d, e.names, e) <==> forall n :: n in e.names ==> Uploads(s.d, n, e) ==> e.put(n).Done?;
  }

  lemma SyncKeeps(cfg: Config, s: State, e: LockEnv)
    ensures
      var t := ApplyAll(s, LockSyncActs(cfg, s, e));
      && t.c == s.c && (LocalSyncOk(AfterPending(cfg, s, e), e.local) <==> CacheUploads(s.d.local, e.local))
  {
    hide ApplyAll, SyncPendingActs, LocalActs;
    var a := SyncPendingActs(cfg, s, e.pend);
    var t := ApplyAll(s, a);
    SyncPendingAdds(cfg, s, e.pend);
    LocalAdds(t.d, e.local.names, e.local);
    AddsKeep(s, LockSyncActs(cfg, s, e));
    forall x | x in a
      ensures OffLocalSteps(x)
    {
      SyncOffLocal(cfg, s, e.pend, x);
    }
    hide Elsewhere;
    PlaceKept(s, a, Local);
    assert t.d.local == t.d.At(Local) && s.d.local == s.d.At(Local);
    CacheUploadsMeans(t, e.local);
  }

  predicate OffLocalSteps(a: Action) {
    a.Do? && Elsewhere(a.io, Local)
  }

  lemma {:induction false} PullsOffLocal(cfg: Config, s: State, names: seq<string>, pull: string -> PullEnv)
    ensures forall x :: x in ShadowActs(cfg, s, names, pull) ==> OffLocalSteps(x)
    decreases |names|
  {
    hide SumText;
    if names != [] {
      var acts := PullActs(cfg, s, names[0], pull(names[0]));
      PullsOffLocal(cfg, ApplyAll(s, acts), names[1..], pull);
    }
  }

  lemma {:induction false} DropsOffLocal(cfg: Config, d: Disk, names: seq<string>, r: ReadEnv)
    ensures forall x :: x in DropActs(cfg, d, names, r) ==> OffLocalSteps(x)
  {
    hide Readable, Corrupt;
    if names != [] {
      DropsOffLocal(cfg, d, names[..|names| - 1], r);
    }
  }

  lemma RecoverOffLocal(cfg: Config, f: PendingFile, o: Outcome)
    ensures forall x :: x in RecoverOneActs(cfg, f, o) ==> OffLocalSteps(x)
  {
    hide FdName;
  }

  lemma SyncOffLocal(cfg: Config, s: State, e: PendEnv, x: Action)
    requires x in SyncPendingActs(cfg, s, e)
    ensures OffLocalSteps(x)
  {
    hide UploadList, RecoverOneActs, Merge, DropActs, ShadowActs, ApplyAll, OffLocalSteps;
    PullsOffLocal(cfg, s, e.shadowNames, e.pull);
    var t := ApplyAll(s, PullAllActs(cfg, s, e));
    DropsOffLocal(cfg, t.d, e.read.names, e.read);
    var fs := UploadList(cfg, t.d, e.read);
    var todo := RecoverLists(cfg, fs, e.up);
    if x in Merge(todo, e.sched) {
      MergeMembers(todo, e.sched, x);
      var i :| 0 <= i < |todo| && x in todo[i];
      RecoverOffLocal(cfg, fs[i], e.up(fs[i].name));
    }
  }

  /** Lock and the fields beside the stores of copies: nothing on a closed storage; LOCK as the acquisition leaves it
      when that fails; when it succeeds, the process holds the lock and LOCK names it exactly if the local cache could
      be uploaded, else LOCK goes if its delete takes effect. CURRENT changes only in the first of these. */
  lemma LockLeaves(cfg: Config, s: State, e: LockEnv)
    ensures
      var t := ApplyAll(s, LockActs(cfg, s, e));
      if s.c.closed then t == s
      else if e.acquired.Failed? then t == (if e.acquired.took then s.(c := s.c.(lock := Some(e.id))) else s)
      else if CacheUploads(s.d.local, e.local)
      then t.c == s.c.(lock := Some(e.id), held := true, current := t.c.current)
      else t.c == s.c.(lock := if TakesEffect(e.unlock) then None else Some(e.id))
  {
    hide ApplyAll, LockSyncActs, CleanupActs, AfterPending, LocalSyncOk, CacheUploads;
    NoStep(s);
    EffectLeaves(s, e.acquired, PutLock(e.id));
    if !s.c.closed && e.acquired.Done? {
      var s0 := Apply(s, PutLock(e.id));
      var take, sync := PutLock(e.id), LockSyncActs(cfg, s0, e);
      SyncKeeps(cfg, s0, e);
      StepThen(s, take, sync);
      var u := ApplyAll(s0, sync);
      var clean, free := CleanupActs(cfg, u, e.clean), Effect(e.unlock, DelLock);
      ApplyAllConcat(s, [take] + sync, clean + [SetHeld(true)]);
      ApplyAllConcat(s, [take] + sync, free);
      ApplyAllSnoc(u, clean, SetHeld(true));
      CleanupKeepsLock(cfg, u, e.clean);
      EffectLeaves(u, e.unlock, DelLock);
    }
  }

  // ---------- a file that never reached S3 ----------

  /** Close is Sync with the writer gone, whatever Sync answers. */
  lemma CloseLeaves(cfg: Config, s: State, fd: FileDesc, e: SyncEnv)
    requires FdName(fd) in s.l.written
    ensures
      var n := FdName(fd);
      var t, u := ApplyAll(s, CloseActs(cfg, s, n, e)), ApplyAll(s, SyncActs(cfg, s, n, e));
      t.d == u.d && t.c == u.c && t.l == u.l.(open := s.l.open - {n})
  {
    hide FdName, ApplyAll, CachedName, TooLarge, UploadActs;
    var n := FdName(fd);
    var off := Record(CloseWriter(n));
    StepThen(s, off, SyncActs(cfg, s, n, e));
    SyncKinds(cfg, s, n, e);
    SameSteps(s, Apply(s, off), SyncActs(cfg, s, n, e), n);
  }

  lemma SyncKinds(cfg: Config, s: State, n: string, e: SyncEnv)
    requires n in s.l.written
    ensures forall a :: a in SyncActs(cfg, s, n, e) ==> a.Do? || (a.Record? && a.note.Ack?)
  {
    hide CachedName, TooLarge, SumText;
    assert forall a :: a in UploadActs(cfg, n, s.l.written[n], e.up) ==> a.Do?;
  }

  lemma {:induction false} SameSteps(s: State, t: State, acts: seq<Action>, n: string)
    requires t == s.(l := s.l.(open := s.l.open - {n})) && forall a :: a in acts ==> a.Do? || (a.Record? && a.note.Ack?)
    ensures
      var u := ApplyAll(s, acts);
      ApplyAll(t, acts) == u.(l := u.l.(open := s.l.open - {n})) && u.l.open == s.l.open
  {
    hide ApplyIo;
    if acts != [] {
      var front := acts[..|acts| - 1];
      assert forall a :: a in front ==> a in acts;
      SameSteps(s, t, front, n);
      assert acts[|acts| - 1] in acts;
    }
  }

  /** The upload at Close is tried, fails and is persisted, and S3 will not answer with an older object of that name. */
  predicate OnlyPersists(cfg: Config, s: State, fd: FileDesc, e: SyncEnv, getOk: bool)
    requires FdName(fd) in s.l.written
  {
    && !s.c.lost && !Oversized(cfg, fd, s.l.written[FdName(fd)])
    && (fd.ftype == Journal || fd.ftype == Manifest ==> e.localOk)
    && e.up.put.Failed? && e.up.persist.fileOk
    && (getOk && FdName(fd) in s.d.files ==> e.up.put.took)
  }

  /** What could only be persisted is read back. Wherever a run has got to: after a Close whose upload fails and
      is persisted, and a crash, Open returns exactly what was written, unless S3 answers with an older object of
      that name. */
  lemma PersistedIsRead(cfg: Config, s: State, fd: FileDesc, e: SyncEnv, k: nat, getOk: bool)
    requires IsInt64(fd.num)
    requires FdName(fd) in s.l.written && OnlyPersists(cfg, s, fd, e, getOk)
    requires k >= |CloseActs(cfg, s, FdName(fd), e)|
    ensures
      var t := After(cfg, s, Call(EClose(FdName(fd), e), Some(k)));
      OpenOutcome(t, FdName(fd), getOk, true) == Opened(s.l.written[FdName(fd)])
  {
    hide FdName, ApplyAll, CloseActs, SyncActs, SyncOk, Disciplined, Summed;
    var n := FdName(fd);
    var acts := CloseActs(cfg, s, n, e);
    assert acts[..|acts|] == acts;
    ApplyAllSnoc(s, acts, Crash);
    CloseLeaves(cfg, s, fd, e);
    SyncLeaves(cfg, s, fd, e);
  }

  // ---------- one file among many ----------

  function Find<T>(m: map<string, T>, n: string): Option<T> {
    if n in m then Some(m[n]) else None
  }

  /** The same copies of n, sidecar included. */
  ghost predicate SameCopies(d: Disk, e: Disk, n: string) {
    (forall p :: Find(d.At(p), n) == Find(e.At(p), n)) && Find(d.sums, n) == Find(e.sums, n)
  }

  lemma OtherStep(d: Disk, a: Action, k: string, n: string)
    requires OnFile(a, k) && k != n
    ensures SameCopies(ApplyIo(d, a.io), d, n)
  {
    hide ApplyIo, Disk.At;
    OneFileSums(d, a.io);
    forall p
      ensures Find(ApplyIo(d, a.io).At(p), n) == Find(d.At(p), n)
    {
      OneFileEffect(d, a.io, p);
    }
  }

  lemma OwnStep(d: Disk, e: Disk, a: Action, n: string)
    requires OnFile(a, n) && SameCopies(d, e, n)
    ensures SameCopies(ApplyIo(d, a.io), ApplyIo(e, a.io), n)
  {
    hide ApplyIo, Disk.At;
    OneFileSums(d, a.io);
    OneFileSums(e, a.io);
    forall p
      ensures Find(ApplyIo(d, a.io).At(p), n) == Find(ApplyIo(e, a.io).At(p), n)
    {
      OneFileEffect(d, a.io, p);
      OneFileEffect(e, a.io, p);
      assert Find(d.At(p), n) == Find(e.At(p), n);
    }
  }

  lemma CopiesChain(a: Disk, b: Disk, c: Disk, n: string)
    requires SameCopies(a, b, n) && SameCopies(b, c, n)
    ensures SameCopies(a, c, n)
  {
  }

  lemma SameSelf(d: Disk, n: string)
    ensures SameCopies(d, d, n)
  {
  }

  lemma {:induction false} OtherSteps(s: State, acts: seq<Action>, n: string)
    requires OnOthers(acts, n)
    ensures SameCopies(ApplyAll(s, acts).d, s.d, n)
  {
    hide SameCopies, OnFile;
    if acts == [] {
      SameSelf(s.d, n);
    } else {
      var front, a := acts[..|acts| - 1], acts[|acts| - 1];
      assert forall x :: x in front ==> x in acts;
      OtherSteps(s, front, n);
      assert a in acts;
      var k :| k != n && OnFile(a, k);
      var d := ApplyAll(s, front).d;
      OtherStep(d, a, k, n);
      OnFileDoes(a, k);
      CopiesChain(ApplyAll(s, acts).d, d, s.d, n);
    }
  }

  lemma OnFileDoes(a: Action, n: string)
    requires OnFile(a, n)
    ensures a.Do?
  {
  }

  lemma {:induction false} OwnSteps(s: State, t: State, acts: seq<Action>, n: string)
    requires AllOnFile(acts, n) && SameCopies(s.d, t.d, n)
    ensures SameCopies(ApplyAll(s, acts).d, ApplyAll(t, acts).d, n)
  {
    hide SameCopies, OnFile;
    if acts != [] {
      var front, a := acts[..|acts| - 1], acts[|acts| - 1];
      assert forall x :: x in front ==> x in acts;
      OwnSteps(s, t, front, n);
      assert a in acts;
      OwnStep(ApplyAll(s, front).d, ApplyAll(t, front).d, a, n);
      OnFileDoes(a, n);
    }
  }

  /** Whatever the schedule, the copies of a file end up as if its goroutine had run alone. */
  lemma OneOfMany(t: State, todo: seq<seq<Action>>, names: seq<string>, sched: seq<nat>, j: nat)
    requires Separate(todo, names) && j < |todo|
    ensures SameCopies(ApplyAll(t, Merge(todo, sched)).d, ApplyAll(t, todo[j]).d, names[j])
  {
    hide SameCopies, OnFile, Merge, ApplyAll, Flatten;
    AnyOrder(t, todo, names, sched);
    FlattenSplit(todo, j);
    OthersBefore(todo, names, j);
    OthersAfter(todo, names, j);
    var before, after := Flatten(todo[..j]), Flatten(todo[j + 1..]);
    var u := ApplyAll(t, before);
    ApplyAllConcat(t, before, todo[j]);
    ApplyAllConcat(t, before + todo[j], after);
    OtherSteps(t, before, names[j]);
    OwnSteps(u, t, todo[j], names[j]);
    OtherSteps(ApplyAll(u, todo[j]), after, names[j]);
    CopiesChain(ApplyAll(t, Merge(todo, sched)).d, ApplyAll(u, todo[j]).d, ApplyAll(t, todo[j]).d, names[j]);
  }

  lemma {:induction false} AttemptsLeave(s: State, n: string, data: Bytes, failures: seq<bool>)
    ensures ApplyAll(s, AttemptActs(n, data, failures)) ==
            s.(d := s.d.(files := if true in failures then s.d.files[n := data] else s.d.files))
    decreases |failures|
  {
    NoStep(s);
    if failures != [] {
      hide ApplyAll;
      var put := Do(Put(S3, n, data));
      EffectLeaves(s, Failed(failures[0]), put);
      var t := ApplyAll(s, Effect(Failed(failures[0]), put));
      AttemptsLeave(t, n, data, failures[1..]);
      ApplyAllConcat(s, Effect(Failed(failures[0]), put), AttemptActs(n, data, failures[1..]));
      assert true in failures <==> failures[0] || true in failures[1..];
    }
  }

  lemma RetryLeaves(s: State, f: PendingFile, e: RetryEnv)
    requires Canonical(f)
    ensures ApplyAll(s, RetryActs(f, e)) ==
            if e.success
            then s.(d := s.d.(files := s.d.files[f.name := f.data], pending := s.d.pending - {f.name},
                              sums := s.d.sums - {f.name}, shadow := s.d.shadow - {f.name}))
            else s.(d := s.d.(files := if true in e.failures then s.d.files[f.name := f.data] else s.d.files))
  {
    hide FdName, ApplyAll, AttemptActs;
    var n, x := f.name, f.data;
    var failed := AttemptActs(n, x, e.failures);
    var big := [Do(Put(S3, n, x)), Do(Del(Pending, n)), Do(DelSum(n)), Do(Del(Shadow, n))];
    AttemptsLeave(s, n, x, e.failures);
    ApplyAllConcat(s, failed, big);
    RecoverBigEffect(ApplyAll(s, failed), n, x);
    assert failed + [] == failed;
  }

  lemma RecoverOneLeaves(cfg: Config, s: State, f: PendingFile, o: Outcome)
    requires Canonical(f)
    ensures ApplyAll(s, RecoverOneActs(cfg, f, o)) ==
            if o.Done?
            then s.(d := s.d.(files := s.d.files[f.name := f.data], pending := s.d.pending - {f.name},
                              sums := s.d.sums - {f.name}, shadow := s.d.shadow - {f.name},
                              lru := if |f.data| <= cfg.maxFileSize then s.d.lru[f.name := f.data] else s.d.lru))
            else s.(d := s.d.(files := if o.took then s.d.files[f.name := f.data] else s.d.files))
  {
    hide FdName, ApplyAll;
    var n, x := f.name, f.data;
    var big := [Do(Put(S3, n, x)), Do(Del(Pending, n)), Do(DelSum(n)), Do(Del(Shadow, n))];
    RecoverBigEffect(s, n, x);
    ApplyAllSnoc(s, big, Do(Put(Lru, n, x)));
    assert big + [] == big;
    EffectLeaves(s, o, Do(Put(S3, n, x)));
  }

  /** n is pending and can be read, and no readable sidecar of it holds another checksum. */
  predicate Sound(cfg: Config, d: Disk, r: ReadEnv, n: string) {
    && n in r.names && n in d.pending && IsFileName(n) && r.fileOk(n)
    && (n in d.sums && r.sumOk(n) ==> TrimSpace(d.sums[n]) == SumText(cfg, d.pending[n]))
  }

  /** The upload list holds a sound file, and reading the directory leaves its copies alone. */
  lemma SoundListed(cfg: Config, s: State, r: ReadEnv, n: string) returns (j: nat)
    requires Sound(cfg, s.d, r, n)
    ensures
      var fs := UploadList(cfg, s.d, r);
      && j < |fs| && fs[j] == PendingFile(n, s.d.pending[n], ParseFileDesc(n).value)
      && SameCopies(ApplyAll(s, DropActs(cfg, s.d, r.names, r)).d, s.d, n)
  {
    hide ParseFileDesc, FdName, TrimSpace, SumText, UploadList, ApplyAll, DropActs;
    PrintedIsPlainName(n);
    var f := PendingFile(n, s.d.pending[n], ParseFileDesc(n).value);
    PendingSetExact(cfg, s.d, r, f);
    OnlyCorruptDropped(cfg, s, s.d, r.names, r);
    DroppedNot(s.d, Dropped(cfg, s.d, r.names, r), n);
    j :| 0 <= j < |UploadList(cfg, s.d, r)| && UploadList(cfg, s.d, r)[j] == f;
  }

  lemma DroppedNot(d: Disk, gone: set<string>, n: string)
    requires n !in gone
    ensures SameCopies(d.(pending := d.pending - gone, sums := d.sums - gone), d, n)
  {
    var e := d.(pending := d.pending - gone, sums := d.sums - gone);
    forall p
      ensures Find(e.At(p), n) == Find(d.At(p), n)
    {
      match p
      case Pending => assert e.At(p) == d.pending - gone && d.At(p) == d.pending;
      case _ => assert e.At(p) == d.At(p);
    }
  }

  lemma CopiesByStore(d: Disk, e: Disk, n: string)
    requires SameCopies(d, e, n)
    ensures Find(d.files, n) == Find(e.files, n) && Find(d.shadow, n) == Find(e.shadow, n)
    ensures Find(d.pending, n) == Find(e.pending, n) && Find(d.local, n) == Find(e.local, n)
    ensures Find(d.lru, n) == Find(e.lru, n) && Find(d.sums, n) == Find(e.sums, n)
  {
    assert Find(d.At(S3), n) == Find(e.At(S3), n) && Find(d.At(Shadow), n) == Find(e.At(Shadow), n);
    assert Find(d.At(Pending), n) == Find(e.At(Pending), n) && Find(d.At(Local), n) == Find(e.At(Local), n);
    assert Find(d.At(Lru), n) == Find(e.At(Lru), n);
  }

  /** A retry pass and each sound file. If its upload succeeds, S3 has the pending bytes, and pending file, sidecar and
      shadow are gone; if it is given up, all three stay, and S3 has the bytes only if some failed attempt took effect.
      The local cache and the LRU are never touched. */
  lemma PassLeaves(cfg: Config, s: State, e: PassEnv, n: string)
    requires !s.c.lost && s.c.held && !s.c.closed && e.dirOk && NoDuplicates(e.read.names)
    requires (forall k :: k in s.d.pending ==> IsFileName(k)) && Sound(cfg, s.d, e.read, n)
    ensures
      var d, t, x, r := s.d, ApplyAll(s, PassActs(cfg, s, e)).d, s.d.pending[n], e.each(n);
      && Find(t.local, n) == Find(d.local, n) && Find(t.lru, n) == Find(d.lru, n)
      && (if r.success
          then Find(t.files, n) == Some(x) && n !in t.pending && n !in t.sums && n !in t.shadow
          else Find(t.files, n) == (if true in r.failures then Some(x) else Find(d.files, n))
               && Find(t.pending, n) == Some(x) && Find(t.sums, n) == Find(d.sums, n)
               && Find(t.shadow, n) == Find(d.shadow, n))
  {
    ListedAreCanonical(cfg, s.d, e.read);
    hide ParseFileDesc, FdName, Canonical, UploadList, Merge, DropActs, ApplyAll, RetryActs, Sound, SameCopies,
         NamesDistinct;
    var fs, drops := UploadList(cfg, s.d, e.read), DropActs(cfg, s.d, e.read.names, e.read);
    UploadListDistinct(cfg, s.d, e.read);
    var j := SoundListed(cfg, s, e.read, n);
    var todo := RetryLists(fs, e.each);
    RetriesSeparate(fs, e.each);
    var u := ApplyAll(s, drops);
    OneOfMany(u, todo, seq(|fs|, i requires 0 <= i < |fs| => fs[i].name), e.sched, j);
    ApplyAllConcat(s, drops, Merge(todo, e.sched));
    assert fs[j] in fs;
    RetryLeaves(u, fs[j], e.each(n));
    CopiesByStore(u.d, s.d, n);
    CopiesByStore(ApplyAll(u, Merge(todo, e.sched)).d, ApplyAll(u, todo[j]).d, n);
  }

  lemma RecoveriesSeparate(cfg: Config, fs: seq<PendingFile>, up: string -> Outcome)
    requires NamesDistinct(fs) && forall f :: f in fs ==> Canonical(f)
    ensures Separate(RecoverLists(cfg, fs, up), seq(|fs|, i requires 0 <= i < |fs| => fs[i].name))
  {
    hide Canonical;
    var todo := RecoverLists(cfg, fs, up);
    forall i | 0 <= i < |todo|
      ensures AllOnFile(todo[i], fs[i].name)
    {
      assert fs[i] in fs;
      RecoverOnFile(cfg, fs[i], up(fs[i].name));
    }
  }

  lemma RecoverOnFile(cfg: Config, f: PendingFile, o: Outcome)
    requires Canonical(f)
    ensures AllOnFile(RecoverOneActs(cfg, f, o), f.name)
  {
    hide FdName;
  }

  /** The uploads of a recovery and each sound file, whichever of the others fail: as in a retry pass, but tried once,
      and what is not over the size limit enters the LRU. */
  lemma ReuploadLeaves(cfg: Config, s: State, e: PendEnv, n: string)
    requires e.dirOk && NoDuplicates(e.read.names)
    requires (forall k :: k in s.d.pending ==> IsFileName(k)) && Sound(cfg, s.d, e.read, n)
    ensures
      var d, t, x, o := s.d, ApplyAll(s, ReuploadActs(cfg, s, e)).d, s.d.pending[n], e.up(n);
      && Find(t.local, n) == Find(d.local, n)
      && Find(t.lru, n) == (if o.Done? && |x| <= cfg.maxFileSize then Some(x) else Find(d.lru, n))
      && (if o.Done?
          then Find(t.files, n) == Some(x) && n !in t.pending && n !in t.sums && n !in t.shadow
          else Find(t.files, n) == (if o.took then Some(x) else Find(d.files, n))
               && Find(t.pending, n) == Some(x) && Find(t.sums, n) == Find(d.sums, n)
               && Find(t.shadow, n) == Find(d.shadow, n))
  {
    ListedAreCanonical(cfg, s.d, e.read);
    hide ParseFileDesc, FdName, Canonical, UploadList, Merge, DropActs, ApplyAll, RecoverOneActs, Sound, SameCopies,
         NamesDistinct;
    var fs, drops := UploadList(cfg, s.d, e.read), DropActs(cfg, s.d, e.read.names, e.read);
    UploadListDistinct(cfg, s.d, e.read);
    var j := SoundListed(cfg, s, e.read, n);
    var todo := RecoverLists(cfg, fs, e.up);
    RecoveriesSeparate(cfg, fs, e.up);
    var u := ApplyAll(s, drops);
    OneOfMany(u, todo, seq(|fs|, i requires 0 <= i < |fs| => fs[i].name), e.sched, j);
    ApplyAllConcat(s, drops, Merge(todo, e.sched));
    assert fs[j] in fs;
    RecoverOneLeaves(cfg, u, fs[j], e.up(n));
    CopiesByStore(u.d, s.d, n);
    CopiesByStore(ApplyAll(u, Merge(todo, e.sched)).d, ApplyAll(u, todo[j]).d, n);
  }
}
