/** What the pending_uploads directory gives back, and the listing that merges it with S3. */
module PendingDir {
  import opened Scan
  import opened Names
  import opened Store
  import opened Programs
  import opened Guards

  // ---------- checksums ----------

  lemma {:induction false} HexHasNoSpace(x: nat, digits: nat)
    ensures forall i :: 0 <= i < digits ==> !IsSpace(Hex(x, digits)[i])
  {
    if digits != 0 {
      HexHasNoSpace(x / 16, digits - 1);
      var c := HexChar(x % 16);
      assert c as int < 0x80 && c as int > 0x20;
    }
  }

  /** A checksum read back and trimmed is the checksum that was printed. */
  lemma SumTextTrimmed(cfg: Config, data: Bytes)
    ensures TrimSpace(SumText(cfg, data)) == SumText(cfg, data)
  {
    HexHasNoSpace(cfg.crc(data) % 0x1_0000_0000, 8);
    TrimPrinted(SumText(cfg, data));
  }

  predicate IsLowerHex(c: char) {
    IsDigit(c) || 'a' <= c <= 'f'
  }

  function HexVal(c: char): (d: nat)
    requires IsLowerHex(c)
    ensures d < 16
  {
    if IsDigit(c) then DigitVal(c) else c as int - 'a' as int + 10
  }

  predicate AllLowerHex(s: string) {
    forall i :: 0 <= i < |s| ==> IsLowerHex(s[i])
  }

  /** The number a string of hexadecimal digits denotes. */
  function HexNumber(s: string): nat
    requires AllLowerHex(s)
  {
    if s == [] then 0 else HexNumber(s[..|s| - 1]) * 16 + HexVal(s[|s| - 1])
  }

  function Pow16(k: nat): (p: nat)
    ensures p > 0
  {
    if k == 0 then 1 else 16 * Pow16(k - 1)
  }

  lemma {:induction false} HexDenotes(x: nat, digits: nat)
    requires x < Pow16(digits)
    ensures AllLowerHex(Hex(x, digits)) && HexNumber(Hex(x, digits)) == x
  {
    if digits > 0 {
      HexDenotes(x / 16, digits - 1);
      var s := Hex(x, digits);
      assert s[..|s| - 1] == Hex(x / 16, digits - 1);
    }
  }

  /** A checksum text is eight lower-case hexadecimal digits that denote the CRC, so two contents have the same text
      exactly when they have the same CRC-32. */
  lemma SumTextMeans(cfg: Config, a: Bytes, b: Bytes)
    ensures |SumText(cfg, a)| == 8 && AllLowerHex(SumText(cfg, a))
    ensures HexNumber(SumText(cfg, a)) == cfg.crc(a) % 0x1_0000_0000
    ensures SumText(cfg, a) == SumText(cfg, b) <==> cfg.crc(a) % 0x1_0000_0000 == cfg.crc(b) % 0x1_0000_0000
  {
    assert Pow16(8) == 0x1_0000_0000;
    HexDenotes(cfg.crc(a) % 0x1_0000_0000, 8);
    HexDenotes(cfg.crc(b) % 0x1_0000_0000, 8);
  }

  // ---------- no name twice ----------

  ghost predicate NamesDistinct(fs: seq<PendingFile>) {
    forall i, j :: 0 <= i < j < |fs| ==> fs[i].name != fs[j].name
  }

  ghost predicate NoDuplicates(names: seq<string>) {
    forall i, j :: 0 <= i < j < |names| ==> names[i] != names[j]
  }

  lemma {:induction false} PendingFilesDistinct(cfg: Config, d: Disk, names: seq<string>, r: ReadEnv)
    requires NoDuplicates(names)
    ensures NamesDistinct(PendingFiles(cfg, d, names, r))
  {
    hide Readable, Corrupt, ParseFileDesc;
    if names != [] {
      var front := names[..|names| - 1];
      PendingFilesDistinct(cfg, d, front, r);
      forall f | f in PendingFiles(cfg, d, front, r)
        ensures f.name in front
      {
        PendingFilesMembers(cfg, d, front, r, f);
      }
    }
  }

  lemma {:induction false} InsertDistinct(f: PendingFile, fs: seq<PendingFile>)
    requires NamesDistinct(fs) && forall g :: g in fs ==> g.name != f.name
    ensures NamesDistinct(Insert(f, fs))
  {
    if fs == [] || Priority(fs[|fs| - 1].fd) <= Priority(f.fd) {
    } else {
      var front := fs[..|fs| - 1];
      InsertDistinct(f, front);
      forall g | g in Insert(f, front)
        ensures g.name != fs[|fs| - 1].name
      {
        InsertMembers(f, front, g);
      }
    }
  }

  lemma {:induction false} SortedDistinct(fs: seq<PendingFile>)
    requires NamesDistinct(fs)
    ensures NamesDistinct(Sorted(fs))
  {
    if fs != [] {
      var front := fs[..|fs| - 1];
      SortedDistinct(front);
      forall g | g in Sorted(front)
        ensures g.name != fs[|fs| - 1].name
      {
        SortedMembers(front, g);
      }
      InsertDistinct(fs[|fs| - 1], Sorted(front));
    }
  }

  // ---------- sorted by priority, nothing lost ----------

  ghost predicate ByPriority(fs: seq<PendingFile>) {
    forall i, j :: 0 <= i < j < |fs| ==> Priority(fs[i].fd) <= Priority(fs[j].fd)
  }

  lemma {:induction false} InsertPermutes(f: PendingFile, fs: seq<PendingFile>)
    ensures multiset(Insert(f, fs)) == multiset(fs) + multiset{f}
  {
    hide Priority;
    if !(fs == [] || Priority(fs[|fs| - 1].fd) <= Priority(f.fd)) {
      assert fs == fs[..|fs| - 1] + [fs[|fs| - 1]];
      InsertPermutes(f, fs[..|fs| - 1]);
    }
  }

  lemma {:induction false} InsertSorted(f: PendingFile, fs: seq<PendingFile>)
    requires ByPriority(fs)
    ensures ByPriority(Insert(f, fs))
  {
    hide Priority;
    if !(fs == [] || Priority(fs[|fs| - 1].fd) <= Priority(f.fd)) {
      var front, last := fs[..|fs| - 1], fs[|fs| - 1];
      InsertSorted(f, front);
      forall g | g in Insert(f, front)
        ensures Priority(g.fd) <= Priority(last.fd)
      {
        InsertMembers(f, front, g);
      }
    }
  }

  lemma NoneByPriority()
    ensures ByPriority([])
  {
  }

  lemma {:induction false} SortedPermutes(fs: seq<PendingFile>)
    ensures ByPriority(Sorted(fs)) && multiset(Sorted(fs)) == multiset(fs)
  {
    hide ByPriority, Insert;
    NoneByPriority();
    if fs != [] {
      SortedPermutes(fs[..|fs| - 1]);
      InsertSorted(fs[|fs| - 1], Sorted(fs[..|fs| - 1]));
      InsertPermutes(fs[|fs| - 1], Sorted(fs[..|fs| - 1]));
      assert fs == fs[..|fs| - 1] + [fs[|fs| - 1]];
    }
  }

  /** readPendingFiles returns, sorted by priority, a permutation of exactly the readable, parseable, non-sidecar
      entries of the directory whose checksum matches or cannot be read, each with its bytes and its descriptor,
      none twice. */
  lemma PendingSetExact(cfg: Config, d: Disk, r: ReadEnv, f: PendingFile)
    ensures
      var fs := UploadList(cfg, d, r);
      && ByPriority(fs)
      && multiset(fs) == multiset(PendingFiles(cfg, d, r.names, r))
      && (f in fs <==>
            && f.name in r.names && Readable(d, f.name, r) && !Corrupt(cfg, d, f.name, r)
            && f == PendingFile(f.name, d.pending[f.name], ParseFileDesc(f.name).value))
      && (NoDuplicates(r.names) ==> NamesDistinct(fs))
  {
    var fs := PendingFiles(cfg, d, r.names, r);
    SortedPermutes(fs);
    SortedMembers(fs, f);
    PendingFilesMembers(cfg, d, r.names, r, f);
    if NoDuplicates(r.names) {
      PendingFilesDistinct(cfg, d, r.names, r);
      SortedDistinct(fs);
    }
  }

  lemma UploadListDistinct(cfg: Config, d: Disk, r: ReadEnv)
    requires NoDuplicates(r.names)
    ensures NamesDistinct(UploadList(cfg, d, r))
  {
    PendingFilesDistinct(cfg, d, r.names, r);
    SortedDistinct(PendingFiles(cfg, d, r.names, r));
  }

  // ---------- only mismatching files are deleted ----------

  function Dropped(cfg: Config, d: Disk, names: seq<string>, r: ReadEnv): set<string> {
    set n | n in names && Readable(d, n, r) && Corrupt(cfg, d, n, r)
  }

  lemma DropOneEffect(s: State, n: string)
    ensures
      var t := ApplyAll(s, [Do(Del(Pending, n)), Do(DelSum(n))]);
      t == s.(d := s.d.(pending := s.d.pending - {n}, sums := s.d.sums - {n}))
  {
    ApplyTwo(s, Do(Del(Pending, n)), Do(DelSum(n)));
  }

  lemma NothingDroppedYet(cfg: Config, d: Disk, r: ReadEnv)
    ensures Dropped(cfg, d, [], r) == {}
  {
  }

  lemma DroppedSnoc(cfg: Config, d: Disk, front: seq<string>, n: string, r: ReadEnv)
    ensures Dropped(cfg, d, front + [n], r)
            == Dropped(cfg, d, front, r) + (if Readable(d, n, r) && Corrupt(cfg, d, n, r) then {n} else {})
  {
    hide ParseFileDesc, IsSidecar, TrimSpace, SumText;
  }

  /** readPendingFiles deletes exactly the readable entries that contradict their checksum, each with its sidecar,
      and touches nothing else. */
  lemma {:induction false} OnlyCorruptDropped(cfg: Config, s: State, d: Disk, names: seq<string>, r: ReadEnv)
    ensures
      var gone := Dropped(cfg, d, names, r);
      ApplyAll(s, DropActs(cfg, d, names, r)) == s.(d := s.d.(pending := s.d.pending - gone, sums := s.d.sums - gone))
  {
    hide ParseFileDesc, IsSidecar, TrimSpace, SumText, Dropped;
    if names == [] {
      NothingDroppedYet(cfg, d, r);
      assert s.d.pending - {} == s.d.pending && s.d.sums - {} == s.d.sums;
    } else {
      var front, n := names[..|names| - 1], names[|names| - 1];
      OnlyCorruptDropped(cfg, s, d, front, r);
      var before, gone := Dropped(cfg, d, front, r), Dropped(cfg, d, names, r);
      assert names == front + [n];
      DroppedSnoc(cfg, d, front, n, r);
      var acts := DropActs(cfg, d, front, r);
      if Readable(d, n, r) && Corrupt(cfg, d, n, r) {
        ApplyAllConcat(s, acts, [Do(Del(Pending, n)), Do(DelSum(n))]);
        DropOneEffect(ApplyAll(s, acts), n);
        assert s.d.pending - before - {n} == s.d.pending - gone;
        assert s.d.sums - before - {n} == s.d.sums - gone;
      } else {
        assert acts + [] == acts;
        assert gone == before;
      }
    }
  }

  // ---------- what persistToLocal wrote is read back ----------

  lemma PersistEffect(cfg: Config, s: State, n: string, data: Bytes, e: PersistEnv)
    requires e.fileOk
    ensures
      var d := ApplyAll(s, PersistActs(cfg, n, data, e)).d;
      && n in d.pending && d.pending[n] == data
      && (e.sum == SumDone ==> n in d.sums && d.sums[n] == SumText(cfg, data))
      && (e.sum == SumFailed(None) ==> d.sums == s.d.sums)
      && (e.sum.SumFailed? && e.sum.left.Some? ==> n in d.sums && d.sums[n] == e.sum.left.value)
  {
    hide SumText;
    var put := Do(Put(Pending, n, data));
    var sums := SumActs(cfg, n, data, e.sum);
    var shadow := Effect(e.shadow, Do(Put(Shadow, n, data)));
    var t := ApplyAll(s, [put]);
    GuardedOne(s, put);
    ApplyAllConcat(s, [put], sums);
    ApplyAllConcat(s, [put] + sums, shadow);
    if sums != [] {
      GuardedOne(t, sums[0]);
    }
    var u := ApplyAll(s, [put] + sums);
    if shadow != [] {
      GuardedOne(u, shadow[0]);
    }
  }

  /** What persistToLocal completed, sidecar included, readPendingFiles returns byte for byte under the
      same descriptor. */
  lemma PersistRoundTrip(cfg: Config, s: State, fd: FileDesc, data: Bytes, e: PersistEnv, r: ReadEnv)
    requires IsInt64(fd.num) && e.fileOk && e.sum == SumDone
    requires FdName(fd) in r.names && r.fileOk(FdName(fd))
    ensures
      PendingFile(FdName(fd), data, fd) in UploadList(cfg, ApplyAll(s, PersistActs(cfg, FdName(fd), data, e)).d, r)
  {
    PersistSurvives(cfg, s, fd, data, e, r);
    SumTextTrimmed(cfg, data);
    PersistEffect(cfg, s, FdName(fd), data, e);
  }

  /** Whatever became of the sidecar, the file is returned if and only if no readable sidecar contradicts its bytes. */
  lemma PersistSurvives(cfg: Config, s: State, fd: FileDesc, data: Bytes, e: PersistEnv, r: ReadEnv)
    requires IsInt64(fd.num) && e.fileOk
    requires FdName(fd) in r.names && r.fileOk(FdName(fd))
    ensures
      var n := FdName(fd);
      var d := ApplyAll(s, PersistActs(cfg, n, data, e)).d;
      PendingFile(n, data, fd) in UploadList(cfg, d, r)
      <==> !(n in d.sums && r.sumOk(n) && TrimSpace(d.sums[n]) != SumText(cfg, data))
  {
    hide PersistActs, TrimSpace, SumText, IsSidecar, ParseFileDesc, FdName;
    var n := FdName(fd);
    PersistEffect(cfg, s, n, data, e);
    PrintedIsPlain(fd);
    ParsePrinted(fd);
    PendingSetExact(cfg, ApplyAll(s, PersistActs(cfg, n, data, e)).d, r, PendingFile(n, data, fd));
  }

  /** The sidecar of n holds the checksum written for a, and both it and the file can be read. */
  predicate SummedFor(cfg: Config, d: Disk, r: ReadEnv, n: string, a: Bytes) {
    && n in r.names && n in d.pending && IsFileName(n) && r.fileOk(n) && r.sumOk(n)
    && n in d.sums && d.sums[n] == SumText(cfg, a)
  }

  /** What the CRC decides: a file whose bytes have another CRC than those its sidecar was written for is not returned,
      and is gone with its sidecar; any other is returned and stays. */
  ghost predicate Judged(cfg: Config, d: Disk, r: ReadEnv, fs: seq<PendingFile>, after: Disk) {
    forall n, a :: SummedFor(cfg, d, r, n, a) ==>
      if cfg.crc(a) % 0x1_0000_0000 == cfg.crc(d.pending[n]) % 0x1_0000_0000
      then PendingFile(n, d.pending[n], ParseFileDesc(n).value) in fs
           && n in after.pending && after.pending[n] == d.pending[n]
      else (forall f :: f in fs ==> f.name != n) && n !in after.pending && n !in after.sums
  }

  lemma SidecarsDecide(cfg: Config, s: State, r: ReadEnv)
    ensures Judged(cfg, s.d, r, UploadList(cfg, s.d, r), ApplyAll(s, DropActs(cfg, s.d, r.names, r)).d)
  {
    hide ApplyAll, UploadList, DropActs;
    OnlyCorruptDropped(cfg, s, s.d, r.names, r);
    forall n, a | SummedFor(cfg, s.d, r, n, a)
      ensures
        var fs, t := UploadList(cfg, s.d, r), ApplyAll(s, DropActs(cfg, s.d, r.names, r));
        if cfg.crc(a) % 0x1_0000_0000 == cfg.crc(s.d.pending[n]) % 0x1_0000_0000
        then PendingFile(n, s.d.pending[n], ParseFileDesc(n).value) in fs
             && n in t.d.pending && t.d.pending[n] == s.d.pending[n]
        else (forall f :: f in fs ==> f.name != n) && n !in t.d.pending && n !in t.d.sums
    {
      SidecarDecides(cfg, s, r, n, a);
    }
  }

  lemma SidecarDecides(cfg: Config, s: State, r: ReadEnv, n: string, a: Bytes)
    requires SummedFor(cfg, s.d, r, n, a)
    ensures
      var fs, t := UploadList(cfg, s.d, r), ApplyAll(s, DropActs(cfg, s.d, r.names, r));
      if cfg.crc(a) % 0x1_0000_0000 == cfg.crc(s.d.pending[n]) % 0x1_0000_0000
      then PendingFile(n, s.d.pending[n], ParseFileDesc(n).value) in fs
           && n in t.d.pending && t.d.pending[n] == s.d.pending[n]
      else (forall f :: f in fs ==> f.name != n) && n !in t.d.pending && n !in t.d.sums
  {
    hide TrimSpace, SumText, IsSidecar, ParseFileDesc, FdName, ApplyAll, UploadList, DropActs;
    PrintedIsPlain(ParseFileDesc(n).value);
    SumTextTrimmed(cfg, a);
    SumTextMeans(cfg, a, s.d.pending[n]);
    OnlyCorruptDropped(cfg, s, s.d, r.names, r);
    PendingSetExact(cfg, s.d, r, PendingFile(n, s.d.pending[n], ParseFileDesc(n).value));
    forall f | f in UploadList(cfg, s.d, r) && f.name == n
      ensures !Corrupt(cfg, s.d, n, r)
    {
      PendingSetExact(cfg, s.d, r, f);
    }
  }

  /** Damage is found. persistToLocal completed for a, then the file came to hold b: if the CRCs differ,
      readPendingFiles returns nothing of that name and deletes the file and its sidecar, and nothing else of it remains
      to upload; if they agree, it returns b. */
  lemma DamageFound(cfg: Config, s: State, fd: FileDesc, a: Bytes, b: Bytes, e: PersistEnv, r: ReadEnv)
    requires IsInt64(fd.num) && e.fileOk && e.sum == SumDone
    requires FdName(fd) in r.names && r.fileOk(FdName(fd)) && r.sumOk(FdName(fd))
    ensures
      var n := FdName(fd);
      var t := ApplyAll(s, PersistActs(cfg, n, a, e));
      var u := t.(d := t.d.(pending := t.d.pending[n := b]));
      var v := ApplyAll(u, DropActs(cfg, u.d, r.names, r));
      var found := UploadList(cfg, u.d, r);
      if cfg.crc(a) % 0x1_0000_0000 == cfg.crc(b) % 0x1_0000_0000
      then PendingFile(n, b, fd) in found && n in v.d.pending && v.d.pending[n] == b
      else (forall f :: f in found ==> f.name != n) && n !in v.d.pending && n !in v.d.sums
  {
    hide PersistActs, SumText, ParseFileDesc, FdName, ApplyAll, UploadList, DropActs;
    var n := FdName(fd);
    PersistEffect(cfg, s, n, a, e);
    ParsePrinted(fd);
    var t := ApplyAll(s, PersistActs(cfg, n, a, e));
    SidecarDecides(cfg, t.(d := t.d.(pending := t.d.pending[n := b])), r, n, a);
  }

  // ---------- List ----------

  predicate Distinct(fds: seq<FileDesc>) {
    forall i, j :: 0 <= i < j < |fds| ==> fds[i] != fds[j]
  }

  /** The descriptors the directory's entries parse to, in directory order, sidecars left out. */
  function PendingFds(names: seq<string>): seq<FileDesc> {
    if names == [] then []
    else
      var n := names[|names| - 1];
      PendingFds(names[..|names| - 1])
          + (if !IsSidecar(n) && ParseFileDesc(n).Some? then [ParseFileDesc(n).value] else [])
  }

  /** The descriptors client.List makes of the bucket's keys, by base name; shadow keys are among them. */
  function ListedFds(names: seq<string>): seq<FileDesc> {
    if names == [] then []
    else
      var n := names[|names| - 1];
      ListedFds(names[..|names| - 1]) + (if ParseFileDesc(n).Some? then [ParseFileDesc(n).value] else [])
  }

  function Keep(fds: seq<FileDesc>, types: set<FileType>, seen: set<string>): seq<FileDesc> {
    if fds == [] then []
    else
      var fd := fds[|fds| - 1];
      Keep(fds[..|fds| - 1], types, seen) + (if fd.ftype in types && FdName(fd) !in seen then [fd] else [])
  }

  function KeysOf(fds: seq<FileDesc>): set<string> {
    set fd | fd in fds :: FdName(fd)
  }

  function ListView(pending: seq<FileDesc>, listing: seq<FileDesc>, types: set<FileType>): seq<FileDesc> {
    Keep(pending, types, {}) + Keep(listing, types, KeysOf(pending))
  }

  /** List: pending entries first, then those of S3 not seen among them. */
  method MergeListings(names: seq<string>, listing: seq<FileDesc>, types: set<FileType>)
      returns (filtered: seq<FileDesc>)
    ensures filtered == ListView(PendingFds(names), listing, types)
  {
    hide ParseFileDesc, FdName, IsSidecar;
    var pending: seq<FileDesc> := [];
    for i := 0 to |names|
      invariant pending == PendingFds(names[..i])
    {
      assert names[..i + 1][..i] == names[..i];
      if !IsSidecar(names[i]) {
        var r := ParseFileDesc(names[i]);
        if r.Some? {
          pending := pending + [r.value];
        }
      }
    }
    assert names[..|names|] == names;
    var seen: set<string> := {};
    filtered := [];
    for i := 0 to |pending|
      invariant seen == KeysOf(pending[..i])
      invariant filtered == Keep(pending[..i], types, {})
    {
      assert pending[..i + 1][..i] == pending[..i] && pending[..i + 1] == pending[..i] + [pending[i]];
      seen := seen + {FdName(pending[i])};
      if pending[i].ftype in types {
        filtered := filtered + [pending[i]];
      }
    }
    assert pending[..|pending|] == pending;
    var first := filtered;
    for i := 0 to |listing|
      invariant filtered == first + Keep(listing[..i], types, seen)
    {
      assert listing[..i + 1][..i] == listing[..i];
      if FdName(listing[i]) !in seen && listing[i].ftype in types {
        filtered := filtered + [listing[i]];
      }
    }
    assert listing[..|listing|] == listing;
  }

  lemma {:induction false} KeepMembers(fds: seq<FileDesc>, types: set<FileType>, seen: set<string>, fd: FileDesc)
    ensures fd in Keep(fds, types, seen) <==> fd in fds && fd.ftype in types && FdName(fd) !in seen
  {
    if fds != [] {
      KeepMembers(fds[..|fds| - 1], types, seen, fd);
      assert fds == fds[..|fds| - 1] + [fds[|fds| - 1]];
    }
  }

  lemma {:induction false} PendingFdsMembers(names: seq<string>, fd: FileDesc)
    ensures fd in PendingFds(names) <==> exists n :: n in names && !IsSidecar(n) && ParseFileDesc(n) == Some(fd)
  {
    hide ParseFileDesc, IsSidecar;
    if names != [] {
      PendingFdsMembers(names[..|names| - 1], fd);
      assert names == names[..|names| - 1] + [names[|names| - 1]];
    }
  }

  predicate AllInt64(fds: seq<FileDesc>) {
    forall i :: 0 <= i < |fds| ==> IsInt64(fds[i].num)
  }

  lemma {:induction false} PendingFdsInt64(names: seq<string>)
    ensures AllInt64(PendingFds(names))
  {
    if names != [] {
      PendingFdsInt64(names[..|names| - 1]);
      ParsedNumIsInt64(names[|names| - 1]);
    }
  }

  lemma KeysAreFds(fds: seq<FileDesc>, fd: FileDesc)
    requires AllInt64(fds) && IsInt64(fd.num)
    ensures FdName(fd) in KeysOf(fds) <==> fd in fds
  {
    hide FdName;
    if FdName(fd) in KeysOf(fds) {
      var g :| g in fds && FdName(g) == FdName(fd);
      PrintInjective(fd, g);
    }
  }

  /** List is, as a set, every descriptor of the requested types that is in the bucket's listing or among the pending
      entries; no sidecar puts anything in it; the pending ones come first. */
  lemma ListIsMergedView(names: seq<string>, listing: seq<FileDesc>, types: set<FileType>, fd: FileDesc)
    requires AllInt64(listing)
    ensures
      var r := ListView(PendingFds(names), listing, types);
      fd in r <==> fd.ftype in types
                   && (fd in listing || exists n :: n in names && !IsSidecar(n) && ParseFileDesc(n) == Some(fd))
    ensures
      var r := ListView(PendingFds(names), listing, types);
      var k := |Keep(PendingFds(names), types, {})|;
      forall i :: 0 <= i < |r| ==> (r[i] in PendingFds(names) <==> i < k)
  {
    hide ParseFileDesc, FdName, KeysOf;
    var pending := PendingFds(names);
    PendingFdsInt64(names);
    PendingFdsMembers(names, fd);
    KeepMembers(pending, types, {}, fd);
    KeepMembers(listing, types, KeysOf(pending), fd);
    if fd in listing {
      KeysAreFds(pending, fd);
    }
    var r := ListView(pending, listing, types);
    var first, rest := Keep(pending, types, {}), Keep(listing, types, KeysOf(pending));
    forall i | 0 <= i < |r|
      ensures r[i] in pending <==> i < |first|
    {
      if i < |first| {
        KeepMembers(pending, types, {}, first[i]);
      } else {
        assert r[i] == rest[i - |first|];
        KeepMembers(listing, types, KeysOf(pending), r[i]);
        KeysAreFds(pending, r[i]);
      }
    }
  }

  lemma {:induction false} KeepDistinct(fds: seq<FileDesc>, types: set<FileType>, seen: set<string>)
    requires Distinct(fds)
    ensures Distinct(Keep(fds, types, seen))
  {
    if fds != [] {
      KeepDistinct(fds[..|fds| - 1], types, seen);
      if fds[|fds| - 1] in Keep(fds[..|fds| - 1], types, seen) {
        KeepMembers(fds[..|fds| - 1], types, seen, fds[|fds| - 1]);
        assert false;
      }
    }
  }

  lemma {:induction false} PendingFdsDistinct(names: seq<string>)
    requires NoDuplicates(names)
    requires forall i :: 0 <= i < |names| && !IsSidecar(names[i]) && ParseFileDesc(names[i]).Some? ==>
             IsFileName(names[i])
    ensures Distinct(PendingFds(names))
  {
    hide ParseFileDesc, FdName, IsSidecar;
    if names != [] {
      var front, n := names[..|names| - 1], names[|names| - 1];
      PendingFdsDistinct(front);
      if !IsSidecar(n) && ParseFileDesc(n).Some? {
        var fd := ParseFileDesc(n).value;
        assert fd !in PendingFds(front) by {
          PendingFdsMembers(front, fd);
        }
      }
    }
  }

  /** The result has no duplicates when the pending names are canonical and the bucket's listing has none. */
  lemma ListHasNoDuplicates(names: seq<string>, listing: seq<FileDesc>, types: set<FileType>)
    requires AllInt64(listing) && NoDuplicates(names)
    requires forall i :: 0 <= i < |names| && !IsSidecar(names[i]) && ParseFileDesc(names[i]).Some? ==>
             IsFileName(names[i])
    requires Distinct(listing)
    ensures Distinct(ListView(PendingFds(names), listing, types))
  {
    hide ParseFileDesc, FdName, KeysOf, IsSidecar;
    PendingFdsDistinct(names);
    var pending := PendingFds(names);
    KeepDistinct(pending, types, {});
    KeepDistinct(listing, types, KeysOf(pending));
    var r := ListView(pending, listing, types);
    forall i, j | 0 <= i < j < |r|
      ensures r[i] != r[j]
    {
      ListIsMergedView(names, listing, types, r[i]);
    }
  }

  /** A file with both an S3 object and a shadow is listed twice unless it is pending or of another type. */
  lemma ShadowedListedTwice(main: seq<string>, shadows: seq<string>, names: seq<string>, types: set<FileType>,
      fd: FileDesc)
    requires IsInt64(fd.num) && FdName(fd) in main && FdName(fd) in shadows
    requires fd.ftype in types && fd !in PendingFds(names)
    ensures !Distinct(ListView(PendingFds(names), ListedFds(main + shadows), types))
  {
    hide ParseFileDesc, FdName, KeysOf, Keep, ListedFds, PendingFds, AllInt64;
    var pending := PendingFds(names);
    PendingFdsInt64(names);
    KeysAreFds(pending, fd);
    ParsePrinted(fd);
    ListedFdsConcat(main, shadows);
    ListedFdsMembers(main, FdName(fd));
    ListedFdsMembers(shadows, FdName(fd));
    KeepConcat(ListedFds(main), ListedFds(shadows), types, KeysOf(pending));
    KeepMembers(ListedFds(main), types, KeysOf(pending), fd);
    KeepMembers(ListedFds(shadows), types, KeysOf(pending), fd);
    var a, b, c := Keep(pending, types, {}), Keep(ListedFds(main), types, KeysOf(pending)),
        Keep(ListedFds(shadows), types, KeysOf(pending));
    var i :| 0 <= i < |b| && b[i] == fd;
    var j :| 0 <= j < |c| && c[j] == fd;
    var r := ListView(pending, ListedFds(main + shadows), types);
    assert r == a + (b + c);
    assert r[|a| + i] == r[|a| + |b| + j];
  }

  /** Every key that parses is the printed form of what it parses to. */
  predicate AllCanonical(names: seq<string>) {
    forall i :: 0 <= i < |names| && ParseFileDesc(names[i]).Some? ==> IsFileName(names[i])
  }

  lemma {:induction false} ListedFdsSource(names: seq<string>, fd: FileDesc)
    requires AllCanonical(names) && fd in ListedFds(names)
    ensures FdName(fd) in names && IsInt64(fd.num)
  {
    hide ParseFileDesc, FdName;
    var front, n := names[..|names| - 1], names[|names| - 1];
    if fd in ListedFds(front) {
      ListedFdsSource(front, fd);
    }
  }

  lemma {:induction false} ListedFdsDistinct(names: seq<string>)
    requires NoDuplicates(names) && AllCanonical(names)
    ensures Distinct(ListedFds(names))
  {
    hide ParseFileDesc, FdName;
    if names != [] {
      var front, n := names[..|names| - 1], names[|names| - 1];
      ListedFdsDistinct(front);
      if ParseFileDesc(n).Some? && ParseFileDesc(n).value in ListedFds(front) {
        ListedFdsSource(front, ParseFileDesc(n).value);
        assert false;
      }
    }
  }

  lemma DistinctParts(a: seq<FileDesc>, b: seq<FileDesc>)
    requires Distinct(a) && Distinct(b) && forall fd :: fd in a ==> fd !in b
    ensures Distinct(a + b)
  {
    forall i, j | 0 <= i < j < |a + b|
      ensures (a + b)[i] != (a + b)[j]
    {
      if i < |a| <= j {
        assert (a + b)[i] in a && (a + b)[j] in b;
      }
    }
  }

  /** When List has no duplicates: with canonical names, none twice in the bucket, among the shadows or in the
      directory, exactly when no file of a requested type that is not pending has both an S3 object and a shadow. */
  lemma ListDistinctExactly(main: seq<string>, shadows: seq<string>, names: seq<string>, types: set<FileType>)
    requires NoDuplicates(main) && NoDuplicates(shadows) && NoDuplicates(names)
    requires AllCanonical(main) && AllCanonical(shadows)
    requires forall i :: 0 <= i < |names| && !IsSidecar(names[i]) && ParseFileDesc(names[i]).Some? ==>
             IsFileName(names[i])
    ensures
      Distinct(ListView(PendingFds(names), ListedFds(main + shadows), types))
      <==> forall fd: FileDesc :: IsInt64(fd.num) && fd.ftype in types && fd !in PendingFds(names) ==>
             !(FdName(fd) in main && FdName(fd) in shadows)
  {
    hide ParseFileDesc, FdName, KeysOf, Keep, ListedFds, PendingFds, IsSidecar, AllCanonical, Distinct;
    var pending := PendingFds(names);
    forall fd: FileDesc | IsInt64(fd.num) && fd.ftype in types && fd !in pending && FdName(fd) in main
        && FdName(fd) in shadows
      ensures !Distinct(ListView(pending, ListedFds(main + shadows), types))
    {
      ShadowedListedTwice(main, shadows, names, types, fd);
    }
    if forall fd: FileDesc :: IsInt64(fd.num) && fd.ftype in types && fd !in pending ==>
        !(FdName(fd) in main && FdName(fd) in shadows) {
      NoneTwice(main, shadows, names, types);
    }
  }

  lemma NoneTwice(main: seq<string>, shadows: seq<string>, names: seq<string>, types: set<FileType>)
    requires NoDuplicates(main) && NoDuplicates(shadows) && NoDuplicates(names)
    requires AllCanonical(main) && AllCanonical(shadows)
    requires forall i :: 0 <= i < |names| && !IsSidecar(names[i]) && ParseFileDesc(names[i]).Some? ==>
             IsFileName(names[i])
    requires forall fd: FileDesc :: IsInt64(fd.num) && fd.ftype in types && fd !in PendingFds(names) ==>
               !(FdName(fd) in main && FdName(fd) in shadows)
    ensures Distinct(ListView(PendingFds(names), ListedFds(main + shadows), types))
  {
    hide ParseFileDesc, FdName, KeysOf, Keep, ListedFds, PendingFds, IsSidecar, AllCanonical, Distinct, NoDuplicates;
    var pending, seen := PendingFds(names), KeysOf(PendingFds(names));
    var a, b, c := Keep(pending, types, {}), Keep(ListedFds(main), types, seen), Keep(ListedFds(shadows), types, seen);
    PendingFdsDistinct(names);
    PendingFdsInt64(names);
    KeepDistinct(pending, types, {});
    ListedFdsDistinct(main);
    ListedFdsDistinct(shadows);
    KeepDistinct(ListedFds(main), types, seen);
    KeepDistinct(ListedFds(shadows), types, seen);
    forall fd
      ensures fd in a ==> fd !in b && fd !in c
      ensures fd in b ==> fd !in c
    {
      KeepMembers(pending, types, {}, fd);
      KeepMembers(ListedFds(main), types, seen, fd);
      KeepMembers(ListedFds(shadows), types, seen, fd);
      if fd in pending {
        PendingKeySeen(names, fd);
      } else if fd in b && fd in c {
        ListedFdsSource(main, fd);
        ListedFdsSource(shadows, fd);
        assert false;
      }
    }
    DistinctParts(b, c);
    DistinctParts(a, b + c);
    ListedFdsConcat(main, shadows);
    KeepConcat(ListedFds(main), ListedFds(shadows), types, seen);
  }

  lemma PendingKeySeen(names: seq<string>, fd: FileDesc)
    requires fd in PendingFds(names)
    ensures FdName(fd) in KeysOf(PendingFds(names))
  {
  }

  lemma {:induction false} ListedFdsConcat(a: seq<string>, b: seq<string>)
    ensures ListedFds(a + b) == ListedFds(a) + ListedFds(b)
  {
    if b == [] {
      assert a + b == a;
    } else {
      ListedFdsConcat(a, b[..|b| - 1]);
      assert (a + b)[..|a + b| - 1] == a + b[..|b| - 1];
    }
  }

  lemma {:induction false} ListedFdsMembers(names: seq<string>, n: string)
    requires n in names && ParseFileDesc(n).Some?
    ensures ParseFileDesc(n).value in ListedFds(names)
  {
    hide ParseFileDesc;
    if n != names[|names| - 1] {
      assert names == names[..|names| - 1] + [names[|names| - 1]];
      ListedFdsMembers(names[..|names| - 1], n);
    }
  }

  lemma {:induction false} KeepConcat(a: seq<FileDesc>, b: seq<FileDesc>, types: set<FileType>, seen: set<string>)
    ensures Keep(a + b, types, seen) == Keep(a, types, seen) + Keep(b, types, seen)
  {
    if b == [] {
      assert a + b == a;
    } else {
      KeepConcat(a, b[..|b| - 1], types, seen);
      assert (a + b)[..|a + b| - 1] == a + b[..|b| - 1];
    }
  }
}
