/** The stores that hold copies of a LevelDB file, the primitive steps that change them, and the durability invariant.
    Every operation of the storage is a sequence of these steps; a crash may fall between any two of them. */
module Store {
  import opened Scan
  import opened Names

  newtype byte = x: int | 0 <= x < 256
  type Bytes = seq<byte>

  /** Where a copy of a file may be: its S3 object, its S3 shadow, the pending_uploads directory,
      the local journal and manifest cache, the in-memory LRU. */
  datatype Place = S3 | Shadow | Pending | Local | Lru

  /** The stores proper. */
  datatype Disk = Disk(
    files: map<string, Bytes>,
    shadow: map<string, Bytes>,
    pending: map<string, Bytes>,
    local: map<string, Bytes>,
    lru: map<string, Bytes>,
    sums: map<string, string>       // pending_uploads/*.cksum, by the name they belong to
  ) {
    function At(p: Place): map<string, Bytes> {
      match p
      case S3 => files
      case Shadow => shadow
      case Pending => pending
      case Local => local
      case Lru => lru
    }

    function With(p: Place, m: map<string, Bytes>): (d: Disk)
      ensures forall q :: d.At(q) == if q == p then m else At(q)
    {
      match p
      case S3 => this.(files := m)
      case Shadow => this.(shadow := m)
      case Pending => this.(pending := m)
      case Local => this.(local := m)
      case Lru => this.(lru := m)
    }
  }

  /** What the client wrote and was told. */
  datatype Ledger = Ledger(
    written: map<string, Bytes>,    // all bytes written to each file so far
    acked: map<string, Bytes>,      // the bytes for which Sync or Close last returned nil
    doomed: set<string>,            // given up: removal or renaming away has begun, or everything was wiped
    open: set<string>,              // files with an open writer
    reused: set<string>             // made anew beside copies of an earlier file of that name, and not yet acknowledged
  ) {
    function Acked(n: string): Bytes {
      if n in acked then acked[n] else []
    }

    /** d extends what was acknowledged for n and is a prefix of what was written to it; while copies of an earlier file
        of that name may be left, only the first. */
    predicate Between(n: string, d: Bytes) {
      n in written && Acked(n) <= d && (n in reused || d <= written[n])
    }

    ghost predicate Valid() {
      && (forall n :: n in acked ==> n in written && acked[n] <= written[n])
      && doomed <= written.Keys
      && open <= written.Keys
      && open !! doomed
      && reused <= written.Keys && reused !! acked.Keys
    }
  }

  /** The rest of what S3 and the process remember: CURRENT, LOCK and the three flags. */
  datatype Control = Control(current: Option<string>, lock: Option<string>, closed: bool, lost: bool, held: bool)

  datatype State = State(d: Disk, l: Ledger, c: Control)

  /** One store operation. */
  datatype Io =
    | Put(p: Place, name: string, data: Bytes)
    | Del(p: Place, name: string)
    | Purge(p: Place)
    | Move(src: string, dst: string)       // os.Rename of a pending file
    | PutSum(name: string, sum: string)
    | DelSum(name: string)
    | MoveSum(src: string, dst: string)
    | PurgeSums

  /** One change of the client's record. */
  datatype Note =
    | Created(name: string)
    | Reused(name: string)                 // created although copies of an earlier file are left
    | Append(name: string, p: Bytes)
    | CloseWriter(name: string)
    | Ack(name: string)                    // Sync or Close returns nil
    | Doom(name: string)
    | DoomAll
    | Forget(name: string)                 // Remove returns nil

  datatype Action =
    | Do(io: Io)
    | Record(note: Note)
    | CopyFile(src: string, dst: string)   // the S3 copy of a rename, reported as done
    | CopyOrphan(src: string, dst: string) // the S3 copy of a rename, done but reported as failed
    | PutCurrent(content: string)
    | DelCurrent
    | PutLock(id: string)
    | DelLock
    | SetHeld(on: bool)
    | SetLost
    | SetClosed
    | Crash       // the process dies; S3 and the disk stay
    | NodeLoss    // the machine dies; only S3 stays

  /** A freshly started process that found nothing on S3 or on disk. */
  const EMPTY := State(Disk(map[], map[], map[], map[], map[], map[]), Ledger(map[], map[], {}, {}, {}),
                       Control(None, None, false, false, false))

  function ApplyIo(d: Disk, a: Io): Disk {
    match a
    case Put(p, n, x) => d.With(p, d.At(p)[n := x])
    case Del(p, n) => d.With(p, d.At(p) - {n})
    case Purge(p) => d.With(p, map[])
    case Move(o, n) => if o in d.pending then d.(pending := (d.pending - {o})[n := d.pending[o]]) else d
    case PutSum(n, c) => d.(sums := d.sums[n := c])
    case DelSum(n) => d.(sums := d.sums - {n})
    case MoveSum(o, n) => if o in d.sums then d.(sums := (d.sums - {o})[n := d.sums[o]]) else d
    case PurgeSums => d.(sums := map[])
  }

  function ApplyNote(l: Ledger, a: Note): Ledger {
    match a
    case Created(n) =>
      Ledger(l.written[n := []], l.acked - {n}, l.doomed - {n}, l.open + {n}, l.reused - {n})
    case Reused(n) =>
      Ledger(l.written[n := []], l.acked - {n}, l.doomed - {n}, l.open + {n}, l.reused + {n})
    case Append(n, p) => if n in l.written then l.(written := l.written[n := l.written[n] + p]) else l
    case CloseWriter(n) => l.(open := l.open - {n})
    case Ack(n) => if n in l.written then l.(acked := l.acked[n := l.written[n]], reused := l.reused - {n}) else l
    case Doom(n) => if n in l.written then l.(doomed := l.doomed + {n}) else l
    case DoomAll => l.(doomed := l.written.Keys, open := {})
    case Forget(n) =>
      l.(written := l.written - {n}, acked := l.acked - {n}, doomed := l.doomed - {n}, reused := l.reused - {n})
  }

  function Inherited(l: Ledger, o: string, n: string): set<string> {
    if o in l.reused then l.reused + {n} else l.reused - {n}
  }

  function Copied(l: Ledger, o: string, n: string): Ledger
    requires o in l.written
  {
    Ledger(l.written[n := l.written[o]],
           if o in l.acked then l.acked[n := l.acked[o]] else l.acked - {n},
           (l.doomed - {n}) + {o}, l.open, Inherited(l, o, n))
  }

  function Orphaned(l: Ledger, o: string, n: string): Ledger
    requires o in l.written
  {
    Ledger(l.written[n := l.written[o]], l.acked - {n}, l.doomed + {n}, l.open, Inherited(l, o, n))
  }

  function Restart(s: State): State {
    State(s.d.(lru := map[]), s.l.(open := {}), Control(s.c.current, s.c.lock, false, false, false))
  }

  function Apply(s: State, a: Action): State {
    match a
    case Do(io) => s.(d := ApplyIo(s.d, io))
    case Record(note) => s.(l := ApplyNote(s.l, note))
    case CopyFile(o, n) =>
      if o in s.d.files && o in s.l.written
      then State(s.d.(files := s.d.files[n := s.d.files[o]]), Copied(s.l, o, n), s.c) else s
    case CopyOrphan(o, n) =>
      if o in s.d.files && o in s.l.written
      then State(s.d.(files := s.d.files[n := s.d.files[o]]), Orphaned(s.l, o, n), s.c) else s
    case PutCurrent(x) => s.(c := s.c.(current := Some(x)))
    case DelCurrent => s.(c := s.c.(current := None))
    case PutLock(id) => s.(c := s.c.(lock := Some(id)))
    case DelLock => s.(c := s.c.(lock := None))
    case SetHeld(b) => s.(c := s.c.(held := b))
    case SetLost => s.(c := s.c.(lost := true))
    case SetClosed => s.(c := s.c.(closed := true))
    case Crash => Restart(s)
    case NodeLoss =>
      var r := Restart(s);
      r.(d := r.d.(pending := map[], sums := map[], local := map[]))
  }

  function ApplyAll(s: State, acts: seq<Action>): State {
    if acts == [] then s else Apply(ApplyAll(s, acts[..|acts| - 1]), acts[|acts| - 1])
  }

  // ---------- the invariant ----------

  /** Every copy of a file extends what was acknowledged and is a prefix of what was written. */
  ghost predicate Sandwiched(d: Disk, l: Ledger) {
    && (forall p, n :: n in d.At(p) ==> l.Between(n, d.At(p)[n]))
    && d.sums.Keys <= l.written.Keys
  }

  predicate Live(l: Ledger, n: string) {
    n in l.acked && n !in l.doomed
  }

  ghost predicate Inv(s: State) {
    && s.l.Valid()
    && Sandwiched(s.d, s.l)
    // every acknowledged file that was not given up has its S3 object
    && (forall n :: Live(s.l, n) ==> n in s.d.files)
  }

  /** File names are printed descriptors, and only journals and manifests are cached locally. */
  ghost predicate NamesOk(s: State) {
    && (forall n :: n in s.l.written ==> IsFileName(n))
    && (forall n :: n in s.d.local ==> CachedName(n))
  }

  predicate Absent(d: Disk, n: string) {
    n !in d.files && n !in d.shadow && n !in d.pending && n !in d.local && n !in d.lru && n !in d.sums
  }

  /** No bytes of a file of that name are acknowledged, or it was given up; and no writer is open on it. */
  predicate Free(l: Ledger, n: string) {
    !Live(l, n) && n !in l.open
  }

  /** No copy of n anywhere and no live record of it. */
  predicate Fresh(s: State, n: string) {
    Absent(s.d, n) && !Live(s.l, n)
  }

  /** Every copy of n holds all that was written, and S3 has one. */
  predicate Settled(s: State, n: string) {
    && n in s.l.written && n in s.d.files && s.d.files[n] == s.l.written[n]
    && n !in s.d.pending && n !in s.d.shadow
    && (n in s.d.local ==> s.d.local[n] == s.l.written[n])
    && (n in s.d.lru ==> s.d.lru[n] == s.l.written[n])
  }

  /** A client can tell that a name is free: it is not on S3, and the client has no writer open on it. */
  lemma OffS3IsFree(s: State, n: string)
    requires Inv(s) && n !in s.d.files && n !in s.l.open
    ensures Free(s.l, n)
  {
  }

  predicate IoGuard(d: Disk, l: Ledger, a: Io) {
    match a
    case Put(_, n, x) => l.Between(n, x)
    case Del(p, n) => p == S3 ==> !Live(l, n)
    case Purge(p) => p != S3
    case Move(o, n) => o in d.pending ==> l.Between(n, d.pending[o])
    case PutSum(n, _) => n in l.written
    case MoveSum(_, n) => n in l.written
    case _ => true
  }

  predicate NoteGuard(s: State, a: Note) {
    match a
    case Created(n) => Fresh(s, n)
    case Reused(n) => Free(s.l, n)
    case Append(n, _) => n in s.l.open
    case Ack(n) => Settled(s, n)
    case Doom(n) => n !in s.l.open
    case Forget(n) => Absent(s.d, n) && n !in s.l.open
    case _ => true
  }

  /** What a step must respect for the invariant to survive it. */
  predicate Guard(s: State, a: Action) {
    match a
    case Do(io) => IoGuard(s.d, s.l, io)
    case Record(note) => NoteGuard(s, note)
    case CopyFile(o, n) =>
      o in s.d.files && o in s.l.written && o !in s.l.open && o != n && Fresh(s, n) && n !in s.l.open
    case CopyOrphan(o, n) => o in s.d.files && o in s.l.written && o != n && Fresh(s, n) && n !in s.l.open
    case _ => true
  }

  /** New names are printed descriptors; renaming keeps the class; only that class goes to the local cache. */
  predicate NameGuard(a: Action) {
    match a
    case Do(Put(p, n, _)) => p == Local ==> CachedName(n)
    case Record(Created(n)) => IsFileName(n)
    case Record(Reused(n)) => IsFileName(n)
    case CopyFile(_, n) => IsFileName(n)
    case CopyOrphan(_, n) => IsFileName(n)
    case _ => true
  }

  ghost predicate Guarded(s: State, acts: seq<Action>) {
    acts == [] ||
    (Guarded(s, acts[..|acts| - 1]) && Guard(ApplyAll(s, acts[..|acts| - 1]), acts[|acts| - 1]))
  }

  ghost predicate NamesGuarded(acts: seq<Action>) {
    forall a :: a in acts ==> NameGuard(a)
  }

  // ---------- one step ----------

  predicate Elsewhere(a: Io, p: Place) {
    match a
    case Put(q, _, _) => q != p
    case Del(q, _) => q != p
    case Purge(q) => q != p
    case Move(_, _) => p != Pending
    case _ => true
  }

  lemma IoElsewhere(d: Disk, a: Io, p: Place)
    requires Elsewhere(a, p)
    ensures ApplyIo(d, a).At(p) == d.At(p)
  {
  }

  /** Where a copy found after an operation came from. */
  lemma IoOrigin(d: Disk, a: Io, p: Place, n: string)
    requires n in ApplyIo(d, a).At(p)
    ensures
      var x := ApplyIo(d, a).At(p)[n];
      || a == Put(p, n, x)
      || (a.Move? && p == Pending && a.dst == n && a.src in d.pending && x == d.pending[a.src])
      || (n in d.At(p) && x == d.At(p)[n])
  {
    match a
    case Put(q, m, y) => assert q != p || m == n || n in d.At(p);
    case Del(q, m) => assert n in d.At(p);
    case Purge(q) => assert q != p;
    case _ =>
  }

  lemma IoKeepsInv(s: State, a: Io)
    requires Inv(s) && IoGuard(s.d, s.l, a)
    ensures Inv(Apply(s, Do(a)))
  {
    var d' := ApplyIo(s.d, a);
    forall p, n | n in d'.At(p)
      ensures s.l.Between(n, d'.At(p)[n])
    {
      IoOrigin(s.d, a, p, n);
    }
    assert d'.sums.Keys <= s.l.written.Keys;
    forall n | Live(s.l, n)
      ensures n in d'.files
    {
      assert n in s.d.At(S3);
      IoKeepsFile(s.d, a, n);
    }
  }

  lemma IoKeepsFile(d: Disk, a: Io, n: string)
    requires n in d.At(S3) && a != Del(S3, n) && a != Purge(S3)
    ensures n in ApplyIo(d, a).files
  {
    assert ApplyIo(d, a).files == ApplyIo(d, a).At(S3);
    match a
    case Put(q, m, y) => assert q == S3 || ApplyIo(d, a).At(S3) == d.At(S3);
    case Del(q, m) => assert q == S3 || ApplyIo(d, a).At(S3) == d.At(S3);
    case Purge(q) => assert q != S3;
    case _ =>
  }

  lemma NoteKeepsLedger(s: State, a: Note)
    requires Inv(s) && NoteGuard(s, a)
    ensures ApplyNote(s.l, a).Valid()
  {
  }

  lemma NoteKeepsInv(s: State, a: Note)
    requires Inv(s) && NoteGuard(s, a)
    ensures Inv(Apply(s, Record(a)))
  {
    NoteKeepsLedger(s, a);
    var l' := ApplyNote(s.l, a);
    forall p, n | n in s.d.At(p)
      ensures l'.Between(n, s.d.At(p)[n])
    {
      assert s.l.Between(n, s.d.At(p)[n]);
    }
    forall n | Live(l', n)
      ensures n in s.d.files
    {
      assert Live(s.l, n) || a == Ack(n);
    }
  }

  lemma CopyKeepsLedger(s: State, o: string, n: string, l': Ledger)
    requires Inv(s)
    requires o in s.d.files && o in s.l.written && o != n && Fresh(s, n) && n !in s.l.open
    requires l' == Orphaned(s.l, o, n) || (o !in s.l.open && l' == Copied(s.l, o, n))
    ensures l'.Valid() && s.d.sums.Keys <= l'.written.Keys
    ensures forall m :: m != n ==>
              (m in l'.written <==> m in s.l.written) && (m in s.l.written ==> l'.written[m] == s.l.written[m])
    ensures forall m :: m != n ==> l'.Acked(m) == s.l.Acked(m)
    ensures n in l'.written && l'.written[n] == s.l.written[o] && l'.Acked(n) <= s.l.Acked(o)
    ensures forall m :: m != n ==> (m in l'.reused <==> m in s.l.reused)
    ensures n in l'.reused <==> o in s.l.reused
    ensures forall m :: m != n && Live(l', m) ==> Live(s.l, m)
  {
  }

  lemma CopyOrigin(d: Disk, o: string, n: string, p: Place, m: string)
    requires o in d.files && Absent(d, n)
    requires m in d.(files := d.files[n := d.files[o]]).At(p)
    ensures
      var x := d.(files := d.files[n := d.files[o]]).At(p)[m];
      if m == n then p == S3 && x == d.files[o] else m in d.At(p) && x == d.At(p)[m]
  {
  }

  lemma CopyKeepsInv(s: State, o: string, n: string, l': Ledger)
    requires Inv(s)
    requires o in s.d.files && o in s.l.written && o != n && Fresh(s, n) && n !in s.l.open
    requires l' == Orphaned(s.l, o, n) || (o !in s.l.open && l' == Copied(s.l, o, n))
    ensures Inv(State(s.d.(files := s.d.files[n := s.d.files[o]]), l', s.c))
  {
    hide Copied, Orphaned, Live, Absent;
    assert o in s.d.At(S3) && s.d.At(S3)[o] == s.d.files[o];
    hide Disk.At;
    var d' := s.d.(files := s.d.files[n := s.d.files[o]]);
    CopyKeepsLedger(s, o, n, l');
    forall p, m | m in d'.At(p)
      ensures l'.Between(m, d'.At(p)[m])
    {
      CopyOrigin(s.d, o, n, p, m);
      assert if m == n then s.l.Between(o, s.d.At(S3)[o]) else s.l.Between(m, s.d.At(p)[m]);
    }
  }

  lemma RestartKeepsInv(s: State)
    requires Inv(s)
    ensures Inv(Restart(s)) && Inv(Apply(s, NodeLoss))
  {
    var r := Restart(s);
    forall p, n | n in r.d.At(p)
      ensures r.l.Between(n, r.d.At(p)[n])
    {
      assert n in s.d.At(p) && r.d.At(p)[n] == s.d.At(p)[n];
    }
    var x := Apply(s, NodeLoss);
    forall p, n | n in x.d.At(p)
      ensures x.l.Between(n, x.d.At(p)[n])
    {
      assert n in s.d.At(p) && x.d.At(p)[n] == s.d.At(p)[n];
    }
    assert forall n :: Live(r.l, n) ==> Live(s.l, n);
  }

  lemma StepKeepsInv(s: State, a: Action)
    requires Inv(s) && Guard(s, a)
    ensures Inv(Apply(s, a))
  {
    match a
    case Do(io) => IoKeepsInv(s, io);
    case Record(note) => NoteKeepsInv(s, note);
    case CopyFile(o, n) => CopyKeepsInv(s, o, n, Copied(s.l, o, n));
    case CopyOrphan(o, n) => CopyKeepsInv(s, o, n, Orphaned(s.l, o, n));
    case Crash => RestartKeepsInv(s);
    case NodeLoss => RestartKeepsInv(s);
    case _ =>
  }

  lemma LocalOrigin(s: State, a: Action, n: string)
    requires n in Apply(s, a).d.local
    ensures n in s.d.local || a == Do(Put(Local, n, Apply(s, a).d.local[n]))
  {
    if a.Do? {
      IoOrigin(s.d, a.io, Local, n);
    }
  }

  lemma StepKeepsNames(s: State, a: Action)
    requires NamesOk(s) && NameGuard(a)
    ensures NamesOk(Apply(s, a))
  {
    var t := Apply(s, a);
    forall n | n in t.l.written
      ensures IsFileName(n)
    {
      if n !in s.l.written && !Introduces(a, n) {
        StepKeepsGone(s, a, n);
      }
    }
    forall n | n in t.d.local
      ensures CachedName(n)
    {
      LocalOrigin(s, a, n);
    }
  }

  /** The steps by which the client gives a file up. */
  predicate GivesUp(a: Action, n: string) {
    a == Record(Doom(n)) || a == Record(DoomAll) || (a.CopyFile? && a.src == n)
  }

  /** The steps that bring a name into being. */
  predicate Introduces(a: Action, n: string) {
    a == Record(Created(n)) || a == Record(Reused(n)) || ((a.CopyFile? || a.CopyOrphan?) && a.dst == n)
  }

  lemma StepKeepsAck(s: State, a: Action, n: string)
    requires Inv(s) && Guard(s, a) && Live(s.l, n) && !GivesUp(a, n)
    ensures Live(Apply(s, a).l, n) && s.l.acked[n] <= Apply(s, a).l.acked[n]
  {
    assert n in s.d.files;
  }

  lemma StepKeepsGone(s: State, a: Action, n: string)
    requires n !in s.l.written && !Introduces(a, n)
    ensures n !in Apply(s, a).l.written
  {
  }

  // ---------- sequences of steps ----------

  lemma ApplyAllSnoc(s: State, acts: seq<Action>, a: Action)
    ensures ApplyAll(s, acts + [a]) == Apply(ApplyAll(s, acts), a)
  {
    assert (acts + [a])[..|acts|] == acts;
  }

  lemma {:induction false} ApplyAllConcat(s: State, a: seq<Action>, b: seq<Action>)
    ensures ApplyAll(s, a + b) == ApplyAll(ApplyAll(s, a), b)
  {
    if b == [] {
      assert a + b == a;
    } else {
      var b' := b[..|b| - 1];
      ApplyAllConcat(s, a, b');
      assert (a + b)[..|a + b| - 1] == a + b';
    }
  }

  lemma {:induction false} GuardedConcat(s: State, a: seq<Action>, b: seq<Action>)
    ensures Guarded(s, a + b) <==> Guarded(s, a) && Guarded(ApplyAll(s, a), b)
  {
    if b == [] {
      assert a + b == a;
    } else {
      var b' := b[..|b| - 1];
      GuardedConcat(s, a, b');
      ApplyAllConcat(s, a, b');
      assert (a + b)[..|a + b| - 1] == a + b';
    }
  }

  lemma GuardedOne(s: State, a: Action)
    ensures Guarded(s, [a]) <==> Guard(s, a)
    ensures ApplyAll(s, [a]) == Apply(s, a)
  {
    assert [a][..0] == [];
  }

  lemma ApplyTwo(s: State, a: Action, b: Action)
    ensures ApplyAll(s, [a, b]) == Apply(Apply(s, a), b)
  {
    GuardedOne(s, a);
    ApplyAllSnoc(s, [a], b);
    assert [a] + [b] == [a, b];
  }

  lemma ApplyThree(s: State, a: Action, b: Action, c: Action)
    ensures ApplyAll(s, [a, b, c]) == Apply(Apply(Apply(s, a), b), c)
  {
    ApplyTwo(s, a, b);
    ApplyAllSnoc(s, [a, b], c);
    assert [a, b] + [c] == [a, b, c];
  }

  /** The invariant holds at every point of a guarded sequence: a crash may cut it anywhere. */
  lemma {:induction false} GuardedKeepsInv(s: State, acts: seq<Action>, k: nat)
    requires Inv(s) && Guarded(s, acts) && k <= |acts|
    ensures Guarded(s, acts[..k]) && Inv(ApplyAll(s, acts[..k]))
  {
    if k == |acts| {
      assert acts[..k] == acts;
      if acts != [] {
        GuardedKeepsInv(s, acts[..|acts| - 1], |acts| - 1);
        assert acts[..|acts| - 1][..|acts| - 1] == acts[..|acts| - 1];
        StepKeepsInv(ApplyAll(s, acts[..|acts| - 1]), acts[|acts| - 1]);
      }
    } else {
      GuardedKeepsInv(s, acts[..|acts| - 1], k);
      assert acts[..|acts| - 1][..k] == acts[..k];
    }
  }

  lemma {:induction false} NamesGuardedKeepsNames(s: State, acts: seq<Action>)
    requires NamesOk(s) && NamesGuarded(acts)
    ensures NamesOk(ApplyAll(s, acts))
  {
    if acts != [] {
      NamesGuardedKeepsNames(s, acts[..|acts| - 1]);
      StepKeepsNames(ApplyAll(s, acts[..|acts| - 1]), acts[|acts| - 1]);
    }
  }

  /** Acknowledged bytes survive, and only grow, along any guarded sequence that does not give the file up. */
  lemma {:induction false} GuardedKeepsAck(s: State, acts: seq<Action>, n: string)
    requires Inv(s) && Guarded(s, acts) && Live(s.l, n)
    requires forall a :: a in acts ==> !GivesUp(a, n)
    ensures Live(ApplyAll(s, acts).l, n) && s.l.acked[n] <= ApplyAll(s, acts).l.acked[n]
  {
    if acts != [] {
      var front := acts[..|acts| - 1];
      GuardedKeepsAck(s, front, n);
      GuardedKeepsInv(s, front, |front|);
      assert front[..|front|] == front;
      StepKeepsAck(ApplyAll(s, front), acts[|acts| - 1], n);
    }
  }

  /** A name nobody has a record of stays unknown until it is created or renamed to. */
  lemma {:induction false} StepsKeepGone(s: State, acts: seq<Action>, n: string)
    requires n !in s.l.written
    requires forall a :: a in acts ==> !Introduces(a, n)
    ensures n !in ApplyAll(s, acts).l.written
  {
    if acts != [] {
      StepsKeepGone(s, acts[..|acts| - 1], n);
      StepKeepsGone(ApplyAll(s, acts[..|acts| - 1]), acts[|acts| - 1], n);
    }
  }

  // ---------- steps that leave the client's record alone ----------

  /** Steps whose guard looks only at the client's record. */
  predicate Physical(a: Action) {
    match a
    case Do(io) => !io.Move?
    case Record(_) => false
    case CopyFile(_, _) => false
    case CopyOrphan(_, _) => false
    case Crash => false
    case NodeLoss => false
    case SetLost => false
    case _ => true
  }

  predicate Harmless(l: Ledger, a: Action) {
    Physical(a) && (a.Do? ==> IoGuard(EMPTY.d, l, a.io))
  }

  ghost predicate AllHarmless(l: Ledger, acts: seq<Action>) {
    forall a :: a in acts ==> Harmless(l, a)
  }

  /** Harmless steps are guarded in any order and number. */
  lemma {:induction false} HarmlessGuarded(s: State, acts: seq<Action>)
    requires AllHarmless(s.l, acts)
    ensures Guarded(s, acts) && ApplyAll(s, acts).l == s.l && ApplyAll(s, acts).c.lost == s.c.lost
  {
    if acts != [] {
      HarmlessGuarded(s, acts[..|acts| - 1]);
      assert acts[|acts| - 1] in acts;
    }
  }
}
