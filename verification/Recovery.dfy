/** What recovery inside Lock computes when S3 answers: one map, whatever the order in which the uploads finish. */
module Recovery {
  import opened Scan
  import opened Names
  import opened Store
  import opened Programs
  import opened Guards
  import opened PendingDir

  // ---------- steps on different files commute ----------

  /** A store operation on one file. */
  predicate OnFile(a: Action, n: string) {
    a.Do? && !a.io.Move? && !a.io.MoveSum? && !a.io.Purge? && !a.io.PurgeSums? && a.io.name == n
  }

  ghost predicate AllOnFile(acts: seq<Action>, n: string) {
    forall a :: a in acts ==> OnFile(a, n)
  }

  lemma SameDisk(d: Disk, e: Disk)
    requires d.sums == e.sums && forall p :: d.At(p) == e.At(p)
    ensures d == e
  {
    assert d.At(S3) == e.At(S3) && d.At(Shadow) == e.At(Shadow) && d.At(Pending) == e.At(Pending);
    assert d.At(Local) == e.At(Local) && d.At(Lru) == e.At(Lru);
  }

  /** The effect of a one-file operation on one place, as a change of the map. */
  function Changed(m: map<string, Bytes>, p: Place, a: Io): map<string, Bytes> {
    match a
    case Put(q, n, x) => if q == p then m[n := x] else m
    case Del(q, n) => if q == p then m - {n} else m
    case _ => m
  }

  function ChangedSums(m: map<string, string>, a: Io): map<string, string> {
    match a
    case PutSum(n, c) => m[n := c]
    case DelSum(n) => m - {n}
    case _ => m
  }

  lemma OneFileEffect(d: Disk, a: Io, p: Place)
    requires a.Put? || a.Del? || a.PutSum? || a.DelSum?
    ensures ApplyIo(d, a).At(p) == Changed(d.At(p), p, a)
  {
    match a
    case Put(q, n, x) => assert d.With(q, d.At(q)[n := x]).At(p) == if p == q then d.At(q)[n := x] else d.At(p);
    case Del(q, n) => assert d.With(q, d.At(q) - {n}).At(p) == if p == q then d.At(q) - {n} else d.At(p);
    case PutSum(n, c) =>
    case DelSum(n) =>
  }

  lemma OneFileSums(d: Disk, a: Io)
    requires a.Put? || a.Del? || a.PutSum? || a.DelSum?
    ensures ApplyIo(d, a).sums == ChangedSums(d.sums, a)
  {
    hide Disk.With, Disk.At;
    match a
    case Put(q, n, x) => WithKeepsSums(d, q, d.At(q)[n := x]);
    case Del(q, n) => WithKeepsSums(d, q, d.At(q) - {n});
    case PutSum(n, c) =>
    case DelSum(n) =>
  }

  lemma WithKeepsSums(d: Disk, p: Place, m: map<string, Bytes>)
    ensures d.With(p, m).sums == d.sums
  {
  }

  lemma Commute(s: State, a: Action, b: Action, n: string, k: string)
    requires OnFile(a, n) && OnFile(b, k) && n != k
    ensures Apply(Apply(s, a), b) == Apply(Apply(s, b), a)
  {
    hide ApplyIo;
    var x, y := a.io, b.io;
    var xy, yx := ApplyIo(ApplyIo(s.d, x), y), ApplyIo(ApplyIo(s.d, y), x);
    forall p
      ensures xy.At(p) == yx.At(p)
    {
      OneFileEffect(s.d, x, p);
      OneFileEffect(s.d, y, p);
      OneFileEffect(ApplyIo(s.d, x), y, p);
      OneFileEffect(ApplyIo(s.d, y), x, p);
      ChangesCommute(s.d.At(p), p, x, y);
    }
    OneFileSums(s.d, x);
    OneFileSums(s.d, y);
    OneFileSums(ApplyIo(s.d, x), y);
    OneFileSums(ApplyIo(s.d, y), x);
    assert ChangedSums(ChangedSums(s.d.sums, x), y) == ChangedSums(ChangedSums(s.d.sums, y), x);
    SameDisk(xy, yx);
  }

  lemma ChangesCommute(m: map<string, Bytes>, p: Place, x: Io, y: Io)
    requires x.Put? || x.Del? || x.PutSum? || x.DelSum?
    requires y.Put? || y.Del? || y.PutSum? || y.DelSum?
    requires x.name != y.name
    ensures Changed(Changed(m, p, x), p, y) == Changed(Changed(m, p, y), p, x)
  {
  }

  /** A step on one file may be moved across steps that all concern other files. */
  lemma {:induction false} MoveFirst(s: State, acts: seq<Action>, a: Action, n: string)
    requires OnFile(a, n)
    requires forall x :: x in acts ==> exists k :: k != n && OnFile(x, k)
    ensures ApplyAll(s, acts + [a]) == ApplyAll(s, [a] + acts)
  {
    if acts == [] {
      assert acts + [a] == [a] + acts;
    } else {
      var front, last := acts[..|acts| - 1], acts[|acts| - 1];
      assert forall x :: x in front ==> x in acts;
      assert last in acts;
      var k :| k != n && OnFile(last, k);
      MoveFirst(s, front, a, n);
      ApplyAllSnoc(s, acts, a);
      Commute(ApplyAll(s, front), last, a, k, n);
      ApplyAllSnoc(s, front, a);
      ApplyAllSnoc(s, [a] + front, last);
      assert [a] + front + [last] == [a] + acts;
    }
  }

  // ---------- goroutines that work on different files ----------

  /** Goroutine i works on file names[i] only, and no two work on the same file. */
  ghost predicate Separate(todo: seq<seq<Action>>, names: seq<string>) {
    && |todo| == |names|
    && (forall i :: 0 <= i < |todo| ==> AllOnFile(todo[i], names[i]))
    && (forall i, j :: 0 <= i < j < |names| ==> names[i] != names[j])
  }

  lemma {:induction false} FlattenSplit(todo: seq<seq<Action>>, j: nat)
    requires j < |todo|
    ensures Flatten(todo) == Flatten(todo[..j]) + todo[j] + Flatten(todo[j + 1..])
  {
    if j == 0 {
      assert todo[..0] == [];
    } else {
      FlattenSplit(todo[1..], j - 1);
      assert todo[1..][..j - 1] == todo[..j][1..];
      assert todo[1..][j..] == todo[j + 1..];
    }
  }

  /** What the goroutines before j do concerns other files. */
  lemma OthersBefore(todo: seq<seq<Action>>, names: seq<string>, j: nat)
    requires Separate(todo, names) && j < |todo|
    ensures forall x :: x in Flatten(todo[..j]) ==> exists k :: k != names[j] && OnFile(x, k)
  {
    forall x | x in Flatten(todo[..j])
      ensures exists k :: k != names[j] && OnFile(x, k)
    {
      FlattenMembers(todo[..j], x);
      var i :| 0 <= i < j && x in todo[..j][i];
      assert x in todo[i] && OnFile(x, names[i]);
    }
  }

  lemma Regroup(before: seq<Action>, a: Action, rest: seq<Action>, after: seq<Action>)
    ensures before + ([a] + rest) + after == (before + [a]) + (rest + after)
    ensures [a] + (before + rest + after) == ([a] + before) + (rest + after)
  {
  }

  lemma TakeStep(s: State, todo: seq<seq<Action>>, names: seq<string>, j: nat)
    requires Separate(todo, names) && j < |todo| && todo[j] != []
    ensures ApplyAll(s, Flatten(todo)) == ApplyAll(s, [todo[j][0]] + Flatten(todo[j := todo[j][1..]]))
  {
    hide OnFile, ApplyAll, Flatten;
    var before, after := Flatten(todo[..j]), Flatten(todo[j + 1..]);
    var a, rest := todo[j][0], todo[j][1..];
    var todo' := todo[j := rest];
    FlattenSplit(todo, j);
    FlattenSplit(todo', j);
    assert todo'[..j] == todo[..j] && todo'[j + 1..] == todo[j + 1..];
    assert a in todo[j];
    OthersBefore(todo, names, j);
    MoveFirst(s, before, a, names[j]);
    assert todo[j] == [a] + rest;
    Regroup(before, a, rest, after);
    ApplyAllConcat(s, before + [a], rest + after);
    ApplyAllConcat(s, [a] + before, rest + after);
  }

  /** Every schedule of goroutines that work on different files ends in the same state. */
  lemma {:induction false} AnyOrder(s: State, todo: seq<seq<Action>>, names: seq<string>, sched: seq<nat>)
    requires Separate(todo, names)
    ensures ApplyAll(s, Merge(todo, sched)) == ApplyAll(s, Flatten(todo))
    decreases |sched|
  {
    if sched != [] {
      var j := sched[0];
      if j < |todo| && todo[j] != [] {
        var a := todo[j][0];
        var todo' := todo[j := todo[j][1..]];
        assert forall x :: x in todo'[j] ==> x in todo[j];
        assert Separate(todo', names);
        TakeStep(s, todo, names, j);
        ApplyAllConcat(s, [a], Merge(todo', sched[1..]));
        ApplyAllConcat(s, [a], Flatten(todo'));
        AnyOrder(ApplyAll(s, [a]), todo', names, sched[1..]);
      } else {
        AnyOrder(s, todo, names, sched[1..]);
      }
    }
  }

  /** No sidecar contradicts its file. */
  ghost predicate SumsValid(cfg: Config, d: Disk) {
    forall n :: n in d.pending && n in d.sums ==> TrimSpace(d.sums[n]) == SumText(cfg, d.pending[n])
  }

  // ---------- syncFromShadow ----------

  ghost predicate PullsSucceed(names: seq<string>, pull: string -> PullEnv) {
    forall n :: n in names ==> pull(n) == PullEnv(true, true, SumDone)
  }

  /** The listed shadow copies that are not pending yet. */
  function Missing(d: Disk, names: seq<string>): map<string, Bytes> {
    map n | n in d.shadow && n in names && n != "" && n !in d.pending :: d.shadow[n]
  }

  lemma PullEffect(cfg: Config, s: State, n: string)
    requires n != "" && n in s.d.shadow && n !in s.d.pending
    ensures ApplyAll(s, PullActs(cfg, s, n, PullEnv(true, true, SumDone))) ==
            s.(d := s.d.(pending := s.d.pending[n := s.d.shadow[n]],
                sums := s.d.sums[n := SumText(cfg, s.d.shadow[n])]))
  {
    hide SumText;
    ApplyTwo(s, Do(Put(Pending, n, s.d.shadow[n])), Do(PutSum(n, SumText(cfg, s.d.shadow[n]))));
  }

  /** A pulled copy comes with its own checksum; the other checksums stay. */
  ghost predicate PulledSums(cfg: Config, d: Disk, e: Disk) {
    forall n ::
      if n in d.pending then (n in e.sums <==> n in d.sums) && (n in d.sums ==> e.sums[n] == d.sums[n])
      else if n in e.pending then n in e.sums && e.sums[n] == SumText(cfg, e.pending[n])
      else (n in e.sums <==> n in d.sums) && (n in d.sums ==> e.sums[n] == d.sums[n])
  }

  lemma {:induction false} PullEffects(cfg: Config, s: State, names: seq<string>, pull: string -> PullEnv)
    requires PullsSucceed(names, pull)
    ensures
      var t := ApplyAll(s, ShadowActs(cfg, s, names, pull));
      && t.l == s.l && t.c == s.c && t.d == s.d.(pending := s.d.pending + Missing(s.d, names), sums := t.d.sums)
      && PulledSums(cfg, s.d, t.d) && (Missing(s.d, names) == map[] ==> t == s)
    decreases |names|
  {
    hide SumText, PulledSums;
    if names == [] {
      assert s.d.pending + Missing(s.d, names) == s.d.pending;
      SumsSame(cfg, s.d);
    } else {
      var n := names[0];
      assert n in names;
      var acts := PullActs(cfg, s, n, pull(n));
      var t := ApplyAll(s, acts);
      var u := ApplyAll(t, ShadowActs(cfg, t, names[1..], pull));
      PullEffects(cfg, t, names[1..], pull);
      if n != "" && n in s.d.shadow && n !in s.d.pending {
        PullEffect(cfg, s, n);
        SumsOne(cfg, s.d, t.d, u.d, n);
      } else {
        assert t == s;
      }
      ApplyAllConcat(s, acts, ShadowActs(cfg, t, names[1..], pull));
      MissingSplit(s.d, t.d, names);
    }
  }

  lemma SumsSame(cfg: Config, d: Disk)
    ensures PulledSums(cfg, d, d)
  {
  }

  lemma SumsOne(cfg: Config, d: Disk, e: Disk, f: Disk, n: string)
    requires n in d.shadow && n !in d.pending
    requires e == d.(pending := d.pending[n := d.shadow[n]], sums := d.sums[n := SumText(cfg, d.shadow[n])])
    requires PulledSums(cfg, e, f) && n in f.pending && f.pending[n] == e.pending[n]
    ensures PulledSums(cfg, d, f)
  {
    hide SumText;
  }

  lemma MissingSplit(d: Disk, e: Disk, names: seq<string>)
    requires names != [] && e.shadow == d.shadow
    requires var n := names[0];
             e.pending == if n != "" && n in d.shadow && n !in d.pending then d.pending[n := d.shadow[n]] else d.pending
    ensures e.pending + Missing(e, names[1..]) == d.pending + Missing(d, names)
    ensures Missing(d, names) == map[] ==> Missing(e, names[1..]) == map[]
  {
    var n := names[0];
    assert forall k :: k in names <==> k == n || k in names[1..];
    assert forall k :: k in Missing(e, names[1..]) <==> k in Missing(d, names) && k !in e.pending;
  }

  // ---------- re-uploading the pending directory ----------

  function FileData(fs: seq<PendingFile>): map<string, Bytes> {
    if fs == [] then map[] else FileData(fs[..|fs| - 1])[fs[|fs| - 1].name := fs[|fs| - 1].data]
  }

  /** The files of m went to S3 and left pending and shadow; only the LRU may have changed besides. */
  ghost predicate Moved(s: State, t: State, m: map<string, Bytes>) {
    && t.l == s.l && t.c == s.c && t.d.local == s.d.local
    && t.d.files == s.d.files + m
    && t.d.pending == s.d.pending - m.Keys && t.d.sums == s.d.sums - m.Keys && t.d.shadow == s.d.shadow - m.Keys
  }

  lemma MovedNothing(s: State)
    ensures Moved(s, s, map[])
  {
    assert s.d.files + map[] == s.d.files && s.d.pending - {} == s.d.pending;
    assert s.d.sums - {} == s.d.sums && s.d.shadow - {} == s.d.shadow;
  }

  lemma MinusTwice<T>(m: map<string, T>, ks: set<string>, n: string)
    ensures (m - ks) - {n} == m - (ks + {n})
  {
  }

  lemma PlusTwice(m: map<string, Bytes>, more: map<string, Bytes>, n: string, x: Bytes)
    ensures (m + more) + map[n := x] == m + more[n := x]
  {
  }

  lemma MovedMore(s: State, t: State, u: State, m: map<string, Bytes>, n: string, x: Bytes)
    requires Moved(s, t, m) && Moved(t, u, map[n := x])
    ensures Moved(s, u, m[n := x])
  {
    PlusTwice(s.d.files, m, n, x);
    MinusTwice(s.d.pending, m.Keys, n);
    MinusTwice(s.d.shadow, m.Keys, n);
    MinusTwice(s.d.sums, m.Keys, n);
    assert m[n := x].Keys == m.Keys + {n} && map[n := x].Keys == {n};
  }

  lemma RecoverBigEffect(s: State, n: string, x: Bytes)
    ensures ApplyAll(s, [Do(Put(S3, n, x)), Do(Del(Pending, n)), Do(DelSum(n)), Do(Del(Shadow, n))]) ==
            s.(d := s.d.(files := s.d.files[n := x], pending := s.d.pending - {n}, sums := s.d.sums - {n},
                shadow := s.d.shadow - {n}))
  {
    hide ApplyAll;
    var a := [Do(Put(S3, n, x)), Do(Del(Pending, n)), Do(DelSum(n))];
    UploadEffect(s, n, x);
    ApplyAllSnoc(s, a, Do(Del(Shadow, n)));
    assert a + [Do(Del(Shadow, n))] == [Do(Put(S3, n, x)), Do(Del(Pending, n)), Do(DelSum(n)), Do(Del(Shadow, n))];
  }

  lemma MovedOne(s: State, n: string, x: Bytes)
    ensures Moved(s, s.(d := s.d.(files := s.d.files[n := x], pending := s.d.pending - {n},
                                  sums := s.d.sums - {n}, shadow := s.d.shadow - {n})), map[n := x])
  {
    assert s.d.files[n := x] == s.d.files + map[n := x];
    assert map[n := x].Keys == {n};
  }

  /** What a successful goroutine of the recovery does, the LRU aside. */
  function MoveActs(f: PendingFile): seq<Action> {
    [Do(Put(S3, f.name, f.data)), Do(Del(Pending, f.name)), Do(DelSum(f.name)), Do(Del(Shadow, f.name))]
  }

  function MoveLists(fs: seq<PendingFile>): (todo: seq<seq<Action>>)
    ensures |todo| == |fs|
  {
    seq(|fs|, i requires 0 <= i < |fs| => MoveActs(fs[i]))
  }

  lemma {:induction false} FlattenSnoc(todo: seq<seq<Action>>, x: seq<Action>)
    ensures Flatten(todo + [x]) == Flatten(todo) + x
  {
    if todo == [] {
      assert Flatten([x]) == x + Flatten([]);
      assert [] + [x] == [x];
    } else {
      FlattenSnoc(todo[1..], x);
      assert (todo + [x])[1..] == todo[1..] + [x];
    }
  }

  lemma NothingToDo(s: State, todo: seq<seq<Action>>)
    requires todo == []
    ensures ApplyAll(s, Flatten(todo)) == s
  {
  }

  lemma {:induction false} MoveAllEffect(s: State, fs: seq<PendingFile>)
    ensures Moved(s, ApplyAll(s, Flatten(MoveLists(fs))), FileData(fs))
  {
    var todo := MoveLists(fs);
    if fs == [] {
      NothingToDo(s, todo);
      MovedNothing(s);
    } else {
      hide Flatten, ApplyAll, Moved;
      var front, f := fs[..|fs| - 1], fs[|fs| - 1];
      var before := MoveLists(front);
      MoveAllEffect(s, front);
      assert todo == before + [MoveActs(f)];
      FlattenSnoc(before, MoveActs(f));
      ApplyAllConcat(s, Flatten(before), MoveActs(f));
      var t := ApplyAll(s, Flatten(before));
      RecoverBigEffect(t, f.name, f.data);
      MovedOne(t, f.name, f.data);
      MovedMore(s, t, ApplyAll(t, MoveActs(f)), FileData(front), f.name, f.data);
    }
  }

  lemma {:induction false} FileDataIs(fs: seq<PendingFile>, m: map<string, Bytes>)
    requires forall f :: f in fs ==> f.name in m && f.data == m[f.name]
    ensures forall n :: n in FileData(fs) ==> n in m && FileData(fs)[n] == m[n]
    ensures forall f :: f in fs ==> f.name in FileData(fs)
  {
    if fs != [] {
      var front, f := fs[..|fs| - 1], fs[|fs| - 1];
      assert forall g :: g in front ==> g in fs;
      FileDataIs(front, m);
      assert front + [f] == fs;
      assert f in fs;
    }
  }

  lemma MovesSeparate(fs: seq<PendingFile>)
    requires NamesDistinct(fs)
    ensures Separate(MoveLists(fs), seq(|fs|, i requires 0 <= i < |fs| => fs[i].name))
  {
  }

  // ---------- the LRU aside ----------

  /** Two files may share an LRU key when their names are not canonical, so their goroutines are separate but for
      the LRU. */
  predicate RefreshesLru(a: Action) {
    a.Do? && a.io.Put? && a.io.p == Lru
  }

  function NoLru(acts: seq<Action>): seq<Action> {
    if acts == [] then [] else (if RefreshesLru(acts[0]) then [] else [acts[0]]) + NoLru(acts[1..])
  }

  function AllNoLru(todo: seq<seq<Action>>): (r: seq<seq<Action>>)
    ensures |r| == |todo|
  {
    seq(|todo|, i requires 0 <= i < |todo| => NoLru(todo[i]))
  }

  predicate SameButLru(s: State, t: State) {
    s.l == t.l && s.c == t.c && DiskButLru(s.d, t.d)
  }

  lemma LruStep(s: State, t: State, a: Action)
    requires SameButLru(s, t) && a.Do?
    ensures SameButLru(Apply(s, a), if RefreshesLru(a) then t else Apply(t, a))
  {
    hide ApplyIo;
    LruIo(s.d, t.d, a.io);
  }

  predicate DiskButLru(d: Disk, e: Disk) {
    d == e.(lru := d.lru)
  }

  lemma LruIo(d: Disk, e: Disk, io: Io)
    requires DiskButLru(d, e)
    ensures DiskButLru(ApplyIo(d, io), if io.Put? && io.p == Lru then e else ApplyIo(e, io))
  {
    match io
    case Put(p, n, x) => LruWith(d, e, p, d.At(p)[n := x], if p == Lru then e.lru else e.At(p)[n := x]);
    case Del(p, n) => LruWith(d, e, p, d.At(p) - {n}, e.At(p) - {n});
    case Purge(p) => LruWith(d, e, p, map[], map[]);
    case _ =>
  }

  lemma LruWith(d: Disk, e: Disk, p: Place, m: map<string, Bytes>, o: map<string, Bytes>)
    requires DiskButLru(d, e) && (p == Lru || m == o)
    ensures DiskButLru(d.With(p, m), e.With(p, o))
  {
  }

  lemma {:induction false} SameEffect(s: State, t: State, acts: seq<Action>)
    requires SameButLru(s, t) && forall a :: a in acts ==> a.Do?
    ensures SameButLru(ApplyAll(s, acts), ApplyAll(t, NoLru(acts)))
    decreases |acts|
  {
    if acts != [] {
      hide ApplyAll, SameButLru;
      var a, rest := acts[0], acts[1..];
      assert a in acts && acts == [a] + rest;
      LruStep(s, t, a);
      var u := if RefreshesLru(a) then t else Apply(t, a);
      SameEffect(Apply(s, a), u, rest);
      GuardedOne(s, a);
      ApplyAllConcat(s, [a], rest);
      GuardedOne(t, a);
      ApplyAllConcat(t, [a], NoLru(rest));
      assert [] + NoLru(rest) == NoLru(rest);
    } else {
      NothingApplied(s);
      NothingApplied(t);
    }
  }

  lemma NothingApplied(s: State)
    ensures ApplyAll(s, []) == s
  {
  }

  lemma {:induction false} NoLruConcat(a: seq<Action>, b: seq<Action>)
    ensures NoLru(a + b) == NoLru(a) + NoLru(b)
    decreases |a|
  {
    if a == [] {
      assert a + b == b;
    } else {
      NoLruConcat(a[1..], b);
      assert (a + b)[1..] == a[1..] + b;
    }
  }

  lemma {:induction false} FlattenNoLru(todo: seq<seq<Action>>)
    ensures NoLru(Flatten(todo)) == Flatten(AllNoLru(todo))
  {
    if todo != [] {
      FlattenNoLru(todo[1..]);
      NoLruConcat(todo[0], Flatten(todo[1..]));
      assert AllNoLru(todo)[1..] == AllNoLru(todo[1..]);
    }
  }

  /** Leaving out the LRU steps of an interleaving gives an interleaving of what is left. */
  lemma {:induction false} MergeNoLru(todo: seq<seq<Action>>, sched: seq<nat>) returns (turns: seq<nat>)
    ensures NoLru(Merge(todo, sched)) == Merge(AllNoLru(todo), turns)
    decreases |sched|
  {
    if sched == [] {
      FlattenNoLru(todo);
      turns := [];
    } else if sched[0] < |todo| && todo[sched[0]] != [] {
      var j := sched[0];
      var a, later := todo[j][0], todo[j := todo[j][1..]];
      turns := MergeNoLru(later, sched[1..]);
      assert ([a] + Merge(later, sched[1..]))[1..] == Merge(later, sched[1..]);
      hide Merge;
      var lists, rest := AllNoLru(todo), AllNoLru(later);
      if RefreshesLru(a) {
        assert lists[j] == rest[j];
        forall i | 0 <= i < |todo|
          ensures lists[i] == rest[i]
        {
          assert i != j ==> later[i] == todo[i];
        }
        assert lists == rest;
      } else {
        assert lists[j] == [a] + rest[j];
        assert lists[j][1..] == rest[j];
        assert lists[j := lists[j][1..]] == rest;
        MergeTakes(lists, j, turns);
        turns := [j] + turns;
      }
      MergeFirst(todo, sched);
    } else {
      turns := MergeNoLru(todo, sched[1..]);
    }
  }

  lemma MergeTakes(lists: seq<seq<Action>>, j: nat, turns: seq<nat>)
    requires j < |lists| && lists[j] != []
    ensures Merge(lists, [j] + turns) == [lists[j][0]] + Merge(lists[j := lists[j][1..]], turns)
  {
    assert ([j] + turns)[1..] == turns;
  }

  lemma MergeFirst(todo: seq<seq<Action>>, sched: seq<nat>)
    requires sched != [] && sched[0] < |todo| && todo[sched[0]] != []
    ensures
      var j := sched[0];
      Merge(todo, sched) == [todo[j][0]] + Merge(todo[j := todo[j][1..]], sched[1..])
  {
  }

  lemma RecoverNoLru(cfg: Config, fs: seq<PendingFile>, up: string -> Outcome)
    requires forall n :: up(n) == Done
    ensures AllNoLru(RecoverLists(cfg, fs, up)) == MoveLists(fs)
    ensures forall i, a :: 0 <= i < |fs| && a in RecoverLists(cfg, fs, up)[i] ==> IsDo(a)
  {
    var lists := AllNoLru(RecoverLists(cfg, fs, up));
    forall i | 0 <= i < |fs|
      ensures lists[i] == MoveLists(fs)[i]
    {
      RecoverOneNoLru(cfg, fs[i]);
    }
    forall i, a | 0 <= i < |fs| && a in RecoverLists(cfg, fs, up)[i]
      ensures IsDo(a)
    {
      RecoverDoes(cfg, fs[i], a);
    }
  }

  lemma RecoverDoes(cfg: Config, f: PendingFile, a: Action)
    requires a in RecoverOneActs(cfg, f, Done)
    ensures IsDo(a)
  {
    hide FdName;
  }

  predicate IsDo(a: Action) {
    a.Do?
  }

  lemma {:induction false} NoLruSame(acts: seq<Action>)
    requires forall a :: a in acts ==> !RefreshesLru(a)
    ensures NoLru(acts) == acts
  {
    if acts != [] {
      NoLruSame(acts[1..]);
      assert acts[0] in acts;
    }
  }

  lemma RecoverOneNoLru(cfg: Config, f: PendingFile)
    ensures NoLru(RecoverOneActs(cfg, f, Done)) == MoveActs(f)
  {
    hide FdName;
    var refresh := if |f.data| <= cfg.maxFileSize then [Do(Put(Lru, FdName(f.fd), f.data))] else [];
    NoLruConcat(MoveActs(f), refresh);
    var m := MoveActs(f);
    NoLruSame(m);
    assert refresh == [] || refresh[1..] == [];
    assert NoLru(refresh) == [];
  }

  // ---------- corrupt pending files ----------

  /** The pending files whose readable checksum contradicts them. */
  function Damaged(cfg: Config, d: Disk, r: ReadEnv): set<string> {
    set n | n in d.pending && Corrupt(cfg, d, n, r)
  }

  /** Pulling neither heals nor damages anything. */
  lemma PullsKeepDamage(cfg: Config, d: Disk, e: Disk, r: ReadEnv)
    requires PulledSums(cfg, d, e) && d.pending.Keys <= e.pending.Keys
    requires forall n :: n in d.pending ==> e.pending[n] == d.pending[n]
    ensures Damaged(cfg, e, r) == Damaged(cfg, d, r)
  {
    hide SumText, TrimSpace;
    forall n | n in e.pending && n !in d.pending
      ensures !Corrupt(cfg, e, n, r)
    {
      SumTextTrimmed(cfg, e.pending[n]);
    }
  }

  lemma DroppedIsDamaged(cfg: Config, d: Disk, r: ReadEnv)
    requires forall n :: n in d.pending ==> n in r.names && !IsSidecar(n) && ParseFileDesc(n).Some?
    requires forall n :: r.fileOk(n)
    ensures Dropped(cfg, d, r.names, r) == Damaged(cfg, d, r)
  {
    hide ParseFileDesc, IsSidecar, Corrupt;
  }

  lemma UploadListIsSound(cfg: Config, d: Disk, r: ReadEnv)
    requires forall n :: n in d.pending ==> n in r.names && !IsSidecar(n) && ParseFileDesc(n).Some?
    requires (forall n :: r.fileOk(n)) && NoDuplicates(r.names)
    ensures NamesDistinct(UploadList(cfg, d, r))
    ensures FileData(UploadList(cfg, d, r)) == d.pending - Damaged(cfg, d, r)
  {
    hide ParseFileDesc, Corrupt, IsSidecar, Sorted, PendingFiles;
    var fs := UploadList(cfg, d, r);
    var m := d.pending - Damaged(cfg, d, r);
    PendingFilesDistinct(cfg, d, r.names, r);
    SortedDistinct(PendingFiles(cfg, d, r.names, r));
    forall f | f in fs
      ensures f.name in m && f.data == m[f.name]
    {
      PendingSetExact(cfg, d, r, f);
    }
    FileDataIs(fs, m);
    forall n | n in m
      ensures n in FileData(fs)
    {
      var f := PendingFile(n, d.pending[n], ParseFileDesc(n).value);
      PendingSetExact(cfg, d, r, f);
      assert f in fs;
    }
  }

  /** After the corrupt files are gone, the goroutines move the others to S3, whatever their schedule. */
  lemma UploadsMoveAll(cfg: Config, t: State, fs: seq<PendingFile>, e: PendEnv)
    requires NamesDistinct(fs) && forall n :: e.up(n) == Done
    ensures
      var u := ApplyAll(t, Merge(RecoverLists(cfg, fs, e.up), e.sched));
      Moved(t, u, FileData(fs)) && (fs == [] ==> u == t)
  {
    hide RecoverOneActs, Merge, Flatten, ApplyAll, Moved, NoLru, MoveActs;
    var todo, moves := RecoverLists(cfg, fs, e.up), MoveLists(fs);
    RecoverNoLru(cfg, fs, e.up);
    var turns := MergeNoLru(todo, e.sched);
    forall a | a in Merge(todo, e.sched)
      ensures a.Do?
    {
      MergeMembers(todo, e.sched, a);
      assert IsDo(a);
    }
    SameEffect(t, t, Merge(todo, e.sched));
    MovesSeparate(fs);
    AnyOrder(t, moves, seq(|fs|, i requires 0 <= i < |fs| => fs[i].name), turns);
    MoveAllEffect(t, fs);
    MovedButLru(t, ApplyAll(t, Merge(todo, e.sched)), ApplyAll(t, Merge(moves, turns)), FileData(fs));
    if fs == [] {
      NothingMerged(todo, e.sched);
      NothingApplied(t);
    }
  }

  lemma {:induction false} NothingMerged(todo: seq<seq<Action>>, sched: seq<nat>)
    requires todo == []
    ensures Merge(todo, sched) == []
    decreases |sched|
  {
    if sched != [] {
      NothingMerged(todo, sched[1..]);
    }
  }

  lemma MovedButLru(s: State, t: State, u: State, m: map<string, Bytes>)
    requires SameButLru(t, u) && Moved(s, u, m)
    ensures Moved(s, t, m)
  {
  }

  /** The pass over the pending directory: corrupt files are deleted, all others move to S3. */
  lemma ReuploadSound(cfg: Config, s: State, e: PendEnv)
    requires e.dirOk && NoDuplicates(e.read.names) && (forall n :: e.read.fileOk(n)) && (forall n :: e.up(n) == Done)
    requires forall n :: n in s.d.pending ==> n in e.read.names && !IsSidecar(n) && ParseFileDesc(n).Some?
    ensures
      var t := ApplyAll(s, ReuploadActs(cfg, s, e));
      var sound := s.d.pending - Damaged(cfg, s.d, e.read);
      && t.l == s.l && t.c == s.c && t.d.local == s.d.local
      && t.d.files == s.d.files + sound && t.d.pending == map[] && t.d.shadow == s.d.shadow - sound.Keys
      && t.d.sums == s.d.sums - s.d.pending.Keys
      && (s.d.pending == map[] ==> t == s)
  {
    hide ParseFileDesc, IsSidecar, RecoverLists, UploadList, Merge, DropActs, ApplyAll, Damaged, NamesDistinct;
    var fs := UploadList(cfg, s.d, e.read);
    var drops := DropActs(cfg, s.d, e.read.names, e.read);
    OnlyCorruptDropped(cfg, s, s.d, e.read.names, e.read);
    DroppedIsDamaged(cfg, s.d, e.read);
    UploadListIsSound(cfg, s.d, e.read);
    var t := ApplyAll(s, drops);
    UploadsMoveAll(cfg, t, fs, e);
    ApplyAllConcat(s, drops, Merge(RecoverLists(cfg, fs, e.up), e.sched));
    SoundLeft(cfg, s.d, e.read);
    assert |fs| > 0 ==> fs[|fs| - 1].name in FileData(fs);
  }

  lemma SoundLeft(cfg: Config, d: Disk, r: ReadEnv)
    ensures
      var bad := Damaged(cfg, d, r);
      && (d.sums - bad) - (d.pending - bad).Keys == d.sums - d.pending.Keys
      && (d.pending - bad) - (d.pending - bad).Keys == map[]
      && (d.pending == map[] ==> bad == {} && d.sums - {} == d.sums && d.pending - {} == d.pending)
  {
    hide Corrupt;
    var bad := Damaged(cfg, d, r);
    assert bad <= d.pending.Keys;
    assert bad + (d.pending - bad).Keys == d.pending.Keys;
  }

  // ---------- syncLocalToS3 ----------

  /** The local files that are uploaded: all but LOCK and CURRENT. */
  function Mirror(d: Disk, names: seq<string>, e: LocalEnv): map<string, Bytes> {
    map n | n in d.local && n in names && Uploads(d, n, e) :: d.local[n]
  }

  lemma UploadOne(s: State, n: string, x: Bytes)
    ensures ApplyAll(s, [Do(Put(S3, n, x))]) == s.(d := s.d.(files := s.d.files[n := x]))
  {
    GuardedOne(s, Do(Put(S3, n, x)));
  }

  lemma MirrorStep(d: Disk, names: seq<string>, e: LocalEnv, files: map<string, Bytes>)
    requires names != []
    ensures
      var n := names[0];
      if Uploads(d, n, e) then files[n := d.local[n]] + Mirror(d, names[1..], e) == files + Mirror(d, names, e)
      else Mirror(d, names[1..], e) == Mirror(d, names, e)
  {
  }

  lemma {:induction false} LocalEffect(s: State, d: Disk, names: seq<string>, e: LocalEnv)
    requires forall n :: e.put(n) == Done
    ensures ApplyAll(s, LocalActs(d, names, e)) == s.(d := s.d.(files := s.d.files + Mirror(d, names, e)))
    decreases |names|
  {
    if names == [] {
      assert s.d.files + Mirror(d, names, e) == s.d.files;
    } else {
      hide ApplyAll, Mirror;
      MirrorStep(d, names, e, s.d.files);
      if Uploads(d, names[0], e) {
        var n := names[0];
        var a := [Do(Put(S3, n, d.local[n]))];
        UploadOne(s, n, d.local[n]);
        LocalEffect(ApplyAll(s, a), d, names[1..], e);
        ApplyAllConcat(s, a, LocalActs(d, names[1..], e));
      } else {
        LocalEffect(s, d, names[1..], e);
      }
    }
  }

  // ---------- the recovery equation ----------

  /** S3 and the disk answer and every pending and shadow name parses and is listed; nothing is asked of
      the checksums. */
  ghost predicate Answers(d: Disk, p: PendEnv) {
    && p.listOk && PullsSucceed(p.shadowNames, p.pull) && (forall n :: n in d.shadow ==> n in p.shadowNames && n != "")
    && p.dirOk && NoDuplicates(p.read.names) && (forall n :: p.read.fileOk(n)) && (forall n :: p.up(n) == Done)
    && (forall n :: n in d.pending || n in d.shadow ==> n in p.read.names && !IsSidecar(n) && ParseFileDesc(n).Some?)
  }

  /** Recovery of the pending files with no assumption about their checksums. A corrupt pending file is lost and hides
      its shadow copy: S3 gets (shadow overridden by pending) without the corrupt names, pending is emptied, and exactly
      the shadows of the corrupt names stay behind. */
  lemma DamagedEquation(cfg: Config, s: State, e: PendEnv)
    requires Answers(s.d, e)
    ensures
      var t := ApplyAll(s, SyncPendingActs(cfg, s, e));
      var bad := Damaged(cfg, s.d, e.read);
      && t.d.files == s.d.files + ((s.d.shadow + s.d.pending) - bad)
      && t.d.pending == map[] && t.d.shadow == s.d.shadow - (s.d.shadow.Keys - bad)
      && t.d.sums == s.d.sums - (s.d.shadow + s.d.pending).Keys
      && t.d.local == s.d.local && t.l == s.l && t.c == s.c
      && (s.d.pending == map[] && s.d.shadow == map[] ==> t == s)
  {
    hide ParseFileDesc, IsSidecar, IsFileName, ApplyAll, ShadowActs, ReuploadActs, Damaged, PulledSums, Corrupt,
         PullsSucceed, NoDuplicates;
    var pulls := PullAllActs(cfg, s, e);
    var t := ApplyAll(s, pulls);
    PullEffects(cfg, s, e.shadowNames, e.pull);
    MissingIsShadow(s.d, e.shadowNames);
    PullsKeepDamage(cfg, s.d, t.d, e.read);
    ReuploadSound(cfg, t, e);
    ApplyAllConcat(s, pulls, ReuploadActs(cfg, t, e));
    ShadowLeft(s.d.shadow, s.d.pending, Damaged(cfg, s.d, e.read));
    PulledSumsLeft(cfg, s.d, t.d);
  }

  lemma PulledSumsLeft(cfg: Config, d: Disk, e: Disk)
    requires PulledSums(cfg, d, e) && d.pending.Keys <= e.pending.Keys
    ensures e.sums - e.pending.Keys == d.sums - e.pending.Keys
  {
    hide SumText;
  }

  lemma ShadowLeft(shadow: map<string, Bytes>, pending: map<string, Bytes>, bad: set<string>)
    ensures shadow - ((shadow + pending) - bad).Keys == shadow - (shadow.Keys - bad)
  {
  }

  /** The next recovery brings those shadow copies to S3: after two recoveries nothing is left behind, and of the
      corrupt names only those without a shadow were lost. */
  lemma SecondRecoveryHeals(cfg: Config, s: State, e: PendEnv, f: PendEnv)
    requires Answers(s.d, e)
    requires Answers(ApplyAll(s, SyncPendingActs(cfg, s, e)).d, f)
    ensures
      var t := ApplyAll(s, SyncPendingActs(cfg, s, e));
      var u := ApplyAll(t, SyncPendingActs(cfg, t, f));
      var bad := Damaged(cfg, s.d, e.read);
      && u.d.pending == map[] && u.d.shadow == map[]
      && u.d.files == s.d.files + (s.d.shadow + (s.d.pending - bad))
  {
    hide ApplyAll, SyncPendingActs, Answers, Corrupt;
    DamagedEquation(cfg, s, e);
    var t := ApplyAll(s, SyncPendingActs(cfg, s, e));
    DamagedEquation(cfg, t, f);
    var bad := Damaged(cfg, s.d, e.read);
    assert Damaged(cfg, t.d, f.read) == {};
    TwoPasses(s.d.files, s.d.shadow, s.d.pending, bad);
  }

  lemma TwoPasses(files: map<string, Bytes>, shadow: map<string, Bytes>, pending: map<string, Bytes>, bad: set<string>)
    ensures
      var rest := shadow - (shadow.Keys - bad);
      && (rest + map[]) - {} == rest && rest - (rest.Keys - {}) == map[]
      && (files + ((shadow + pending) - bad)) + rest == files + (shadow + (pending - bad))
  {
  }
  /** S3 and the disk answer, every pending and shadow name parses, is listed and free of checksum mismatches. */
  ghost predicate AllAnswer(cfg: Config, s: State, e: LockEnv) {
    && Answers(s.d, e.pend) && SumsValid(cfg, s.d)
    && e.local.dirOk && (forall n :: n in s.d.local ==> n in e.local.names && e.local.readOk(n))
       && (forall n :: e.local.put(n) == Done)
  }

  /** The recovery equation. However the uploads interleave, S3 ends up as the old S3 overridden by
      (shadow overridden by pending), overridden by the local cache without LOCK and CURRENT;
      pending and shadow are empty; the local cache, the client's record and CURRENT are untouched. */
  lemma RecoveryEquation(cfg: Config, s: State, e: LockEnv)
    requires AllAnswer(cfg, s, e)
    ensures
      var t := ApplyAll(s, LockSyncActs(cfg, s, e));
      && t.d.files == (s.d.files + (s.d.shadow + s.d.pending)) + (s.d.local - {"LOCK", "CURRENT"})
      && t.d.pending == map[] && t.d.shadow == map[] && t.d.local == s.d.local && t.l == s.l && t.c == s.c
      && t.d.sums == s.d.sums - (s.d.shadow + s.d.pending).Keys
      && (s.d.pending == map[] && s.d.shadow == map[] && s.d.files + (s.d.local - {"LOCK", "CURRENT"}) == s.d.files
          ==> t == s)
  {
    hide ApplyAll, SyncPendingActs, LocalActs, Mirror, AllAnswer;
    var acts := SyncPendingActs(cfg, s, e.pend);
    var t := ApplyAll(s, acts);
    PendingEquation(cfg, s, e);
    LocalAnswers(cfg, s, e);
    LocalEffect(t, t.d, e.local.names, e.local);
    ApplyAllConcat(s, acts, LocalSyncActs(t, e.local));
    MirrorIsLocal(t.d, e.local.names, e.local);
  }

  lemma LocalAnswers(cfg: Config, s: State, e: LockEnv)
    requires AllAnswer(cfg, s, e)
    ensures forall n :: e.local.put(n) == Done
    ensures e.local.dirOk && forall n :: n in s.d.local ==> n in e.local.names && e.local.readOk(n)
  {
    hide Answers, SumsValid;
  }

  lemma MirrorIsLocal(d: Disk, names: seq<string>, e: LocalEnv)
    requires forall n :: n in d.local ==> n in names && e.readOk(n)
    ensures Mirror(d, names, e) == d.local - {"LOCK", "CURRENT"}
  {
  }

  /** The part of the equation that syncPendingToS3 is responsible for. */
  lemma PendingEquation(cfg: Config, s: State, e: LockEnv)
    requires AllAnswer(cfg, s, e)
    ensures
      var t := ApplyAll(s, SyncPendingActs(cfg, s, e.pend));
      && t.d.files == s.d.files + (s.d.shadow + s.d.pending)
      && t.d.pending == map[] && t.d.shadow == map[] && t.d.local == s.d.local && t.l == s.l && t.c == s.c
      && t.d.sums == s.d.sums - (s.d.shadow + s.d.pending).Keys
      && (s.d.pending == map[] && s.d.shadow == map[] ==> t == s)
  {
    hide ApplyAll, SyncPendingActs, AllAnswer, Answers, Damaged;
    NothingDamaged(cfg, s, e);
    DamagedEquation(cfg, s, e.pend);
    var all := s.d.shadow + s.d.pending;
    assert all - {} == all && s.d.shadow - (s.d.shadow.Keys - {}) == map[];
  }

  lemma NothingDamaged(cfg: Config, s: State, e: LockEnv)
    requires AllAnswer(cfg, s, e)
    ensures Answers(s.d, e.pend) && Damaged(cfg, s.d, e.pend.read) == {}
  {
    hide ParseFileDesc, IsSidecar, TrimSpace, SumText;
  }

  lemma MissingIsShadow(d: Disk, names: seq<string>)
    requires forall n :: n in d.shadow ==> n in names && n != ""
    ensures d.pending + Missing(d, names) == d.shadow + d.pending
  {
  }

  /** Two recoveries of the same state that differ only in how their uploads interleave and in directory order end alike
      on S3 and on disk. */
  lemma OrderIrrelevant(cfg: Config, s: State, e: LockEnv, f: LockEnv)
    requires AllAnswer(cfg, s, e) && AllAnswer(cfg, s, f)
    ensures
      var t, u := ApplyAll(s, LockSyncActs(cfg, s, e)), ApplyAll(s, LockSyncActs(cfg, s, f));
      && t.d.files == u.d.files && t.d.shadow == u.d.shadow
      && t.d.pending == u.d.pending && t.d.sums == u.d.sums && t.d.local == u.d.local
  {
    hide AllAnswer, LockSyncActs, ApplyAll;
    RecoveryEquation(cfg, s, e);
    RecoveryEquation(cfg, s, f);
  }

  /** A second recovery changes nothing at all. */
  lemma RecoveryIdempotent(cfg: Config, s: State, e: LockEnv, f: LockEnv)
    requires AllAnswer(cfg, s, e)
    requires AllAnswer(cfg, ApplyAll(s, LockSyncActs(cfg, s, e)), f)
    ensures
      var t := ApplyAll(s, LockSyncActs(cfg, s, e));
      ApplyAll(t, LockSyncActs(cfg, t, f)) == t
  {
    hide AllAnswer, LockSyncActs, ApplyAll;
    RecoveryEquation(cfg, s, e);
    var t := ApplyAll(s, LockSyncActs(cfg, s, e));
    var mirror := s.d.local - {"LOCK", "CURRENT"};
    assert t.d.files + mirror == t.d.files;
    RecoveryEquation(cfg, t, f);
  }
}
