/** The bounded goroutine pool of retryPendingFilesOnce and syncPendingToS3: a dispatcher walks the files in order and
    takes a slot of the semaphore for each; a goroutine gives its slot back when it is done. */
module Dispatch {
  import opened Scan
  import opened Store
  import opened Programs

  const DEFAULT_PENDING_MAX_CONCURRENCY: int := 4

  function Concurrency(configured: int): (k: int)
    ensures k > 0
  {
    if configured <= 0 then DEFAULT_PENDING_MAX_CONCURRENCY else configured
  }

  /** One upload: the object's key, the pending file it comes from, and the LRU key to refresh, if any. */
  datatype Work = Work(key: string, name: string, data: Bytes, cache: Option<string>)

  function PutAct(w: Work): Action {
    Do(Put(S3, w.key, w.data))
  }

  /** What follows a successful upload. */
  function CleanActs(w: Work): (acts: seq<Action>)
    ensures |acts| >= 3
  {
    [Do(Del(Pending, w.name)), Do(DelSum(w.name)), Do(Del(Shadow, w.name))]
    + (if w.cache.Some? then [Do(Put(Lru, w.cache.value, w.data))] else [])
  }

  /** How far the upload of one file has come. */
  datatype Stage =
    | Queued
    | Checking            // about to read the stop signal, lockLost and the clock
    | Cleared             // past the checks, PutBytes not yet called
    | Putting
    | Waiting             // after a failed attempt
    | Cleaning(done: nat) // uploaded; so many of the clean-up steps taken
    | Finished(ok: bool)

  datatype Pool = Pool(
    retrying: bool,          // the retry pass; otherwise recovery, which tries once and checks nothing
    slots: nat,
    work: seq<Work>,
    jobs: seq<Stage>,
    launched: seq<nat>,      // the files dispatched so far, in that order
    results: seq<(nat, bool)>,
    lost: bool,
    late: nat                // PutBytes calls started since lockLost was set
  )

  datatype Step =
    | Launch
    | Check(job: nat, quit: bool)       // quit: a stop signal or the end of RetryMaxDuration
    | Start(job: nat)
    | PutReturns(job: nat, ok: bool, took: bool)   // a failed call may have taken effect
    | WaitOver(job: nat, stop: bool)
    | CleanUp(job: nat)
    | LoseLock

  predicate Active(x: Stage) {
    !x.Queued? && !x.Finished?
  }

  predicate IsCleared(x: Stage) {
    x.Cleared?
  }

  predicate IsFinished(x: Stage) {
    x.Finished?
  }

  function Count(jobs: seq<Stage>, f: Stage -> bool): (n: nat)
    ensures n <= |jobs|
  {
    if jobs == [] then 0 else Count(jobs[..|jobs| - 1], f) + Ones(f(jobs[|jobs| - 1]))
  }

  function Ones(b: bool): nat {
    if b then 1 else 0
  }

  function InFlight(jobs: seq<Stage>): nat {
    Count(jobs, Active)
  }

  function FinishedCount(jobs: seq<Stage>): nat {
    Count(jobs, IsFinished)
  }

  function NewPool(retrying: bool, configured: int, work: seq<Work>): (p: Pool)
    ensures p.work == work && |p.jobs| == |work| && p.slots == Concurrency(configured) && p.retrying == retrying
  {
    Pool(retrying, Concurrency(configured), work, seq(|work|, _ => Queued), [], [], false, 0)
  }

  predicate At(p: Pool, j: nat, x: Stage) {
    j < |p.jobs| && p.jobs[j] == x
  }

  /** Which steps the goroutines and the dispatcher can take. */
  predicate Enabled(p: Pool, st: Step) {
    match st
    case Launch => |p.launched| < |p.jobs| && InFlight(p.jobs) < p.slots
    case Check(j, quit) => At(p, j, Checking) && (quit ==> p.retrying)
    case Start(j) => At(p, j, Cleared)
    case PutReturns(j, _, _) => At(p, j, Putting)
    case WaitOver(j, _) => At(p, j, Waiting)
    case CleanUp(j) => j < |p.jobs| && j < |p.work| && p.jobs[j].Cleaning? && p.jobs[j].done < |CleanActs(p.work[j])|
    case LoseLock => true
  }

  function Finish(p: Pool, j: nat, ok: bool): Pool
    requires j < |p.jobs|
  {
    p.(jobs := p.jobs[j := Finished(ok)], results := p.results + [(j, ok)])
  }

  function Take(p: Pool, st: Step): (q: Pool)
    requires Enabled(p, st)
    ensures q.work == p.work && |q.jobs| == |p.jobs| && q.slots == p.slots && q.retrying == p.retrying
  {
    match st
    case Launch => p.(jobs := p.jobs[|p.launched| := Checking], launched := p.launched + [|p.launched|])
    case Check(j, quit) =>
      if p.retrying && (quit || p.lost) then Finish(p, j, false) else p.(jobs := p.jobs[j := Cleared])
    case Start(j) => p.(jobs := p.jobs[j := Putting], late := if p.lost then p.late + 1 else p.late)
    case PutReturns(j, ok, _) =>
      if ok then p.(jobs := p.jobs[j := Cleaning(0)])
      else if p.retrying then p.(jobs := p.jobs[j := Waiting])
      else Finish(p, j, false)
    case WaitOver(j, stop) => if stop then Finish(p, j, false) else p.(jobs := p.jobs[j := Checking])
    case CleanUp(j) =>
      if p.jobs[j].done + 1 < |CleanActs(p.work[j])| then p.(jobs := p.jobs[j := Cleaning(p.jobs[j].done + 1)])
      else Finish(p, j, true)
    case LoseLock => p.(lost := true)
  }

  predicate Possible(p: Pool, run: seq<Step>)
    decreases |run|
  {
    run == [] || (Enabled(p, run[0]) && Possible(Take(p, run[0]), run[1..]))
  }

  function RunPool(p: Pool, run: seq<Step>): (q: Pool)
    requires Possible(p, run)
    ensures q.work == p.work && |q.jobs| == |p.jobs| && q.slots == p.slots && q.retrying == p.retrying
    decreases |run|
  {
    if run == [] then p else RunPool(Take(p, run[0]), run[1..])
  }

  // ---------- the invariant ----------

  ghost predicate PoolInv(p: Pool) {
    && |p.jobs| == |p.work| && |p.launched| <= |p.jobs|
    && (forall j :: 0 <= j < |p.jobs| && p.jobs[j].Cleaning? ==> p.jobs[j].done < |CleanActs(p.work[j])|)
    && (forall i :: 0 <= i < |p.launched| ==> p.launched[i] == i)
    && (forall i :: 0 <= i < |p.jobs| ==> (p.jobs[i].Queued? <==> i >= |p.launched|))
    && InFlight(p.jobs) <= p.slots
    && (p.lost && p.retrying ==> p.late + Count(p.jobs, IsCleared) <= p.slots)
    && (!p.lost ==> p.late == 0)
    && |p.results| == FinishedCount(p.jobs)
    && (forall r :: r in p.results ==> r.0 < |p.jobs| && p.jobs[r.0] == Finished(r.1))
    && (forall j :: 0 <= j < |p.jobs| && p.jobs[j].Finished? ==> (j, p.jobs[j].ok) in p.results)
  }

  /** Replacing one entry changes a count by that entry alone. */
  lemma {:induction false} CountAfter(jobs: seq<Stage>, j: nat, x: Stage, f: Stage -> bool)
    requires j < |jobs|
    ensures Count(jobs[j := x], f) + Ones(f(jobs[j])) == Count(jobs, f) + Ones(f(x))
  {
    var n := |jobs| - 1;
    if j == n {
      assert jobs[j := x][..n] == jobs[..n];
    } else {
      CountAfter(jobs[..n], j, x, f);
      assert jobs[j := x][..n] == jobs[..n][j := x];
    }
  }

  lemma CountsAfter(jobs: seq<Stage>, j: nat, x: Stage)
    requires j < |jobs|
    ensures InFlight(jobs[j := x]) + Ones(Active(jobs[j])) == InFlight(jobs) + Ones(Active(x))
    ensures Count(jobs[j := x], IsCleared) + Ones(jobs[j].Cleared?) == Count(jobs, IsCleared) + Ones(x.Cleared?)
    ensures FinishedCount(jobs[j := x]) + Ones(jobs[j].Finished?) == FinishedCount(jobs) + Ones(x.Finished?)
  {
    CountAfter(jobs, j, x, Active);
    CountAfter(jobs, j, x, IsCleared);
    CountAfter(jobs, j, x, IsFinished);
  }

  lemma {:induction false} CountLess(jobs: seq<Stage>, f: Stage -> bool, g: Stage -> bool)
    requires forall x :: f(x) ==> g(x)
    ensures Count(jobs, f) <= Count(jobs, g)
  {
    if jobs != [] {
      CountLess(jobs[..|jobs| - 1], f, g);
    }
  }

  lemma {:induction false} NothingYet(n: nat)
    ensures var q := seq(n, _ => Queued); InFlight(q) == 0 && FinishedCount(q) == 0
  {
    var q := seq(n, _ => Queued);
    if n > 0 {
      NothingYet(n - 1);
      assert q[..n - 1] == seq(n - 1, _ => Queued);
    }
  }

  lemma StartsInv(retrying: bool, configured: int, work: seq<Work>)
    ensures PoolInv(NewPool(retrying, configured, work))
  {
    NothingYet(|work|);
  }

  /** The same pool but for one file's stage. */
  lemma StageKeepsInv(p: Pool, j: nat, x: Stage, late: nat)
    requires PoolInv(p) && j < |p.jobs| && Active(p.jobs[j]) && Active(x)
    requires late == p.late || (p.lost && late == p.late + 1 && p.jobs[j].Cleared? && !x.Cleared?)
    requires x.Cleared? ==> !(p.lost && p.retrying)
    requires x.Cleaning? ==> x.done < |CleanActs(p.work[j])|
    ensures PoolInv(p.(jobs := p.jobs[j := x], late := late))
  {
    hide Count;
    CountsAfter(p.jobs, j, x);
  }

  lemma FinishKeepsInv(p: Pool, j: nat, ok: bool)
    requires PoolInv(p) && j < |p.jobs| && Active(p.jobs[j])
    ensures PoolInv(Finish(p, j, ok))
  {
    hide Count;
    CountsAfter(p.jobs, j, Finished(ok));
    var q := Finish(p, j, ok);
    forall i | 0 <= i < |q.jobs| && q.jobs[i].Finished?
      ensures (i, q.jobs[i].ok) in q.results
    {
      assert q.results[|p.results|] == (j, ok);
      assert i != j ==> (i, p.jobs[i].ok) in p.results;
    }
  }

  lemma TakeKeepsInv(p: Pool, st: Step)
    requires PoolInv(p) && Enabled(p, st)
    ensures PoolInv(Take(p, st))
  {
    hide Count;
    match st
    case Launch => CountsAfter(p.jobs, |p.launched|, Checking);
    case Check(j, quit) =>
      if p.retrying && (quit || p.lost) { FinishKeepsInv(p, j, false); } else { StageKeepsInv(p, j, Cleared, p.late); }
    case Start(j) => StageKeepsInv(p, j, Putting, if p.lost then p.late + 1 else p.late);
    case PutReturns(j, ok, _) =>
      if ok { StageKeepsInv(p, j, Cleaning(0), p.late); }
      else if p.retrying { StageKeepsInv(p, j, Waiting, p.late); }
      else { FinishKeepsInv(p, j, false); }
    case WaitOver(j, stop) =>
      if stop { FinishKeepsInv(p, j, false); } else { StageKeepsInv(p, j, Checking, p.late); }
    case CleanUp(j) =>
      if p.jobs[j].done + 1 < |CleanActs(p.work[j])| { StageKeepsInv(p, j, Cleaning(p.jobs[j].done + 1), p.late); }
      else { FinishKeepsInv(p, j, true); }
    case LoseLock => CountLess(p.jobs, IsCleared, Active);
  }

  lemma {:induction false} RunKeepsInv(p: Pool, run: seq<Step>)
    requires PoolInv(p) && Possible(p, run)
    ensures PoolInv(RunPool(p, run))
    decreases |run|
  {
    if run != [] {
      TakeKeepsInv(p, run[0]);
      RunKeepsInv(Take(p, run[0]), run[1..]);
    }
  }

  // ---------- what every interleaving guarantees ----------

  lemma {:induction false} Accounted(jobs: seq<Stage>, launched: nat)
    requires launched <= |jobs| && forall i :: 0 <= i < |jobs| ==> (jobs[i].Queued? <==> i >= launched)
    ensures InFlight(jobs) + FinishedCount(jobs) == launched
  {
    if jobs != [] {
      var n := |jobs| - 1;
      Accounted(jobs[..n], if launched <= n then launched else n);
    }
  }

  /** In every interleaving at most k uploads are in flight, the files are dispatched in list order and each at most
      once, a file starts only after all but k - 1 of the earlier ones have finished, and results never outnumber files,
      so the result channel never blocks. */
  lemma BoundedInOrder(retrying: bool, configured: int, work: seq<Work>, run: seq<Step>)
    requires Possible(NewPool(retrying, configured, work), run)
    ensures
      var p := RunPool(NewPool(retrying, configured, work), run);
      var k := if configured > 0 then configured else 4;
      && InFlight(p.jobs) <= k
      && |p.launched| <= |work| && |p.jobs| == |work| && (forall i :: 0 <= i < |p.launched| ==> p.launched[i] == i)
      && (Enabled(p, Launch) ==> FinishedCount(p.jobs[..|p.launched|]) >= |p.launched| - k + 1)
      && |p.results| <= |work|
  {
    var p0 := NewPool(retrying, configured, work);
    StartsInv(retrying, configured, work);
    RunKeepsInv(p0, run);
    var p := RunPool(p0, run);
    var n := |p.launched|;
    Accounted(p.jobs, n);
    Accounted(p.jobs[..n], n);
    PrefixInFlight(p.jobs, n);
  }

  lemma {:induction false} PrefixInFlight(jobs: seq<Stage>, n: nat)
    requires n <= |jobs| && forall i :: n <= i < |jobs| ==> jobs[i].Queued?
    ensures InFlight(jobs) == InFlight(jobs[..n])
  {
    if n == |jobs| {
      assert jobs[..n] == jobs;
    } else {
      PrefixInFlight(jobs[..|jobs| - 1], n);
      assert jobs[..|jobs| - 1][..n] == jobs[..n];
    }
  }

  lemma {:induction false} AllFinished(jobs: seq<Stage>)
    ensures FinishedCount(jobs) == |jobs| <==> forall i :: 0 <= i < |jobs| ==> jobs[i].Finished?
  {
    if jobs != [] {
      AllFinished(jobs[..|jobs| - 1]);
      assert jobs == jobs[..|jobs| - 1] + [jobs[|jobs| - 1]];
    }
  }

  /** With one slot a file starts only when every earlier one has finished. */
  lemma OneSlotIsSequential(retrying: bool, work: seq<Work>, run: seq<Step>)
    requires Possible(NewPool(retrying, 1, work), run)
    ensures
      var p := RunPool(NewPool(retrying, 1, work), run);
      Enabled(p, Launch) ==> forall i :: 0 <= i < |p.launched| ==> p.jobs[i].Finished?
  {
    BoundedInOrder(retrying, 1, work, run);
    var p := RunPool(NewPool(retrying, 1, work), run);
    AllFinished(p.jobs[..|p.launched|]);
  }

  /** The pool never deadlocks: until every file has finished, some goroutine or the dispatcher can go on. */
  lemma NeverStuck(retrying: bool, configured: int, work: seq<Work>, run: seq<Step>)
    requires Possible(NewPool(retrying, configured, work), run)
    ensures
      var p := RunPool(NewPool(retrying, configured, work), run);
      (exists j :: 0 <= j < |work| && !p.jobs[j].Finished?)
      ==> exists st :: st != LoseLock && Enabled(p, st)
  {
    var p0 := NewPool(retrying, configured, work);
    StartsInv(retrying, configured, work);
    RunKeepsInv(p0, run);
    var p := RunPool(p0, run);
    if exists j :: 0 <= j < |work| && !p.jobs[j].Finished? {
      if j :| 0 <= j < |work| && Active(p.jobs[j]) {
        var x := p.jobs[j];
        var st :=
          if x.Checking? then Check(j, false)
          else if x.Cleared? then Start(j)
          else if x.Putting? then PutReturns(j, true, true)
          else if x.Waiting? then WaitOver(j, false)
          else CleanUp(j);
        assert Enabled(p, st);
      } else {
        NoneActive(p.jobs);
        assert Enabled(p, Launch);
      }
    }
  }

  lemma {:induction false} NoneActive(jobs: seq<Stage>)
    requires forall j :: 0 <= j < |jobs| ==> !Active(jobs[j])
    ensures InFlight(jobs) == 0
  {
    if jobs != [] {
      NoneActive(jobs[..|jobs| - 1]);
    }
  }

  /** When lockLost is set in the middle of a retry pass, at most k more PutBytes calls start in that pass. */
  lemma FewLateUploads(configured: int, work: seq<Work>, run: seq<Step>)
    requires Possible(NewPool(true, configured, work), run)
    ensures RunPool(NewPool(true, configured, work), run).late <= Concurrency(configured)
  {
    StartsInv(true, configured, work);
    RunKeepsInv(NewPool(true, configured, work), run);
  }

  // ---------- what recovery returns ----------

  /** The loop over the result channel at the end of syncPendingToS3. */
  method FirstFailure(results: seq<(nat, bool)>) returns (failed: Option<nat>)
    ensures failed.None? <==> forall r :: r in results ==> r.1
    ensures failed.Some? ==> exists i :: 0 <= i < |results| && results[i] == (failed.value, false)
                                         && forall h :: 0 <= h < i ==> results[h].1
  {
    failed := None;
    for i := 0 to |results|
      invariant failed.None? ==> forall h :: 0 <= h < i ==> results[h].1
      invariant failed.Some? ==> exists m :: 0 <= m < i && results[m] == (failed.value, false)
                                             && forall h :: 0 <= h < m ==> results[h].1
    {
      if !results[i].1 && failed.None? {
        failed := Some(results[i].0);
      }
    }
  }

  /** syncPendingToS3 returns nil exactly when every file was uploaded, whatever order they finished in. */
  lemma NilIffAllUploaded(retrying: bool, configured: int, work: seq<Work>, run: seq<Step>)
    requires Possible(NewPool(retrying, configured, work), run)
    requires forall j :: 0 <= j < |work| ==> RunPool(NewPool(retrying, configured, work), run).jobs[j].Finished?
    ensures
      var p := RunPool(NewPool(retrying, configured, work), run);
      && |p.launched| == |work|
      && |p.results| == |work|
      && ((forall r :: r in p.results ==> r.1) <==> (forall j :: 0 <= j < |work| ==> p.jobs[j] == Finished(true)))
  {
    var p0 := NewPool(retrying, configured, work);
    StartsInv(retrying, configured, work);
    RunKeepsInv(p0, run);
    var p := RunPool(p0, run);
    AllFinished(p.jobs);
    assert forall j :: 0 <= j < |work| ==> (j, p.jobs[j].ok) in p.results;
  }

  // ---------- what a pass does to the stores ----------

  function EffectOf(p: Pool, st: Step): (acts: seq<Action>)
    requires Enabled(p, st) && |p.jobs| == |p.work|
    ensures |acts| <= 1
  {
    match st
    case PutReturns(j, ok, took) => if ok || took then [PutAct(p.work[j])] else []
    case CleanUp(j) => [CleanActs(p.work[j])[p.jobs[j].done]]
    case _ => []
  }

  /** The store steps of a run, in the order in which they happen. */
  function PoolActs(p: Pool, run: seq<Step>): seq<Action>
    requires Possible(p, run) && |p.jobs| == |p.work|
    decreases |run|
  {
    if run == [] then [] else EffectOf(p, run[0]) + PoolActs(Take(p, run[0]), run[1..])
  }

  /** The same with the flag of the lease monitor, stored where it fires first. */
  function WatchedActs(p: Pool, run: seq<Step>): seq<Action>
    requires Possible(p, run) && |p.jobs| == |p.work|
    decreases |run|
  {
    if run == [] then []
    else
      (if run[0].LoseLock? && !p.lost then [SetLost] else EffectOf(p, run[0]))
      + WatchedActs(Take(p, run[0]), run[1..])
  }

  /** The flag is the only difference: it comes after k of the store steps. */
  lemma {:induction false} FlagAt(p: Pool, run: seq<Step>) returns (k: nat)
    requires Possible(p, run) && |p.jobs| == |p.work|
    ensures k <= |PoolActs(p, run)|
    ensures WatchedActs(p, run) ==
            if RunPool(p, run).lost && !p.lost then Inserted(PoolActs(p, run), k) else PoolActs(p, run)
    ensures p.lost ==> RunPool(p, run).lost
    decreases |run|
  {
    k := 0;
    if run != [] {
      hide Enabled, EffectOf, Take, Inserted;
      LostStays(p, run[0]);
      var rest := FlagAt(Take(p, run[0]), run[1..]);
      var now, later := EffectOf(p, run[0]), PoolActs(Take(p, run[0]), run[1..]);
      if run[0].LoseLock? && !p.lost {
        InsertedFirst(later);
        assert [] + later == later;
      } else {
        k := |now| + rest;
        InsertedLater(now, later, rest);
      }
    }
  }

  lemma InsertedFirst(acts: seq<Action>)
    ensures Inserted(acts, 0) == [SetLost] + acts
  {
  }

  lemma InsertedLater(a: seq<Action>, b: seq<Action>, k: nat)
    requires k <= |b|
    ensures Inserted(a + b, |a| + k) == a + Inserted(b, k)
  {
    assert (a + b)[..|a| + k] == a + b[..k] && (a + b)[|a| + k..] == b[k..];
  }

  function Inserted(acts: seq<Action>, k: nat): seq<Action>
    requires k <= |acts|
  {
    acts[..k] + [SetLost] + acts[k..]
  }

  lemma LostStays(p: Pool, st: Step)
    requires Enabled(p, st)
    ensures Take(p, st).lost == (p.lost || st.LoseLock?)
    ensures st.LoseLock? && |p.jobs| == |p.work| ==> EffectOf(p, st) == []
  {
  }

  /** The flag commutes with store steps. */
  lemma {:induction false} FlagCommutes(s: State, acts: seq<Action>, k: nat)
    requires k <= |acts| && forall a :: a in acts[k..] ==> a.Do?
    ensures ApplyAll(s, Inserted(acts, k)) == Apply(ApplyAll(s, acts), SetLost)
    decreases |acts|
  {
    hide ApplyAll, Apply;
    if k == |acts| {
      ApplyAllSnoc(s, acts, SetLost);
      assert Inserted(acts, k) == acts + [SetLost];
    } else {
      var front, a := acts[..|acts| - 1], acts[|acts| - 1];
      assert acts[k..][|acts| - 1 - k] == a && front[k..] == acts[k..][..|acts| - 1 - k];
      FlagCommutes(s, front, k);
      ApplyAllSnoc(s, front, a);
      ApplyAllSnoc(s, Inserted(front, k), a);
      assert front + [a] == acts && Inserted(front, k) + [a] == Inserted(acts, k);
      DoKeepsFlags(ApplyAll(s, front), a);
    }
  }

  lemma DoKeepsFlags(s: State, a: Action)
    requires a.Do?
    ensures Apply(Apply(s, SetLost), a) == Apply(Apply(s, a), SetLost)
  {
  }

  lemma {:induction false} PoolDoes(p: Pool, run: seq<Step>, a: Action)
    requires Possible(p, run) && |p.jobs| == |p.work| && a in PoolActs(p, run)
    ensures a.Do?
    decreases |run|
  {
    if a !in EffectOf(p, run[0]) {
      PoolDoes(Take(p, run[0]), run[1..], a);
    }
  }

  predicate Concerns(st: Step, j: nat) {
    !st.Launch? && !st.LoseLock? && st.job == j
  }

  /** Those of them that one goroutine takes. */
  function JobActs(p: Pool, run: seq<Step>, j: nat): seq<Action>
    requires Possible(p, run) && |p.jobs| == |p.work|
    decreases |run|
  {
    if run == [] then []
    else (if Concerns(run[0], j) then EffectOf(p, run[0]) else []) + JobActs(Take(p, run[0]), run[1..], j)
  }

  /** Whose turn it is, store step by store step. */
  function Turns(p: Pool, run: seq<Step>): seq<nat>
    requires Possible(p, run) && |p.jobs| == |p.work|
    decreases |run|
  {
    if run == [] then []
    else (if EffectOf(p, run[0]) == [] then [] else [run[0].job]) + Turns(Take(p, run[0]), run[1..])
  }

  function JobLists(p: Pool, run: seq<Step>): (lists: seq<seq<Action>>)
    requires Possible(p, run) && |p.jobs| == |p.work|
    ensures |lists| == |p.work|
  {
    seq(|p.work|, j requires 0 <= j < |p.work| => JobActs(p, run, j))
  }

  lemma {:induction false} NothingToFlatten(todo: seq<seq<Action>>)
    requires forall j :: 0 <= j < |todo| ==> todo[j] == []
    ensures Flatten(todo) == []
  {
    if todo != [] {
      NothingToFlatten(todo[1..]);
    }
  }

  /** A bounded run is one of the interleavings of its goroutines' steps. */
  lemma {:induction false} PoolIsMerge(p: Pool, run: seq<Step>)
    requires Possible(p, run) && |p.jobs| == |p.work|
    ensures Merge(JobLists(p, run), Turns(p, run)) == PoolActs(p, run)
    decreases |run|
  {
    var lists := JobLists(p, run);
    if run == [] {
      NothingToFlatten(lists);
    } else {
      hide Enabled, Take, EffectOf, JobActs, JobLists;
      var q, rest := Take(p, run[0]), run[1..];
      PoolIsMerge(q, rest);
      if EffectOf(p, run[0]) == [] {
        NoEffectStep(p, run);
        assert [] + PoolActs(q, rest) == PoolActs(q, rest) && [] + Turns(q, rest) == Turns(q, rest);
      } else {
        EffectStep(p, run);
        assert Turns(p, run)[1..] == Turns(q, rest);
      }
    }
  }

  lemma NoEffectStep(p: Pool, run: seq<Step>)
    requires run != [] && Possible(p, run) && |p.jobs| == |p.work| && EffectOf(p, run[0]) == []
    ensures JobLists(p, run) == JobLists(Take(p, run[0]), run[1..])
  {
    hide Enabled, Take, EffectOf;
    var lists, later := JobLists(p, run), JobLists(Take(p, run[0]), run[1..]);
    forall j | 0 <= j < |p.work|
      ensures lists[j] == later[j]
    {
      assert [] + later[j] == later[j];
    }
  }

  lemma EffectStep(p: Pool, run: seq<Step>)
    requires run != [] && Possible(p, run) && |p.jobs| == |p.work| && EffectOf(p, run[0]) != []
    ensures
      var lists := JobLists(p, run);
      && !run[0].Launch? && !run[0].LoseLock? && run[0].job < |lists|
      && var j := run[0].job;
      && lists[j] != [] && EffectOf(p, run[0]) == [lists[j][0]]
      && lists[j := lists[j][1..]] == JobLists(Take(p, run[0]), run[1..])
  {
    EffectHasJob(p, run[0]);
    hide Enabled, Take, EffectOf;
    var lists, later := JobLists(p, run), JobLists(Take(p, run[0]), run[1..]);
    var j := run[0].job;
    assert lists[j] == EffectOf(p, run[0]) + later[j];
    assert lists[j][1..] == later[j];
    forall i | 0 <= i < |p.work| && i != j
      ensures lists[i] == later[i]
    {
      assert [] + later[i] == later[i];
    }
  }

  lemma EffectHasJob(p: Pool, st: Step)
    requires Enabled(p, st) && |p.jobs| == |p.work| && EffectOf(p, st) != []
    ensures !st.Launch? && !st.LoseLock? && st.job < |p.work|
  {
  }

  // ---------- what one goroutine does in a complete run ----------

  /** Every goroutine has finished, as wg.Wait sees it. */
  predicate Complete(p: Pool, run: seq<Step>) {
    Possible(p, run) && forall j :: 0 <= j < |p.jobs| ==> RunPool(p, run).jobs[j].Finished?
  }

  /** A step that does not concern a launched file leaves its stage alone. */
  lemma StageKept(p: Pool, st: Step, j: nat)
    requires PoolInv(p) && Enabled(p, st) && j < |p.jobs| && !p.jobs[j].Queued? && !Concerns(st, j)
    ensures Take(p, st).jobs[j] == p.jobs[j]
  {
  }

  lemma {:induction false} FinishedIsQuiet(p: Pool, run: seq<Step>, j: nat)
    requires PoolInv(p) && Possible(p, run) && j < |p.jobs| && p.jobs[j].Finished?
    ensures JobActs(p, run, j) == [] && RunPool(p, run).jobs[j] == p.jobs[j]
    decreases |run|
  {
    if run != [] {
      hide PoolInv, Take;
      TakeKeepsInv(p, run[0]);
      StageKept(p, run[0], j);
      FinishedIsQuiet(Take(p, run[0]), run[1..], j);
    }
  }

  lemma {:induction false} CleansUp(p: Pool, run: seq<Step>, j: nat)
    requires PoolInv(p) && Possible(p, run) && j < |p.jobs| && p.jobs[j].Cleaning? && RunPool(p, run).jobs[j].Finished?
    ensures JobActs(p, run, j) == CleanActs(p.work[j])[p.jobs[j].done..] && RunPool(p, run).jobs[j] == Finished(true)
    decreases |run|
  {
    SameLength(p);
    TakeKeepsInv(p, run[0]);
    if Concerns(run[0], j) {
      CleaningStep(p, run[0], j);
    }
    hide CleanActs, PoolInv, Take;
    var st, q := run[0], Take(p, run[0]);
    if !Concerns(st, j) {
      StageKept(p, st, j);
      CleansUp(q, run[1..], j);
    } else if q.jobs[j].Cleaning? {
      CleansUp(q, run[1..], j);
    } else {
      FinishedIsQuiet(q, run[1..], j);
    }
  }

  lemma CleaningStep(p: Pool, st: Step, j: nat)
    requires PoolInv(p) && Enabled(p, st) && j < |p.jobs| && p.jobs[j].Cleaning? && Concerns(st, j)
    ensures
      var i, acts := p.jobs[j].done, CleanActs(p.work[j]);
      && i < |acts| && EffectOf(p, st) == [acts[i]]
      && Take(p, st).jobs[j] == if i + 1 < |acts| then Cleaning(i + 1) else Finished(true)
  {
  }

  /** Failed attempts, then success and the clean-up, or the end; recovery tries exactly once. */
  lemma {:induction false} JobShape(p: Pool, run: seq<Step>, j: nat) returns (failures: seq<bool>)
    requires PoolInv(p) && Possible(p, run) && j < |p.jobs| && RunPool(p, run).jobs[j].Finished?
    requires !p.jobs[j].Cleaning? && !p.jobs[j].Finished? && (p.jobs[j].Waiting? ==> p.retrying)
    ensures
      var w, ok := p.work[j], RunPool(p, run).jobs[j].ok;
      && JobActs(p, run, j) == AttemptActs(w.key, w.data, failures) + (if ok then [PutAct(w)] + CleanActs(w) else [])
      && (!p.retrying ==> |failures| == if ok then 0 else 1)
    decreases |run|
  {
    hide CleanActs, PoolInv;
    SameLength(p);
    var st, q, rest := run[0], Take(p, run[0]), run[1..];
    var w := p.work[j];
    TakeKeepsInv(p, st);
    NextStage(p, st, j);
    if q.jobs[j].Finished? {
      FinishedIsQuiet(q, rest, j);
      failures := if st.PutReturns? then [st.took] else [];
      assert AttemptActs(w.key, w.data, []) == [];
      assert [st.PutReturns? && st.took][1..] == [];
    } else if q.jobs[j].Cleaning? {
      CleansUp(q, rest, j);
      failures := [];
      assert AttemptActs(w.key, w.data, []) == [];
    } else {
      failures := JobShape(q, rest, j);
      if st.PutReturns? && st.job == j {
        var more := [st.took] + failures;
        assert more[1..] == failures;
        failures := more;
      }
    }
  }

  lemma SameLength(p: Pool)
    requires PoolInv(p)
    ensures |p.jobs| == |p.work|
  {
  }

  lemma NextStage(p: Pool, st: Step, j: nat)
    requires PoolInv(p) && Enabled(p, st) && j < |p.jobs|
    requires !p.jobs[j].Cleaning? && !p.jobs[j].Finished? && (p.jobs[j].Waiting? ==> p.retrying)
    ensures
      var x := Take(p, st).jobs[j];
      && (!Concerns(st, j) ==> x == p.jobs[j] || (st.Launch? && x.Checking?))
      && (x.Waiting? ==> p.retrying)
      && (x.Cleaning? ==> x.done == 0 && Concerns(st, j) && st.PutReturns? && st.ok)
      && (x.Finished? ==>
            !x.ok && Concerns(st, j)
            && ((st.PutReturns? && !st.ok && !p.retrying) || (!st.PutReturns? && p.retrying)))
      && (Concerns(st, j) ==> !st.CleanUp? && (st.PutReturns? && !x.Finished? && !x.Cleaning? ==> !st.ok && p.retrying))
  {
  }
}
