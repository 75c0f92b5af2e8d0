/** The two users of the goroutine pool: what a bounded run does to the stores is one of the interleavings that the
    results about whole runs cover. */
module Passes {
  import opened Scan
  import opened Names
  import opened Store
  import opened Programs
  import opened PendingDir
  import opened Dispatch

  /** The retry pass uploads under the printed name and leaves the LRU alone. */
  function RetryWork(f: PendingFile): Work {
    Work(FdName(f.fd), f.name, f.data, None)
  }

  /** Recovery uploads under the file's own name and refreshes the LRU with what is small enough. */
  function RecoverWork(cfg: Config, f: PendingFile): Work {
    Work(f.name, f.name, f.data, if |f.data| <= cfg.maxFileSize then Some(FdName(f.fd)) else None)
  }

  function RetryPool(cfg: Config, fs: seq<PendingFile>): (p: Pool)
    ensures |p.jobs| == |p.work| == |fs|
  {
    NewPool(true, cfg.concurrency, seq(|fs|, i requires 0 <= i < |fs| => RetryWork(fs[i])))
  }

  function RecoverPool(cfg: Config, fs: seq<PendingFile>): (p: Pool)
    ensures |p.jobs| == |p.work| == |fs|
  {
    NewPool(false, cfg.concurrency, seq(|fs|, i requires 0 <= i < |fs| => RecoverWork(cfg, fs[i])))
  }

  /** What xs records for the file of that name. */
  function Lookup<T>(fs: seq<PendingFile>, xs: seq<T>, other: T, n: string): T
    requires |fs| == |xs|
  {
    if fs == [] then other else if fs[0].name == n then xs[0] else Lookup(fs[1..], xs[1..], other, n)
  }

  lemma {:induction false} LookupFinds<T>(fs: seq<PendingFile>, xs: seq<T>, other: T, i: nat)
    requires |fs| == |xs| && i < |fs| && NamesDistinct(fs)
    ensures Lookup(fs, xs, other, fs[i].name) == xs[i]
  {
    if i > 0 {
      assert fs[0].name != fs[i].name && fs[1..][i - 1] == fs[i];
      LookupFinds(fs[1..], xs[1..], other, i - 1);
    }
  }

  lemma RetryOutcomes(cfg: Config, fs: seq<PendingFile>, run: seq<Step>) returns (envs: seq<RetryEnv>)
    requires Complete(RetryPool(cfg, fs), run)
    ensures |envs| == |fs|
    ensures forall i :: 0 <= i < |fs| ==>
      && JobActs(RetryPool(cfg, fs), run, i) == RetryActs(fs[i], envs[i])
      && envs[i].success == RunPool(RetryPool(cfg, fs), run).jobs[i].ok
  {
    hide FdName, Possible, RunPool, JobActs, AttemptActs;
    var p := RetryPool(cfg, fs);
    StartsInv(true, cfg.concurrency, p.work);
    envs := [];
    while |envs| < |fs|
      invariant |envs| <= |fs|
      invariant forall i :: 0 <= i < |envs| ==>
        JobActs(p, run, i) == RetryActs(fs[i], envs[i]) && envs[i].success == RunPool(p, run).jobs[i].ok
    {
      var i := |envs|;
      var failures := JobShape(p, run, i);
      RetryIsJob(fs[i], failures, RunPool(p, run).jobs[i].ok);
      envs := envs + [RetryEnv(failures, RunPool(p, run).jobs[i].ok)];
    }
  }

  lemma RetryIsJob(f: PendingFile, failures: seq<bool>, ok: bool)
    ensures
      var w := RetryWork(f);
      AttemptActs(w.key, w.data, failures) + (if ok then [PutAct(w)] + CleanActs(w) else [])
      == RetryActs(f, RetryEnv(failures, ok))
  {
    hide FdName, AttemptActs;
  }

  /** A complete bounded run of the retry pool is a retry pass. */
  lemma PassOfPool(cfg: Config, fs: seq<PendingFile>, run: seq<Step>)
      returns (each: string -> RetryEnv, sched: seq<nat>)
    requires NamesDistinct(fs) && Complete(RetryPool(cfg, fs), run)
    ensures Merge(RetryLists(fs, each), sched) == PoolActs(RetryPool(cfg, fs), run)
    ensures forall i :: 0 <= i < |fs| ==> each(fs[i].name).success == RunPool(RetryPool(cfg, fs), run).jobs[i].ok
  {
    hide Complete, Possible, RunPool, JobActs, RetryActs, Merge, PoolActs, Turns, RetryPool, NamesDistinct;
    var envs := RetryOutcomes(cfg, fs, run);
    each := n => Lookup(fs, envs, RetryEnv([], false), n);
    sched := PoolTurns(RetryPool(cfg, fs), run);
    forall i | 0 <= i < |fs|
      ensures each(fs[i].name) == envs[i]
    {
      LookupFinds(fs, envs, RetryEnv([], false), i);
    }
    assert JobLists(RetryPool(cfg, fs), run) == RetryLists(fs, each);
  }

  lemma PoolTurns(p: Pool, run: seq<Step>) returns (sched: seq<nat>)
    requires Complete(p, run) && |p.jobs| == |p.work|
    ensures Possible(p, run) && Merge(JobLists(p, run), sched) == PoolActs(p, run)
  {
    PoolIsMerge(p, run);
    sched := Turns(p, run);
  }

  /** The same pass after drops, the flag of the lease monitor included: set, if at all, after k of the pass's steps. */
  lemma WatchedPass(cfg: Config, fs: seq<PendingFile>, run: seq<Step>, drops: seq<Action>)
    returns (each: string -> RetryEnv, sched: seq<nat>, k: nat)
    requires NamesDistinct(fs) && Complete(RetryPool(cfg, fs), run)
    ensures
      var acts := drops + Merge(RetryLists(fs, each), sched);
      && k <= |acts| && (forall a :: a in acts[k..] ==> a.Do?)
      && drops + WatchedActs(RetryPool(cfg, fs), run) ==
         if RunPool(RetryPool(cfg, fs), run).lost then Inserted(acts, k) else acts
  {
    hide RunPool, RetryActs, Merge, PoolActs, WatchedActs, Inserted, NamesDistinct, Possible;
    each, sched := PassOfPool(cfg, fs, run);
    var pool := RetryPool(cfg, fs);
    var i := FlagAt(pool, run);
    k := |drops| + i;
    forall a | a in (drops + PoolActs(pool, run))[k..]
      ensures a.Do?
    {
      assert (drops + PoolActs(pool, run))[k..] == PoolActs(pool, run)[i..];
      PoolDoes(pool, run, a);
    }
    InsertedLater(drops, PoolActs(pool, run), i);
  }

  lemma RecoverOutcomes(cfg: Config, fs: seq<PendingFile>, run: seq<Step>) returns (outs: seq<Outcome>)
    requires Complete(RecoverPool(cfg, fs), run)
    ensures |outs| == |fs|
    ensures forall i :: 0 <= i < |fs| ==>
      && JobActs(RecoverPool(cfg, fs), run, i) == RecoverOneActs(cfg, fs[i], outs[i])
      && outs[i].Done? == RunPool(RecoverPool(cfg, fs), run).jobs[i].ok
  {
    hide FdName, Possible, RunPool, JobActs, AttemptActs;
    var p := RecoverPool(cfg, fs);
    StartsInv(false, cfg.concurrency, p.work);
    outs := [];
    while |outs| < |fs|
      invariant |outs| <= |fs|
      invariant forall i :: 0 <= i < |outs| ==>
        JobActs(p, run, i) == RecoverOneActs(cfg, fs[i], outs[i]) && outs[i].Done? == RunPool(p, run).jobs[i].ok
    {
      var i := |outs|;
      var failures := JobShape(p, run, i);
      var ok := RunPool(p, run).jobs[i].ok;
      RecoverIsJob(cfg, fs[i], failures, ok);
      outs := outs + [if ok then Done else Failed(failures[0])];
    }
  }

  lemma RecoverIsJob(cfg: Config, f: PendingFile, failures: seq<bool>, ok: bool)
    requires |failures| == if ok then 0 else 1
    ensures
      var w := RecoverWork(cfg, f);
      AttemptActs(w.key, w.data, failures) + (if ok then [PutAct(w)] + CleanActs(w) else [])
      == RecoverOneActs(cfg, f, if ok then Done else Failed(failures[0]))
  {
    hide FdName;
    if !ok {
      assert failures[1..] == [];
    }
  }

  /** A complete bounded run of the recovery pool is a recovery of the pending files. */
  lemma RecoveryOfPool(cfg: Config, fs: seq<PendingFile>, run: seq<Step>)
      returns (up: string -> Outcome, sched: seq<nat>)
    requires NamesDistinct(fs) && Complete(RecoverPool(cfg, fs), run)
    ensures Merge(RecoverLists(cfg, fs, up), sched) == PoolActs(RecoverPool(cfg, fs), run)
    ensures forall i :: 0 <= i < |fs| ==> up(fs[i].name).Done? == RunPool(RecoverPool(cfg, fs), run).jobs[i].ok
  {
    hide Complete, Possible, RunPool, JobActs, RecoverOneActs, Merge, PoolActs, Turns, RecoverPool, NamesDistinct;
    var outs := RecoverOutcomes(cfg, fs, run);
    up := n => Lookup(fs, outs, Done, n);
    sched := PoolTurns(RecoverPool(cfg, fs), run);
    forall i | 0 <= i < |fs|
      ensures up(fs[i].name) == outs[i]
    {
      LookupFinds(fs, outs, Done, i);
    }
    assert JobLists(RecoverPool(cfg, fs), run) == RecoverLists(cfg, fs, up);
  }

  function PassPool(retrying: bool, cfg: Config, fs: seq<PendingFile>): (p: Pool)
    ensures |p.jobs| == |p.work| == |fs|
  {
    if retrying then RetryPool(cfg, fs) else RecoverPool(cfg, fs)
  }

  /** Tables come before journals, journals before manifests, and all of these before temporary files. */
  predicate Urgent(a: FileType, b: FileType) {
    match a
    case Table => b != Table
    case Journal => b == Manifest || b == Temp
    case Manifest => b == Temp
    case Temp => false
  }

  /** In a retry pass and in a recovery with one slot, when a file starts, every file of a more urgent type
      has finished. */
  lemma UrgentFirst(retrying: bool, cfg: Config, d: Disk, r: ReadEnv, run: seq<Step>, i: nat)
    requires cfg.concurrency == 1 && Possible(PassPool(retrying, cfg, UploadList(cfg, d, r)), run)
    ensures
      var fs := UploadList(cfg, d, r);
      var p := RunPool(PassPool(retrying, cfg, fs), run);
      Enabled(p, Launch) && i < |fs| && Urgent(fs[i].fd.ftype, fs[|p.launched|].fd.ftype) ==> p.jobs[i].Finished?
  {
    hide PendingFiles, Sorted, Possible, RunPool;
    var fs := UploadList(cfg, d, r);
    SortedPermutes(PendingFiles(cfg, d, r.names, r));
    OneSlotIsSequential(retrying, PassPool(retrying, cfg, fs).work, run);
  }
}
