/** The lease on the LOCK object: its text, the three lock operations, and exclusion among processes (lock.go). */
module Lease {
  import opened Scan
  import opened Programs

  // ---------- the lock ID ----------

  datatype LockId = LockId(pid: int, stamp: int, rnd: int)

  predicate ValidId(id: LockId) {
    IsInt64(id.pid) && IsInt64(id.stamp) && IsInt64(id.rnd)
  }

  /** Sprintf("%d-%d-%d", pid, nanoseconds, random). */
  function PrintLockId(id: LockId): string {
    FormatInt(id.pid, 0) + "-" + FormatInt(id.stamp, 0) + "-" + FormatInt(id.rnd, 0)
  }

  /** The next "-%d" of the format; the literal comes first. */
  function ScanDashInt(s: string): Option<(int, string)> {
    match Expect(s, "-")
    case None => None
    case Some(t) => ScanInt(t)
  }

  /** Sscanf(s, "%d-%d-%d"). */
  function ParseLockId(s: string): Option<LockId> {
    match ScanInt(s)
    case None => None
    case Some((pid, r1)) =>
      match ScanDashInt(r1)
      case None => None
      case Some((stamp, r2)) =>
        match ScanDashInt(r2)
        case None => None
        case Some((rnd, _)) => Some(LockId(pid, stamp, rnd))
  }

  lemma ScanDashPrinted(n: int, rest: string)
    requires IsInt64(n)
    requires rest != [] ==> !IsDigit(rest[0])
    ensures ScanDashInt("-" + (FormatInt(n, 0) + rest)) == Some((n, rest))
  {
    hide FormatInt, ScanInt;
    var t := FormatInt(n, 0) + rest;
    assert ("-" + t)[1..] == t;
    ScanPrinted(n, 0, rest);
  }

  /** Parsing a printed lock ID gives it back, whatever the signs and widths of its three numbers. */
  lemma LockIdRoundTrip(id: LockId)
    requires ValidId(id)
    ensures ParseLockId(PrintLockId(id)) == Some(id)
  {
    hide FormatInt, ScanInt, ScanDashInt;
    var c := FormatInt(id.rnd, 0) + [];
    var b := FormatInt(id.stamp, 0) + ("-" + c);
    assert PrintLockId(id) == FormatInt(id.pid, 0) + ("-" + b);
    ScanPrinted(id.pid, 0, "-" + b);
    ScanDashPrinted(id.stamp, "-" + c);
    ScanDashPrinted(id.rnd, []);
  }

  /** Two lock IDs print alike only if they are the same. */
  lemma LockIdInjective(a: LockId, b: LockId)
    requires ValidId(a) && ValidId(b)
    ensures PrintLockId(a) == PrintLockId(b) <==> a == b
  {
    LockIdRoundTrip(a);
    LockIdRoundTrip(b);
  }

  /** One printed ID begins another only if the two agree in pid and time and so do the digits of their
      random numbers. */
  lemma LockIdPrefix(a: LockId, b: LockId)
    requires ValidId(a) && ValidId(b)
    ensures
      PrintLockId(a) <= PrintLockId(b) <==>
      a.pid == b.pid && a.stamp == b.stamp && FormatInt(a.rnd, 0) <= FormatInt(b.rnd, 0)
  {
    hide FormatInt, ScanInt, ScanDashInt;
    var (pa, sa, ra) := (FormatInt(a.pid, 0), FormatInt(a.stamp, 0), FormatInt(a.rnd, 0));
    var (pb, sb, rb) := (FormatInt(b.pid, 0), FormatInt(b.stamp, 0), FormatInt(b.rnd, 0));
    assert PrintLockId(a) == pa + "-" + sa + "-" + ra && PrintLockId(b) == pb + "-" + sb + "-" + rb;
    if PrintLockId(a) <= PrintLockId(b) {
      var more := PrintLockId(b)[|PrintLockId(a)|..];
      var rest := "-" + (sa + ("-" + (ra + more)));
      assert PrintLockId(b) == pa + rest && PrintLockId(b) == pb + ("-" + (sb + ("-" + rb)));
      ScanPrinted(a.pid, 0, rest);
      ScanPrinted(b.pid, 0, "-" + (sb + ("-" + rb)));
      ScanDashPrinted(a.stamp, "-" + (ra + more));
      ScanDashPrinted(b.stamp, "-" + rb);
      assert "-" + (ra + more) == "-" + rb;
      assert ("-" + (ra + more))[1..] == ra + more && ("-" + rb)[1..] == rb;
    }
  }

  // ---------- the three operations ----------

  /** How S3, the disk and the process table answer during one Lock call. */
  datatype LockAnswers = LockAnswers(
    readLocalOk: bool, existsOk: bool, getOk: bool, alive: int -> bool,
    dirOk: bool, writeOk: bool, torn: Option<nat>,   // a failed local write may leave that many characters of the ID
    put: Outcome)

  datatype LockResult = Acquired | Held | LockError

  datatype Attempt = Attempt(remote: Option<string>, local: Option<string>, result: LockResult)

  /** isLockHolder. */
  predicate IsHolder(remote: string, local: Option<string>, readOk: bool) {
    local == Some(remote) && readOk
  }

  /** isLockStale: unparseable, past its lease, or owned by a process that is not running. */
  predicate IsStale(text: string, self: int, now: int, lease: int, alive: int -> bool) {
    match ParseLockId(text)
    case None => true
    case Some(id) => now - id.stamp > lease || (id.pid != self && !alive(id.pid))
  }

  function Beginning(text: string, k: nat): string {
    if k <= |text| then text[..k] else text
  }

  /** acquireLock: the local file first, then the object; the local file goes again if the object could not
      be written. */
  function Acquire(remote: Option<string>, local: Option<string>, text: string, e: LockAnswers): Attempt {
    if !e.dirOk then Attempt(remote, local, LockError)
    else if !e.writeOk
        then Attempt(remote, if e.torn.Some? then Some(Beginning(text, e.torn.value)) else local, LockError)
    else match e.put
      case Done => Attempt(Some(text), Some(text), Acquired)
      case Failed(took) => Attempt(if took then Some(text) else remote, None, LockError)
  }

  /** S3Lock.Lock by a process with this ID. */
  function TryLock(remote: Option<string>, local: Option<string>, id: LockId, now: int, lease: int,
                   e: LockAnswers): Attempt
  {
    if !e.existsOk || (remote.Some? && !e.getOk) then Attempt(remote, local, LockError)
    else if remote.Some? && !IsHolder(remote.value, local, e.readLocalOk)
        && !IsStale(remote.value, id.pid, now, lease, e.alive)
    then Attempt(remote, local, Held)
    else Acquire(remote, local, PrintLockId(id), e)
  }

  /** With S3 and the disk answering, Lock acquires if and only if there is no LOCK object, or the process's own LOCK
      file can be read and holds the same text, or the object's text is no lock ID, or that ID is past its lease, or it
      is another process's and that process is not running. Then both LOCKs hold the new ID; else nothing changes. */
  lemma LockExactly(remote: Option<string>, local: Option<string>, id: LockId, now: int, lease: int, e: LockAnswers)
    requires e.existsOk && e.getOk && e.dirOk && e.writeOk && e.put == Done
    ensures
      var a := TryLock(remote, local, id, now, lease, e);
      var mine := PrintLockId(id);
      && (a.result == Acquired <==>
            || remote.None?
            || (local.Some? && e.readLocalOk && local.value == remote.value)
            || ParseLockId(remote.value).None?
            || now - ParseLockId(remote.value).value.stamp > lease
            || (ParseLockId(remote.value).value.pid != id.pid && !e.alive(ParseLockId(remote.value).value.pid)))
      && a == if a.result == Acquired then Attempt(Some(mine), Some(mine), Acquired) else Attempt(remote, local, Held)
  {
    hide PrintLockId, ParseLockId;
  }

  /** Whatever fails: without an answer about LOCK nothing changes and Lock errs; a failed write of the local file, or
      of the object, is an error, and the latter takes the local file away again. */
  lemma LockFails(remote: Option<string>, local: Option<string>, id: LockId, now: int, lease: int, e: LockAnswers)
    ensures
      var a := TryLock(remote, local, id, now, lease, e);
      var mine := PrintLockId(id);
      && (!e.existsOk || (remote.Some? && !e.getOk) ==> a == Attempt(remote, local, LockError))
      && (a.result == Acquired ==> a.remote == Some(mine) && a.local == Some(mine))
      && (a.result == Held ==> a.remote == remote && a.local == local)
      && (a.result == LockError && e.existsOk && (remote.Some? ==> e.getOk) ==>
            && (!e.dirOk ==> a.remote == remote && a.local == local)
            && (e.dirOk && !e.writeOk ==>
               a.remote == remote && (a.local == local || (a.local.Some? && a.local.value <= mine)))
            && (e.dirOk && e.writeOk ==> e.put.Failed? && a.local == None
                                         && a.remote == if e.put.took then Some(mine) else remote))
      && (remote.None? && e.existsOk ==> (a.result == Acquired <==> e.dirOk && e.writeOk && e.put.Done?))
  {
    hide PrintLockId, ParseLockId;
  }

  /** Removing or rewriting the LOCK object. */
  function Written(remote: Option<string>, value: Option<string>, o: Outcome): Option<string> {
    if o.Done? || o.took then value else remote
  }

  class Bucket {
    var lock: Option<string>

    constructor ()
      ensures lock == None
    {
      lock := None;
    }
  }

  class S3Lock {
    const bucket: Bucket
    const lease: int
    var lockID: string
    var local: Option<string>    // the LOCK file of the local cache directory
    var stopped: bool            // stopCh is closed
    var renewing: bool           // a renewal goroutine is running
    var leaseErr: bool           // an error waits in leaseErrCh

    constructor (bucket: Bucket, lease: int)
      ensures this.bucket == bucket && this.lease == lease && local == None && lockID == ""
      ensures !stopped && !renewing && !leaseErr
    {
      this.bucket := bucket;
      this.lease := lease;
      lockID := "";
      local := None;
      stopped, renewing, leaseErr := false, false, false;
    }

    method Lock(id: LockId, now: int, e: LockAnswers) returns (r: LockResult)
      modifies this, bucket
      ensures
        var a := TryLock(old(bucket.lock), old(local), id, now, lease, e);
        bucket.lock == a.remote && local == a.local && r == a.result
      ensures e.existsOk && e.getOk && e.dirOk && e.writeOk && e.put == Done ==>
                && (r == Acquired <==>
                      || old(bucket.lock).None?
                      || (old(local) == old(bucket.lock) && e.readLocalOk)
                      || ParseLockId(old(bucket.lock).value).None?
                      || now - ParseLockId(old(bucket.lock).value).value.stamp > lease
                      || (ParseLockId(old(bucket.lock).value).value.pid != id.pid
                          && !e.alive(ParseLockId(old(bucket.lock).value).value.pid)))
                && (r == Acquired ==> bucket.lock == Some(lockID) && local == Some(lockID))
      ensures lockID == PrintLockId(id) && stopped == old(stopped) && leaseErr == old(leaseErr)
      ensures renewing == (old(renewing) || r == Acquired)
    {
      lockID := PrintLockId(id);
      if !e.existsOk {
        return LockError;
      }
      if bucket.lock.Some? {
        if !e.getOk {
          return LockError;
        }
        if !IsHolder(bucket.lock.value, local, e.readLocalOk) {
          if !IsStale(bucket.lock.value, id.pid, now, lease, e.alive) {
            return Held;
          }
        }
      }
      r := AcquireLock(e);
      if r == Acquired {
        renewing := true;
      }
    }

    method AcquireLock(e: LockAnswers) returns (r: LockResult)
      modifies this`local, bucket
      ensures
        var a := Acquire(old(bucket.lock), old(local), lockID, e);
        bucket.lock == a.remote && local == a.local && r == a.result
    {
      if !e.dirOk {
        return LockError;
      }
      if !e.writeOk {
        local := if e.torn.Some? then Some(Beginning(lockID, e.torn.value)) else local;
        return LockError;
      }
      local := Some(lockID);
      if e.put.Done? || e.put.took {
        bucket.lock := Some(lockID);
      }
      if e.put.Failed? {
        local := None;
        return LockError;
      }
      return Acquired;
    }

    /** Unlock may be called again after a failure. */
    method Unlock(o: Outcome) returns (ok: bool)
      modifies this, bucket
      ensures stopped && ok == o.Done? && lockID == old(lockID) && leaseErr == old(leaseErr)
      ensures bucket.lock == Written(old(bucket.lock), None, o)
      ensures local == if o.Done? then None else old(local)
    {
      if !stopped {
        stopped := true;
      }
      if o.Done? || o.took {
        bucket.lock := None;
      }
      if o.Failed? {
        return false;
      }
      local := None;
      return true;
    }

    /** One tick of the renewal goroutine: it ends when stopCh is closed, or when a renewal fails, which it reports on
        the channel that the lease monitor reads. */
    method RenewLease(o: Outcome)
      modifies this`renewing, this`leaseErr, bucket
      ensures bucket.lock ==
              if old(renewing) && !stopped then Written(old(bucket.lock), Some(lockID), o) else old(bucket.lock)
      ensures renewing == (old(renewing) && !stopped && o.Done?)
      ensures leaseErr == (old(leaseErr) || (old(renewing) && !stopped && o.Failed?))
    {
      if !renewing {
        return;
      }
      if stopped {
        renewing := false;
        return;
      }
      if o.Done? || o.took {
        bucket.lock := Some(lockID);
      }
      if o.Failed? {
        leaseErr := true;
        renewing := false;
      }
    }
  }

  // ---------- many processes ----------

  /** A process: the ID of its last Lock call, its own LOCK file, whether that call succeeded and nothing ended
      it since. */
  datatype Proc = Proc(id: Option<LockId>, local: Option<string>, holds: bool)

  datatype Net = Net(now: int, remote: Option<string>, procs: seq<Proc>, drawn: map<LockId, nat>)

  datatype Move =
    | Tick(wait: nat)
    | TakeLock(p: nat, pid: int, rnd: int, e: LockAnswers)
    | Renew(p: nat, o: Outcome)
    | Release(p: nat, o: Outcome)
    | Die(p: nat)

  predicate InLease(net: Net, lease: int, p: nat) {
    p < |net.procs| && net.procs[p].holds && net.procs[p].id.Some? && net.now - net.procs[p].id.value.stamp <= lease
  }

  function WithProc(net: Net, p: nat, x: Proc): Net
    requires p < |net.procs|
  {
    net.(procs := net.procs[p := x])
  }

  /** One step; Lock calls are atomic. */
  function Advance(net: Net, lease: int, m: Move): Net {
    match m
    case Tick(wait) => net.(now := net.now + wait)
    case TakeLock(p, pid, rnd, e) =>
      if p >= |net.procs| then net
      else
        var id := LockId(pid, net.now, rnd);
        var a := TryLock(net.remote, net.procs[p].local, id, net.now, lease, e);
        WithProc(net, p, Proc(Some(id), a.local, a.result == Acquired))
        .(remote := a.remote, drawn := net.drawn[id := p])
    case Renew(p, o) =>
      if p >= |net.procs| || net.procs[p].id.None? then net
      else net.(remote := Written(net.remote, Some(PrintLockId(net.procs[p].id.value)), o))
    case Release(p, o) =>
      if p >= |net.procs| then net
      else WithProc(net, p, Proc(net.procs[p].id, if o.Done? then None else net.procs[p].local, false))
           .(remote := Written(net.remote, None, o))
    case Die(p) =>
      if p >= |net.procs| then net else WithProc(net, p, net.procs[p].(holds := false))
  }

  /** The pid check reports live holders as alive. */
  ghost predicate Honest(net: Net, e: LockAnswers) {
    forall q :: 0 <= q < |net.procs| && net.procs[q].holds && net.procs[q].id.Some? ==>
        e.alive(net.procs[q].id.value.pid)
  }

  /** Same pid, same nanosecond, and the digits of one random number begin those of the other. */
  predicate Clash(a: LockId, b: LockId) {
    && a.pid == b.pid && a.stamp == b.stamp
    && (FormatInt(a.rnd, 0) <= FormatInt(b.rnd, 0) || FormatInt(b.rnd, 0) <= FormatInt(a.rnd, 0))
  }

  /** What the environment and the clients must respect: no two Lock calls draw IDs that clash; the pid check is honest;
      only a holder within its lease renews or unlocks. */
  ghost predicate Permitted(net: Net, lease: int, m: Move) {
    match m
    case TakeLock(p, pid, rnd, e) =>
      var id := LockId(pid, net.now, rnd);
      ValidId(id) && (forall d :: d in net.drawn ==> !Clash(d, id)) && Honest(net, e)
    case Renew(p, _) => InLease(net, lease, p)
    case Release(p, _) => InLease(net, lease, p)
    case _ => true
  }

  function Travel(net: Net, lease: int, run: seq<Move>): Net
    decreases |run|
  {
    if run == [] then net else Travel(Advance(net, lease, run[0]), lease, run[1..])
  }

  ghost predicate AllPermitted(net: Net, lease: int, run: seq<Move>)
    decreases |run|
  {
    run == [] || (Permitted(net, lease, run[0]) && AllPermitted(Advance(net, lease, run[0]), lease, run[1..]))
  }

  function Start(now: int, processes: nat): Net {
    Net(now, None, seq(processes, _ => Proc(None, None, false)), map[])
  }

  // ---------- exclusion ----------

  /** The text is a lock ID that process p drew, or what a failed write left of one. */
  ghost predicate DrawnBy(net: Net, p: nat, text: string) {
    exists id :: id in net.drawn && net.drawn[id] == p && text <= PrintLockId(id)
  }

  ghost predicate Exclusive(net: Net, lease: int) {
    && (forall id :: id in net.drawn ==> ValidId(id))
    && (forall a, b :: a in net.drawn && b in net.drawn && a != b ==> !Clash(a, b))
    && (forall p :: 0 <= p < |net.procs| && net.procs[p].id.Some? ==>
          net.procs[p].id.value in net.drawn && net.drawn[net.procs[p].id.value] == p)
    && (forall p :: 0 <= p < |net.procs| && net.procs[p].local.Some? ==>
          DrawnBy(net, p, net.procs[p].local.value))
    && (forall p: nat :: InLease(net, lease, p) ==> net.remote == Some(PrintLockId(net.procs[p].id.value)))
  }

  /** A process within its lease keeps every other one from taking the lock. */
  lemma HolderBlocks(net: Net, lease: int, q: nat, p: nat, pid: int, rnd: int, e: LockAnswers)
    requires Exclusive(net, lease) && InLease(net, lease, q) && p < |net.procs| && p != q
    requires Permitted(net, lease, TakeLock(p, pid, rnd, e))
    ensures
      var a := TryLock(net.remote, net.procs[p].local, LockId(pid, net.now, rnd), net.now, lease, e);
      a.result != Acquired && a.remote == net.remote && a.local == net.procs[p].local
  {
    hide PrintLockId, ParseLockId;
    var idq := net.procs[q].id.value;
    LockIdRoundTrip(idq);
    if net.procs[p].local == net.remote {
      var id :| id in net.drawn && net.drawn[id] == p && net.procs[p].local.value <= PrintLockId(id);
      LockIdPrefix(idq, id);
      assert false;
    }
  }

  lemma TakeKeepsExclusive(net: Net, lease: int, p: nat, pid: int, rnd: int, e: LockAnswers)
    requires Exclusive(net, lease) && p < |net.procs|
    requires Permitted(net, lease, TakeLock(p, pid, rnd, e))
    ensures Exclusive(Advance(net, lease, TakeLock(p, pid, rnd, e)), lease)
  {
    hide PrintLockId, ParseLockId, IsStale;
    var id := LockId(pid, net.now, rnd);
    var a := TryLock(net.remote, net.procs[p].local, id, net.now, lease, e);
    var t := Advance(net, lease, TakeLock(p, pid, rnd, e));
    forall q: nat | InLease(t, lease, q)
      ensures t.remote == Some(PrintLockId(t.procs[q].id.value))
    {
      if q != p {
        assert InLease(net, lease, q);
        HolderBlocks(net, lease, q, p, pid, rnd, e);
      }
    }
    forall q | 0 <= q < |t.procs| && t.procs[q].local.Some?
      ensures DrawnBy(t, q, t.procs[q].local.value)
    {
      if q == p && a.local != net.procs[p].local {
        assert t.drawn[id] == p && a.local.value <= PrintLockId(id);
      } else {
        assert DrawnBy(net, q, net.procs[q].local.value);
        var was :| was in net.drawn && net.drawn[was] == q && net.procs[q].local.value <= PrintLockId(was);
        assert was in t.drawn && t.drawn[was] == q;
      }
    }
  }

  lemma DrawnSame(net: Net, t: Net, p: nat, text: string)
    requires net.drawn == t.drawn
    ensures DrawnBy(t, p, text) == DrawnBy(net, p, text)
  {
  }

  lemma MoveKeepsExclusive(net: Net, lease: int, m: Move)
    requires Exclusive(net, lease) && Permitted(net, lease, m)
    ensures Exclusive(Advance(net, lease, m), lease)
  {
    hide PrintLockId, ParseLockId, TryLock, DrawnBy;
    var t := Advance(net, lease, m);
    if m.TakeLock? && m.p < |net.procs| {
      TakeKeepsExclusive(net, lease, m.p, m.pid, m.rnd, m.e);
    } else {
      forall q | 0 <= q < |t.procs| && t.procs[q].local.Some?
        ensures DrawnBy(t, q, t.procs[q].local.value)
      {
        DrawnSame(net, t, q, t.procs[q].local.value);
      }
      forall q: nat | InLease(t, lease, q)
        ensures t.remote == Some(PrintLockId(t.procs[q].id.value))
      {
        assert InLease(net, lease, q);
        if m.Release? && m.p < |net.procs| {
          LockIdInjective(net.procs[q].id.value, net.procs[m.p].id.value);
        }
      }
    }
  }

  lemma {:induction false} RunKeepsExclusive(net: Net, lease: int, run: seq<Move>)
    requires Exclusive(net, lease) && AllPermitted(net, lease, run)
    ensures Exclusive(Travel(net, lease, run), lease)
    decreases |run|
  {
    if run != [] {
      MoveKeepsExclusive(net, lease, run[0]);
      RunKeepsExclusive(Advance(net, lease, run[0]), lease, run[1..]);
    }
  }

  /** Over every run, any number of processes, any failures and deaths, at most one process holds an unexpired lease,
      counted from the timestamp in its lock ID, and the LOCK object names it. */
  lemma LeaseExclusion(start: int, processes: nat, lease: int, run: seq<Move>, p: nat, q: nat)
    requires AllPermitted(Start(start, processes), lease, run)
    ensures
      var net := Travel(Start(start, processes), lease, run);
      && (InLease(net, lease, p) && InLease(net, lease, q) ==> p == q)
      && (InLease(net, lease, p) ==> net.remote == Some(PrintLockId(net.procs[p].id.value)))
  {
    RunKeepsExclusive(Start(start, processes), lease, run);
    var net := Travel(Start(start, processes), lease, run);
    if InLease(net, lease, p) && InLease(net, lease, q) {
      LockIdInjective(net.procs[p].id.value, net.procs[q].id.value);
    }
  }

  // ---------- exactly when the lock changes hands ----------

  function Answers(alive: int -> bool): LockAnswers {
    LockAnswers(true, true, true, alive, true, true, None, Done)
  }

  /** LOCK names process p. */
  predicate Names(net: Net, p: nat) {
    p < |net.procs| && net.procs[p].id.Some? && ValidId(net.procs[p].id.value)
    && net.remote == Some(PrintLockId(net.procs[p].id.value))
  }

  /** Renewal writes the same timestamp again: however often p renews, and however much time passes, LOCK and the
      deadline of p stay what they were when p acquired it. */
  lemma {:induction false} RenewalDoesNotExtend(net: Net, lease: int, p: nat, run: seq<Move>)
    requires Names(net, p) && forall i :: 0 <= i < |run| ==> run[i].Tick? || (run[i].Renew? && run[i].p == p)
    ensures
      var t := Travel(net, lease, run);
      t.remote == net.remote && t.procs == net.procs && t.now >= net.now && Names(t, p)
    decreases |run|
  {
    if run != [] {
      assert forall i :: 0 <= i < |run[1..]| ==> run[1..][i] == run[i + 1];
      RenewalDoesNotExtend(Advance(net, lease, run[0]), lease, p, run[1..]);
    }
  }

  /** While LOCK names p, another process whose LOCK file does not hold p's ID takes the lock, S3 and the disk
      answering, if and only if p's lease has run out since p acquired it or the process check, asked for a foreign ID,
      reports p as gone. Hence p within its lease ends up beside it exactly in the second case, as on another machine,
      where p's ID means nothing. */
  lemma TakeoverExactly(net: Net, lease: nat, p: nat, q: nat, pid: int, rnd: int, alive: int -> bool)
    requires Names(net, p) && q < |net.procs| && p != q && net.procs[q].local != net.remote
    ensures
      var id := net.procs[p].id.value;
      var t := Advance(net, lease, TakeLock(q, pid, rnd, Answers(alive)));
      && (t.procs[q].holds <==> net.now - id.stamp > lease || (pid != id.pid && !alive(id.pid)))
      && (InLease(net, lease, p) ==>
         (InLease(t, lease, p) && InLease(t, lease, q) <==> pid != id.pid && !alive(id.pid)))
  {
    hide PrintLockId, ParseLockId;
    LockIdRoundTrip(net.procs[p].id.value);
  }

  /** Another process than p is within its lease. */
  ghost predicate OtherInLease(net: Net, lease: int, p: nat) {
    exists q: nat :: q != p && InLease(net, lease, q)
  }

  lemma NoLongerNamed(net: Net, t: Net, lease: int, p: nat, q: nat)
    requires Exclusive(net, lease) && p < |net.procs| && q != p && InLease(net, lease, q)
    requires |t.procs| == |net.procs| && t.procs == net.procs[p := t.procs[p]] && t.now == net.now
    requires t.remote.None? || (net.procs[p].id.Some? && t.remote == Some(PrintLockId(net.procs[p].id.value)))
    ensures !Exclusive(t, lease)
  {
    hide PrintLockId, ParseLockId;
    assert t.procs[q] == net.procs[q];
    assert InLease(t, lease, q);
    if net.procs[p].id.Some? {
      LockIdInjective(net.procs[p].id.value, net.procs[q].id.value);
    }
  }

  /** An Unlock whose delete takes effect keeps LOCK true to its holders if and only if no other process is within its
      lease; it does whenever LOCK names the caller, which a look at LOCK before the delete would tell. */
  lemma ReleaseExactly(net: Net, lease: int, p: nat, o: Outcome)
    requires Exclusive(net, lease) && p < |net.procs| && TakesEffect(o)
    ensures Exclusive(Advance(net, lease, Release(p, o)), lease) <==> !OtherInLease(net, lease, p)
    ensures Names(net, p) ==> !OtherInLease(net, lease, p)
  {
    hide PrintLockId, ParseLockId, DrawnBy;
    var t := Advance(net, lease, Release(p, o));
    if OtherInLease(net, lease, p) {
      var q: nat :| q != p && InLease(net, lease, q);
      NoLongerNamed(net, t, lease, p, q);
      if Names(net, p) {
        LockIdInjective(net.procs[p].id.value, net.procs[q].id.value);
      }
    } else {
      forall q | 0 <= q < |t.procs| && t.procs[q].local.Some?
        ensures DrawnBy(t, q, t.procs[q].local.value)
      {
        DrawnSame(net, t, q, t.procs[q].local.value);
      }
      assert forall q: nat :: InLease(t, lease, q) ==> q != p && InLease(net, lease, q);
    }
  }

  /** A renewal that takes effect does so under the same condition. */
  lemma RenewExactly(net: Net, lease: int, p: nat, o: Outcome)
    requires Exclusive(net, lease) && p < |net.procs| && net.procs[p].id.Some? && TakesEffect(o)
    ensures Exclusive(Advance(net, lease, Renew(p, o)), lease) <==> !OtherInLease(net, lease, p)
  {
    hide PrintLockId, ParseLockId, DrawnBy;
    var t := Advance(net, lease, Renew(p, o));
    if OtherInLease(net, lease, p) {
      var q: nat :| q != p && InLease(net, lease, q);
      assert net.procs == net.procs[p := t.procs[p]];
      NoLongerNamed(net, t, lease, p, q);
    } else {
      forall q | 0 <= q < |t.procs| && t.procs[q].local.Some?
        ensures DrawnBy(t, q, t.procs[q].local.value)
      {
        DrawnSame(net, t, q, t.procs[q].local.value);
      }
      assert forall q: nat :: InLease(t, lease, q) ==> InLease(net, lease, q);
    }
  }

  /** After such an Unlock any further process gets the lock at once, so two processes are within their leases exactly
      when the Unlock hit one that was. */
  lemma ThirdGetsIn(net: Net, lease: nat, p: nat, o: Outcome, q: nat, r: nat, pid: int, rnd: int, alive: int -> bool)
    requires p < |net.procs| && r < |net.procs| && q != p && q != r && TakesEffect(o)
    ensures
      var t := Travel(net, lease, [Release(p, o), TakeLock(r, pid, rnd, Answers(alive))]);
      && InLease(t, lease, r)
      && (InLease(t, lease, q) <==> InLease(net, lease, q))
  {
    hide PrintLockId, ParseLockId;
    TravelTwo(net, lease, Release(p, o), TakeLock(r, pid, rnd, Answers(alive)));
  }

  /** A process whose Unlock failed without effect gets its own lock again, however long it waits and whatever the
      process check says, and holds it within a new lease. */
  lemma OwnLockAgain(net: Net, lease: nat, p: nat, pid: int, rnd: int, wait: nat, pid': int, rnd': int,
                     alive: int -> bool, alive': int -> bool)
    requires p < |net.procs|
    requires
      var t := Advance(net, lease, TakeLock(p, pid, rnd, Answers(alive)));
      t.procs[p].holds
    ensures
      var run := [TakeLock(p, pid, rnd, Answers(alive)), Release(p, Failed(false)), Tick(wait),
                  TakeLock(p, pid', rnd', Answers(alive'))];
      var t := Travel(net, lease, run);
      InLease(t, lease, p) && t.procs[p].holds && t.remote == Some(PrintLockId(LockId(pid', net.now + wait, rnd')))
  {
    hide PrintLockId, ParseLockId, IsStale;
    var a, b := TakeLock(p, pid, rnd, Answers(alive)), Release(p, Failed(false));
    var c, d := Tick(wait), TakeLock(p, pid', rnd', Answers(alive'));
    var n1 := Advance(net, lease, a);
    var n2 := Advance(n1, lease, b);
    TravelTwo(n2, lease, c, d);
    TravelCons(n1, lease, b, [c, d]);
    TravelCons(net, lease, a, [b] + [c, d]);
    assert [a] + ([b] + [c, d]) == [a, b, c, d];
  }

  lemma TravelTwo(net: Net, lease: int, a: Move, b: Move)
    ensures Travel(net, lease, [a, b]) == Advance(Advance(net, lease, a), lease, b)
  {
    TravelCons(net, lease, a, [b]);
    TravelCons(Advance(net, lease, a), lease, b, []);
    assert [a] + [b] == [a, b] && [b] + [] == [b];
  }

  lemma TravelCons(net: Net, lease: int, m: Move, rest: seq<Move>)
    ensures Travel(net, lease, [m] + rest) == Travel(Advance(net, lease, m), lease, rest)
  {
    assert ([m] + rest)[1..] == rest;
  }

  /** A run that shows the one failure: a process check that reports a live holder as gone hands out the lock twice. */
  lemma DishonestCheckBreaks(lease: int)
    requires lease >= 0
    ensures
      var run := [TakeLock(0, 10, 0, Answers(_ => true)), TakeLock(1, 11, 0, Answers(_ => false))];
      var net := Travel(Start(0, 2), lease, run);
      InLease(net, lease, 0) && InLease(net, lease, 1)
  {
    hide PrintLockId, ParseLockId;
    LockIdRoundTrip(LockId(10, 0, 0));
    TravelTwo(Start(0, 2), lease, TakeLock(0, 10, 0, Answers(_ => true)), TakeLock(1, 11, 0, Answers(_ => false)));
  }

  /** A run that shows the other, for every lease the clock can measure: an Unlock after the lease ran out deletes the
      lock of whoever took over, and a third process gets in beside it. */
  lemma LateUnlockBreaks(lease: nat)
    requires lease < MAX_INT64
    ensures
      var yes := Answers(_ => true);
      var run := [TakeLock(0, 10, 0, yes), Tick(lease + 1), TakeLock(1, 11, 0, yes), Release(0, Done),
          TakeLock(2, 12, 0, yes)];
      var net := Travel(Start(0, 3), lease, run);
      InLease(net, lease, 1) && InLease(net, lease, 2)
  {
    hide PrintLockId, ParseLockId;
    var yes := Answers(_ => true);
    LockIdRoundTrip(LockId(10, 0, 0));
    var a, b, c, d, e := TakeLock(0, 10, 0, yes), Tick(lease + 1), TakeLock(1, 11, 0, yes), Release(0, Done),
        TakeLock(2, 12, 0, yes);
    var n0 := Start(0, 3);
    var n1 := Advance(n0, lease, a);
    var n2 := Advance(n1, lease, b);
    var n3 := Advance(n2, lease, c);
    var n4 := Advance(n3, lease, d);
    assert n3.procs[1].holds && n3.procs[1].id == Some(LockId(11, lease + 1, 0));
    assert n4.remote == None && n4.procs[1] == n3.procs[1];
    TravelTwo(n3, lease, d, e);
    TravelCons(n2, lease, c, [d, e]);
    TravelCons(n1, lease, b, [c] + [d, e]);
    TravelCons(n0, lease, a, [b] + ([c] + [d, e]));
    assert [a] + ([b] + ([c] + [d, e])) == [a, b, c, d, e];
  }
}
