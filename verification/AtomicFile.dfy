/** atomicWriteFile: a temporary file in the same directory, then a rename. */
module AtomicFile {
  import opened Scan
  import opened Names
  import opened Store

  /** How the disk answers: a failed write leaves the first `wrote` bytes. */
  datatype Faults = Faults(createOk: bool, writeOk: bool, wrote: nat, closeOk: bool, renameOk: bool, removeOk: bool)

  predicate NoFault(f: Faults) {
    f.createOk && f.writeOk && f.closeOk && f.renameOk
  }

  /** Every other file but the temporary one is as it was, and the file itself is the old version or the new one. */
  ghost predicate OldOrNew(before: map<string, Bytes>, now: map<string, Bytes>, path: string, temp: string,
                           data: Bytes)
  {
    && (forall n :: n != path && n != temp ==> (n in now <==> n in before) && (n in before ==> now[n] == before[n]))
    && ((path in now && now[path] == data)
       || ((path in now <==> path in before) && (path in before ==> now[path] == before[path])))
  }

  lemma OnlyTempChanged(before: map<string, Bytes>, path: string, temp: string, data: Bytes)
    requires temp !in before && path != temp
    ensures forall now: map<string, Bytes> :: now - {temp} == before ==> OldOrNew(before, now, path, temp, data)
    ensures OldOrNew(before, before, path, temp, data)
  {
    forall now: map<string, Bytes> | now - {temp} == before
      ensures OldOrNew(before, now, path, temp, data)
    {
      assert forall n :: n != temp ==> (n in now <==> n in now - {temp});
    }
  }

  lemma Replaced(before: map<string, Bytes>, path: string, temp: string, data: Bytes)
    requires temp !in before && path != temp
    ensures var now := (before[temp := data] - {temp})[path := data];
            now == before[path := data] && OldOrNew(before, now, path, temp, data)
  {
  }

  class Directory {
    var files: map<string, Bytes>
    ghost var past: seq<map<string, Bytes>>   // every state so far; a crash leaves the last one

    ghost predicate Valid()
      reads this
    {
      past != [] && past[|past| - 1] == files
    }

    constructor (files: map<string, Bytes>)
      ensures Valid() && this.files == files
    {
      this.files := files;
      past := [files];
    }

    method Set(n: string, data: Bytes)
      requires Valid()
      modifies this
      ensures Valid() && files == old(files)[n := data] && past == old(past) + [files]
    {
      files := files[n := data];
      past := past + [files];
    }

    method Remove(n: string)
      requires Valid()
      modifies this
      ensures Valid() && files == old(files) - {n} && past == old(past) + [files]
    {
      files := files - {n};
      past := past + [files];
    }

    /** os.Rename replaces the target in one step. */
    method Rename(src: string, dst: string)
      requires Valid() && src in files
      modifies this
      ensures Valid() && files == (old(files) - {src})[dst := old(files)[src]] && past == old(past) + [files]
    {
      files := (files - {src})[dst := files[src]];
      past := past + [files];
    }

    /** Creates, fills and closes the temporary file; nothing else changes. */
    method WriteTemp(temp: string, data: Bytes, f: Faults) returns (ok: bool)
      requires Valid() && temp !in files
      modifies this
      ensures Valid() && |past| >= |old(past)| && past[..|old(past)|] == old(past)
      ensures forall i :: |old(past)| <= i < |past| ==> past[i] - {temp} == old(files)
      ensures ok <==> f.createOk && f.writeOk && f.closeOk
      ensures ok ==> files == old(files)[temp := data]
      ensures !ok ==> files == old(files) || (!f.removeOk && files - {temp} == old(files))
    {
      if !f.createOk {
        return false;
      }
      Set(temp, []);
      if !f.writeOk {
        Set(temp, data[..if f.wrote < |data| then f.wrote else |data|]);
        Discard(temp, f.removeOk);
        return false;
      }
      Set(temp, data);
      if !f.closeOk {
        Discard(temp, f.removeOk);
        return false;
      }
      return true;
    }

    /** At every point, crashes included, the file is the old complete version or the new one; nil is returned exactly
        when no step failed, and then the new version is in place and no temporary file is left. os.CreateTemp picks a
        free name. */
    method AtomicWriteFile(path: string, random: string, data: Bytes, f: Faults) returns (ok: bool)
      requires Valid() && ".tmp-" + random !in files && path != ".tmp-" + random
      modifies this
      ensures Valid() && |past| >= |old(past)| && past[..|old(past)|] == old(past)
      ensures forall i :: |old(past)| <= i < |past| ==> OldOrNew(old(files), past[i], path, ".tmp-" + random, data)
      ensures ok <==> NoFault(f)
      ensures if ok then files == old(files)[path := data]
              else files == old(files) || (!f.removeOk && files - {".tmp-" + random} == old(files))
    {
      hide OldOrNew;
      var temp := ".tmp-" + random;
      ok := WriteTemp(temp, data, f);
      OnlyTempChanged(old(files), path, temp, data);
      if !ok {
        return;
      }
      if !f.renameOk {
        Discard(temp, f.removeOk);
        assert (old(files)[temp := data]) - {temp} == old(files);
        return false;
      }
      Rename(temp, path);
      Replaced(old(files), path, temp, data);
    }

    method Discard(temp: string, removeOk: bool)
      requires Valid()
      modifies this
      ensures Valid()
      ensures if removeOk then files == old(files) - {temp} && past == old(past) + [files]
              else files == old(files) && past == old(past)
    {
      if removeOk {
        Remove(temp);
      }
    }
  }

  /** A temporary file that was left behind is never taken for a database file, nor for a checksum. */
  lemma TempIsIgnored(random: string)
    requires AllDigits(random)
    ensures ParseFileDesc(".tmp-" + random) == None && !IsSidecar(".tmp-" + random)
  {
    var temp := ".tmp-" + random;
    assert temp[0] == '.' && temp[4] == '-';
    assert SkipSpace(temp) == Some(temp);
    assert DigitRun(temp) == 0;
    assert |temp| >= 6 ==> IsDigit(temp[|temp| - 1]) && temp[|temp| - 6..][5] == temp[|temp| - 1];
  }
}
