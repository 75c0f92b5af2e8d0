/** LevelDB file descriptors, the names goleveldb prints for them, and the parser that reads names back. */
module Names {
  import opened Scan

  datatype FileType = Manifest | Journal | Table | Temp
  datatype FileDesc = FileDesc(ftype: FileType, num: int)

  /** goleveldb's FileDesc.String. */
  function FdName(fd: FileDesc): (name: string)
    ensures name != []
  {
    match fd.ftype
    case Manifest => "MANIFEST-" + FormatInt(fd.num, 6)
    case Journal => FormatInt(fd.num, 6) + ".log"
    case Table => FormatInt(fd.num, 6) + ".ldb"
    case Temp => FormatInt(fd.num, 6) + ".tmp"
  }

  function ExtensionType(ext: string): Option<FileType> {
    if ext == "log" then Some(Journal)
    else if ext == "ldb" || ext == "sst" then Some(Table)
    else if ext == "tmp" then Some(Temp)
    else None
  }

  /** Sscanf(s, "%d.%s"). */
  function ScanNumDotWord(s: string): Option<(int, string)> {
    match ScanInt(s)
    case None => None
    case Some((num, rest)) =>
      match Expect(rest, ".")
      case None => None
      case Some(t) =>
        match ScanWord(t)
        case None => None
        case Some(word) => Some((num, word))
  }

  /** Sscanf(s, "MANIFEST-%d"); whatever follows the number is not looked at. */
  function ManifestNum(s: string): (r: Option<int>)
    ensures r.Some? ==> IsInt64(r.value)
  {
    match Expect(s, "MANIFEST-")
    case None => None
    case Some(t) =>
      match ScanInt(t)
      case None => None
      case Some((num, _)) => Some(num)
  }

  function ParseFileDesc(s: string): Option<FileDesc> {
    match ScanNumDotWord(s)
    case Some((num, ext)) =>
      (match ExtensionType(ext)
       case Some(ft) => Some(FileDesc(ft, num))
       case None => None)
    case None =>
      match ManifestNum(s)
      case Some(num) => Some(FileDesc(Manifest, num))
      case None => None
  }

  predicate IsMetadataKey(name: string) {
    name == "CURRENT" || name == "LOCK" || "MANIFEST-" <= name
  }

  predicate IsSidecar(name: string) {
    |name| >= 6 && name[|name| - 6..] == ".cksum"
  }

  /** The name is the printed form of the descriptor it parses to. */
  predicate IsFileName(name: string) {
    var r := ParseFileDesc(name);
    r.Some? && IsInt64(r.value.num) && FdName(r.value) == name
  }

  /** shouldCacheLocally: journals and manifests are mirrored in the local cache directory. */
  predicate CachedLocally(fd: FileDesc) {
    fd.ftype == Journal || fd.ftype == Manifest
  }

  predicate CachedName(name: string) {
    var r := ParseFileDesc(name);
    r.Some? && CachedLocally(r.value)
  }

  lemma ScanWordOf(ext: string)
    requires ext != [] && forall i :: 0 <= i < |ext| ==> !IsSpace(ext[i])
    ensures ScanWord(ext) == Some(ext)
  {
    WordRunOf(ext);
    assert ext[..|ext|] == ext;
  }

  lemma ParseDotted(num: int, w: nat, ext: string)
    requires IsInt64(num) && ext != [] && forall i :: 0 <= i < |ext| ==> !IsSpace(ext[i])
    ensures ScanNumDotWord(FormatInt(num, w) + "." + ext) == Some((num, ext))
  {
    var rest := "." + ext;
    assert FormatInt(num, w) + "." + ext == FormatInt(num, w) + rest;
    ScanPrinted(num, w, rest);
    assert rest[1..] == ext;
    ScanWordOf(ext);
  }

  lemma ParseManifest(num: int, w: nat, rest: string)
    requires IsInt64(num)
    requires rest != [] ==> !IsDigit(rest[0])
    ensures ParseFileDesc("MANIFEST-" + FormatInt(num, w) + rest) == Some(FileDesc(Manifest, num))
  {
    var t := FormatInt(num, w) + rest;
    var s := "MANIFEST-" + t;
    assert s == "MANIFEST-" + FormatInt(num, w) + rest;
    ScanPrinted(num, w, rest);
    assert ScanNumDotWord(s) == None by {
      assert s[0] == 'M';
      assert SkipSpace(s) == Some(s);
      assert DigitRun(s) == 0;
    }
    assert s[|"MANIFEST-"|..] == t;
  }

  lemma ParseOtherType(num: int, w: nat, ext: string)
    requires IsInt64(num) && ext in {"log", "ldb", "sst", "tmp"}
    ensures ParseFileDesc(FormatInt(num, w) + "." + ext) == Some(FileDesc(ExtensionType(ext).value, num))
  {
    ParseDotted(num, w, ext);
  }

  /** The spellings the parser accepts besides the printed ones: numbers of any width, .sst for a table, anything but a
      digit after the number of a manifest. A word with no other extension is no database file. */
  lemma Spellings(num: int, w: nat, rest: string, ext: string)
    requires IsInt64(num) && (rest != [] ==> !IsDigit(rest[0]))
    requires ext != [] && forall i :: 0 <= i < |ext| ==> !IsSpace(ext[i])
    ensures ParseFileDesc(FormatInt(num, w) + ".log") == Some(FileDesc(Journal, num))
    ensures ParseFileDesc(FormatInt(num, w) + ".ldb") == Some(FileDesc(Table, num))
    ensures ParseFileDesc(FormatInt(num, w) + ".sst") == Some(FileDesc(Table, num))
    ensures ParseFileDesc(FormatInt(num, w) + ".tmp") == Some(FileDesc(Temp, num))
    ensures ParseFileDesc("MANIFEST-" + FormatInt(num, w) + rest) == Some(FileDesc(Manifest, num))
    ensures ext !in {"log", "ldb", "sst", "tmp"} ==> ParseFileDesc(FormatInt(num, w) + "." + ext) == None
  {
    hide ParseFileDesc, FormatInt;
    var t := FormatInt(num, w);
    ParseOtherType(num, w, "log");
    ParseOtherType(num, w, "ldb");
    ParseOtherType(num, w, "sst");
    ParseOtherType(num, w, "tmp");
    ParseManifest(num, w, rest);
    if ext !in {"log", "ldb", "sst", "tmp"} {
      OtherExtension(num, w, ext);
    }
    assert t + "." + "log" == t + ".log" && t + "." + "ldb" == t + ".ldb";
    assert t + "." + "sst" == t + ".sst" && t + "." + "tmp" == t + ".tmp";
  }

  /** Blanks and a plus sign before the number do not matter; a number that does not fit 64 bits names no file. */
  lemma SignsAndBlanks(pre: string, num: nat)
    requires AllSpace(pre) && '\n' !in pre
    ensures ParseFileDesc(pre + ("+" + (Dec(num) + ".log"))) == if IsInt64(num) then Some(FileDesc(Journal, num))
            else None
  {
    hide ScanInt, Dec;
    var s := pre + ("+" + (Dec(num) + ".log"));
    ScanSpelled(pre, num, ".log");
    ScanWordOf("log");
    assert ".log"[1..] == "log";
    assert s[0] != 'M';
    assert !("MANIFEST-" <= s);
  }

  lemma OtherExtension(num: int, w: nat, ext: string)
    requires IsInt64(num) && ext != [] && forall i :: 0 <= i < |ext| ==> !IsSpace(ext[i])
    requires ext !in {"log", "ldb", "sst", "tmp"}
    ensures ParseFileDesc(FormatInt(num, w) + "." + ext) == None
  {
    ParseDotted(num, w, ext);
  }

  /** Parsing undoes printing, for every type and every 64-bit number. */
  lemma ParsePrinted(fd: FileDesc)
    requires IsInt64(fd.num)
    ensures ParseFileDesc(FdName(fd)) == Some(fd)
  {
    hide ParseFileDesc, FormatInt;
    var t := FormatInt(fd.num, 6);
    match fd.ftype
    case Manifest =>
      ParseManifest(fd.num, 6, []);
      assert "MANIFEST-" + t + [] == FdName(fd);
    case Journal =>
      ParseOtherType(fd.num, 6, "log");
      assert FdName(fd) == t + "." + "log";
    case Table =>
      ParseOtherType(fd.num, 6, "ldb");
      assert FdName(fd) == t + "." + "ldb";
    case Temp =>
      ParseOtherType(fd.num, 6, "tmp");
      assert FdName(fd) == t + "." + "tmp";
  }

  /** Distinct descriptors never share a name, hence never a cache entry or an S3 key. */
  lemma PrintInjective(a: FileDesc, b: FileDesc)
    requires IsInt64(a.num) && IsInt64(b.num)
    ensures FdName(a) == FdName(b) <==> a == b
  {
    ParsePrinted(a);
    ParsePrinted(b);
  }

  lemma ParsedNumIsInt64(s: string)
    ensures ParseFileDesc(s).Some? ==> IsInt64(ParseFileDesc(s).value.num)
  {
  }

  /** Any accepted spelling normalises to a name that parses to the same descriptor. */
  lemma Normalises(s: string)
    requires ParseFileDesc(s).Some?
    ensures ParseFileDesc(FdName(ParseFileDesc(s).value)) == ParseFileDesc(s)
    ensures IsFileName(FdName(ParseFileDesc(s).value))
  {
    ParsedNumIsInt64(s);
    ParsePrinted(ParseFileDesc(s).value);
  }

  lemma LastIsDigit(num: int)
    ensures IsDigit(FormatInt(num, 6)[|FormatInt(num, 6)| - 1])
    ensures !IsSpace(FormatInt(num, 6)[0])
  {
    if num < 0 {
      assert AllDigits(Pad(Dec(-num), 5));
    } else {
      assert AllDigits(Pad(Dec(num), 6));
    }
  }

  /** A printed name is never a checksum sidecar, CURRENT or LOCK, and trimming leaves it alone. */
  lemma PrintedIsPlain(fd: FileDesc)
    requires IsInt64(fd.num)
    ensures !IsSidecar(FdName(fd)) && FdName(fd) != "CURRENT" && FdName(fd) != "LOCK"
    ensures TrimSpace(FdName(fd)) == FdName(fd) && TrimSpace(FdName(fd) + "\n") == FdName(fd)
  {
    var name := FdName(fd);
    LastIsDigit(fd.num);
    assert name[|name| - 1] == 'g' || name[|name| - 1] == 'b' || name[|name| - 1] == 'p' || IsDigit(name[|name| - 1]);
    assert |name| >= 6 ==> name[|name| - 6..][5] == name[|name| - 1];
    TrimPrinted(name);
  }

  /** parseFileDesc takes a sidecar of a manifest for the manifest itself: callers must filter the suffix. */
  lemma SidecarParsesAsManifest(num: int)
    requires IsInt64(num)
    ensures ParseFileDesc(FdName(FileDesc(Manifest, num)) + ".cksum") == Some(FileDesc(Manifest, num))
  {
    ParseManifest(num, 6, ".cksum");
  }

  /** The names goleveldb gives its files, the number padded with zeros to six digits and never cut. */
  lemma PrintedNames(num: nat)
    ensures num < 10 ==> FormatInt(num, 6) == "00000" + [DigitChar(num)]
    ensures FdName(FileDesc(Table, num)) == FormatInt(num, 6) + ".ldb"
    ensures FdName(FileDesc(Journal, num)) == FormatInt(num, 6) + ".log"
    ensures FdName(FileDesc(Temp, num)) == FormatInt(num, 6) + ".tmp"
    ensures FdName(FileDesc(Manifest, num)) == "MANIFEST-" + FormatInt(num, 6)
    ensures |Dec(num)| <= |FormatInt(num, 6)| && FormatInt(num, 6)[|FormatInt(num, 6)| - |Dec(num)|..] == Dec(num)
    ensures |FormatInt(num, 6)| == if |Dec(num)| < 6 then 6 else |Dec(num)|
  {
    PadZeros(Dec(num), 6);
    assert num < 10 ==> Dec(num) == [DigitChar(num)] && seq(5, _ => '0') == "00000";
  }

  lemma {:induction false} PadZeros(s: string, w: nat)
    ensures Pad(s, w) == (if |s| < w then seq(w - |s|, _ => '0') else []) + s
    decreases w - |s|
  {
    if |s| < w {
      PadZeros("0" + s, w);
      assert seq(w - |s|, _ => '0') == seq(w - |s| - 1, _ => '0') + "0";
    }
  }

  /** Which types are mirrored in the local cache, and which escape the size limit. */
  lemma ClassOfType(fd: FileDesc)
    requires IsInt64(fd.num)
    ensures CachedName(FdName(fd)) <==> fd.ftype == Journal || fd.ftype == Manifest
    ensures IsMetadataKey(FdName(fd)) <==> fd.ftype == Manifest
  {
    ParsePrinted(fd);
    hide ParseFileDesc;
    var t := FormatInt(fd.num, 6);
    assert t[0] == '-' || IsDigit(t[0]) by { StartsNumber(fd.num); }
    assert fd.ftype == Manifest ==> FdName(fd)[..9] == "MANIFEST-";
    assert fd.ftype != Manifest ==> FdName(fd)[0] == t[0];
  }

  lemma StartsNumber(num: int)
    ensures FormatInt(num, 6)[0] == '-' || IsDigit(FormatInt(num, 6)[0])
  {
    if num >= 0 {
      assert AllDigits(Pad(Dec(num), 6));
    }
  }

  /** A sidecar is a name with .cksum behind it. */
  lemma SidecarExactly(n: string)
    ensures IsSidecar(n) <==> exists base: string :: n == base + ".cksum"
    ensures IsSidecar(n + ".cksum")
  {
    if IsSidecar(n) {
      assert n == n[..|n| - 6] + ".cksum";
    }
  }
}
