/** Go's fmt verbs %d and %s as Sscanf reads them, %0Nd as Sprintf prints it, and strings.TrimSpace. */
module Scan {

  datatype Option<+T> = None | Some(value: T)

  const MIN_INT64: int := -0x8000_0000_0000_0000
  const MAX_INT64: int := 0x7FFF_FFFF_FFFF_FFFF

  predicate IsInt64(n: int) {
    MIN_INT64 <= n <= MAX_INT64
  }

  predicate IsDigit(c: char) {
    '0' <= c <= '9'
  }

  /** The runes Go counts as white space, both when scanning and when trimming. */
  predicate IsSpace(c: char) {
    var r := c as int;
    || 0x09 <= r <= 0x0D || r == 0x20 || r == 0x85 || r == 0xA0 || r == 0x1680
    || 0x2000 <= r <= 0x200A || r == 0x2028 || r == 0x2029 || r == 0x202F || r == 0x205F || r == 0x3000
  }

  predicate AllDigits(s: string) {
    forall i :: 0 <= i < |s| ==> IsDigit(s[i])
  }

  function DigitVal(c: char): (d: nat)
    requires IsDigit(c)
    ensures d < 10
  {
    c as int - '0' as int
  }

  function DigitChar(d: nat): (c: char)
    requires d < 10
    ensures IsDigit(c) && DigitVal(c) == d
  {
    ('0' as int + d) as char
  }

  // ---------- printing ----------

  /** The decimal digits of n, no leading zero. */
  function Dec(n: nat): (s: string)
    ensures 1 <= |s| && AllDigits(s)
  {
    if n < 10 then [DigitChar(n)] else Dec(n / 10) + [DigitChar(n % 10)]
  }

  /** Left-pads with zeros to the width w. */
  function Pad(s: string, w: nat): (r: string)
    ensures AllDigits(s) ==> AllDigits(r)
    ensures |r| >= |s| && |r| >= w
    decreases w - |s|
  {
    if |s| >= w then s else Pad("0" + s, w)
  }

  /** Sprintf("%0wd", n): the sign counts towards the width. */
  function FormatInt(n: int, w: nat): (s: string)
    ensures |s| > 0
  {
    if n < 0 then "-" + Pad(Dec(-n), if w == 0 then 0 else w - 1) else Pad(Dec(n), w)
  }

  // ---------- scanning ----------

  /** The number a digit string denotes. */
  function Value(ds: string): nat
    requires AllDigits(ds)
  {
    if ds == [] then 0 else Value(ds[..|ds| - 1]) * 10 + DigitVal(ds[|ds| - 1])
  }

  /** How many leading characters are digits. */
  function DigitRun(s: string): (k: nat)
    ensures k <= |s| && AllDigits(s[..k])
    ensures k < |s| ==> !IsDigit(s[k])
  {
    if s == [] || !IsDigit(s[0]) then 0 else
    var k := 1 + DigitRun(s[1..]);
    assert forall i :: 1 <= i < k ==> s[i] == s[1..][i - 1];
    k
  }

  /** Skips blanks. A newline is an error: Sscanf does not take it as a space. */
  function SkipSpace(s: string): Option<string> {
    if s == [] then Some(s)
    else if s[0] == '\n' then None
    else if IsSpace(s[0]) then SkipSpace(s[1..])
    else Some(s)
  }

  /** Unsigned digits, at least one; returns the value and the rest of the input. */
  function ScanDigits(s: string): Option<(nat, string)> {
    var k := DigitRun(s);
    if k == 0 then None else Some((Value(s[..k]), s[k..]))
  }

  /** %d into a 64-bit integer: blanks, an optional sign, digits, and no overflow. */
  function ScanInt(s: string): (r: Option<(int, string)>)
    ensures r.Some? ==> IsInt64(r.value.0)
  {
    match SkipSpace(s)
    case None => None
    case Some(t) =>
      var negative := t != [] && t[0] == '-';
      var signed := t != [] && (t[0] == '-' || t[0] == '+');
      match ScanDigits(if signed then t[1..] else t)
      case None => None
      case Some((n, rest)) =>
        var v := if negative then 0 - n else n as int;
        if IsInt64(v) then Some((v, rest)) else None
  }

  /** A literal of the format: it must come next, character for character. */
  function Expect(s: string, lit: string): Option<string> {
    if lit <= s then Some(s[|lit|..]) else None
  }

  function WordRun(s: string): (k: nat)
    ensures k <= |s|
    ensures forall i :: 0 <= i < k ==> !IsSpace(s[i])
    ensures k < |s| ==> IsSpace(s[k])
  {
    if s == [] || IsSpace(s[0]) then 0 else
    var k := 1 + WordRun(s[1..]);
    assert forall i :: 1 <= i < k ==> s[i] == s[1..][i - 1];
    k
  }

  /** %s: blanks, then at least one non-blank character. */
  function ScanWord(s: string): Option<string> {
    match SkipSpace(s)
    case None => None
    case Some(t) => if t == [] then None else Some(t[..WordRun(t)])
  }

  // ---------- trimming ----------

  function TrimLeft(s: string): string {
    if s != [] && IsSpace(s[0]) then TrimLeft(s[1..]) else s
  }

  function TrimRight(s: string): string {
    if s != [] && IsSpace(s[|s| - 1]) then TrimRight(s[..|s| - 1]) else s
  }

  function TrimSpace(s: string): string {
    TrimRight(TrimLeft(s))
  }

  // ---------- what is printed is scanned back ----------

  lemma {:induction false} ValueOfDec(n: nat)
    ensures Value(Dec(n)) == n
  {
    if n >= 10 {
      ValueOfDec(n / 10);
      var ds := Dec(n / 10) + [DigitChar(n % 10)];
      assert ds[..|ds| - 1] == Dec(n / 10);
    } else {
      var ds := [DigitChar(n)];
      assert ds[..0] == [];
    }
  }

  lemma {:induction false} ValueOfZero(s: string)
    requires AllDigits(s)
    ensures AllDigits("0" + s) && Value("0" + s) == Value(s)
  {
    var z := "0" + s;
    if s == [] {
      assert z[..0] == [];
    } else {
      ValueOfZero(s[..|s| - 1]);
      assert z[..|z| - 1] == "0" + s[..|s| - 1];
    }
  }

  lemma {:induction false} ValueOfPad(s: string, w: nat)
    requires AllDigits(s)
    ensures Value(Pad(s, w)) == Value(s)
    decreases w - |s|
  {
    if |s| < w {
      ValueOfZero(s);
      ValueOfPad("0" + s, w);
    }
  }

  lemma {:induction false} DigitRunOf(ds: string, rest: string)
    requires AllDigits(ds)
    requires rest != [] ==> !IsDigit(rest[0])
    ensures DigitRun(ds + rest) == |ds|
  {
    if ds == [] {
      assert ds + rest == rest;
    } else {
      DigitRunOf(ds[1..], rest);
      assert (ds + rest)[1..] == ds[1..] + rest;
    }
  }

  lemma ScanDigitsOf(ds: string, rest: string)
    requires ds != [] && AllDigits(ds)
    requires rest != [] ==> !IsDigit(rest[0])
    ensures ScanDigits(ds + rest) == Some((Value(ds), rest))
  {
    DigitRunOf(ds, rest);
    assert (ds + rest)[..|ds|] == ds && (ds + rest)[|ds|..] == rest;
  }

  lemma MinusIsNoSpace()
    ensures !IsSpace('-')
  {
  }

  lemma ScanUnsigned(ds: string, rest: string)
    requires ds != [] && AllDigits(ds) && IsInt64(Value(ds))
    requires rest != [] ==> !IsDigit(rest[0])
    ensures ScanInt(ds + rest) == Some((Value(ds), rest))
  {
    ScanDigitsOf(ds, rest);
    assert IsDigit((ds + rest)[0]);
  }

  lemma ScanNegative(ds: string, rest: string)
    requires ds != [] && AllDigits(ds) && IsInt64(-(Value(ds) as int))
    requires rest != [] ==> !IsDigit(rest[0])
    ensures ScanInt("-" + ds + rest) == Some((-(Value(ds) as int), rest))
  {
    hide ScanDigits, IsSpace;
    ScanDigitsOf(ds, rest);
    var t := "-" + ds + rest;
    assert t[1..] == ds + rest;
    assert SkipSpace(t) == Some(t) by {
      MinusIsNoSpace();
    }
  }

  /** Every 64-bit integer, printed at any width and followed by a non-digit, is scanned back exactly. */
  lemma ScanPrinted(n: int, w: nat, rest: string)
    requires IsInt64(n)
    requires rest != [] ==> !IsDigit(rest[0])
    ensures ScanInt(FormatInt(n, w) + rest) == Some((n, rest))
  {
    if n < 0 {
      var w' := if w == 0 then 0 else w - 1;
      ValueOfDec(-n);
      ValueOfPad(Dec(-n), w');
      ScanNegative(Pad(Dec(-n), w'), rest);
    } else {
      ValueOfDec(n);
      ValueOfPad(Dec(n), w);
      ScanUnsigned(Pad(Dec(n), w), rest);
    }
  }

  lemma {:induction false} WordRunOf(s: string)
    requires forall i :: 0 <= i < |s| ==> !IsSpace(s[i])
    ensures WordRun(s) == |s|
  {
    if s != [] {
      WordRunOf(s[1..]);
    }
  }

  /** Text with no blank at either end survives trimming, with or without a final newline. */
  lemma TrimPrinted(s: string)
    requires s != [] && !IsSpace(s[0]) && !IsSpace(s[|s| - 1])
    ensures TrimSpace(s) == s && TrimSpace(s + "\n") == s
  {
    var t := s + "\n";
    assert TrimLeft(t) == t;
    assert t[|t| - 1] == '\n' && t[..|t| - 1] == s;
    assert TrimRight(t) == TrimRight(s) == s;
  }

  predicate AllSpace(s: string) {
    forall i :: 0 <= i < |s| ==> IsSpace(s[i])
  }

  lemma {:induction false} TrimLeftOf(pre: string, t: string)
    requires AllSpace(pre) && (t != [] ==> !IsSpace(t[0]))
    ensures TrimLeft(pre + t) == t
  {
    if pre == [] {
      assert pre + t == t;
    } else {
      TrimLeftOf(pre[1..], t);
      assert (pre + t)[1..] == pre[1..] + t;
    }
  }

  lemma {:induction false} TrimRightOf(t: string, post: string)
    requires AllSpace(post) && (t != [] ==> !IsSpace(t[|t| - 1]))
    ensures TrimRight(t + post) == t
  {
    if post == [] {
      assert t + post == t;
    } else {
      TrimRightOf(t, post[..|post| - 1]);
      assert (t + post)[..|t + post| - 1] == t + post[..|post| - 1];
    }
  }

  /** Trimming takes the blanks from both ends and nothing else. */
  lemma TrimExactly(pre: string, t: string, post: string)
    requires AllSpace(pre) && AllSpace(post) && t != [] && !IsSpace(t[0]) && !IsSpace(t[|t| - 1])
    ensures TrimSpace(pre + t + post) == t
  {
    assert pre + t + post == pre + (t + post);
    TrimLeftOf(pre, t + post);
    TrimRightOf(t, post);
  }

  lemma {:induction false} SkipSpaceOf(pre: string, t: string)
    requires AllSpace(pre) && '\n' !in pre && (t != [] ==> !IsSpace(t[0]))
    ensures SkipSpace(pre + t) == Some(t)
  {
    if pre == [] {
      assert pre + t == t;
    } else {
      assert pre[0] in pre;
      SkipSpaceOf(pre[1..], t);
      assert (pre + t)[1..] == pre[1..] + t && (pre + t)[0] == pre[0];
    }
  }

  /** Blanks other than newlines and a plus sign may stand before a number, a number that does not fit 64 bits
      is none. */
  lemma ScanSpelled(pre: string, n: nat, rest: string)
    requires AllSpace(pre) && '\n' !in pre && (rest != [] ==> !IsDigit(rest[0]))
    ensures ScanInt(pre + ("+" + (Dec(n) + rest))) == if IsInt64(n) then Some((n, rest)) else None
    ensures ScanInt(pre + (Dec(n) + rest)) == if IsInt64(n) then Some((n, rest)) else None
  {
    hide SkipSpace, ScanDigits, Dec;
    var t := Dec(n) + rest;
    ScanDigitsOf(Dec(n), rest);
    ValueOfDec(n);
    assert IsDigit(t[0]) && t[0] == Dec(n)[0];
    SkipSpaceOf(pre, "+" + t);
    assert ("+" + t)[1..] == t;
    SkipSpaceOf(pre, t);
  }
}
