/** The fragments of Go's `strings`, `strconv` and `path/filepath` packages that the
    modelled code is written with, and the facts about them the other modules build on.
    A string is a sequence of characters; every separator used by the code is ASCII. */
module Text {

  datatype Option<+T> = None | Some(value: T)

  // ---------------------------------------------------------------- split and join

  /** strings.Split for a one-character separator. */
  function Split(s: string, sep: char): (parts: seq<string>)
    ensures |parts| > 0
    ensures forall p | p in parts :: sep !in p
  {
    if s == "" then [""]
    else
      var rest := Split(s[1..], sep);
      if s[0] == sep then [""] + rest
      else [[s[0]] + rest[0]] + rest[1..]
  }

  /** strings.Join for a one-character separator. */
  function Join(parts: seq<string>, sep: char): string {
    if parts == [] then ""
    else if |parts| == 1 then parts[0]
    else parts[0] + [sep] + Join(parts[1..], sep)
  }

  /** Every line followed by its newline: what a builder holds after writing `lines`. */
  function Unlines(lines: seq<string>): string {
    if lines == [] then "" else lines[0] + "\n" + Unlines(lines[1..])
  }

  ghost predicate AllFree(parts: seq<string>, sep: char) {
    forall p | p in parts :: sep !in p
  }

  lemma {:induction false} JoinSplit(s: string, sep: char)
    ensures Join(Split(s, sep), sep) == s
  {
    if s != "" {
      var rest := Split(s[1..], sep);
      JoinSplit(s[1..], sep);
      if s[0] == sep {
        assert Split(s, sep)[1..] == rest;
      } else if |rest| > 1 {
        assert ([[s[0]] + rest[0]] + rest[1..])[1..] == rest[1..];
      }
    }
  }

  lemma {:induction false} SplitFree(s: string, sep: char)
    requires sep !in s
    ensures Split(s, sep) == [s]
  {
    if s != "" {
      SplitFree(s[1..], sep);
      assert [s[0]] + s[1..] == s;
    }
  }

  lemma {:induction false} SplitAtSeparator(a: string, sep: char, b: string)
    requires sep !in a
    ensures Split(a + [sep] + b, sep) == [a] + Split(b, sep)
  {
    var s := a + [sep] + b;
    if a == "" {
      assert s[1..] == b;
    } else {
      assert s[1..] == a[1..] + [sep] + b;
      SplitAtSeparator(a[1..], sep, b);
      var rest := Split(s[1..], sep);
      assert rest[0] == a[1..] && rest[1..] == Split(b, sep);
      assert [s[0]] + a[1..] == a;
    }
  }

  lemma {:induction false} SplitJoin(parts: seq<string>, sep: char)
    requires parts != [] && AllFree(parts, sep)
    ensures Split(Join(parts, sep), sep) == parts
  {
    if |parts| == 1 {
      SplitFree(parts[0], sep);
    } else {
      SplitAtSeparator(parts[0], sep, Join(parts[1..], sep));
      SplitJoin(parts[1..], sep);
    }
  }

  /** Joining is injective on separator-free, non-empty lists. */
  lemma JoinInjective(a: seq<string>, b: seq<string>, sep: char)
    requires a != [] && b != [] && AllFree(a, sep) && AllFree(b, sep)
    requires Join(a, sep) == Join(b, sep)
    ensures a == b
  {
    SplitJoin(a, sep);
    SplitJoin(b, sep);
  }

  /** Reading written lines back yields them, then the empty tail after the last newline. */
  lemma {:induction false} SplitUnlines(lines: seq<string>)
    requires AllFree(lines, '\n')
    ensures Split(Unlines(lines), '\n') == lines + [""]
  {
    if lines != [] {
      SplitAtSeparator(lines[0], '\n', Unlines(lines[1..]));
      assert lines[0] + ['\n'] + Unlines(lines[1..]) == Unlines(lines);
      SplitUnlines(lines[1..]);
    }
  }

  lemma {:induction false} UnlinesAppend(a: seq<string>, b: seq<string>)
    ensures Unlines(a + b) == Unlines(a) + Unlines(b)
  {
    if a == [] {
      assert a + b == b;
    } else {
      assert (a + b)[1..] == a[1..] + b;
      UnlinesAppend(a[1..], b);
    }
  }

  // ------------------------------------------------------------- prefixes and trimming

  predicate HasPrefix(s: string, prefix: string) {
    prefix <= s
  }

  predicate HasSuffix(s: string, suffix: string) {
    |suffix| <= |s| && s[|s| - |suffix|..] == suffix
  }

  function TrimPrefix(s: string, prefix: string): string {
    if HasPrefix(s, prefix) then s[|prefix|..] else s
  }

  function TrimSuffix(s: string, suffix: string): string {
    if HasSuffix(s, suffix) then s[..|s| - |suffix|] else s
  }

  /** unicode.IsSpace. */
  predicate IsSpace(c: char) {
    c == ' ' || '\t' <= c <= '\r' || c == '\U{85}' || c == '\U{A0}' || c == '\U{1680}'
    || '\U{2000}' <= c <= '\U{200A}' || c == '\U{2028}' || c == '\U{2029}' || c == '\U{202F}'
    || c == '\U{205F}' || c == '\U{3000}'
  }

  function TrimLeft(s: string): (t: string)
    ensures t == "" || !IsSpace(t[0])
  {
    if s != "" && IsSpace(s[0]) then TrimLeft(s[1..]) else s
  }

  function TrimRight(s: string): (t: string)
    ensures t == "" || !IsSpace(t[|t| - 1])
    ensures t <= s
  {
    if s != "" && IsSpace(s[|s| - 1]) then TrimRight(s[..|s| - 1]) else s
  }

  /** strings.TrimSpace. */
  function TrimSpace(s: string): string {
    TrimRight(TrimLeft(s))
  }

  lemma {:induction false} TrimRightAppend(a: string, b: string)
    requires a != "" && !IsSpace(a[|a| - 1])
    ensures TrimRight(a + b) == a + TrimRight(b)
  {
    if b != "" {
      assert (a + b)[|a + b| - 1] == b[|b| - 1];
      if IsSpace(b[|b| - 1]) {
        assert (a + b)[..|a + b| - 1] == a + b[..|b| - 1];
        TrimRightAppend(a, b[..|b| - 1]);
      }
    } else {
      assert a + b == a;
    }
  }

  // -------------------------------------------------------------------------- decimals

  function Digit(d: nat): (c: char)
    requires d < 10
    ensures IsDigit(c) && DigitValue(c) == d
  {
    ('0' as int + d) as char
  }

  predicate IsDigit(c: char) { '0' <= c <= '9' }

  function DigitValue(c: char): nat
    requires IsDigit(c)
  {
    c as int - '0' as int
  }

  ghost predicate AllDigits(s: string) {
    forall i | 0 <= i < |s| :: IsDigit(s[i])
  }

  /** The `%d` verb on a natural number. */
  function Dec(n: nat): (s: string)
    ensures |s| > 0 && AllDigits(s)
  {
    if n < 10 then [Digit(n)] else Dec(n / 10) + [Digit(n % 10)]
  }

  /** The `%d` verb on an integer. */
  function DecInt(n: int): string {
    if n < 0 then "-" + Dec(-n) else Dec(n)
  }

  /** The number a string of digits denotes. */
  function DecValue(s: string): nat
    requires AllDigits(s)
  {
    if s == "" then 0 else DecValue(s[..|s| - 1]) * 10 + DigitValue(s[|s| - 1])
  }

  lemma {:induction false} DecValueOfDec(n: nat)
    ensures DecValue(Dec(n)) == n
  {
    if n >= 10 {
      DecValueOfDec(n / 10);
      assert Dec(n)[..|Dec(n)| - 1] == Dec(n / 10);
    }
  }

  lemma DecInjective(a: nat, b: nat)
    requires Dec(a) == Dec(b)
    ensures a == b
  {
    DecValueOfDec(a);
    DecValueOfDec(b);
  }

  /** The number of leading digits of `s`. */
  function DigitRun(s: string): (n: nat)
    ensures n <= |s| && AllDigits(s[..n])
  {
    if s == "" || !IsDigit(s[0]) then 0 else 1 + DigitRun(s[1..])
  }

  const MAX_INT64: int := 0x7FFF_FFFF_FFFF_FFFF

  /** fmt.Sscanf(s, "%d", &n) into an int: leading blanks, an optional sign, then as many
      digits as follow; a number that does not fit 64 bits is an error and trailing text is not. */
  function ScanInt(s: string): Option<int> {
    var t := TrimLeft(s);
    var signed := t != "" && (t[0] == '-' || t[0] == '+');
    var digits := if signed then t[1..] else t;
    var n := DigitRun(digits);
    if n == 0 then None
    else
      var v: int := DecValue(digits[..n]);
      var value := if signed && t[0] == '-' then -v else v;
      if -MAX_INT64 - 1 <= value <= MAX_INT64 then Some(value) else None
  }

  lemma {:induction false} DigitRunOfDigits(s: string)
    requires AllDigits(s)
    ensures DigitRun(s) == |s|
  {
    if s != "" {
      DigitRunOfDigits(s[1..]);
    }
  }

  /** Scanning a printed number recovers it. */
  lemma ScanDec(n: nat)
    requires n <= MAX_INT64
    ensures ScanInt(Dec(n)) == Some(n)
  {
    var s := Dec(n);
    assert IsDigit(s[0]);
    DigitRunOfDigits(s);
    assert s[..|s|] == s;
    DecValueOfDec(n);
  }

  // ------------------------------------------------------------------ search and paths

  /** strings.Index: the first position of `pat` in `s`, or -1. */
  function Index(s: string, pat: string): (i: int)
    ensures -1 <= i <= |s|
    ensures i >= 0 ==> i + |pat| <= |s| && s[i..i + |pat|] == pat
  {
    if pat <= s then 0
    else if s == "" then -1
    else
      var i := Index(s[1..], pat);
      if i < 0 then -1 else i + 1
  }

  /** A pattern cannot start inside text that lacks the pattern's first character. */
  lemma {:induction false} IndexAfter(a: string, pat: string, b: string)
    requires pat != "" && pat[0] !in a
    ensures Index(a + pat + b, pat) == |a|
  {
    var s := a + pat + b;
    if a == "" {
      assert s == pat + b;
    } else {
      assert s[0] == a[0];
      assert s[1..] == a[1..] + pat + b;
      IndexAfter(a[1..], pat, b);
    }
  }

  /** filepath.Base. */
  function Base(path: string): string {
    if path == "" then "."
    else
      var p := TrimSlashes(path);
      if p == "" then "/" else AfterLastSlash(p)
  }

  function TrimSlashes(p: string): string {
    if p != "" && p[|p| - 1] == '/' then TrimSlashes(p[..|p| - 1]) else p
  }

  function AfterLastSlash(p: string): string {
    if '/' !in p then p else AfterLastSlash(p[1..])
  }

  lemma BaseOfFile(dir: string, file: string)
    requires file != "" && '/' !in file
    ensures Base(dir + "/" + file) == file
  {
    var p := dir + "/" + file;
    assert p[|p| - 1] == file[|file| - 1];
    AfterLastSlashOfFile(dir, file);
  }

  lemma {:induction false} AfterLastSlashOfFile(dir: string, file: string)
    requires '/' !in file
    ensures AfterLastSlash(dir + "/" + file) == file
  {
    var p := dir + "/" + file;
    assert p[|dir|] == '/';
    if dir == "" {
      assert p[1..] == file;
    } else {
      assert p[1..] == dir[1..] + "/" + file;
      AfterLastSlashOfFile(dir[1..], file);
    }
  }
}
