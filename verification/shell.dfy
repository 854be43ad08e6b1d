/** The `KEY='value' ... cmd` line sent to a new server (cmd/ownbasectl/create.go), read back with
    the quoting rules of the Shell Command Language, sections 2.2.1 (escape character) and 2.2.2
    (single quotes) of IEEE Std 1003.1-2017. */
module Shell {
  import opened Text

  // ---------------------------------------------------------------------------- the printer

  /** strings.ReplaceAll(s, "'", `'\''`). */
  function EscapeQuotes(s: string): string {
    if s == "" then ""
    else (if s[0] == '\'' then "'\\''" else [s[0]]) + EscapeQuotes(s[1..])
  }

  function ShellQuoteEnv(s: string): string {
    "'" + EscapeQuotes(s) + "'"
  }

  // ----------------------------------------------------------------------------- the reader

  datatype Word = Word(value: string, rest: string)

  predicate IsBlank(c: char) {
    c == ' ' || c == '\t' || c == '\n'
  }

  /** Characters that mean something to the shell when they are not quoted. */
  predicate IsSpecial(c: char) {
    c in {'|', '&', ';', '<', '>', '(', ')', '$', '`', '"', '*', '?', '[', '#', '~'}
  }

  function Prepend(prefix: string, w: Option<Word>): Option<Word> {
    if w.None? then None else Some(Word(prefix + w.value.value, w.value.rest))
  }

  /** Reads one word outside quotes, up to a blank or the end; None when a quote is left open or
      the word would be subject to expansion. */
  function ReadWord(s: string): Option<Word>
    decreases |s|
  {
    if s == "" || IsBlank(s[0]) then Some(Word("", s))
    else if s[0] == '\'' then ReadQuoted(s[1..])
    else if s[0] == '\\' then
      if |s| == 1 then None
      else if s[1] == '\n' then ReadWord(s[2..])
      else Prepend([s[1]], ReadWord(s[2..]))
    else if IsSpecial(s[0]) then None
    else Prepend([s[0]], ReadWord(s[1..]))
  }

  /** Reads inside single quotes, where nothing but the closing quote is special. */
  function ReadQuoted(s: string): Option<Word>
    decreases |s|
  {
    if s == "" then None
    else if s[0] == '\'' then ReadWord(s[1..])
    else Prepend([s[0]], ReadQuoted(s[1..]))
  }

  lemma ReadQuote(more: string)
    ensures ReadWord("'" + more) == ReadQuoted(more)
  {
    assert ("'" + more)[1..] == more;
  }

  /** An escaped quote outside quotes stands for itself. */
  lemma ReadEscapedQuote(more: string)
    ensures ReadWord("\\'" + more) == Prepend("'", ReadWord(more))
  {
    var s := "\\'" + more;
    assert s[0] == '\\' && s[1] == '\'';
    assert s[2..] == more;
  }

  /** Inside quotes, `'\''` stands for one quote: it closes, escapes and reopens. */
  lemma ReadReopened(more: string)
    ensures ReadQuoted("'\\''" + more) == Prepend("'", ReadQuoted(more))
  {
    var s := "'\\''" + more;
    assert s[1..] == "\\'" + ("'" + more);
    assert ReadQuoted(s) == ReadWord(s[1..]);
    ReadEscapedQuote("'" + more);
    ReadQuote(more);
  }

  lemma ReadPlainInQuotes(c: char, more: string)
    requires c != '\''
    ensures ReadQuoted([c] + more) == Prepend([c], ReadQuoted(more))
  {
    assert ([c] + more)[1..] == more;
  }

  lemma PrependTwice(a: string, b: string, w: Option<Word>)
    ensures Prepend(a, Prepend(b, w)) == Prepend(a + b, w)
  {
    if w.Some? {
      assert a + (b + w.value.value) == (a + b) + w.value.value;
    }
  }

  lemma {:induction false} ReadEscaped(v: string, rest: string)
    ensures ReadQuoted(EscapeQuotes(v) + ("'" + rest)) == Prepend(v, ReadWord(rest))
  {
    hide ReadWord;
    if v == "" {
      assert EscapeQuotes(v) + ("'" + rest) == "'" + rest;
      assert ("'" + rest)[1..] == rest;
      assert ReadQuoted("'" + rest) == ReadWord(rest);
      assert ReadWord(rest).Some? ==> "" + ReadWord(rest).value.value == ReadWord(rest).value.value;
    } else {
      var more := EscapeQuotes(v[1..]) + ("'" + rest);
      var first := if v[0] == '\'' then "'\\''" else [v[0]];
      assert EscapeQuotes(v) + ("'" + rest) == first + more;
      ReadEscaped(v[1..], rest);
      if v[0] == '\'' {
        ReadReopened(more);
      } else {
        ReadPlainInQuotes(v[0], more);
      }
      PrependTwice([v[0]], v[1..], ReadWord(rest));
      assert [v[0]] + v[1..] == v;
    }
  }

  /** A quoted value is read back as the one word it was, whatever it contains. */
  lemma QuoteRoundTrip(v: string, rest: string)
    requires rest == "" || IsBlank(rest[0])
    ensures ReadWord(ShellQuoteEnv(v) + rest) == Some(Word(v, rest))
  {
    hide ReadQuoted;
    var more := EscapeQuotes(v) + ("'" + rest);
    assert ShellQuoteEnv(v) + rest == "'" + more;
    ReadQuote(more);
    ReadEscaped(v, rest);
    assert ReadWord(rest) == Some(Word("", rest));
    assert v + "" == v;
  }

  // -------------------------------------------------------------------- whole command lines

  predicate IsNameStart(c: char) {
    'a' <= c <= 'z' || 'A' <= c <= 'Z' || c == '_'
  }

  predicate IsNameChar(c: char) {
    IsNameStart(c) || '0' <= c <= '9'
  }

  predicate IsName(s: string) {
    s != "" && IsNameStart(s[0]) && forall i | 0 <= i < |s| :: IsNameChar(s[i])
  }

  /** The length of the run of name characters at the start. */
  function NameLength(s: string): (n: nat)
    ensures n <= |s|
  {
    if s == "" || !IsNameChar(s[0]) then 0 else 1 + NameLength(s[1..])
  }

  datatype Assignment = Assignment(name: string, value: string, rest: string)

  /** An assignment word at the start of `s`. */
  function ReadAssignment(s: string): (a: Option<Assignment>) {
    var n := NameLength(s);
    if n == 0 || !IsNameStart(s[0]) || n == |s| || s[n] != '=' then None
    else
      var w := ReadWord(s[n + 1..]);
      if w.None? then None else Some(Assignment(s[..n], w.value.value, w.value.rest))
  }

  function SkipBlanks(s: string): (t: string)
    ensures |t| <= |s|
  {
    if s != "" && IsBlank(s[0]) then SkipBlanks(s[1..]) else s
  }

  lemma {:induction false} ReadWordShrinks(s: string)
    ensures ReadWord(s).Some? ==> |ReadWord(s).value.rest| <= |s|
    ensures ReadQuoted(s).Some? ==> |ReadQuoted(s).value.rest| <= |s|
    decreases |s|
  {
    if s != "" {
      ReadWordShrinks(s[1..]);
      if |s| > 1 {
        ReadWordShrinks(s[2..]);
      }
    }
  }

  datatype Command = Command(env: map<string, string>, text: string)

  /** A simple command: its leading assignments, a later one overriding an earlier, and the rest. */
  function ReadCommand(s: string): Command
    decreases |s|
  {
    var t := SkipBlanks(s);
    var a := ReadAssignment(t);
    if a.None? then Command(map[], t)
    else
      ReadWordShrinks(t[NameLength(t) + 1..]);
      var more := ReadCommand(a.value.rest);
      Command(map[a.value.name := a.value.value] + more.env, more.text)
  }

  function Printed(name: string, value: string): string {
    name + "=" + ShellQuoteEnv(value) + " "
  }

  lemma {:induction false} NameLengthOfName(name: string, rest: string)
    requires forall i | 0 <= i < |name| :: IsNameChar(name[i])
    requires rest != "" && !IsNameChar(rest[0])
    ensures NameLength(name + rest) == |name|
  {
    if name == "" {
      assert name + rest == rest;
    } else {
      assert (name + rest)[1..] == name[1..] + rest;
      NameLengthOfName(name[1..], rest);
    }
  }

  lemma SkipOneBlank(t: string)
    ensures ReadCommand(" " + t) == ReadCommand(t)
  {
    hide ReadAssignment, ReadWord, ReadQuoted;
    assert (" " + t)[1..] == t;
    assert SkipBlanks(" " + t) == SkipBlanks(t);
  }

  /** What ReadCommand does with a line that starts with an assignment. */
  lemma ReadOne(s: string)
    requires s != "" && !IsBlank(s[0]) && ReadAssignment(s).Some?
    ensures |ReadAssignment(s).value.rest| < |s|
    ensures var a := ReadAssignment(s).value; var more := ReadCommand(a.rest);
      ReadCommand(s) == Command(map[a.name := a.value] + more.env, more.text)
  {
    hide ReadWord, ReadQuoted, NameLength;
    ReadWordShrinks(s[NameLength(s) + 1..]);
    assert SkipBlanks(s) == s;
  }

  lemma ReadPrintedAssignment(name: string, value: string, t: string)
    requires IsName(name)
    ensures ReadAssignment(Printed(name, value) + t) == Some(Assignment(name, value, " " + t))
  {
    hide ReadWord, ReadQuoted, NameLength, ShellQuoteEnv;
    var s := Printed(name, value) + t;
    var quoted := ShellQuoteEnv(value) + (" " + t);
    assert s == name + ("=" + quoted);
    NameLengthOfName(name, "=" + quoted);
    QuoteRoundTrip(value, " " + t);
    assert s[0] == name[0] && s[|name|] == '=';
    assert s[..|name|] == name && s[|name| + 1..] == quoted;
  }

  lemma ReadPrinted(name: string, value: string, t: string)
    requires IsName(name)
    ensures var more := ReadCommand(t);
      ReadCommand(Printed(name, value) + t) == Command(map[name := value] + more.env, more.text)
  {
    assert (Printed(name, value) + t)[0] == name[0];
    hide ReadCommand, ReadAssignment, Printed;
    ReadPrintedAssignment(name, value, t);
    ReadOne(Printed(name, value) + t);
    SkipOneBlank(t);
  }

  lemma {:induction false} TextShrinks(s: string)
    ensures |ReadCommand(s).text| <= |s|
    decreases |s|
  {
    hide ReadAssignment, ReadWord, ReadQuoted;
    var t := SkipBlanks(s);
    if ReadAssignment(t).Some? {
      SkippedBlanks(s);
      AssignmentNotEmpty(t);
      ReadOne(t);
      TextShrinks(ReadAssignment(t).value.rest);
    }
  }

  lemma AssignmentNotEmpty(t: string)
    requires ReadAssignment(t).Some?
    ensures t != ""
  {
  }

  lemma {:induction false} SkippedBlanks(s: string)
    ensures var t := SkipBlanks(s); t == "" || !IsBlank(t[0])
    ensures SkipBlanks(SkipBlanks(s)) == SkipBlanks(s)
  {
    if s != "" && IsBlank(s[0]) {
      SkippedBlanks(s[1..]);
    }
  }

  /** The command begins with neither a blank nor an assignment of its own. */
  predicate StartsPlainly(cmd: string) {
    (cmd == "" || !IsBlank(cmd[0])) && ReadAssignment(cmd).None?
  }

  /** Those are exactly the commands that are read as their own text. */
  lemma StartsPlainlyMeans(cmd: string)
    ensures StartsPlainly(cmd) <==> ReadCommand(cmd).text == cmd
    ensures StartsPlainly(cmd) ==> ReadCommand(cmd) == Command(map[], cmd)
  {
    hide ReadAssignment, ReadWord, ReadQuoted;
    if cmd != "" && IsBlank(cmd[0]) {
      var t := SkipBlanks(cmd[1..]);
      SkippedBlanks(cmd);
      assert SkipBlanks(cmd) == t && |t| < |cmd|;
      assert ReadCommand(cmd) == ReadCommand(t);
      TextShrinks(t);
    } else if ReadAssignment(cmd).Some? {
      AssignmentNotEmpty(cmd);
      ReadOne(cmd);
      TextShrinks(ReadAssignment(cmd).value.rest);
    } else {
      assert SkipBlanks(cmd) == cmd;
    }
  }

  /** One more printed assignment in front of what is already read. */
  lemma PrintedAfter(before: string, done: map<string, string>, name: string, value: string, t: string)
    requires IsName(name)
    requires var s := Printed(name, value) + t;
      ReadCommand(before + s) == Command(done + ReadCommand(s).env, ReadCommand(s).text)
    ensures before + Printed(name, value) + t == before + (Printed(name, value) + t)
    ensures ReadCommand(before + Printed(name, value) + t)
      == Command(done[name := value] + ReadCommand(t).env, ReadCommand(t).text)
  {
    hide ReadCommand, Printed;
    assert before + Printed(name, value) + t == before + (Printed(name, value) + t);
    ReadPrinted(name, value, t);
    assert done + (map[name := value] + ReadCommand(t).env) == done[name := value] + ReadCommand(t).env;
  }

  /** Reading the printed line back gives the environment and the command, exactly when the command
      begins with neither a blank nor an assignment. */
  lemma EnvRoundTrip(env: map<string, string>, cmd: string, line: string)
    requires ReadCommand(line) == Command(env + ReadCommand(cmd).env, ReadCommand(cmd).text)
    ensures ReadCommand(line) == Command(env, cmd) <==> StartsPlainly(cmd)
  {
    hide ReadCommand, StartsPlainly;
    StartsPlainlyMeans(cmd);
    assert env + map[] == env;
  }

  /** The names are ones a shell accepts as variables, as those the program passes are. */
  ghost predicate AllNames(env: map<string, string>) {
    forall k | k in env :: IsName(k)
  }

  /** envPrefixedCommand, for any iteration order of the map: whatever the command is, reading the
      line yields the environment, overridden by any assignments the command itself begins with. */
  method EnvPrefixedCommand(env: map<string, string>, cmd: string) returns (line: string)
    ensures AllNames(env) ==>
      ReadCommand(line) == Command(env + ReadCommand(cmd).env, ReadCommand(cmd).text)
    ensures AllNames(env) ==> (ReadCommand(line) == Command(env, cmd) <==> StartsPlainly(cmd))
  {
    hide ReadCommand, Printed, IsName, StartsPlainly;
    var b := "";
    var rest := env.Keys;
    ghost var done: map<string, string> := map[];
    forall t ensures ReadCommand(b + t) == Command(done + ReadCommand(t).env, ReadCommand(t).text) {
      assert b + t == t;
    }
    while rest != {}
      invariant rest <= env.Keys && done == map k | k in env && k !in rest :: env[k]
      invariant AllNames(env) ==>
        forall t :: ReadCommand(b + t) == Command(done + ReadCommand(t).env, ReadCommand(t).text)
    {
      var k :| k in rest;
      var v := env[k];
      ghost var before, soFar := b, done;
      b := b + Printed(k, v);
      rest := rest - {k};
      done := done[k := v];
      forall t | AllNames(env)
        ensures ReadCommand(b + t) == Command(done + ReadCommand(t).env, ReadCommand(t).text)
      {
        PrintedAfter(before, soFar, k, v, t);
      }
    }
    assert done == env;
    line := b + cmd;
    if AllNames(env) {
      EnvRoundTrip(env, cmd, line);
    }
  }
}
