/** The text-preserving edit of the `core.backup:` block of ownbase.yaml
    (internal/backup/configure.go), and the laws it keeps: the last set wins, and nothing outside
    the block moves. When what was set is what is read is in YamlReader. */
module YamlEdit {
  import opened Text

  // ------------------------------------------------------- the scanning helpers as values

  function Spaces(n: nat): (s: string)
    ensures |s| == n
  {
    if n == 0 then "" else " " + Spaces(n - 1)
  }

  /** The number of leading blanks on a line. */
  function IndentOf(line: string): (n: nat)
    ensures n <= |line|
  {
    if line == "" || line[0] != ' ' then 0 else 1 + IndentOf(line[1..])
  }

  /** Blank lines and comments never end a block. */
  predicate IsSkipped(line: string) {
    var n := IndentOf(line);
    n == |line| || line[n] == '#'
  }

  predicate EndsBlock(line: string, headerIndent: nat) {
    !IsSkipped(line) && IndentOf(line) <= headerIndent
  }

  /** How many of the lines after a header belong to its block. */
  function BlockLength(lines: seq<string>, headerIndent: nat): (n: nat)
    ensures n <= |lines|
  {
    if lines == [] || EndsBlock(lines[0], headerIndent) then 0
    else 1 + BlockLength(lines[1..], headerIndent)
  }

  /** The first line that starts with `prefix`, or -1. */
  function FindPrefix(lines: seq<string>, prefix: string): (i: int)
    ensures -1 <= i < |lines|
  {
    if lines == [] then -1
    else if HasPrefix(lines[0], prefix) then 0
    else
      var i := FindPrefix(lines[1..], prefix);
      if i < 0 then -1 else i + 1
  }

  /** `i` is the position of the first line that starts with `prefix`, or -1. */
  ghost predicate IsFirst(lines: seq<string>, prefix: string, i: int) {
    && -1 <= i < |lines|
    && (i >= 0 ==> HasPrefix(lines[i], prefix))
    && forall j | 0 <= j < (if i < 0 then |lines| else i) :: !HasPrefix(lines[j], prefix)
  }

  lemma {:induction false} FindPrefixFinds(lines: seq<string>, prefix: string)
    ensures IsFirst(lines, prefix, FindPrefix(lines, prefix))
  {
    if lines != [] {
      FindPrefixFinds(lines[1..], prefix);
      var i := FindPrefix(lines, prefix);
      forall j | 0 < j < (if i < 0 then |lines| else i) ensures !HasPrefix(lines[j], prefix) {
        assert lines[j] == lines[1..][j - 1];
      }
    }
  }

  lemma FindPrefixUnique(lines: seq<string>, prefix: string, i: int)
    requires IsFirst(lines, prefix, i)
    ensures FindPrefix(lines, prefix) == i
  {
    FindPrefixFinds(lines, prefix);
  }

  lemma {:induction false} BlockLengthEnds(lines: seq<string>, headerIndent: nat)
    ensures var n := BlockLength(lines, headerIndent);
      && NoneEnd(lines[..n], headerIndent)
      && (lines[n..] == [] || EndsBlock(lines[n..][0], headerIndent))
  {
    if lines != [] && !EndsBlock(lines[0], headerIndent) {
      var n := BlockLength(lines, headerIndent);
      BlockLengthEnds(lines[1..], headerIndent);
      assert lines[..n] == [lines[0]] + lines[1..][..n - 1];
      assert lines[n..] == lines[1..][n - 1..];
    }
  }

  const CORE := "core:"
  const BACKUP := "  backup:"

  /** The four fields the edit knows, as the keys they are written under. */
  datatype Field = Repo | Interval | VerifyInterval | AppendOnly {
    function Prefix(): (p: string)
      ensures |p| > 4 && p[..4] == "    " && p[4] == Initial()
    {
      match this
      case Repo => "    repo:"
      case Interval => "    interval:"
      case VerifyInterval => "    verify_interval:"
      case AppendOnly => "    append_only:"
    }

    function Key(): string {
      match this
      case Repo => "repo"
      case Interval => "interval"
      case VerifyInterval => "verify_interval"
      case AppendOnly => "append_only"
    }

    /** No two keys share a first letter, so no line carries two of them. */
    function Initial(): char {
      match this
      case Repo => 'r'
      case Interval => 'i'
      case VerifyInterval => 'v'
      case AppendOnly => 'a'
    }
  }

  function FieldLine(field: Field, value: string): string {
    field.Prefix() + " " + value
  }

  datatype Setting = Setting(field: Field, value: string)

  /** The arguments of one edit. */
  datatype Request = Request(repo: string, interval: string, verifyInterval: string, appendOnly: Option<bool>) {
    /** The fields this request writes, in the order it writes them. */
    function Settings(): seq<Setting> {
      [Setting(Repo, repo)] + FromInterval()
    }

    function FromInterval(): seq<Setting> {
      if interval != "" then [Setting(Interval, interval)] + FromVerify() else FromVerify()
    }

    function FromVerify(): seq<Setting> {
      if verifyInterval != "" then [Setting(VerifyInterval, verifyInterval)] + FromAppendOnly() else FromAppendOnly()
    }

    function FromAppendOnly(): seq<Setting> {
      if appendOnly.Some? then [Setting(AppendOnly, if appendOnly.value then "true" else "false")] else []
    }

    ghost predicate NewlineFree() {
      forall s | s in Settings() :: '\n' !in s.value
    }
  }

  // ------------------------------------------------------------ the edit as a function

  /** The block with one field replaced where it first occurs, or appended. */
  function SetField(body: seq<string>, s: Setting): (out: seq<string>) {
    var i := FindPrefix(body, s.field.Prefix());
    if i < 0 then body + [FieldLine(s.field, s.value)] else body[i := FieldLine(s.field, s.value)]
  }

  function SetAll(body: seq<string>, settings: seq<Setting>): seq<string>
    decreases |settings|
  {
    if settings == [] then body else SetAll(SetField(body, settings[0]), settings[1..])
  }

  lemma WithCoreFound(lines: seq<string>, padded: seq<string>)
    requires FindPrefix(lines, CORE) < 0 && (padded == lines || padded == lines + [""])
    ensures FindPrefix(padded + [CORE], CORE) == |padded|
  {
    if padded == lines {
      FindPrefixConcat(lines, [CORE], CORE);
    } else {
      assert padded + [CORE] == lines + ["", CORE];
      FindPrefixConcat(lines, ["", CORE], CORE);
    }
  }

  function WithCore(lines: seq<string>): (out: seq<string>)
    requires lines != []
    ensures FindPrefix(out, CORE) >= 0
  {
    if FindPrefix(lines, CORE) >= 0 then lines
    else
      var padded := if TrimSpace(lines[|lines| - 1]) != "" then lines + [""] else lines;
      WithCoreFound(lines, padded);
      padded + [CORE]
  }

  /** The lines after the core: header that belong to it. */
  function CoreBlock(lines: seq<string>): seq<string>
    requires FindPrefix(lines, CORE) >= 0
  {
    var rest := lines[FindPrefix(lines, CORE) + 1..];
    rest[..BlockLength(rest, 0)]
  }

  predicate HasBackup(lines: seq<string>) {
    FindPrefix(lines, CORE) >= 0 && FindPrefix(CoreBlock(lines), BACKUP) >= 0
  }

  function WithBackup(lines: seq<string>): seq<string>
    requires FindPrefix(lines, CORE) >= 0
  {
    if HasBackup(lines) then lines
    else
      var end := FindPrefix(lines, CORE) + 1 + |CoreBlock(lines)|;
      lines[..end] + [BACKUP] + lines[end..]
  }

  predicate NoneEnd(lines: seq<string>, headerIndent: nat) {
    forall i | 0 <= i < |lines| :: !EndsBlock(lines[i], headerIndent)
  }

  /** A document cut around its core.backup: block. */
  datatype Cut = Cut(outer: seq<string>, core: string, siblings: seq<string>, backup: string,
                     body: seq<string>, after: seq<string>)
  {
    function Head(): seq<string> {
      outer + [core] + siblings + [backup]
    }

    function Lines(): seq<string> {
      outer + ([core] + (siblings + ([backup] + (body + after))))
    }

    /** `core` is the first core: line, `backup` its first backup: child, and `body` exactly
        that child's block. */
    ghost predicate Valid() {
      && FindPrefix(outer, CORE) < 0 && HasPrefix(core, CORE)
      && NoneEnd(siblings, 0) && FindPrefix(siblings, BACKUP) < 0 && HasPrefix(backup, BACKUP)
      && NoneEnd(body, 2)
      && (after == [] || EndsBlock(after[0], 2))
    }
  }

  /** The first and the one-past-last line of the backup: block. */
  function BlockStart(lines: seq<string>): (start: nat)
    requires HasBackup(lines)
    ensures start <= |lines|
  {
    FindPrefix(lines, CORE) + FindPrefix(CoreBlock(lines), BACKUP) + 2
  }

  function BlockEnd(lines: seq<string>): (end: nat)
    requires HasBackup(lines)
    ensures BlockStart(lines) <= end <= |lines|
  {
    BlockStart(lines) + BlockLength(lines[BlockStart(lines)..], 2)
  }

  function CutAt(lines: seq<string>): (cut: Cut)
    requires HasBackup(lines)
  {
    var c, start, end := FindPrefix(lines, CORE), BlockStart(lines), BlockEnd(lines);
    Cut(lines[..c], lines[c], lines[c + 1..start - 1], lines[start - 1], lines[start..end], lines[end..])
  }

  lemma BlockBounds(lines: seq<string>)
    requires HasBackup(lines)
    ensures var c, start, end := FindPrefix(lines, CORE), BlockStart(lines), BlockEnd(lines);
      0 <= c && c + 2 <= start <= end <= |lines| && end == start + BlockLength(lines[start..], 2)
  {
    hide EndsBlock, HasPrefix, BlockLength, FindPrefix, CoreBlock;
  }

  lemma CutAtIs(lines: seq<string>)
    requires HasBackup(lines)
    ensures var c, start, end := FindPrefix(lines, CORE), BlockStart(lines), BlockEnd(lines);
      && 0 <= c && c + 2 <= start <= end <= |lines| && end == start + BlockLength(lines[start..], 2)
      && CutAt(lines)
           == Cut(lines[..c], lines[c], lines[c + 1..start - 1], lines[start - 1], lines[start..end], lines[end..])
  {
    BlockBounds(lines);
    hide EndsBlock, HasPrefix, BlockLength, FindPrefix, CoreBlock, BlockStart, BlockEnd, HasBackup;
  }

  lemma CutAtShape(lines: seq<string>)
    requires HasBackup(lines)
    ensures CutAt(lines).Lines() == lines
  {
    hide *;
    CutAtIs(lines);
    CutShape(lines, FindPrefix(lines, CORE), BlockStart(lines) - FindPrefix(lines, CORE) - 2, BlockEnd(lines));
  }

  lemma CutAtValid(lines: seq<string>)
    requires HasBackup(lines)
    ensures CutAt(lines).Valid()
  {
    hide EndsBlock, HasPrefix, BlockLength, FindPrefix;
    CutPartsValid(lines, FindPrefix(lines, CORE), BlockStart(lines), BlockEnd(lines));
  }

  lemma CutPartsValid(lines: seq<string>, c: nat, start: nat, end: nat)
    requires c + 1 < start <= end <= |lines| && FindPrefix(lines, CORE) == c
    requires var inner := lines[c + 1..]; FindPrefix(inner[..BlockLength(inner, 0)], BACKUP) == start - c - 2
    requires end == start + BlockLength(lines[start..], 2)
    ensures
      Cut(lines[..c], lines[c], lines[c + 1..start - 1], lines[start - 1], lines[start..end], lines[end..]).Valid()
  {
    hide EndsBlock, FindPrefix, BlockLength, HasPrefix;
    FoundPrefix(lines, CORE);
    BackupFound(lines, c, start - 1);
    BlockBody(lines, start);
  }

  lemma BackupFound(lines: seq<string>, c: nat, b: nat)
    requires c < b < |lines|
    requires var inner := lines[c + 1..]; FindPrefix(inner[..BlockLength(inner, 0)], BACKUP) == b - c - 1
    ensures HasPrefix(lines[b], BACKUP) && FindPrefix(lines[c + 1..b], BACKUP) == -1
    ensures NoneEnd(lines[c + 1..b], 0)
  {
    PrefixOfBlock(lines[c + 1..], b - c - 1);
    SliceOfSlice(lines, c + 1, b - c - 1);
  }

  lemma BlockBody(lines: seq<string>, start: nat)
    requires start <= |lines|
    ensures var end := start + BlockLength(lines[start..], 2);
      NoneEnd(lines[start..end], 2) && (lines[end..] == [] || EndsBlock(lines[end..][0], 2))
  {
    BlockLengthEnds(lines[start..], 2);
    SliceOfSlice(lines, start, BlockLength(lines[start..], 2));
  }

  lemma CutShape(lines: seq<string>, c: nat, i: nat, end: nat)
    requires c + i + 2 <= end <= |lines|
    ensures Cut(lines[..c], lines[c], lines[c + 1..c + 1 + i], lines[c + 1 + i],
                lines[c + i + 2..end], lines[end..]).Lines() == lines
  {
    var inner, rest := lines[c + 1..], lines[c + 2 + i..];
    Around(lines, c);
    AroundFrom(lines, c + 1, c + 1 + i);
    SplitInTwo(lines, c + i + 2, end);
    assert rest == lines[c + i + 2..end] + lines[end..];
    assert inner == lines[c + 1..c + 1 + i] + ([lines[c + 1 + i]] + rest);
  }

  lemma AroundFrom<T>(s: seq<T>, a: nat, b: nat)
    requires a <= b < |s|
    ensures s[a..] == s[a..b] + ([s[b]] + s[b + 1..])
  {
  }

  lemma SplitInTwo<T>(s: seq<T>, i: nat, j: nat)
    requires i <= j <= |s|
    ensures s[i..] == s[i..j] + s[j..]
  {
  }

  lemma CutSlices(cut: Cut)
    ensures var lines, c, i := cut.Lines(), |cut.outer|, |cut.siblings|;
      var start := c + i + 2;
      var end := start + |cut.body|;
      && end <= |lines|
      && lines[..c] == cut.outer && lines[c] == cut.core
      && lines[c + 1..c + 1 + i] == cut.siblings && lines[c + 1 + i] == cut.backup
      && lines[start..end] == cut.body && lines[end..] == cut.after
      && lines[start..] == cut.body + cut.after
  {
    var rest := cut.body + cut.after;
    var inner := cut.siblings + ([cut.backup] + rest);
    var lines := cut.Lines();
    assert lines[|cut.outer| + 1..] == inner;
    SliceOfSlice(lines, |cut.outer| + 1, |cut.siblings|);
    SliceOfSlice(lines, |cut.outer| + 1, |cut.siblings| + 1);
    assert inner[|cut.siblings| + 1..] == rest;
    SliceOfSlice(lines, |cut.outer| + |cut.siblings| + 2, |cut.body|);
  }

  lemma SliceOfSlice(lines: seq<string>, start: nat, n: nat)
    requires start + n <= |lines|
    ensures lines[start..][..n] == lines[start..start + n] && lines[start..][n..] == lines[start + n..]
  {
  }

  lemma Around<T>(s: seq<T>, i: nat)
    requires i < |s|
    ensures s == s[..i] + ([s[i]] + s[i + 1..])
  {
  }

  lemma FoundPrefix(lines: seq<string>, prefix: string)
    requires FindPrefix(lines, prefix) >= 0
    ensures var i := FindPrefix(lines, prefix);
      HasPrefix(lines[i], prefix) && FindPrefix(lines[..i], prefix) == -1
  {
    FindPrefixFinds(lines, prefix);
    FindPrefixUnique(lines[..FindPrefix(lines, prefix)], prefix, -1);
  }

  lemma PrefixOfBlock(inner: seq<string>, i: nat)
    requires FindPrefix(inner[..BlockLength(inner, 0)], BACKUP) == i
    ensures HasPrefix(inner[i], BACKUP) && FindPrefix(inner[..i], BACKUP) == -1
    ensures NoneEnd(inner[..i], 0)
  {
    var core := inner[..BlockLength(inner, 0)];
    FoundPrefix(core, BACKUP);
    BlockLengthEnds(inner, 0);
    assert core[i] == inner[i] && core[..i] == inner[..i];
  }

  /** The document with both headers present. */
  function Prepared(lines: seq<string>): (out: seq<string>)
    requires lines != []
    ensures HasBackup(out)
  {
    WithBackupPrepares(WithCore(lines));
    WithBackup(WithCore(lines))
  }

  function EditBlock(lines: seq<string>, settings: seq<Setting>): seq<string>
    requires HasBackup(lines)
  {
    var start, end := BlockStart(lines), BlockEnd(lines);
    lines[..start] + SetAll(lines[start..end], settings) + lines[end..]
  }

  function EditLines(lines: seq<string>, settings: seq<Setting>): seq<string>
    requires lines != []
  {
    EditBlock(Prepared(lines), settings)
  }

  /** SetCoreBackupConfig as a function of the document and the request. */
  function EditText(text: string, r: Request): string {
    Join(EditLines(Split(text, '\n'), r.Settings()), '\n')
  }

  lemma {:induction false} FindPrefixConcat(a: seq<string>, b: seq<string>, prefix: string)
    requires FindPrefix(a, prefix) < 0
    ensures FindPrefix(a + b, prefix) == if FindPrefix(b, prefix) < 0 then -1 else |a| + FindPrefix(b, prefix)
  {
    if a == [] {
      assert a + b == b;
    } else {
      assert (a + b)[1..] == a[1..] + b;
      FindPrefixConcat(a[1..], b, prefix);
    }
  }

  lemma {:induction false} BlockLengthConcat(a: seq<string>, b: seq<string>, headerIndent: nat)
    requires NoneEnd(a, headerIndent)
    ensures BlockLength(a + b, headerIndent) == |a| + BlockLength(b, headerIndent)
  {
    if a == [] {
      assert a + b == b;
    } else {
      assert (a + b)[1..] == a[1..] + b;
      BlockLengthConcat(a[1..], b, headerIndent);
    }
  }

  lemma BackupLineInCore(line: string)
    requires HasPrefix(line, BACKUP)
    ensures !EndsBlock(line, 0)
  {
    assert line[0] == BACKUP[0];
  }

  /** A header line found after lines that lack it, inside a block that has not ended. */
  lemma LocateCore(outer: seq<string>, core: string, inner: seq<string>)
    requires FindPrefix(outer, CORE) < 0 && HasPrefix(core, CORE)
    ensures var lines := outer + ([core] + inner);
      FindPrefix(lines, CORE) == |outer| && lines[|outer| + 1..] == inner
  {
    FindPrefixConcat(outer, [core] + inner, CORE);
  }

  lemma FindPrefixHead(line: string, rest: seq<string>, prefix: string)
    requires HasPrefix(line, prefix)
    ensures FindPrefix([line] + rest, prefix) == 0
  {
  }

  lemma LocateBackup(siblings: seq<string>, backup: string, rest: seq<string>)
    requires NoneEnd(siblings, 0) && FindPrefix(siblings, BACKUP) < 0 && HasPrefix(backup, BACKUP)
    ensures var inner := siblings + ([backup] + rest);
      FindPrefix(inner[..BlockLength(inner, 0)], BACKUP) == |siblings|
  {
    hide EndsBlock, HasPrefix, FindPrefix, BlockLength, BACKUP;
    BackupLineInCore(backup);
    BlockLengthConcat(siblings, [backup] + rest, 0);
    BlockLengthConcat([backup], rest, 0);
    var inner, n := siblings + ([backup] + rest), BlockLength(rest, 0);
    assert inner[..|siblings| + 1 + n] == siblings + ([backup] + rest[..n]);
    FindPrefixHead(backup, rest[..n], BACKUP);
    FindPrefixConcat(siblings, [backup] + rest[..n], BACKUP);
  }

  lemma BackupInserted(lines: seq<string>, c: nat, n: nat)
    requires c + 1 + n <= |lines|
    ensures lines[..c + 1 + n] + [BACKUP] + lines[c + 1 + n..]
      == lines[..c] + ([lines[c]] + (lines[c + 1..][..n] + ([BACKUP] + lines[c + 1 + n..])))
  {
  }

  lemma WithBackupPrepares(lines: seq<string>)
    requires FindPrefix(lines, CORE) >= 0
    ensures HasBackup(WithBackup(lines))
    ensures !HasBackup(lines) ==>
      && FindPrefix(WithBackup(lines), CORE) == FindPrefix(lines, CORE)
      && FindPrefix(CoreBlock(WithBackup(lines)), BACKUP) == |CoreBlock(lines)|
  {
    if !HasBackup(lines) {
      var c, core := FindPrefix(lines, CORE), CoreBlock(lines);
      var rest := lines[c + 1 + |core|..];
      FoundPrefix(lines, CORE);
      BlockLengthEnds(lines[c + 1..], 0);
      BackupInserted(lines, c, |core|);
      LocateCore(lines[..c], lines[c], core + ([BACKUP] + rest));
      LocateBackup(core, BACKUP, rest);
    }
  }

  lemma CutLocated(cut: Cut)
    requires cut.Valid()
    ensures var lines := cut.Lines();
      && HasBackup(lines) && FindPrefix(lines, CORE) == |cut.outer|
      && BlockStart(lines) == |cut.outer| + |cut.siblings| + 2
  {
    hide EndsBlock, BlockLength;
    var rest := cut.body + cut.after;
    LocateCore(cut.outer, cut.core, cut.siblings + ([cut.backup] + rest));
    LocateBackup(cut.siblings, cut.backup, rest);
  }

  /** There is only one way to cut a document. */
  lemma CutUnique(cut: Cut)
    requires cut.Valid()
    ensures HasBackup(cut.Lines()) && CutAt(cut.Lines()) == cut
  {
    hide *;
    ValidParts(cut);
    EmptyBlock(cut.after, 2);
    CutLocated(cut);
    CutSlices(cut);
    BlockLengthConcat(cut.body, cut.after, 2);
    CutAtIs(cut.Lines());
  }

  lemma ValidParts(cut: Cut)
    requires cut.Valid()
    ensures NoneEnd(cut.body, 2) && (cut.after == [] || EndsBlock(cut.after[0], 2))
  {
  }

  lemma EmptyBlock(after: seq<string>, headerIndent: nat)
    ensures after == [] || EndsBlock(after[0], headerIndent) ==> BlockLength(after, headerIndent) == 0
  {
  }

  // ------------------------------------------------------------- facts about one field

  lemma IndentOfFour(line: string)
    requires |line| > 4 && line[..4] == "    " && line[4] != ' '
    ensures IndentOf(line) == 4
  {
    assert line[1..][1..][1..][1..] == line[4..];
    assert line[0] == line[..4][0] && line[1] == line[..4][1] && line[2] == line[..4][2] && line[3] == line[..4][3];
    assert IndentOf(line[1..][1..][1..][1..]) == 0;
    assert IndentOf(line[1..][1..][1..]) == 1;
    assert IndentOf(line[1..][1..]) == 2;
  }

  lemma FieldLineShape(field: Field, value: string)
    ensures HasPrefix(FieldLine(field, value), field.Prefix())
    ensures !EndsBlock(FieldLine(field, value), 2)
    ensures !HasPrefix(FieldLine(field, value), CORE) && !HasPrefix(FieldLine(field, value), BACKUP)
    ensures TrimPrefix(FieldLine(field, value)[|field.Prefix()|..], " ") == value
    ensures forall other: Field | other != field :: !HasPrefix(FieldLine(field, value), other.Prefix())
  {
    var line, p := FieldLine(field, value), field.Prefix();
    assert line[..|p|] == p;
    assert line[4] == p[4] && line[0] == p[..4][0] && line[1] == p[..4][1]
      && line[2] == p[..4][2] && line[3] == p[..4][3];
    IndentOfFour(line);
    assert line[|p|..] == " " + value;
    assert CORE[0] == 'c' && BACKUP[2] == 'b';
    forall other: Field | other != field ensures !HasPrefix(line, other.Prefix()) {
      assert other.Prefix()[4] == other.Initial();
    }
  }

  /** No line carries two keys. */
  lemma FieldsApart(body: seq<string>, f: Field, g: Field)
    requires f != g && FindPrefix(body, f.Prefix()) >= 0
    ensures !HasPrefix(body[FindPrefix(body, f.Prefix())], g.Prefix())
    ensures FindPrefix(body, f.Prefix()) != FindPrefix(body, g.Prefix())
  {
    var i := FindPrefix(body, f.Prefix());
    FoundPrefix(body, f.Prefix());
    assert body[i][4] == f.Prefix()[4] == f.Initial() && g.Prefix()[4] == g.Initial();
    if FindPrefix(body, g.Prefix()) >= 0 {
      FoundPrefix(body, g.Prefix());
    }
  }

  lemma {:induction false} FindPrefixExtend(a: seq<string>, b: seq<string>, prefix: string)
    requires FindPrefix(a, prefix) >= 0
    ensures FindPrefix(a + b, prefix) == FindPrefix(a, prefix)
  {
    assert (a + b)[1..] == a[1..] + b;
    if !HasPrefix(a[0], prefix) {
      FindPrefixExtend(a[1..], b, prefix);
    }
  }

  lemma FindPrefixReplace(body: seq<string>, i: nat, line: string, prefix: string)
    requires i < |body|
    requires (i == FindPrefix(body, prefix) && HasPrefix(line, prefix))
      || (!HasPrefix(body[i], prefix) && !HasPrefix(line, prefix))
    ensures FindPrefix(body[i := line], prefix) == FindPrefix(body, prefix)
  {
    FindPrefixFinds(body, prefix);
    FindPrefixUnique(body[i := line], prefix, FindPrefix(body, prefix));
  }

  /** What setting one field does to finding any field. */
  lemma FindAfterSet(body: seq<string>, s: Setting, g: Field)
    ensures var out := SetField(body, s); var i := FindPrefix(body, g.Prefix());
      FindPrefix(out, g.Prefix()) == (if g == s.field && i < 0 then |body| else i)
  {
    var line, k, i := FieldLine(s.field, s.value), FindPrefix(body, s.field.Prefix()), FindPrefix(body, g.Prefix());
    FieldLineShape(s.field, s.value);
    if k >= 0 {
      if g != s.field { FieldsApart(body, s.field, g); }
      FindPrefixReplace(body, k, line, g.Prefix());
    } else if i < 0 {
      FindPrefixConcat(body, [line], g.Prefix());
    } else {
      FindPrefixExtend(body, [line], g.Prefix());
    }
  }

  lemma SetFieldStaysInside(body: seq<string>, s: Setting)
    requires NoneEnd(body, 2)
    ensures NoneEnd(SetField(body, s), 2)
  {
    FieldLineShape(s.field, s.value);
  }

  lemma {:induction false} SetAllStaysInside(body: seq<string>, settings: seq<Setting>)
    requires NoneEnd(body, 2)
    ensures NoneEnd(SetAll(body, settings), 2)
    decreases |settings|
  {
    if settings != [] {
      SetFieldStaysInside(body, settings[0]);
      SetAllStaysInside(SetField(body, settings[0]), settings[1..]);
    }
  }

  // -------------------------------------------------------------- laws inside the block

  ghost predicate DistinctFields(settings: seq<Setting>) {
    forall i, j | 0 <= i < j < |settings| :: settings[i].field != settings[j].field
  }

  ghost predicate Mentions(settings: seq<Setting>, f: Field) {
    exists s :: s in settings && s.field == f
  }

  ghost predicate SameFields(a: seq<Setting>, b: seq<Setting>) {
    |a| == |b| && forall i | 0 <= i < |a| :: a[i].field == b[i].field
  }

  lemma SettingsDistinct(r: Request)
    ensures DistinctFields(r.Settings()) && r.Settings() != []
  {
  }

  /** Setting other fields neither moves nor rewrites the first line of `f`. */
  lemma {:induction false} SetAllKeeps(body: seq<string>, settings: seq<Setting>, f: Field)
    requires !Mentions(settings, f)
    requires FindPrefix(body, f.Prefix()) >= 0
    ensures var out, i := SetAll(body, settings), FindPrefix(body, f.Prefix());
      |out| >= |body| && FindPrefix(out, f.Prefix()) == i && out[i] == body[i]
    decreases |settings|
  {
    if settings != [] {
      var s := settings[0];
      assert s in settings;
      FindAfterSet(body, s, f);
      FieldsApart(body, f, s.field);
      SetAllKeeps(SetField(body, s), settings[1..], f);
    }
  }

  /** After the edit every requested field has its line, with the requested value. */
  lemma {:induction false} SetAllSets(body: seq<string>, settings: seq<Setting>, k: nat)
    requires DistinctFields(settings) && k < |settings|
    ensures var out, i := SetAll(body, settings), FindPrefix(SetAll(body, settings), settings[k].field.Prefix());
      i >= 0 && out[i] == FieldLine(settings[k].field, settings[k].value)
    decreases |settings|
  {
    var next := SetField(body, settings[0]);
    if k == 0 {
      FindAfterSet(body, settings[0], settings[0].field);
      SetAllKeeps(next, settings[1..], settings[0].field);
    } else {
      SetAllSets(next, settings[1..], k - 1);
    }
  }

  /** Two different fields commute once the second is already present. */
  lemma SetFieldCommutes(body: seq<string>, s: Setting, t: Setting)
    requires s.field != t.field
    requires FindPrefix(body, t.field.Prefix()) >= 0
    ensures SetField(SetField(body, s), t) == SetField(SetField(body, t), s)
  {
    FindAfterSet(body, s, t.field);
    FindAfterSet(body, t, s.field);
    FieldsApart(body, t.field, s.field);
  }

  lemma SetFieldTwice(body: seq<string>, s: Setting, t: Setting)
    requires s.field == t.field
    ensures SetField(SetField(body, s), t) == SetField(body, t)
  {
    FindAfterSet(body, s, s.field);
  }

  /** An earlier value of a field is forgotten however many other fields are set in between. */
  lemma SetFieldThrough(body: seq<string>, s: Setting, between: seq<Setting>, t: Setting)
    requires s.field == t.field && !Mentions(between, t.field)
    ensures SetField(SetAll(SetField(body, s), between), t) == SetAll(SetField(body, t), between)
    decreases |between|
  {
    if between == [] {
      SetFieldTwice(body, s, t);
    } else {
      var u := between[0];
      assert u in between;
      // Make `t` present on both sides, then move the setting of `u` past it.
      var b := SetField(body, s);
      FindAfterSet(body, s, t.field);
      FindAfterSet(b, u, t.field);
      SetFieldTwice(body, s, t);
      SetFieldCommutes(b, u, t);
      SetFieldThroughPresent(SetField(b, u), between[1..], t);
    }
  }

  lemma SetFieldThroughPresent(body: seq<string>, between: seq<Setting>, t: Setting)
    requires !Mentions(between, t.field)
    requires FindPrefix(body, t.field.Prefix()) >= 0
    ensures SetField(SetAll(body, between), t) == SetAll(SetField(body, t), between)
    decreases |between|
  {
    if between != [] {
      var u := between[0];
      assert u in between;
      FindAfterSet(body, u, t.field);
      SetFieldCommutes(body, u, t);
      SetFieldThroughPresent(SetField(body, u), between[1..], t);
    }
  }

  lemma {:induction false} SetAllTwice(body: seq<string>, a: seq<Setting>, b: seq<Setting>)
    requires SameFields(a, b) && DistinctFields(a)
    ensures SetAll(SetAll(body, a), b) == SetAll(body, b)
    decreases |a|
  {
    if a != [] {
      assert !Mentions(a[1..], b[0].field);
      SetFieldThrough(body, a[0], a[1..], b[0]);
      SetAllTwice(SetField(body, b[0]), a[1..], b[1..]);
    }
  }

  // ---------------------------------------------------------- from the block to the document

  lemma CutLinesAround(cut: Cut)
    ensures cut.Lines() == cut.Head() + cut.body + cut.after
  {
    var tail := cut.body + cut.after;
    assert cut.Lines() == cut.outer + [cut.core] + cut.siblings + ([cut.backup] + tail);
  }

  /** Replacing the body of a cut is replacing the lines of the block. */
  lemma CutPosition(lines: seq<string>, body: seq<string>)
    requires HasBackup(lines)
    ensures CutAt(lines).(body := body).Lines() == lines[..BlockStart(lines)] + body + lines[BlockEnd(lines)..]
  {
    var cut := CutAt(lines);
    CutAtShape(lines);
    CutLinesAround(cut);
    CutLinesAround(cut.(body := body));
    assert lines[..BlockStart(lines)] == cut.Head();
  }

  /** The edited document is cut around the edited block. */
  lemma EditedCut(lines: seq<string>, settings: seq<Setting>) returns (cut: Cut)
    requires HasBackup(lines)
    ensures cut.Valid() && cut.Lines() == lines && cut == CutAt(lines)
    ensures var edited := cut.(body := SetAll(cut.body, settings));
      && edited.Valid() && edited.Lines() == EditBlock(lines, settings)
      && HasBackup(edited.Lines()) && CutAt(edited.Lines()) == edited
  {
    cut := CutAt(lines);
    CutAtShape(lines);
    CutAtValid(lines);
    CutPosition(lines, SetAll(cut.body, settings));
    SetAllStaysInside(cut.body, settings);
    CutUnique(cut.(body := SetAll(cut.body, settings)));
  }

  // ------------------------------------------------------------------------ the lens laws

  lemma {:induction false} SetAllFree(body: seq<string>, settings: seq<Setting>)
    requires AllFree(body, '\n') && forall s | s in settings :: '\n' !in s.value
    ensures AllFree(SetAll(body, settings), '\n')
    decreases |settings|
  {
    if settings != [] {
      var s := settings[0];
      assert '\n' !in FieldLine(s.field, s.value);
      assert AllFree(SetField(body, s), '\n');
      SetAllFree(SetField(body, s), settings[1..]);
    }
  }

  lemma PreparedFree(lines: seq<string>)
    requires lines != [] && AllFree(lines, '\n')
    ensures AllFree(Prepared(lines), '\n')
  {
    assert '\n' !in CORE && '\n' !in BACKUP;
    var l := WithCore(lines);
    assert AllFree(l, '\n');
  }

  lemma EditedLinesFree(lines: seq<string>, settings: seq<Setting>)
    requires lines != [] && AllFree(lines, '\n')
    requires forall s | s in settings :: '\n' !in s.value
    ensures EditLines(lines, settings) != [] && AllFree(EditLines(lines, settings), '\n')
  {
    PreparedFree(lines);
    EditedBlockFree(Prepared(lines), settings);
  }

  lemma EditedBlockFree(l: seq<string>, settings: seq<Setting>)
    requires HasBackup(l) && AllFree(l, '\n')
    requires forall s | s in settings :: '\n' !in s.value
    ensures EditBlock(l, settings) != [] && AllFree(EditBlock(l, settings), '\n')
  {
    var cut := EditedCut(l, settings);
    assert forall line | line in cut.body :: line in l;
    SetAllFree(cut.body, settings);
  }

  lemma EditedTextLines(text: string, r: Request)
    requires r.NewlineFree()
    ensures Split(EditText(text, r), '\n') == EditLines(Split(text, '\n'), r.Settings())
  {
    var lines, settings := Split(text, '\n'), r.Settings();
    EditedLinesFree(lines, settings);
    SplitJoin(EditLines(lines, settings), '\n');
  }

  /** Put-put: a second edit with the same optional fields erases every trace of the first. */
  lemma PutPut(text: string, first: Request, second: Request)
    requires first.NewlineFree()
    requires SameFields(first.Settings(), second.Settings())
    ensures EditText(EditText(text, first), second) == EditText(text, second)
  {
    EditedTextLines(text, first);
    SettingsDistinct(first);
    PutPutLines(Split(text, '\n'), first.Settings(), second.Settings());
  }

  lemma PutPutLines(lines: seq<string>, a: seq<Setting>, b: seq<Setting>)
    requires lines != [] && SameFields(a, b) && DistinctFields(a)
    ensures EditLines(lines, a) != [] && EditLines(EditLines(lines, a), b) == EditLines(lines, b)
  {
    PutPutBlock(Prepared(lines), a, b);
    AlreadyPrepared(EditBlock(Prepared(lines), a));
  }

  lemma PutPutBlock(l: seq<string>, a: seq<Setting>, b: seq<Setting>)
    requires HasBackup(l) && SameFields(a, b) && DistinctFields(a)
    ensures HasBackup(EditBlock(l, a)) && EditBlock(EditBlock(l, a), b) == EditBlock(l, b)
  {
    var cut := EditedCut(l, a);
    var once := EditBlock(l, a);
    CutPosition(once, SetAll(SetAll(cut.body, a), b));
    CutPosition(l, SetAll(cut.body, b));
    SetAllTwice(cut.body, a, b);
  }

  lemma AlreadyPrepared(lines: seq<string>)
    requires HasBackup(lines)
    ensures lines != [] && Prepared(lines) == lines
  {
  }

  /** Editing twice with one request is editing once. */
  lemma EditIdempotent(text: string, r: Request)
    requires r.NewlineFree()
    ensures EditText(EditText(text, r), r) == EditText(text, r)
  {
    PutPut(text, r, r);
  }

  /** The lines of the backup: block. */
  function Block(lines: seq<string>): seq<string>
    requires HasBackup(lines)
  {
    lines[BlockStart(lines)..BlockEnd(lines)]
  }

  ghost predicate Says(body: seq<string>, settings: seq<Setting>) {
    forall s | s in settings :: FieldSays(body, s)
  }

  ghost predicate FieldSays(body: seq<string>, s: Setting) {
    var i := FindPrefix(body, s.field.Prefix());
    i >= 0 && body[i] == FieldLine(s.field, s.value)
  }

  lemma {:induction false} GetPutBlock(body: seq<string>, settings: seq<Setting>)
    requires DistinctFields(settings) && Says(body, settings)
    ensures SetAll(body, settings) == body
    decreases |settings|
  {
    if settings != [] {
      assert FieldSays(body, settings[0]);
      assert SetField(body, settings[0]) == body;
      GetPutBlock(body, settings[1..]);
    }
  }

  /** Get-put: writing back what the block already says, in the form the edit writes it, changes
      nothing. */
  lemma GetPut(text: string, r: Request)
    requires var lines := Split(text, '\n'); HasBackup(lines) && Says(Block(lines), r.Settings())
    ensures EditText(text, r) == text
  {
    SettingsDistinct(r);
    GetPutLines(Split(text, '\n'), r.Settings());
    JoinSplit(text, '\n');
  }

  lemma GetPutLines(lines: seq<string>, settings: seq<Setting>)
    requires HasBackup(lines) && DistinctFields(settings) && Says(Block(lines), settings)
    ensures lines != [] && EditLines(lines, settings) == lines
  {
    GetPutBlock(Block(lines), settings);
    AlreadyPrepared(lines);
    Around3(lines, BlockStart(lines), BlockEnd(lines));
  }

  lemma Around3<T>(s: seq<T>, i: nat, j: nat)
    requires i <= j <= |s|
    ensures s[..i] + s[i..j] + s[j..] == s
  {
  }

  // ------------------------------------------------------------------------------- frame

  /** The lines for the requested fields the block lacks, in request order. */
  function Missing(body: seq<string>, settings: seq<Setting>): seq<string>
    decreases |settings|
  {
    if settings == [] then []
    else
      var s := settings[0];
      (if FindPrefix(body, s.field.Prefix()) < 0 then [FieldLine(s.field, s.value)] else [])
      + Missing(body, settings[1..])
  }

  lemma {:induction false} MissingAfterSet(body: seq<string>, s: Setting, rest: seq<Setting>)
    requires !Mentions(rest, s.field)
    ensures Missing(SetField(body, s), rest) == Missing(body, rest)
    decreases |rest|
  {
    if rest != [] {
      assert rest[0] in rest;
      FindAfterSet(body, s, rest[0].field);
      MissingAfterSet(body, s, rest[1..]);
    }
  }

  ghost predicate Rewritten(body: seq<string>, settings: seq<Setting>, i: nat, line: string) {
    exists s :: s in settings && i == FindPrefix(body, s.field.Prefix()) && line == FieldLine(s.field, s.value)
  }

  lemma RewrittenEarlier(body: seq<string>, settings: seq<Setting>, i: nat, line: string)
    requires settings != [] && DistinctFields(settings) && i < |body|
    requires Rewritten(SetField(body, settings[0]), settings[1..], i, line)
    ensures Rewritten(body, settings, i, line)
  {
    var next := SetField(body, settings[0]);
    var t :| t in settings[1..] && i == FindPrefix(next, t.field.Prefix()) && line == FieldLine(t.field, t.value);
    FindAfterSet(body, settings[0], t.field);
    assert t in settings;
  }

  lemma AppendedNotRewritten(body: seq<string>, s: Setting, rest: seq<Setting>, line: string)
    requires !Mentions(rest, s.field) && FindPrefix(body, s.field.Prefix()) < 0
    ensures !Rewritten(SetField(body, s), rest, |body|, line)
  {
    forall t | t in rest ensures FindPrefix(SetField(body, s), t.field.Prefix()) != |body| {
      FindAfterSet(body, s, t.field);
    }
  }

  lemma SetFieldFrame(body: seq<string>, s: Setting)
    ensures var out, k := SetField(body, s), FindPrefix(body, s.field.Prefix());
      && |body| <= |out|
      && (k < 0 ==> out == body + [FieldLine(s.field, s.value)])
      && (k >= 0 ==> |out| == |body| && out[k] == FieldLine(s.field, s.value))
      && (forall i: nat | i < |body| && i != k :: out[i] == body[i])
  {
  }

  /** Every old line is still there, except the first line of each requested field. */
  lemma {:induction false} SetAllRewrites(body: seq<string>, settings: seq<Setting>)
    requires DistinctFields(settings)
    ensures var out := SetAll(body, settings);
      |body| <= |out| && forall i: nat | i < |body| :: out[i] == body[i] || Rewritten(body, settings, i, out[i])
    decreases |settings|
  {
    if settings != [] {
      hide FindPrefix, FieldLine, SetField, Field.Prefix;
      var s := settings[0];
      var next, out := SetField(body, s), SetAll(body, settings);
      SetFieldFrame(body, s);
      SetAllRewrites(next, settings[1..]);
      forall i: nat | i < |body| ensures out[i] == body[i] || Rewritten(body, settings, i, out[i]) {
        if Rewritten(next, settings[1..], i, out[i]) {
          RewrittenEarlier(body, settings, i, out[i]);
        } else if i == FindPrefix(body, s.field.Prefix()) {
          assert s in settings;
        }
      }
    }
  }

  /** And the missing fields follow. */
  lemma {:induction false} SetAllAppends(body: seq<string>, settings: seq<Setting>)
    requires DistinctFields(settings)
    ensures |SetAll(body, settings)| == |body| + |Missing(body, settings)|
    ensures SetAll(body, settings)[|body|..] == Missing(body, settings)
    decreases |settings|
  {
    hide *;
    if settings == [] {
      SetNone(body);
    } else {
      var s, rest := settings[0], settings[1..];
      var next, out := SetField(body, s), SetAll(body, settings);
      FirstSetting(body, settings);
      SetFieldFrame(body, s);
      SetAllAppends(next, rest);
      MissingAfterSet(body, s, rest);
      if FindPrefix(body, s.field.Prefix()) < 0 {
        SetAllRewrites(next, rest);
        AppendedNotRewritten(body, s, rest, out[|body|]);
        AroundFrom(out, |body|, |body|);
        assert out[|body|..|body|] == [];
        assert next[|body|] == FieldLine(s.field, s.value);
        assert out[|body|..] == [FieldLine(s.field, s.value)] + out[|body| + 1..];
      }
    }
  }

  lemma SetNone(body: seq<string>)
    ensures SetAll(body, []) == body && Missing(body, []) == [] && body[|body|..] == []
  {
  }

  lemma FirstSetting(body: seq<string>, settings: seq<Setting>)
    requires settings != [] && DistinctFields(settings)
    ensures var s, rest := settings[0], settings[1..];
      && DistinctFields(rest) && !Mentions(rest, s.field)
      && SetAll(body, settings) == SetAll(SetField(body, s), rest)
      && Missing(body, settings)
           == (if FindPrefix(body, s.field.Prefix()) < 0 then [FieldLine(s.field, s.value)] else [])
              + Missing(body, rest)
  {
    hide FindPrefix, FieldLine, SetField, Field.Prefix;
  }

  /** The core: block ends before line `end`. */
  ghost predicate EndsCore(lines: seq<string>, end: int) {
    var c := FindPrefix(lines, CORE);
    && 0 <= c < end <= |lines| && NoneEnd(lines[c + 1..end], 0)
    && (end == |lines| || EndsBlock(lines[end], 0))
  }

  /** `out` is `lines` with the headers it lacked, the backup: header at the end of the core: block, a core:
      header at the end of the document after a blank line, and nothing else. */
  ghost predicate OnlyHeadersAdded(lines: seq<string>, out: seq<string>) {
    || out == lines
    || (FindPrefix(lines, CORE) >= 0 && !HasBackup(lines)
        && exists end :: EndsCore(lines, end) && out == lines[..end] + [BACKUP] + lines[end..])
    || (lines != [] && FindPrefix(lines, CORE) < 0
        && out == lines + (if TrimSpace(lines[|lines| - 1]) != "" then [""] else []) + [CORE] + [BACKUP])
  }

  lemma PreparedShape(lines: seq<string>)
    requires lines != []
    ensures OnlyHeadersAdded(lines, Prepared(lines))
  {
    if FindPrefix(lines, CORE) < 0 {
      CoreAdded(lines);
    } else if !HasBackup(lines) {
      BackupAdded(lines);
    }
    hide FindPrefix, WithBackup, EndsCore;
  }

  lemma CoreAdded(lines: seq<string>)
    requires lines != [] && FindPrefix(lines, CORE) < 0
    ensures Prepared(lines)
      == lines + (if TrimSpace(lines[|lines| - 1]) != "" then [""] else []) + [CORE] + [BACKUP]
  {
    hide FindPrefix, WithCore, WithBackup, HasBackup, TrimSpace;
    CorePadded(lines);
    CoreAppended(WithCore(lines));
  }

  lemma CorePadded(lines: seq<string>)
    requires lines != [] && FindPrefix(lines, CORE) < 0
    ensures WithCore(lines) == lines + (if TrimSpace(lines[|lines| - 1]) != "" then [""] else []) + [CORE]
    ensures FindPrefix(WithCore(lines), CORE) == |WithCore(lines)| - 1
  {
    hide FindPrefix, TrimSpace;
    WithCoreFound(lines, if TrimSpace(lines[|lines| - 1]) != "" then lines + [""] else lines);
  }

  lemma BackupAdded(lines: seq<string>)
    requires FindPrefix(lines, CORE) >= 0 && !HasBackup(lines)
    ensures var end := FindPrefix(lines, CORE) + 1 + |CoreBlock(lines)|;
      EndsCore(lines, end) && Prepared(lines) == lines[..end] + [BACKUP] + lines[end..]
  {
    hide FindPrefix, CoreBlock, HasBackup, EndsCore;
    CoreBlockEnds(lines);
    assert Prepared(lines) == WithBackup(lines);
  }

  lemma CoreBlockEnds(lines: seq<string>)
    requires FindPrefix(lines, CORE) >= 0
    ensures EndsCore(lines, FindPrefix(lines, CORE) + 1 + |CoreBlock(lines)|)
  {
    hide FindPrefix, BlockLength, NoneEnd, EndsBlock;
    var c := FindPrefix(lines, CORE);
    BlockLengthEnds(lines[c + 1..], 0);
    SliceOfSlice(lines, c + 1, |CoreBlock(lines)|);
  }

  lemma CoreAppended(l: seq<string>)
    requires l != [] && FindPrefix(l, CORE) == |l| - 1
    ensures WithBackup(l) == l + [BACKUP]
  {
    var rest := l[|l|..];
    assert rest == [];
    assert CoreBlock(l) == rest[..BlockLength(rest, 0)];
    assert |CoreBlock(l)| == 0;
    assert l[..|l|] == l;
  }

  /** What the edit leaves alone: the document with its headers present, cut around the block,
      is the input apart from the missing headers, and everything outside the block reappears
      unchanged around the edited block. */
  lemma EditFrame(lines: seq<string>, settings: seq<Setting>) returns (cut: Cut)
    requires lines != [] && DistinctFields(settings)
    ensures cut.Valid() && cut.Lines() == Prepared(lines)
    ensures OnlyHeadersAdded(lines, Prepared(lines))
    ensures var body := SetAll(cut.body, settings);
      && EditLines(lines, settings) == cut.(body := body).Lines()
      && |body| == |cut.body| + |Missing(cut.body, settings)|
      && body[|cut.body|..] == Missing(cut.body, settings)
      && (forall i: nat | i < |cut.body| :: body[i] == cut.body[i] || Rewritten(cut.body, settings, i, body[i]))
  {
    cut := EditedCut(Prepared(lines), settings);
    PreparedShape(lines);
    SetAllRewrites(cut.body, settings);
    SetAllAppends(cut.body, settings);
  }

  /** A new block holds the fields that are asked for, one a line, in this order. */
  lemma FreshBlock(r: Request)
    ensures SetAll([], r.Settings()) ==
      ["    repo: " + r.repo]
      + (if r.interval != "" then ["    interval: " + r.interval] else [])
      + (if r.verifyInterval != "" then ["    verify_interval: " + r.verifyInterval] else [])
      + match r.appendOnly
        case None => []
        case Some(on) => ["    append_only: " + if on then "true" else "false"]
  {
    FreshLines(r);
    SettingsDistinct(r);
    SetAllAppends([], r.Settings());
    hide *;
    assert SetAll([], r.Settings())[0..] == SetAll([], r.Settings());
  }

  lemma FreshLines(r: Request)
    ensures Missing([], r.Settings()) ==
      ["    repo: " + r.repo]
      + (if r.interval != "" then ["    interval: " + r.interval] else [])
      + (if r.verifyInterval != "" then ["    verify_interval: " + r.verifyInterval] else [])
      + match r.appendOnly
        case None => []
        case Some(on) => ["    append_only: " + if on then "true" else "false"]
  {
    FieldLines();
    assert Missing([], []) == [];
    hide Missing, FieldLine, Field.Prefix;
    if r.appendOnly.Some? {
      MissingFirst(Setting(AppendOnly, if r.appendOnly.value then "true" else "false"), []);
    }
    MissingFirst(Setting(VerifyInterval, r.verifyInterval), r.FromAppendOnly());
    MissingFirst(Setting(Interval, r.interval), r.FromVerify());
    MissingFirst(Setting(Repo, r.repo), r.FromInterval());
  }

  lemma MissingFirst(s: Setting, rest: seq<Setting>)
    ensures Missing([], [s] + rest) == [FieldLine(s.field, s.value)] + Missing([], rest)
  {
    assert ([s] + rest)[1..] == rest;
    hide FieldLine, Field.Prefix;
  }

  lemma FieldLines()
    ensures forall v :: FieldLine(Repo, v) == "    repo: " + v
    ensures forall v :: FieldLine(Interval, v) == "    interval: " + v
    ensures forall v :: FieldLine(VerifyInterval, v) == "    verify_interval: " + v
    ensures forall v :: FieldLine(AppendOnly, v) == "    append_only: " + v
  {
    assert "    repo:" + " " == "    repo: " && "    interval:" + " " == "    interval: ";
    assert "    verify_interval:" + " " == "    verify_interval: ";
    assert "    append_only:" + " " == "    append_only: ";
  }

  // ----------------------------------------------------------- the procedures of the source

  method FindTopLevelKey(lines: seq<string>, key: string) returns (idx: int)
    ensures idx == FindPrefix(lines, key)
  {
    for i := 0 to |lines|
      invariant forall j | 0 <= j < i :: !HasPrefix(lines[j], key)
    {
      if HasPrefix(lines[i], key) {
        FindPrefixUnique(lines, key, i);
        return i;
      }
    }
    FindPrefixUnique(lines, key, -1);
    return -1;
  }

  method FindChildKey(lines: seq<string>, start: nat, end: nat, indent: nat, key: string) returns (idx: int)
    requires start <= end <= |lines|
    ensures var i := FindPrefix(lines[start..end], Spaces(indent) + key);
      idx == if i < 0 then -1 else start + i
  {
    var prefix := Spaces(indent) + key;
    for i := start to end
      invariant forall j | 0 <= j < i - start :: !HasPrefix(lines[start..end][j], prefix)
    {
      if HasPrefix(lines[i], prefix) {
        FindPrefixUnique(lines[start..end], prefix, i - start);
        return i;
      }
    }
    FindPrefixUnique(lines[start..end], prefix, -1);
    return -1;
  }

  method BlockRange(lines: seq<string>, headerIdx: nat, headerIndent: nat) returns (start: nat, end: nat)
    requires headerIdx < |lines|
    ensures start == headerIdx + 1 && end == start + BlockLength(lines[start..], headerIndent)
  {
    start := headerIdx + 1;
    for i := start to |lines|
      invariant BlockLength(lines[start..], headerIndent) == i - start + BlockLength(lines[i..], headerIndent)
    {
      if IsSkipped(lines[i]) { continue; }
      if IndentOf(lines[i]) <= headerIndent {
        return start, i;
      }
    }
    return start, |lines|;
  }

  method InsertLines(lines: seq<string>, at: nat, newLines: seq<string>) returns (out: seq<string>)
    requires at <= |lines|
    ensures out == lines[..at] + newLines + lines[at..]
  {
    out := [];
    out := out + lines[..at];
    out := out + newLines;
    out := out + lines[at..];
  }

  /** Replaces or appends one field of the block [start, end); the returned end is the one a
      fresh scan of the new lines would find. */
  method SetOrInsertField(lines: seq<string>, start: nat, end: nat, s: Setting,
                          ghost before: seq<string>, ghost body: seq<string>, ghost after: seq<string>)
    returns (out: seq<string>, newEnd: nat)
    requires lines == before + body + after && start == |before| && end == |before| + |body|
    requires NoneEnd(body, 2) && (after == [] || EndsBlock(after[0], 2))
    ensures out == before + SetField(body, s) + after
    ensures newEnd == |before| + |SetField(body, s)|
    ensures NoneEnd(SetField(body, s), 2) && newEnd == start + BlockLength(out[start..], 2)
  {
    ghost var n := FindPrefix(body, s.field.Prefix());
    SetFieldInPlace(before, body, after, s);
    hide EndsBlock, HasPrefix, BlockLength, SetField, FieldLine;
    PrefixText(s.field);
    var idx := FindChildKey(lines, start, end, 4, s.field.Key() + ":");
    var newLine := Spaces(4) + s.field.Key() + ": " + s.value;
    if idx != -1 {
      out, newEnd := lines[idx := newLine], end;
    } else {
      out := InsertLines(lines, end, [newLine]);
      newEnd := end + 1;
    }
  }

  /** Setting a field of a block in the middle of a document, by index. */
  lemma SetFieldInPlace(before: seq<string>, body: seq<string>, after: seq<string>, s: Setting)
    requires NoneEnd(body, 2) && (after == [] || EndsBlock(after[0], 2))
    ensures var lines, start, end := before + body + after, |before|, |before| + |body|;
      var k, line := FindPrefix(body, s.field.Prefix()), Spaces(4) + s.field.Key() + ": " + s.value;
      var out := SetField(body, s);
      && lines[start..end] == body
      && before + out + after == (if k < 0 then lines[..end] + [line] + lines[end..] else lines[start + k := line])
      && |out| == |body| + (if k < 0 then 1 else 0)
      && NoneEnd(out, 2)
      && (before + out + after)[start..] == out + after
      && BlockLength(out + after, 2) == |out|
  {
    SetFieldStaysInside(body, s);
    hide EndsBlock, HasPrefix, FindPrefix;
    PrefixText(s.field);
    assert Spaces(4) + s.field.Key() + ": " + s.value == FieldLine(s.field, s.value);
    EmptyBlock(after, 2);
    BlockLengthConcat(SetField(body, s), after, 2);
    hide BlockLength;
    InsertInMiddle(before, body, [FieldLine(s.field, s.value)], after);
    if FindPrefix(body, s.field.Prefix()) >= 0 {
      ReplaceInMiddle(before, body, FindPrefix(body, s.field.Prefix()), FieldLine(s.field, s.value), after);
    }
  }

  lemma InsertInMiddle<T>(before: seq<T>, body: seq<T>, extra: seq<T>, after: seq<T>)
    ensures var s, end := before + body + after, |before| + |body|;
      && s[..end] + extra + s[end..] == before + (body + extra) + after
      && s[|before|..end] == body
      && (before + (body + extra) + after)[|before|..] == (body + extra) + after
  {
    assert (before + body + after)[..|before| + |body|] == before + body;
    assert (before + body + after)[|before| + |body|..] == after;
  }

  lemma ReplaceInMiddle<T>(before: seq<T>, body: seq<T>, k: nat, x: T, after: seq<T>)
    requires k < |body|
    ensures (before + body + after)[|before| + k := x] == before + body[k := x] + after
    ensures (before + body[k := x] + after)[|before|..] == body[k := x] + after
  {
  }

  lemma PrefixText(f: Field)
    ensures f.Prefix() == Spaces(4) + f.Key() + ":"
    ensures f.Prefix() == Spaces(4) + (f.Key() + ":")
  {
    FourSpaces();
    hide Spaces;
  }

  lemma FourSpaces()
    ensures Spaces(4) == "    " && Spaces(2) == "  "
  {
    assert Spaces(1) == " ";
    assert Spaces(3) == "   ";
  }

  lemma CoreIndent(line: string)
    requires HasPrefix(line, CORE)
    ensures IndentOf(line) == 0
  {
    assert line[0] == CORE[0];
  }

  lemma BackupText()
    ensures Spaces(2) + "backup:" == BACKUP
  {
    FourSpaces();
  }

  /** SetCoreBackupConfig finds the core: header, or appends it after a blank separator. */
  method EnsureCore(original: seq<string>) returns (lines: seq<string>, coreIdx: nat)
    requires original != []
    ensures lines == WithCore(original) && coreIdx == FindPrefix(lines, CORE)
  {
    lines := original;
    var idx := FindTopLevelKey(lines, CORE);
    if idx == -1 {
      if |lines| > 0 && TrimSpace(lines[|lines| - 1]) != "" {
        lines := lines + [""];
      }
      WithCoreFound(original, lines);
      lines := lines + [CORE];
      idx := |lines| - 1;
    }
    coreIdx := idx;
  }

  /** Then it finds the backup: header in the core: block, or inserts it at the block's end. */
  method EnsureBackup(withCore: seq<string>, coreIdx: nat) returns (lines: seq<string>, backupIdx: nat)
    requires coreIdx == FindPrefix(withCore, CORE)
    ensures lines == WithBackup(withCore) && HasBackup(lines) && backupIdx == BlockStart(lines) - 1
  {
    hide EndsBlock, BlockLength, FindPrefix;
    lines := withCore;
    FoundPrefix(lines, CORE);
    CoreIndent(lines[coreIdx]);
    var coreIndent := IndentOf(lines[coreIdx]);
    var coreStart, coreEnd := BlockRange(lines, coreIdx, coreIndent);
    SliceOfSlice(lines, coreStart, coreEnd - coreStart);
    var backupIndent := coreIndent + 2;
    BackupText();
    var idx := FindChildKey(lines, coreStart, coreEnd, backupIndent, "backup:");
    WithBackupPrepares(lines);
    if idx == -1 {
      lines := InsertLines(lines, coreEnd, [Spaces(backupIndent) + "backup:"]);
      idx := coreEnd;
    }
    backupIdx := idx;
  }

  /** Last, the requested fields are written one after the other, each into the block
      end that the previous one returned. */
  method WriteFields(prepared: seq<string>, backupIdx: nat, r: Request,
                     ghost before: seq<string>, ghost body: seq<string>, ghost after: seq<string>)
    returns (lines: seq<string>)
    requires prepared == before + body + after && |before| == backupIdx + 1
    requires NoneEnd(body, 2) && (after == [] || EndsBlock(after[0], 2))
    ensures lines == before + SetAll(body, r.Settings()) + after
  {
    lines := prepared;
    var start, end := BlockRange(lines, backupIdx, 2);
    assert lines[start..] == body + after;
    BlockLengthConcat(body, after, 2);

    ghost var b := body;
    lines, end := SetOrInsertField(lines, start, end, Setting(Repo, r.repo), before, b, after);
    SetAllCons(b, Setting(Repo, r.repo), r.FromInterval());
    b := SetField(b, Setting(Repo, r.repo));
    if r.interval != "" {
      var s := Setting(Interval, r.interval);
      lines, end := SetOrInsertField(lines, start, end, s, before, b, after);
      SetAllCons(b, s, r.FromVerify());
      b := SetField(b, s);
    }
    if r.verifyInterval != "" {
      var s := Setting(VerifyInterval, r.verifyInterval);
      lines, end := SetOrInsertField(lines, start, end, s, before, b, after);
      SetAllCons(b, s, r.FromAppendOnly());
      b := SetField(b, s);
    }
    if r.appendOnly.Some? {
      var value := "false";
      if r.appendOnly.value {
        value := "true";
      }
      lines, end := SetOrInsertField(lines, start, end, Setting(AppendOnly, value), before, b, after);
      SetAllCons(b, Setting(AppendOnly, value), []);
    }
  }

  lemma SetAllCons(body: seq<string>, s: Setting, rest: seq<Setting>)
    ensures SetAll(body, [s] + rest) == SetAll(SetField(body, s), rest)
  {
    assert ([s] + rest)[1..] == rest;
  }

  method SetCoreBackupConfig(yamlContent: string, r: Request) returns (out: string)
    ensures out == EditText(yamlContent, r)
  {
    var lines, coreIdx := EnsureCore(Split(yamlContent, '\n'));
    var backupIdx;
    lines, backupIdx := EnsureBackup(lines, coreIdx);
    BlockBody(lines, BlockStart(lines));
    ghost var prepared, settings, start, end := lines, r.Settings(), BlockStart(lines), BlockEnd(lines);
    Around3(lines, start, end);
    lines := WriteFields(lines, backupIdx, r, lines[..start], lines[start..end], lines[end..]);
    assert lines == EditBlock(prepared, settings);
    return Join(lines, '\n');
  }
}
