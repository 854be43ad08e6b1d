/** Reading ownbase.yaml the way a YAML parser nests it, and when the edit of the `core.backup:` block is
    read back. The reader knows nothing of the layout the edit writes: where the entries of a mapping
    start is where the first of them does. It shares with the edit what a blank line, a comment and
    an indentation are. */
module YamlReader {
  import opened Text
  import opened YamlEdit

  // ----------------------------------------------------------------------------- the reader

  /** The lines that are neither blank nor comments. */
  function Content(lines: seq<string>): seq<string> {
    if lines == [] then []
    else if IsSkipped(lines[0]) then Content(lines[1..])
    else [lines[0]] + Content(lines[1..])
  }

  /** How many of the lines are deeper than `indent`, up to the first that is not. */
  function Deeper(lines: seq<string>, indent: nat): (n: nat)
    ensures n <= |lines|
  {
    if lines == [] || IndentOf(lines[0]) <= indent then 0 else 1 + Deeper(lines[1..], indent)
  }

  /** What follows the colon of a key, and the lines nested below it. */
  datatype Entry = Entry(text: string, nested: seq<string>)

  /** The first entry of that key among the lines that start at `indent`. */
  function Find(lines: seq<string>, indent: nat, key: string): Option<Entry> {
    if lines == [] then None
    else if IndentOf(lines[0]) == indent && HasPrefix(lines[0][indent..], key + ":") then
      Some(Entry(lines[0][indent + |key| + 1..], lines[1..][..Deeper(lines[1..], indent)]))
    else Find(lines[1..], indent, key)
  }

  /** A header may carry a comment, set off by a blank, but no value. */
  predicate HasText(text: string) {
    text != "" && !(text[0] == ' ' && IsSkipped(text))
  }

  /** No line of a mapping is shallower than its first. */
  predicate Aligned(lines: seq<string>) {
    lines != [] && forall l | l in lines :: IndentOf(l) >= IndentOf(lines[0])
  }

  /** The value at a path of nested mappings. An entry has either text on its line or lines nested
      below it; one that has both is not well-formed, and neither is a mapping with a line that is
      shallower than its entries. */
  function Read(lines: seq<string>, path: seq<string>): Option<string>
    requires path != []
    decreases |path|
  {
    if !Aligned(lines) then None
    else
      match Find(lines, IndentOf(lines[0]), path[0])
      case None => None
      case Some(e) =>
        if |path| == 1 then if e.nested == [] then Some(TrimPrefix(e.text, " ")) else None
        else if HasText(e.text) then None
        else Read(e.nested, path[1..])
  }

  function ReadLines(lines: seq<string>, field: Field): Option<string> {
    Read(Content(lines), ["core", "backup", field.Key()])
  }

  /** core.backup.<field> of a document. */
  function ReadField(text: string, field: Field): Option<string> {
    ReadLines(Split(text, '\n'), field)
  }

  // ---------------------------------------------------------------------------- lines that say something

  lemma {:induction false} ContentConcat(a: seq<string>, b: seq<string>)
    ensures Content(a + b) == Content(a) + Content(b)
  {
    if a == [] {
      assert a + b == b;
    } else {
      assert (a + b)[1..] == a[1..] + b;
      ContentConcat(a[1..], b);
    }
  }

  lemma {:induction false} ContentIs(lines: seq<string>)
    ensures forall l :: l in Content(lines) <==> l in lines && !IsSkipped(l)
  {
    if lines != [] {
      ContentIs(lines[1..]);
      assert lines == [lines[0]] + lines[1..];
    }
  }

  lemma ContentOne(line: string)
    ensures Content([line]) == if IsSkipped(line) then [] else [line]
  {
    assert [line][1..] == [];
  }

  lemma {:induction false} PrefixIndent(line: string, n: nat, k: string)
    requires k != "" && k[0] != ' '
    ensures HasPrefix(line, Spaces(n) + k) <==> IndentOf(line) == n && HasPrefix(line[n..], k)
    decreases n
  {
    if n == 0 {
      assert Spaces(0) + k == k && line[0..] == line;
    } else {
      var p := Spaces(n) + k;
      assert p == " " + (Spaces(n - 1) + k);
      if line != "" && line[0] == ' ' {
        PrefixIndent(line[1..], n - 1, k);
        assert line == " " + line[1..];
        assert n <= |line| ==> line[n..] == line[1..][n - 1..];
        assert HasPrefix(line, p) <==> HasPrefix(line[1..], Spaces(n - 1) + k);
      } else {
        assert p[0] == ' ';
        assert !HasPrefix(line, p);
      }
    }
  }

  /** The three places the edit looks for keys, as the reader sees them. */
  ghost predicate IsKeyAt(p: string, n: nat, key: string) {
    key != "" && key[0] != ' ' && key[0] != '#' && p == Spaces(n) + (key + ":")
  }

  lemma KeysAt()
    ensures IsKeyAt(CORE, 0, "core") && IsKeyAt(BACKUP, 2, "backup")
    ensures forall f: Field :: IsKeyAt(f.Prefix(), 4, f.Key())
  {
    BackupText();
    forall f: Field ensures IsKeyAt(f.Prefix(), 4, f.Key()) {
      PrefixText(f);
    }
  }

  lemma KeyLine(line: string, p: string, n: nat, key: string)
    requires IsKeyAt(p, n, key)
    ensures HasPrefix(line, p) <==> IndentOf(line) == n && HasPrefix(line[n..], key + ":")
    ensures HasPrefix(line, p) ==> !IsSkipped(line) && |p| == n + |key| + 1
  {
    PrefixIndent(line, n, key + ":");
    if HasPrefix(line, p) {
      assert line[n] == line[n..][0] == (key + ":")[0];
    }
  }

  /** Finding an entry is finding the line that starts with its key at its place. */
  lemma {:induction false} FindIs(lines: seq<string>, p: string, n: nat, key: string)
    requires IsKeyAt(p, n, key)
    ensures var i := FindPrefix(lines, p);
      if i < 0 then Find(lines, n, key) == None
      else |p| <= |lines[i]|
           && Find(lines, n, key) == Some(Entry(lines[i][|p|..], lines[i + 1..][..Deeper(lines[i + 1..], n)]))
  {
    if lines != [] {
      KeyLine(lines[0], p, n, key);
      if !HasPrefix(lines[0], p) {
        FindIs(lines[1..], p, n, key);
        var i := FindPrefix(lines[1..], p);
        if i >= 0 {
          assert lines[1..][i + 1..] == lines[i + 2..];
        }
      }
    }
  }

  lemma {:induction false} FindMeans(lines: seq<string>, n: nat, key: string) returns (j: nat)
    requires Find(lines, n, key).Some?
    ensures j < |lines| && IndentOf(lines[j]) == n && n + |key| + 1 <= |lines[j]|
    ensures Find(lines, n, key)
      == Some(Entry(lines[j][n + |key| + 1..], lines[j + 1..][..Deeper(lines[j + 1..], n)]))
  {
    if IndentOf(lines[0]) == n && HasPrefix(lines[0][n..], key + ":") {
      j := 0;
    } else {
      var i := FindMeans(lines[1..], n, key);
      assert lines[1..][i + 1..] == lines[i + 2..];
      j := i + 1;
    }
  }

  lemma {:induction false} DeeperConcat(a: seq<string>, b: seq<string>, n: nat)
    requires forall l | l in a :: IndentOf(l) > n
    ensures Deeper(a + b, n) == |a| + Deeper(b, n)
  {
    if a == [] {
      assert a + b == b;
    } else {
      assert (a + b)[1..] == a[1..] + b && a[0] in a;
      DeeperConcat(a[1..], b, n);
    }
  }

  lemma {:induction false} DeeperAre(lines: seq<string>, n: nat)
    ensures forall l | l in lines[..Deeper(lines, n)] :: IndentOf(l) > n
  {
    if lines != [] && IndentOf(lines[0]) > n {
      DeeperAre(lines[1..], n);
      assert lines[..Deeper(lines, n)] == [lines[0]] + lines[1..][..Deeper(lines[1..], n)];
    }
  }

  /** The block of a header, for the edit and for the reader. */
  lemma {:induction false} ContentBlock(lines: seq<string>, h: nat)
    ensures Content(lines[..BlockLength(lines, h)]) == Content(lines)[..Deeper(Content(lines), h)]
  {
    if lines != [] && !EndsBlock(lines[0], h) {
      ContentBlock(lines[1..], h);
      var n := BlockLength(lines[1..], h);
      assert lines[..n + 1] == [lines[0]] + lines[1..][..n];
      ContentConcat([lines[0]], lines[1..][..n]);
      ContentOne(lines[0]);
      assert lines == [lines[0]] + lines[1..];
      ContentConcat([lines[0]], lines[1..]);
      if !IsSkipped(lines[0]) {
        assert Content(lines)[1..] == Content(lines[1..]);
      }
    }
  }

  lemma {:induction false} ContentFind(lines: seq<string>, p: string, n: nat, key: string)
    requires IsKeyAt(p, n, key)
    ensures FindPrefix(Content(lines), p) < 0 <==> FindPrefix(lines, p) < 0
  {
    if lines != [] {
      KeyLine(lines[0], p, n, key);
      ContentFind(lines[1..], p, n, key);
      if !IsSkipped(lines[0]) {
        assert Content(lines)[1..] == Content(lines[1..]);
      }
    }
  }

  /** Setting a field does not see blank lines and comments. */
  lemma {:induction false} ContentSet(body: seq<string>, s: Setting)
    ensures Content(SetField(body, s)) == SetField(Content(body), s)
  {
    hide *;
    var line := FieldLine(s.field, s.value);
    FieldIsContent(line, s);
    if body == [] {
      SetFieldEmpty(s);
      ContentNone();
    } else {
      var first, rest := body[0], body[1..];
      assert body == [first] + rest;
      ContentConcat([first], rest);
      ContentOne(first);
      if HasPrefix(first, s.field.Prefix()) {
        FieldIsContent(first, s);
        SetFieldFirst(first, rest, s);
        SetFieldFirst(first, Content(rest), s);
        ContentConcat([line], rest);
      } else {
        ContentSet(rest, s);
        SetFieldCons(first, rest, s);
        SetFieldCons(first, Content(rest), s);
        ContentConcat([first], SetField(rest, s));
        assert [] + Content(rest) == Content(rest);
        assert [] + SetField(Content(rest), s) == SetField(Content(rest), s);
      }
    }
  }

  lemma ContentNone()
    ensures Content([]) == []
  {
  }

  lemma FieldIsContent(line: string, s: Setting)
    requires HasPrefix(line, s.field.Prefix()) || line == FieldLine(s.field, s.value)
    ensures Content([line]) == [line] && !IsSkipped(line)
  {
    KeysAt();
    FieldLineShape(s.field, s.value);
    hide FieldLine, IsSkipped, IsKeyAt;
    KeyLine(line, s.field.Prefix(), 4, s.field.Key());
    ContentOne(line);
  }

  lemma SetFieldEmpty(s: Setting)
    ensures SetField([], s) == [FieldLine(s.field, s.value)]
  {
  }

  lemma SetFieldFirst(first: string, rest: seq<string>, s: Setting)
    requires HasPrefix(first, s.field.Prefix())
    ensures SetField([first] + rest, s) == [FieldLine(s.field, s.value)] + rest
  {
    hide FieldLine;
  }

  lemma SetFieldCons(first: string, rest: seq<string>, s: Setting)
    requires !HasPrefix(first, s.field.Prefix())
    ensures SetField([first] + rest, s) == [first] + SetField(rest, s)
  {
    hide FieldLine, HasPrefix, Field.Prefix;
    assert ([first] + rest)[1..] == rest;
  }

  lemma {:induction false} ContentSetAll(body: seq<string>, settings: seq<Setting>)
    ensures Content(SetAll(body, settings)) == SetAll(Content(body), settings)
    decreases |settings|
  {
    if settings != [] {
      ContentSet(body, settings[0]);
      ContentSetAll(SetField(body, settings[0]), settings[1..]);
    }
  }

  // ------------------------------------------------------------ documents that nest as the edit does

  /** Nothing, or a mapping whose entries start at `n`. */
  ghost predicate StartsAt(lines: seq<string>, n: nat) {
    lines == [] || (Aligned(lines) && IndentOf(lines[0]) == n)
  }

  /** The field's value is not continued below its line. */
  ghost predicate Single(body: seq<string>, field: Field) {
    var i := FindPrefix(body, field.Prefix());
    0 <= i < |body| - 1 ==> IndentOf(body[i + 1]) <= 4
  }

  /** The document is laid out as the edit lays it out: its entries start at the margin, those of its
      core: block at two blanks and those of the backup: block at four; neither header carries a value, and
      no field that the edit can write has lines nested below it. */
  ghost predicate Nests(lines: seq<string>) {
    && StartsAt(Content(lines), 0)
    && (FindPrefix(lines, CORE) >= 0 ==>
          (!HasText(TrimPrefix(lines[FindPrefix(lines, CORE)], CORE)) && StartsAt(Content(CoreBlock(lines)), 2)))
    && (HasBackup(lines) ==>
          (!HasText(TrimPrefix(lines[BlockStart(lines) - 1], BACKUP))
           && StartsAt(Content(Block(lines)), 4)
           && forall f: Field :: Single(Content(Block(lines)), f)))
  }

  // ---------------------------------------------------------------- the same of a document that is cut

  ghost predicate Unskipped(lines: seq<string>) {
    forall l | l in lines :: !IsSkipped(l)
  }

  function ContentCut(cut: Cut): Cut {
    Cut(Content(cut.outer), cut.core, Content(cut.siblings), cut.backup, Content(cut.body), Content(cut.after))
  }

  /** Cut, and without blank lines and comments. */
  ghost predicate IsBare(cut: Cut) {
    && cut.Valid() && Unskipped(cut.outer) && Unskipped(cut.siblings) && Unskipped(cut.body) && Unskipped(cut.after)
    && !IsSkipped(cut.core) && !IsSkipped(cut.backup)
  }

  lemma ContentLines(cut: Cut)
    requires !IsSkipped(cut.core) && !IsSkipped(cut.backup)
    ensures Content(cut.Lines()) == ContentCut(cut).Lines()
    ensures Content(cut.siblings + ([cut.backup] + (cut.body + cut.after)))
      == Content(cut.siblings) + ([cut.backup] + (Content(cut.body) + Content(cut.after)))
  {
    hide IsSkipped, Content;
    var tail := cut.body + cut.after;
    var inner := cut.siblings + ([cut.backup] + tail);
    ContentConcat(cut.body, cut.after);
    ContentOne(cut.backup);
    ContentConcat([cut.backup], tail);
    ContentConcat(cut.siblings, [cut.backup] + tail);
    ContentOne(cut.core);
    ContentConcat([cut.core], inner);
    ContentConcat(cut.outer, [cut.core] + inner);
  }

  lemma HeadersAreContent(cut: Cut)
    requires cut.Valid()
    ensures !IsSkipped(cut.core) && IndentOf(cut.core) == 0
    ensures !IsSkipped(cut.backup) && IndentOf(cut.backup) == 2
  {
    KeysAt();
    KeyLine(cut.core, CORE, 0, "core");
    KeyLine(cut.backup, BACKUP, 2, "backup");
  }

  lemma BareCut(cut: Cut)
    requires cut.Valid()
    ensures IsBare(ContentCut(cut)) && Content(cut.Lines()) == ContentCut(cut).Lines()
  {
    HeadersAreContent(cut);
    ContentLines(cut);
    KeysAt();
    ContentFind(cut.outer, CORE, 0, "core");
    ContentFind(cut.siblings, BACKUP, 2, "backup");
    ContentIs(cut.outer);
    ContentIs(cut.siblings);
    ContentIs(cut.body);
    ContentIs(cut.after);
    ContentNoneEnd(cut.siblings, 0);
    ContentNoneEnd(cut.body, 2);
    if cut.after != [] {
      assert Content(cut.after)[0] == cut.after[0];
    }
    hide Content, FindPrefix, NoneEnd, EndsBlock, HasPrefix, IsSkipped;
  }

  lemma ContentNoneEnd(lines: seq<string>, h: nat)
    requires NoneEnd(lines, h)
    ensures NoneEnd(Content(lines), h)
  {
    ContentIs(lines);
    forall l | l in Content(lines) ensures !EndsBlock(l, h) {}
  }

  /** The lines below core:, blank lines and comments aside. */
  ghost function CoreMapping(cut: Cut): seq<string> {
    cut.siblings + ([cut.backup] + (cut.body + cut.after[..Deeper(cut.after, 0)]))
  }

  lemma DeeperLines(lines: seq<string>, h: nat)
    requires NoneEnd(lines, h) && Unskipped(lines)
    ensures forall l | l in lines :: IndentOf(l) > h
  {
  }

  lemma CoreMappingIs(cut: Cut)
    requires IsBare(cut)
    ensures var inner := cut.siblings + ([cut.backup] + (cut.body + cut.after));
      inner[..Deeper(inner, 0)] == CoreMapping(cut)
  {
    HeadersAreContent(cut);
    DeeperLines(cut.siblings, 0);
    DeeperLines(cut.body, 2);
    hide IndentOf, IsSkipped, Deeper, Cut.Valid;
    var front := cut.siblings + ([cut.backup] + cut.body);
    assert cut.siblings + ([cut.backup] + (cut.body + cut.after)) == front + cut.after;
    DeeperConcat(front, cut.after, 0);
  }

  ghost predicate WellCut(cut: Cut) {
    && StartsAt(cut.outer, 0)
    && !HasText(TrimPrefix(cut.core, CORE)) && !HasText(TrimPrefix(cut.backup, BACKUP))
    && StartsAt(CoreMapping(cut), 2)
    && StartsAt(cut.body, 4) && forall f: Field :: Single(cut.body, f)
  }

  lemma RootStarts(outer: seq<string>, core: string, rest: seq<string>)
    requires HasPrefix(core, CORE)
    ensures StartsAt(Content(outer + ([core] + rest)), 0) <==> StartsAt(Content(outer), 0)
  {
    KeysAt();
    KeyLine(core, CORE, 0, "core");
    ContentConcat(outer, [core] + rest);
    ContentConcat([core], rest);
    ContentOne(core);
  }

  lemma NestsMeans(lines: seq<string>)
    requires lines != []
    ensures Nests(lines) <==> WellCut(ContentCut(CutAt(Prepared(lines))))
  {
    hide *;
    if HasBackup(lines) {
      NestsWithBackup(lines);
    } else if FindPrefix(lines, CORE) >= 0 {
      NestsWithCore(lines);
    } else {
      NestsWithout(lines);
    }
  }

  lemma NestsWithBackup(lines: seq<string>)
    requires HasBackup(lines)
    ensures lines != [] && (Nests(lines) <==> WellCut(ContentCut(CutAt(Prepared(lines)))))
  {
    AlreadyPrepared(lines);
    CutAtValid(lines);
    CutAtShape(lines);
    var cut := CutAt(lines);
    BareCut(cut);
    CoreMappingIs(ContentCut(cut));
    HeadersAreContent(cut);
    ContentLines(cut);
    RootStarts(cut.outer, cut.core, cut.siblings + ([cut.backup] + (cut.body + cut.after)));
    InsideCore(lines, cut);
    hide Content, StartsAt, Single, HasText, FindPrefix, BlockLength, HasPrefix, IsBare, CoreMapping, Deeper, Cut.Valid,
      TrimPrefix, CoreBlock, Prepared;
  }

  lemma InsideCore(lines: seq<string>, cut: Cut)
    requires HasBackup(lines) && cut.Valid() && cut.Lines() == lines
    ensures var inner := Content(cut.siblings + ([cut.backup] + (cut.body + cut.after)));
      Content(CoreBlock(lines)) == inner[..Deeper(inner, 0)]
  {
    LocateCore(cut.outer, cut.core, cut.siblings + ([cut.backup] + (cut.body + cut.after)));
    ContentBlock(lines[|cut.outer| + 1..], 0);
    hide Content, FindPrefix, BlockLength, HasPrefix, Deeper;
  }

  /** Nothing is nested after a block that has ended. */
  lemma Ended(after: seq<string>, h: nat)
    requires after == [] || EndsBlock(after[0], h)
    ensures Deeper(Content(after), h) == 0
  {
  }

  /** The cut of a document that lacks the backup: block, with its header put in. */
  lemma CutInserted(lines: seq<string>) returns (cut: Cut)
    requires FindPrefix(lines, CORE) >= 0 && !HasBackup(lines)
    ensures lines != [] && CutAt(Prepared(lines)) == cut
    ensures var c, block := FindPrefix(lines, CORE), CoreBlock(lines);
      && HasPrefix(lines[c], CORE) && lines == lines[..c] + ([lines[c]] + lines[c + 1..])
      && cut == Cut(lines[..c], lines[c], block, BACKUP, [], lines[c + 1 + |block|..])
      && (cut.after == [] || EndsBlock(cut.after[0], 0))
  {
    var c, block := FindPrefix(lines, CORE), CoreBlock(lines);
    var after := lines[c + 1 + |block|..];
    cut := Cut(lines[..c], lines[c], block, BACKUP, [], after);
    InsertedValid(lines, cut);
    InsertedLines(lines, cut);
    Around(lines, c);
    hide *;
    CutUnique(cut);
  }

  lemma InsertedValid(lines: seq<string>, cut: Cut)
    requires FindPrefix(lines, CORE) >= 0 && !HasBackup(lines)
    requires var c, block := FindPrefix(lines, CORE), CoreBlock(lines);
      cut == Cut(lines[..c], lines[c], block, BACKUP, [], lines[c + 1 + |block|..])
    ensures cut.Valid() && (cut.after == [] || EndsBlock(cut.after[0], 0))
  {
    var rest := lines[FindPrefix(lines, CORE) + 1..];
    FoundPrefix(lines, CORE);
    BlockLengthEnds(rest, 0);
    assert cut.after == rest[BlockLength(rest, 0)..];
    EndsDeeper(cut.after);
    hide FindPrefix, BlockLength, EndsBlock, NoneEnd;
    assert NoneEnd([], 2) by { NoneOfNone(2); }
    assert HasPrefix(BACKUP, BACKUP);
  }

  lemma NoneOfNone(h: nat)
    ensures NoneEnd([], h)
  {
  }

  lemma EndsDeeper(after: seq<string>)
    requires after == [] || EndsBlock(after[0], 0)
    ensures after == [] || EndsBlock(after[0], 2)
  {
  }

  lemma InsertedLines(lines: seq<string>, cut: Cut)
    requires FindPrefix(lines, CORE) >= 0 && !HasBackup(lines)
    requires var c, block := FindPrefix(lines, CORE), CoreBlock(lines);
      cut == Cut(lines[..c], lines[c], block, BACKUP, [], lines[c + 1 + |block|..])
    ensures lines != [] && Prepared(lines) == cut.Lines()
  {
    hide FindPrefix, BlockLength, EndsBlock, HasPrefix, Cut.Valid;
    BackupInserted(lines, FindPrefix(lines, CORE), |CoreBlock(lines)|);
    assert [] + cut.after == cut.after;
  }

  lemma WellWithoutBackup(cut: Cut)
    requires cut.body == [] && cut.backup == BACKUP && Deeper(cut.after, 0) == 0
    ensures WellCut(cut) <==>
      StartsAt(cut.outer, 0) && !HasText(TrimPrefix(cut.core, CORE)) && StartsAt(cut.siblings, 2)
  {
    assert TrimPrefix(BACKUP, BACKUP) == "";
    assert CoreMapping(cut) == cut.siblings + [BACKUP];
    EmptyBackup(cut.siblings);
    hide StartsAt, HasText, CoreMapping, BACKUP, CORE;
    assert forall f: Field :: Single([], f);
    assert StartsAt([], 4) by {
      StartsEmpty(4);
    }
  }

  lemma StartsEmpty(n: nat)
    ensures StartsAt([], n) && !HasText("")
  {
  }

  lemma NestsWithCore(lines: seq<string>)
    requires FindPrefix(lines, CORE) >= 0 && !HasBackup(lines)
    ensures lines != [] && (Nests(lines) <==> WellCut(ContentCut(CutAt(Prepared(lines)))))
  {
    var cut := CutInserted(lines);
    RootStarts(cut.outer, cut.core, lines[FindPrefix(lines, CORE) + 1..]);
    Ended(cut.after, 0);
    assert Content([]) == [];
    hide CutAt, Prepared, CoreBlock, FindPrefix, HasBackup, WellCut, StartsAt, HasText, TrimPrefix, Content, Single,
      HasPrefix, EndsBlock, Deeper;
    WellWithoutBackup(ContentCut(cut));
  }

  lemma EmptyBackup(siblings: seq<string>)
    ensures StartsAt(siblings + [BACKUP], 2) <==> StartsAt(siblings, 2)
  {
    KeysAt();
    KeyLine(BACKUP, BACKUP, 2, "backup");
    if siblings != [] {
      assert (siblings + [BACKUP])[0] == siblings[0];
    }
  }

  lemma CutAppended(lines: seq<string>) returns (padded: seq<string>)
    requires lines != [] && FindPrefix(lines, CORE) < 0
    ensures CutAt(Prepared(lines)) == Cut(padded, CORE, [], BACKUP, [], [])
    ensures Content(padded) == Content(lines)
  {
    var l := WithCore(lines);
    padded := l[..|l| - 1];
    var cut := Cut(padded, CORE, [], BACKUP, [], []);
    assert padded == lines || padded == lines + [""];
    assert l == padded + [CORE];
    FindPrefixConcat(lines, [""], CORE);
    assert !HasPrefix("", CORE);
    assert FindPrefix([""], CORE) == -1;
    assert cut.Valid();
    ContentConcat(lines, [""]);
    ContentOne("");
    WithCoreFound(lines, padded);
    CoreAppended(l);
    hide *;
    AppendedLines(padded);
    CutUnique(cut);
  }

  lemma AppendedLines(padded: seq<string>)
    ensures Cut(padded, CORE, [], BACKUP, [], []).Lines() == padded + [CORE] + [BACKUP]
  {
  }

  lemma NestsWithout(lines: seq<string>)
    requires lines != [] && FindPrefix(lines, CORE) < 0
    ensures Nests(lines) <==> WellCut(ContentCut(CutAt(Prepared(lines))))
  {
    var padded := CutAppended(lines);
    assert Content([]) == [] && Deeper([], 0) == 0;
    assert TrimPrefix(CORE, CORE) == "";
    StartsEmpty(2);
    hide CutAt, Prepared, FindPrefix, WellCut, StartsAt, HasText, TrimPrefix, Content, Deeper, CORE, BACKUP;
    WellWithoutBackup(ContentCut(Cut(padded, CORE, [], BACKUP, [], [])));
  }

  // --------------------------------------------------------------------- reading a cut document

  lemma StartsAligned(lines: seq<string>, n: nat)
    requires lines != []
    ensures StartsAt(lines, n) <==> IndentOf(lines[0]) == n && forall l | l in lines :: IndentOf(l) >= n
  {
  }

  /** One level of reading, through the eyes of the edit. */
  lemma ReadStep(lines: seq<string>, p: string, n: nat, path: seq<string>)
    requires path != [] && IsKeyAt(p, n, path[0]) && lines != [] && StartsAt(lines, n)
    ensures Read(lines, path) ==
      var i := FindPrefix(lines, p);
      if i < 0 || |lines[i]| < |p| then None
      else
        var text, nested := lines[i][|p|..], lines[i + 1..][..Deeper(lines[i + 1..], n)];
        if |path| == 1 then if nested == [] then Some(TrimPrefix(text, " ")) else None
        else if HasText(text) then None
        else Read(nested, path[1..])
  {
    FindIs(lines, p, n, path[0]);
    hide Find, FindPrefix, Deeper, IsKeyAt, HasText, TrimPrefix;
  }

  lemma ReadRoot(cut: Cut, f: Field)
    requires IsBare(cut)
    ensures Read(cut.Lines(), ["core", "backup", f.Key()]) ==
      if StartsAt(cut.outer, 0) && !HasText(TrimPrefix(cut.core, CORE))
      then Read(CoreMapping(cut), ["backup", f.Key()]) else None
  {
    var lines, inner := cut.Lines(), cut.siblings + ([cut.backup] + (cut.body + cut.after));
    KeysAt();
    HeadersAreContent(cut);
    CoreMappingIs(cut);
    LocateCore(cut.outer, cut.core, inner);
    var path := ["core", "backup", f.Key()];
    assert path[1..] == ["backup", f.Key()];
    assert lines[|cut.outer|] == cut.core && cut.core in lines;
    assert StartsAt(cut.outer, 0) <==> StartsAt(lines, 0);
    assert TrimPrefix(cut.core, CORE) == cut.core[|CORE|..];
    if StartsAt(lines, 0) {
      hide Read, FindPrefix, CoreMapping, Deeper, HasText, StartsAt, IsBare, Cut.Lines, IsKeyAt, TrimPrefix, CORE;
      ReadStep(lines, CORE, 0, path);
    } else {
      assert !Aligned(lines);
    }
  }

  lemma ReadCore(cut: Cut, f: Field)
    requires IsBare(cut) && StartsAt(CoreMapping(cut), 2)
    ensures Read(CoreMapping(cut), ["backup", f.Key()]) ==
      if HasText(TrimPrefix(cut.backup, BACKUP)) then None else Read(cut.body, [f.Key()])
  {
    var rest, i, path := cut.after[..Deeper(cut.after, 0)], |cut.siblings|, ["backup", f.Key()];
    var lines := CoreMapping(cut);
    BackupInMapping(cut);
    DeeperLines(cut.body, 2);
    DeeperConcat(cut.body, rest, 2);
    assert Deeper(rest, 2) == 0;
    assert (cut.body + rest)[..|cut.body|] == cut.body;
    KeysAt();
    assert path[1..] == [f.Key()];
    assert TrimPrefix(cut.backup, BACKUP) == cut.backup[|BACKUP|..];
    hide Read, FindPrefix, CoreMapping, Deeper, HasText, IsBare, StartsAt, IsKeyAt, TrimPrefix, BACKUP;
    ReadStep(lines, BACKUP, 2, path);
  }

  lemma BackupInMapping(cut: Cut)
    requires IsBare(cut)
    ensures var lines, i := CoreMapping(cut), |cut.siblings|;
      && FindPrefix(lines, BACKUP) == i && i < |lines| && lines[i] == cut.backup && HasPrefix(cut.backup, BACKUP)
      && lines[i + 1..] == cut.body + cut.after[..Deeper(cut.after, 0)]
  {
    var rest := cut.body + cut.after[..Deeper(cut.after, 0)];
    FindPrefixHead(cut.backup, rest, BACKUP);
    FindPrefixConcat(cut.siblings, [cut.backup] + rest, BACKUP);
  }

  lemma ReadBody(body: seq<string>, f: Field)
    requires body != [] && StartsAt(body, 4)
    ensures Read(body, [f.Key()]) ==
      var i := FindPrefix(body, f.Prefix());
      if i < 0 || !Single(body, f) then None
      else TrimValue(body[i], f.Prefix())
  {
    KeysAt();
    ReadStep(body, f.Prefix(), 4, [f.Key()]);
    var i := FindPrefix(body, f.Prefix());
    if i >= 0 {
      NothingBelow(body, i, 4);
    }
    hide Read, FindPrefix, Deeper, StartsAt, IsKeyAt, TrimPrefix, Field.Prefix, Field.Key;
  }

  lemma NothingBelow(lines: seq<string>, i: nat, n: nat)
    requires i < |lines|
    ensures lines[i + 1..][..Deeper(lines[i + 1..], n)] == [] <==> (i < |lines| - 1 ==> IndentOf(lines[i + 1]) <= n)
  {
  }

  function TrimValue(line: string, prefix: string): Option<string> {
    if |prefix| <= |line| then Some(TrimPrefix(line[|prefix|..], " ")) else None
  }

  // ------------------------------------------------------- an edit changes nothing about the nesting

  lemma SetFieldIndents(body: seq<string>, s: Setting)
    ensures var out := SetField(body, s);
      && |body| <= |out| && out != []
      && (forall i | 0 <= i < |body| :: IndentOf(out[i]) == IndentOf(body[i]))
      && (forall i | |body| <= i < |out| :: IndentOf(out[i]) == 4)
  {
    KeysAt();
    FieldLineShape(s.field, s.value);
    KeyLine(FieldLine(s.field, s.value), s.field.Prefix(), 4, s.field.Key());
    if FindPrefix(body, s.field.Prefix()) >= 0 {
      FoundPrefix(body, s.field.Prefix());
      KeyLine(body[FindPrefix(body, s.field.Prefix())], s.field.Prefix(), 4, s.field.Key());
    }
    hide FieldLine, IndentOf, FindPrefix, Field.Prefix;
  }

  lemma {:induction false} SetAllIndents(body: seq<string>, settings: seq<Setting>)
    ensures var out := SetAll(body, settings);
      && |body| <= |out| && (settings != [] ==> out != [])
      && (forall i | 0 <= i < |body| :: IndentOf(out[i]) == IndentOf(body[i]))
      && (forall i | |body| <= i < |out| :: IndentOf(out[i]) == 4)
    decreases |settings|
  {
    if settings != [] {
      hide IndentOf, SetField;
      SetFieldIndents(body, settings[0]);
      SetAllIndents(SetField(body, settings[0]), settings[1..]);
    }
  }

  lemma StartKept(body: seq<string>, settings: seq<Setting>)
    ensures StartsAt(SetAll(body, settings), 4) <==> StartsAt(body, 4)
  {
    SetAllIndents(body, settings);
    var out := SetAll(body, settings);
    if body != [] {
      StartsAligned(body, 4);
      StartsAligned(out, 4);
      assert forall i | 0 <= i < |body| :: out[i] in out && body[i] in body;
    } else if out != [] {
      StartsAligned(out, 4);
    }
  }

  lemma SingleStep(body: seq<string>, s: Setting, f: Field)
    ensures Single(SetField(body, s), f) <==> Single(body, f)
  {
    FindAfterSet(body, s, f);
    SetFieldIndents(body, s);
    SetFieldFrame(body, s);
    hide IndentOf, FindPrefix, FieldLine;
  }

  lemma {:induction false} SingleKept(body: seq<string>, settings: seq<Setting>, f: Field)
    ensures Single(SetAll(body, settings), f) <==> Single(body, f)
    decreases |settings|
  {
    if settings != [] {
      SingleStep(body, settings[0], f);
      SingleKept(SetField(body, settings[0]), settings[1..], f);
    }
  }

  lemma CoreStarts(cut: Cut)
    requires IsBare(cut)
    ensures StartsAt(CoreMapping(cut), 2) <==>
      && StartsAt(cut.siblings, 2)
      && forall l | l in cut.after[..Deeper(cut.after, 0)] :: IndentOf(l) >= 2
  {
    HeadersAreContent(cut);
    DeeperLines(cut.body, 2);
    var rest, lines := cut.after[..Deeper(cut.after, 0)], CoreMapping(cut);
    assert forall l :: l in lines <==> l in cut.siblings || l == cut.backup || l in cut.body || l in rest;
    hide Deeper, IsBare, IndentOf, CoreMapping;
    StartsAligned(lines, 2);
    if cut.siblings != [] {
      assert lines[0] == cut.siblings[0] by { FirstOfMapping(cut); }
      StartsAligned(cut.siblings, 2);
    } else {
      assert lines[0] == cut.backup by { FirstOfMapping(cut); }
    }
  }

  lemma FirstOfMapping(cut: Cut)
    ensures CoreMapping(cut) != []
    ensures CoreMapping(cut)[0] == if cut.siblings != [] then cut.siblings[0] else cut.backup
  {
  }

  lemma WellKept(cut: Cut, settings: seq<Setting>)
    requires IsBare(cut) && IsBare(cut.(body := SetAll(cut.body, settings)))
    ensures WellCut(cut.(body := SetAll(cut.body, settings))) <==> WellCut(cut)
  {
    StartKept(cut.body, settings);
    forall f: Field ensures Single(SetAll(cut.body, settings), f) <==> Single(cut.body, f) {
      SingleKept(cut.body, settings, f);
    }
    CoreStarts(cut);
    CoreStarts(cut.(body := SetAll(cut.body, settings)));
    hide Single, StartsAt, SetAll, CoreMapping, IsBare, HasText;
  }

  /** The content of an edited document, cut. */
  lemma EditedContent(lines: seq<string>, settings: seq<Setting>) returns (cut: Cut)
    requires lines != []
    ensures IsBare(cut) && cut == ContentCut(CutAt(Prepared(lines)))
    ensures var edited := cut.(body := SetAll(cut.body, settings));
      IsBare(edited) && Content(EditLines(lines, settings)) == edited.Lines()
      && HasBackup(EditLines(lines, settings)) && ContentCut(CutAt(EditLines(lines, settings))) == edited
  {
    hide *;
    EditIs(lines, settings);
    var whole := EditedCut(Prepared(lines), settings);
    BareCut(whole);
    BareCut(whole.(body := SetAll(whole.body, settings)));
    ContentSetAll(whole.body, settings);
    cut := ContentCut(whole);
    SameCut(whole, settings);
  }

  lemma EditIs(lines: seq<string>, settings: seq<Setting>)
    requires lines != []
    ensures EditLines(lines, settings) == EditBlock(Prepared(lines), settings)
  {
  }

  lemma SameCut(whole: Cut, settings: seq<Setting>)
    requires Content(SetAll(whole.body, settings)) == SetAll(Content(whole.body), settings)
    ensures ContentCut(whole.(body := SetAll(whole.body, settings)))
      == ContentCut(whole).(body := SetAll(ContentCut(whole).body, settings))
  {
  }

  // ------------------------------------------------------------------------ what is read is what was set

  lemma WellReads(cut: Cut, body: seq<string>, settings: seq<Setting>, k: nat)
    requires IsBare(cut) && WellCut(cut) && cut.body == SetAll(body, settings)
    requires DistinctFields(settings) && k < |settings|
    ensures Read(cut.Lines(), ["core", "backup", settings[k].field.Key()]) == Some(settings[k].value)
  {
    var s := settings[k];
    SetAllIndents(body, settings);
    SetAllSets(body, settings, k);
    FieldLineShape(s.field, s.value);
    hide Read, SetAll, FieldLine, FindPrefix, IsBare, CoreMapping, HasText, StartsAt, Single;
    ReadRoot(cut, s.field);
    ReadCore(cut, s.field);
    ReadBody(cut.body, s.field);
  }

  // ------------------------------------------------- and a value nobody else holds shows where it was read

  ghost predicate Shorter(lines: seq<string>, n: nat) {
    forall l | l in lines :: |l| < n
  }

  /** A value is read off a line that is longer, and at the place where its mapping's entries start. */
  lemma ReadLeaf(lines: seq<string>, key: string) returns (j: nat)
    requires Read(lines, [key]).Some?
    ensures Aligned(lines) && j < |lines| && IndentOf(lines[j]) == IndentOf(lines[0])
    ensures |Read(lines, [key]).value| <= |lines[j]|
  {
    j := FindMeans(lines, IndentOf(lines[0]), key);
  }

  /** An inner value is read inside an entry: all the lines there are deeper than its header, and it
      comes without a shallower line in between. */
  lemma ReadInner(lines: seq<string>, key: string, leaf: string) returns (j: nat, k: nat)
    requires Read(lines, [key, leaf]).Some?
    ensures Aligned(lines) && j < k < |lines| && IndentOf(lines[j]) == IndentOf(lines[0])
    ensures |Read(lines, [key, leaf]).value| <= |lines[k]|
    ensures forall i | j < i <= k :: IndentOf(lines[i]) >= IndentOf(lines[k])
  {
    var path := [key, leaf];
    assert path[1..] == [leaf];
    j := FindMeans(lines, IndentOf(lines[0]), key);
    var nested := lines[j + 1..][..Deeper(lines[j + 1..], IndentOf(lines[0]))];
    assert Read(nested, [leaf]) == Read(lines, path);
    var m := ReadLeaf(nested, leaf);
    k := j + 1 + m;
    forall i | j < i <= k ensures IndentOf(lines[i]) >= IndentOf(lines[k]) {
      assert nested[i - j - 1] == lines[i] && lines[i] in nested;
    }
  }

  /** `line` is the only one that could hold the value. */
  ghost predicate OnlyIn(cut: Cut, line: string, n: nat) {
    && Shorter(cut.siblings, n) && |cut.backup| < n && Shorter(cut.after, n)
    && forall l | l in cut.body && |l| >= n :: l == line
  }

  lemma MappingAt(cut: Cut, k: nat)
    requires k < |CoreMapping(cut)|
    ensures var l, s, b := CoreMapping(cut)[k], |cut.siblings|, |cut.body|;
      if k < s then l in cut.siblings
      else if k == s then l == cut.backup
      else if k <= s + b then l == cut.body[k - s - 1] && l in cut.body
      else l in cut.after
  {
    var s, b, rest := |cut.siblings|, |cut.body|, cut.after[..Deeper(cut.after, 0)];
    if k > s + b {
      assert CoreMapping(cut)[k] == rest[k - s - b - 1];
      assert rest[k - s - b - 1] in rest;
    } else if k > s {
      assert CoreMapping(cut)[k] == cut.body[k - s - 1];
    }
  }

  /** A value that only a line at four blanks in the edited block holds is read there only if the edited
      header is an entry of the core: mapping. */
  lemma ReadOnlyThere(cut: Cut, key: string, line: string, n: nat)
    requires IsBare(cut) && OnlyIn(cut, line, n) && IndentOf(line) == 4
    requires var v := Read(CoreMapping(cut), ["backup", key]); v.Some? && |v.value| >= n
    ensures StartsAt(CoreMapping(cut), 2)
  {
    var lines := CoreMapping(cut);
    var j, k := ReadInner(lines, "backup", key);
    HeadersAreContent(cut);
    DeeperLines(cut.body, 2);
    MappingAt(cut, k);
    assert lines[k] == line && |cut.siblings| < k;
    MappingAt(cut, |cut.siblings|);
    MappingAt(cut, j);
    assert lines[|cut.siblings|] in lines;
    hide Read, IsBare, CoreMapping, IndentOf;
  }

  lemma {:induction false} SetAllLines(body: seq<string>, settings: seq<Setting>, l: string)
    requires l in SetAll(body, settings)
    ensures l in body || exists s :: s in settings && l == FieldLine(s.field, s.value)
    decreases |settings|
  {
    if settings != [] {
      hide FieldLine;
      var s := settings[0];
      SetAllLines(SetField(body, s), settings[1..], l);
      if l in SetField(body, s) {
        assert l in body || l == FieldLine(s.field, s.value);
      }
    }
  }

  /** When every field is read back, one of them with a value held by its own line only, the document
      nests as it should. */
  lemma ReadsWell(cut: Cut, line: string, x: string)
    requires IsBare(cut) && OnlyIn(cut, line, |x|) && IndentOf(line) == 4
    requires Read(cut.Lines(), ["core", "backup", Repo.Key()]) == Some(x)
    requires forall f: Field :: Read(cut.Lines(), ["core", "backup", f.Key()]).Some?
    ensures WellCut(cut)
  {
    hide Read, IsBare, CoreMapping, IndentOf, HasText, Single, StartsAt, Field.Key, Cut.Lines, OnlyIn, FindPrefix;
    ReadRoot(cut, Repo);
    ReadOnlyThere(cut, Repo.Key(), line, |x|);
    ReadCore(cut, Repo);
    BodyStarts(cut, Repo.Key(), line, x);
    forall f: Field ensures Single(cut.body, f) {
      ReadRoot(cut, f);
      ReadCore(cut, f);
      ReadBody(cut.body, f);
    }
  }

  lemma BodyStarts(cut: Cut, key: string, line: string, x: string)
    requires OnlyIn(cut, line, |x|) && IndentOf(line) == 4 && Read(cut.body, [key]) == Some(x)
    ensures cut.body != [] && StartsAt(cut.body, 4)
  {
    var j := ReadLeaf(cut.body, key);
    assert cut.body[j] in cut.body;
  }

  // --------------------------------------------------------------------------------- put-get

  function Longest(lines: seq<string>): (n: nat)
    ensures forall l | l in lines :: |l| <= n
  {
    if lines == [] then 0
    else
      var n := Longest(lines[1..]);
      if |lines[0]| > n then |lines[0]| else n
  }

  function Xs(n: nat): (s: string)
    ensures |s| == n && '\n' !in s
  {
    if n == 0 then "" else "x" + Xs(n - 1)
  }

  /** A request for all four fields, with a repository longer than anything else. */
  function Probe(n: nat): Request {
    Request(Xs(n), "1h", "1d", Some(true))
  }

  lemma ProbeSettings(n: nat)
    ensures Probe(n).Settings() == [Setting(Repo, Xs(n)), Setting(Interval, "1h"), Setting(VerifyInterval, "1d"),
                                    Setting(AppendOnly, "true")]
  {
  }

  lemma ProbeIs(n: nat)
    requires n > 40
    ensures Probe(n).NewlineFree()
    ensures forall f: Field :: Mentions(Probe(n).Settings(), f)
    ensures forall s | s in Probe(n).Settings() :: |FieldLine(s.field, s.value)| < n || s == Setting(Repo, Xs(n))
  {
    var settings := Probe(n).Settings();
    ProbeSettings(n);
    assert '\n' !in "1h" && '\n' !in "1d" && '\n' !in "true" && '\n' !in Xs(n);
    assert |FieldLine(Interval, "1h")| < n && |FieldLine(VerifyInterval, "1d")| < n;
    assert |FieldLine(AppendOnly, "true")| < n;
    hide Probe, Xs, FieldLine, Request.Settings;
    assert settings[0] in settings && settings[1] in settings && settings[2] in settings && settings[3] in settings;
  }

  lemma FieldLineIndent(f: Field, value: string)
    ensures IndentOf(FieldLine(f, value)) == 4
  {
    KeysAt();
    FieldLineShape(f, value);
    KeyLine(FieldLine(f, value), f.Prefix(), 4, f.Key());
  }

  ghost predicate LinesReadBack(lines: seq<string>, settings: seq<Setting>)
    requires lines != []
  {
    forall s | s in settings :: ReadLines(EditLines(lines, settings), s.field) == Some(s.value)
  }

  lemma NestsReads(lines: seq<string>, settings: seq<Setting>)
    requires lines != [] && Nests(lines) && DistinctFields(settings)
    ensures LinesReadBack(lines, settings)
  {
    hide *;
    NestsMeans(lines);
    var cut := EditedContent(lines, settings);
    WellKept(cut, settings);
    forall k | 0 <= k < |settings|
      ensures ReadLines(EditLines(lines, settings), settings[k].field) == Some(settings[k].value)
    {
      WellReads(cut.(body := SetAll(cut.body, settings)), cut.body, settings, k);
      ReadLinesIs(EditLines(lines, settings), settings[k].field);
    }
    ReadBackAll(lines, settings);
  }

  lemma ReadLinesIs(lines: seq<string>, f: Field)
    ensures ReadLines(lines, f) == Read(Content(lines), ["core", "backup", f.Key()])
  {
  }

  lemma ReadBackAll(lines: seq<string>, settings: seq<Setting>)
    requires lines != []
    requires forall k | 0 <= k < |settings| ::
      ReadLines(EditLines(lines, settings), settings[k].field) == Some(settings[k].value)
    ensures LinesReadBack(lines, settings)
  {
  }

  /** The size of a value that no line of the document has room for. */
  function Room(lines: seq<string>): nat
    requires lines != []
  {
    Longest(Content(Prepared(lines))) + 41
  }

  lemma ReadsNest(lines: seq<string>)
    requires lines != [] && LinesReadBack(lines, Probe(Room(lines)).Settings())
    ensures Nests(lines)
  {
    hide *;
    var n := Room(lines);
    var settings, x := Probe(n).Settings(), Xs(n);
    RoomIs(lines);
    ProbeIs(n);
    FieldLineIndent(Repo, x);
    var cut := EditedContent(lines, settings);
    var edited := cut.(body := SetAll(cut.body, settings));
    ShortCut(lines, cut);
    ProbeOnly(cut, settings, n);
    forall f: Field
      ensures Read(edited.Lines(), ["core", "backup", f.Key()]).Some?
      ensures f == Repo ==> Read(edited.Lines(), ["core", "backup", f.Key()]) == Some(x)
    {
      FieldReadBack(lines, n, f);
    }
    ReadsWell(edited, FieldLine(Repo, x), x);
    WellKept(cut, settings);
    NestsMeans(lines);
  }

  lemma FieldReadBack(lines: seq<string>, n: nat, f: Field)
    requires n > 40 && lines != [] && LinesReadBack(lines, Probe(n).Settings())
    ensures var value := Read(Content(EditLines(lines, Probe(n).Settings())), ["core", "backup", f.Key()]);
      value.Some? && (f == Repo ==> value == Some(Xs(n)))
  {
    var settings := Probe(n).Settings();
    ProbeIs(n);
    ProbeSettings(n);
    hide Probe, Xs, FieldLine, Request.Settings, Read, Content, EditLines, Field.Key;
    if f == Repo {
      assert settings[0] in settings;
      assert ReadLines(EditLines(lines, settings), Repo) == Some(Xs(n));
    } else {
      var s :| s in settings && s.field == f;
      assert ReadLines(EditLines(lines, settings), f) == Some(s.value);
    }
  }

  lemma ShortCut(lines: seq<string>, cut: Cut)
    requires lines != [] && cut == ContentCut(CutAt(Prepared(lines)))
    ensures Shorter(cut.siblings, Room(lines)) && |cut.backup| < Room(lines) && Shorter(cut.after, Room(lines))
    ensures Shorter(cut.body, Room(lines))
  {
    hide *;
    CutAtValid(Prepared(lines));
    CutAtShape(Prepared(lines));
    BareCut(CutAt(Prepared(lines)));
    LinesOf(cut);
    RoomIs(lines);
    ShorterAll(lines, cut);
  }

  lemma LinesOf(cut: Cut)
    ensures forall l | l in cut.siblings || l == cut.backup || l in cut.after || l in cut.body :: l in cut.Lines()
  {
  }

  lemma RoomIs(lines: seq<string>)
    requires lines != []
    ensures Room(lines) > 40 && forall l | l in Content(Prepared(lines)) :: |l| < Room(lines)
  {
    hide Prepared, Content;
  }

  lemma ShorterAll(lines: seq<string>, cut: Cut)
    requires lines != [] && Content(Prepared(lines)) == cut.Lines()
    requires forall l | l in Content(Prepared(lines)) :: |l| < Room(lines)
    requires forall l | l in cut.siblings || l == cut.backup || l in cut.after || l in cut.body :: l in cut.Lines()
    ensures Shorter(cut.siblings, Room(lines)) && |cut.backup| < Room(lines) && Shorter(cut.after, Room(lines))
    ensures Shorter(cut.body, Room(lines))
  {
    hide Prepared, Content, Room, Cut.Lines;
  }

  lemma ProbeOnly(cut: Cut, settings: seq<Setting>, n: nat)
    requires Shorter(cut.siblings, n) && |cut.backup| < n && Shorter(cut.after, n) && Shorter(cut.body, n)
    requires forall s | s in settings :: |FieldLine(s.field, s.value)| < n || s == Setting(Repo, Xs(n))
    ensures OnlyIn(cut.(body := SetAll(cut.body, settings)), FieldLine(Repo, Xs(n)), n)
  {
    hide FieldLine, Xs, SetAll;
    forall l | l in SetAll(cut.body, settings) && |l| >= n ensures l == FieldLine(Repo, Xs(n)) {
      SetAllLines(cut.body, settings, l);
    }
  }

  /** Every value the request sets is read back. */
  ghost predicate ReadsBack(text: string, r: Request) {
    forall s | s in r.Settings() :: ReadField(EditText(text, r), s.field) == Some(s.value)
  }

  lemma ReadsBackLines(text: string, r: Request)
    requires r.NewlineFree()
    ensures ReadsBack(text, r) <==> LinesReadBack(Split(text, '\n'), r.Settings())
  {
    EditedTextLines(text, r);
    hide EditText, EditLines, Split, ReadLines;
  }

  lemma {:induction false} ReadIsNewlineFree(lines: seq<string>, path: seq<string>)
    requires AllFree(lines, '\n') && path != []
    ensures Read(lines, path).Some? ==> '\n' !in Read(lines, path).value
    decreases |path|
  {
    if Aligned(lines) && Find(lines, IndentOf(lines[0]), path[0]).Some? {
      var j := FindMeans(lines, IndentOf(lines[0]), path[0]);
      var e := Find(lines, IndentOf(lines[0]), path[0]).value;
      assert lines[j] in lines;
      assert forall l | l in e.nested :: l in lines;
      if |path| > 1 {
        ReadIsNewlineFree(e.nested, path[1..]);
      }
    }
  }

  /** Put-get. A value with a newline is never read back. Every other request is read back, whatever it
      sets, if and only if the document nests as the edit does: whether or not core:, backup: or the
      fields were there, what was there must be laid out like that. */
  lemma PutGet(text: string)
    ensures forall r | ReadsBack(text, r) :: r.NewlineFree()
    ensures (forall r: Request | r.NewlineFree() :: ReadsBack(text, r)) <==> Nests(Split(text, '\n'))
  {
    var lines := Split(text, '\n');
    forall r | ReadsBack(text, r) ensures r.NewlineFree() {
      NeverANewline(text, r);
    }
    if Nests(lines) {
      forall r: Request | r.NewlineFree() ensures ReadsBack(text, r) {
        SettingsDistinct(r);
        hide ReadsBack, Nests, Split, Request.NewlineFree, DistinctFields, LinesReadBack, Request.Settings;
        NestsReads(lines, r.Settings());
        ReadsBackLines(text, r);
      }
    }
    if forall r: Request | r.NewlineFree() :: ReadsBack(text, r) {
      var n := Room(lines);
      RoomIs(lines);
      ProbeIs(n);
      hide ReadsBack, Nests, Split, Request.NewlineFree, Probe, Room, LinesReadBack, Request.Settings;
      assert ReadsBack(text, Probe(n));
      ReadsBackLines(text, Probe(n));
      ReadsNest(lines);
    }
  }

  lemma NeverANewline(text: string, r: Request)
    requires ReadsBack(text, r)
    ensures r.NewlineFree()
  {
    var lines := Split(EditText(text, r), '\n');
    ContentIs(lines);
    forall s | s in r.Settings() ensures '\n' !in s.value {
      assert ReadField(EditText(text, r), s.field) == Some(s.value);
      ReadIsNewlineFree(Content(lines), ["core", "backup", s.field.Key()]);
    }
  }

  lemma {:induction false} UnmentionedKept(body: seq<string>, settings: seq<Setting>, f: Field)
    requires !Mentions(settings, f)
    ensures var i := FindPrefix(body, f.Prefix());
      && FindPrefix(SetAll(body, settings), f.Prefix()) == i
      && (i >= 0 ==> (i < |SetAll(body, settings)| && SetAll(body, settings)[i] == body[i]))
    decreases |settings|
  {
    if settings != [] {
      var s := settings[0];
      assert s in settings;
      FindAfterSet(body, s, f);
      if FindPrefix(body, f.Prefix()) >= 0 {
        FieldsApart(body, f, s.field);
      }
      hide FindPrefix, FieldLine;
      UnmentionedKept(SetField(body, s), settings[1..], f);
    }
  }

  /** What a well nested document says about a field. */
  lemma WellValue(cut: Cut, f: Field)
    requires IsBare(cut) && WellCut(cut)
    ensures Read(cut.Lines(), ["core", "backup", f.Key()]) ==
      var i := FindPrefix(cut.body, f.Prefix());
      if i < 0 then None else TrimValue(cut.body[i], f.Prefix())
  {
    hide Read, FindPrefix, IsBare, CoreMapping, HasText, StartsAt, Single, TrimValue;
    ReadRoot(cut, f);
    ReadCore(cut, f);
    if cut.body == [] {
      NothingThere(f);
    } else {
      ReadBody(cut.body, f);
    }
  }

  lemma NothingThere(f: Field)
    ensures Read([], [f.Key()]) == None && FindPrefix([], f.Prefix()) == -1
  {
  }

  /** A document without a backup: block has no value there. */
  lemma NothingYet(lines: seq<string>, f: Field)
    requires lines != [] && Nests(lines) && !HasBackup(lines)
    ensures ReadLines(lines, f) == None
  {
    var content, path := Content(lines), ["core", "backup", f.Key()];
    KeysAt();
    ContentFind(lines, CORE, 0, "core");
    assert path[1..] == ["backup", f.Key()];
    if content == [] {
    } else if FindPrefix(lines, CORE) < 0 {
      hide Read, FindPrefix, Content, IsKeyAt;
      ReadStep(content, CORE, 0, path);
    } else {
      var block := Content(CoreBlock(lines));
      var i, nested := CoreNested(lines);
      ContentFind(CoreBlock(lines), BACKUP, 2, "backup");
      assert StartsAt(block, 2);
      hide Read, FindPrefix, Content, IsKeyAt, CoreBlock, Deeper, HasText;
      ReadStep(content, CORE, 0, path);
      if block != [] {
        ReadStep(block, BACKUP, 2, path[1..]);
      } else {
        NoMapping(path[1..]);
      }
    }
  }

  lemma NoMapping(path: seq<string>)
    requires path != []
    ensures Read([], path) == None
  {
  }

  /** What is nested below core:, for the reader, is the content of its block. */
  lemma CoreNested(lines: seq<string>) returns (i: nat, nested: seq<string>)
    requires FindPrefix(lines, CORE) >= 0
    ensures var content := Content(lines);
      && FindPrefix(content, CORE) == i && i < |content|
      && nested == content[i + 1..] && nested[..Deeper(nested, 0)] == Content(CoreBlock(lines))
  {
    var c := FindPrefix(lines, CORE);
    var outer, rest := lines[..c], lines[c + 1..];
    KeysAt();
    FoundPrefix(lines, CORE);
    Around(lines, c);
    ContentFind(outer, CORE, 0, "core");
    KeyLine(lines[c], CORE, 0, "core");
    ContentConcat(outer, [lines[c]] + rest);
    ContentConcat([lines[c]], rest);
    ContentOne(lines[c]);
    ContentBlock(rest, 0);
    LocateCore(Content(outer), lines[c], Content(rest));
    i, nested := |Content(outer)|, Content(rest);
  }

  /** A field that the request leaves out reads as it did before. */
  lemma OthersKept(lines: seq<string>, settings: seq<Setting>, f: Field)
    requires lines != [] && Nests(lines) && !Mentions(settings, f)
    ensures ReadLines(EditLines(lines, settings), f) == ReadLines(lines, f)
  {
    hide *;
    NestsMeans(lines);
    var cut := EditedContent(lines, settings);
    var edited := cut.(body := SetAll(cut.body, settings));
    WellKept(cut, settings);
    WellValue(edited, f);
    WellValue(cut, f);
    UnmentionedKept(cut.body, settings, f);
    ReadLinesIs(EditLines(lines, settings), f);
    ReadLinesIs(lines, f);
    if HasBackup(lines) {
      AlreadyPrepared(lines);
      PreparedContent(lines);
    } else {
      NothingYet(lines, f);
      EmptyBlockPrepared(lines);
      NothingThere(f);
    }
  }

  lemma PreparedContent(lines: seq<string>)
    requires lines != []
    ensures Content(Prepared(lines)) == ContentCut(CutAt(Prepared(lines))).Lines()
  {
    hide *;
    CutAtValid(Prepared(lines));
    CutAtShape(Prepared(lines));
    BareCut(CutAt(Prepared(lines)));
  }

  lemma EmptyBlockPrepared(lines: seq<string>)
    requires lines != [] && !HasBackup(lines)
    ensures ContentCut(CutAt(Prepared(lines))).body == []
  {
    hide Prepared, CutAt, CoreBlock, FindPrefix;
    if FindPrefix(lines, CORE) >= 0 {
      var cut := CutInserted(lines);
    } else {
      var padded := CutAppended(lines);
    }
  }

  /** What the request asks of a field, if anything. */
  function Asked(r: Request, f: Field): Option<string> {
    match f
    case Repo => Some(r.repo)
    case Interval => if r.interval != "" then Some(r.interval) else None
    case VerifyInterval => if r.verifyInterval != "" then Some(r.verifyInterval) else None
    case AppendOnly =>
      match r.appendOnly
      case None => None
      case Some(on) => Some(if on then "true" else "false")
  }

  /** The settings of a request are what it asks for. */
  lemma SettingsAre(r: Request)
    ensures forall s | s in r.Settings() :: Asked(r, s.field) == Some(s.value)
    ensures forall f: Field :: Asked(r, f).Some? ==> Setting(f, Asked(r, f).value) in r.Settings()
  {
  }

  lemma FieldRead(text: string, r: Request, f: Field)
    requires r.NewlineFree() && Nests(Split(text, '\n'))
    ensures ReadField(EditText(text, r), f) == if Asked(r, f).Some? then Asked(r, f) else ReadField(text, f)
    ensures Asked(r, Repo) == Some(r.repo)
    ensures Asked(r, Interval) == if r.interval != "" then Some(r.interval) else None
    ensures Asked(r, VerifyInterval) == if r.verifyInterval != "" then Some(r.verifyInterval) else None
    ensures Asked(r, AppendOnly) == match r.appendOnly
      case None => None
      case Some(on) => Some(if on then "true" else "false")
  {
    var lines, settings := Split(text, '\n'), r.Settings();
    EditedTextLines(text, r);
    SettingsDistinct(r);
    SettingsAre(r);
    hide EditText, EditLines, Split, Request.Settings, ReadLines, Nests, DistinctFields;
    NestsReads(lines, settings);
    if Asked(r, f).Some? {
      assert ReadLines(EditLines(lines, settings), f) == Asked(r, f);
    } else {
      OthersKept(lines, settings, f);
    }
  }

  /** Put-get, field by field, in terms of the request itself. */
  lemma PutGetFields(text: string, r: Request)
    requires r.NewlineFree() && Nests(Split(text, '\n'))
    ensures var edited := EditText(text, r);
      && ReadField(edited, Repo) == Some(r.repo)
      && ReadField(edited, Interval) == (if r.interval != "" then Some(r.interval) else ReadField(text, Interval))
      && ReadField(edited, VerifyInterval)
           == (if r.verifyInterval != "" then Some(r.verifyInterval) else ReadField(text, VerifyInterval))
      && ReadField(edited, AppendOnly) == match r.appendOnly
           case None => ReadField(text, AppendOnly)
           case Some(on) => Some(if on then "true" else "false")
  {
    hide *;
    FieldRead(text, r, Repo);
    FieldRead(text, r, Interval);
    FieldRead(text, r, VerifyInterval);
    FieldRead(text, r, AppendOnly);
  }

  /** An edit neither repairs the nesting of a document nor breaks it. */
  lemma NestsKept(text: string, r: Request)
    requires r.NewlineFree()
    ensures Nests(Split(EditText(text, r), '\n')) <==> Nests(Split(text, '\n'))
  {
    hide *;
    var lines := Split(text, '\n');
    EditedTextLines(text, r);
    var edited := EditLines(lines, r.Settings());
    var cut := EditedContent(lines, r.Settings());
    AlreadyPrepared(edited);
    WellKept(cut, r.Settings());
    NestsMeans(lines);
    NestsMeans(edited);
  }

  lemma {:induction false} UnskippedContent(lines: seq<string>)
    requires Unskipped(lines)
    ensures Content(lines) == lines
  {
    if lines != [] {
      assert lines[0] in lines;
      UnskippedContent(lines[1..]);
    }
  }

  lemma LineAt(line: string, p: string, n: nat, key: string)
    requires IsKeyAt(p, n, key) && HasPrefix(line, p)
    ensures IndentOf(line) == n && !IsSkipped(line) && (n != 2 ==> !HasPrefix(line, BACKUP))
  {
    KeysAt();
    KeyLine(line, p, n, key);
    KeyLine(line, BACKUP, 2, "backup");
  }

  lemma LongerLine(a: string, b: string)
    ensures HasPrefix(a + b, a)
  {
  }

  lemma DeepHeaders(lines: seq<string>, backup: string, repo: string, line: string)
    requires IsKeyAt(backup, 4, "backup") && IsKeyAt(repo, 8, "repo") && HasPrefix(line, repo)
    requires lines == [CORE, backup, line]
    ensures Unskipped(lines) && IndentOf(CORE) == 0 && IndentOf(backup) == 4 && IndentOf(line) == 8
    ensures !HasPrefix(backup, BACKUP) && !HasPrefix(line, BACKUP)
    ensures FindPrefix(lines, CORE) == 0
  {
    KeysAt();
    LongerLine(backup, "");
    assert backup + "" == backup && HasPrefix(CORE, CORE);
    hide IsKeyAt, HasPrefix, IsSkipped, IndentOf, FindPrefix, CORE, BACKUP;
    LineAt(CORE, CORE, 0, "core");
    LineAt(backup, backup, 4, "backup");
    LineAt(line, repo, 8, "repo");
    FindPrefixUnique(lines, CORE, 0);
  }

  /** core: with its entries indented by four. */
  lemma DeepFile(lines: seq<string>, backup: string, repo: string, line: string)
    requires IsKeyAt(backup, 4, "backup") && IsKeyAt(repo, 8, "repo") && HasPrefix(line, repo)
    requires lines == [CORE, backup, line]
    ensures Unskipped(lines) && IndentOf(CORE) == 0 && IndentOf(backup) == 4 && IndentOf(line) == 8
    ensures FindPrefix(lines, CORE) == 0 && CoreBlock(lines) == lines[1..] && !HasBackup(lines)
    ensures CutAt(Prepared(lines)) == Cut([], CORE, lines[1..], BACKUP, [], [])
  {
    hide *;
    DeepHeaders(lines, backup, repo, line);
    DeepBlock(lines);
    var cut := CutInserted(lines);
    assert lines[..0] == [] && lines[3..] == [];
  }

  lemma DeepBlock(lines: seq<string>)
    requires |lines| == 3 && Unskipped(lines) && FindPrefix(lines, CORE) == 0
    requires IndentOf(lines[1]) == 4 && IndentOf(lines[2]) == 8
    requires !HasPrefix(lines[1], BACKUP) && !HasPrefix(lines[2], BACKUP)
    ensures CoreBlock(lines) == lines[1..] && !HasBackup(lines)
  {
    hide IndentOf, IsSkipped, HasPrefix, FindPrefix, BACKUP, CORE;
    FindPrefixUnique(lines[1..], BACKUP, -1);
    BlockLengthConcat(lines[1..], [], 0);
    assert lines[1..] + [] == lines[1..];
    assert lines[1..][..2] == lines[1..];
  }

  lemma DeepEdit(lines: seq<string>, s: Setting)
    requires lines != [] && CutAt(Prepared(lines)) == Cut([], CORE, lines[1..], BACKUP, [], [])
    ensures EditLines(lines, [s]) == [CORE] + lines[1..] + [BACKUP, FieldLine(s.field, s.value)]
  {
    hide *;
    EditIs(lines, [s]);
    var cut := EditedCut(Prepared(lines), [s]);
    SetOne(s);
    DeepLines(cut, FieldLine(s.field, s.value));
  }

  lemma SetOne(s: Setting)
    ensures SetAll([], [s]) == [FieldLine(s.field, s.value)]
  {
    assert [s][1..] == [];
  }

  lemma DeepLines(cut: Cut, line: string)
    requires cut.outer == [] && cut.after == []
    ensures cut.(body := [line]).Lines() == [cut.core] + cut.siblings + [cut.backup, line]
  {
  }

  lemma DeepRead(lines: seq<string>, backup: string, repo: string, value: string)
    requires IsKeyAt(backup, 4, "backup") && IsKeyAt(repo, 8, "repo") && lines == [CORE, backup, repo + value]
    requires IndentOf(CORE) == 0 && IndentOf(backup) == 4 && IndentOf(repo + value) == 8
    ensures Read(lines, ["core", "backup", "repo"]) == Some(TrimPrefix(value, " "))
  {
    hide *;
    var below := [repo + value];
    PathSteps();
    KeysAt();
    LeafRead(below, repo, value, ["repo"]);
    HeaderRead(backup, below, 4, ["backup", "repo"]);
    HeaderRead(CORE, [backup] + below, 0, ["core", "backup", "repo"]);
    assert lines == [CORE] + ([backup] + below);
  }

  lemma PathSteps()
    ensures ["core", "backup", "repo"][1..] == ["backup", "repo"] && ["backup", "repo"][1..] == ["repo"]
    ensures ["core", "backup", "repo"][0] == "core" && ["backup", "repo"][0] == "backup"
  {
  }

  lemma LeafRead(lines: seq<string>, repo: string, value: string, path: seq<string>)
    requires IsKeyAt(repo, 8, "repo") && path == ["repo"]
    requires lines == [repo + value] && IndentOf(repo + value) == 8
    ensures Read(lines, path) == Some(TrimPrefix(value, " "))
  {
    assert (repo + value)[|repo|..] == value && lines[1..] == [];
    FindPrefixUnique(lines, repo, 0);
    hide Read, IndentOf, FindPrefix, TrimPrefix, IsKeyAt;
    ReadStep(lines, repo, 8, path);
  }

  /** Reading below a bare header. */
  lemma HeaderRead(header: string, nested: seq<string>, n: nat, path: seq<string>)
    requires |path| > 1 && IsKeyAt(header, n, path[0]) && IndentOf(header) == n
    requires forall l | l in nested :: IndentOf(l) > n
    ensures Read([header] + nested, path) == Read(nested, path[1..])
  {
    var lines := [header] + nested;
    FindPrefixUnique(lines, header, 0);
    DeeperConcat(nested, [], n);
    assert nested + [] == nested && lines[1..] == nested && header[|header|..] == "";
    StartsEmpty(n);
    assert StartsAt(lines, n);
    hide Read, IndentOf, IsKeyAt, FindPrefix, Deeper, HasText, StartsAt;
    ReadStep(lines, header, n, path);
  }

  lemma ShallowRead(lines: seq<string>, path: seq<string>)
    requires |lines| > 1 && |path| > 1 && path[0] == "core" && lines[0] == CORE && IndentOf(CORE) == 0
    requires forall i | 1 <= i < |lines| :: 0 < IndentOf(lines[i])
    requires exists i :: 1 < i < |lines| && IndentOf(lines[i]) < IndentOf(lines[1])
    ensures Read(lines, path) == None
  {
    KeysAt();
    var nested := lines[1..];
    var i :| 1 < i < |lines| && IndentOf(lines[i]) < IndentOf(lines[1]);
    assert nested[i - 1] == lines[i] && lines[i] in nested;
    assert Read(nested, path[1..]) == None;
    assert lines == [CORE] + nested;
    hide Read, IndentOf, IsKeyAt, CORE;
    HeaderRead(CORE, nested, 0, path);
  }

  lemma EightSpaces()
    ensures Spaces(8) == "        "
  {
    FourSpaces();
    assert Spaces(6) == "      ";
  }

  lemma FourAndEight()
    ensures IsKeyAt("    backup:", 4, "backup") && IsKeyAt("        repo:", 8, "repo")
  {
    FourSpaces();
    EightSpaces();
    hide Spaces;
  }

  lemma DeepNests(lines: seq<string>)
    requires FindPrefix(lines, CORE) >= 0 && Unskipped(lines)
    requires var block := CoreBlock(lines); block != [] && Unskipped(block) && IndentOf(block[0]) == 4
    ensures !Nests(lines)
  {
    UnskippedContent(CoreBlock(lines));
  }

  lemma DeepOut(lines: seq<string>, out: seq<string>, value: string)
    requires |lines| == 3 && Unskipped(lines) && lines[0] == CORE
    requires IndentOf(CORE) == 0 && IndentOf(lines[1]) == 4 && IndentOf(lines[2]) == 8
    requires out == [CORE] + lines[1..] + [BACKUP, FieldLine(Repo, value)]
    ensures Unskipped(out) && |out| == 5 && out[0] == CORE && out[1] == lines[1]
    ensures forall i | 1 <= i < |out| :: 0 < IndentOf(out[i])
    ensures IndentOf(out[3]) < IndentOf(out[1])
  {
    KeysAt();
    FieldLineShape(Repo, value);
    LineAt(BACKUP, BACKUP, 2, "backup");
    LineAt(FieldLine(Repo, value), Repo.Prefix(), 4, "repo");
    hide IndentOf, IsSkipped, FieldLine, HasPrefix, CORE, BACKUP;
  }

  lemma DeepFails(lines: seq<string>, backup: string, repo: string, was: string, now: string)
    requires IsKeyAt(backup, 4, "backup") && IsKeyAt(repo, 8, "repo") && lines == [CORE, backup, repo + was]
    ensures Read(Content(lines), ["core", "backup", "repo"]) == Some(TrimPrefix(was, " ")) && !Nests(lines)
    ensures var out := EditLines(lines, [Setting(Repo, now)]);
      && out == [CORE, backup, repo + was, BACKUP, FieldLine(Repo, now)]
      && Read(Content(out), ["core", "backup", "repo"]) == None
  {
    hide *;
    LongerLine(repo, was);
    DeepFile(lines, backup, repo, repo + was);
    UnskippedContent(lines);
    DeepRead(lines, backup, repo, was);
    UnskippedTail(lines);
    DeepNests(lines);
    DeepEdit(lines, Setting(Repo, now));
    var out := EditLines(lines, [Setting(Repo, now)]);
    DeepOut(lines, out, now);
    UnskippedContent(out);
    ShallowRead(out, ["core", "backup", "repo"]);
  }

  lemma UnskippedTail(lines: seq<string>)
    requires lines != [] && Unskipped(lines)
    ensures Unskipped(lines[1..])
  {
  }

  lemma FourWords()
    ensures "        repo:" + " old" == "        repo: old" && TrimPrefix(" old", " ") == "old"
    ensures FieldLine(Repo, "new") == "    repo: new" && Repo.Key() == "repo"
  {
  }

  /** A file as yaml.v3 writes it, indented by four: the edit does not see its backup: block and puts a
      second one below it, which is not an entry of the core: mapping any more. */
  lemma IndentedByFour(lines: seq<string>)
    requires lines == ["core:", "    backup:", "        repo: old"]
    ensures ReadLines(lines, Repo) == Some("old") && !Nests(lines)
    ensures var out := EditLines(lines, [Setting(Repo, "new")]);
      && out == ["core:", "    backup:", "        repo: old", "  backup:", "    repo: new"]
      && ReadLines(out, Repo) == None
  {
    FourAndEight();
    FourWords();
    hide Read, Content, Nests, EditLines, FieldLine, TrimPrefix, IsKeyAt, Field.Key;
    DeepFails(lines, "    backup:", "        repo:", " old", "new");
  }
}
