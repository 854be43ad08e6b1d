/** Reading unit text back. The readers know nothing of the model: they split the text into lines
    and look at how a line begins (parseQuadletCommentLine, cmd/ownbased/main.go; grep). */
module UnitText {
  import opened Text
  import opened Containers
  import opened Render

  /** No value has a line break in it, so that every line of the unit is one of the model's. */
  ghost predicate LinesFree(lines: seq<Line>) {
    forall l | l in lines :: '\n' !in l.value
  }

  lemma HeaderFree()
    ensures '\n' !in FixtureText(Generated) && '\n' !in FixtureText(ChangesHere)
  {
  }

  lemma SectionFree(f: Fixture)
    requires f in {Blank, UnitSection, ContainerSection, ServiceSection, InstallSection, After, WantedBy}
    ensures '\n' !in FixtureText(f)
  {
  }

  lemma OptionFree(f: Fixture)
    requires f in {NoNewPrivileges, DropCapability, TypeOneshot, RestartNo, RestartAlways, TimeoutLong, TimeoutShort}
    ensures '\n' !in FixtureText(f)
  {
  }

  lemma FixtureFree(f: Fixture)
    ensures '\n' !in FixtureText(f)
  {
    hide FixtureText;
    if f.Generated? || f.ChangesHere? {
      HeaderFree();
    } else if f in {Blank, UnitSection, ContainerSection, ServiceSection, InstallSection, After, WantedBy} {
      SectionFree(f);
    } else {
      OptionFree(f);
    }
  }

  lemma LongSettingFree(s: Setting)
    requires s in {Description, SecurityOpt, Memory, Cpus}
    ensures '\n' !in SettingText(s)
  {
  }

  lemma ShortSettingFree(s: Setting)
    requires s !in {Description, SecurityOpt, Memory, Cpus}
    ensures '\n' !in SettingText(s)
  {
  }

  lemma SettingFree(s: Setting)
    ensures '\n' !in SettingText(s)
  {
    hide SettingText;
    if s in {Description, SecurityOpt, Memory, Cpus} {
      LongSettingFree(s);
    } else {
      ShortSettingFree(s);
    }
  }

  lemma CommentFree(c: Comment)
    ensures '\n' !in CommentName(c)
  {
  }

  lemma TextFree(l: Line)
    requires '\n' !in l.value
    ensures '\n' !in l.Text()
  {
    hide FixtureText, SettingText, CommentName;
    match l.key
    case Fix(f) => FixtureFree(f);
    case Set(s) => SettingFree(s);
    case Note(c) => CommentFree(c);
  }

  lemma TextsFree(lines: seq<Line>)
    requires LinesFree(lines)
    ensures AllFree(Texts(lines), '\n')
  {
    hide Line.Text;
    forall t | t in Texts(lines) ensures '\n' !in t {
      var i :| 0 <= i < |lines| && Texts(lines)[i] == t;
      assert lines[i] in lines;
      TextFree(lines[i]);
    }
  }

  /** Keys that a reader looks for at the start of a line. */
  predicate IsSought(k: Key) {
    k == Set(PublishPort) || IsComment(k)
  }

  predicate Differ(a: string, b: string) {
    |a| >= 3 && |b| >= 3 && (a[0] != b[0] || a[1] != b[1] || a[2] != b[2])
  }

  lemma OtherFixture(f: Fixture, sought: Key)
    requires IsSought(sought) && !f.Blank?
    ensures Differ(FixtureText(f), KeyText(sought)) && !IsSpace(FixtureText(f)[0])
  {
  }

  lemma OtherSetting(s: Setting, sought: Key)
    requires IsSought(sought) && Set(s) != sought
    ensures Differ(SettingText(s), KeyText(sought)) && !IsSpace(SettingText(s)[0])
  {
  }

  lemma OtherComment(c: Comment, sought: Key)
    requires IsSought(sought) && Note(c) != sought
    ensures Differ(CommentText(c), KeyText(sought)) && !IsSpace(CommentText(c)[0])
  {
  }

  lemma SoughtText(sought: Key)
    requires IsSought(sought)
    ensures var t := KeyText(sought); |t| > 3 && !IsSpace(t[0]) && !IsSpace(t[|t| - 1])
  {
  }

  lemma NotSought(a: string, rest: string, b: string)
    requires Differ(a, b)
    ensures !(b <= a + rest)
  {
    assert (a + rest)[0] == a[0] && (a + rest)[1] == a[1] && (a + rest)[2] == a[2];
  }

  /** Only its own key makes a line look like a sought one. */
  lemma OtherLine(l: Line, sought: Key)
    requires IsSought(sought) && l.key != sought
    ensures !HasPrefix(l.Text(), KeyText(sought))
    ensures l.Text() == "" || !IsSpace(l.Text()[0])
  {
    hide FixtureText, SettingText, CommentText, IsSpace;
    SoughtText(sought);
    match l.key
    case Fix(f) =>
      if f.Blank? {
        assert l.Text() == FixtureText(Blank);
        BlankText();
      } else {
        OtherFixture(f, sought);
        NotSought(FixtureText(f), "", KeyText(sought));
        assert FixtureText(f) + "" == FixtureText(f);
      }
    case Set(s) =>
      OtherSetting(s, sought);
      NotSought(SettingText(s), l.value, KeyText(sought));
    case Note(c) =>
      OtherComment(c, sought);
      NotSought(CommentText(c), l.value, KeyText(sought));
  }

  lemma BlankText()
    ensures FixtureText(Blank) == ""
  {
  }

  // --------------------------------------------------------------------- the comment reader

  /** What follows the prefix on the first line that, without surrounding blanks, has it. */
  function FirstWith(lines: seq<string>, prefix: string): string {
    if lines == [] then ""
    else
      var line := TrimSpace(lines[0]);
      if HasPrefix(line, prefix) then TrimPrefix(line, prefix) else FirstWith(lines[1..], prefix)
  }

  /** parseQuadletCommentLine. */
  method ParseQuadletCommentLine(content: string, prefix: string) returns (value: string)
    ensures value == FirstWith(Split(content, '\n'), prefix)
  {
    var lines := Split(content, '\n');
    hide Split, TrimSpace;
    for i := 0 to |lines|
      invariant FirstWith(lines[i..], prefix) == FirstWith(lines, prefix)
    {
      var line := TrimSpace(lines[i]);
      assert lines[i..][0] == lines[i] && lines[i..][1..] == lines[i + 1..];
      if HasPrefix(line, prefix) {
        return TrimPrefix(line, prefix);
      }
    }
    return "";
  }

  lemma TrimmedLine(l: Line, sought: Key)
    requires IsSought(sought)
    ensures HasPrefix(TrimSpace(l.Text()), KeyText(sought)) <==> l.key == sought
    ensures l.key == sought ==> TrimPrefix(TrimSpace(l.Text()), KeyText(sought)) == TrimRight(l.value)
  {
    hide KeyText, FixtureText, IsSpace;
    SoughtText(sought);
    if l.key == sought {
      var t := KeyText(sought);
      assert l.Text() == t + l.value;
      TrimRightAppend(t, l.value);
      assert (t + TrimRight(l.value))[|t|..] == TrimRight(l.value);
    } else {
      OtherLine(l, sought);
      assert TrimSpace(l.Text()) <= l.Text();
    }
  }

  /** The comment reader finds the first line with the key, whatever else is there. */
  lemma {:induction false} FirstWithKey(lines: seq<Line>, sought: Key)
    requires IsSought(sought)
    ensures FirstWith(Texts(lines) + [""], KeyText(sought)) ==
      if Values(lines, sought) == [] then "" else TrimRight(Values(lines, sought)[0])
  {
    hide KeyText, TrimSpace, Line.Text, TrimRight, IsSought;
    var texts := Texts(lines) + [""];
    if lines == [] {
      NoLineSought(sought);
      assert texts == [""];
    } else {
      FirstWithKey(lines[1..], sought);
      TrimmedLine(lines[0], sought);
      ValuesAppend([lines[0]], lines[1..], sought);
      ValuesOfOne(lines[0], sought);
      assert lines == [lines[0]] + lines[1..];
      assert texts[1..] == Texts(lines[1..]) + [""];
    }
  }

  lemma NoLineSought(sought: Key)
    requires IsSought(sought)
    ensures FirstWith([""], KeyText(sought)) == ""
  {
    SoughtText(sought);
    hide KeyText;
    assert TrimSpace("") == "";
    assert [""][1..] == [];
  }

  /** The comments of a unit read back: the service of a replica and of a job, without the blanks
      at the end of the name, and nothing on any other unit. */
  lemma CommentsReadBack(c: ContainerModel, quote: string -> string)
    requires LinesFree(ContainerLines(c, quote))
    ensures FirstWith(Split(ContainerText(c, quote), '\n'), "# Service=") ==
      if HasServiceLine(c) then TrimRight(c.serviceName) else ""
    ensures FirstWith(Split(ContainerText(c, quote), '\n'), "# JobService=") == TrimRight(c.jobService)
  {
    var lines := ContainerLines(c, quote);
    CommentTexts();
    hide KeyText, ContainerLines, Values, TrimRight, FirstWith, Split, Unlines, ProvenanceLines, PublishLines;
    TextsFree(lines);
    SplitUnlines(Texts(lines));
    forall key | key == Note(Service) || key == Note(JobService)
      ensures FirstWith(Split(ContainerText(c, quote), '\n'), KeyText(key)) ==
        if Values(lines, key) == [] then "" else TrimRight(Values(lines, key)[0])
    {
      FirstWithKey(lines, key);
    }
    UnitValues(c, quote, Note(Service));
    UnitValues(c, quote, Note(JobService));
    ProvenanceValues(c, Note(Service));
    ProvenanceValues(c, Note(JobService));
    PublishValues(c);
    assert TrimRight("") == "" by { TrimNothing(); }
  }

  lemma TrimNothing()
    ensures TrimRight("") == ""
  {
  }

  lemma CommentTexts()
    ensures KeyText(Note(Service)) == "# Service=" && KeyText(Note(JobService)) == "# JobService="
    ensures KeyText(Set(PublishPort)) == "PublishPort="
  {
  }

  lemma PublishValues(c: ContainerModel)
    ensures Values(PublishLines(c), Note(Service)) == Values(PublishLines(c), Note(JobService)) == []
    ensures Values(PublishLines(c), Set(PublishPort)) ==
      if c.tunnelPort > 0 then ["127.0.0.1:" + DecInt(c.tunnelPort) + ":" + DecInt(c.publicPort)] else []
  {
    hide DecInt;
    if c.tunnelPort > 0 {
      var l := PublishLines(c)[0];
      ValuesOfOne(l, Note(Service));
      ValuesOfOne(l, Note(JobService));
      ValuesOfOne(l, Set(PublishPort));
    }
  }

  // ------------------------------------------------------------------------------- grep

  /** The lines that begin with `prefix`. */
  function Matching(lines: seq<string>, prefix: string): seq<string> {
    if lines == [] then []
    else
      Matching(lines[..|lines| - 1], prefix)
      + if HasPrefix(lines[|lines| - 1], prefix) then [lines[|lines| - 1]] else []
  }

  /** The lines of a file: what follows the last newline is one only if there is something. */
  function FileLines(content: string): seq<string> {
    var parts := Split(content, '\n');
    if parts[|parts| - 1] == "" then parts[..|parts| - 1] else parts
  }

  function WithKey(key: Key, values: seq<string>): seq<string> {
    seq(|values|, i requires 0 <= i < |values| => KeyText(key) + values[i])
  }

  lemma {:induction false} MatchingKey(lines: seq<Line>, sought: Key)
    requires IsSought(sought)
    ensures Matching(Texts(lines), KeyText(sought)) == WithKey(sought, Values(lines, sought))
  {
    hide KeyText, Line.Text, IsSought;
    if lines != [] {
      var front, last := lines[..|lines| - 1], lines[|lines| - 1];
      MatchingKey(front, sought);
      assert Texts(lines)[..|lines| - 1] == Texts(front);
      LineMatches(last, sought);
    }
  }

  lemma LineMatches(l: Line, sought: Key)
    requires IsSought(sought)
    ensures HasPrefix(l.Text(), KeyText(sought)) <==> l.key == sought
    ensures l.key == sought ==> l.Text() == KeyText(sought) + l.value
  {
    hide FixtureText, SettingText, CommentText;
    if l.key != sought {
      OtherLine(l, sought);
    }
  }

  /** grep finds the publish line of a unit that has one, and nothing in any other unit. */
  lemma PublishLineFound(c: ContainerModel, quote: string -> string)
    requires LinesFree(ContainerLines(c, quote))
    ensures Matching(FileLines(ContainerText(c, quote)), "PublishPort=") ==
      if c.tunnelPort > 0 then ["PublishPort=127.0.0.1:" + DecInt(c.tunnelPort) + ":" + DecInt(c.publicPort)] else []
  {
    var lines := ContainerLines(c, quote);
    CommentTexts();
    hide KeyText, ContainerLines, Values, Split, Unlines, ProvenanceLines, PublishLines, Matching, DecInt;
    TextsFree(lines);
    SplitUnlines(Texts(lines));
    assert (Texts(lines) + [""])[..|Texts(lines)|] == Texts(lines);
    assert FileLines(ContainerText(c, quote)) == Texts(lines);
    MatchingKey(lines, Set(PublishPort));
    UnitValues(c, quote, Set(PublishPort));
    ProvenanceValues(c, Set(PublishPort));
    PublishValues(c);
    if c.tunnelPort > 0 {
      assert "PublishPort=" + ("127.0.0.1:" + DecInt(c.tunnelPort) + ":" + DecInt(c.publicPort))
          == "PublishPort=127.0.0.1:" + DecInt(c.tunnelPort) + ":" + DecInt(c.publicPort);
    }
  }
}
