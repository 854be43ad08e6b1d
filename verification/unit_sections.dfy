/** Where the directives of a rendered unit stand: systemd reads a directive only in its own section. A
    reader that keeps track of the section headers finds every directive there and nowhere else. */
module UnitSections {
  import opened Text
  import opened Containers
  import opened Render
  import opened UnitText
  import opened UnitSettings

  // ----------------------------------------------------------------------------- the reader

  predicate IsHeader(line: string) {
    line != "" && line[0] == '['
  }

  /** The last section header of the lines. */
  function HeaderAfter(lines: seq<string>): string {
    if lines == [] then ""
    else if IsHeader(lines[|lines| - 1]) then lines[|lines| - 1]
    else HeaderAfter(lines[..|lines| - 1])
  }

  function ValuesIn(lines: seq<string>, header: string, prefix: string): seq<string> {
    if lines == [] then []
    else
      var before, last := lines[..|lines| - 1], lines[|lines| - 1];
      ValuesIn(before, header, prefix)
      + if HeaderAfter(before) == header && HasPrefix(last, prefix) then [last[|prefix|..]] else []
  }

  /** What follows the prefix on every line of the section that starts with it. */
  function DirectiveIn(text: string, header: string, prefix: string): seq<string> {
    ValuesIn(Split(text, '\n'), header, prefix)
  }

  // ------------------------------------------------------------------- where a directive belongs

  predicate IsSection(f: Fixture) {
    f in {UnitSection, ContainerSection, ServiceSection, InstallSection}
  }

  predicate IsSectionLine(l: Line) {
    l.key.Fix? && IsSection(l.key.fixture)
  }

  /** Dependencies are [Unit] settings, restarting and its limits [Service] settings, and what pulls the unit in
      an [Install] setting; the rest is podman's, with the comments in the same place. */
  function Belongs(k: Key): Fixture {
    if k == Set(Description) || k == Fix(After) then UnitSection
    else if k == Fix(TypeOneshot) || k == Fix(RestartNo) || k == Fix(TimeoutShort) then ServiceSection
    else if k == Fix(WantedBy) then InstallSection
    else ContainerSection
  }

  // -------------------------------------------------------------------------- line by line

  /** The section that follows the lines, when `s` is the one before them. */
  function SectionAfter(lines: seq<Line>, s: Fixture): Fixture {
    if lines == [] then s
    else if IsSectionLine(lines[|lines| - 1]) then lines[|lines| - 1].key.fixture
    else SectionAfter(lines[..|lines| - 1], s)
  }

  /** Each directive of the lines stands in its section. */
  ghost predicate Placed(lines: seq<Line>, s: Fixture) {
    forall i | 0 <= i < |lines| && IsDirective(Class(lines[i].key)) ::
      SectionAfter(lines[..i], s) == Belongs(Class(lines[i].key))
  }

  lemma {:induction false} SectionAppend(a: seq<Line>, b: seq<Line>, s: Fixture)
    ensures SectionAfter(a + b, s) == SectionAfter(b, SectionAfter(a, s))
  {
    hide IsSectionLine;
    if b == [] {
      assert a + b == a;
    } else {
      assert (a + b)[..|a + b| - 1] == a + b[..|b| - 1];
      SectionAppend(a, b[..|b| - 1], s);
    }
  }

  lemma PlacedAppend(a: seq<Line>, b: seq<Line>, s: Fixture, t: Fixture)
    requires Placed(a, s) && SectionAfter(a, s) == t && Placed(b, t)
    ensures Placed(a + b, s) && SectionAfter(a + b, s) == SectionAfter(b, t)
  {
    SectionAppend(a, b, s);
    hide SectionAfter, IsDirective, Class, Belongs;
    var all := a + b;
    forall i | 0 <= i < |all| && IsDirective(Class(all[i].key))
      ensures SectionAfter(all[..i], s) == Belongs(Class(all[i].key))
    {
      if i < |a| {
        assert all[..i] == a[..i] && all[i] == a[i];
      } else {
        assert all[..i] == a + b[..i - |a|] && all[i] == b[i - |a|];
        SectionAppend(a, b[..i - |a|], s);
      }
    }
  }

  /** Lines without a header, all of one section. */
  ghost predicate Plain(lines: seq<Line>, s: Fixture) {
    forall l | l in lines :: !IsSectionLine(l) && (IsDirective(Class(l.key)) ==> Belongs(Class(l.key)) == s)
  }

  lemma {:induction false} PlainStays(lines: seq<Line>, s: Fixture, t: Fixture)
    requires Plain(lines, t)
    ensures SectionAfter(lines, s) == s
  {
    hide IsSectionLine, IsDirective, Class, Belongs;
    if lines != [] {
      var front := lines[..|lines| - 1];
      assert forall l | l in front :: l in lines;
      PlainStays(front, s, t);
    }
  }

  lemma PlainPlaced(lines: seq<Line>, s: Fixture)
    requires Plain(lines, s)
    ensures Placed(lines, s) && SectionAfter(lines, s) == s
  {
    hide IsSectionLine, IsDirective, Class, Belongs, SectionAfter;
    PlainStays(lines, s, s);
    forall i | 0 <= i < |lines| ensures SectionAfter(lines[..i], s) == s {
      assert forall l | l in lines[..i] :: l in lines;
      PlainStays(lines[..i], s, s);
    }
  }

  lemma HeaderPlaced(f: Fixture, s: Fixture)
    requires IsSection(f)
    ensures Placed([Fixed(f)], s) && SectionAfter([Fixed(f)], s) == f
  {
    assert !IsDirective(Class(Fix(f)));
    hide IsDirective, Class, IsSection;
  }

  /** A header and its lines. */
  lemma HeadedPlaced(f: Fixture, lines: seq<Line>, s: Fixture)
    requires IsSection(f) && Plain(lines, f)
    ensures Placed([Fixed(f)] + lines, s) && SectionAfter([Fixed(f)] + lines, s) == f
  {
    HeaderPlaced(f, s);
    PlainPlaced(lines, f);
    hide *;
    PlacedAppend([Fixed(f)], lines, s, f);
  }

  // ------------------------------------------------------------------------ section by section

  lemma PlainAppend(a: seq<Line>, b: seq<Line>, s: Fixture)
    requires Plain(a, s) && Plain(b, s)
    ensures Plain(a + b, s)
  {
    hide IsSectionLine, IsDirective, Class, Belongs;
  }

  /** The section of a setting or a comment. */
  predicate IsPlain(k: Key, s: Fixture) {
    !(k.Fix? && IsSection(k.fixture)) && (IsDirective(Class(k)) ==> Belongs(Class(k)) == s)
  }

  lemma PlainLine(l: Line, s: Fixture)
    requires IsPlain(l.key, s)
    ensures Plain([l], s)
  {
  }

  lemma {:induction false} PlainEach(k: Key, values: seq<string>, s: Fixture)
    requires IsPlain(k, s)
    ensures Plain(Each(k, values), s)
  {
    hide IsPlain;
    if values != [] {
      PlainEach(k, values[..|values| - 1], s);
      PlainLine(Line(k, values[|values| - 1]), s);
      hide Plain;
      PlainAppend(Each(k, values[..|values| - 1]), [Line(k, values[|values| - 1])], s);
    }
  }

  lemma PlainOptional(k: Key, value: string, s: Fixture)
    requires IsPlain(k, s)
    ensures Plain(Optional(k, value), s)
  {
    hide IsPlain;
    PlainLine(Line(k, value), s);
    assert Plain([], s);
    hide Plain;
  }

  lemma PodmanKeys(k: Key)
    requires k.Note? || (k.Set? && k != Set(Description)) || k == Fix(NoNewPrivileges) || k == Fix(DropCapability)
    ensures IsPlain(k, ContainerSection)
  {
  }

  lemma PlainHead(c: ContainerModel, quote: string -> string)
    ensures Plain(Each(Set(Network), NetworkFiles(c.networks)), ContainerSection)
    ensures Plain(Each(Set(Volume), MountTexts(c.volumeMounts)), ContainerSection)
    ensures Plain(ExecLines(c, quote), ContainerSection) && Plain(PublishLines(c), ContainerSection)
    ensures Plain(Each(Set(Environment), EnvTexts(c.env)), ContainerSection)
  {
    PodmanKeys(Set(Network));
    PodmanKeys(Set(Volume));
    PodmanKeys(Set(Exec));
    PodmanKeys(Set(PublishPort));
    PodmanKeys(Set(Environment));
    hide IsPlain, QuotedArgs, Join, DecInt;
    PlainEach(Set(Network), NetworkFiles(c.networks), ContainerSection);
    PlainEach(Set(Volume), MountTexts(c.volumeMounts), ContainerSection);
    PlainEach(Set(Environment), EnvTexts(c.env), ContainerSection);
    PlainLine(Line(Set(Exec), Join(QuotedArgs(c.command, quote), ' ')), ContainerSection);
    PlainLine(Line(Set(PublishPort), "127.0.0.1:" + DecInt(c.tunnelPort) + ":" + DecInt(c.publicPort)),
              ContainerSection);
    assert Plain([], ContainerSection);
    hide Plain;
  }

  lemma PlainComment(c: Comment, value: string)
    ensures Plain(Optional(Note(c), value), ContainerSection) && Plain([Line(Note(c), value)], ContainerSection)
  {
    PodmanKeys(Note(c));
    hide IsPlain, Optional;
    PlainOptional(Note(c), value, ContainerSection);
    PlainLine(Line(Note(c), value), ContainerSection);
  }

  lemma PlainProvenance(c: ContainerModel)
    ensures Plain(ProvenanceLines(c), ContainerSection)
  {
    var probe := if c.healthProbe.Some? then c.healthProbe.value else "";
    assert Plain([], ContainerSection);
    hide Plain, Join;
    PlainComment(HealthProbeHTTP, probe);
    PlainComment(Requires, Join(c.needs, ','));
    PlainComment(JobService, c.jobService);
    PlainComment(Service, c.serviceName);
    PlainComment(BuildImage, c.image);
    PlainAppend([Line(Note(Service), c.serviceName)], Optional(Note(BuildImage), c.image), ContainerSection);
    hide Optional;
    PlainAppend(ProbeLine(c), RequiresLine(c), ContainerSection);
    PlainAppend(ProbeLine(c) + RequiresLine(c), Optional(Note(JobService), c.jobService), ContainerSection);
    PlainAppend(ProbeLine(c) + RequiresLine(c) + Optional(Note(JobService), c.jobService), ReplicaLines(c),
                ContainerSection);
  }

  lemma PlainBuild(c: ContainerModel)
    ensures Plain(BuildLines(c), ContainerSection)
  {
    assert Plain([], ContainerSection);
    hide Plain, Optional;
    var s, r := Optional(Note(BuildSource), c.buildSource), Optional(Note(BuildRef), c.buildRef);
    var d, x := Optional(Note(BuildDockerfile), c.buildDockerfile), Optional(Note(BuildContext), c.buildContext);
    PlainComment(BuildSource, c.buildSource);
    PlainComment(BuildRef, c.buildRef);
    PlainComment(BuildDockerfile, c.buildDockerfile);
    PlainComment(BuildContext, c.buildContext);
    PlainAppend(s, r, ContainerSection);
    PlainAppend(s + r, d, ContainerSection);
    PlainAppend(s + r + d, x, ContainerSection);
  }

  lemma PlainHardening(c: ContainerModel)
    ensures Plain(HardeningLines(c), ContainerSection)
  {
    var s := ContainerSection;
    var a, b := [Fixed(NoNewPrivileges), Fixed(DropCapability)], Optional(Set(User), c.user);
    var d, e := Each(Set(AddCapability), c.addCapabilities), Each(Set(SecurityOpt), c.securityOpts);
    var f, g := Optional(Set(Memory), c.memoryLimit), Optional(Set(Cpus), c.cpuLimit);
    assert Plain(a, s);
    PodmanKeys(Set(User));
    PodmanKeys(Set(AddCapability));
    PodmanKeys(Set(SecurityOpt));
    PodmanKeys(Set(Memory));
    PodmanKeys(Set(Cpus));
    hide IsPlain, Plain, Optional, Each;
    PlainOptional(Set(User), c.user, s);
    PlainEach(Set(AddCapability), c.addCapabilities, s);
    PlainEach(Set(SecurityOpt), c.securityOpts, s);
    PlainOptional(Set(Memory), c.memoryLimit, s);
    PlainOptional(Set(Cpus), c.cpuLimit, s);
    PlainAppend(a, b, s);
    PlainAppend(a + b, d, s);
    PlainAppend(a + b + d, e, s);
    PlainAppend(f, g, s);
    PlainAppend(a + b + d + e, f + g, s);
  }

  /** Everything podman reads, after the header of its section. */
  function PodmanLines(c: ContainerModel, quote: string -> string): seq<Line> {
    [Line(Set(Image), ImageOf(c)), Line(Set(ContainerNameKey), c.name)]
    + Each(Set(Network), NetworkFiles(c.networks)) + Each(Set(Volume), MountTexts(c.volumeMounts))
    + ExecLines(c, quote) + PublishLines(c) + Each(Set(Environment), EnvTexts(c.env))
    + ProvenanceLines(c) + BuildLines(c) + HardeningLines(c)
  }

  lemma FivePlain(a: seq<Line>, b: seq<Line>, d: seq<Line>, e: seq<Line>, f: seq<Line>, s: Fixture)
    requires Plain(a, s) && Plain(b, s) && Plain(d, s) && Plain(e, s) && Plain(f, s)
    ensures Plain(a + b + d + e + f, s)
  {
    hide *;
    var x, y := a + b, a + b + d;
    PlainAppend(a, b, s);
    PlainAppend(x, d, s);
    PlainAppend(y, e, s);
    PlainAppend(y + e, f, s);
  }

  lemma PlainImage(c: ContainerModel)
    ensures Plain([Line(Set(Image), ImageOf(c)), Line(Set(ContainerNameKey), c.name)], ContainerSection)
  {
    hide ImageOf;
  }

  lemma PlainPodman(c: ContainerModel, quote: string -> string)
    ensures Plain(PodmanLines(c, quote), ContainerSection)
  {
    var s := ContainerSection;
    hide *;
    PlainImage(c);
    PlainHead(c, quote);
    PlainProvenance(c);
    PlainBuild(c);
    PlainHardening(c);
    PodmanIs(c, quote);
    FivePlain(
      [Line(Set(Image), ImageOf(c)), Line(Set(ContainerNameKey), c.name)],
      Each(Set(Network), NetworkFiles(c.networks)), Each(Set(Volume), MountTexts(c.volumeMounts)),
      ExecLines(c, quote), PublishLines(c), s);
    FivePlain(
      [Line(Set(Image), ImageOf(c)), Line(Set(ContainerNameKey), c.name)]
      + Each(Set(Network), NetworkFiles(c.networks)) + Each(Set(Volume), MountTexts(c.volumeMounts))
      + ExecLines(c, quote) + PublishLines(c),
      Each(Set(Environment), EnvTexts(c.env)), ProvenanceLines(c), BuildLines(c), HardeningLines(c), s);
  }

  lemma PodmanIs(c: ContainerModel, quote: string -> string)
    ensures PodmanLines(c, quote) ==
      [Line(Set(Image), ImageOf(c)), Line(Set(ContainerNameKey), c.name)]
      + Each(Set(Network), NetworkFiles(c.networks)) + Each(Set(Volume), MountTexts(c.volumeMounts))
      + ExecLines(c, quote) + PublishLines(c) + Each(Set(Environment), EnvTexts(c.env))
      + ProvenanceLines(c) + BuildLines(c) + HardeningLines(c)
  {
    hide ImageOf, Each, ExecLines, PublishLines, ProvenanceLines, BuildLines, HardeningLines;
  }

  /** What stands below the [Service] header, up to the end. */
  function ServiceRest(c: ContainerModel): seq<Line> {
    if c.isJob then [Fixed(TypeOneshot), Fixed(RestartNo)]
    else [Fixed(RestartAlways), Fixed(if c.isImageBundled then TimeoutLong else TimeoutShort), Fixed(Blank)]
  }

  function InstallPart(c: ContainerModel): seq<Line> {
    if c.isJob then [] else [Fixed(InstallSection)] + [Fixed(WantedBy)]
  }

  lemma SectionsAre(c: ContainerModel, quote: string -> string)
    ensures ContainerLines(c, quote) ==
      [Fixed(Generated), Fixed(ChangesHere), Fixed(Blank)]
      + ([Fixed(UnitSection)] + [Line(Set(Description), c.name), Fixed(After), Fixed(Blank)])
      + ([Fixed(ContainerSection)] + (PodmanLines(c, quote) + [Fixed(Blank)]))
      + ([Fixed(ServiceSection)] + ServiceRest(c)) + InstallPart(c)
  {
    UnitAndImage(c);
    ServiceIs(c);
    PodmanIs(c, quote);
    HeadIs(c, quote);
    LinesAre(c, quote);
    hide *;
    var header := [Fixed(Generated), Fixed(ChangesHere), Fixed(Blank)];
    var unit := [Fixed(UnitSection)] + [Line(Set(Description), c.name), Fixed(After), Fixed(Blank)];
    var image := [Line(Set(Image), ImageOf(c)), Line(Set(ContainerNameKey), c.name)];
    var b, d := Each(Set(Network), NetworkFiles(c.networks)), Each(Set(Volume), MountTexts(c.volumeMounts));
    var e, f, g := ExecLines(c, quote), PublishLines(c), Each(Set(Environment), EnvTexts(c.env));
    var h, i, j := ProvenanceLines(c), BuildLines(c), HardeningLines(c);
    var service := [Fixed(ServiceSection)] + ServiceRest(c);
    Regroup(header, unit, [Fixed(ContainerSection)], image, b, d, e, f, g, h, i, j, [Fixed(Blank)], service,
            InstallPart(c));
  }

  lemma UnitAndImage(c: ContainerModel)
    ensures UnitLines(c) + ImageLines(c) ==
      [Fixed(Generated), Fixed(ChangesHere), Fixed(Blank)]
      + ([Fixed(UnitSection)] + [Line(Set(Description), c.name), Fixed(After), Fixed(Blank)])
      + ([Fixed(ContainerSection)] + [Line(Set(Image), ImageOf(c)), Line(Set(ContainerNameKey), c.name)])
  {
  }

  lemma ServiceIs(c: ContainerModel)
    ensures ServiceLines(c) == [Fixed(Blank)] + ([Fixed(ServiceSection)] + ServiceRest(c) + InstallPart(c))
  {
  }

  lemma Regroup<T>(a: seq<T>, b: seq<T>, h: seq<T>, c: seq<T>, d: seq<T>, e: seq<T>, f: seq<T>, g: seq<T>, i: seq<T>,
                   j: seq<T>, k: seq<T>, l: seq<T>, m: seq<T>, n: seq<T>, o: seq<T>)
    ensures a + b + (h + c) + d + e + f + g + i + j + k + l + (m + (n + o))
      == a + b + (h + (c + d + e + f + g + i + j + k + l + m)) + n + o
  {
    var q := d + e + f + g + i + j + k + l;
    assert c + d + e + f + g + i + j + k + l == c + q;
    assert a + b + (h + c) + d + e + f + g + i + j + k + l == a + b + (h + c) + q;
  }

  lemma AroundPlain(c: ContainerModel)
    ensures Plain([Fixed(Generated), Fixed(ChangesHere), Fixed(Blank)], Blank)
    ensures Plain([Line(Set(Description), c.name), Fixed(After), Fixed(Blank)], UnitSection)
    ensures Plain([Fixed(Blank)], ContainerSection) && Plain(ServiceRest(c), ServiceSection)
  {
    FixturesPlain();
    hide IsPlain;
    ThreePlain(Fixed(Generated), Fixed(ChangesHere), Fixed(Blank), Blank);
    ThreePlain(Line(Set(Description), c.name), Fixed(After), Fixed(Blank), UnitSection);
    PlainLine(Fixed(Blank), ContainerSection);
    ThreePlain(Fixed(RestartAlways), Fixed(if c.isImageBundled then TimeoutLong else TimeoutShort), Fixed(Blank),
               ServiceSection);
    PlainLine(Fixed(TypeOneshot), ServiceSection);
    PlainLine(Fixed(RestartNo), ServiceSection);
    hide Plain;
    PlainAppend([Fixed(TypeOneshot)], [Fixed(RestartNo)], ServiceSection);
    assert [Fixed(TypeOneshot)] + [Fixed(RestartNo)] == [Fixed(TypeOneshot), Fixed(RestartNo)];
  }

  lemma ThreePlain(a: Line, b: Line, c: Line, s: Fixture)
    requires IsPlain(a.key, s) && IsPlain(b.key, s) && IsPlain(c.key, s)
    ensures Plain([a, b, c], s)
  {
    hide IsPlain;
    PlainLine(a, s);
    PlainLine(b, s);
    PlainLine(c, s);
    hide Plain;
    PlainAppend([a], [b], s);
    PlainAppend([a] + [b], [c], s);
    assert [a] + [b] + [c] == [a, b, c];
  }

  lemma FixturesPlain()
    ensures forall s | s in {Fixture.Blank, UnitSection, ContainerSection, ServiceSection} :: IsPlain(Fix(Blank), s)
    ensures IsPlain(Fix(Generated), Blank) && IsPlain(Fix(ChangesHere), Blank)
    ensures IsPlain(Set(Description), UnitSection) && IsPlain(Fix(After), UnitSection)
    ensures forall f | f in {TypeOneshot, RestartNo, RestartAlways, TimeoutLong, TimeoutShort} ::
      IsPlain(Fix(f), ServiceSection)
  {
  }

  lemma FourSections()
    ensures IsSection(UnitSection) && IsSection(ContainerSection) && IsSection(ServiceSection)
  {
  }

  /** Every directive of a unit stands in its section. */
  lemma UnitIsPlaced(c: ContainerModel, quote: string -> string)
    ensures Placed(ContainerLines(c, quote), Blank)
  {
    var header := [Fixed(Generated), Fixed(ChangesHere), Fixed(Blank)];
    var about := [Line(Set(Description), c.name), Fixed(After), Fixed(Blank)];
    var podman, rest := PodmanLines(c, quote) + [Fixed(Blank)], ServiceRest(c);
    hide *;
    AroundPlain(c);
    FourSections();
    PlainPodman(c, quote);
    PlainAppend(PodmanLines(c, quote), [Fixed(Blank)], ContainerSection);
    PlainPlaced(header, Blank);
    HeadedPlaced(UnitSection, about, Blank);
    HeadedPlaced(ContainerSection, podman, UnitSection);
    HeadedPlaced(ServiceSection, rest, ContainerSection);
    InstallPlaced(c);
    SectionsAre(c, quote);
    var u, p, v := [Fixed(UnitSection)] + about, [Fixed(ContainerSection)] + podman, [Fixed(ServiceSection)] + rest;
    PlacedAppend(header, u, Blank, Blank);
    PlacedAppend(header + u, p, Blank, UnitSection);
    PlacedAppend(header + u + p, v, Blank, ContainerSection);
    PlacedAppend(header + u + p + v, InstallPart(c), Blank, ServiceSection);
  }

  lemma InstallPlaced(c: ContainerModel)
    ensures Placed(InstallPart(c), ServiceSection)
  {
    if !c.isJob {
      InstallPlain();
      hide IsPlain, IsSection, Plain, Placed, SectionAfter;
      PlainLine(Fixed(WantedBy), InstallSection);
      HeadedPlaced(InstallSection, [Fixed(WantedBy)], ServiceSection);
    }
  }

  lemma InstallPlain()
    ensures IsPlain(Fix(WantedBy), InstallSection) && IsSection(InstallSection)
  {
  }

  // -------------------------------------------------------------------------- and in the text

  lemma HeaderLine(l: Line)
    ensures IsHeader(l.Text()) <==> IsSectionLine(l)
    ensures IsSectionLine(l) ==> l.Text() == FixtureText(l.key.fixture)
  {
    LineSplits(l);
    if l.key == Fix(Blank) {
      assert l.Text() == "";
    } else {
      Begins(l.key);
      FirstOfSection(l.key);
      hide First, Second, Third, Fourth, Prefix, LineValue, IsSection;
    }
  }

  lemma FirstOfSection(k: Key)
    requires k != Fix(Blank)
    ensures First(k) == '[' <==> k.Fix? && IsSection(k.fixture)
  {
  }

  lemma {:induction false} HeaderInText(lines: seq<Line>)
    ensures HeaderAfter(Texts(lines)) == FixtureText(SectionAfter(lines, Blank))
  {
    hide FixtureText, Line.Text, IsHeader, IsSectionLine;
    if lines == [] {
      BlankText();
    } else {
      var n := |lines| - 1;
      assert Texts(lines)[..n] == Texts(lines[..n]);
      HeaderInText(lines[..n]);
      HeaderLine(lines[n]);
    }
  }

  lemma BlankText()
    ensures FixtureText(Blank) == ""
  {
  }

  lemma {:induction false} ValuesPlaced(lines: seq<Line>, k: Key)
    requires IsDirective(k) && Placed(lines, Blank)
    ensures ValuesIn(Texts(lines), FixtureText(Belongs(k)), Prefix(k)) == ValuesWith(Texts(lines), Prefix(k))
  {
    hide FixtureText, Prefix, Line.Text, LineValue, Class, IsDirective, Belongs, SectionAfter, HeaderAfter;
    if lines != [] {
      var n := |lines| - 1;
      var front := lines[..n];
      assert Texts(lines)[..n] == Texts(front);
      assert forall i | 0 <= i < n :: lines[..i] == front[..i];
      ValuesPlaced(front, k);
      HeaderInText(front);
      LineHasPrefix(lines[n], k);
    }
  }

  /** In a unit, what a directive says is what it says in the section it belongs to: it stands there, and in no
      other section. */
  lemma DirectivesInPlace(c: ContainerModel, quote: string -> string, k: Key)
    requires IsDirective(k) && LinesFree(ContainerLines(c, quote))
    ensures DirectiveIn(ContainerText(c, quote), FixtureText(Belongs(k)), Prefix(k))
      == Directive(ContainerText(c, quote), Prefix(k)) == UnitSays(c, quote, k)
  {
    hide Prefix, ContainerLines, Texts, Unlines, Split, ValuesIn, ValuesWith, LinesFree, AllFree, IsDirective,
         FixtureText, Belongs, UnitSays;
    var lines := ContainerLines(c, quote);
    UnitDirectives(c, quote, k);
    UnitIsPlaced(c, quote);
    TextsFree(lines);
    SplitUnlines(Texts(lines));
    DirectiveBegins(k);
    ValuesTail(Texts(lines), Prefix(k));
    InTail(Texts(lines), FixtureText(Belongs(k)), Prefix(k));
    ValuesPlaced(lines, k);
  }

  lemma InTail(texts: seq<string>, header: string, prefix: string)
    requires |prefix| > 0
    ensures ValuesIn(texts + [""], header, prefix) == ValuesIn(texts, header, prefix)
  {
    hide HeaderAfter;
    assert (texts + [""])[..|texts|] == texts;
  }
}
