/** What a rendered unit tells systemd and podman, read off its text: the values on the lines of each
    directive. A reader splits the text into lines and looks at how they begin; what it finds for a
    compiled service or job is what its declaration says. */
module UnitSettings {
  import opened Text
  import opened Order
  import opened Schema
  import opened Containers
  import opened Compiler
  import opened Compiled
  import opened Render
  import opened UnitText
  import opened Environment

  // ----------------------------------------------------------------------------- the reader

  function ValuesWith(lines: seq<string>, prefix: string): seq<string> {
    if lines == [] then []
    else
      var last := lines[|lines| - 1];
      ValuesWith(lines[..|lines| - 1], prefix) + if HasPrefix(last, prefix) then [last[|prefix|..]] else []
  }

  /** What follows the prefix on every line that starts with it. */
  function Directive(text: string, prefix: string): seq<string> {
    ValuesWith(Split(text, '\n'), prefix)
  }

  // ------------------------------------------------------------- how the lines of a unit begin

  /** How a line with this key begins, up to its value. */
  function Prefix(k: Key): string {
    match k
    case Set(s) => SettingText(s)
    case Note(c) => CommentText(c)
    case Fix(f) =>
      match f
      case After => "After="
      case NoNewPrivileges => "NoNewPrivileges="
      case DropCapability => "DropCapability="
      case TypeOneshot => "Type="
      case RestartNo => "Restart="
      case RestartAlways => "Restart="
      case TimeoutLong => "TimeoutStartSec="
      case TimeoutShort => "TimeoutStartSec="
      case WantedBy => "WantedBy="
      case _ => FixtureText(f)
  }

  function FixtureValue(f: Fixture): string {
    match f
    case After => "network-online.target"
    case NoNewPrivileges => "true"
    case DropCapability => "ALL"
    case TypeOneshot => "oneshot"
    case RestartNo => "no"
    case RestartAlways => "always"
    case TimeoutLong => "120"
    case TimeoutShort => "30"
    case WantedBy => "default.target"
    case _ => ""
  }

  function LineValue(l: Line): string {
    if l.key.Fix? then FixtureValue(l.key.fixture) else l.value
  }

  /** Lines that begin alike. */
  function Class(k: Key): Key {
    if k == Fix(RestartAlways) then Fix(RestartNo)
    else if k == Fix(TimeoutLong) then Fix(TimeoutShort)
    else k
  }

  predicate IsDirective(k: Key) {
    k.Set? || k.Note?
    || k.fixture in {After, NoNewPrivileges, DropCapability, TypeOneshot, RestartNo, TimeoutShort, WantedBy}
  }

  lemma SectionSplits(f: Fixture)
    requires FixtureValue(f) == "" && Prefix(Fix(f)) == FixtureText(f)
    ensures FixtureText(f) == Prefix(Fix(f)) + FixtureValue(f)
  {
    hide FixtureText, Prefix;
    assert FixtureText(f) + "" == FixtureText(f);
  }

  lemma LongSplits(f: Fixture)
    requires f in {After, WantedBy}
    ensures FixtureText(f) == Prefix(Fix(f)) + FixtureValue(f)
  {
  }

  lemma OptionSplits(f: Fixture)
    requires f in {NoNewPrivileges, DropCapability, TypeOneshot}
    ensures FixtureText(f) == Prefix(Fix(f)) + FixtureValue(f)
  {
  }

  lemma ServiceSplits(f: Fixture)
    requires f in {RestartNo, RestartAlways, TimeoutLong, TimeoutShort}
    ensures FixtureText(f) == Prefix(Fix(f)) + FixtureValue(f)
  {
  }

  lemma FixtureSplits(f: Fixture)
    ensures FixtureText(f) == Prefix(Fix(f)) + FixtureValue(f)
  {
    hide FixtureText;
    if f in {After, WantedBy} {
      LongSplits(f);
    } else if f in {NoNewPrivileges, DropCapability, TypeOneshot} {
      OptionSplits(f);
    } else if f in {RestartNo, RestartAlways, TimeoutLong, TimeoutShort} {
      ServiceSplits(f);
    } else {
      SectionSplits(f);
    }
  }

  lemma LineSplits(l: Line)
    ensures l.Text() == Prefix(l.key) + LineValue(l)
  {
    if l.key.Fix? {
      FixtureSplits(l.key.fixture);
    }
    hide FixtureText, SettingText, CommentText, FixtureValue;
  }

  /** The first characters of a beginning, and the ones that tell comments and podman arguments apart. */
  function First(k: Key): char {
    match k
    case Note(_) => '#'
    case Set(s) =>
      (match s
       case Description => 'D'
       case Image => 'I'
       case ContainerNameKey => 'C'
       case Network => 'N'
       case Volume => 'V'
       case Exec => 'E'
       case PublishPort => 'P'
       case Environment => 'E'
       case User => 'U'
       case AddCapability => 'A'
       case SecurityOpt => 'P'
       case Memory => 'P'
       case Cpus => 'P')
    case Fix(f) =>
      match f
      case Blank => ' '
      case Generated => '#'
      case ChangesHere => '#'
      case After => 'A'
      case NoNewPrivileges => 'N'
      case DropCapability => 'D'
      case TypeOneshot => 'T'
      case RestartNo => 'R'
      case RestartAlways => 'R'
      case TimeoutLong => 'T'
      case TimeoutShort => 'T'
      case WantedBy => 'W'
      case _ => '['
  }

  function Second(k: Key): char {
    match k
    case Note(_) => ' '
    case Set(s) =>
      (match s
       case Description => 'e'
       case Image => 'm'
       case ContainerNameKey => 'o'
       case Network => 'e'
       case Volume => 'o'
       case Exec => 'x'
       case PublishPort => 'u'
       case Environment => 'n'
       case User => 's'
       case AddCapability => 'd'
       case SecurityOpt => 'o'
       case Memory => 'o'
       case Cpus => 'o')
    case Fix(f) =>
      match f
      case Generated => ' '
      case ChangesHere => ' '
      case After => 'f'
      case NoNewPrivileges => 'o'
      case DropCapability => 'r'
      case TypeOneshot => 'y'
      case RestartNo => 'e'
      case RestartAlways => 'e'
      case TimeoutLong => 'i'
      case TimeoutShort => 'i'
      case WantedBy => 'a'
      case _ => ' '
  }

  /** Character 2 of a comment, and character 13 of a podman argument. */
  function Third(k: Key): char {
    match k
    case Note(c) =>
      (match c
       case HealthProbeHTTP => 'H'
       case Requires => 'R'
       case JobService => 'J'
       case Service => 'S'
       case _ => 'B')
    case Set(s) => if s.SecurityOpt? then 's' else if s.Memory? then 'm' else if s.Cpus? then 'c' else ' '
    case Fix(f) => if f.Generated? then 'G' else if f.ChangesHere? then 'C' else ' '
  }

  /** Character 7 of a build comment. */
  function Fourth(k: Key): char {
    if !k.Note? then ' '
    else
      match k.comment
      case BuildImage => 'I'
      case BuildSource => 'S'
      case BuildRef => 'R'
      case BuildDockerfile => 'D'
      case BuildContext => 'C'
      case _ => ' '
  }

  predicate IsPodmanArg(k: Key) {
    k == Set(SecurityOpt) || k == Set(Memory) || k == Set(Cpus)
  }

  predicate BeginsSo(t: string, k: Key) {
    && |t| >= 2 && t[0] == First(k)
    && (First(k) != '[' ==> t[1] == Second(k))
    && (First(k) == '#' ==> (|t| > 2 && t[2] == Third(k)))
    && (k.Note? && Third(k) == 'B' ==> (|t| > 7 && t[7] == Fourth(k)))
    && (IsPodmanArg(k) ==> (|t| > 13 && t[13] == Third(k)))
  }

  lemma FixtureBegins(f: Fixture)
    requires !f.Blank?
    ensures BeginsSo(Prefix(Fix(f)), Fix(f))
  {
  }

  lemma SettingBegins(s: Setting)
    ensures BeginsSo(Prefix(Set(s)), Set(s))
  {
  }

  lemma CommentBegins(c: Comment)
    ensures BeginsSo(Prefix(Note(c)), Note(c))
  {
  }

  lemma Begins(k: Key)
    requires k != Fix(Blank)
    ensures BeginsSo(Prefix(k), k)
  {
    hide Prefix, BeginsSo;
    match k
    case Fix(f) => FixtureBegins(f);
    case Set(s) => SettingBegins(s);
    case Note(c) => CommentBegins(c);
  }

  /** Two beginnings differ in one of these characters. */
  predicate Differs(k: Key, l: Key) {
    || First(k) != First(l)
    || (First(k) != '[' && Second(k) != Second(l))
    || (First(k) == '#' && (Third(k) != Third(l) || (k.Note? && l.Note? && Third(k) == 'B' && Fourth(k) != Fourth(l))))
    || (IsPodmanArg(k) && IsPodmanArg(l) && Third(k) != Third(l))
  }

  lemma SettingsDiffer(s: Setting, l: Key)
    requires Set(s) != l && l != Fix(Blank)
    ensures Differs(Set(s), l)
  {
  }

  lemma CommentsDiffer(c: Comment, l: Key)
    requires Note(c) != l && l != Fix(Blank)
    ensures Differs(Note(c), l)
  {
  }

  lemma FixturesDiffer(f: Fixture, l: Key)
    requires IsDirective(Fix(f)) && Fix(f) != Class(l) && l != Fix(Blank)
    ensures Differs(Fix(f), l)
  {
  }

  lemma KeysDiffer(k: Key, l: Key)
    requires IsDirective(k) && Class(l) != k && l != Fix(Blank)
    ensures Differs(k, l)
  {
    match k
    case Fix(f) => FixturesDiffer(f, l);
    case Set(s) => SettingsDiffer(s, l);
    case Note(c) => CommentsDiffer(c, l);
  }

  lemma NotAPrefix(p: string, k: Key, q: string, l: Key, rest: string)
    requires BeginsSo(p, k) && BeginsSo(q, l) && Differs(k, l) && First(k) != '['
    ensures !HasPrefix(q + rest, p)
  {
    hide First, Second, Third, Fourth;
    var t := q + rest;
    assert t[0] == q[0] && t[1] == q[1];
    assert |q| > 2 ==> t[2] == q[2];
    assert |q| > 7 ==> t[7] == q[7];
    assert |q| > 13 ==> t[13] == q[13];
  }

  lemma DirectiveBegins(k: Key)
    requires IsDirective(k)
    ensures First(k) != '[' && k != Fix(Blank) && |Prefix(k)| > 0
  {
    Begins(k);
    hide Prefix;
  }

  /** A line has the prefix exactly if it is of the class. */
  lemma LineHasPrefix(l: Line, k: Key)
    requires IsDirective(k)
    ensures HasPrefix(l.Text(), Prefix(k)) <==> Class(l.key) == k
    ensures Class(l.key) == k ==> l.Text()[|Prefix(k)|..] == LineValue(l)
  {
    LineSplits(l);
    DirectiveBegins(k);
    if Class(l.key) == k {
      SamePrefix(l.key);
      hide Prefix, LineValue, Line.Text;
    } else if l.key == Fix(Blank) {
      assert l.Text() == "";
    } else {
      hide *;
      Begins(k);
      Begins(l.key);
      KeysDiffer(k, l.key);
      NotAPrefix(Prefix(k), k, Prefix(l.key), l.key, LineValue(l));
    }
  }

  lemma SamePrefix(k: Key)
    ensures Prefix(Class(k)) == Prefix(k)
  {
    hide SettingText, CommentText, FixtureText;
  }

  /** The values on the lines of a class. */
  function ClassValues(lines: seq<Line>, k: Key): seq<string> {
    if lines == [] then []
    else
      var last := lines[|lines| - 1];
      ClassValues(lines[..|lines| - 1], k) + if Class(last.key) == k then [LineValue(last)] else []
  }

  lemma {:induction false} TextsWith(lines: seq<Line>, k: Key)
    requires IsDirective(k)
    ensures ValuesWith(Texts(lines), Prefix(k)) == ClassValues(lines, k)
  {
    hide Prefix, Line.Text, LineValue, Class, IsDirective;
    if lines != [] {
      var n := |lines| - 1;
      assert Texts(lines)[..n] == Texts(lines[..n]);
      TextsWith(lines[..n], k);
      LineHasPrefix(lines[n], k);
    }
  }

  lemma ValuesTail(texts: seq<string>, prefix: string)
    requires |prefix| > 0
    ensures ValuesWith(texts + [""], prefix) == ValuesWith(texts, prefix)
  {
    assert (texts + [""])[..|texts|] == texts;
  }

  /** Reading a directive off a unit gives the values of its lines. */
  lemma DirectiveIs(c: ContainerModel, quote: string -> string, k: Key)
    requires IsDirective(k) && LinesFree(ContainerLines(c, quote))
    ensures Directive(ContainerText(c, quote), Prefix(k)) == ClassValues(ContainerLines(c, quote), k)
  {
    hide Prefix, ContainerLines, Texts, Unlines, Split, ValuesWith, ClassValues, LinesFree, AllFree, IsDirective;
    var lines := ContainerLines(c, quote);
    TextsFree(lines);
    SplitUnlines(Texts(lines));
    DirectiveBegins(k);
    ValuesTail(Texts(lines), Prefix(k));
    TextsWith(lines, k);
  }

  // ------------------------------------------------------------------- section by section

  lemma {:induction false} ClassAppend(a: seq<Line>, b: seq<Line>, k: Key)
    ensures ClassValues(a + b, k) == ClassValues(a, k) + ClassValues(b, k)
  {
    hide Class, LineValue;
    if b == [] {
      assert a + b == a;
    } else {
      assert (a + b)[..|a + b| - 1] == a + b[..|b| - 1];
      ClassAppend(a, b[..|b| - 1], k);
    }
  }

  lemma ClassOne(l: Line, k: Key)
    ensures ClassValues([l], k) == if Class(l.key) == k then [LineValue(l)] else []
  {
    hide Class, LineValue;
    assert [l][..0] == [];
    assert ClassValues([], k) == [];
  }

  lemma {:induction false} ClassEach(key: Key, values: seq<string>, k: Key)
    requires !key.Fix?
    ensures ClassValues(Each(key, values), k) == if key == k then values else []
  {
    if values != [] {
      var n := |values| - 1;
      ClassEach(key, values[..n], k);
      ClassAppend(Each(key, values[..n]), [Line(key, values[n])], k);
      ClassOne(Line(key, values[n]), k);
    }
  }

  function IfAny(value: string): seq<string> {
    if value != "" then [value] else []
  }

  lemma ClassOptional(key: Key, value: string, k: Key)
    requires !key.Fix?
    ensures ClassValues(Optional(key, value), k) == if key == k then IfAny(value) else []
  {
    ClassOne(Line(key, value), k);
  }

  lemma ClassTwo(a: Line, b: Line, k: Key)
    ensures ClassValues([a, b], k) == ClassValues([a], k) + ClassValues([b], k)
  {
    assert [a, b] == [a] + [b];
    ClassAppend([a], [b], k);
  }

  lemma ClassMore(a: Line, rest: seq<Line>, k: Key)
    ensures ClassValues([a] + rest, k) == (if Class(a.key) == k then [LineValue(a)] else []) + ClassValues(rest, k)
  {
    ClassAppend([a], rest, k);
    ClassOne(a, k);
  }

  lemma ClassNone(k: Key)
    ensures ClassValues([], k) == []
  {
  }

  /** Of several parts at most one says something. */
  lemma OnePart<T>(a: seq<T>, b: seq<T>, d: seq<T>, e: seq<T>, f: seq<T>, g: seq<T>, h: seq<T>)
    ensures b == d == e == f == g == h == [] ==> a + b + d + e + f + g + h == a
    ensures a == d == e == f == g == h == [] ==> a + b + d + e + f + g + h == b
    ensures a == b == e == f == g == h == [] ==> a + b + d + e + f + g + h == d
    ensures a == b == d == f == g == h == [] ==> a + b + d + e + f + g + h == e
    ensures a == b == d == e == g == h == [] ==> a + b + d + e + f + g + h == f
    ensures a == b == d == e == f == h == [] ==> a + b + d + e + f + g + h == g
    ensures a == b == d == e == f == g == [] ==> a + b + d + e + f + g + h == h
  {
  }

  lemma SixParts(a: seq<Line>, b: seq<Line>, d: seq<Line>, e: seq<Line>, f: seq<Line>, g: seq<Line>, k: Key)
    ensures ClassValues(a + b + d + e + f + g, k) ==
      ClassValues(a, k) + ClassValues(b, k) + ClassValues(d, k) + ClassValues(e, k) + ClassValues(f, k)
      + ClassValues(g, k) + []
  {
    hide *;
    ClassAppend(a, b, k);
    ClassAppend(a + b, d, k);
    ClassAppend(a + b + d, e, k);
    ClassAppend(a + b + d + e, f, k);
    ClassAppend(a + b + d + e + f, g, k);
  }

  /** Lines that no directive asks for. */
  lemma {:induction false} ClassSilent(lines: seq<Line>, k: Key)
    requires forall l | l in lines :: Class(l.key) != k
    ensures ClassValues(lines, k) == []
  {
    hide Class, LineValue;
    if lines != [] {
      ClassSilent(lines[..|lines| - 1], k);
    }
  }

  lemma TwoAfter(header: seq<Line>, a: Line, b: Line, k: Key)
    requires forall l | l in header :: Class(l.key) != k
    ensures ClassValues(header + [a, b], k) ==
      (if Class(a.key) == k then [LineValue(a)] else []) + (if Class(b.key) == k then [LineValue(b)] else [])
  {
    hide *;
    ClassSilent(header, k);
    ClassAppend(header, [a, b], k);
    ClassTwo(a, b, k);
    ClassOne(a, k);
    ClassOne(b, k);
  }

  lemma SilentHeaders(k: Key)
    requires IsDirective(k)
    ensures forall l | l in [Fixed(Generated), Fixed(ChangesHere), Fixed(Blank), Fixed(UnitSection)] ::
      Class(l.key) != k
    ensures forall l | l in [Fixed(Blank), Fixed(ContainerSection)] :: Class(l.key) != k
  {
  }

  lemma UnitPart(c: ContainerModel, k: Key)
    requires IsDirective(k)
    ensures ClassValues(UnitLines(c), k) ==
      if k == Set(Description) then [c.name]
      else if k == Fix(After) then ["network-online.target"]
      else []
  {
    var header := [Fixed(Generated), Fixed(ChangesHere), Fixed(Blank), Fixed(UnitSection)];
    assert UnitLines(c) == header + [Line(Set(Description), c.name), Fixed(After)];
    hide ClassValues, UnitLines, IsDirective;
    SilentHeaders(k);
    TwoAfter(header, Line(Set(Description), c.name), Fixed(After), k);
  }

  function ImageOf(c: ContainerModel): string {
    if c.digest != "" then c.image + "@" + c.digest else c.image
  }

  lemma ImagePart(c: ContainerModel, k: Key)
    requires IsDirective(k)
    ensures ClassValues(ImageLines(c), k) ==
      if k == Set(Image) then [ImageOf(c)]
      else if k == Set(ContainerNameKey) then [c.name]
      else []
  {
    var header := [Fixed(Blank), Fixed(ContainerSection)];
    assert ImageLines(c) == header + [Line(Set(Image), ImageOf(c)), Line(Set(ContainerNameKey), c.name)];
    hide ClassValues, ImageLines, ImageOf, IsDirective;
    SilentHeaders(k);
    TwoAfter(header, Line(Set(Image), ImageOf(c)), Line(Set(ContainerNameKey), c.name), k);
  }

  function ExecOf(c: ContainerModel, quote: string -> string): seq<string> {
    if c.command == [] then [] else [Join(QuotedArgs(c.command, quote), ' ')]
  }

  lemma HeadPart(c: ContainerModel, quote: string -> string, k: Key)
    requires IsDirective(k)
    ensures ClassValues(LinesBefore(c, quote), k) ==
      if k == Set(Description) || k == Set(ContainerNameKey) then [c.name]
      else if k == Fix(After) then ["network-online.target"]
      else if k == Set(Image) then [ImageOf(c)]
      else if k == Set(Network) then NetworkFiles(c.networks)
      else if k == Set(Volume) then MountTexts(c.volumeMounts)
      else if k == Set(Exec) then ExecOf(c, quote)
      else []
  {
    hide *;
    var a, b := UnitLines(c) + ImageLines(c), Each(Set(Network), NetworkFiles(c.networks));
    var d, e := Each(Set(Volume), MountTexts(c.volumeMounts)), ExecLines(c, quote);
    UnitPart(c, k);
    ImagePart(c, k);
    ClassEach(Set(Network), NetworkFiles(c.networks), k);
    ClassEach(Set(Volume), MountTexts(c.volumeMounts), k);
    ExecPart(c, quote, k);
    ClassAppend(UnitLines(c), ImageLines(c), k);
    ClassAppend(a, b, k);
    ClassAppend(a + b, d, k);
    ClassAppend(a + b + d, e, k);
    HeadIs(c, quote);
  }

  lemma HeadIs(c: ContainerModel, quote: string -> string)
    ensures LinesBefore(c, quote) == UnitLines(c) + ImageLines(c) + Each(Set(Network), NetworkFiles(c.networks))
                                       + Each(Set(Volume), MountTexts(c.volumeMounts)) + ExecLines(c, quote)
  {
    hide UnitLines, ImageLines, Each, NetworkFiles, MountTexts, ExecLines;
  }

  lemma ExecPart(c: ContainerModel, quote: string -> string, k: Key)
    ensures ClassValues(ExecLines(c, quote), k) == if k == Set(Exec) then ExecOf(c, quote) else []
  {
    hide QuotedArgs, Join;
    ClassNone(k);
    if c.command != [] {
      ClassOne(Line(Set(Exec), Join(QuotedArgs(c.command, quote), ' ')), k);
    }
  }

  function PublishOf(c: ContainerModel): seq<string> {
    if c.tunnelPort > 0 then ["127.0.0.1:" + DecInt(c.tunnelPort) + ":" + DecInt(c.publicPort)] else []
  }

  lemma PublishPart(c: ContainerModel, k: Key)
    ensures ClassValues(PublishLines(c), k) == if k == Set(PublishPort) then PublishOf(c) else []
  {
    hide DecInt;
    ClassNone(k);
    if c.tunnelPort > 0 {
      ClassOne(Line(Set(PublishPort), "127.0.0.1:" + DecInt(c.tunnelPort) + ":" + DecInt(c.publicPort)), k);
    }
  }

  function ProbeOf(c: ContainerModel): seq<string> {
    if c.healthProbe.Some? then IfAny(c.healthProbe.value) else []
  }

  function RequiresOf(c: ContainerModel): seq<string> {
    if c.needs == [] then [] else [Join(c.needs, ',')]
  }

  lemma ProvenancePart(c: ContainerModel, k: Key)
    ensures ClassValues(ProvenanceLines(c), k) ==
      if k == Note(HealthProbeHTTP) then ProbeOf(c)
      else if k == Note(Requires) then RequiresOf(c)
      else if k == Note(JobService) then IfAny(c.jobService)
      else if k == Note(Service) then if HasServiceLine(c) then [c.serviceName] else []
      else if k == Note(BuildImage) then if HasServiceLine(c) then IfAny(c.image) else []
      else []
  {
    hide *;
    ProbePart(c, k);
    ClassOptional(Note(JobService), c.jobService, k);
    ReplicaPart(c, k);
    var job := Optional(Note(JobService), c.jobService);
    ClassAppend(ProbeLine(c), RequiresLine(c), k);
    ClassAppend(ProbeLine(c) + RequiresLine(c), job, k);
    ClassAppend(ProbeLine(c) + RequiresLine(c) + job, ReplicaLines(c), k);
    ProvenanceIs(c);
  }

  lemma ProbePart(c: ContainerModel, k: Key)
    ensures ClassValues(ProbeLine(c), k) == if k == Note(HealthProbeHTTP) then ProbeOf(c) else []
    ensures ClassValues(RequiresLine(c), k) == if k == Note(Requires) then RequiresOf(c) else []
  {
    hide Join;
    ClassNone(k);
    if c.healthProbe.Some? {
      ClassOptional(Note(HealthProbeHTTP), c.healthProbe.value, k);
    }
    if c.needs != [] {
      ClassOne(Line(Note(Requires), Join(c.needs, ',')), k);
    }
  }

  lemma ReplicaPart(c: ContainerModel, k: Key)
    ensures ClassValues(ReplicaLines(c), k) ==
      if !HasServiceLine(c) then []
      else if k == Note(Service) then [c.serviceName]
      else if k == Note(BuildImage) then IfAny(c.image)
      else []
  {
    ClassNone(k);
    ClassMore(Line(Note(Service), c.serviceName), Optional(Note(BuildImage), c.image), k);
    ClassOptional(Note(BuildImage), c.image, k);
    hide ClassValues, Optional;
  }

  lemma BuildPart(c: ContainerModel, k: Key)
    ensures ClassValues(BuildLines(c), k) ==
      if c.isImageBundled then []
      else if k == Note(BuildSource) then IfAny(c.buildSource)
      else if k == Note(BuildRef) then IfAny(c.buildRef)
      else if k == Note(BuildDockerfile) then IfAny(c.buildDockerfile)
      else if k == Note(BuildContext) then IfAny(c.buildContext)
      else []
  {
    hide *;
    var a, b := Optional(Note(BuildSource), c.buildSource), Optional(Note(BuildRef), c.buildRef);
    var d, e := Optional(Note(BuildDockerfile), c.buildDockerfile), Optional(Note(BuildContext), c.buildContext);
    BuildIs(c);
    ClassNone(k);
    ClassOptional(Note(BuildSource), c.buildSource, k);
    ClassOptional(Note(BuildRef), c.buildRef, k);
    ClassOptional(Note(BuildDockerfile), c.buildDockerfile, k);
    ClassOptional(Note(BuildContext), c.buildContext, k);
    SixParts(a, b, d, e, [], [], k);
    OnePart(ClassValues(a, k), ClassValues(b, k), ClassValues(d, k), ClassValues(e, k), [], [], []);
  }

  lemma BuildIs(c: ContainerModel)
    ensures BuildLines(c) ==
      if c.isImageBundled then []
      else
        Optional(Note(BuildSource), c.buildSource) + Optional(Note(BuildRef), c.buildRef)
        + Optional(Note(BuildDockerfile), c.buildDockerfile) + Optional(Note(BuildContext), c.buildContext) + [] + []
  {
    hide Optional;
    var all := Optional(Note(BuildSource), c.buildSource) + Optional(Note(BuildRef), c.buildRef)
      + Optional(Note(BuildDockerfile), c.buildDockerfile) + Optional(Note(BuildContext), c.buildContext);
    assert all + [] + [] == all;
  }

  lemma HardeningPart(c: ContainerModel, k: Key)
    ensures ClassValues(HardeningLines(c), k) ==
      if k == Fix(NoNewPrivileges) then ["true"]
      else if k == Fix(DropCapability) then ["ALL"]
      else if k == Set(User) then IfAny(c.user)
      else if k == Set(AddCapability) then c.addCapabilities
      else if k == Set(SecurityOpt) then c.securityOpts
      else if k == Set(Memory) then IfAny(c.memoryLimit)
      else if k == Set(Cpus) then IfAny(c.cpuLimit)
      else []
  {
    hide *;
    var a, b := [Fixed(NoNewPrivileges), Fixed(DropCapability)], Optional(Set(User), c.user);
    var d, e := Each(Set(AddCapability), c.addCapabilities), Each(Set(SecurityOpt), c.securityOpts);
    var f, g := Optional(Set(Memory), c.memoryLimit), Optional(Set(Cpus), c.cpuLimit);
    HardeningIs(c);
    FixedHardening(k);
    ClassOptional(Set(User), c.user, k);
    ClassEach(Set(AddCapability), c.addCapabilities, k);
    ClassEach(Set(SecurityOpt), c.securityOpts, k);
    ClassOptional(Set(Memory), c.memoryLimit, k);
    ClassOptional(Set(Cpus), c.cpuLimit, k);
    SixParts(a, b, d, e, f, g, k);
    OnePart(ClassValues(a, k), ClassValues(b, k), ClassValues(d, k), ClassValues(e, k), ClassValues(f, k),
            ClassValues(g, k), []);
  }

  lemma HardeningIs(c: ContainerModel)
    ensures HardeningLines(c) ==
      [Fixed(NoNewPrivileges), Fixed(DropCapability)] + Optional(Set(User), c.user)
      + Each(Set(AddCapability), c.addCapabilities) + Each(Set(SecurityOpt), c.securityOpts)
      + Optional(Set(Memory), c.memoryLimit) + Optional(Set(Cpus), c.cpuLimit)
  {
    hide Optional, Each;
    var f, g := Optional(Set(Memory), c.memoryLimit), Optional(Set(Cpus), c.cpuLimit);
    var before := [Fixed(NoNewPrivileges), Fixed(DropCapability)] + Optional(Set(User), c.user)
      + Each(Set(AddCapability), c.addCapabilities) + Each(Set(SecurityOpt), c.securityOpts);
    assert before + (f + g) == before + f + g;
  }

  lemma FixedHardening(k: Key)
    ensures ClassValues([Fixed(NoNewPrivileges), Fixed(DropCapability)], k) ==
      if k == Fix(NoNewPrivileges) then ["true"] else if k == Fix(DropCapability) then ["ALL"] else []
  {
    ClassOne(Fixed(NoNewPrivileges), k);
    ClassOne(Fixed(DropCapability), k);
    hide ClassValues;
    ClassTwo(Fixed(NoNewPrivileges), Fixed(DropCapability), k);
  }

  lemma JobServicePart(c: ContainerModel, k: Key)
    requires IsDirective(k) && c.isJob
    ensures ClassValues(ServiceLines(c), k) ==
      if k == Fix(TypeOneshot) then ["oneshot"] else if k == Fix(RestartNo) then ["no"] else []
  {
    var header := [Fixed(Blank), Fixed(ServiceSection)];
    assert ServiceLines(c) == header + [Fixed(TypeOneshot), Fixed(RestartNo)];
    SilentService(k);
    hide ClassValues, ServiceLines, IsDirective;
    TwoAfter(header, Fixed(TypeOneshot), Fixed(RestartNo), k);
  }

  lemma SilentService(k: Key)
    requires IsDirective(k)
    ensures forall l | l in [Fixed(Blank), Fixed(ServiceSection)] :: Class(l.key) != k
    ensures forall l | l in [Fixed(Blank), Fixed(InstallSection)] :: Class(l.key) != k
  {
  }

  lemma OwnServicePart(c: ContainerModel, k: Key)
    requires IsDirective(k) && !c.isJob
    ensures ClassValues(ServiceLines(c), k) ==
      if k == Fix(RestartNo) then ["always"]
      else if k == Fix(TimeoutShort) then [if c.isImageBundled then "120" else "30"]
      else if k == Fix(WantedBy) then ["default.target"]
      else []
  {
    hide *;
    var header, install := [Fixed(Blank), Fixed(ServiceSection)], [Fixed(Blank), Fixed(InstallSection)];
    var a, b, d := Fixed(RestartAlways), Fixed(if c.isImageBundled then TimeoutLong else TimeoutShort), Fixed(WantedBy);
    OwnServiceIs(c);
    OwnFixed(c, k);
    SixParts(header, [a], [b], install, [d], [], k);
    ClassNone(k);
    OnePart(ClassValues(header, k), ClassValues([a], k), ClassValues([b], k), ClassValues(install, k),
            ClassValues([d], k), [], []);
    assert header + [a] + [b] + install + [d] + [] == header + [a] + [b] + install + [d];
  }

  lemma OwnServiceIs(c: ContainerModel)
    requires !c.isJob
    ensures ServiceLines(c) ==
      [Fixed(Blank), Fixed(ServiceSection)] + [Fixed(RestartAlways)]
      + [Fixed(if c.isImageBundled then TimeoutLong else TimeoutShort)]
      + [Fixed(Blank), Fixed(InstallSection)] + [Fixed(WantedBy)]
  {
  }

  lemma ClassFixture(f: Fixture, k: Key)
    ensures ClassValues([Fixed(f)], k) == if Class(Fix(f)) == k then [FixtureValue(f)] else []
  {
    hide ClassValues, Class, FixtureValue;
    ClassOne(Fixed(f), k);
  }

  lemma OwnClasses(long: bool, k: Key)
    ensures Class(Fix(RestartAlways)) == k <==> k == Fix(RestartNo)
    ensures Class(Fix(if long then TimeoutLong else TimeoutShort)) == k <==> k == Fix(TimeoutShort)
    ensures Class(Fix(WantedBy)) == k <==> k == Fix(WantedBy)
  {
  }

  lemma OwnFixed(c: ContainerModel, k: Key)
    requires IsDirective(k)
    ensures ClassValues([Fixed(Blank), Fixed(ServiceSection)], k) == []
    ensures ClassValues([Fixed(Blank), Fixed(InstallSection)], k) == []
    ensures ClassValues([Fixed(RestartAlways)], k) == if k == Fix(RestartNo) then ["always"] else []
    ensures ClassValues([Fixed(if c.isImageBundled then TimeoutLong else TimeoutShort)], k)
      == if k == Fix(TimeoutShort) then [if c.isImageBundled then "120" else "30"] else []
    ensures ClassValues([Fixed(WantedBy)], k) == if k == Fix(WantedBy) then ["default.target"] else []
  {
    hide ClassValues, IsDirective, Class, Fixed;
    SilentService(k);
    ClassSilent([Fixed(Blank), Fixed(ServiceSection)], k);
    ClassSilent([Fixed(Blank), Fixed(InstallSection)], k);
    OwnClasses(c.isImageBundled, k);
    ClassFixture(RestartAlways, k);
    ClassFixture(if c.isImageBundled then TimeoutLong else TimeoutShort, k);
    ClassFixture(WantedBy, k);
  }

  lemma ServicePart(c: ContainerModel, k: Key)
    requires IsDirective(k)
    ensures ClassValues(ServiceLines(c), k) ==
      if k == Fix(TypeOneshot) then if c.isJob then ["oneshot"] else []
      else if k == Fix(RestartNo) then [if c.isJob then "no" else "always"]
      else if k == Fix(TimeoutShort) then
        if c.isJob then [] else [if c.isImageBundled then "120" else "30"]
      else if k == Fix(WantedBy) then if c.isJob then [] else ["default.target"]
      else []
  {
    hide ClassValues, ServiceLines, IsDirective;
    if c.isJob {
      JobServicePart(c, k);
    } else {
      OwnServicePart(c, k);
    }
  }

  /** What a unit says, directive by directive. */
  function UnitSays(c: ContainerModel, quote: string -> string, k: Key): seq<string> {
    match k
    case Set(s) =>
      (match s
       case Description => [c.name]
       case Image => [ImageOf(c)]
       case ContainerNameKey => [c.name]
       case Network => NetworkFiles(c.networks)
       case Volume => MountTexts(c.volumeMounts)
       case Exec => ExecOf(c, quote)
       case PublishPort => PublishOf(c)
       case Environment => EnvTexts(c.env)
       case User => IfAny(c.user)
       case AddCapability => c.addCapabilities
       case SecurityOpt => c.securityOpts
       case Memory => IfAny(c.memoryLimit)
       case Cpus => IfAny(c.cpuLimit))
    case Note(n) =>
      (match n
       case HealthProbeHTTP => ProbeOf(c)
       case Requires => RequiresOf(c)
       case JobService => IfAny(c.jobService)
       case Service => if HasServiceLine(c) then [c.serviceName] else []
       case BuildImage => if HasServiceLine(c) then IfAny(c.image) else []
       case BuildSource => if c.isImageBundled then [] else IfAny(c.buildSource)
       case BuildRef => if c.isImageBundled then [] else IfAny(c.buildRef)
       case BuildDockerfile => if c.isImageBundled then [] else IfAny(c.buildDockerfile)
       case BuildContext => if c.isImageBundled then [] else IfAny(c.buildContext))
    case Fix(f) =>
      match f
      case After => ["network-online.target"]
      case NoNewPrivileges => ["true"]
      case DropCapability => ["ALL"]
      case TypeOneshot => if c.isJob then ["oneshot"] else []
      case RestartNo => [if c.isJob then "no" else "always"]
      case TimeoutShort => if c.isJob then [] else [if c.isImageBundled then "120" else "30"]
      case WantedBy => if c.isJob then [] else ["default.target"]
      case _ => []
  }

  lemma UnitValuesAre(c: ContainerModel, quote: string -> string, k: Key)
    requires IsDirective(k)
    ensures ClassValues(ContainerLines(c, quote), k) ==
      ClassValues(LinesBefore(c, quote), k) + ClassValues(PublishLines(c), k)
      + ClassValues(Each(Set(Environment), EnvTexts(c.env)), k) + ClassValues(ProvenanceLines(c), k)
      + ClassValues(BuildLines(c), k) + ClassValues(HardeningLines(c), k) + ClassValues(ServiceLines(c), k)
  {
    hide *;
    var a, b, d := LinesBefore(c, quote), PublishLines(c), Each(Set(Environment), EnvTexts(c.env));
    var e, f, g, h := ProvenanceLines(c), BuildLines(c), HardeningLines(c), ServiceLines(c);
    LinesAre(c, quote);
    ClassAppend(a, b, k);
    ClassAppend(a + b, d, k);
    ClassAppend(a + b + d, e, k);
    ClassAppend(a + b + d + e, f, k);
    ClassAppend(a + b + d + e + f, g, k);
    ClassAppend(a + b + d + e + f + g, h, k);
  }

  /** Every directive of a rendered unit, read off its text. */
  lemma UnitDirectives(c: ContainerModel, quote: string -> string, k: Key)
    requires IsDirective(k) && LinesFree(ContainerLines(c, quote))
    ensures Directive(ContainerText(c, quote), Prefix(k)) == UnitSays(c, quote, k)
  {
    hide *;
    DirectiveIs(c, quote, k);
    UnitValuesAre(c, quote, k);
    HeadPart(c, quote, k);
    PublishPart(c, k);
    ClassEach(Set(Environment), EnvTexts(c.env), k);
    ProvenancePart(c, k);
    BuildPart(c, k);
    HardeningPart(c, k);
    ServicePart(c, k);
    OnePart(
      ClassValues(LinesBefore(c, quote), k), ClassValues(PublishLines(c), k),
      ClassValues(Each(Set(Environment), EnvTexts(c.env)), k), ClassValues(ProvenanceLines(c), k),
      ClassValues(BuildLines(c), k), ClassValues(HardeningLines(c), k), ClassValues(ServiceLines(c), k));
    UnitSaysThis(c, quote, k);
  }

  lemma UnitSaysThis(c: ContainerModel, quote: string -> string, k: Key)
    requires IsDirective(k)
    ensures UnitSays(c, quote, k) ==
      if k == Set(Description) || k == Set(ContainerNameKey) then [c.name]
      else if k == Fix(After) then ["network-online.target"]
      else if k == Set(Image) then [ImageOf(c)]
      else if k == Set(Network) then NetworkFiles(c.networks)
      else if k == Set(Volume) then MountTexts(c.volumeMounts)
      else if k == Set(Exec) then ExecOf(c, quote)
      else if k == Set(PublishPort) then PublishOf(c)
      else if k == Set(Environment) then EnvTexts(c.env)
      else if k == Note(HealthProbeHTTP) then ProbeOf(c)
      else if k == Note(Requires) then RequiresOf(c)
      else if k == Note(JobService) then IfAny(c.jobService)
      else if k == Note(Service) then if HasServiceLine(c) then [c.serviceName] else []
      else if k == Note(BuildImage) then if HasServiceLine(c) then IfAny(c.image) else []
      else if k == Note(BuildSource) then if c.isImageBundled then [] else IfAny(c.buildSource)
      else if k == Note(BuildRef) then if c.isImageBundled then [] else IfAny(c.buildRef)
      else if k == Note(BuildDockerfile) then if c.isImageBundled then [] else IfAny(c.buildDockerfile)
      else if k == Note(BuildContext) then if c.isImageBundled then [] else IfAny(c.buildContext)
      else if k == Fix(NoNewPrivileges) then ["true"]
      else if k == Fix(DropCapability) then ["ALL"]
      else if k == Set(User) then IfAny(c.user)
      else if k == Set(AddCapability) then c.addCapabilities
      else if k == Set(SecurityOpt) then c.securityOpts
      else if k == Set(Memory) then IfAny(c.memoryLimit)
      else if k == Set(Cpus) then IfAny(c.cpuLimit)
      else if k == Fix(TypeOneshot) then if c.isJob then ["oneshot"] else []
      else if k == Fix(RestartNo) then [if c.isJob then "no" else "always"]
      else if k == Fix(TimeoutShort) then if c.isJob then [] else [if c.isImageBundled then "120" else "30"]
      else if k == Fix(WantedBy) then if c.isJob then [] else ["default.target"]
      else []
  {
    hide ImageOf, NetworkFiles, MountTexts, ExecOf, PublishOf, EnvTexts, IfAny, ProbeOf, RequiresOf, HasServiceLine;
  }

  // ------------------------------------------------------- in terms of what was declared

  function MemoryOf(svc: ServiceDecl): seq<string> {
    match svc.resources case None => [] case Some(r) => IfAny(r.memory)
  }

  function CpusOf(svc: ServiceDecl): seq<string> {
    match svc.resources case None => [] case Some(r) => IfAny(r.cpus)
  }

  lemma InstanceFields(services: map<string, ServiceDecl>, c: ContainerModel, name: string, i: nat)
    requires IsInstance(services, c, name, i)
    ensures var svc := services[name];
      && c.name == ContainerName(name, svc.replicas, i) && c.serviceName == name
      && c.image == "localhost/ownbase-" + name + ":local" && c.digest == "" && !c.isImageBundled && !c.isJob
      && (HasServiceLine(c) <==> svc.IsReplicated() && name != "")
      && (svc.IsReplicated() ==> c.replicaIndex == i && c.replicaCount == svc.ReplicaCount())
      && c.buildSource == name && c.buildRef == svc.ref && c.buildDockerfile == svc.dockerfile
      && c.buildContext == svc.context && c.jobService == "" && c.command == []
      && c.user == svc.user && c.addCapabilities == svc.addCapabilities && c.securityOpts == svc.securityOpt
      && IfAny(c.memoryLimit) == MemoryOf(svc) && IfAny(c.cpuLimit) == CpusOf(svc)
      && c.needs == Sort(svc.needs) && c.volumeMounts == Mounts(name, svc, i)
      && ProbeOf(c) == (if svc.healthProbe.Some? then IfAny(svc.healthProbe.value) else [])
  {
    hide TunnelPorts, ContainerName, Mounts, Sort, ReplicaEnv, NetworksWanted, ServiceDecl.EffectiveDomains;
  }

  /** The unit of a service instance runs the image, user, capabilities and limits that its declaration says,
      hardened, as a service that is started at boot and kept running. */
  lemma ServiceUnit(config: Config, c: ContainerModel, name: string, i: nat, quote: string -> string)
    requires IsInstance(config.services, c, name, i) && LinesFree(ContainerLines(c, quote))
    ensures var svc, text := config.services[name], ContainerText(c, quote);
      && Directive(text, "Image=") == ["localhost/ownbase-" + name + ":local"]
      && Directive(text, "ContainerName=") == [ContainerName(name, svc.replicas, i)]
      && Directive(text, "User=") == IfAny(svc.user)
      && Directive(text, "AddCapability=") == svc.addCapabilities
      && Directive(text, "PodmanArgs=--security-opt ") == svc.securityOpt
      && Directive(text, "PodmanArgs=--memory ") == MemoryOf(svc)
      && Directive(text, "PodmanArgs=--cpus ") == CpusOf(svc)
      && Directive(text, "NoNewPrivileges=") == ["true"] && Directive(text, "DropCapability=") == ["ALL"]
      && Directive(text, "Exec=") == [] && Directive(text, "Type=") == []
      && Directive(text, "Restart=") == ["always"] && Directive(text, "TimeoutStartSec=") == ["30"]
      && Directive(text, "WantedBy=") == ["default.target"] && Directive(text, "After=") == ["network-online.target"]
      && Directive(text, "Description=OwnBase container: ") == [ContainerName(name, svc.replicas, i)]
  {
    hide *;
    InstanceFields(config.services, c, name, i);
    Identity(c, quote);
    Hardening(c, quote);
    Lifetime(c, quote);
    ImageUnpinned(c);
    NoExec(c, quote);
  }

  lemma ImageUnpinned(c: ContainerModel)
    ensures c.digest == "" ==> ImageOf(c) == c.image
  {
  }

  lemma NoExec(c: ContainerModel, quote: string -> string)
    ensures c.command == [] ==> ExecOf(c, quote) == []
  {
  }

  lemma Identity(c: ContainerModel, quote: string -> string)
    requires LinesFree(ContainerLines(c, quote))
    ensures var text := ContainerText(c, quote);
      && Directive(text, "Image=") == [ImageOf(c)] && Directive(text, "ContainerName=") == [c.name]
      && Directive(text, "Description=OwnBase container: ") == [c.name]
      && Directive(text, "After=") == ["network-online.target"]
  {
    hide ContainerText, ContainerLines, Directive, LinesFree, ImageOf;
    UnitDirectives(c, quote, Set(Image));
    UnitDirectives(c, quote, Set(ContainerNameKey));
    UnitDirectives(c, quote, Set(Description));
    UnitDirectives(c, quote, Fix(After));
  }

  lemma Hardening(c: ContainerModel, quote: string -> string)
    requires LinesFree(ContainerLines(c, quote))
    ensures var text := ContainerText(c, quote);
      && Directive(text, "User=") == IfAny(c.user) && Directive(text, "AddCapability=") == c.addCapabilities
      && Directive(text, "PodmanArgs=--security-opt ") == c.securityOpts
      && Directive(text, "PodmanArgs=--memory ") == IfAny(c.memoryLimit)
      && Directive(text, "PodmanArgs=--cpus ") == IfAny(c.cpuLimit)
      && Directive(text, "NoNewPrivileges=") == ["true"] && Directive(text, "DropCapability=") == ["ALL"]
  {
    hide ContainerText, ContainerLines, Directive, LinesFree, IfAny;
    UnitDirectives(c, quote, Set(User));
    UnitDirectives(c, quote, Set(AddCapability));
    UnitDirectives(c, quote, Set(SecurityOpt));
    UnitDirectives(c, quote, Set(Memory));
    UnitDirectives(c, quote, Set(Cpus));
    UnitDirectives(c, quote, Fix(NoNewPrivileges));
    UnitDirectives(c, quote, Fix(DropCapability));
  }

  lemma Lifetime(c: ContainerModel, quote: string -> string)
    requires LinesFree(ContainerLines(c, quote))
    ensures var text := ContainerText(c, quote);
      && Directive(text, "Exec=") == ExecOf(c, quote)
      && Directive(text, "Type=") == (if c.isJob then ["oneshot"] else [])
      && Directive(text, "Restart=") == [if c.isJob then "no" else "always"]
      && Directive(text, "TimeoutStartSec=") == (if c.isJob then [] else [if c.isImageBundled then "120" else "30"])
      && Directive(text, "WantedBy=") == (if c.isJob then [] else ["default.target"])
  {
    hide ContainerText, ContainerLines, Directive, LinesFree, ExecOf;
    UnitDirectives(c, quote, Set(Exec));
    UnitDirectives(c, quote, Fix(TypeOneshot));
    UnitDirectives(c, quote, Fix(RestartNo));
    UnitDirectives(c, quote, Fix(TimeoutShort));
    UnitDirectives(c, quote, Fix(WantedBy));
  }

  lemma Provenance(c: ContainerModel, quote: string -> string)
    requires LinesFree(ContainerLines(c, quote))
    ensures var text, bundled := ContainerText(c, quote), c.isImageBundled;
      && Directive(text, "# HealthProbeHTTP=") == ProbeOf(c) && Directive(text, "# Requires=") == RequiresOf(c)
      && Directive(text, "# JobService=") == IfAny(c.jobService)
      && Directive(text, "# BuildImage=") == (if HasServiceLine(c) then IfAny(c.image) else [])
      && Directive(text, "# BuildSource=") == (if bundled then [] else IfAny(c.buildSource))
      && Directive(text, "# BuildRef=") == (if bundled then [] else IfAny(c.buildRef))
      && Directive(text, "# BuildDockerfile=") == (if bundled then [] else IfAny(c.buildDockerfile))
      && Directive(text, "# BuildContext=") == (if bundled then [] else IfAny(c.buildContext))
  {
    hide ContainerText, ContainerLines, Directive, LinesFree, IfAny, ProbeOf, RequiresOf, HasServiceLine;
    CommentPrefixes();
    hide Prefix;
    UnitDirectives(c, quote, Note(HealthProbeHTTP));
    UnitDirectives(c, quote, Note(Requires));
    UnitDirectives(c, quote, Note(JobService));
    UnitDirectives(c, quote, Note(BuildImage));
    UnitDirectives(c, quote, Note(BuildSource));
    UnitDirectives(c, quote, Note(BuildRef));
    UnitDirectives(c, quote, Note(BuildDockerfile));
    UnitDirectives(c, quote, Note(BuildContext));
  }

  lemma CommentPrefixes()
    ensures Prefix(Note(HealthProbeHTTP)) == "# HealthProbeHTTP=" && Prefix(Note(Requires)) == "# Requires="
    ensures Prefix(Note(JobService)) == "# JobService=" && Prefix(Note(BuildImage)) == "# BuildImage="
    ensures Prefix(Note(BuildSource)) == "# BuildSource=" && Prefix(Note(BuildRef)) == "# BuildRef="
    ensures Prefix(Note(BuildDockerfile)) == "# BuildDockerfile=" && Prefix(Note(BuildContext)) == "# BuildContext="
  {
    BuildPrefixes();
    hide SettingText, FixtureText;
    assert CommentText(HealthProbeHTTP) == "# HealthProbeHTTP=" && CommentText(Requires) == "# Requires=";
    assert CommentText(JobService) == "# JobService=";
  }

  lemma BuildPrefixes()
    ensures CommentText(BuildImage) == "# BuildImage=" && CommentText(BuildSource) == "# BuildSource="
    ensures CommentText(BuildRef) == "# BuildRef=" && CommentText(BuildDockerfile) == "# BuildDockerfile="
    ensures CommentText(BuildContext) == "# BuildContext="
  {
  }

  /** Its comments say where it is built from, what it requires and how it is probed. */
  lemma ServiceProvenance(config: Config, c: ContainerModel, name: string, i: nat, quote: string -> string)
    requires IsInstance(config.services, c, name, i) && LinesFree(ContainerLines(c, quote))
    ensures var svc, text := config.services[name], ContainerText(c, quote);
      && Directive(text, "# BuildSource=") == IfAny(name) && Directive(text, "# BuildRef=") == IfAny(svc.ref)
      && Directive(text, "# BuildDockerfile=") == IfAny(svc.dockerfile)
      && Directive(text, "# BuildContext=") == IfAny(svc.context)
      && Directive(text, "# BuildImage=")
           == (if svc.IsReplicated() && name != "" then ["localhost/ownbase-" + name + ":local"] else [])
      && Directive(text, "# HealthProbeHTTP=")
           == (if svc.healthProbe.Some? then IfAny(svc.healthProbe.value) else [])
      && Directive(text, "# Requires=") == (if svc.needs == [] then [] else [Join(Sort(svc.needs), ',')])
      && Directive(text, "# JobService=") == []
  {
    InstanceFields(config.services, c, name, i);
    SortSorts(config.services[name].needs);
    assert Sort([]) == [];
    assert c.needs == [] <==> config.services[name].needs == [] by {
      assert |multiset(c.needs)| == |multiset(config.services[name].needs)|;
    }
    hide ContainerText, ContainerLines, Directive, LinesFree, IsInstance, Join, Sort;
    Provenance(c, quote);
  }

  /** The number that ends the name of a replica's own volume. */
  function OwnSuffix(svc: ServiceDecl, shared: bool, i: nat): string {
    if svc.replicas.Some? && !shared then "-" + Dec(i) else ""
  }

  /** In order: the volumes of the declarations at their paths, each replica its own unless the declaration says
      otherwise, or the data volume; and the socket directory if the service has access to the API. */
  ghost predicate MountsSay(volumes: seq<string>, name: string, svc: ServiceDecl, i: nat) {
    var n := |svc.volumes|;
    && |volumes| == (if n > 0 then n else 1) + (if svc.ownbaseAccess == [] then 0 else 1)
    && (forall k | 0 <= k < n ::
          volumes[k]
          == "ownbase-" + name + "-" + svc.volumes[k].name
               + OwnSuffix(svc, svc.volumes[k].perReplica == Some(false), i) + ":" + svc.volumes[k].mount)
    && (n == 0 ==>
          volumes[0] == "ownbase-" + name + "-" + "data" + OwnSuffix(svc, false, i) + ":"
                          + if svc.dataPath == "" then "/data" else svc.dataPath)
    && (svc.ownbaseAccess != [] ==>
          volumes[|volumes| - 1] == "/run/ownbase/svc/" + name + ":" + "/run/ownbase")
  }

  /** That is what the unit of an instance mounts. */
  lemma ServiceMounts(config: Config, c: ContainerModel, name: string, i: nat, quote: string -> string)
    requires IsInstance(config.services, c, name, i) && LinesFree(ContainerLines(c, quote))
    ensures MountsSay(Directive(ContainerText(c, quote), "Volume="), name, config.services[name], i)
  {
    hide *;
    InstanceHasReplicas(config.services, c, name, i);
    InstanceFields(config.services, c, name, i);
    VolumeLines(c, quote);
    MountLines(name, config.services[name], i);
  }

  lemma VolumeLines(c: ContainerModel, quote: string -> string)
    requires LinesFree(ContainerLines(c, quote))
    ensures Directive(ContainerText(c, quote), "Volume=") == MountTexts(c.volumeMounts)
    ensures Directive(ContainerText(c, quote), "Network=") == NetworkFiles(c.networks)
  {
    hide ContainerText, ContainerLines, Directive, LinesFree, MountTexts, NetworkFiles;
    UnitDirectives(c, quote, Set(Volume));
    UnitDirectives(c, quote, Set(Network));
  }

  lemma MountLines(name: string, svc: ServiceDecl, i: nat)
    ensures MountsSay(MountTexts(Mounts(name, svc, i)), name, svc, i)
  {
    var mounts := Mounts(name, svc, i);
    assert forall k | 0 <= k < |mounts| :: MountTexts(mounts)[k] == MountText(mounts[k]);
    forall k | 0 <= k < |svc.volumes| {
      NameOfVolume(name, svc, svc.volumes[k], i);
    }
    NameOfData(name, svc, i);
    hide VolumeName, DataVolumeName, OwnSuffix, ServiceDecl.VolumeIsPerReplica;
  }

  lemma NameOfVolume(name: string, svc: ServiceDecl, v: VolumeDecl, i: nat)
    ensures VolumeName(name, v.name, svc.replicas, i, svc.VolumeIsPerReplica(v))
      == "ownbase-" + name + "-" + v.name + OwnSuffix(svc, v.perReplica == Some(false), i)
  {
    var base := "ownbase-" + name + "-" + v.name;
    assert base + "" == base && base + "-" + Dec(i) == base + ("-" + Dec(i));
  }

  lemma NameOfData(name: string, svc: ServiceDecl, i: nat)
    ensures DataVolumeName(name, svc.replicas, i, svc.DataPathIsPerReplica())
      == "ownbase-" + name + "-" + "data" + OwnSuffix(svc, false, i)
  {
    var base := "ownbase-" + name + "-" + "data";
    assert base + "" == base && base + "-" + Dec(i) == base + ("-" + Dec(i));
  }

  /** And it joins its own network, those of the services it requires and the internal one. */
  lemma ServiceNetworks(config: Config, c: ContainerModel, name: string, i: nat, quote: string -> string, line: string)
    requires IsInstance(config.services, c, name, i) && LinesFree(ContainerLines(c, quote))
    ensures line in Directive(ContainerText(c, quote), "Network=") <==>
      || line == "ownbase-" + ToLower(name) + "-net" + ".network"
      || line == "ownbase-internal" + ".network"
      || exists r :: r in config.services[name].needs && line == "ownbase-" + ToLower(r) + "-net" + ".network"
  {
    hide *;
    InstanceHasReplicas(config.services, c, name, i);
    VolumeLines(c, quote);
    InstanceNetworks(config.services, c, name, i);
    NetworksRead(name, config.services[name], i, line);
  }

  lemma NetworksRead(name: string, svc: ServiceDecl, i: nat, line: string)
    ensures line in NetworkFiles(Container(name, svc, i).networks) <==>
      || line == "ownbase-" + ToLower(name) + "-net" + ".network"
      || line == "ownbase-internal" + ".network"
      || exists r :: r in svc.needs && line == "ownbase-" + ToLower(r) + "-net" + ".network"
  {
    hide Container, NetworkFiles, ToLower;
    InternalNetwork();
    forall net ensures net in Container(name, svc, i).networks <==>
      net == CapabilityNetworkName(name) || net == INTERNAL_NETWORK
      || exists r :: r in svc.needs && net == CapabilityNetworkName(r)
    {
      ContainerNetworks(name, svc, i, net);
    }
    NetworkLines(Container(name, svc, i).networks, line);
  }

  lemma InternalNetwork()
    ensures INTERNAL_NETWORK == "ownbase-internal"
  {
  }

  lemma NetworkLines(networks: seq<string>, line: string)
    ensures line in NetworkFiles(networks) <==> exists net :: net in networks && line == net + ".network"
  {
    if net :| net in networks && line == net + ".network" {
      var k :| 0 <= k < |networks| && networks[k] == net;
      assert NetworkFiles(networks)[k] == line;
    }
  }

  lemma InstanceNetworks(services: map<string, ServiceDecl>, c: ContainerModel, name: string, i: nat)
    requires IsInstance(services, c, name, i)
    ensures c.networks == Container(name, services[name], i).networks
  {
    hide TunnelPorts, Container;
  }

  // -------------------------------------------------------------------- the environment of a unit

  lemma UnitEnvironment(c: ContainerModel, quote: string -> string)
    requires LinesFree(ContainerLines(c, quote)) && forall kv | kv in c.env :: ReadsBack(kv)
    ensures WordsOf(Directive(ContainerText(c, quote), "Environment=")) == Some(c.env)
  {
    hide ContainerText, ContainerLines, Directive, LinesFree, ReadsBack, WordsOf, EnvTexts;
    UnitDirectives(c, quote, Set(Environment));
    EnvTextsReadBack(c.env);
  }

  lemma {:induction false} DigitsPlain(n: nat)
    ensures forall c | c in Dec(n) :: !IsSpecial(c, None) && c != ' '
  {
    assert AllDigits(Dec(n));
  }

  lemma ReplicaReadsBack(svc: ServiceDecl, i: nat)
    requires svc.ReplicaCount() >= 0
    ensures forall kv | kv in ReplicaEnv(svc, i) :: ReadsBack(kv)
  {
    if svc.IsReplicated() {
      var n := svc.ReplicaCount();
      DigitsPlain(i);
      DigitsPlain(n);
      ReplicaEntries(svc, i);
      hide Dec, ReadsBack, ReplicaEnv, REPLICA_INDEX, REPLICA_COUNT, IsSpecial;
      PlainPair(REPLICA_INDEX, Dec(i));
      PlainPair(REPLICA_COUNT, Dec(n));
    }
  }

  lemma ReplicaEntries(svc: ServiceDecl, i: nat)
    requires svc.IsReplicated() && svc.ReplicaCount() >= 0
    ensures ReplicaEnv(svc, i) == [REPLICA_INDEX + "=" + Dec(i), REPLICA_COUNT + "=" + Dec(svc.ReplicaCount())]
    ensures '=' !in REPLICA_INDEX && '=' !in REPLICA_COUNT
  {
    assert "OWNBASE_REPLICA_INDEX=" == REPLICA_INDEX + "=" && "OWNBASE_REPLICA_COUNT=" == REPLICA_COUNT + "=";
    hide Dec;
  }

  lemma PlainPair(name: string, value: string)
    requires '=' !in name && name in {REPLICA_INDEX, REPLICA_COUNT}
    requires forall c | c in value :: !IsSpecial(c, None) && c != ' '
    ensures ReadsBack(name + "=" + value)
  {
    EqualsAfter(name, value);
    var kv := name + "=" + value;
    assert kv[|name| + 1..] == value;
    assert forall c | c in name :: !IsSpecial(c, None);
  }

  /** What a process in a service's container finds, going by the unit: its replica's index and the number of
      replicas, and every other variable as the service declares it last. */
  lemma ServiceVariables(config: Config, c: ContainerModel, name: string, i: nat, quote: string -> string,
                         variable: string)
    requires IsInstance(config.services, c, name, i) && LinesFree(ContainerLines(c, quote))
    requires forall kv | kv in config.services[name].env :: ReadsBack(kv)
    ensures var svc, env := config.services[name], WordsOf(Directive(ContainerText(c, quote), "Environment="));
      env.Some? && Lookup(env.value, variable) ==
        if svc.replicas.Some? && variable == "OWNBASE_REPLICA_INDEX" then Some(Dec(i))
        else if svc.replicas.Some? && variable == "OWNBASE_REPLICA_COUNT" then Some(DecInt(svc.replicas.value))
        else Lookup(svc.env, variable)
  {
    hide *;
    InstanceHasReplicas(config.services, c, name, i);
    InstanceEnv(config.services, c, name, i);
    ReplicaReadsBack(config.services[name], i);
    UnitEnvironment(c, quote);
    ReplicaEnvironment(config.services, c, name, i, variable);
    VariableNames();
  }

  lemma VariableNames()
    ensures REPLICA_INDEX == "OWNBASE_REPLICA_INDEX" && REPLICA_COUNT == "OWNBASE_REPLICA_COUNT"
  {
  }

  lemma InstanceHasReplicas(services: map<string, ServiceDecl>, c: ContainerModel, name: string, i: nat)
    requires IsInstance(services, c, name, i)
    ensures name in services && services[name].ReplicaCount() >= 0
  {
    hide Instance, TunnelPorts;
  }

  // ------------------------------------------------------------------------------------ jobs

  lemma JobFields(config: Config, c: ContainerModel, job: string)
    requires IsJob(config, c, job)
    ensures job in config.jobs && config.jobs[job].service in config.services
    ensures var decl := config.jobs[job];
      var svc := config.services[decl.service];
      && c.name == "ownbase-job-" + job && c.image == "localhost/ownbase-" + decl.service + ":local" && c.digest == ""
      && c.isJob && c.jobService == decl.service && c.command == decl.command && !HasServiceLine(c)
      && IfAny(c.buildSource) == IfAny(c.buildRef) == IfAny(c.buildDockerfile) == IfAny(c.buildContext) == []
      && c.user == svc.user && c.addCapabilities == svc.addCapabilities && c.securityOpts == svc.securityOpt
      && IfAny(c.memoryLimit) == MemoryOf(svc) && IfAny(c.cpuLimit) == CpusOf(svc)
      && c.volumeMounts == [] && ProbeOf(c) == [] && c.env == svc.env + decl.env
      && c.networks == Container(decl.service, svc, 0).networks && c.needs == Sort(svc.needs) && c.tunnelPort == 0
  {
    hide ContainerName, Mounts, Sort, ReplicaEnv, NetworksWanted, ServiceDecl.EffectiveDomains;
  }

  /** The unit of a job runs its command in the image of its service and with its limits and rights, once, when
      it is asked to; it is not started at boot, mounts nothing and is not built. */
  lemma JobUnit(config: Config, c: ContainerModel, job: string, quote: string -> string)
    requires IsJob(config, c, job) && LinesFree(ContainerLines(c, quote))
    ensures job in config.jobs && config.jobs[job].service in config.services
    ensures var decl, text := config.jobs[job], ContainerText(c, quote);
      var svc := config.services[decl.service];
      && Directive(text, "Image=") == ["localhost/ownbase-" + decl.service + ":local"]
      && Directive(text, "ContainerName=") == ["ownbase-job-" + job]
      && Directive(text, "User=") == IfAny(svc.user)
      && Directive(text, "AddCapability=") == svc.addCapabilities
      && Directive(text, "PodmanArgs=--security-opt ") == svc.securityOpt
      && Directive(text, "PodmanArgs=--memory ") == MemoryOf(svc)
      && Directive(text, "PodmanArgs=--cpus ") == CpusOf(svc)
      && Directive(text, "NoNewPrivileges=") == ["true"] && Directive(text, "DropCapability=") == ["ALL"]
      && RunsCommand(Directive(text, "Exec="), decl.command, quote)
      && Directive(text, "Type=") == ["oneshot"] && Directive(text, "Restart=") == ["no"]
      && Directive(text, "TimeoutStartSec=") == [] && Directive(text, "WantedBy=") == []
      && Directive(text, "After=") == ["network-online.target"]
      && Directive(text, "Description=OwnBase container: ") == ["ownbase-job-" + job]
      && Directive(text, "# JobService=") == IfAny(decl.service)
      && Directive(text, "# BuildSource=") == Directive(text, "# BuildRef=") == []
      && Directive(text, "# BuildImage=") == Directive(text, "# HealthProbeHTTP=") == []
      && Directive(text, "# Requires=") == (if svc.needs == [] then [] else [Join(Sort(svc.needs), ',')])
      && Directive(text, "Volume=") == [] && Directive(text, "PublishPort=") == []
  {
    hide *;
    JobFields(config, c, job);
    SortedEmpty(config.services[config.jobs[job].service].needs);
    RequiresThese(c);
    Identity(c, quote);
    Hardening(c, quote);
    Lifetime(c, quote);
    Provenance(c, quote);
    ImageUnpinned(c);
    JobExec(c, quote);
    NoMounts(c, quote);
  }

  /** The arguments in order, those with blanks in them quoted; nothing for an empty command. */
  ghost predicate RunsCommand(exec: seq<string>, command: seq<string>, quote: string -> string) {
    if command == [] then exec == []
    else exists args: seq<string> :: (
      && |args| == |command| && exec == [Join(args, ' ')]
      && forall k | 0 <= k < |args| ::
           args[k] == if ' ' in command[k] || '\t' in command[k] then quote(command[k]) else command[k])
  }

  lemma JobExec(c: ContainerModel, quote: string -> string)
    ensures RunsCommand(ExecOf(c, quote), c.command, quote)
  {
    var args := QuotedArgs(c.command, quote);
    assert c.command != [] ==> ExecOf(c, quote) == [Join(args, ' ')];
    hide Join;
  }

  lemma NoMounts(c: ContainerModel, quote: string -> string)
    requires LinesFree(ContainerLines(c, quote)) && c.volumeMounts == [] && c.tunnelPort == 0
    ensures Directive(ContainerText(c, quote), "Volume=") == []
    ensures Directive(ContainerText(c, quote), "PublishPort=") == []
  {
    hide ContainerText, ContainerLines, Directive, LinesFree;
    UnitDirectives(c, quote, Set(Volume));
    UnitDirectives(c, quote, Set(PublishPort));
  }

  lemma SortedEmpty(names: seq<string>)
    ensures Sort(names) == [] <==> names == []
  {
    SortSorts(names);
    hide Sort;
    assert |multiset(Sort(names))| == |multiset(names)|;
  }

  lemma RequiresThese(c: ContainerModel)
    ensures RequiresOf(c) == if c.needs == [] then [] else [Join(c.needs, ',')]
  {
  }

  /** A job joins the networks of its service. */
  lemma JobNetworks(config: Config, c: ContainerModel, job: string, quote: string -> string, line: string)
    requires IsJob(config, c, job) && LinesFree(ContainerLines(c, quote))
    ensures job in config.jobs && config.jobs[job].service in config.services
    ensures var service := config.jobs[job].service;
      line in Directive(ContainerText(c, quote), "Network=") <==>
        || line == "ownbase-" + ToLower(service) + "-net" + ".network"
        || line == "ownbase-internal" + ".network"
        || exists r :: r in config.services[service].needs && line == "ownbase-" + ToLower(r) + "-net" + ".network"
  {
    hide *;
    JobFields(config, c, job);
    VolumeLines(c, quote);
    var service := config.jobs[job].service;
    NetworksRead(service, config.services[service], 0, line);
  }

  /** And a job finds its own variables first and its service's otherwise. */
  lemma JobVariables(config: Config, c: ContainerModel, job: string, quote: string -> string, variable: string)
    requires IsJob(config, c, job) && LinesFree(ContainerLines(c, quote))
    requires forall kv | kv in c.env :: ReadsBack(kv)
    ensures var own, service := config.jobs[job].env, config.services[config.jobs[job].service].env;
      var env := WordsOf(Directive(ContainerText(c, quote), "Environment="));
      env.Some? && Lookup(env.value, variable) ==
        if Lookup(own, variable).Some? then Lookup(own, variable) else Lookup(service, variable)
  {
    hide *;
    JobFields(config, c, job);
    UnitEnvironment(c, quote);
    JobEnvironment(config, c, job, variable);
  }
}
