/** The text of a container unit (renderContainer, internal/compiler/render.go). A unit is a list of
    lines, each one of the renderer's fixed keys followed by a value from the model; readers of the
    text find their line by its key. */
module Render {
  import opened Text
  import opened Containers

  /** Lines that are the same in every unit that has them. */
  datatype Fixture =
    | Blank | Generated | ChangesHere
    | UnitSection | After | ContainerSection | NoNewPrivileges | DropCapability
    | ServiceSection | TypeOneshot | RestartNo | RestartAlways | TimeoutLong | TimeoutShort
    | InstallSection | WantedBy

  datatype Setting =
    | Description | Image | ContainerNameKey | Network | Volume | Exec | PublishPort | Environment
    | User | AddCapability | SecurityOpt | Memory | Cpus

  /** Provenance comments, which other parts of the program read back. */
  datatype Comment =
    | HealthProbeHTTP | Requires | JobService | Service | BuildImage
    | BuildSource | BuildRef | BuildDockerfile | BuildContext

  datatype Key = Fix(fixture: Fixture) | Set(setting: Setting) | Note(comment: Comment)

  function FixtureText(f: Fixture): string {
    match f
    case Blank => ""
    case Generated => "# Generated by OwnBase \U{2014} " + "do not hand-edit."
    case ChangesHere => "# Changes here will be " + "overwritten and flagged " + "as a tamper signal."
    case UnitSection => "[Unit]"
    case After => "After=network-online.target"
    case ContainerSection => "[Container]"
    case NoNewPrivileges => "NoNewPrivileges=true"
    case DropCapability => "DropCapability=ALL"
    case ServiceSection => "[Service]"
    case TypeOneshot => "Type=oneshot"
    case RestartNo => "Restart=no"
    case RestartAlways => "Restart=always"
    case TimeoutLong => "TimeoutStartSec=120"
    case TimeoutShort => "TimeoutStartSec=30"
    case InstallSection => "[Install]"
    case WantedBy => "WantedBy=default.target"
  }

  function SettingText(s: Setting): string {
    match s
    case Description => "Description=OwnBase container: "
    case Image => "Image="
    case ContainerNameKey => "ContainerName="
    case Network => "Network="
    case Volume => "Volume="
    case Exec => "Exec="
    case PublishPort => "PublishPort="
    case Environment => "Environment="
    case User => "User="
    case AddCapability => "AddCapability="
    case SecurityOpt => "PodmanArgs=--security-opt "
    case Memory => "PodmanArgs=--memory "
    case Cpus => "PodmanArgs=--cpus "
  }

  function CommentName(c: Comment): string {
    match c
    case HealthProbeHTTP => "HealthProbeHTTP"
    case Requires => "Requires"
    case JobService => "JobService"
    case Service => "Service"
    case BuildImage => "BuildImage"
    case BuildSource => "BuildSource"
    case BuildRef => "BuildRef"
    case BuildDockerfile => "BuildDockerfile"
    case BuildContext => "BuildContext"
  }

  function CommentText(c: Comment): string {
    "# " + CommentName(c) + "="
  }

  function KeyText(k: Key): string {
    match k
    case Fix(f) => FixtureText(f)
    case Set(s) => SettingText(s)
    case Note(c) => CommentText(c)
  }

  datatype Line = Line(key: Key, value: string) {
    /** A fixture has no value. */
    function Text(): string {
      if key.Fix? then FixtureText(key.fixture) else KeyText(key) + value
    }
  }

  /** A line that is all key. */
  function Fixed(f: Fixture): Line {
    Line(Fix(f), "")
  }

  /** A line that is left out when it would have no value. */
  function Optional(k: Key, value: string): seq<Line> {
    if value != "" then [Line(k, value)] else []
  }

  function Each(k: Key, values: seq<string>): seq<Line> {
    if values == [] then [] else Each(k, values[..|values| - 1]) + [Line(k, values[|values| - 1])]
  }

  // ------------------------------------------------------------------------- the unit's lines

  function UnitLines(c: ContainerModel): seq<Line> {
    [Fixed(Generated), Fixed(ChangesHere), Fixed(Blank), Fixed(UnitSection),
     Line(Set(Description), c.name), Fixed(After)]
  }

  function ImageLines(c: ContainerModel): seq<Line> {
    [Fixed(Blank), Fixed(ContainerSection),
     Line(Set(Image), if c.digest != "" then c.image + "@" + c.digest else c.image),
     Line(Set(ContainerNameKey), c.name)]
  }

  function NetworkFiles(networks: seq<string>): seq<string> {
    seq(|networks|, i requires 0 <= i < |networks| => networks[i] + ".network")
  }

  function MountText(vm: VolumeMount): string {
    (if vm.hostPath != "" then vm.hostPath else vm.volumeName) + ":" + vm.mountPath
  }

  function MountTexts(mounts: seq<VolumeMount>): seq<string> {
    seq(|mounts|, i requires 0 <= i < |mounts| => MountText(mounts[i]))
  }

  /** quoteExecArgs; `quote` is the %q verb. */
  function QuotedArgs(command: seq<string>, quote: string -> string): seq<string> {
    seq(|command|, i requires 0 <= i < |command| =>
      if ' ' in command[i] || '\t' in command[i] then quote(command[i]) else command[i])
  }

  function ExecLines(c: ContainerModel, quote: string -> string): seq<Line> {
    if |c.command| > 0 then [Line(Set(Exec), Join(QuotedArgs(c.command, quote), ' '))] else []
  }

  function PublishLines(c: ContainerModel): seq<Line> {
    if c.tunnelPort > 0
    then [Line(Set(PublishPort), "127.0.0.1:" + DecInt(c.tunnelPort) + ":" + DecInt(c.publicPort))]
    else []
  }

  /** The position of the first `=`, or -1. */
  function Equals(kv: string): (i: int)
    ensures -1 <= i < |kv|
  {
    if kv == "" then -1
    else if kv[0] == '=' then 0
    else
      var i := Equals(kv[1..]);
      if i < 0 then -1 else i + 1
  }

  function EnvText(kv: string): string {
    var i := Equals(kv);
    if i >= 0 && ' ' in kv[i + 1..] then "\"" + kv + "\"" else kv
  }

  function EnvTexts(env: seq<string>): seq<string> {
    seq(|env|, i requires 0 <= i < |env| => EnvText(env[i]))
  }

  function ProbeLine(c: ContainerModel): seq<Line> {
    if c.healthProbe.Some? then Optional(Note(HealthProbeHTTP), c.healthProbe.value) else []
  }

  function RequiresLine(c: ContainerModel): seq<Line> {
    if |c.needs| > 0 then [Line(Note(Requires), Join(c.needs, ','))] else []
  }

  /** Only on the units of replicas. */
  predicate HasServiceLine(c: ContainerModel) {
    c.replicaIndex >= 0 && c.serviceName != ""
  }

  function ReplicaLines(c: ContainerModel): seq<Line> {
    if HasServiceLine(c) then [Line(Note(Service), c.serviceName)] + Optional(Note(BuildImage), c.image) else []
  }

  function ProvenanceLines(c: ContainerModel): seq<Line> {
    ProbeLine(c) + RequiresLine(c) + Optional(Note(JobService), c.jobService) + ReplicaLines(c)
  }

  function BuildLines(c: ContainerModel): seq<Line> {
    if c.isImageBundled then []
    else
      Optional(Note(BuildSource), c.buildSource) + Optional(Note(BuildRef), c.buildRef)
      + Optional(Note(BuildDockerfile), c.buildDockerfile) + Optional(Note(BuildContext), c.buildContext)
  }

  function HardeningLines(c: ContainerModel): seq<Line> {
    [Fixed(NoNewPrivileges), Fixed(DropCapability)] + Optional(Set(User), c.user)
    + Each(Set(AddCapability), c.addCapabilities) + Each(Set(SecurityOpt), c.securityOpts)
    + (Optional(Set(Memory), c.memoryLimit) + Optional(Set(Cpus), c.cpuLimit))
  }

  function ServiceLines(c: ContainerModel): seq<Line> {
    [Fixed(Blank), Fixed(ServiceSection)]
    + if c.isJob then [Fixed(TypeOneshot), Fixed(RestartNo)]
      else [Fixed(RestartAlways), Fixed(if c.isImageBundled then TimeoutLong else TimeoutShort),
            Fixed(Blank), Fixed(InstallSection), Fixed(WantedBy)]
  }

  /** Everything before the loopback publish. */
  function LinesBefore(c: ContainerModel, quote: string -> string): seq<Line> {
    UnitLines(c) + ImageLines(c)
    + Each(Set(Network), NetworkFiles(c.networks)) + Each(Set(Volume), MountTexts(c.volumeMounts))
    + ExecLines(c, quote)
  }

  function ContainerLines(c: ContainerModel, quote: string -> string): seq<Line> {
    LinesBefore(c, quote) + PublishLines(c) + Each(Set(Environment), EnvTexts(c.env))
    + ProvenanceLines(c) + BuildLines(c) + HardeningLines(c) + ServiceLines(c)
  }

  function Texts(lines: seq<Line>): seq<string> {
    seq(|lines|, i requires 0 <= i < |lines| => lines[i].Text())
  }

  /** The text of a unit. */
  function ContainerText(c: ContainerModel, quote: string -> string): string {
    Unlines(Texts(ContainerLines(c, quote)))
  }

  /** The file the text is written to. */
  function UnitName(c: ContainerModel): string {
    c.name + ".container"
  }

  // -------------------------------------------------------------------------- the builder

  /** A strings.Builder, with the lines it holds. */
  class Builder {
    var text: string
    ghost var lines: seq<Line>

    ghost predicate Valid()
      reads this
    {
      text == Unlines(Texts(lines))
    }

    constructor ()
      ensures Valid() && lines == []
    {
      text, lines := "", [];
    }

    method Write(key: Key, value: string)
      requires Valid()
      modifies this
      ensures Valid() && lines == old(lines) + [Line(key, value)]
    {
      UnlinesAppend(Texts(lines), [Line(key, value).Text()]);
      assert Texts(lines + [Line(key, value)]) == Texts(lines) + [Line(key, value).Text()];
      assert Unlines([Line(key, value).Text()]) == Line(key, value).Text() + "\n" by {
        assert [Line(key, value).Text()][1..] == [];
        assert Line(key, value).Text() + "\n" + "" == Line(key, value).Text() + "\n";
      }
      text := text + (Line(key, value).Text() + "\n");
      lines := lines + [Line(key, value)];
    }

    method WriteOptional(key: Key, value: string)
      requires Valid()
      modifies this
      ensures Valid() && lines == old(lines) + Optional(key, value)
    {
      if value != "" {
        Write(key, value);
      }
    }

    method WriteEach(key: Key, values: seq<string>)
      requires Valid()
      modifies this
      ensures Valid() && lines == old(lines) + Each(key, values)
    {
      assert values[..0] == [] && values[..|values|] == values;
      for i := 0 to |values|
        invariant Valid() && lines == old(lines) + Each(key, values[..i])
      {
        assert values[..i + 1][..i] == values[..i];
        Write(key, values[i]);
      }
    }
  }

  lemma Together<T>(s: seq<T>, a: seq<T>, b: seq<T>, c: seq<T>, d: seq<T>, e: seq<T>)
    ensures s + a + b == s + (a + b)
    ensures s + a + b + c + d == s + (a + b + c + d)
    ensures s + a + b + c + d + e == s + (a + b + c + d + e)
  {
  }

  method WriteUnit(b: Builder, c: ContainerModel)
    requires b.Valid()
    modifies b
    ensures b.Valid() && b.lines == old(b.lines) + UnitLines(c)
  {
    hide KeyText, Line.Text, Builder.Valid;
    b.Write(Fix(Generated), "");
    b.Write(Fix(ChangesHere), "");
    b.Write(Fix(Blank), "");
    b.Write(Fix(UnitSection), "");
    b.Write(Set(Description), c.name);
    b.Write(Fix(After), "");
  }

  method WriteImage(b: Builder, c: ContainerModel)
    requires b.Valid()
    modifies b
    ensures b.Valid() && b.lines == old(b.lines) + ImageLines(c)
  {
    hide KeyText, Line.Text, Builder.Valid;
    b.Write(Fix(Blank), "");
    b.Write(Fix(ContainerSection), "");
    if c.digest != "" {
      b.Write(Set(Image), c.image + "@" + c.digest);
    } else {
      b.Write(Set(Image), c.image);
    }
    b.Write(Set(ContainerNameKey), c.name);
  }

  method WriteMounts(b: Builder, mounts: seq<VolumeMount>)
    requires b.Valid()
    modifies b
    ensures b.Valid() && b.lines == old(b.lines) + Each(Set(Volume), MountTexts(mounts))
  {
    hide KeyText, Line.Text, Builder.Valid;
    ghost var texts := MountTexts(mounts);
    assert texts[..0] == [] && texts[..|texts|] == texts;
    for i := 0 to |mounts|
      invariant b.Valid() && b.lines == old(b.lines) + Each(Set(Volume), texts[..i])
    {
      assert texts[..i + 1][..i] == texts[..i];
      var vm := mounts[i];
      if vm.hostPath != "" {
        b.Write(Set(Volume), vm.hostPath + ":" + vm.mountPath);
        continue;
      }
      b.Write(Set(Volume), vm.volumeName + ":" + vm.mountPath);
    }
  }

  method WriteVariable(b: Builder, kv: string)
    requires b.Valid()
    modifies b
    ensures b.Valid() && b.lines == old(b.lines) + [Line(Set(Environment), EnvText(kv))]
  {
    hide KeyText, Line.Text, Builder.Valid, Equals;
    var idx := Equals(kv);
    if idx >= 0 && ' ' in kv[idx + 1..] {
      b.Write(Set(Environment), "\"" + kv + "\"");
    } else {
      b.Write(Set(Environment), kv);
    }
  }

  method WriteEnvironment(b: Builder, env: seq<string>)
    requires b.Valid()
    modifies b
    ensures b.Valid() && b.lines == old(b.lines) + Each(Set(Environment), EnvTexts(env))
  {
    hide KeyText, Line.Text, Builder.Valid, EnvText;
    ghost var texts := EnvTexts(env);
    assert texts[..0] == [] && texts[..|texts|] == texts;
    for i := 0 to |env|
      invariant b.Valid() && b.lines == old(b.lines) + Each(Set(Environment), texts[..i])
    {
      assert texts[..i + 1][..i] == texts[..i];
      WriteVariable(b, env[i]);
    }
  }

  method WriteReplica(b: Builder, c: ContainerModel)
    requires b.Valid()
    modifies b
    ensures b.Valid() && b.lines == old(b.lines) + ReplicaLines(c)
  {
    hide KeyText, Line.Text, Builder.Valid, Optional;
    if c.replicaIndex >= 0 && c.serviceName != "" {
      b.Write(Note(Service), c.serviceName);
      b.WriteOptional(Note(BuildImage), c.image);
      Together(old(b.lines), [Line(Note(Service), c.serviceName)], Optional(Note(BuildImage), c.image), [], [], []);
    }
  }

  method WriteProvenance(b: Builder, c: ContainerModel)
    requires b.Valid()
    modifies b
    ensures b.Valid() && b.lines == old(b.lines) + ProvenanceLines(c)
  {
    hide KeyText, Line.Text, Builder.Valid, Optional, ReplicaLines, Join;
    if c.healthProbe.Some? {
      b.WriteOptional(Note(HealthProbeHTTP), c.healthProbe.value);
    }
    assert b.lines == old(b.lines) + ProbeLine(c);
    ghost var before := b.lines;
    if |c.needs| > 0 {
      b.Write(Note(Requires), Join(c.needs, ','));
    }
    assert b.lines == before + RequiresLine(c);
    hide ProbeLine, RequiresLine;
    b.WriteOptional(Note(JobService), c.jobService);
    WriteReplica(b, c);
    Together(
      old(b.lines), ProbeLine(c), RequiresLine(c), Optional(Note(JobService), c.jobService), ReplicaLines(c), []);
  }

  method WriteBuild(b: Builder, c: ContainerModel)
    requires b.Valid()
    modifies b
    ensures b.Valid() && b.lines == old(b.lines) + BuildLines(c)
  {
    hide KeyText, Line.Text, Builder.Valid, Optional;
    if !c.isImageBundled {
      b.WriteOptional(Note(BuildSource), c.buildSource);
      b.WriteOptional(Note(BuildRef), c.buildRef);
      b.WriteOptional(Note(BuildDockerfile), c.buildDockerfile);
      b.WriteOptional(Note(BuildContext), c.buildContext);
      Together(old(b.lines), Optional(Note(BuildSource), c.buildSource), Optional(Note(BuildRef), c.buildRef),
               Optional(Note(BuildDockerfile), c.buildDockerfile), Optional(Note(BuildContext), c.buildContext), []);
    }
  }

  method WriteHardening(b: Builder, c: ContainerModel)
    requires b.Valid()
    modifies b
    ensures b.Valid() && b.lines == old(b.lines) + HardeningLines(c)
  {
    hide KeyText, Line.Text, Builder.Valid, Optional, Each;
    ghost var fixed_ := [Fixed(NoNewPrivileges), Fixed(DropCapability)];
    b.Write(Fix(NoNewPrivileges), "");
    b.Write(Fix(DropCapability), "");
    assert b.lines == old(b.lines) + fixed_;
    b.WriteOptional(Set(User), c.user);
    b.WriteEach(Set(AddCapability), c.addCapabilities);
    b.WriteEach(Set(SecurityOpt), c.securityOpts);
    ghost var before := b.lines;
    b.WriteOptional(Set(Memory), c.memoryLimit);
    b.WriteOptional(Set(Cpus), c.cpuLimit);
    ghost var limits := Optional(Set(Memory), c.memoryLimit) + Optional(Set(Cpus), c.cpuLimit);
    Together(before, Optional(Set(Memory), c.memoryLimit), Optional(Set(Cpus), c.cpuLimit), [], [], []);
    Together(old(b.lines), fixed_, Optional(Set(User), c.user), Each(Set(AddCapability), c.addCapabilities),
             Each(Set(SecurityOpt), c.securityOpts), limits);
  }

  method WriteService(b: Builder, c: ContainerModel)
    requires b.Valid()
    modifies b
    ensures b.Valid() && b.lines == old(b.lines) + ServiceLines(c)
  {
    hide KeyText, Line.Text, Builder.Valid;
    b.Write(Fix(Blank), "");
    b.Write(Fix(ServiceSection), "");
    if c.isJob {
      b.Write(Fix(TypeOneshot), "");
      b.Write(Fix(RestartNo), "");
    } else {
      b.Write(Fix(RestartAlways), "");
      if c.isImageBundled {
        b.Write(Fix(TimeoutLong), "");
      } else {
        b.Write(Fix(TimeoutShort), "");
      }
    }
    if !c.isJob {
      b.Write(Fix(Blank), "");
      b.Write(Fix(InstallSection), "");
      b.Write(Fix(WantedBy), "");
    }
  }

  /** renderContainer. */
  method RenderContainer(c: ContainerModel, quote: string -> string) returns (text: string)
    ensures text == ContainerText(c, quote)
  {
    hide KeyText, Line.Text, UnitLines, ImageLines, Each, ProvenanceLines, BuildLines, HardeningLines, ServiceLines,
      Unlines, Join, DecInt;
    var b := new Builder();
    WriteUnit(b, c);
    assert [] + UnitLines(c) == UnitLines(c);
    WriteImage(b, c);
    b.WriteEach(Set(Network), NetworkFiles(c.networks));
    WriteMounts(b, c.volumeMounts);
    if |c.command| > 0 {
      b.Write(Set(Exec), Join(QuotedArgs(c.command, quote), ' '));
    }
    assert b.lines == LinesBefore(c, quote);
    if c.tunnelPort > 0 {
      b.Write(Set(PublishPort), "127.0.0.1:" + DecInt(c.tunnelPort) + ":" + DecInt(c.publicPort));
    }
    assert b.lines == LinesBefore(c, quote) + PublishLines(c);
    hide LinesBefore, PublishLines;
    WriteEnvironment(b, c.env);
    WriteProvenance(b, c);
    WriteBuild(b, c);
    WriteHardening(b, c);
    WriteService(b, c);
    text := b.text;
  }

  // -------------------------------------------------------------- finding a line by its key

  /** The values on the lines with a key. */
  function Values(lines: seq<Line>, key: Key): seq<string> {
    if lines == [] then []
    else
      Values(lines[..|lines| - 1], key)
      + if lines[|lines| - 1].key == key then [lines[|lines| - 1].value] else []
  }

  lemma {:induction false} ValuesAppend(a: seq<Line>, b: seq<Line>, key: Key)
    ensures Values(a + b, key) == Values(a, key) + Values(b, key)
  {
    if b == [] {
      assert a + b == a;
    } else {
      assert (a + b)[..|a + b| - 1] == a + b[..|b| - 1];
      ValuesAppend(a, b[..|b| - 1], key);
    }
  }

  lemma {:induction false} NoValues(lines: seq<Line>, key: Key)
    requires forall l | l in lines :: l.key != key
    ensures Values(lines, key) == []
  {
    if lines != [] {
      NoValues(lines[..|lines| - 1], key);
    }
  }

  lemma {:induction false} EachHasKey(k: Key, values: seq<string>)
    ensures forall l | l in Each(k, values) :: l.key == k
  {
    if values != [] {
      EachHasKey(k, values[..|values| - 1]);
    }
  }

  predicate IsComment(k: Key) {
    k == Note(Service) || k == Note(JobService)
  }

  lemma KeysBefore(c: ContainerModel, quote: string -> string, l: Line)
    requires l in LinesBefore(c, quote)
    ensures l.key != Set(PublishPort) && !IsComment(l.key)
  {
    hide Each, KeyText;
    EachHasKey(Set(Network), NetworkFiles(c.networks));
    EachHasKey(Set(Volume), MountTexts(c.volumeMounts));
  }

  lemma KeysAround(c: ContainerModel, l: Line)
    requires
      || l in Each(Set(Environment), EnvTexts(c.env)) || l in BuildLines(c)
      || l in HardeningLines(c) || l in ServiceLines(c)
    ensures l.key != Set(PublishPort) && !IsComment(l.key)
  {
    hide Each, KeyText;
    EachHasKey(Set(Environment), EnvTexts(c.env));
    EachHasKey(Set(AddCapability), c.addCapabilities);
    EachHasKey(Set(SecurityOpt), c.securityOpts);
  }

  lemma ValuesOfOne(l: Line, key: Key)
    ensures Values([l], key) == if l.key == key then [l.value] else []
  {
    assert [l][..0] == [];
    assert Values([], key) == [];
  }

  lemma ValuesOptional(k: Key, value: string, key: Key)
    ensures Values(Optional(k, value), key) == if k == key && value != "" then [value] else []
  {
    ValuesOfOne(Line(k, value), key);
  }

  lemma ReplicaValues(c: ContainerModel, key: Key)
    requires key == Set(PublishPort) || IsComment(key)
    ensures Values(ReplicaLines(c), key) == if key == Note(Service) && HasServiceLine(c) then [c.serviceName] else []
  {
    hide Values, Optional;
    ValuesOfOne(Line(Note(Service), c.serviceName), key);
    ValuesOptional(Note(BuildImage), c.image, key);
    ValuesAppend([Line(Note(Service), c.serviceName)], Optional(Note(BuildImage), c.image), key);
    NoValues([], key);
  }

  lemma ProvenanceValues(c: ContainerModel, key: Key)
    requires key == Set(PublishPort) || IsComment(key)
    ensures Values(ProvenanceLines(c), key) ==
      if key == Note(JobService) && c.jobService != "" then [c.jobService]
      else if key == Note(Service) && HasServiceLine(c) then [c.serviceName]
      else []
  {
    hide *;
    var job := Optional(Note(JobService), c.jobService);
    ReplicaValues(c, key);
    ValuesOptional(Note(JobService), c.jobService, key);
    ProbeValues(c, key);
    ProvenanceIs(c);
    ValuesAppend(ProbeLine(c) + RequiresLine(c) + job, ReplicaLines(c), key);
    ValuesAppend(ProbeLine(c) + RequiresLine(c), job, key);
    ValuesAppend(ProbeLine(c), RequiresLine(c), key);
  }

  lemma ProvenanceIs(c: ContainerModel)
    ensures ProvenanceLines(c)
      == ProbeLine(c) + RequiresLine(c) + Optional(Note(JobService), c.jobService) + ReplicaLines(c)
  {
  }

  lemma ProbeValues(c: ContainerModel, key: Key)
    requires key == Set(PublishPort) || IsComment(key)
    ensures Values(ProbeLine(c), key) == Values(RequiresLine(c), key) == []
  {
    hide Values, KeyText, Join;
    NoValues(ProbeLine(c), key);
    NoValues(RequiresLine(c), key);
  }

  /** A unit has one line for each of these keys, or none. */
  lemma UnitValues(c: ContainerModel, quote: string -> string, key: Key)
    requires key == Set(PublishPort) || IsComment(key)
    ensures Values(ContainerLines(c, quote), key) == Values(PublishLines(c), key) + Values(ProvenanceLines(c), key)
  {
    hide *;
    var before, env := LinesBefore(c, quote), Each(Set(Environment), EnvTexts(c.env));
    NothingBefore(c, quote, key);
    NothingAround(c, key);
    LinesAre(c, quote);
    var publish, prov := PublishLines(c), ProvenanceLines(c);
    ValuesAppend(before, publish, key);
    ValuesAppend(before + publish, env, key);
    ValuesAppend(before + publish + env, prov, key);
    ValuesAppend(before + publish + env + prov, BuildLines(c), key);
    ValuesAppend(before + publish + env + prov + BuildLines(c), HardeningLines(c), key);
    ValuesAppend(before + publish + env + prov + BuildLines(c) + HardeningLines(c), ServiceLines(c), key);
  }

  lemma LinesAre(c: ContainerModel, quote: string -> string)
    ensures ContainerLines(c, quote)
      == LinesBefore(c, quote) + PublishLines(c) + Each(Set(Environment), EnvTexts(c.env))
           + ProvenanceLines(c) + BuildLines(c) + HardeningLines(c) + ServiceLines(c)
  {
  }

  lemma NothingBefore(c: ContainerModel, quote: string -> string, key: Key)
    requires key == Set(PublishPort) || IsComment(key)
    ensures Values(LinesBefore(c, quote), key) == []
  {
    hide LinesBefore, Values;
    forall l | l in LinesBefore(c, quote) ensures l.key != key {
      KeysBefore(c, quote, l);
    }
    NoValues(LinesBefore(c, quote), key);
  }

  lemma NothingAround(c: ContainerModel, key: Key)
    requires key == Set(PublishPort) || IsComment(key)
    ensures Values(Each(Set(Environment), EnvTexts(c.env)), key) == Values(BuildLines(c), key) == []
    ensures Values(HardeningLines(c), key) == Values(ServiceLines(c), key) == []
  {
    var env := Each(Set(Environment), EnvTexts(c.env));
    hide Each, BuildLines, HardeningLines, ServiceLines, Values;
    forall l | l in env || l in BuildLines(c) || l in HardeningLines(c) || l in ServiceLines(c)
      ensures l.key != key
    {
      KeysAround(c, l);
    }
    NoValues(env, key);
    NoValues(BuildLines(c), key);
    NoValues(HardeningLines(c), key);
    NoValues(ServiceLines(c), key);
  }
}
