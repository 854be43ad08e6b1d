/** The fingerprint comments that make a changed secrets file restart the units that read it
    (annotateSecretsFingerprints, cmd/ownbased/main.go). The fingerprint of the file of a name is a
    parameter: empty when there is no such file. */
module Fingerprints {
  import opened Text
  import opened Order
  import opened Schema
  import opened Containers
  import opened Compiler
  import opened Compiled
  import opened CompiledNames
  import opened Render
  import opened UnitText
  import opened UnitSettings

  const FINGERPRINT_PREFIX: string := "# ownbase:secrets-fingerprint="

  function Comment(content: string, prefix: string): string {
    FirstWith(Split(content, '\n'), prefix)
  }

  /** The names of the secrets files a unit depends on. */
  function Sources(filename: string, content: string): seq<string> {
    var comment := Comment(content, "# Service=");
    var service := if comment == "" then TrimSuffix(TrimPrefix(filename, "ownbase-"), ".container") else comment;
    var jobService := Comment(content, "# JobService=");
    if jobService != "" then [jobService, TrimSuffix(TrimPrefix(filename, "ownbase-job-"), ".container")]
    else [service]
  }

  function Marks(sources: seq<string>, fp: string -> string): seq<string> {
    if sources == [] then []
    else
      var f := fp(sources[|sources| - 1]);
      Marks(sources[..|sources| - 1], fp) + if f != "" then [f] else []
  }

  function Annotated(filename: string, content: string, fp: string -> string): string {
    var fps := Marks(Sources(filename, content), fp);
    if !HasSuffix(filename, ".container") || fps == [] then content
    else content + FINGERPRINT_PREFIX + Join(fps, ',') + "\n"
  }

  /** annotateSecretsFingerprints, for any order of the files. */
  method AnnotateSecretsFingerprints(units: map<string, string>, fp: string -> string)
    returns (now: map<string, string>)
    ensures now == map name | name in units :: Annotated(name, units[name], fp)
  {
    now := units;
    var rest := units.Keys;
    hide Annotated, Sources, Marks;
    while rest != {}
      invariant rest <= units.Keys && now.Keys == units.Keys
      invariant forall name | name in units ::
        now[name] == if name in rest then units[name] else Annotated(name, units[name], fp)
    {
      var filename :| filename in rest;
      rest := rest - {filename};
      var content := AnnotateOne(filename, now[filename], fp);
      now := now[filename := content];
    }
  }

  method AnnotateOne(filename: string, content: string, fp: string -> string) returns (now: string)
    ensures now == Annotated(filename, content, fp)
  {
    if !HasSuffix(filename, ".container") {
      return content;
    }
    var service := ParseQuadletCommentLine(content, "# Service=");
    if service == "" {
      service := TrimSuffix(TrimPrefix(filename, "ownbase-"), ".container");
    }
    var sources := [service];
    var jobService := ParseQuadletCommentLine(content, "# JobService=");
    if jobService != "" {
      var jobName := TrimSuffix(TrimPrefix(filename, "ownbase-job-"), ".container");
      sources := [jobService, jobName];
    }
    assert sources == Sources(filename, content);
    var fps := [];
    for i := 0 to |sources|
      invariant fps == Marks(sources[..i], fp)
    {
      assert sources[..i + 1][..i] == sources[..i];
      var f := fp(sources[i]);
      if f != "" {
        fps := fps + [f];
      }
    }
    assert sources[..|sources|] == sources;
    if |fps| == 0 {
      return content;
    }
    now := content + FINGERPRINT_PREFIX + Join(fps, ',') + "\n";
  }

  // ---------------------------------------------------------------- what an annotation adds

  lemma {:induction false} MarksNoNewline(sources: seq<string>, fp: string -> string)
    requires forall x :: '\n' !in fp(x)
    ensures AllFree(Marks(sources, fp), '\n')
  {
    if sources != [] {
      MarksNoNewline(sources[..|sources| - 1], fp);
    }
  }

  lemma {:induction false} JoinFree(parts: seq<string>)
    requires AllFree(parts, '\n')
    ensures '\n' !in Join(parts, ',')
  {
    if |parts| > 1 {
      assert AllFree(parts[1..], '\n');
      JoinFree(parts[1..]);
    }
  }

  /** An annotated unit has one line more, at its end. */
  lemma AnnotatedText(c: ContainerModel, quote: string -> string, fp: string -> string)
    requires LinesFree(ContainerLines(c, quote)) && forall x :: '\n' !in fp(x)
    ensures var text, file := ContainerText(c, quote), UnitName(c);
      var marks, lines := Marks(Sources(file, text), fp), Texts(ContainerLines(c, quote));
      && Split(text, '\n') == lines + [""]
      && Split(Annotated(file, text, fp), '\n')
           == lines + (if marks == [] then [] else [FINGERPRINT_PREFIX + Join(marks, ',')]) + [""]
  {
    hide *;
    var text, file := ContainerText(c, quote), UnitName(c);
    var marks, lines := Marks(Sources(file, text), fp), Texts(ContainerLines(c, quote));
    UnitSuffix(c);
    TextIs(c, quote);
    AnnotatedIs(file, text, fp);
    MarksNoNewline(Sources(file, text), fp);
    JoinFree(marks);
    TextsFree(ContainerLines(c, quote));
    SplitUnlines(lines);
    if marks != [] {
      MarkFree(Join(marks, ','), lines);
      var mark := FINGERPRINT_PREFIX + Join(marks, ',');
      SplitUnlines(lines + [mark]);
      UnlinesOneMore(lines, mark);
    } else {
      assert lines + [] == lines;
    }
  }

  lemma TextIs(c: ContainerModel, quote: string -> string)
    ensures ContainerText(c, quote) == Unlines(Texts(ContainerLines(c, quote)))
  {
    hide Unlines, Texts, ContainerLines;
  }

  lemma AnnotatedIs(file: string, text: string, fp: string -> string)
    requires HasSuffix(file, ".container")
    ensures var marks := Marks(Sources(file, text), fp);
      Annotated(file, text, fp)
        == if marks == [] then text else text + (FINGERPRINT_PREFIX + Join(marks, ',') + "\n")
  {
    hide Sources, Marks, Join, HasSuffix, FINGERPRINT_PREFIX;
    var marks := Marks(Sources(file, text), fp);
    assert text + FINGERPRINT_PREFIX + Join(marks, ',') + "\n" == text + (FINGERPRINT_PREFIX + Join(marks, ',') + "\n");
  }

  lemma MarkFree(marks: string, lines: seq<string>)
    requires '\n' !in marks && AllFree(lines, '\n')
    ensures AllFree(lines + [FINGERPRINT_PREFIX + marks], '\n')
  {
    assert '\n' !in FINGERPRINT_PREFIX;
    hide FINGERPRINT_PREFIX;
  }

  lemma UnlinesOneMore(lines: seq<string>, last: string)
    ensures Unlines(lines + [last]) == Unlines(lines) + (last + "\n")
  {
    UnlinesAppend(lines, [last]);
    assert [last][1..] == [];
    assert Unlines([]) == "";
    assert Unlines([last]) == last + "\n" + "";
  }

  /** It says all that the plain unit says, and on the line for it the fingerprints of its files, in order. */
  lemma AnnotatedSays(c: ContainerModel, quote: string -> string, fp: string -> string, k: Key)
    requires LinesFree(ContainerLines(c, quote)) && forall x :: '\n' !in fp(x)
    requires IsDirective(k)
    ensures var text, file := ContainerText(c, quote), UnitName(c);
      var now, marks := Annotated(file, text, fp), Marks(Sources(file, text), fp);
      && Directive(now, Prefix(k)) == Directive(text, Prefix(k))
      && Directive(now, "# ownbase:secrets-fingerprint=") == if marks == [] then [] else [Join(marks, ',')]
  {
    hide *;
    var text, file := ContainerText(c, quote), UnitName(c);
    var now := Annotated(file, text, fp);
    var marks, lines := Marks(Sources(file, text), fp), ContainerLines(c, quote);
    var texts, value := Texts(lines), Join(marks, ',');
    AnnotatedText(c, quote, fp);
    DirectiveBegins(k);
    MarkIs(k, value);
    NoMarkYet(lines);
    DirectiveOf(text, texts, Prefix(k));
    if marks == [] {
      assert texts + [] == texts;
      DirectiveOf(now, texts, Prefix(k));
      DirectiveOf(now, texts, FINGERPRINT_PREFIX);
    } else {
      DirectiveOf(now, texts + [FINGERPRINT_PREFIX + value], Prefix(k));
      DirectiveOf(now, texts + [FINGERPRINT_PREFIX + value], FINGERPRINT_PREFIX);
      OneValueMore(texts, FINGERPRINT_PREFIX + value, Prefix(k));
      OneValueMore(texts, FINGERPRINT_PREFIX + value, FINGERPRINT_PREFIX);
    }
    PrefixText();
  }

  lemma PrefixText()
    ensures FINGERPRINT_PREFIX == "# ownbase:secrets-fingerprint="
  {
  }

  lemma DirectiveOf(text: string, texts: seq<string>, prefix: string)
    requires Split(text, '\n') == texts + [""] && |prefix| > 0
    ensures Directive(text, prefix) == ValuesWith(texts, prefix)
  {
    hide Split, ValuesWith;
    ValuesTail(texts, prefix);
  }

  lemma OneValueMore(texts: seq<string>, t: string, prefix: string)
    ensures ValuesWith(texts + [t], prefix)
      == ValuesWith(texts, prefix) + if HasPrefix(t, prefix) then [t[|prefix|..]] else []
  {
    assert (texts + [t])[..|texts|] == texts;
  }

  lemma MarkIs(k: Key, value: string)
    requires IsDirective(k)
    ensures |FINGERPRINT_PREFIX| > 0 && !HasPrefix(FINGERPRINT_PREFIX + value, Prefix(k))
    ensures HasPrefix(FINGERPRINT_PREFIX + value, FINGERPRINT_PREFIX)
    ensures (FINGERPRINT_PREFIX + value)[|FINGERPRINT_PREFIX|..] == value
  {
    var t := FINGERPRINT_PREFIX + value;
    Begins(k);
    assert t[0] == '#' && t[2] == 'o';
    hide Prefix;
  }

  lemma {:induction false} NoMarkYet(lines: seq<Line>)
    ensures ValuesWith(Texts(lines), FINGERPRINT_PREFIX) == []
  {
    hide Line.Text, FINGERPRINT_PREFIX;
    if lines != [] {
      var n := |lines| - 1;
      assert Texts(lines)[..n] == Texts(lines[..n]);
      NoMarkYet(lines[..n]);
      NoMark(lines[n]);
    }
  }

  lemma NoMark(l: Line)
    ensures !HasPrefix(l.Text(), FINGERPRINT_PREFIX)
  {
    LineSplits(l);
    if l.key == Fix(Blank) {
      assert l.Text() == "";
    } else {
      Begins(l.key);
      hide Prefix, LineValue, Line.Text;
      assert FINGERPRINT_PREFIX[0] == '#' && FINGERPRINT_PREFIX[2] == 'o';
    }
  }

  // --------------------------------------------------------------- what a rotation changes

  /** Two states of the secrets files that differ in the file of `changed` only. Fingerprints are
      hexadecimal, so they hold no comma. */
  ghost predicate Rotated(before: string -> string, after: string -> string, changed: string) {
    && before(changed) != after(changed)
    && (forall x | x != changed :: before(x) == after(x))
    && (forall x :: ',' !in before(x) && ',' !in after(x))
  }

  lemma {:induction false} MarksSame(sources: seq<string>, before: string -> string, after: string -> string,
                                     changed: string)
    requires Rotated(before, after, changed) && changed !in sources
    ensures Marks(sources, before) == Marks(sources, after)
  {
    if sources != [] {
      assert sources[|sources| - 1] in sources;
      MarksSame(sources[..|sources| - 1], before, after, changed);
    }
  }

  lemma {:induction false} MarksFree(sources: seq<string>, before: string -> string, after: string -> string,
                                     changed: string)
    requires Rotated(before, after, changed)
    ensures AllFree(Marks(sources, before), ',') && AllFree(Marks(sources, after), ',')
  {
    if sources != [] {
      MarksFree(sources[..|sources| - 1], before, after, changed);
    }
  }

  /** How the two lists of fingerprints compare, depending on whether the file was there. */
  lemma {:induction false} MarksLonger(sources: seq<string>, before: string -> string, after: string -> string,
                                       changed: string)
    requires Rotated(before, after, changed)
    ensures before(changed) == "" ==> |Marks(sources, before)| <= |Marks(sources, after)|
    ensures before(changed) == "" && changed in sources ==> |Marks(sources, before)| < |Marks(sources, after)|
    ensures after(changed) == "" ==> |Marks(sources, after)| <= |Marks(sources, before)|
    ensures after(changed) == "" && changed in sources ==> |Marks(sources, after)| < |Marks(sources, before)|
    ensures before(changed) != "" && after(changed) != "" ==> |Marks(sources, before)| == |Marks(sources, after)|
  {
    if sources != [] {
      var front, last := sources[..|sources| - 1], sources[|sources| - 1];
      assert sources == front + [last];
      MarksLonger(front, before, after, changed);
    }
  }

  lemma {:induction false} MarksDiffer(sources: seq<string>, before: string -> string, after: string -> string,
                                       changed: string)
    requires Rotated(before, after, changed) && changed in sources
    ensures Marks(sources, before) != Marks(sources, after)
  {
    MarksLonger(sources, before, after, changed);
    if before(changed) != "" && after(changed) != "" {
      var front, last := sources[..|sources| - 1], sources[|sources| - 1];
      assert sources == front + [last];
      var a, b := Marks(sources, before), Marks(sources, after);
      if last == changed {
        assert a[|a| - 1] == before(changed) && b[|b| - 1] == after(changed);
      } else {
        MarksDiffer(front, before, after, changed);
        MarksLonger(front, before, after, changed);
        assert a[..|Marks(front, before)|] == Marks(front, before);
        assert b[..|Marks(front, after)|] == Marks(front, after);
      }
    }
  }

  lemma SuffixDiffers(content: string, a: string, b: string)
    requires a != b
    ensures content + FINGERPRINT_PREFIX + a + "\n" != content + FINGERPRINT_PREFIX + b + "\n"
  {
    var prefix := content + FINGERPRINT_PREFIX;
    assert (prefix + a + "\n")[|prefix|..] == a + "\n";
    assert (prefix + b + "\n")[|prefix|..] == b + "\n";
    assert (a + "\n")[..|a|] == a;
    assert (b + "\n")[..|b|] == b;
  }

  /** Rotating one secrets file changes exactly the units that have it among their sources, and
      leaves the text of every other file as it was, to the byte. */
  lemma RotationReaches(filename: string, content: string, before: string -> string, after: string -> string,
                        changed: string)
    requires Rotated(before, after, changed)
    ensures Annotated(filename, content, before) != Annotated(filename, content, after) <==>
      HasSuffix(filename, ".container") && changed in Sources(filename, content)
  {
    var sources := Sources(filename, content);
    var a, b := Marks(sources, before), Marks(sources, after);
    hide Sources, Marks, Join, Rotated;
    if changed in sources {
      MarksDiffer(sources, before, after, changed);
      MarksFree(sources, before, after, changed);
      if a != [] && b != [] {
        if Join(a, ',') == Join(b, ',') {
          JoinInjective(a, b, ',');
        }
        SuffixDiffers(content, Join(a, ','), Join(b, ','));
      }
    } else {
      MarksSame(sources, before, after, changed);
    }
  }

  // ------------------------------------------------------- which files a compiled unit reads

  lemma StemOfFile(prefix: string, stem: string)
    ensures TrimSuffix(TrimPrefix(prefix + stem + ".container", prefix), ".container") == stem
  {
    var file := prefix + stem + ".container";
    assert file[|prefix|..] == stem + ".container";
    assert (stem + ".container")[..|stem|] == stem;
    assert (stem + ".container")[|stem|..] == ".container";
  }

  function StemOfInstance(name: string, replicas: Option<int>, i: nat): string {
    if replicas.None? then name else name + "-" + Dec(i)
  }

  lemma InstanceShape(services: map<string, ServiceDecl>, c: ContainerModel, name: string, i: nat)
    requires IsInstance(services, c, name, i)
    ensures c.serviceName == name && c.jobService == "" && !c.isJob
    ensures HasServiceLine(c) <==> services[name].IsReplicated() && name != ""
    ensures UnitName(c) == "ownbase-" + StemOfInstance(name, services[name].replicas, i) + ".container"
  {
    hide TunnelPorts, Dec;
    var svc := services[name];
    if svc.replicas.Some? {
      assert "ownbase-" + name + "-" + Dec(i) == "ownbase-" + (name + "-" + Dec(i));
    }
  }

  /** A unit of a service that is not replicated reads the file of its service. A replica reads the
      one named in its comment, which is the service's name without the blanks at its end. */
  lemma InstanceSources(services: map<string, ServiceDecl>, c: ContainerModel, name: string, i: nat,
                        quote: string -> string)
    requires IsInstance(services, c, name, i) && LinesFree(ContainerLines(c, quote))
    ensures Sources(UnitName(c), ContainerText(c, quote)) ==
      if services[name].IsReplicated() && TrimRight(name) != "" then [TrimRight(name)]
      else [StemOfInstance(name, services[name].replicas, i)]
  {
    InstanceShape(services, c, name, i);
    TrimNothing();
    CommentsReadBack(c, quote);
    StemOfFile("ownbase-", StemOfInstance(name, services[name].replicas, i));
    hide IsInstance, ContainerText, LinesFree, FirstWith, Split, TrimRight, HasServiceLine, StemOfInstance, UnitName,
      TrimPrefix, TrimSuffix;
  }

  lemma JobShape(config: Config, c: ContainerModel, job: string)
    requires IsJob(config, c, job)
    ensures job in config.jobs
    ensures c.jobService == config.jobs[job].service && c.isJob && !HasServiceLine(c)
    ensures UnitName(c) == "ownbase-job-" + job + ".container"
    ensures UnitName(c) == "ownbase-" + ("job-" + job) + ".container"
  {
    hide Container;
  }

  /** A job reads the file of its service and its own. */
  lemma JobSources(config: Config, c: ContainerModel, job: string, quote: string -> string)
    requires IsJob(config, c, job) && LinesFree(ContainerLines(c, quote))
    ensures var service := TrimRight(config.jobs[job].service);
      Sources(UnitName(c), ContainerText(c, quote)) == if service != "" then [service, job] else ["job-" + job]
  {
    JobShape(config, c, job);
    CommentsReadBack(c, quote);
    StemOfFile("ownbase-", "job-" + job);
    StemOfFile("ownbase-job-", job);
    hide IsJob, ContainerText, LinesFree, FirstWith, Split, TrimRight, HasServiceLine, UnitName, TrimPrefix, TrimSuffix;
  }

  /** A name that survives being written on a comment line. */
  predicate IsTrimmed(name: string) {
    name != "" && TrimRight(name) == name
  }

  /** So a replica reads the file of its own service exactly when the name ends in no blank. */
  lemma ReplicaReadsItsService(services: map<string, ServiceDecl>, c: ContainerModel, name: string, i: nat,
                               quote: string -> string)
    requires IsInstance(services, c, name, i) && LinesFree(ContainerLines(c, quote))
    requires services[name].IsReplicated()
    ensures name in Sources(UnitName(c), ContainerText(c, quote)) <==> IsTrimmed(name)
  {
    hide *;
    IsTrimmedMeans(services, c, name, i);
    InstanceSources(services, c, name, i, quote);
    TrimNothing();
    LongerStem(name, services[name].replicas, i);
  }

  lemma LongerStem(name: string, replicas: Option<int>, i: nat)
    requires replicas.Some?
    ensures StemOfInstance(name, replicas, i) != name
  {
    hide Dec;
    assert |name + "-" + Dec(i)| > |name|;
  }

  lemma IsTrimmedMeans(services: map<string, ServiceDecl>, c: ContainerModel, name: string, i: nat)
    requires IsInstance(services, c, name, i)
    ensures name in services && (services[name].IsReplicated() <==> services[name].replicas.Some?)
    ensures IsTrimmed(name) <==> name != "" && TrimRight(name) == name
  {
    hide TrimRight, Instance, TunnelPorts;
  }

  /** Whether a unit is one of those that are to be restarted for the file of `s`. */
  ghost predicate Reads(config: Config, c: ContainerModel, s: string) {
    || (exists i: nat :: IsInstance(config.services, c, s, i))
    || (exists job :: IsJob(config, c, job) && (config.jobs[job].service == s || job == s))
  }

  lemma ReadsOfInstance(config: Config, c: ContainerModel, name: string, i: nat, s: string)
    requires IsInstance(config.services, c, name, i)
    ensures Reads(config, c, s) <==> s == name
  {
    InstanceShape(config.services, c, name, i);
    hide IsInstance, IsJob;
    if j: nat :| IsInstance(config.services, c, s, j) {
      InstanceShape(config.services, c, s, j);
    } else if job :| IsJob(config, c, job) && (config.jobs[job].service == s || job == s) {
      JobShape(config, c, job);
      assert false;
    }
  }

  lemma ReadsOfJob(config: Config, c: ContainerModel, job: string, s: string)
    requires IsJob(config, c, job)
    ensures Reads(config, c, s) <==> s == config.jobs[job].service || s == job
  {
    JobShape(config, c, job);
    hide IsInstance, IsJob;
    if j: nat :| IsInstance(config.services, c, s, j) {
      InstanceShape(config.services, c, s, j);
      assert false;
    } else if k :| IsJob(config, c, k) && (config.jobs[k].service == s || k == s) {
      JobShape(config, c, k);
      JobNameOfFile(job, k);
    }
  }

  lemma JobNameOfFile(a: string, b: string)
    requires "ownbase-job-" + a + ".container" == "ownbase-job-" + b + ".container"
    ensures a == b
  {
    StemOfFile("ownbase-job-", a);
    StemOfFile("ownbase-job-", b);
  }

  /** The name a unit is found by on its comment lines, if it has one: that of the service of a replica,
      and that of the service a job runs in. It has to survive being written there. */
  predicate NameReadsBack(config: Config, c: ContainerModel) {
    if c.isJob then IsTrimmed(c.jobService)
    else c.serviceName in config.services && config.services[c.serviceName].IsReplicated() ==> IsTrimmed(c.serviceName)
  }

  lemma InstanceReads(config: Config, c: ContainerModel, name: string, i: nat, quote: string -> string)
    requires IsInstance(config.services, c, name, i) && LinesFree(ContainerLines(c, quote))
    ensures (forall s :: s in Sources(UnitName(c), ContainerText(c, quote)) <==> s == name)
      <==> NameReadsBack(config, c)
  {
    hide *;
    InstanceReadsBack(config, c, name, i);
    InstanceSources(config.services, c, name, i, quote);
    if config.services[name].IsReplicated() {
      IsTrimmedMeans(config.services, c, name, i);
      ReplicaReadsItsService(config.services, c, name, i, quote);
    } else {
      UnreplicatedStem(name, config.services[name], i);
    }
  }

  lemma InstanceReadsBack(config: Config, c: ContainerModel, name: string, i: nat)
    requires IsInstance(config.services, c, name, i)
    ensures name in config.services
    ensures NameReadsBack(config, c) <==> (config.services[name].IsReplicated() ==> IsTrimmed(name))
  {
    InstanceShape(config.services, c, name, i);
    hide Instance, TunnelPorts, IsTrimmed;
  }

  lemma UnreplicatedStem(name: string, svc: ServiceDecl, i: nat)
    requires !svc.IsReplicated()
    ensures StemOfInstance(name, svc.replicas, i) == name
  {
  }

  lemma JobReadsBack(config: Config, c: ContainerModel, job: string)
    requires IsJob(config, c, job)
    ensures job in config.jobs
    ensures var service := config.jobs[job].service;
      NameReadsBack(config, c) <==> service != "" && TrimRight(service) == service
  {
    JobShape(config, c, job);
    hide JobContainer, TrimRight;
  }

  lemma JobReads(config: Config, c: ContainerModel, job: string, quote: string -> string)
    requires IsJob(config, c, job) && LinesFree(ContainerLines(c, quote))
    ensures job in config.jobs
    ensures var service := config.jobs[job].service;
      (forall s :: s in Sources(UnitName(c), ContainerText(c, quote)) <==> s == service || s == job)
      <==> NameReadsBack(config, c)
  {
    hide *;
    JobReadsBack(config, c, job);
    JobSources(config, c, job, quote);
    var service := config.jobs[job].service;
    var sources := Sources(UnitName(c), ContainerText(c, quote));
    assert |"job-" + job| > |job|;
    if TrimRight(service) == "" {
      assert job !in sources;
    } else if TrimRight(service) != service {
      assert TrimRight(service) in sources;
      assert service == job || service !in sources;
    }
  }

  /** The files whose rotation is to restart a unit are those it depends on. */
  lemma ReadsItsSources(config: Config, c: ContainerModel, quote: string -> string)
    requires c in AllContainers(config) && LinesFree(ContainerLines(c, quote))
    ensures (forall s :: s in Sources(UnitName(c), ContainerText(c, quote)) <==> Reads(config, c, s))
      <==> NameReadsBack(config, c)
  {
    hide *;
    ContainersAre(config, c);
    if name, i: nat :| IsInstance(config.services, c, name, i) {
      InstanceReads(config, c, name, i, quote);
      forall s ensures Reads(config, c, s) <==> s == name {
        ReadsOfInstance(config, c, name, i, s);
      }
    } else {
      var job :| IsJob(config, c, job);
      JobReads(config, c, job, quote);
      forall s ensures Reads(config, c, s) <==> s == config.jobs[job].service || s == job {
        ReadsOfJob(config, c, job, s);
      }
    }
  }

  /** Rotating the secrets of `s` changes the wanted text of this unit just if it is a replica of
      service `s`, or a job that runs in service `s` or is called `s`. */
  ghost predicate RestartsFor(config: Config, c: ContainerModel, quote: string -> string,
                              before: string -> string, after: string -> string, s: string) {
    var file, text := UnitName(c), ContainerText(c, quote);
    Annotated(file, text, before) != Annotated(file, text, after) <==> Reads(config, c, s)
  }

  /** So a unit is restarted for the new values exactly when it should be, whatever is rotated, if and
      only if the name on its comment line reads back. Other units find their names in their files. */
  lemma RotationRestarts(config: Config, c: ContainerModel, quote: string -> string)
    requires c in AllContainers(config) && LinesFree(ContainerLines(c, quote))
    ensures (forall before, after, s | Rotated(before, after, s) :: RestartsFor(config, c, quote, before, after, s))
      <==> NameReadsBack(config, c)
  {
    UnitSuffix(c);
    var file, text := UnitName(c), ContainerText(c, quote);
    ReadsItsSources(config, c, quote);
    hide Annotated, Sources, Reads, Rotated, ContainerText, LinesFree, HasSuffix, NameReadsBack;
    forall before, after, s | Rotated(before, after, s)
      ensures RestartsFor(config, c, quote, before, after, s) <==> (s in Sources(file, text) <==> Reads(config, c, s))
    {
      RotationReaches(file, text, before, after, s);
    }
    if !NameReadsBack(config, c) {
      var s :| !(s in Sources(file, text) <==> Reads(config, c, s));
      var before, after := NewFile(s);
      assert !RestartsFor(config, c, quote, before, after, s);
    }
  }

  /** Writing a first secret is a rotation. */
  lemma NewFile(s: string) returns (before: string -> string, after: string -> string)
    ensures Rotated(before, after, s)
  {
    before := x => "";
    after := x => if x == s then "0" else "";
  }

  lemma UnitSuffix(c: ContainerModel)
    ensures HasSuffix(UnitName(c), ".container")
  {
  }

  // ------------------------------------------------------------------- a name that does not

  lemma EachFree(k: Key, values: seq<string>)
    requires AllFree(values, '\n')
    ensures LinesFree(Each(k, values))
  {
    if values != [] {
      assert values[|values| - 1] in values;
      EachFree(k, values[..|values| - 1]);
    }
  }

  lemma DigitsFree(n: int)
    ensures '\n' !in DecInt(n)
  {
    assert n >= 0 ==> AllDigits(Dec(n));
    assert n < 0 ==> AllDigits(Dec(-n));
  }

  lemma LowerFree(s: string)
    requires '\n' !in s
    ensures '\n' !in ToLower(s)
  {
    forall i | 0 <= i < |s| ensures ToLower(s)[i] != '\n' {
      assert s[i] in s;
    }
  }

  lemma CapabilityFree(name: string)
    requires '\n' !in name
    ensures '\n' !in CapabilityNetworkName(name) && '\n' !in INTERNAL_NETWORK
  {
    LowerFree(name);
    hide ToLower;
  }

  lemma FilesFree(networks: seq<string>)
    requires AllFree(networks, '\n')
    ensures AllFree(NetworkFiles(networks), '\n')
  {
    forall k | 0 <= k < |networks| ensures '\n' !in NetworkFiles(networks)[k] {
      assert networks[k] in networks;
    }
  }

  lemma NetworksFree(name: string, svc: ServiceDecl, i: nat)
    requires '\n' !in name && svc.needs == []
    ensures AllFree(NetworkFiles(Container(name, svc, i).networks), '\n')
  {
    hide Container, CapabilityNetworkName, INTERNAL_NETWORK, NetworkFiles;
    CapabilityFree(name);
    var networks := Container(name, svc, i).networks;
    forall net | net in networks ensures '\n' !in net {
      ContainerNetworks(name, svc, i, net);
    }
    FilesFree(networks);
  }

  lemma EnvironmentFree(env: seq<string>)
    requires AllFree(env, '\n')
    ensures AllFree(EnvTexts(env), '\n')
  {
    forall k | 0 <= k < |env| ensures '\n' !in EnvTexts(env)[k] {
      assert env[k] in env;
    }
  }

  /** The unit of a replica that says nothing has no line break in any value, if its name has none. */
  lemma PlainIsFree(services: map<string, ServiceDecl>, c: ContainerModel, name: string, quote: string -> string)
    requires IsInstance(services, c, name, 0) && services[name] == Plain(Some(1)) && '\n' !in name
    ensures LinesFree(ContainerLines(c, quote))
  {
    DigitsFree(0);
    DigitsFree(1);
    DigitsFree(c.tunnelPort);
    DigitsFree(c.publicPort);
    NetworksFree(name, Plain(Some(1)), 0);
    PlainParts(services, c, name);
    hide Container, Instance, Dec, DecInt, TunnelPorts, IsInstance, NetworkFiles;
    EachFree(Set(Network), NetworkFiles(c.networks));
    EachFree(Set(Volume), MountTexts(c.volumeMounts));
    EnvironmentFree(c.env);
    EachFree(Set(Environment), EnvTexts(c.env));
    PartsFree(c, quote);
  }

  lemma PlainParts(services: map<string, ServiceDecl>, c: ContainerModel, name: string)
    requires IsInstance(services, c, name, 0) && services[name] == Plain(Some(1)) && '\n' !in name
    ensures '\n' !in c.name && '\n' !in c.image && c.digest == "" && c.serviceName == name
    ensures c.networks == Container(name, Plain(Some(1)), 0).networks
    ensures AllFree(MountTexts(c.volumeMounts), '\n') && AllFree(c.env, '\n')
    ensures c.command == [] && c.healthProbe.None? && c.needs == [] && c.jobService == ""
    ensures c.buildSource == name && c.buildRef == c.buildDockerfile == c.buildContext == ""
    ensures c.user == "" && c.addCapabilities == [] && c.securityOpts == [] && c.memoryLimit == c.cpuLimit == ""
  {
    PlainNames(name);
    PlainValues(name);
    hide ContainerName, Mounts, ReplicaEnv, DecInt, TunnelPorts, Sort, Dedup, AllFree, MountTexts;
    assert [] + ReplicaEnv(Plain(Some(1)), 0) == ReplicaEnv(Plain(Some(1)), 0);
  }

  lemma PlainNames(name: string)
    requires '\n' !in name
    ensures '\n' !in ContainerName(name, Some(1), 0) && '\n' !in "localhost/ownbase-" + name + ":local"
  {
    DigitsFree(0);
    hide Dec;
  }

  lemma PlainValues(name: string)
    requires '\n' !in name
    ensures AllFree(MountTexts(Mounts(name, Plain(Some(1)), 0)), '\n')
    ensures AllFree(ReplicaEnv(Plain(Some(1)), 0), '\n')
  {
    DigitsFree(0);
    DigitsFree(1);
    hide Dec, DecInt;
    var volume := DataVolumeName(name, Some(1), 0, true);
    assert '\n' !in volume;
    assert Mounts(name, Plain(Some(1)), 0) == [VolumeMount(volume, "/data", "")];
    assert '\n' !in MountText(VolumeMount(volume, "/data", ""));
  }

  lemma PartsFree(c: ContainerModel, quote: string -> string)
    requires '\n' !in c.name && '\n' !in c.image && c.digest == "" && '\n' !in c.serviceName
    requires LinesFree(Each(Set(Network), NetworkFiles(c.networks)))
    requires LinesFree(Each(Set(Volume), MountTexts(c.volumeMounts)))
    requires LinesFree(Each(Set(Environment), EnvTexts(c.env)))
    requires c.command == [] && c.healthProbe.None? && c.needs == [] && c.jobService == ""
    requires c.buildSource == c.serviceName && c.buildRef == c.buildDockerfile == c.buildContext == ""
    requires c.user == "" && c.addCapabilities == [] && c.securityOpts == [] && c.memoryLimit == c.cpuLimit == ""
    requires '\n' !in DecInt(c.tunnelPort) && '\n' !in DecInt(c.publicPort)
    ensures LinesFree(ContainerLines(c, quote))
  {
    HeadFree(c, quote);
    PublishFree(c);
    ProvenanceFree(c);
    TailFree(c);
    hide *;
    PartsTogether(c, quote);
  }

  lemma PartsTogether(c: ContainerModel, quote: string -> string)
    requires LinesFree(LinesBefore(c, quote)) && LinesFree(PublishLines(c))
    requires LinesFree(Each(Set(Environment), EnvTexts(c.env)))
    requires LinesFree(ProvenanceLines(c)) && LinesFree(BuildLines(c))
    requires LinesFree(HardeningLines(c)) && LinesFree(ServiceLines(c))
    ensures LinesFree(ContainerLines(c, quote))
  {
    hide LinesBefore, PublishLines, Each, ProvenanceLines, BuildLines, HardeningLines, ServiceLines;
  }

  lemma HeadFree(c: ContainerModel, quote: string -> string)
    requires '\n' !in c.name && '\n' !in c.image && c.digest == "" && c.command == []
    requires LinesFree(Each(Set(Network), NetworkFiles(c.networks)))
    requires LinesFree(Each(Set(Volume), MountTexts(c.volumeMounts)))
    ensures LinesFree(LinesBefore(c, quote))
  {
    hide Each;
    assert LinesFree(UnitLines(c)) && LinesFree(ImageLines(c));
    hide UnitLines, ImageLines;
    assert ExecLines(c, quote) == [];
  }

  lemma PublishFree(c: ContainerModel)
    requires '\n' !in DecInt(c.tunnelPort) && '\n' !in DecInt(c.publicPort)
    ensures LinesFree(PublishLines(c))
  {
    hide DecInt;
  }

  lemma ProvenanceFree(c: ContainerModel)
    requires '\n' !in c.image && '\n' !in c.serviceName && c.buildSource == c.serviceName
    requires c.healthProbe.None? && c.needs == [] && c.jobService == ""
    requires c.buildRef == c.buildDockerfile == c.buildContext == ""
    ensures LinesFree(ProvenanceLines(c)) && LinesFree(BuildLines(c))
  {
    assert ProvenanceLines(c) == ReplicaLines(c);
    assert LinesFree(ReplicaLines(c));
  }

  lemma TailFree(c: ContainerModel)
    requires c.user == "" && c.addCapabilities == [] && c.securityOpts == [] && c.memoryLimit == c.cpuLimit == ""
    ensures LinesFree(HardeningLines(c)) && LinesFree(ServiceLines(c))
  {
    assert HardeningLines(c) == [Fixed(NoNewPrivileges), Fixed(DropCapability)];
  }

  /** A replicated service whose name ends in a blank is accepted, and writing its secrets restarts
      none of its replicas. */
  lemma AcceptedBlank(config: Config, quote: string -> string)
    requires config.services == map["a " := Plain(Some(1))] && config.jobs == map[]
    ensures Accepted(config)
    ensures exists c :: (
      && c in AllContainers(config) && LinesFree(ContainerLines(c, quote))
      && Reads(config, c, "a ") && "a " !in Sources(UnitName(c), ContainerText(c, quote)))
  {
    BlankIsAccepted(config);
    hide *;
    var c := TheInstance(config.services, "a ", 0);
    ContainersAre(config, c);
    PlainIsFree(config.services, c, "a ", quote);
    ReadsOfInstance(config, c, "a ", 0, "a ");
    ReplicaReadsItsService(config.services, c, "a ", 0, quote);
  }

  lemma BlankIsAccepted(config: Config)
    requires config.services == map["a " := Plain(Some(1))] && config.jobs == map[]
    ensures Accepted(config) && config.services["a "] == Plain(Some(1)) && Plain(Some(1)).ReplicaCount() == 1
    ensures !IsTrimmed("a ") && '\n' !in "a " && Plain(Some(1)).IsReplicated()
  {
    DataClaimsDistinct("a ", Plain(Some(1)));
    hide Accepted, Claims, Distinct;
    AcceptedAlone(config, "a ", Plain(Some(1)));
    assert TrimRight("a ") == "a";
  }
}
