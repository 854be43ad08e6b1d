/** The environment of a container: what it is made of (buildContainer and buildJobContainer,
    internal/compiler/build.go), what a process finds in it, and whether the Environment= lines of a
    unit (internal/compiler/render.go) give it back. */
module Environment {
  import opened Text
  import opened Schema
  import opened Containers
  import opened Compiler
  import opened Compiled
  import opened Render

  // --------------------------------------------------------------------------- variables

  /** Whether an entry assigns the variable: its name runs up to the first `=`. */
  predicate Assigns(kv: string, name: string) {
    Equals(kv) >= 0 && kv[..Equals(kv)] == name
  }

  /** The value a process finds: that of the last entry that assigns the variable. */
  function Lookup(env: seq<string>, name: string): Option<string> {
    if env == [] then None
    else
      var last := env[|env| - 1];
      if Assigns(last, name) then Some(last[Equals(last) + 1..]) else Lookup(env[..|env| - 1], name)
  }

  lemma {:induction false} LookupAppend(a: seq<string>, b: seq<string>, name: string)
    ensures Lookup(a + b, name) == if Lookup(b, name).Some? then Lookup(b, name) else Lookup(a, name)
  {
    if b == [] {
      assert a + b == a;
    } else {
      assert (a + b)[..|a + b| - 1] == a + b[..|b| - 1];
      LookupAppend(a, b[..|b| - 1], name);
    }
  }

  lemma {:induction false} EqualsAfter(name: string, value: string)
    requires '=' !in name
    ensures Equals(name + "=" + value) == |name|
  {
    var kv := name + "=" + value;
    if name != "" {
      assert kv[1..] == name[1..] + "=" + value;
      EqualsAfter(name[1..], value);
    }
  }

  lemma LookupPair(a: string, v: string, b: string, w: string, name: string)
    requires '=' !in a && '=' !in b && a != b
    ensures Lookup([a + "=" + v, b + "=" + w], name)
      == if name == a then Some(v) else if name == b then Some(w) else None
  {
    var x, y := a + "=" + v, b + "=" + w;
    EqualsAfter(a, v);
    EqualsAfter(b, w);
    assert x[..|a|] == a && x[|a| + 1..] == v && y[..|b|] == b && y[|b| + 1..] == w;
    var none: seq<string> := [];
    assert [x, y][..1] == [x] && [x][..0] == none;
    assert Lookup(none, name) == None;
    assert Lookup([x], name) == if name == a then Some(v) else None;
  }

  const REPLICA_INDEX := "OWNBASE_REPLICA_INDEX"
  const REPLICA_COUNT := "OWNBASE_REPLICA_COUNT"

  lemma ReplicaVariables(svc: ServiceDecl, i: nat, variable: string)
    requires svc.IsReplicated()
    ensures Lookup(ReplicaEnv(svc, i), variable) ==
      if variable == REPLICA_INDEX then Some(Dec(i))
      else if variable == REPLICA_COUNT then Some(DecInt(svc.ReplicaCount()))
      else None
  {
    assert '=' !in REPLICA_INDEX && '=' !in REPLICA_COUNT && REPLICA_INDEX[16] != REPLICA_COUNT[16];
    assert "OWNBASE_REPLICA_INDEX=" == REPLICA_INDEX + "=" && "OWNBASE_REPLICA_COUNT=" == REPLICA_COUNT + "=";
    hide Dec, DecInt;
    assert ReplicaEnv(svc, i)
      == [REPLICA_INDEX + "=" + Dec(i), REPLICA_COUNT + "=" + DecInt(svc.ReplicaCount())];
    hide REPLICA_INDEX, REPLICA_COUNT, Lookup, ReplicaEnv;
    LookupPair(REPLICA_INDEX, Dec(i), REPLICA_COUNT, DecInt(svc.ReplicaCount()), variable);
  }

  /** Every replica finds its own index and the number of replicas, whatever the service declares under these
      names; every other variable has the value the service declares last. */
  lemma ReplicaEnvironment(services: map<string, ServiceDecl>, c: ContainerModel, name: string, i: nat,
                           variable: string)
    requires IsInstance(services, c, name, i)
    ensures var svc := services[name];
      Lookup(c.env, variable) ==
        if svc.replicas.Some? && variable == REPLICA_INDEX then Some(Dec(i))
        else if svc.replicas.Some? && variable == REPLICA_COUNT then Some(DecInt(svc.replicas.value))
        else Lookup(svc.env, variable)
  {
    var svc := services[name];
    InstanceEnv(services, c, name, i);
    hide Lookup, Instance, TunnelPorts, ReplicaEnv, Dec, DecInt, REPLICA_INDEX, REPLICA_COUNT;
    if svc.IsReplicated() {
      LookupAppend(svc.env, ReplicaEnv(svc, i), variable);
      ReplicaVariables(svc, i, variable);
    }
  }

  /** So a service that talks to its neighbour of the same index finds it under the name that ends in it. */
  lemma ReplicaAddress(services: map<string, ServiceDecl>, c: ContainerModel, name: string, i: nat)
    requires IsInstance(services, c, name, i)
    ensures services[name].replicas.Some? ==>
      (Lookup(c.env, REPLICA_INDEX).Some?
       && c.name == "ownbase-" + name + "-" + Lookup(c.env, REPLICA_INDEX).value)
    ensures services[name].replicas.None? ==> c.name == "ownbase-" + name
  {
    ReplicaEnvironment(services, c, name, i, REPLICA_INDEX);
    hide Lookup, TunnelPorts, Dec, DecInt, ReplicaEnv, REPLICA_INDEX;
  }

  lemma InstanceEnv(services: map<string, ServiceDecl>, c: ContainerModel, name: string, i: nat)
    requires IsInstance(services, c, name, i)
    ensures var svc := services[name]; c.env == if svc.IsReplicated() then svc.env + ReplicaEnv(svc, i) else svc.env
  {
    hide TunnelPorts, Dec, DecInt;
    assert services[name].env + [] == services[name].env;
  }

  /** A job finds its service's variables, its own taking precedence, and no replica identity. */
  lemma JobEnvironment(config: Config, c: ContainerModel, job: string, variable: string)
    requires IsJob(config, c, job)
    ensures var own, service := config.jobs[job].env, config.services[config.jobs[job].service].env;
      Lookup(c.env, variable) ==
        if Lookup(own, variable).Some? then Lookup(own, variable) else Lookup(service, variable)
  {
    hide Lookup, Container;
    LookupAppend(config.services[config.jobs[job].service].env, config.jobs[job].env, variable);
  }

  // ------------------------------------------------------- reading an Environment= line

  predicate IsBlankChar(c: char) {
    c == ' ' || c == '\t' || c == '\r' || c == '\n'
  }

  predicate IsQuote(c: char) {
    c == '"' || c == '\''
  }

  function OrEmpty(word: Option<string>): string {
    match word case None => "" case Some(w) => w
  }

  /** The words of an assignment list, as systemd takes it apart: blanks separate words, quotes keep them
      together and are dropped, and a backslash escapes. None if a quote or an escape is left open. */
  function Scan(s: string, quote: Option<char>, word: Option<string>): Option<seq<string>>
    decreases |s|
  {
    if s == "" then
      if quote.Some? then None else Some(if word.Some? then [word.value] else [])
    else if s[0] == '\\' then
      if |s| == 1 then None else Scan(s[2..], quote, Some(OrEmpty(word) + [s[1]]))
    else if quote == Some(s[0]) then Scan(s[1..], None, word)
    else if quote.None? && IsQuote(s[0]) then Scan(s[1..], Some(s[0]), Some(OrEmpty(word)))
    else if quote.None? && IsBlankChar(s[0]) then
      var rest := Scan(s[1..], None, None);
      if rest.None? then None else Some((if word.Some? then [word.value] else []) + rest.value)
    else Scan(s[1..], quote, Some(OrEmpty(word) + [s[0]]))
  }

  function Words(s: string): Option<seq<string>> {
    Scan(s, None, None)
  }

  /** How many characters the words have. */
  function Total(words: seq<string>): nat {
    if words == [] then 0 else |words[0]| + Total(words[1..])
  }

  lemma TotalCons(word: Option<string>, rest: seq<string>)
    ensures Total((if word.Some? then [word.value] else []) + rest) == |OrEmpty(word)| + Total(rest)
  {
    if word.Some? {
      assert ([word.value] + rest)[1..] == rest;
    } else {
      assert [] + rest == rest;
    }
  }

  /** Nothing is added in reading. */
  lemma {:induction false} ScanTotal(s: string, quote: Option<char>, word: Option<string>)
    requires Scan(s, quote, word).Some?
    ensures Total(Scan(s, quote, word).value) <= |OrEmpty(word)| + |s|
    decreases |s|
  {
    if s == "" {
      TotalCons(word, []);
      assert (if word.Some? then [word.value] else []) + [] == if word.Some? then [word.value] else [];
      assert Total([]) == 0;
    } else if s[0] == '\\' {
      ScanTotal(s[2..], quote, Some(OrEmpty(word) + [s[1]]));
    } else if quote == Some(s[0]) {
      ScanTotal(s[1..], None, word);
    } else if quote.None? && IsQuote(s[0]) {
      ScanTotal(s[1..], Some(s[0]), Some(OrEmpty(word)));
    } else if quote.None? && IsBlankChar(s[0]) {
      ScanTotal(s[1..], None, None);
      TotalCons(word, Scan(s[1..], None, None).value);
    } else {
      ScanTotal(s[1..], quote, Some(OrEmpty(word) + [s[0]]));
    }
  }

  /** What does not stand for itself at this place. */
  predicate IsSpecial(c: char, quote: Option<char>) {
    c == '\\' || quote == Some(c) || (quote.None? && (IsQuote(c) || IsBlankChar(c)))
  }

  /** Characters that stand for themselves are taken over. */
  lemma {:induction false} ScanPlain(a: string, b: string, quote: Option<char>, word: Option<string>)
    requires forall c | c in a :: !IsSpecial(c, quote)
    requires a != "" || word.Some?
    ensures Scan(a + b, quote, word) == Scan(b, quote, Some(OrEmpty(word) + a))
  {
    if a == "" {
      assert a + b == b && OrEmpty(word) + a == OrEmpty(word);
    } else {
      assert (a + b)[1..] == a[1..] + b && a[0] in a;
      ScanPlain(a[1..], b, quote, Some(OrEmpty(word) + [a[0]]));
      assert OrEmpty(word) + [a[0]] + a[1..] == OrEmpty(word) + a;
    }
  }

  /** Where something does not stand for itself, characters are lost. */
  lemma {:induction false} ScanLoses(s: string, word: Option<string>)
    requires Scan(s, None, word).Some? && exists c :: c in s && IsSpecial(c, None)
    ensures Total(Scan(s, None, word).value) < |OrEmpty(word)| + |s|
    decreases |s|
  {
    if s[0] == '\\' {
      ScanTotal(s[2..], None, Some(OrEmpty(word) + [s[1]]));
    } else if IsQuote(s[0]) {
      ScanTotal(s[1..], Some(s[0]), Some(OrEmpty(word)));
    } else if IsBlankChar(s[0]) {
      ScanTotal(s[1..], None, None);
      TotalCons(word, Scan(s[1..], None, None).value);
    } else {
      var c :| c in s && IsSpecial(c, None);
      assert c in s[1..];
      ScanLoses(s[1..], Some(OrEmpty(word) + [s[0]]));
    }
  }

  /** A text that ends in a double quote loses at least one character, wherever the reader stands. */
  lemma {:induction false} EndsInQuote(s: string, quote: Option<char>, word: Option<string>)
    requires s != "" && s[|s| - 1] == '"' && Scan(s, quote, word).Some?
    ensures Total(Scan(s, quote, word).value) < |OrEmpty(word)| + |s|
    decreases |s|
  {
    if s[0] == '\\' {
      ScanTotal(s[2..], quote, Some(OrEmpty(word) + [s[1]]));
    } else if quote == Some(s[0]) {
      ScanTotal(s[1..], None, word);
    } else if quote.None? && IsQuote(s[0]) {
      ScanTotal(s[1..], Some(s[0]), Some(OrEmpty(word)));
    } else if quote.None? && IsBlankChar(s[0]) {
      ScanTotal(s[1..], None, None);
      TotalCons(word, Scan(s[1..], None, None).value);
    } else if |s| > 1 {
      EndsInQuote(s[1..], quote, Some(OrEmpty(word) + [s[0]]));
    }
  }

  /** The same of a quoted text in which something else does not stand for itself. */
  lemma {:induction false} QuotedLoses(s: string, word: string)
    requires Scan(s + "\"", Some('"'), Some(word)).Some? && ('"' in s || '\\' in s)
    ensures Total(Scan(s + "\"", Some('"'), Some(word)).value) < |word| + |s|
    decreases |s|
  {
    var t := s + "\"";
    if s[0] == '\\' {
      assert t[2..] == if |s| > 1 then s[2..] + "\"" else "";
      if |s| > 1 {
        EndsInQuote(t[2..], Some('"'), Some(word + [t[1]]));
      }
    } else if s[0] == '"' {
      assert t[1..] == s[1..] + "\"";
      EndsInQuote(t[1..], None, Some(word));
    } else {
      assert t[1..] == s[1..] + "\"";
      assert '"' in s[1..] || '\\' in s[1..];
      QuotedLoses(s[1..], word + [s[0]]);
    }
  }

  /** The renderer puts an entry in quotes when there is a space in its value. */
  predicate IsQuoted(kv: string) {
    Equals(kv) >= 0 && ' ' in kv[Equals(kv) + 1..]
  }

  /** Entries that their line gives back. */
  ghost predicate ReadsBack(kv: string) {
    if IsQuoted(kv) then '"' !in kv && '\\' !in kv
    else kv != "" && forall c | c in kv :: !IsSpecial(c, None)
  }

  lemma QuotedReads(kv: string)
    requires IsQuoted(kv) && '"' !in kv && '\\' !in kv
    ensures Words(EnvText(kv)) == Some([kv])
  {
    assert EnvText(kv) == "\"" + (kv + "\"");
    hide Equals, EnvText, IsQuoted;
    ScanOpens(kv + "\"");
    ScanPlain(kv, "\"", Some('"'), Some(""));
    assert OrEmpty(Some("")) + kv == kv;
    ScanCloses(kv);
  }

  lemma ScanOpens(rest: string)
    ensures Words("\"" + rest) == Scan(rest, Some('"'), Some(""))
  {
    assert ("\"" + rest)[1..] == rest;
  }

  lemma ScanCloses(word: string)
    ensures Scan("\"", Some('"'), Some(word)) == Some([word])
  {
    assert "\""[1..] == "";
    assert Scan("", None, Some(word)) == Some([word]);
  }

  lemma PlainReads(kv: string)
    requires !IsQuoted(kv) && kv != "" && forall c | c in kv :: !IsSpecial(c, None)
    ensures Words(EnvText(kv)) == Some([kv])
  {
    ScanPlain(kv, "", None, None);
    assert kv + "" == kv && OrEmpty(None) + kv == kv;
    hide Equals;
    assert Scan("", None, Some(kv)) == Some([kv]);
  }

  lemma OneWord(kv: string)
    ensures Total([kv]) == |kv|
  {
    assert [kv][1..] == [];
  }

  /** The line of an entry is read as that entry and nothing else, if and only if the entry is not empty and
      has no quote, backslash or stray blank in it; in one with a space in its value, which is put in double
      quotes, single quotes and blanks do no harm. */
  lemma EnvLineReadsBack(kv: string)
    ensures Words(EnvText(kv)) == Some([kv]) <==> ReadsBack(kv)
  {
    OneWord(kv);
    if IsQuoted(kv) {
      var t := "\"" + kv + "\"";
      assert t[1..] == kv + "\"";
      if '"' !in kv && '\\' !in kv {
        QuotedReads(kv);
      } else if Words(EnvText(kv)).Some? {
        hide Equals;
        assert Words(t) == Scan(kv + "\"", Some('"'), Some(""));
        QuotedLoses(kv, "");
      }
    } else if kv == "" {
      assert EnvText("") == "";
    } else if forall c | c in kv :: !IsSpecial(c, None) {
      PlainReads(kv);
    } else if Words(EnvText(kv)).Some? {
      hide Equals;
      ScanLoses(kv, None);
    }
  }

  /** What all the lines together say. */
  function WordsOf(lines: seq<string>): Option<seq<string>> {
    if lines == [] then Some([])
    else
      var before, last := WordsOf(lines[..|lines| - 1]), Words(lines[|lines| - 1]);
      if before.Some? && last.Some? then Some(before.value + last.value) else None
  }

  /** An entry whose value is put in quotes loses them. */
  lemma QuotesAreLost()
    ensures EnvText("A=\"b\"") == "A=\"b\"" && Words("A=\"b\"") == Some(["A=b"])
  {
    assert "A=\"b\"" == "A=" + "\"b\"" && Equals("A=\"b\"") == 1;
    ScanPlain("A=", "\"b\"", None, None);
    assert OrEmpty(None) + "A=" == "A=";
    assert "\"b\""[1..] == "b\"" && "b\""[1..] == "\"" && "\""[1..] == "";
    assert Scan("", None, Some("A=b")) == Some(["A=b"]);
    assert Scan("\"", Some('"'), Some("A=b")) == Some(["A=b"]);
    assert "A=" + ['b'] == "A=b";
    assert Scan("b\"", Some('"'), Some("A=")) == Some(["A=b"]);
    assert Scan("\"b\"", None, Some("A=")) == Some(["A=b"]);
  }

  lemma {:induction false} EnvTextsReadBack(env: seq<string>)
    requires forall kv | kv in env :: ReadsBack(kv)
    ensures WordsOf(EnvTexts(env)) == Some(env)
  {
    hide Words, EnvText, ReadsBack;
    if env != [] {
      var front, last := env[..|env| - 1], env[|env| - 1];
      assert EnvTexts(env)[..|env| - 1] == EnvTexts(front);
      EnvTextsReadBack(front);
      assert last in env;
      EnvLineReadsBack(last);
      assert env == front + [last];
    } else {
      assert EnvTexts([]) == [];
    }
  }
}
