/** The index-wise diff shown before a configuration change is committed
    (cmd/ownbasectl/configrepo.go), and its inverse: both documents can be read back off it. */
module Diff {
  import opened Text

  /** The marked lines for two documents, compared line by line at equal positions. */
  function Marked(before: seq<string>, after: seq<string>): seq<string>
    decreases |before| + |after|
  {
    if before == [] && after == [] then []
    else if before == [] then ["+" + after[0]] + Marked([], after[1..])
    else if after == [] then ["-" + before[0]] + Marked(before[1..], [])
    else if before[0] == after[0] then [" " + before[0]] + Marked(before[1..], after[1..])
    else ["-" + before[0], "+" + after[0]] + Marked(before[1..], after[1..])
  }

  /** No line is shown as removed and, right after, as added again: where the documents agree, the line is
      shown once. */
  lemma {:induction false} AgreesOnce(before: seq<string>, after: seq<string>, k: nat, x: string)
    requires k + 1 < |Marked(before, after)|
    ensures Marked(before, after)[k] == "-" + x ==> Marked(before, after)[k + 1] != "+" + x
    decreases |before| + |after|
  {
    var m := Marked(before, after);
    if before == [] {
      OnlyAdded(after, k);
    } else if after == [] {
      OnlyRemoved(before, k + 1);
    } else {
      var rest := Marked(before[1..], after[1..]);
      if before[0] == after[0] {
        assert m == [" " + before[0]] + rest;
        if k > 0 {
          AgreesOnce(before[1..], after[1..], k - 1, x);
        } else {
          assert m[0][0] == ' ' && ("-" + x)[0] == '-';
        }
      } else {
        assert m == ["-" + before[0], "+" + after[0]] + rest;
        if k == 0 {
          assert m[0][1..] == before[0] && m[1][1..] == after[0];
          assert ("-" + x)[1..] == x && ("+" + x)[1..] == x;
        } else if k == 1 {
          assert m[1][0] == '+' && ("-" + x)[0] == '-';
        } else {
          AgreesOnce(before[1..], after[1..], k - 2, x);
        }
      }
    }
  }

  lemma {:induction false} OnlyAdded(after: seq<string>, k: nat)
    requires k < |Marked([], after)|
    ensures Marked([], after)[k] != "" && Marked([], after)[k][0] == '+'
    decreases |after|
  {
    if k > 0 {
      OnlyAdded(after[1..], k - 1);
    }
  }

  lemma {:induction false} OnlyRemoved(before: seq<string>, k: nat)
    requires k < |Marked(before, [])|
    ensures Marked(before, [])[k] != "" && Marked(before, [])[k][0] == '-'
    decreases |before|
  {
    if before != [] && k > 0 {
      OnlyRemoved(before[1..], k - 1);
    }
  }

  function From<T>(s: seq<T>, i: nat): seq<T> {
    if i <= |s| then s[i..] else []
  }

  method UnifiedDiff(name: string, before: string, after: string) returns (text: string)
    ensures before == after ==> text == ""
    ensures before != after ==>
      text == Unlines(["--- a/" + name, "+++ b/" + name] + Marked(Split(before, '\n'), Split(after, '\n')))
    ensures before != after && '\n' !in name ==> Replay(text, '-') == before && Replay(text, '+') == after
  {
    if before == after {
      return "";
    }
    var header := ["--- a/" + name, "+++ b/" + name];
    var b := "--- a/" + name + "\n" + "+++ b/" + name + "\n";
    var beforeLines, afterLines := Split(before, '\n'), Split(after, '\n');
    var n := |beforeLines|;
    if |afterLines| > n {
      n := |afterLines|;
    }
    ghost var done: seq<string> := [];
    TwoLines(header[0], header[1]);
    assert header + done == header;
    hide Marked, Split, Unlines, Replay;
    for i := 0 to n
      invariant b == Unlines(header + done)
      invariant done + Marked(From(beforeLines, i), From(afterLines, i)) == Marked(beforeLines, afterLines)
    {
      var oldLine, newLine := "", "";
      if i < |beforeLines| {
        oldLine := beforeLines[i];
      }
      if i < |afterLines| {
        newLine := afterLines[i];
      }
      ghost var lines: seq<string>;
      ghost var was := b;
      if i >= |beforeLines| {
        b := b + ("+" + newLine + "\n");
        lines := ["+" + newLine];
        OneLine("+" + newLine);
      } else if i >= |afterLines| {
        b := b + ("-" + oldLine + "\n");
        lines := ["-" + oldLine];
        OneLine("-" + oldLine);
      } else if oldLine == newLine {
        b := b + (" " + oldLine + "\n");
        lines := [" " + oldLine];
        OneLine(" " + oldLine);
      } else {
        b := b + ("-" + oldLine + "\n");
        b := b + ("+" + newLine + "\n");
        lines := ["-" + oldLine, "+" + newLine];
        TwoLines("-" + oldLine, "+" + newLine);
        Associative(was, "-" + oldLine + "\n", "+" + newLine + "\n");
      }
      assert b == was + Unlines(lines);
      MarkedStep(beforeLines, afterLines, i);
      UnlinesAppend(header + done, lines);
      Associative(header, done, lines);
      Associative(done, lines, Marked(From(beforeLines, i + 1), From(afterLines, i + 1)));
      done := done + lines;
    }
    assert From(beforeLines, n) == [] && From(afterLines, n) == [];
    NothingMarked();
    assert done + [] == done;
    if '\n' !in name {
      DiffReplays(name, before, after, b);
    }
    return b;
  }

  lemma NothingMarked()
    ensures Marked([], []) == []
  {
  }

  lemma Associative<T>(a: seq<T>, b: seq<T>, c: seq<T>)
    ensures a + b + c == a + (b + c)
  {
  }

  lemma OneLine(a: string)
    ensures Unlines([a]) == a + "\n"
  {
    assert [a][1..] == [];
    assert a + "\n" + Unlines([]) == a + "\n";
  }

  lemma TwoLines(a: string, b: string)
    ensures Unlines([a, b]) == (a + "\n") + (b + "\n")
  {
    OneLine(b);
    assert [a, b][1..] == [b];
  }

  lemma MarkedStep(before: seq<string>, after: seq<string>, i: nat)
    requires i < |before| || i < |after|
    ensures Marked(From(before, i), From(after, i)) ==
      (if i >= |before| then ["+" + after[i]]
       else if i >= |after| then ["-" + before[i]]
       else if before[i] == after[i] then [" " + before[i]]
       else ["-" + before[i], "+" + after[i]])
      + Marked(From(before, i + 1), From(after, i + 1))
  {
    assert i < |before| ==> From(before, i)[1..] == From(before, i + 1);
    assert i < |after| ==> From(after, i)[1..] == From(after, i + 1);
    assert i >= |before| ==> From(before, i) == [] && From(before, i + 1) == [];
    assert i >= |after| ==> From(after, i) == [] && From(after, i + 1) == [];
  }

  // ------------------------------------------------------------------------------- replay

  /** Keeps the common lines and those marked with `mark`, without their marks. */
  function Keep(lines: seq<string>, mark: char): seq<string> {
    if lines == [] then []
    else
      var rest := Keep(lines[1..], mark);
      if lines[0] != "" && (lines[0][0] == ' ' || lines[0][0] == mark) then [lines[0][1..]] + rest else rest
  }

  /** One side of a diff: its lines after the two of the header and before the final newline. */
  function Replay(text: string, mark: char): string {
    var lines := Split(text, '\n');
    if |lines| < 3 then "" else Join(Keep(lines[2..|lines| - 1], mark), '\n')
  }

  lemma {:induction false} KeepMarked(before: seq<string>, after: seq<string>)
    ensures Keep(Marked(before, after), '-') == before
    ensures Keep(Marked(before, after), '+') == after
    decreases |before| + |after|
  {
    var lines := Marked(before, after);
    if before == [] && after == [] {
    } else if before == [] {
      KeepMarked([], after[1..]);
      assert lines[1..] == Marked([], after[1..]) && lines[0][1..] == after[0];
    } else if after == [] {
      KeepMarked(before[1..], []);
      assert lines[1..] == Marked(before[1..], []) && lines[0][1..] == before[0];
    } else {
      KeepMarked(before[1..], after[1..]);
      var rest := Marked(before[1..], after[1..]);
      assert lines[0][1..] == before[0];
      if before[0] == after[0] {
        assert lines[1..] == rest;
      } else {
        assert lines[1..] == ["+" + after[0]] + rest && lines[1..][1..] == rest;
        assert lines[1..][0][1..] == after[0];
      }
    }
  }

  lemma {:induction false} MarkedFree(before: seq<string>, after: seq<string>)
    requires AllFree(before, '\n') && AllFree(after, '\n')
    ensures AllFree(Marked(before, after), '\n')
    decreases |before| + |after|
  {
    if before != [] || after != [] {
      assert before != [] ==> before[0] in before && AllFree(before[1..], '\n');
      assert after != [] ==> after[0] in after && AllFree(after[1..], '\n');
      MarkedFree(if before == [] then [] else before[1..], if after == [] then [] else after[1..]);
      assert forall l: string, c: char | '\n' !in l && c != '\n' :: '\n' !in [c] + l;
    }
  }

  /** The diff of two different documents contains both of them, whatever their lengths. */
  lemma DiffReplays(name: string, before: string, after: string, text: string)
    requires '\n' !in name && before != after
    requires text == Unlines(["--- a/" + name, "+++ b/" + name] + Marked(Split(before, '\n'), Split(after, '\n')))
    ensures Replay(text, '-') == before && Replay(text, '+') == after
  {
    var a, b := Split(before, '\n'), Split(after, '\n');
    var header, lines := ["--- a/" + name, "+++ b/" + name], Marked(a, b);
    MarkedFree(a, b);
    assert AllFree(header, '\n');
    assert AllFree(header + lines, '\n');
    SplitUnlines(header + lines);
    var all := Split(text, '\n');
    assert all == header + lines + [""];
    assert all[2..|all| - 1] == lines;
    KeepMarked(a, b);
    JoinSplit(before, '\n');
    JoinSplit(after, '\n');
  }
}
