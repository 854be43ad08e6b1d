/** String order and sorting, as in Go's `sort` package: strings compare element by element, and a
    sorted slice is determined by what is in it, whatever order it was collected in. */
module Order {

  /** `a < b` on strings. */
  predicate Less(a: string, b: string)
    decreases |a|
  {
    b != "" && (a == "" || a[0] < b[0] || (a[0] == b[0] && Less(a[1..], b[1..])))
  }

  lemma {:induction false} LessTotal(a: string, b: string)
    ensures (Less(a, b) || a == b || Less(b, a)) && !(Less(a, b) && Less(b, a)) && !Less(a, a)
    decreases |a|
  {
    if a != "" && b != "" {
      LessTotal(a[1..], b[1..]);
      assert a == [a[0]] + a[1..] && b == [b[0]] + b[1..];
    } else if a != "" {
      LessTotal(a[1..], "");
    }
  }

  lemma {:induction false} LessTransitive(a: string, b: string, c: string)
    requires Less(a, b) && Less(b, c)
    ensures Less(a, c)
    decreases |a|
  {
    if a != "" && a[0] == b[0] == c[0] {
      LessTransitive(a[1..], b[1..], c[1..]);
    }
  }

  function Elems<T(==)>(s: seq<T>): set<T> {
    set x | x in s
  }

  lemma ElemsAppend<T>(a: seq<T>, b: seq<T>)
    ensures Elems(a + b) == Elems(a) + Elems(b)
  {
    forall x ensures x in Elems(a + b) <==> x in Elems(a) + Elems(b) {
      assert x in a + b <==> x in a || x in b;
    }
  }

  ghost predicate Distinct<T>(s: seq<T>) {
    forall i, j | 0 <= i < j < |s| :: s[i] != s[j]
  }

  ghost predicate Ordered(s: seq<string>) {
    forall i, j | 0 <= i < j < |s| :: !Less(s[j], s[i])
  }

  ghost predicate Increasing(s: seq<string>) {
    forall i, j | 0 <= i < j < |s| :: Less(s[i], s[j])
  }

  /** `s` without repetitions, each element where it first occurs. */
  function Dedup<T(==)>(s: seq<T>): seq<T> {
    if s == [] then []
    else
      var front := Dedup(s[..|s| - 1]);
      if s[|s| - 1] in front then front else front + [s[|s| - 1]]
  }

  lemma {:induction false} DedupMeans<T>(s: seq<T>)
    ensures Distinct(Dedup(s)) && Elems(Dedup(s)) == Elems(s)
  {
    if s != [] {
      var front, x := s[..|s| - 1], s[|s| - 1];
      DedupMeans(front);
      ElemsAppend(front, [x]);
      assert s == front + [x];
      assert x in Dedup(front) <==> x in Elems(Dedup(front));
      ElemsAppend(Dedup(front), [x]);
    }
  }

  lemma DedupStep<T>(s: seq<T>, i: nat)
    requires i < |s|
    ensures Dedup(s[..i + 1]) == if s[i] in Dedup(s[..i]) then Dedup(s[..i]) else Dedup(s[..i]) + [s[i]]
  {
    assert s[..i + 1][..i] == s[..i];
  }

  // ------------------------------------------------------------------------------- sorting

  function Insert(x: string, s: seq<string>): seq<string> {
    if s == [] then [x]
    else if Less(s[0], x) then [s[0]] + Insert(x, s[1..])
    else [x] + s
  }

  /** sort.Strings. */
  function Sort(s: seq<string>): seq<string> {
    if s == [] then [] else Insert(s[0], Sort(s[1..]))
  }

  lemma {:induction false} InsertKeepsOrder(x: string, s: seq<string>)
    requires Ordered(s)
    ensures Ordered(Insert(x, s)) && multiset(Insert(x, s)) == multiset([x] + s)
  {
    if s != [] {
      var head, tail := s[0], s[1..];
      assert s == [head] + tail;
      LessTotal(head, x);
      if Less(head, x) {
        var rest := Insert(x, tail);
        InsertKeepsOrder(x, tail);
        assert multiset([x] + s) == multiset([head]) + multiset([x] + tail);
        forall j | 0 <= j < |rest| ensures !Less(rest[j], head) {
          assert rest[j] in multiset(rest);
          if rest[j] != x {
            assert rest[j] in tail;
          }
        }
      } else {
        forall j | 0 <= j < |s| ensures !Less(s[j], x) {
          if Less(s[j], x) {
            LessTotal(x, head);
            if x != head {
              LessTransitive(s[j], x, head);
            }
          }
        }
      }
    }
  }

  /** The result is in order and holds the same strings. */
  lemma {:induction false} SortSorts(s: seq<string>)
    ensures Ordered(Sort(s)) && multiset(Sort(s)) == multiset(s)
  {
    if s != [] {
      SortSorts(s[1..]);
      InsertKeepsOrder(s[0], Sort(s[1..]));
      assert s == [s[0]] + s[1..];
    }
  }

  /** Only one arrangement of the same strings is in order. */
  lemma {:induction false} OrderedUnique(a: seq<string>, b: seq<string>)
    requires Ordered(a) && Ordered(b) && multiset(a) == multiset(b)
    ensures a == b
  {
    assert |a| == |multiset(a)| == |multiset(b)| == |b|;
    if a != [] {
      FirstIsLeast(a, b[0]);
      FirstIsLeast(b, a[0]);
      LessTotal(a[0], b[0]);
      assert a == [a[0]] + a[1..] && b == [b[0]] + b[1..];
      assert multiset(a[1..]) == multiset(a) - multiset([a[0]]);
      assert multiset(b[1..]) == multiset(b) - multiset([b[0]]);
      OrderedUnique(a[1..], b[1..]);
    }
  }

  lemma FirstIsLeast(s: seq<string>, x: string)
    requires Ordered(s) && s != [] && (x in multiset(s) || x in s)
    ensures !Less(x, s[0])
  {
    var k :| 0 <= k < |s| && s[k] == x;
    LessTotal(x, x);
  }

  /** So the order in which a slice was filled does not matter once it is sorted. */
  lemma SortForgetsOrder(a: seq<string>, b: seq<string>)
    requires multiset(a) == multiset(b)
    ensures Sort(a) == Sort(b)
  {
    SortSorts(a);
    SortSorts(b);
    OrderedUnique(Sort(a), Sort(b));
  }

  lemma SortDistinct(s: seq<string>)
    requires Distinct(s)
    ensures Increasing(Sort(s)) && Elems(Sort(s)) == Elems(s) && |Sort(s)| == |s|
  {
    var t := Sort(s);
    SortSorts(s);
    assert |t| == |multiset(t)| == |multiset(s)| == |s|;
    forall x ensures x in t <==> x in s {
      assert x in t <==> x in multiset(t);
      assert x in s <==> x in multiset(s);
    }
    forall i, j | 0 <= i < j < |t| ensures Less(t[i], t[j]) {
      LessTotal(t[i], t[j]);
      if t[i] == t[j] {
        OnceEach(s, t[i]);
        TwiceThere(t, i, j);
        assert false;
      }
    }
  }

  lemma {:induction false} OnceEach<T>(s: seq<T>, x: T)
    requires Distinct(s)
    ensures multiset(s)[x] <= 1
  {
    if s != [] {
      var front := s[..|s| - 1];
      assert s == front + [s[|s| - 1]];
      OnceEach(front, x);
      if x == s[|s| - 1] {
        assert x !in front;
        assert x !in multiset(front);
      }
    }
  }

  lemma TwiceThere<T>(s: seq<T>, i: nat, j: nat)
    requires i < j < |s| && s[i] == s[j]
    ensures multiset(s)[s[i]] >= 2
  {
    assert s == s[..j] + s[j..];
    assert s[i] in s[..j] && s[j] in s[j..];
    assert multiset(s[..j])[s[i]] >= 1 && multiset(s[j..])[s[i]] >= 1;
  }

  /** A strictly increasing slice is determined by the set of its elements. */
  lemma IncreasingUnique(a: seq<string>, b: seq<string>)
    requires Increasing(a) && Increasing(b) && Elems(a) == Elems(b)
    ensures a == b
  {
    forall x ensures multiset(a)[x] == multiset(b)[x] {
      IncreasingDistinct(a);
      IncreasingDistinct(b);
      OnceEach(a, x);
      OnceEach(b, x);
      assert x in multiset(a) <==> x in a;
      assert x in multiset(b) <==> x in b;
      assert x in Elems(a) <==> x in Elems(b);
    }
    assert multiset(a) == multiset(b);
    IncreasingDistinct(a);
    IncreasingDistinct(b);
    OrderedUnique(a, b);
  }

  lemma IncreasingDistinct(s: seq<string>)
    requires Increasing(s)
    ensures Distinct(s) && Ordered(s)
  {
    forall i, j | 0 <= i < j < |s| ensures s[i] != s[j] && !Less(s[j], s[i]) {
      LessTotal(s[i], s[j]);
    }
  }

  // ---------------------------------------------------------------------------- sorted sets

  ghost function Enumerate(s: set<string>): (r: seq<string>)
    ensures Distinct(r) && Elems(r) == s
  {
    if s == {} then []
    else
      var x :| x in s;
      var front := Enumerate(s - {x});
      assert x !in Elems(front);
      ElemsAppend(front, [x]);
      front + [x]
  }

  /** The elements of `s` in increasing order. */
  ghost function SortedSet(s: set<string>): (r: seq<string>)
    ensures Increasing(r) && Elems(r) == s
  {
    SortDistinct(Enumerate(s));
    Sort(Enumerate(s))
  }

  lemma SortedSetIs(s: seq<string>, elems: set<string>)
    requires Increasing(s) && Elems(s) == elems
    ensures s == SortedSet(elems)
  {
    IncreasingUnique(s, SortedSet(elems));
  }

  /** sortedKeys (internal/compiler/build.go): the loop over the map may take its keys in any order. */
  method SortedKeys<V>(m: map<string, V>) returns (keys: seq<string>)
    ensures keys == SortedSet(m.Keys)
  {
    keys := [];
    var rest := m.Keys;
    while rest != {}
      invariant rest <= m.Keys && Elems(keys) == m.Keys - rest && Distinct(keys)
    {
      var k :| k in rest;
      assert k !in Elems(keys);
      ElemsAppend(keys, [k]);
      keys := keys + [k];
      rest := rest - {k};
    }
    SortDistinct(keys);
    keys := Sort(keys);
    SortedSetIs(keys, m.Keys);
  }
}
