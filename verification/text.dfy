/** Byte-wise order, sorting and line-wise joining of strings. */
module Text {
  predicate LexLess(a: string, b: string) {
    if b == [] then false
    else if a == [] then true
    else a[0] < b[0] || (a[0] == b[0] && LexLess(a[1..], b[1..]))
  }

  lemma {:induction false} LexTotal(a: string, b: string)
    ensures !LexLess(a, a)
    ensures a == b || LexLess(a, b) || LexLess(b, a)
    ensures !(LexLess(a, b) && LexLess(b, a))
  {
    if a != [] {
      LexTotal(a[1..], if b == [] then [] else b[1..]);
    }
    if a != [] && b != [] && a[0] == b[0] && a[1..] == b[1..] {
      assert a == [a[0]] + a[1..] == b;
    }
  }

  lemma {:induction false} LexTransitive(a: string, b: string, c: string)
    requires LexLess(a, b) && LexLess(b, c)
    ensures LexLess(a, c)
  {
    if a != [] && a[0] == b[0] == c[0] {
      LexTransitive(a[1..], b[1..], c[1..]);
    }
  }

  // ---------- sorting ----------

  ghost predicate Ascending(s: seq<string>) {
    forall i, j :: 0 <= i < j < |s| ==> !LexLess(s[j], s[i])
  }

  function Inserted(x: string, s: seq<string>): (r: seq<string>)
    ensures multiset(r) == multiset(s) + multiset{x}
  {
    if s == [] then [x]
    else if LexLess(s[0], x) then
      assert s == [s[0]] + s[1..];
      [s[0]] + Inserted(x, s[1..])
    else [x] + s
  }

  function Sorted(s: seq<string>): (r: seq<string>)
    ensures multiset(r) == multiset(s)
  {
    if s == [] then []
    else
      assert s == [s[0]] + s[1..];
      Inserted(s[0], Sorted(s[1..]))
  }

  lemma {:induction false} InsertedAscends(x: string, s: seq<string>)
    requires Ascending(s)
    ensures Ascending(Inserted(x, s))
  {
    hide LexLess;
    var r := Inserted(x, s);
    if s == [] {
    } else if LexLess(s[0], x) {
      InsertedAscends(x, s[1..]);
      var rest := Inserted(x, s[1..]);
      forall j | 0 < j < |r|
        ensures !LexLess(r[j], r[0])
      {
        assert rest[j - 1] in multiset(rest);
        if rest[j - 1] == x {
          LexTotal(s[0], x);
        } else {
          assert rest[j - 1] in multiset(s[1..]);
          var k :| 0 <= k < |s[1..]| && s[1..][k] == rest[j - 1];
          assert s[k + 1] == rest[j - 1];
        }
      }
    } else {
      forall j | 0 < j < |r|
        ensures !LexLess(r[j], x)
      {
        LexTotal(x, s[j - 1]);
        LexTotal(x, s[0]);
        if LexLess(s[j - 1], x) && j > 1 {
          LexTotal(s[0], s[j - 1]);
          if LexLess(s[0], s[j - 1]) {
            LexTransitive(s[0], s[j - 1], x);
          }
        }
      }
    }
  }

  lemma {:induction false} SortedAscends(s: seq<string>)
    ensures Ascending(Sorted(s))
  {
    if s != [] {
      SortedAscends(s[1..]);
      InsertedAscends(s[0], Sorted(s[1..]));
    }
  }

  lemma FirstIsLeast(a: seq<string>, x: string)
    requires Ascending(a) && x in multiset(a)
    ensures !LexLess(x, a[0])
  {
    hide LexLess;
    var i :| 0 <= i < |a| && a[i] == x;
    LexTotal(x, x);
  }

  lemma WithoutFirst(a: seq<string>)
    requires a != []
    ensures multiset(a[1..]) == multiset(a) - multiset{a[0]}
  {
    assert a == [a[0]] + a[1..];
  }

  /** Only one order of the same strings ascends. */
  lemma {:induction false} AscendingIsUnique(a: seq<string>, b: seq<string>)
    requires Ascending(a) && Ascending(b) && multiset(a) == multiset(b)
    ensures a == b
  {
    hide LexLess;
    assert |a| == |multiset(a)| == |multiset(b)| == |b|;
    if a != [] {
      assert a[0] in multiset(b) && b[0] in multiset(a);
      FirstIsLeast(a, b[0]);
      FirstIsLeast(b, a[0]);
      LexTotal(a[0], b[0]);
      WithoutFirst(a);
      WithoutFirst(b);
      AscendingIsUnique(a[1..], b[1..]);
      assert a == [a[0]] + a[1..] && b == [b[0]] + b[1..];
    }
  }

  /** Sorting forgets the order and nothing else. */
  lemma SortedIff(a: seq<string>, b: seq<string>)
    ensures Sorted(a) == Sorted(b) <==> multiset(a) == multiset(b)
  {
    SortedAscends(a);
    SortedAscends(b);
    if multiset(a) == multiset(b) {
      AscendingIsUnique(Sorted(a), Sorted(b));
    }
  }

  // ---------- joining ----------

  predicate OneLine(s: string) {
    '\n' !in s
  }

  /** The lines with a line break between any two. */
  function Join(lines: seq<string>): string {
    if lines == [] then ""
    else if |lines| == 1 then lines[0]
    else lines[0] + "\n" + Join(lines[1..])
  }

  /** A text splits at its first line break in one way only. */
  lemma FirstLine(a: string, x: string, b: string, y: string)
    requires OneLine(a) && OneLine(b) && a + "\n" + x == b + "\n" + y
    ensures a == b && x == y
  {
    var t := a + "\n" + x;
    assert t[|a|] == '\n' && t[|b|] == '\n';
    assert |a| == |b|;
    assert a == t[..|a|] && b == t[..|b|];
    assert x == t[|a| + 1..] && y == t[|b| + 1..];
  }

  predicate Lines(s: seq<string>) {
    forall i :: 0 <= i < |s| ==> s[i] != "" && OneLine(s[i])
  }

  lemma BreaksBetween(lines: seq<string>)
    requires Lines(lines)
    ensures |lines| > 1 <==> '\n' in Join(lines)
    ensures lines == [] <==> Join(lines) == ""
  {
    if |lines| > 1 {
      assert Join(lines)[|lines[0]|] == '\n';
    }
  }

  /** Nonempty strings without line breaks can be read back from their join. */
  lemma {:induction false} JoinIsInjective(a: seq<string>, b: seq<string>)
    requires Lines(a) && Lines(b) && Join(a) == Join(b)
    ensures a == b
  {
    BreaksBetween(a);
    BreaksBetween(b);
    if |a| > 1 && |b| > 1 {
      FirstLine(a[0], Join(a[1..]), b[0], Join(b[1..]));
      JoinIsInjective(a[1..], b[1..]);
      assert a == [a[0]] + a[1..] && b == [b[0]] + b[1..];
    }
  }

  /** A text splits at its last line break in one way only. */
  lemma LastLine(a: string, x: string, b: string, y: string)
    requires OneLine(x) && OneLine(y) && a + "\n" + x == b + "\n" + y
    ensures a == b && x == y
  {
    var t := a + "\n" + x;
    assert t[|a|] == '\n' && t[|b|] == '\n';
    assert forall i :: |a| < i < |t| ==> t[i] == x[i - |a| - 1];
    assert forall i :: |b| < i < |t| ==> t[i] == y[i - |b| - 1];
    assert |a| == |b|;
    assert a == t[..|a|] && b == t[..|b|];
    assert x == t[|a| + 1..] && y == t[|b| + 1..];
  }
}
