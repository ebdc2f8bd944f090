/** Scrubbing of audit fields. A character here is one ASCII byte. */
module AuditText {

  const FIELD_LIMIT := 256

  predicate IsSpace(c: char) {
    c == ' ' || 0x09 <= c as int <= 0x0d
  }

  function TrimLeft(s: string): string {
    if s != [] && IsSpace(s[0]) then TrimLeft(s[1..]) else s
  }

  function TrimRight(s: string): string {
    if s != [] && IsSpace(s[|s| - 1]) then TrimRight(s[..|s| - 1]) else s
  }

  function Trim(s: string): string {
    TrimRight(TrimLeft(s))
  }

  /** Line breaks and tabs become blanks; other control characters go. */
  function DropControls(s: string): string {
    if s == [] then []
    else if s[0] == '\r' || s[0] == '\n' || s[0] == '\t' then " " + DropControls(s[1..])
    else if s[0] as int < 0x20 || s[0] as int == 0x7f then DropControls(s[1..])
    else [s[0]] + DropControls(s[1..])
  }

  function WordLength(s: string): (n: nat)
    ensures n <= |s|
    ensures forall i :: 0 <= i < n ==> !IsSpace(s[i])
    ensures n < |s| ==> IsSpace(s[n])
  {
    if s == [] || IsSpace(s[0]) then 0 else 1 + WordLength(s[1..])
  }

  function Fields(s: string): seq<string>
    decreases |s|
  {
    if s == [] then []
    else if IsSpace(s[0]) then Fields(s[1..])
    else
      var n := WordLength(s);
      [s[..n]] + Fields(s[n..])
  }

  function Join(words: seq<string>): string {
    if words == [] then []
    else if |words| == 1 then words[0]
    else words[0] + " " + Join(words[1..])
  }

  function Scrub(value: string): string {
    var t := DropControls(Trim(value));
    if |t| > FIELD_LIMIT then t[..FIELD_LIMIT] else Join(Fields(t))
  }

  // ---------- what scrubbing leaves ----------

  predicate Printable(s: string) {
    forall i :: 0 <= i < |s| ==> 0x20 <= s[i] as int && s[i] as int != 0x7f
  }

  /** Printable words separated by single blanks. */
  predicate Clean(s: string) {
    && Printable(s)
    && (s != [] ==> s[0] != ' ' && s[|s| - 1] != ' ')
    && (forall i :: 0 <= i < |s| - 1 ==> !(s[i] == ' ' && s[i + 1] == ' '))
  }

  lemma {:induction false} DropControlsPrintable(s: string)
    ensures Printable(DropControls(s))
    ensures Printable(s) ==> DropControls(s) == s
  {
    if s != [] {
      DropControlsPrintable(s[1..]);
      assert s == [s[0]] + s[1..];
    }
  }

  lemma {:induction false} TrimLeftIsPart(s: string)
    ensures |TrimLeft(s)| <= |s|
    ensures Printable(s) ==> Printable(TrimLeft(s))
  {
    if s != [] {
      TrimLeftIsPart(s[1..]);
    }
  }

  lemma {:induction false} TrimRightIsPart(s: string)
    ensures |TrimRight(s)| <= |s|
    ensures Printable(s) ==> Printable(TrimRight(s))
  {
    if s != [] {
      TrimRightIsPart(s[..|s| - 1]);
    }
  }

  ghost predicate AreWords(words: seq<string>) {
    forall k :: 0 <= k < |words| ==> words[k] != [] && Printable(words[k]) && forall i :: 0 <= i < |words[k]| ==> words[k][i] != ' '
  }

  lemma {:induction false} FieldsAreWords(s: string)
    requires Printable(s)
    ensures AreWords(Fields(s))
    ensures |Join(Fields(s))| <= |s|
    decreases |s|
  {
    if s != [] {
      if IsSpace(s[0]) {
        FieldsAreWords(s[1..]);
      } else {
        var n := WordLength(s);
        FieldsAreWords(s[n..]);
        if n < |s| {
          assert Fields(s[n..]) == Fields(s[n..][1..]);
          FieldsAreWords(s[n..][1..]);
        }
        assert Fields(s)[1..] == Fields(s[n..]);
      }
    }
  }

  lemma {:induction false} JoinIsClean(words: seq<string>)
    requires AreWords(words)
    ensures Clean(Join(words))
    ensures words != [] ==> Join(words) != []
  {
    if |words| > 1 {
      JoinIsClean(words[1..]);
      var rest := Join(words[1..]);
      assert Join(words) == words[0] + " " + rest;
    }
  }

  lemma CleanAfterBlank(s: string, n: nat)
    requires Clean(s) && n < |s| && IsSpace(s[n])
    ensures s[n] == ' ' && n + 1 < |s| && Clean(s[n + 1..])
    ensures s == s[..n] + " " + s[n + 1..]
  {
    var rest := s[n + 1..];
    assert n + 1 < |s| ==> rest[0] == s[n + 1];
    assert forall i :: 0 <= i < |rest| ==> rest[i] == s[n + 1 + i];
  }

  /** The first word and the fields of what follows the blank after it. */
  lemma FirstWord(s: string, n: nat)
    requires s != [] && !IsSpace(s[0]) && n == WordLength(s) < |s|
    ensures Fields(s) == [s[..n]] + Fields(s[n + 1..])
  {
    assert s[n..][1..] == s[n + 1..];
  }

  /** Clean text survives splitting and joining. */
  lemma {:induction false} JoinFieldsOfClean(s: string)
    requires Clean(s)
    ensures Join(Fields(s)) == s
    decreases |s|
  {
    if s != [] {
      assert !IsSpace(s[0]);
      var n := WordLength(s);
      if n == |s| {
        assert s[..n] == s;
        assert Fields(s[n..]) == [];
      } else {
        FirstWord(s, n);
        CleanAfterBlank(s, n);
        hide Clean, Fields, IsSpace, WordLength;
        var rest := s[n + 1..];
        JoinFieldsOfClean(rest);
        assert Fields(rest) != [];
        assert Fields(s)[1..] == Fields(rest);
      }
    }
  }

  /** Clean text that fits is left alone. */
  lemma ScrubKeepsClean(s: string)
    requires Clean(s) && |s| <= FIELD_LIMIT
    ensures Scrub(s) == s
  {
    if s != [] {
      assert !IsSpace(s[0]) && !IsSpace(s[|s| - 1]);
    }
    DropControlsPrintable(s);
    JoinFieldsOfClean(s);
  }

  lemma CollapseIsClean(t: string)
    requires Printable(t)
    ensures Clean(Join(Fields(t))) && |Join(Fields(t))| <= |t|
  {
    FieldsAreWords(t);
    JoinIsClean(Fields(t));
  }

  /** One pass leaves printable text within the limit; a second pass makes it clean. */
  lemma ScrubTwiceIsClean(value: string)
    ensures Clean(Scrub(Scrub(value))) && |Scrub(Scrub(value))| <= FIELD_LIMIT
  {
    var t := DropControls(Trim(value));
    DropControlsPrintable(Trim(value));
    if |t| <= FIELD_LIMIT {
      CollapseIsClean(t);
      ScrubKeepsClean(Scrub(value));
    } else {
      var s := t[..FIELD_LIMIT];
      TrimLeftIsPart(s);
      TrimRightIsPart(TrimLeft(s));
      DropControlsPrintable(Trim(s));
      CollapseIsClean(Trim(s));
    }
  }

  /** Scrubbing settles after two passes. */
  lemma ScrubSettles(value: string)
    ensures Scrub(Scrub(Scrub(value))) == Scrub(Scrub(value))
  {
    ScrubTwiceIsClean(value);
    ScrubKeepsClean(Scrub(Scrub(value)));
  }

  /** One pass is enough exactly when truncation was not needed or cut at clean text. */
  lemma OnePassSettlesIff(value: string)
    ensures var t := DropControls(Trim(value));
            Scrub(Scrub(value)) == Scrub(value) <==> |t| <= FIELD_LIMIT || Clean(t[..FIELD_LIMIT])
  {
    var t := DropControls(Trim(value));
    DropControlsPrintable(Trim(value));
    ScrubTwiceIsClean(value);
    if |t| <= FIELD_LIMIT {
      CollapseIsClean(t);
      ScrubKeepsClean(Scrub(value));
    } else if Clean(t[..FIELD_LIMIT]) {
      ScrubKeepsClean(t[..FIELD_LIMIT]);
    }
  }

  // ---------- what scrubbing keeps ----------

  predicate Visible(c: char) {
    0x20 < c as int && c as int != 0x7f
  }

  /** The visible characters, in order. */
  function Marks(s: string): string {
    if s == [] then [] else if Visible(s[0]) then [s[0]] + Marks(s[1..]) else Marks(s[1..])
  }

  lemma {:induction false} MarksJoin(a: string, b: string)
    ensures Marks(a + b) == Marks(a) + Marks(b)
  {
    if a == [] {
      assert a + b == b;
    } else {
      MarksJoin(a[1..], b);
      assert (a + b)[1..] == a[1..] + b;
    }
  }

  lemma {:induction false} TrimKeepsMarks(s: string)
    ensures Marks(TrimLeft(s)) == Marks(s) && Marks(TrimRight(s)) == Marks(s)
    decreases |s|
  {
    if s != [] {
      var n := |s| - 1;
      TrimKeepsMarks(s[1..]);
      TrimKeepsMarks(s[..n]);
      MarksJoin(s[..n], [s[n]]);
      assert s == s[..n] + [s[n]];
    }
  }

  lemma {:induction false} DropKeepsMarks(s: string)
    ensures Marks(DropControls(s)) == Marks(s)
  {
    if s != [] {
      DropKeepsMarks(s[1..]);
      MarksJoin([s[0]], DropControls(s[1..]));
      MarksJoin(" ", DropControls(s[1..]));
    }
  }

  lemma {:induction false} CollapseKeepsMarks(s: string)
    ensures Marks(Join(Fields(s))) == Marks(s)
    decreases |s|
  {
    if s != [] {
      if IsSpace(s[0]) {
        CollapseKeepsMarks(s[1..]);
      } else {
        var n := WordLength(s);
        CollapseKeepsMarks(s[n..]);
        assert s == s[..n] + s[n..];
        MarksJoin(s[..n], s[n..]);
        var rest := Fields(s[n..]);
        assert Fields(s)[1..] == rest;
        JoinMarks(s[..n], rest);
      }
    }
  }

  lemma JoinMarks(word: string, rest: seq<string>)
    ensures Marks(Join([word] + rest)) == Marks(word) + Marks(Join(rest))
  {
    assert ([word] + rest)[1..] == rest;
    if rest != [] {
      MarksJoin(word + " ", Join(rest));
      MarksJoin(word, " ");
    }
  }

  /** Scrubbing loses no visible character, adds none and keeps their order, except that it cuts text
      that is too long. */
  lemma ScrubKeepsMarks(value: string)
    ensures Marks(Scrub(value)) <= Marks(value)
    ensures |value| <= FIELD_LIMIT ==> Marks(Scrub(value)) == Marks(value)
  {
    var t := DropControls(Trim(value));
    TrimKeepsMarks(value);
    TrimKeepsMarks(TrimLeft(value));
    DropKeepsMarks(Trim(value));
    if |t| > FIELD_LIMIT {
      TrimLeftIsPart(value);
      TrimRightIsPart(TrimLeft(value));
      DropShortens(Trim(value));
      MarksJoin(t[..FIELD_LIMIT], t[FIELD_LIMIT..]);
      assert t == t[..FIELD_LIMIT] + t[FIELD_LIMIT..];
    } else {
      CollapseKeepsMarks(t);
    }
  }

  lemma {:induction false} DropShortens(s: string)
    ensures |DropControls(s)| <= |s|
  {
    if s != [] {
      DropShortens(s[1..]);
    }
  }

  // ---------- scrubbing in one pass ----------

  predicate Blank(c: char) {
    c == ' ' || c == '\t' || c == '\r' || c == '\n'
  }

  /** The simple form: blanks, tabs and line breaks between visible characters become one blank, and
      control characters vanish. `begun` says that a character was written, `gap` that one blank is
      owed before the next. */
  function Tidied(s: string, begun: bool, gap: bool): string {
    if s == [] then []
    else if Blank(s[0]) then Tidied(s[1..], begun, true)
    else if !Visible(s[0]) then Tidied(s[1..], begun, gap)
    else (if begun && gap then " " else "") + [s[0]] + Tidied(s[1..], true, false)
  }

  lemma {:induction false} GapBeforeBegin(s: string, gap: bool)
    ensures Tidied(s, false, gap) == Tidied(s, false, false)
  {
    if s != [] && !Visible(s[0]) {
      GapBeforeBegin(s[1..], gap);
      GapBeforeBegin(s[1..], true);
    }
  }

  lemma {:induction false} TidiedTrimLeft(s: string)
    ensures Tidied(TrimLeft(s), false, false) == Tidied(s, false, false)
  {
    if s != [] && IsSpace(s[0]) {
      TidiedTrimLeft(s[1..]);
      GapBeforeBegin(s[1..], true);
    }
  }

  lemma {:induction false} TidiedEnd(s: string, c: char, begun: bool, gap: bool)
    requires !Visible(c)
    ensures Tidied(s + [c], begun, gap) == Tidied(s, begun, gap)
  {
    if s == [] {
      assert s + [c] == [c] && [c][1..] == [];
      assert Tidied([], begun, gap) == [] && Tidied([], begun, true) == [];
    } else {
      assert (s + [c])[1..] == s[1..] + [c];
      TidiedEnd(s[1..], c, begun, true);
      TidiedEnd(s[1..], c, begun, gap);
      TidiedEnd(s[1..], c, true, false);
    }
  }

  lemma {:induction false} TidiedTrimRight(s: string)
    ensures Tidied(TrimRight(s), false, false) == Tidied(s, false, false)
    decreases |s|
  {
    if s != [] && IsSpace(s[|s| - 1]) {
      TidiedTrimRight(s[..|s| - 1]);
      TidiedEnd(s[..|s| - 1], s[|s| - 1], false, false);
      assert s == s[..|s| - 1] + [s[|s| - 1]];
    }
  }

  lemma {:induction false} TidiedDrop(s: string, begun: bool, gap: bool)
    ensures Tidied(DropControls(s), begun, gap) == Tidied(s, begun, gap)
  {
    if s != [] {
      TidiedDrop(s[1..], begun, true);
      TidiedDrop(s[1..], begun, gap);
      TidiedDrop(s[1..], true, false);
    }
  }

  /** After a word has begun, the rest of it comes out as it is. */
  lemma {:induction false} TidiedWord(word: string, rest: string)
    requires Printable(word) && forall i :: 0 <= i < |word| ==> !IsSpace(word[i])
    ensures Tidied(word + rest, true, false) == word + Tidied(rest, true, false)
  {
    if word == [] {
      assert word + rest == rest;
    } else {
      assert (word + rest)[1..] == word[1..] + rest;
      TidiedWord(word[1..], rest);
    }
  }

  lemma TidiedStep(s: string, begun: bool, gap: bool)
    requires s != [] && Visible(s[0])
    ensures Tidied(s, begun, gap) == (if begun && gap then " " else "") + [s[0]] + Tidied(s[1..], true, false)
  {}

  lemma PartsPrintable(s: string, i: nat, n: nat)
    requires Printable(s) && i <= n <= |s|
    ensures Printable(s[i..n]) && Printable(s[n..])
  {}

  lemma TidiedWholeWord(word: string, rest: string, begun: bool, gap: bool)
    requires word != [] && Printable(word) && Printable(rest) && (rest != [] ==> IsSpace(rest[0]))
    requires forall i :: 0 <= i < |word| ==> !IsSpace(word[i])
    ensures Tidied(word + rest, begun, gap) == (if begun && gap then " " else "") + (word + Tidied(rest, true, true))
  {
    TidiedStep(word + rest, begun, gap);
    AfterWord(rest);
    TidiedWord(word[1..], rest);
    hide Tidied;
    assert (word + rest)[1..] == word[1..] + rest;
    Regroup(if begun && gap then " " else "", word, Tidied(rest, true, true));
  }

  lemma Regroup(glue: string, word: string, x: string)
    requires word != []
    ensures glue + [word[0]] + (word[1..] + x) == glue + (word + x)
  {}

  /** The first word, and what follows it. */
  lemma TidiedFirst(s: string, begun: bool, gap: bool)
    requires Printable(s) && s != [] && !IsSpace(s[0])
    ensures var n := WordLength(s);
            && 0 < n <= |s| && Printable(s[n..])
            && Tidied(s, begun, gap) == (if begun && gap then " " else "") + (s[..n] + Tidied(s[n..], true, true))
  {
    var n := WordLength(s);
    assert 0 < n;
    PartsPrintable(s, 0, n);
    assert s[..n] == s[0..n];
    hide Tidied, Printable;
    TidiedWholeWord(s[..n], s[n..], begun, gap);
    assert s == s[..n] + s[n..];
  }

  lemma TidiedSkip(s: string, begun: bool, gap: bool)
    requires Printable(s) && s != [] && IsSpace(s[0])
    ensures Tidied(s, begun, gap) == Tidied(s[1..], begun, true)
  {}

  /** What follows a word: nothing, or a blank and the remaining words. */
  lemma {:induction false} TidiedRest(s: string)
    requires Printable(s)
    ensures Tidied(s, true, true) == if Fields(s) == [] then [] else " " + Join(Fields(s))
    ensures Tidied(s, false, false) == Join(Fields(s))
    decreases |s|
  {
    if s == [] {
    } else if IsSpace(s[0]) {
      TidiedSkip(s, true, true);
      TidiedSkip(s, false, false);
      GapBeforeBegin(s[1..], true);
      PartsPrintable(s, 0, 1);
      FieldsStep(s);
      hide *;
      TidiedRest(s[1..]);
    } else {
      TidiedFirst(s, true, true);
      TidiedFirst(s, false, false);
      FieldsStep(s);
      hide *;
      var n := WordLength(s);
      TidiedRest(s[n..]);
      JoinFirst(s[..n], Fields(s[n..]));
    }
  }

  lemma FieldsStep(s: string)
    requires s != []
    ensures IsSpace(s[0]) ==> Fields(s) == Fields(s[1..])
    ensures !IsSpace(s[0]) ==> 0 < WordLength(s) && Fields(s) == [s[..WordLength(s)]] + Fields(s[WordLength(s)..])
  {}

  lemma JoinFirst(word: string, words: seq<string>)
    ensures Join([word] + words) == word + if words == [] then "" else " " + Join(words)
  {
    assert ([word] + words)[1..] == words;
  }

  lemma AfterWord(rest: string)
    requires Printable(rest) && (rest != [] ==> IsSpace(rest[0]))
    ensures Tidied(rest, true, false) == Tidied(rest, true, true)
  {}

  /** Scrubbing text that fits is the one-pass form. */
  lemma ScrubIsTidied(value: string)
    requires |value| <= 256
    ensures Scrub(value) == Tidied(value, false, false)
  {
    TidiedTrimLeft(value);
    TidiedTrimRight(TrimLeft(value));
    TidiedDrop(Trim(value), false, false);
    DropControlsPrintable(Trim(value));
    TidiedRest(DropControls(Trim(value)));
    TrimLeftIsPart(value);
    TrimRightIsPart(TrimLeft(value));
    DropShortens(Trim(value));
    hide Tidied, Fields, Join, TrimLeft, TrimRight, DropControls;
  }

  /** Visible text is cut after exactly 256 characters. */
  lemma CutAt256(value: string)
    requires forall i :: 0 <= i < |value| ==> Visible(value[i])
    ensures Scrub(value) == if |value| <= 256 then value else value[..256]
  {
    if value != [] {
      assert !IsSpace(value[0]) && !IsSpace(value[|value| - 1]);
    }
    DropControlsPrintable(value);
    JoinFieldsOfClean(if |value| <= 256 then value else []);
  }

  function Repeat(c: char, n: nat): (s: string)
    ensures |s| == n && forall i :: 0 <= i < n ==> s[i] == c
  {
    if n == 0 then [] else [c] + Repeat(c, n - 1)
  }

  /** A long run of blanks between two letters is cut, and only the next pass trims it. */
  lemma OnePassIsNotEnough()
    ensures exists value :: Scrub(Scrub(value)) != Scrub(value)
  {
    var value := "a" + Repeat(' ', FIELD_LIMIT) + "b";
    assert TrimLeft(value) == value;
    assert Trim(value) == value;
    assert Printable(value);
    DropControlsPrintable(value);
    assert value[..FIELD_LIMIT][FIELD_LIMIT - 1] == ' ';
    OnePassSettlesIff(value);
  }
}
