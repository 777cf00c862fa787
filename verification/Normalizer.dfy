/**
 * The normalization of a text before translation (app/translation/normalizer.py): a canonical form in which only the
 * words and the kind of gap between them are left.
 */
module Normalizers {
  import opened Text
  import opened TextMarks
  import TranslationCaches

  // ---------------------------------------------------------------- the code

  /** The class `[^\S\r\n]`. */
  predicate IsHorizontal(c: char) {
    IsSpace(c) && c != '\r' && c != '\n'
  }

  function HorizontalRun(s: string): (n: nat)
    ensures n <= |s|
    ensures forall i | 0 <= i < n :: IsHorizontal(s[i])
    ensures n < |s| ==> !IsHorizontal(s[n])
  {
    if s != "" && IsHorizontal(s[0]) then 1 + HorizontalRun(s[1..]) else 0
  }

  /** Every run of horizontal white space becomes one blank. */
  function Collapse(line: string): string
    decreases |line|
  {
    if line == "" then ""
    else if IsHorizontal(line[0]) then " " + Collapse(line[HorizontalRun(line)..])
    else [line[0]] + Collapse(line[1..])
  }

  function Line(raw: string): string {
    Strip(Collapse(raw))
  }

  /** The lines kept so far, and whether the last one looked at was kept as a blank one. */
  datatype Kept = Kept(lines: seq<string>, blank: bool)

  function AddLine(st: Kept, raw: string): Kept {
    if Line(raw) != "" then Kept(st.lines + [Line(raw)], false)
    else if st.lines != [] && !st.blank then Kept(st.lines + [""], true)
    else st
  }

  function AddLines(raws: seq<string>): Kept {
    if raws == [] then Kept([], false) else AddLine(AddLines(raws[..|raws| - 1]), raws[|raws| - 1])
  }

  function Normal(text: string): string {
    Strip(Join("\n", AddLines(Lines(UnixLines(text))).lines))
  }

  datatype Result = Normalized(text: string) | EmptyText | TooLong

  function Normalize(text: string, maxLength: nat, truncate: bool): Result
    requires maxLength >= 1
  {
    var normalized := Normal(text);
    if normalized == "" then EmptyText
    else if |normalized| <= maxLength then Normalized(normalized)
    else if truncate then Normalized(RStrip(normalized[..maxLength]))
    else TooLong
  }

  method NormalizeText(text: string, maxLength: nat, truncate: bool) returns (r: Result)
    requires maxLength >= 1
    ensures r == Normalize(text, maxLength, truncate)
  {
    var raws := Lines(UnixLines(text));
    var lines, blank := [], false;
    for k := 0 to |raws|
      invariant Kept(lines, blank) == AddLines(raws[..k])
    {
      assert raws[..k + 1][..k] == raws[..k];
      var line := Line(raws[k]);
      if line != "" {
        lines, blank := lines + [line], false;
      } else if lines != [] && !blank {
        lines, blank := lines + [""], true;
      }
    }
    assert raws[..|raws|] == raws;
    var normalized := Strip(Join("\n", lines));
    if normalized == "" {
      return EmptyText;
    }
    if |normalized| > maxLength {
      return if truncate then Normalized(RStrip(normalized[..maxLength])) else TooLong;
    }
    r := Normalized(normalized);
  }

  // ---------------------------------------------------------------- the canonical form of a sequence of marks

  function Separator(g: Gap): string {
    if g == 0 then "" else if g == 1 then " " else if g == 2 then "\n" else "\n\n"
  }

  function Tail(m: seq<Mark>): string {
    if m == [] then "" else Separator(m[0].gap) + [m[0].c] + Tail(m[1..])
  }

  /** The characters with the shortest white space for the gap between them. */
  function Render(m: seq<Mark>): string {
    if m == [] then "" else [m[0].c] + Tail(m[1..])
  }

  predicate WordMarks(m: seq<Mark>) {
    forall i | 0 <= i < |m| :: !IsSpace(m[i].c)
  }

  lemma {:induction false} MarksAreWords(s: string, g: Gap)
    ensures WordMarks(Marks(s, g)) && (Marks(s, 3) != [] ==> Marks(s, 3)[0].gap == 3)
  {
    if s != "" {
      MarksAreWords(s[1..], if IsSpace(s[0]) then AfterSpace(g, s[0]) else 0);
      MarksAreWords(s[1..], 0);
    }
  }

  lemma {:induction false} TailConcat(a: seq<Mark>, b: seq<Mark>)
    ensures Tail(a + b) == Tail(a) + Tail(b)
  {
    if a == [] {
      assert a + b == b;
    } else {
      assert (a + b)[0] == a[0] && (a + b)[1..] == a[1..] + b;
      TailConcat(a[1..], b);
    }
  }

  lemma {:induction false} RenderConcat(a: seq<Mark>, b: seq<Mark>)
    requires a != []
    ensures Render(a + b) == Render(a) + Tail(b)
  {
    assert (a + b)[0] == a[0] && (a + b)[1..] == a[1..] + b;
    TailConcat(a[1..], b);
  }

  lemma {:induction false} SeparatorGap(g: Gap)
    ensures AllSpace(Separator(g)) && GapAfter(Separator(g), 0) == g
  {
    assert IsSpace(' ') && IsSpace('\n');
    assert "\n\n"[1..] == "\n" && "\n"[1..] == "" && " "[1..] == "";
  }

  lemma {:induction false} MarksOfTail(m: seq<Mark>)
    requires WordMarks(m)
    ensures Marks(Tail(m), 0) == m
  {
    if m != [] {
      MarksOfTail(m[1..]);
      MarksOfWord(m[0].gap, m[0].c, Tail(m[1..]));
      assert m == [m[0]] + m[1..];
    }
  }

  lemma {:induction false} MarksOfWord(g: Gap, c: char, rest: string)
    requires !IsSpace(c)
    ensures Marks(Separator(g) + [c] + rest, 0) == [Mark(c, g)] + Marks(rest, 0)
  {
    SeparatorGap(g);
    SpaceHasNoMarks(Separator(g), 0);
    MarksOfConcat(Separator(g), [c] + rest, 0);
    Associative(Separator(g), [c], rest);
    WordFirst(c, rest, g);
  }

  /** Rendering loses nothing of the marks. */
  lemma {:induction false} MarksOfRender(m: seq<Mark>)
    requires WordMarks(m) && (m != [] ==> m[0].gap == 3)
    ensures Marks(Render(m), 3) == m
  {
    if m != [] {
      MarksOfTail(m[1..]);
      assert Render(m)[1..] == Tail(m[1..]) && m == [m[0]] + m[1..];
    }
  }

  // ---------------------------------------------------------------- one line

  predicate OneLine(s: string) {
    forall i | 0 <= i < |s| :: s[i] != '\n' && s[i] != '\r'
  }

  lemma {:induction false} RunInLine(s: string, g: Gap)
    requires OneLine(s) && AllSpace(s)
    ensures Marks(s, g) == [] && GapAfter(s, g) == (if s != "" && g == 0 then 1 else g)
  {
    if s != "" {
      RunInLine(s[1..], AfterSpace(g, s[0]));
    }
  }

  /** The run of blanks that a line starts with. */
  lemma {:induction false} SplitRun(s: string) returns (run: string, rest: string)
    requires OneLine(s)
    ensures s == run + rest && AllSpace(run) && OneLine(run) && OneLine(rest) && (rest != "" ==> !IsSpace(rest[0]))
    ensures Collapse(s) == (if run == "" then "" else " ") + Collapse(rest)
    ensures forall g: Gap :: Marks(s, g) == Marks(rest, if run != "" && g == 0 then 1 else g)
  {
    var n := HorizontalRun(s);
    run, rest := s[..n], s[n..];
    assert s == run + rest;
    assert n < |s| ==> rest[0] == s[n];
    forall g: Gap
      ensures Marks(s, g) == Marks(rest, if run != "" && g == 0 then 1 else g)
    {
      RunInLine(run, g);
      MarksOfConcat(run, rest, g);
    }
  }

  lemma {:induction false} RStripAfterWord(c: char, s: string)
    requires !IsSpace(c)
    ensures RStrip([c] + s) == [c] + RStrip(s)
    decreases |s|
  {
    var n := |s| - 1;
    if s == "" {
      assert [c] + s == [c];
    } else if IsSpace(s[n]) {
      assert ([c] + s)[..n + 1] == [c] + s[..n];
      RStripAfterWord(c, s[..n]);
    }
  }

  /** After a word, the rest of a line is rendered as the collapsed rest without the blank it may end with. */
  lemma {:induction false} RestOfLine(s: string)
    requires OneLine(s)
    ensures Tail(Marks(s, 0)) == RStrip(Collapse(s))
    decreases |s|
  {
    var run, rest := SplitRun(s);
    var g: Gap := if run != "" then 1 else 0;
    assert Marks(s, 0) == Marks(rest, g);
    if rest != "" {
      assert rest == [rest[0]] + rest[1..];
      RestOfLine(rest[1..]);
      WordInLine(run, rest[0], rest[1..], g);
    } else {
      assert IsSpace(' ') && " "[..0] == "" && RStrip(" ") == "";
    }
  }

  lemma {:induction false} WordInLine(run: string, c: char, more: string, g: Gap)
    requires !IsSpace(c) && Tail(Marks(more, 0)) == RStrip(Collapse(more)) && g == (if run != "" then 1 else 0)
    ensures Tail(Marks([c] + more, g)) == RStrip((if run == "" then "" else " ") + Collapse([c] + more))
  {
    var tail := Tail(Marks(more, 0));
    WordFirst(c, more, g);
    RStripAfterWord(c, Collapse(more));
    assert ([c] + more)[1..] == more && Collapse([c] + more) == [c] + Collapse(more);
    RStripAfterRun(run, [c] + Collapse(more));
    Associative(Separator(g), [c], tail);
  }

  lemma {:induction false} RStripAfterRun(run: string, s: string)
    requires s != "" && !IsSpace(s[0])
    ensures var blank := if run == "" then "" else " "; RStrip(blank + s) == blank + RStrip(s)
  {
    if run == "" {
      assert "" + s == s && "" + RStrip(s) == RStrip(s);
    } else {
      RStripAfterBlank(s);
    }
  }

  lemma {:induction false} WordFirst(c: char, more: string, g: Gap)
    requires !IsSpace(c)
    ensures Marks([c] + more, g) == [Mark(c, g)] + Marks(more, 0)
    ensures Tail(Marks([c] + more, g)) == Separator(g) + [c] + Tail(Marks(more, 0))
    ensures Render(Marks([c] + more, g)) == [c] + Tail(Marks(more, 0))
  {
    assert ([c] + more)[1..] == more;
    assert ([Mark(c, g)] + Marks(more, 0))[1..] == Marks(more, 0);
  }

  lemma {:induction false} RStripAfterBlank(s: string)
    requires s != "" && !IsSpace(s[0])
    ensures RStrip(" " + s) == " " + RStrip(s)
    decreases |s|
  {
    var n := |s| - 1;
    if IsSpace(s[n]) {
      assert (" " + s)[..n + 1] == " " + s[..n];
      RStripAfterBlank(s[..n]);
    }
  }

  /** A line is rendered as its words with single blanks; after a line feed it has the separator of its gap first. */
  lemma {:induction false} LineIsRendered(raw: string, g: Gap)
    requires OneLine(raw) && g >= 2
    ensures Line(raw) == Render(Marks(raw, g)) && (Line(raw) == "" <==> Marks(raw, g) == [])
    ensures Line(raw) != "" ==> Tail(Marks(raw, g)) == Separator(g) + Line(raw)
  {
    var run, rest := SplitRun(raw);
    assert Marks(raw, g) == Marks(rest, g);
    if rest == "" {
      BlankLine(raw, run);
    } else {
      assert rest == [rest[0]] + rest[1..];
      WordFirst(rest[0], rest[1..], g);
      WordLine(raw, run, rest[0], rest[1..]);
      Associative(Separator(g), [rest[0]], Tail(Marks(rest[1..], 0)));
    }
  }

  lemma {:induction false} BlankLine(raw: string, run: string)
    requires Collapse(raw) == (if run == "" then "" else " ") + Collapse("")
    ensures Line(raw) == ""
  {
    assert IsSpace(' ') && AllSpace(Collapse(raw));
  }

  lemma {:induction false} WordLine(raw: string, run: string, c: char, more: string)
    requires !IsSpace(c) && OneLine(more)
    requires Collapse(raw) == (if run == "" then "" else " ") + Collapse([c] + more)
    ensures Line(raw) == [c] + Tail(Marks(more, 0))
  {
    assert ([c] + more)[1..] == more;
    RestOfLine(more);
    RStripAfterWord(c, Collapse(more));
    LStripBlank(run, [c] + Collapse(more));
  }

  lemma {:induction false} LStripBlank(run: string, s: string)
    requires s != "" && !IsSpace(s[0])
    ensures LStrip((if run == "" then "" else " ") + s) == s
  {
    assert IsSpace(' ');
    assert (" " + s)[1..] == s;
    assert "" + s == s;
  }

  // ---------------------------------------------------------------- all lines

  lemma {:induction false} JoinAppend(separator: string, parts: seq<string>, last: string)
    requires parts != []
    ensures Join(separator, parts + [last]) == Join(separator, parts) + separator + last
  {
    assert (parts + [last])[1..] == parts[1..] + [last];
    if |parts| > 1 {
      JoinAppend(separator, parts[1..], last);
      var first, rest := parts[0] + separator, Join(separator, parts[1..]);
      assert first + (rest + separator + last) == first + rest + separator + last;
    } else {
      assert parts[1..] == [] && [] + [last] == [last];
    }
  }

  lemma {:induction false} LinesJoin(s: string)
    requires forall i | 0 <= i < |s| :: s[i] != '\r'
    ensures Join("\n", Lines(s)) == s && AllLines(Lines(s))
    decreases |s|
  {
    var n := LineLength(s);
    if n < |s| {
      LinesJoin(s[n + 1..]);
      CutAtLineFeed(s, n);
      JoinFirst("\n", s[..n], Lines(s[n + 1..]));
    }
  }

  lemma {:induction false} CutAtLineFeed(s: string, n: nat)
    requires n < |s| && s[n] == '\n'
    ensures s == s[..n] + "\n" + s[n + 1..]
  {
  }

  lemma {:induction false} JoinFirst(separator: string, first: string, rest: seq<string>)
    requires rest != []
    ensures Join(separator, [first] + rest) == first + separator + Join(separator, rest)
  {
    assert ([first] + rest)[1..] == rest;
  }

  predicate AllLines(raws: seq<string>) {
    forall x | x in raws :: OneLine(x)
  }

  /** The gap at the start of the line after `raws`. */
  function NextGap(raws: seq<string>): Gap {
    if raws == [] then 3 else GapAfter(Join("\n", raws) + "\n", 3)
  }

  /** The kept lines are the rendered text so far, and they show the gap at the start of the next line. */
  predicate Shows(st: Kept, raws: seq<string>) {
    var m := Marks(Join("\n", raws), 3);
    && (st.lines == [] <==> m == []) && (st.blank ==> st.lines != [])
    && Join("\n", st.lines) == Render(m) + (if st.blank then "\n" else "")
    && NextGap(raws) == (if st.lines == [] || st.blank then 3 else 2)
  }

  lemma {:induction false} NextLine(raws: seq<string>, raw: string)
    ensures Marks(Join("\n", raws + [raw]), 3) == Marks(Join("\n", raws), 3) + Marks(raw, NextGap(raws))
    ensures NextGap(raws + [raw]) == AfterSpace(GapAfter(raw, NextGap(raws)), '\n')
  {
    var text := Join("\n", raws);
    var all := Join("\n", raws + [raw]);
    assert IsSpace('\n');
    EndsInSpace(all, '\n', 3);
    if raws == [] {
      assert [] + [raw] == [raw] && Join("\n", [raw]) == raw;
      assert [] + Marks(raw, 3) == Marks(raw, 3);
    } else {
      JoinAppend("\n", raws, raw);
      MarksOfConcat(text + "\n", raw, 3);
      MarksOfConcat(text, "\n", 3);
      SpaceHasNoMarks("\n", GapAfter(text, 3));
      assert Marks(text, 3) + [] == Marks(text, 3);
    }
  }

  lemma {:induction false} GapInLine(raw: string, g: Gap)
    requires OneLine(raw) && g >= 2
    ensures Marks(raw, g) == [] ==> GapAfter(raw, g) == g
    ensures Marks(raw, g) != [] ==> GapAfter(raw, g) <= 1
  {
    var tail := raw[Trimmed(raw)..];
    assert raw == RStrip(raw) + tail;
    MarksOfConcat(RStrip(raw), tail, g);
    RStripKeepsMarks(raw, g);
    RunInLine(tail, GapAfter(RStrip(raw), g));
    if RStrip(raw) != "" {
      AfterWord(RStrip(raw), g);
      LastIsMarked(RStrip(raw), g);
    }
  }

  lemma {:induction false} LastIsMarked(s: string, g: Gap)
    requires s != "" && !IsSpace(s[|s| - 1])
    ensures Marks(s, g) != []
  {
    var n := |s| - 1;
    assert s == s[..n] + [s[n]];
    MarksOfConcat(s[..n], [s[n]], g);
    assert Marks([s[n]], GapAfter(s[..n], g)) != [];
  }

  lemma {:induction false} LineShown(st: Kept, raws: seq<string>, raw: string)
    requires Shows(st, raws) && OneLine(raw)
    ensures Shows(AddLine(st, raw), raws + [raw])
  {
    var g := NextGap(raws);
    var m := Marks(Join("\n", raws), 3);
    NextLine(raws, raw);
    LineIsRendered(raw, g);
    GapInLine(raw, g);
    if Line(raw) == "" {
      assert m + [] == m;
      if st.lines != [] && !st.blank {
        BlankLineShown(st, Render(m));
      }
    } else {
      WordLineShown(st, m, Marks(raw, g), Line(raw), g);
    }
  }

  lemma {:induction false} BlankLineShown(st: Kept, shown: string)
    requires Join("\n", st.lines) == shown && st.lines != []
    ensures Join("\n", st.lines + [""]) == shown + "\n"
  {
    JoinAppend("\n", st.lines, "");
  }

  lemma {:induction false} WordLineShown(st: Kept, m: seq<Mark>, more: seq<Mark>, line: string, g: Gap)
    requires (st.lines == [] <==> m == []) && (st.blank ==> st.lines != [])
    requires Join("\n", st.lines) == Render(m) + (if st.blank then "\n" else "")
    requires g == (if st.lines == [] || st.blank then 3 else 2)
    requires line == Render(more) && Tail(more) == Separator(g) + line
    ensures Join("\n", st.lines + [line]) == Render(m + more)
  {
    if st.lines == [] {
      assert [] + [line] == [line] && [] + more == more;
      assert st.lines + [line] == [line] && m + more == more;
    } else {
      var blank := if st.blank then "\n" else "";
      JoinAppend("\n", st.lines, line);
      RenderConcat(m, more);
      assert blank + "\n" == Separator(g);
      Associative(Render(m), blank, "\n");
      Associative(Render(m), Separator(g), line);
    }
  }

  lemma {:induction false} LinesShown(raws: seq<string>)
    requires AllLines(raws)
    ensures Shows(AddLines(raws), raws)
  {
    if raws == [] {
      assert Join("\n", []) == "" && Marks("", 3) == [] && Render([]) == "";
    } else {
      var before, last := raws[..|raws| - 1], raws[|raws| - 1];
      assert raws == before + [last] && last in raws && forall x | x in before :: x in raws;
      LinesShown(before);
      LineShown(AddLines(before), before, last);
    }
  }

  lemma {:induction false} NoCr(s: string)
    ensures forall i | 0 <= i < |WithoutCr(s)| :: WithoutCr(s)[i] != '\r'
  {
    if s != "" {
      NoCr(s[1..]);
    }
  }

  lemma {:induction false} RenderEnds(m: seq<Mark>)
    requires m != [] && WordMarks(m)
    ensures Render(m) != "" && !IsSpace(Render(m)[0]) && !IsSpace(Render(m)[|Render(m)| - 1])
  {
    var n := |m| - 1;
    assert m == m[..n] + [m[n]];
    if n > 0 {
      RenderConcat(m[..n], [m[n]]);
      assert [m[n]][1..] == [];
      assert Tail([m[n]]) == Separator(m[n].gap) + [m[n].c] + "";
    }
  }

  lemma {:induction false} StripLineFeed(s: string)
    requires s != "" && !IsSpace(s[0]) && !IsSpace(s[|s| - 1])
    ensures Strip(s + "\n") == s
  {
    assert IsSpace('\n') && (s + "\n")[..|s|] == s && s[..|s|] == s;
    assert (s + "\n")[0..] == s + "\n";
  }

  /** Normalization is the canonical form of the words of the text and of the gaps between them. */
  lemma {:induction false} NormalIsRendered(text: string)
    ensures Normal(text) == Render(Marks(UnixLines(text), 3))
  {
    var value := UnixLines(text);
    var m := Marks(value, 3);
    var st := AddLines(Lines(value));
    NoCr(WithoutCrLf(text));
    LinesJoin(value);
    LinesShown(Lines(value));
    MarksAreWords(value, 3);
    if m != [] {
      RenderEnds(m);
      StripLineFeed(Render(m));
      StripOfStripped(Render(m));
      assert Render(m) + "" == Render(m);
    } else {
      StripOfStripped("");
    }
  }

  lemma {:induction false} UnixLinesIsNoLonger(s: string)
    ensures |UnixLines(s)| <= |s|
  {
    WithoutCrLfIsNoLonger(s);
    WithoutCrKeepsLength(WithoutCrLf(s));
  }

  lemma {:induction false} WithoutCrLfIsNoLonger(s: string)
    ensures |WithoutCrLf(s)| <= |s|
    decreases |s|
  {
    if |s| >= 2 && s[0] == '\r' && s[1] == '\n' {
      WithoutCrLfIsNoLonger(s[2..]);
    } else if s != "" {
      WithoutCrLfIsNoLonger(s[1..]);
    }
  }

  lemma {:induction false} WithoutCrKeepsLength(s: string)
    ensures |WithoutCr(s)| == |s|
  {
    if s != "" {
      WithoutCrKeepsLength(s[1..]);
    }
  }

  /** Every gap costs at least its separator. */
  lemma {:induction false} TailFits(s: string, g: Gap)
    ensures |Tail(Marks(s, g))| <= |s| + |Separator(g)|
  {
    if s != "" {
      if IsSpace(s[0]) {
        TailFits(s[1..], AfterSpace(g, s[0]));
      } else {
        TailFits(s[1..], 0);
        WordFirst(s[0], s[1..], g);
        assert s == [s[0]] + s[1..];
      }
    }
  }

  /** The normal form is the shortest text with the words and gaps of the text: no text that has them is shorter. */
  lemma {:induction false} NormalIsShortest(text: string, other: string)
    requires Marks(UnixLines(other), 3) == Marks(UnixLines(text), 3)
    ensures |Normal(text)| <= |other|
  {
    var m := Marks(UnixLines(other), 3);
    NormalIsRendered(text);
    UnixLinesIsNoLonger(other);
    TailFits(UnixLines(other), 3);
    MarksAreWords(UnixLines(other), 3);
    if m != [] {
      assert Tail(m) == Separator(3) + [m[0].c] + Tail(m[1..]);
    }
  }

  /** Two texts have the same normal form exactly when they have the same words with the same gaps between them. */
  lemma {:induction false} SameNormalForm(a: string, b: string)
    ensures Normal(a) == Normal(b) <==> Marks(UnixLines(a), 3) == Marks(UnixLines(b), 3)
  {
    NormalKeepsMarks(a);
    NormalKeepsMarks(b);
    NormalIsRendered(a);
    NormalIsRendered(b);
  }

  /** Normalization keeps every character that is not white space, in order, and the kind of every gap. */
  lemma {:induction false} NormalKeepsMarks(text: string)
    ensures Marks(Normal(text), 3) == Marks(UnixLines(text), 3)
  {
    NormalIsRendered(text);
    MarksAreWords(UnixLines(text), 3);
    MarksOfRender(Marks(UnixLines(text), 3));
  }

  // ---------------------------------------------------------------- the normal form, character by character

  /** Words apart by one blank, one line feed or two: no runs of blanks, no blanks at line ends, no two blank lines. */
  predicate NormalForm(s: string) {
    && s != "" && !IsSpace(s[0]) && !IsSpace(s[|s| - 1])
    && (forall i | 0 <= i < |s| && IsSpace(s[i]) :: s[i] == ' ' || s[i] == '\n')
    && (forall i | 0 < i < |s| && (s[i - 1] == ' ' || s[i] == ' ') :: !IsSpace(s[i - 1]) || !IsSpace(s[i]))
    && (forall i | 1 < i < |s| :: !(s[i - 2] == '\n' && s[i - 1] == '\n' && s[i] == '\n'))
  }

  lemma {:induction false} NormalOneMore(s: string, g: Gap, c: char)
    requires NormalForm(s) && !IsSpace(c)
    ensures NormalForm(s + Separator(g) + [c])
  {
    assert IsSpace(' ') && IsSpace('\n');
  }

  lemma {:induction false} RenderIsNormal(m: seq<Mark>)
    requires m != [] && WordMarks(m)
    ensures NormalForm(Render(m))
  {
    var n := |m| - 1;
    assert IsSpace(' ') && IsSpace('\n');
    if n == 0 {
      assert m[1..] == [] && Render(m) == [m[0].c];
    } else {
      RenderIsNormal(m[..n]);
      assert m == m[..n] + [m[n]];
      RenderConcat(m[..n], [m[n]]);
      assert [m[n]][1..] == [];
      assert Tail([m[n]]) == Separator(m[n].gap) + [m[n].c];
      assert Render(m) == Render(m[..n]) + Separator(m[n].gap) + [m[n].c];
      NormalOneMore(Render(m[..n]), m[n].gap, m[n].c);
    }
  }

  /** The gap that starts at position `j` of a text in normal form. */
  lemma {:induction false} GapAt(s: string, j: nat) returns (g: Gap)
    requires NormalForm(s) && 0 < j < |s| && !IsSpace(s[j - 1])
    ensures var k := j + |Separator(g)|;
            k < |s| && !IsSpace(s[k]) && s[j..k] == Separator(g) && Marks(s[j..], 0) == Marks(s[k..], g)
  {
    assert IsSpace(' ') && IsSpace('\n');
    if !IsSpace(s[j]) {
      g := 0;
    } else if s[j] == ' ' {
      g := 1;
      assert !IsSpace(s[j + 1]) && s[j..][1..] == s[j + 1..];
    } else if s[j + 1] != '\n' {
      g := 2;
      assert s[j..][1..] == s[j + 1..];
    } else {
      g := 3;
      assert s[j..][1..] == s[j + 1..] && s[j + 1..][1..] == s[j + 2..];
    }
  }

  lemma {:induction false} NormalFromWord(s: string, k: nat)
    requires NormalForm(s) && k < |s| && !IsSpace(s[k])
    ensures s[k + 1..] == Tail(Marks(s[k + 1..], 0))
    decreases |s| - k
  {
    if k + 1 < |s| {
      var g := GapAt(s, k + 1);
      var j := k + 1 + |Separator(g)|;
      NormalFromWord(s, j);
      NextWord(s, k + 1, j, g);
    }
  }

  lemma {:induction false} NextWord(s: string, k: nat, j: nat, g: Gap)
    requires k <= j < |s| && !IsSpace(s[j]) && s[k..j] == Separator(g) && Marks(s[k..], 0) == Marks(s[j..], g)
    requires s[j + 1..] == Tail(Marks(s[j + 1..], 0))
    ensures s[k..] == Tail(Marks(s[k..], 0))
  {
    var rest := s[j + 1..];
    SliceParts(s, k, j);
    WordFirst(s[j], rest, g);
  }

  lemma {:induction false} SliceParts(s: string, k: nat, j: nat)
    requires k <= j < |s|
    ensures s[j..] == [s[j]] + s[j + 1..] && s[k..] == s[k..j] + [s[j]] + s[j + 1..]
  {
  }

  /** The texts in normal form are exactly the ones that are rendered from their own marks. */
  lemma {:induction false} NormalIsOwnRendering(s: string)
    requires NormalForm(s)
    ensures s == Render(Marks(s, 3))
  {
    NormalFromWord(s, 0);
    assert s == [s[0]] + s[1..];
    WordFirst(s[0], s[1..], 3);
  }

  lemma {:induction false} UnixLinesOfNormal(s: string)
    requires forall i | 0 <= i < |s| :: s[i] != '\r'
    ensures UnixLines(s) == s
  {
    WithoutCrLfKeeps(s);
    WithoutCrKeeps(s);
  }

  lemma {:induction false} WithoutCrLfKeeps(s: string)
    requires forall i | 0 <= i < |s| :: s[i] != '\r'
    ensures WithoutCrLf(s) == s
  {
    if s != "" {
      WithoutCrLfKeeps(s[1..]);
    }
  }

  lemma {:induction false} WithoutCrKeeps(s: string)
    requires forall i | 0 <= i < |s| :: s[i] != '\r'
    ensures WithoutCr(s) == s
  {
    if s != "" {
      WithoutCrKeeps(s[1..]);
    }
  }

  lemma {:induction false} NoCrInNormal(s: string)
    requires NormalForm(s)
    ensures UnixLines(s) == s
  {
    assert IsSpace('\r');
    UnixLinesOfNormal(s);
  }

  /** The fixed points of normalization are exactly the texts in normal form, and every other text becomes one or empty. */
  lemma {:induction false} NormalFormsAreFixedPoints(s: string)
    ensures s != "" ==> (Normal(s) == s <==> NormalForm(s))
    ensures Normal(s) == "" || NormalForm(Normal(s))
  {
    var m := Marks(UnixLines(s), 3);
    NormalIsRendered(s);
    MarksAreWords(UnixLines(s), 3);
    if m != [] {
      RenderIsNormal(m);
    }
    if NormalForm(s) {
      NoCrInNormal(s);
      NormalIsOwnRendering(s);
    }
  }

  lemma {:induction false} CutIsNormal(s: string, n: nat)
    requires NormalForm(s) && 0 < n <= |s|
    ensures NormalForm(RStrip(s[..n])) && |RStrip(s[..n])| <= n
  {
    var r := RStrip(s[..n]);
    assert !IsSpace(s[..n][0]);
    assert r != "" && forall i | 0 <= i < |r| :: r[i] == s[i];
  }

  lemma {:induction false} CutKeepsFirstMarks(s: string, n: nat)
    requires n <= |s|
    ensures Marks(RStrip(s[..n]), 3) <= Marks(s, 3)
  {
    assert s == s[..n] + s[n..];
    MarksOfConcat(s[..n], s[n..], 3);
    RStripKeepsMarks(s[..n], 3);
  }

  /**
   * What a caller gets: a text in normal form of at most `maxLength` characters, with all words and gaps of the input,
   * or with the first ones if it was cut; it refuses blank text, and long text unless it may be cut.
   */
  lemma {:induction false} NormalizedText(text: string, maxLength: nat, truncate: bool)
    requires maxLength >= 1
    ensures var r, all := Normalize(text, maxLength, truncate), Marks(UnixLines(text), 3);
            && (r.EmptyText? <==> all == [])
            && (r.TooLong? <==> |Render(all)| > maxLength && !truncate)
            && (r.Normalized? ==> NormalForm(r.text) && |r.text| <= maxLength && Marks(r.text, 3) <= all)
            && (r.Normalized? && |Render(all)| <= maxLength ==> Marks(r.text, 3) == all)
  {
    var n := Normal(text);
    NormalIsRendered(text);
    NormalKeepsMarks(text);
    NormalFormsAreFixedPoints(text);
    MarksAreWords(UnixLines(text), 3);
    if |n| > maxLength {
      CutIsNormal(n, maxLength);
      CutKeepsFirstMarks(n, maxLength);
    }
  }

  /** Normalizing again, in either mode, changes nothing, and a normalized text is its own cache key. */
  lemma {:induction false} NormalizeIsIdempotent(text: string, maxLength: nat, truncate: bool, again: bool)
    requires maxLength >= 1
    requires Normalize(text, maxLength, truncate).Normalized?
    ensures var r := Normalize(text, maxLength, truncate);
            Normalize(r.text, maxLength, again) == r && TranslationCaches.NormalizeText(r.text) == r.text
  {
    var r := Normalize(text, maxLength, truncate);
    NormalizedText(text, maxLength, truncate);
    NormalFormsAreFixedPoints(r.text);
    NoCrInNormal(r.text);
    StripOfStripped(r.text);
  }
}
