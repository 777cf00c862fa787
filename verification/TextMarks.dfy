/** A text as the sequence of its characters that are not white space, each with the kind of gap before it. */
module TextMarks {
  import opened Text

  /** What stands before a character: 0 nothing, 1 white space, 2 a line break, 3 a paragraph break. */
  type Gap = g: nat | g <= 3

  datatype Mark = Mark(c: char, gap: Gap)

  function AfterSpace(g: Gap, c: char): Gap {
    if c == '\n' then (if g <= 1 then 2 else 3) else if g == 0 then 1 else g
  }

  /** The characters of `s` that are not white space, each with the gap before it; `g` is the gap that `s` starts with. */
  function Marks(s: string, g: Gap): seq<Mark> {
    if s == "" then []
    else if IsSpace(s[0]) then Marks(s[1..], AfterSpace(g, s[0]))
    else [Mark(s[0], g)] + Marks(s[1..], 0)
  }

  function GapAfter(s: string, g: Gap): Gap {
    if s == "" then g else GapAfter(s[1..], if IsSpace(s[0]) then AfterSpace(g, s[0]) else 0)
  }

  predicate NoLess(a: Gap, b: Gap) {
    (a > 0 ==> b > 0) && (a == 3 ==> b == 3)
  }

  /** The same characters in the same order; white space and paragraph breaks between them are not lost. */
  predicate Keeps(a: seq<Mark>, b: seq<Mark>) {
    |a| == |b| && forall i | 0 <= i < |a| :: a[i].c == b[i].c && NoLess(a[i].gap, b[i].gap)
  }

  lemma {:induction false} MarksOfConcat(s: string, t: string, g: Gap)
    ensures Marks(s + t, g) == Marks(s, g) + Marks(t, GapAfter(s, g))
    ensures GapAfter(s + t, g) == GapAfter(t, GapAfter(s, g))
  {
    if s == "" {
      assert s + t == t;
    } else {
      assert (s + t)[0] == s[0] && (s + t)[1..] == s[1..] + t;
      MarksOfConcat(s[1..], t, if IsSpace(s[0]) then AfterSpace(g, s[0]) else 0);
    }
  }

  lemma {:induction false} SpaceHasNoMarks(s: string, g: Gap)
    requires AllSpace(s)
    ensures Marks(s, g) == [] && g <= GapAfter(s, g) && (g == 3 ==> GapAfter(s, g) == 3)
  {
    if s != "" {
      assert s[0] in s;
      SpaceHasNoMarks(s[1..], AfterSpace(g, s[0]));
    }
  }

  lemma {:induction false} RStripKeepsMarks(s: string, g: Gap)
    ensures Marks(RStrip(s), g) == Marks(s, g)
  {
    var tail := s[Trimmed(s)..];
    assert s == RStrip(s) + tail;
    MarksOfConcat(RStrip(s), tail, g);
    SpaceHasNoMarks(tail, GapAfter(RStrip(s), g));
  }

  /** Stripping the start of a text only raises the gap before its first word to that of a paragraph. */
  lemma {:induction false} LStripKeepsMarks(s: string, g: Gap)
    ensures Keeps(Marks(s, g), Marks(LStrip(s), 3)) && Marks(s, 3) == Marks(LStrip(s), 3)
  {
    var head := s[..Leading(s)];
    assert s == head + LStrip(s);
    MarksOfConcat(head, LStrip(s), g);
    MarksOfConcat(head, LStrip(s), 3);
    SpaceHasNoMarks(head, g);
    SpaceHasNoMarks(head, 3);
    MoreGap(LStrip(s), GapAfter(head, g), 3);
  }

  lemma {:induction false} MoreGap(s: string, g: Gap, h: Gap)
    requires g <= h
    ensures Keeps(Marks(s, g), Marks(s, h))
  {
    if s != "" && IsSpace(s[0]) {
      MoreGap(s[1..], AfterSpace(g, s[0]), AfterSpace(h, s[0]));
    }
  }

  lemma {:induction false} EndsInSpace(s: string, c: char, g: Gap)
    requires IsSpace(c)
    ensures GapAfter(s + [c], g) == AfterSpace(GapAfter(s, g), c)
  {
    MarksOfConcat(s, [c], g);
  }

  lemma {:induction false} AfterWord(s: string, g: Gap)
    requires s != "" && !IsSpace(s[|s| - 1])
    ensures GapAfter(s, g) == 0
  {
    var n := |s| - 1;
    assert s == s[..n] + [s[n]];
    MarksOfConcat(s[..n], [s[n]], g);
  }

  lemma {:induction false} StripKeepsMarks(s: string)
    ensures Marks(Strip(s), 3) == Marks(s, 3)
  {
    LStripKeepsMarks(s, 3);
    RStripKeepsMarks(LStrip(s), 3);
  }
}
