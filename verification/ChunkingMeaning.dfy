/** Splitting and merging keep the text: every character, and every gap between two words, up to chunks of bounded size. */
module ChunkingMeaning {
  import opened Text
  import opened TextMarks
  import opened Chunking

  // ---------------------------------------------------------------- marks

  /** Before a word only the kind of gap matters. */
  lemma {:induction false} SameKindOfGap(s: string, g: Gap, h: Gap)
    requires s != "" ==> !IsSpace(s[0])
    requires NoLess(g, h)
    ensures Keeps(Marks(s, g), Marks(s, h))
  {
  }

  lemma {:induction false} KeepsTransitively(a: seq<Mark>, b: seq<Mark>, c: seq<Mark>)
    requires Keeps(a, b) && Keeps(b, c)
    ensures Keeps(a, c)
  {
  }

  lemma {:induction false} KeepsBoth(a: seq<Mark>, b: seq<Mark>, c: seq<Mark>, d: seq<Mark>)
    requires Keeps(a, b) && Keeps(c, d)
    ensures Keeps(a + c, b + d)
  {
  }

  lemma {:induction false} MarksOfLists(a: seq<string>, b: seq<string>)
    ensures MarksOf(a + b) == MarksOf(a) + MarksOf(b)
  {
    if a == [] {
      assert a + b == b;
    } else {
      assert (a + b)[0] == a[0] && (a + b)[1..] == a[1..] + b;
      MarksOfLists(a[1..], b);
    }
  }

  lemma {:induction false} MarksOfOne(s: string)
    ensures MarksOf([s]) == Marks(s, 3) && MarksOf(OrNone(s)) == Marks(s, 3)
  {
    assert [s][1..] == [];
    assert MarksOf([s]) == Marks(s, 3) + MarksOf([]);
  }

  /** After two line feeds a paragraph starts. */
  lemma {:induction false} BlankLineGap(s: string, g: Gap)
    requires EndsWithBlankLine(s)
    ensures GapAfter(s, g) == 3
  {
    var n := |s| - 2;
    assert IsSpace('\n');
    assert s[..n + 1] == s[..n] + ['\n'] && s == s[..n + 1] + ['\n'];
    EndsInSpace(s[..n], '\n', g);
    EndsInSpace(s[..n + 1], '\n', g);
  }

  // ---------------------------------------------------------------- paragraphs

  ghost predicate NoBreak(s: string) {
    forall i, j :: !IsBreakAt(s, i, j)
  }

  lemma {:induction false} BreakInSlice(s: string, a: nat, b: nat, i: nat, j: nat)
    requires a <= b <= |s| && IsBreakAt(s[a..b], i, j)
    ensures IsBreakAt(s, a + i, a + j)
  {
    forall k | a + i < k < a + j
      ensures IsSpace(s[k])
    {
      assert s[k] == s[a..b][k - a];
    }
  }

  lemma {:induction false} SliceHasNoBreak(s: string, a: nat, b: nat)
    requires NoBreak(s) && a <= b <= |s|
    ensures NoBreak(s[a..b])
  {
    forall i, j
      ensures !IsBreakAt(s[a..b], i, j)
    {
      if IsBreakAt(s[a..b], i, j) {
        BreakInSlice(s, a, b, i, j);
      }
    }
  }

  /** No break starts before the one that is found. */
  lemma {:induction false} NoEarlierBreak(s: string, from: nat, i: nat, j: nat)
    requires from <= |s| && from <= i < FindBreak(s, from).0
    ensures !IsBreakAt(s, i, j)
    decreases |s| - from
  {
    if i > from {
      LaterBreak(s, from);
      NoEarlierBreak(s, from + 1, i, j);
    } else {
      RunEnds(s, from);
    }
  }

  lemma {:induction false} LaterBreak(s: string, from: nat)
    requires from < |s| && FindBreak(s, from).0 > from
    ensures FindBreak(s, from) == FindBreak(s, from + 1)
  {
  }

  /** A run of white space that starts with a line feed, and the character after it. */
  lemma {:induction false} RunEnds(s: string, from: nat)
    requires from < |s|
    ensures var to := from + Leading(s[from..]);
            (s[from] == '\n' ==> to > from) && (to < |s| ==> !IsSpace(s[to]) && s[to] != '\n')
  {
    assert IsSpace('\n');
    var to := from + Leading(s[from..]);
    assert to < |s| ==> s[to] == s[from..][Leading(s[from..])];
  }

  /** A part is a paragraph break, or it has none inside. */
  ghost predicate Pure(part: string) {
    IsBreak(part) || NoBreak(part)
  }

  ghost predicate AllPure(parts: seq<string>) {
    forall p | p in parts :: Pure(p)
  }

  lemma {:induction false} FirstPartIsPure(s: string)
    ensures var r := FindBreak(s, 0); NoBreak(s[..r.0]) && (r.0 < r.1 ==> IsBreak(s[r.0..r.1]))
  {
    var r := FindBreak(s, 0);
    forall i, j
      ensures !IsBreakAt(s[..r.0], i, j)
    {
      if IsBreakAt(s[..r.0], i, j) {
        assert IsBreakAt(s, i, j);
        NoEarlierBreak(s, 0, i, j);
      }
    }
  }

  lemma {:induction false} BreakIsSpace(part: string)
    requires IsBreak(part)
    ensures AllSpace(part)
  {
    assert IsSpace('\n');
  }

  /** The parts lose nothing of the text. */
  lemma {:induction false} ParagraphsKeep(s: string, g: Gap)
    ensures Keeps(Marks(s, g), MarksOf(Paragraphs(s))) && AllPure(Paragraphs(s))
    decreases |s|
  {
    var r := FindBreak(s, 0);
    FirstPartIsPure(s);
    if r.0 == r.1 {
      assert s[..r.0] == s;
      MoreGap(s, g, 3);
      MarksOfOne(s);
    } else {
      ParagraphsKeep(s[r.1..], GapAfter(s[..r.0] + s[r.0..r.1], g));
      BreakKeeps(s[..r.0], s[r.0..r.1], s[r.1..], g, Paragraphs(s[r.1..]));
      assert s == s[..r.0] + s[r.0..r.1] + s[r.1..];
    }
  }

  lemma {:induction false} BreakKeeps(first: string, break_: string, rest: string, g: Gap, parts: seq<string>)
    requires IsBreak(break_) && Keeps(Marks(rest, GapAfter(first + break_, g)), MarksOf(parts))
    ensures Keeps(Marks(first + break_ + rest, g), MarksOf([first, break_] + parts))
  {
    MarksOfConcat(first + break_, rest, g);
    MarksOfConcat(first, break_, g);
    BreakIsSpace(break_);
    SpaceHasNoMarks(break_, GapAfter(first, g));
    SpaceHasNoMarks(break_, 3);
    MoreGap(first, g, 3);
    MarksOfLists([first, break_], parts);
    MarksOfLists([first], [break_]);
    MarksOfOne(first);
    MarksOfOne(break_);
    assert [first] + [break_] == [first, break_];
    assert Marks(first, 3) + [] == Marks(first, 3) && Marks(first, g) + [] == Marks(first, g);
    KeepsBoth(Marks(first, g), Marks(first, 3), Marks(rest, GapAfter(first + break_, g)), MarksOf(parts));
  }

  // ---------------------------------------------------------------- hard cuts

  lemma {:induction false} CutKeeps(s: string, k: nat, g: Gap, pieces: seq<string>)
    requires k <= |s| && Keeps(Marks(LStrip(s[k..]), 3), MarksOf(pieces))
    ensures Keeps(Marks(s, g), MarksOf(OrNone(RStrip(s[..k])) + pieces))
  {
    assert s == s[..k] + s[k..];
    MarksOfConcat(s[..k], s[k..], g);
    RStripKeepsMarks(s[..k], 3);
    MoreGap(s[..k], g, 3);
    LStripKeepsMarks(s[k..], GapAfter(s[..k], g));
    KeepsTransitively(Marks(s[k..], GapAfter(s[..k], g)), Marks(LStrip(s[k..]), 3), MarksOf(pieces));
    MarksOfLists(OrNone(RStrip(s[..k])), pieces);
    MarksOfOne(RStrip(s[..k]));
    KeepsBoth(Marks(s[..k], g), Marks(s[..k], 3), Marks(s[k..], GapAfter(s[..k], g)), MarksOf(pieces));
  }

  lemma {:induction false} HardSplitKeeps(s: string, max: nat)
    requires max >= MIN_CHUNK_SIZE
    ensures Keeps(Marks(s, 3), MarksOf(HardSplit(s, max)))
    decreases |s|
  {
    if |s| <= max {
      HardSplitEnd(s, max);
      MarksOfOne(s);
    } else {
      var k := SplitAt(s, max);
      HardSplitKeeps(LStrip(s[k..]), max);
      HardSplitStep(s, max);
      CutKeeps(s, k, 3, HardSplit(LStrip(s[k..]), max));
    }
  }

  predicate Fits(pieces: seq<string>, max: nat) {
    forall x | x in pieces :: x != "" && |x| <= max
  }

  lemma {:induction false} HardSplitFits(s: string, max: nat)
    requires max >= MIN_CHUNK_SIZE
    ensures Fits(HardSplit(s, max), max)
    decreases |s|
  {
    if |s| <= max {
      HardSplitEnd(s, max);
    } else {
      HardSplitFits(LStrip(s[SplitAt(s, max)..]), max);
      HardSplitStep(s, max);
    }
  }

  // ---------------------------------------------------------------- sentences

  /** The marks of sentences with a blank between them. */
  function MarksJoined(sentences: seq<string>, g: Gap): seq<Mark> {
    if sentences == [] then [] else Marks(sentences[0], g) + MarksJoined(sentences[1..], 1)
  }

  lemma {:induction false} SentenceEndsInWord(c: char)
    requires EndsSentence(c)
    ensures !IsSpace(c)
  {
  }

  /** White space without a paragraph break is a gap below that of a paragraph. */
  lemma {:induction false} SmallGap(run: string, g: Gap)
    requires AllSpace(run) && g <= 2 && NoBreak(run) && (g == 2 ==> forall i | 0 <= i < |run| :: run[i] != '\n')
    ensures GapAfter(run, g) <= 2 && (run != "" ==> GapAfter(run, g) > 0)
  {
    if run != "" {
      SliceHasNoBreak(run, 1, |run|);
      assert run[1..|run|] == run[1..];
      if run[0] == '\n' {
        forall i | 0 <= i < |run[1..]|
          ensures run[1..][i] != '\n'
        {
          assert !IsBreakAt(run, 0, i + 1);
        }
      }
      SmallGap(run[1..], AfterSpace(g, run[0]));
      if |run| == 1 {
        assert run[1..] == "";
      }
    }
  }

  lemma {:induction false} FirstSentence(s: string) returns (first: string, run: string, rest: string)
    requires NoBreak(s) && SentenceEnd(s, 0) < |s|
    ensures s == first + run + rest && Sentences(s) == [first] + Sentences(rest) && |rest| < |s|
    ensures first != "" && EndsSentence(first[|first| - 1]) && AllSpace(run) && run != ""
    ensures rest != "" ==> !IsSpace(rest[0])
    ensures NoBreak(first) && NoBreak(run) && NoBreak(rest)
  {
    var k := SentenceEnd(s, 0);
    var tail;
    first, tail := TwoSlices(s, k);
    SplitSentences(s);
    run, rest := LeadingRun(tail);
    Associative(first, run, rest);
  }

  lemma {:induction false} SplitSentences(s: string)
    requires SentenceEnd(s, 0) < |s|
    ensures var k := SentenceEnd(s, 0);
            Sentences(s) == [s[..k]] + Sentences(LStrip(s[k..])) && IsSpace(s[k..][0]) && k > 0 && EndsSentence(s[..k][k - 1])
  {
  }

  lemma {:induction false} LeadingRun(s: string) returns (run: string, rest: string)
    requires NoBreak(s) && s != "" && IsSpace(s[0])
    ensures s == run + rest && rest == LStrip(s) && AllSpace(run) && run != ""
    ensures rest != "" ==> !IsSpace(rest[0])
    ensures NoBreak(run) && NoBreak(rest)
  {
    run, rest := TwoSlices(s, Leading(s));
  }

  lemma {:induction false} TwoSlices(s: string, k: nat) returns (a: string, b: string)
    requires NoBreak(s) && k <= |s|
    ensures a == s[..k] && b == s[k..] && s == a + b && NoBreak(a) && NoBreak(b)
  {
    a, b := s[..k], s[k..];
    SliceHasNoBreak(s, 0, k);
    SliceHasNoBreak(s, k, |s|);
    assert s[0..k] == a && s[k..|s|] == b;
  }

  lemma {:induction false} SentencesKeep(s: string, g: Gap)
    requires NoBreak(s)
    ensures Keeps(Marks(s, g), MarksJoined(Sentences(s), g))
    ensures forall x | x in Sentences(s) :: NoBreak(x)
    decreases |s|
  {
    if s != "" && SentenceEnd(s, 0) < |s| {
      var first, run, rest := FirstSentence(s);
      SentencesKeep(rest, 1);
      SentenceKeeps(first, run, rest, g);
    } else if s != "" {
      assert Sentences(s) == [s];
      JoinedOne(s, g);
    }
  }

  lemma {:induction false} JoinedOne(s: string, g: Gap)
    ensures MarksJoined([s], g) == Marks(s, g)
  {
    assert [s][1..] == [];
    assert MarksJoined([s], g) == Marks(s, g) + MarksJoined([], 1);
  }

  lemma {:induction false} SentenceKeeps(first: string, run: string, rest: string, g: Gap)
    requires first != "" && EndsSentence(first[|first| - 1]) && AllSpace(run) && run != "" && NoBreak(run)
    requires rest != "" ==> !IsSpace(rest[0])
    requires Keeps(Marks(rest, 1), MarksJoined(Sentences(rest), 1))
    ensures Keeps(Marks(first + run + rest, g), MarksJoined([first] + Sentences(rest), g))
  {
    SentenceEndsInWord(first[|first| - 1]);
    AfterWord(first, g);
    MarksOfConcat(first + run, rest, g);
    MarksOfConcat(first, run, g);
    SpaceHasNoMarks(run, 0);
    SmallGap(run, 0);
    SameKindOfGap(rest, GapAfter(run, 0), 1);
    KeepsTransitively(Marks(rest, GapAfter(run, 0)), Marks(rest, 1), MarksJoined(Sentences(rest), 1));
    assert ([first] + Sentences(rest))[1..] == Sentences(rest);
    assert Marks(first, g) + [] == Marks(first, g);
    KeepsBoth(Marks(first, g), Marks(first, g), Marks(rest, GapAfter(run, 0)), MarksJoined(Sentences(rest), 1));
  }

  lemma {:induction false} MoreGapJoined(sentences: seq<string>)
    ensures Keeps(MarksJoined(sentences, 1), MarksJoined(sentences, 3))
  {
    if sentences != [] {
      MoreGap(sentences[0], 1, 3);
      KeepsBoth(Marks(sentences[0], 1), Marks(sentences[0], 3), MarksJoined(sentences[1..], 1), MarksJoined(sentences[1..], 1));
    }
  }

  /** The gap before the next sentence: that of a blank, or of a new chunk. */
  function Next(current: string): Gap {
    if current == "" then 3 else 1
  }

  ghost predicate SentencesOf(sentences: seq<string>, bound: nat) {
    forall x | x in sentences :: x != "" && |x| < bound && NoBreak(x)
  }

  /** One round keeps the marks at hand and those of the sentence. */
  lemma {:induction false} PackOneKeeps(sentence: string, current: string, max: nat)
    requires max >= MIN_CHUNK_SIZE && sentence != "" && NoBreak(sentence)
    ensures var round := PackOne(sentence, current, max);
            Keeps(Marks(current, 3) + Marks(sentence, Next(current)), MarksOf(round.0) + Marks(round.1, 3))
    decreases |sentence|, 2, 0
  {
    var candidate := if current == "" then sentence else current + " " + sentence;
    MarksOfOne(current);
    if |candidate| <= max {
      CandidateKeeps(sentence, current);
      assert [] + Marks(candidate, 3) == Marks(candidate, 3);
    } else {
      MoreGap(sentence, Next(current), 3);
      if |sentence| <= max {
        KeepsBoth(Marks(current, 3), Marks(current, 3), Marks(sentence, Next(current)), Marks(sentence, 3));
      } else {
        SplitBlockKeeps(sentence, max);
        KeepsTransitively(Marks(sentence, Next(current)), Marks(sentence, 3), MarksOf(SplitBlock(sentence, max)));
        KeepsBoth(Marks(current, 3), Marks(current, 3), Marks(sentence, Next(current)), MarksOf(SplitBlock(sentence, max)));
        MarksOfLists(OrNone(current), SplitBlock(sentence, max));
        var all := MarksOf(OrNone(current) + SplitBlock(sentence, max));
        assert all + Marks("", 3) == all;
      }
    }
  }

  lemma {:induction false} CandidateKeeps(sentence: string, current: string)
    ensures var candidate := if current == "" then sentence else current + " " + sentence;
            Keeps(Marks(current, 3) + Marks(sentence, Next(current)), Marks(candidate, 3))
  {
    if current == "" {
      assert Marks(current, 3) + Marks(sentence, 3) == Marks(sentence, 3);
    } else {
      assert IsSpace(' ');
      MarksOfConcat(current + " ", sentence, 3);
      MarksOfConcat(current, " ", 3);
      SpaceHasNoMarks(" ", GapAfter(current, 3));
      EndsInSpace(current, ' ', 3);
      MoreGap(sentence, 1, GapAfter(current + " ", 3));
      assert Marks(current, 3) + [] == Marks(current, 3);
      KeepsBoth(Marks(current, 3), Marks(current, 3), Marks(sentence, 1), Marks(sentence, GapAfter(current + " ", 3)));
    }
  }

  lemma {:induction false} PackKeeps(sentences: seq<string>, current: string, max: nat, bound: nat)
    requires max >= MIN_CHUNK_SIZE && SentencesOf(sentences, bound)
    ensures Keeps(Marks(current, 3) + MarksJoined(sentences, Next(current)), MarksOf(Pack(sentences, current, max, bound)))
    decreases bound, 0, |sentences|
  {
    if sentences == [] {
      MarksOfOne(current);
      assert Marks(current, 3) + [] == Marks(current, 3);
    } else {
      var first, rest := sentences[0], sentences[1..];
      assert first in sentences && forall x | x in rest :: x in sentences;
      var round := PackOne(first, current, max);
      PackOneKeeps(first, current, max);
      PackKeeps(rest, round.1, max, bound);
      RoundKeeps(first, rest, current, round.0, round.1, Pack(rest, round.1, max, bound));
    }
  }

  lemma {:induction false} RoundKeeps(first: string, rest: seq<string>, current: string, completed: seq<string>, left: string,
                                      more: seq<string>)
    requires Keeps(Marks(current, 3) + Marks(first, Next(current)), MarksOf(completed) + Marks(left, 3))
    requires Keeps(Marks(left, 3) + MarksJoined(rest, Next(left)), MarksOf(more))
    ensures Keeps(Marks(current, 3) + (Marks(first, Next(current)) + MarksJoined(rest, 1)), MarksOf(completed + more))
  {
    var a, b := Marks(current, 3), Marks(first, Next(current));
    var j := MarksJoined(rest, 1);
    if left == "" {
      MoreGapJoined(rest);
    }
    assert Keeps(j, j);
    KeepsBoth(a + b, MarksOf(completed) + Marks(left, 3), j, MarksJoined(rest, Next(left)));
    KeepsBoth(MarksOf(completed), MarksOf(completed), Marks(left, 3) + MarksJoined(rest, Next(left)), MarksOf(more));
    assert a + b + j == a + (b + j);
    var m := MarksJoined(rest, Next(left));
    assert MarksOf(completed) + Marks(left, 3) + m == MarksOf(completed) + (Marks(left, 3) + m);
    MarksOfLists(completed, more);
    KeepsTransitively(a + (b + j), MarksOf(completed) + (Marks(left, 3) + m), MarksOf(completed + more));
  }

  /** The pieces of a block lose nothing of it. */
  lemma {:induction false} SplitBlockKeeps(block: string, max: nat)
    requires max >= MIN_CHUNK_SIZE && NoBreak(block)
    ensures Keeps(Marks(block, 3), MarksOf(SplitBlock(block, max)))
    decreases |block|, 1, 0
  {
    var sentences := Sentences(block);
    MarksOfOne(block);
    if |block| > max && |sentences| > 1 {
      SentencesKeep(block, 3);
      PackKeeps(sentences, "", max, |block|);
      assert Marks("", 3) + MarksJoined(sentences, 3) == MarksJoined(sentences, 3);
      KeepsTransitively(Marks(block, 3), MarksJoined(sentences, 3), MarksOf(SplitBlock(block, max)));
    } else if |block| > max {
      HardSplitKeeps(block, max);
    }
  }

  lemma {:induction false} PackFits(sentences: seq<string>, current: string, max: nat, bound: nat)
    requires max >= MIN_CHUNK_SIZE && |current| <= max && forall x | x in sentences :: x != "" && |x| < bound
    ensures Fits(Pack(sentences, current, max, bound), max)
    decreases bound, 0, |sentences|
  {
    if sentences != [] {
      var sentence := sentences[0];
      assert sentence in sentences && forall x | x in sentences[1..] :: x in sentences;
      var round := PackOne(sentence, current, max);
      if |sentence| > max {
        SplitBlockFits(sentence, max);
      }
      PackFits(sentences[1..], round.1, max, bound);
    }
  }

  lemma {:induction false} SplitBlockFits(block: string, max: nat)
    requires max >= MIN_CHUNK_SIZE && block != ""
    ensures Fits(SplitBlock(block, max), max)
    decreases |block|, 1, 0
  {
    if |block| > max {
      if |Sentences(block)| > 1 {
        PackFits(Sentences(block), "", max, |block|);
      } else {
        HardSplitFits(block, max);
      }
    }
  }

  // ---------------------------------------------------------------- the whole text

  /** The marks of the chunks made so far and of the one at hand. */
  function MarksIn(st: Filling): seq<Mark> {
    MarksOf(st.chunks) + Marks(st.current, 3)
  }

  predicate InBounds(st: Filling, max: nat) {
    (forall c | c in st.chunks :: |c| <= max) && |st.current| <= max
  }

  lemma {:induction false} PushedKeeps(st: Filling)
    ensures MarksOf(Pushed(st)) == MarksIn(st)
  {
    RStripKeepsMarks(st.current, 3);
    MarksOfOne(RStrip(st.current));
    MarksOfLists(st.chunks, [RStrip(st.current)]);
    assert MarksOf(st.chunks) + [] == MarksOf(st.chunks);
  }

  lemma {:induction false} AddPieceKeeps(st: Filling, piece: string, max: nat)
    requires InBounds(st, max) && |piece| <= max
    ensures MarksIn(AddPiece(st, piece, max)) == MarksIn(st) + Marks(piece, 3) && InBounds(AddPiece(st, piece, max), max)
  {
    PushedKeeps(st);
    if st.current != "" {
      JoinedPiece(st.current, piece);
      var chunks := MarksOf(st.chunks);
      assert chunks + (Marks(st.current, 3) + Marks(piece, 3)) == chunks + Marks(st.current, 3) + Marks(piece, 3);
    } else {
      assert MarksIn(st) == MarksOf(st.chunks);
    }
  }

  lemma {:induction false} JoinedPiece(current: string, piece: string)
    ensures var separator := if EndsWithBlankLine(current) then "" else "\n\n";
            Marks(current + separator + piece, 3) == Marks(current, 3) + Marks(piece, 3)
  {
    var separator := if EndsWithBlankLine(current) then "" else "\n\n";
    assert IsSpace('\n');
    MarksOfConcat(current + separator, piece, 3);
    MarksOfConcat(current, separator, 3);
    SpaceHasNoMarks(separator, GapAfter(current, 3));
    assert EndsWithBlankLine(current + separator);
    BlankLineGap(current + separator, 3);
    assert Marks(current, 3) + [] == Marks(current, 3);
  }

  lemma {:induction false} OneMoreText(start: seq<Mark>, texts: seq<string>, last: string)
    ensures start + MarksOf(texts) + Marks(last, 3) == start + MarksOf(texts + [last])
  {
    MarksOfLists(texts, [last]);
    MarksOfOne(last);
  }

  lemma {:induction false} AddPiecesKeep(st: Filling, pieces: seq<string>, max: nat)
    requires InBounds(st, max) && Fits(pieces, max)
    ensures MarksIn(AddPieces(st, pieces, max)) == MarksIn(st) + MarksOf(pieces) && InBounds(AddPieces(st, pieces, max), max)
  {
    if pieces == [] {
      assert MarksIn(st) + [] == MarksIn(st);
    } else {
      var before, last := pieces[..|pieces| - 1], pieces[|pieces| - 1];
      assert pieces == before + [last];
      AddPiecesKeep(st, before, max);
      AddPieceKeeps(AddPieces(st, before, max), last, max);
      OneMoreText(MarksIn(st), before, last);
    }
  }

  lemma {:induction false} AddPartKeeps(st: Filling, part: string, max: nat)
    requires max >= MIN_CHUNK_SIZE && InBounds(st, max) && Pure(part)
    ensures Keeps(MarksIn(st) + Marks(part, 3), MarksIn(AddPart(st, part, max))) && InBounds(AddPart(st, part, max), max)
  {
    if part == "" {
      assert MarksIn(st) + [] == MarksIn(st);
    } else if IsBreak(part) {
      AddBreakKeeps(st, part, max);
    } else {
      SplitBlockKeeps(part, max);
      SplitBlockFits(part, max);
      AddPiecesKeep(st, SplitBlock(part, max), max);
      KeepsBoth(MarksIn(st), MarksIn(st), Marks(part, 3), MarksOf(SplitBlock(part, max)));
    }
  }

  lemma {:induction false} AddBreakKeeps(st: Filling, part: string, max: nat)
    requires max >= MIN_CHUNK_SIZE && InBounds(st, max) && IsBreak(part)
    ensures MarksIn(AddPart(st, part, max)) == MarksIn(st) + Marks(part, 3) && InBounds(AddPart(st, part, max), max)
  {
    BreakIsSpace(part);
    SpaceHasNoMarks(part, 3);
    SpaceHasNoMarks(part, GapAfter(st.current, 3));
    MarksOfConcat(st.current, part, 3);
    PushedKeeps(st);
    assert MarksIn(st) + [] == MarksIn(st) && Marks(st.current, 3) + [] == Marks(st.current, 3);
    assert MarksOf(Pushed(st)) + Marks("", 3) == MarksOf(Pushed(st));
  }

  lemma {:induction false} AddPartsKeep(parts: seq<string>, max: nat)
    requires max >= MIN_CHUNK_SIZE && AllPure(parts)
    ensures var st := AddParts(Filling([], ""), parts, max);
            Keeps(MarksOf(parts), MarksIn(st)) && InBounds(st, max)
  {
    if parts != [] {
      var before, last := parts[..|parts| - 1], parts[|parts| - 1];
      assert parts == before + [last] && last in parts && forall p | p in before :: p in parts;
      AddPartsKeep(before, max);
      var st := AddParts(Filling([], ""), before, max);
      AddPartKeeps(st, last, max);
      MarksOfLists(before, [last]);
      MarksOfOne(last);
      KeepsBoth(MarksOf(before), MarksIn(st), Marks(last, 3), Marks(last, 3));
      KeepsTransitively(MarksOf(parts), MarksIn(st) + Marks(last, 3), MarksIn(AddPart(st, last, max)));
    }
  }

  lemma {:induction false} NonEmptyKeeps(chunks: seq<string>)
    ensures MarksOf(NonEmpty(chunks)) == MarksOf(chunks)
    ensures forall x :: x in NonEmpty(chunks) <==> x in chunks && x != ""
  {
    if chunks != [] {
      assert chunks == [chunks[0]] + chunks[1..];
      NonEmptyKeeps(chunks[1..]);
      MarksOfOne(chunks[0]);
      MarksOfLists(OrNone(chunks[0]), NonEmpty(chunks[1..]));
    }
  }

  /** A split gives chunks that are not empty and not too long, and loses no character and no gap of the text. */
  lemma {:induction false} SplitKeepsTheText(source: string, max: nat)
    ensures var r := Split(source, max);
            && (r.InvalidSize? <==> source != "" && max < MIN_CHUNK_SIZE)
            && (r.Chunks? ==> Fits(r.chunks, max) && Keeps(Marks(source, 3), MarksOf(r.chunks)))
  {
    MarksOfOne(source);
    if source != "" && max >= MIN_CHUNK_SIZE && |source| > max {
      var st := AddParts(Filling([], ""), Paragraphs(source), max);
      ParagraphsKeep(source, 3);
      AddPartsKeep(Paragraphs(source), max);
      KeepsTransitively(Marks(source, 3), MarksOf(Paragraphs(source)), MarksIn(st));
      PushedKeeps(st);
      NonEmptyKeeps(Pushed(st));
    }
  }

  // ---------------------------------------------------------------- merging

  lemma {:induction false} StrippedKeep(chunks: seq<string>)
    ensures MarksOf(StrippedNonBlank(chunks)) == MarksOf(chunks)
  {
    if chunks != [] {
      StrippedKeep(chunks[1..]);
      StripKeepsMarks(chunks[0]);
      MarksOfOne(Strip(chunks[0]));
      MarksOfLists(OrNone(Strip(chunks[0])), StrippedNonBlank(chunks[1..]));
    }
  }

  lemma {:induction false} JoinKeeps(parts: seq<string>)
    ensures Marks(Join("\n\n", parts), 3) == MarksOf(parts)
  {
    if |parts| == 1 {
      MarksOfOne(parts[0]);
      assert parts == [parts[0]];
    } else if parts != [] {
      JoinKeeps(parts[1..]);
      assert IsSpace('\n');
      MarksOfConcat(parts[0] + "\n\n", Join("\n\n", parts[1..]), 3);
      MarksOfConcat(parts[0], "\n\n", 3);
      SpaceHasNoMarks("\n\n", GapAfter(parts[0], 3));
      BlankLineGap(parts[0] + "\n\n", 3);
      assert Marks(parts[0], 3) + [] == Marks(parts[0], 3);
    }
  }

  /** Merging chunks, whatever they are, keeps their words in order and puts a paragraph break between two chunks. */
  lemma {:induction false} MergeKeepsChunks(chunks: seq<string>)
    ensures Marks(Merge(chunks), 3) == MarksOf(chunks)
  {
    StrippedKeep(chunks);
    JoinKeeps(StrippedNonBlank(chunks));
    StripKeepsMarks(Join("\n\n", StrippedNonBlank(chunks)));
  }

  /** The chunks without the white space around them, and without those that are blank. */
  function Tidy(chunks: seq<string>): seq<string> {
    if chunks == [] then []
    else Tidy(chunks[..|chunks| - 1]) + if Strip(chunks[|chunks| - 1]) == "" then [] else [Strip(chunks[|chunks| - 1])]
  }

  lemma {:induction false} LastStripped(chunks: seq<string>, last: string)
    ensures StrippedNonBlank(chunks + [last]) == StrippedNonBlank(chunks) + OrNone(Strip(last))
  {
    if chunks == [] {
      assert [last][1..] == [] && StrippedNonBlank([]) == [];
      assert chunks + [last] == [last];
    } else {
      assert (chunks + [last])[0] == chunks[0] && (chunks + [last])[1..] == chunks[1..] + [last];
      LastStripped(chunks[1..], last);
    }
  }

  lemma {:induction false} StrippedAreTidy(chunks: seq<string>)
    ensures StrippedNonBlank(chunks) == Tidy(chunks)
    ensures forall i | 0 <= i < |Tidy(chunks)| ::
              var x := Tidy(chunks)[i]; x != "" && !IsSpace(x[0]) && !IsSpace(x[|x| - 1])
  {
    if chunks != [] {
      var n := |chunks| - 1;
      assert chunks == chunks[..n] + [chunks[n]];
      StrippedAreTidy(chunks[..n]);
      LastStripped(chunks[..n], chunks[n]);
      StripEnds(chunks[n]);
    }
  }

  lemma {:induction false} JoinEnds(parts: seq<string>)
    requires forall i | 0 <= i < |parts| ::
               parts[i] != "" && !IsSpace(parts[i][0]) && !IsSpace(parts[i][|parts[i]| - 1])
    ensures var s := Join("\n\n", parts); s == "" || (!IsSpace(s[0]) && !IsSpace(s[|s| - 1]))
    ensures parts != [] ==> Join("\n\n", parts) != ""
  {
    if |parts| > 1 {
      JoinEnds(parts[1..]);
      var rest := Join("\n\n", parts[1..]);
      var s := parts[0] + "\n\n" + rest;
      assert s[0] == parts[0][0] && s[|s| - 1] == rest[|rest| - 1];
    }
  }

  /** The merged text is the chunks, stripped and without blank ones, with an empty line between two of them. */
  lemma {:induction false} MergeIsTheJoin(chunks: seq<string>)
    ensures Merge(chunks) == Join("\n\n", Tidy(chunks))
  {
    StrippedAreTidy(chunks);
    JoinEnds(Tidy(chunks));
    StripOfStripped(Join("\n\n", Tidy(chunks)));
  }

  /** Splitting and merging joins no two words, no two paragraphs, and loses or reorders no character of a word. */
  lemma {:induction false} SplitAndMerge(source: string, max: nat)
    requires Split(source, max).Chunks?
    ensures Keeps(Marks(source, 3), Marks(Merge(Split(source, max).chunks), 3))
  {
    SplitKeepsTheText(source, max);
    MergeKeepsChunks(Split(source, max).chunks);
  }
}
