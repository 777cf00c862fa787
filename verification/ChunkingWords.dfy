/** When splitting cuts no word, and how full the chunks are. */
module ChunkingWords {
  import opened Text
  import opened TextMarks
  import opened Chunking
  import opened ChunkingMeaning

  // ---------------------------------------------------------------- words

  /** The characters of the marks, each with whether a word starts with it. */
  function Starts(ms: seq<Mark>): seq<(char, bool)> {
    seq(|ms|, i requires 0 <= i < |ms| => (ms[i].c, ms[i].gap > 0))
  }

  lemma {:induction false} StartsOfConcat(a: seq<Mark>, b: seq<Mark>)
    ensures Starts(a + b) == Starts(a) + Starts(b)
  {
  }

  /** Whether a word starts does not depend on the kind of gap. */
  lemma {:induction false} StartsAfterGap(s: string, g: Gap, h: Gap)
    requires (g > 0 && h > 0) || (s != "" && IsSpace(s[0])) || g == h
    ensures Starts(Marks(s, g)) == Starts(Marks(s, h))
  {
    if s != "" && IsSpace(s[0]) {
      StartsAfterGap(s[1..], AfterSpace(g, s[0]), AfterSpace(h, s[0]));
    } else if s != "" {
      StartsOfConcat([Mark(s[0], g)], Marks(s[1..], 0));
      StartsOfConcat([Mark(s[0], h)], Marks(s[1..], 0));
    }
  }

  /** Two texts with white space between them: the second one starts a word, as it does on its own. */
  lemma {:induction false} StartsOfParts(a: string, b: string, g: Gap, h: Gap)
    requires g > 0 && h > 0
    requires GapAfter(a, g) > 0 || b == "" || IsSpace(b[0])
    ensures Starts(Marks(a + b, g)) == Starts(Marks(a, h)) + Starts(Marks(b, 3))
  {
    MarksOfConcat(a, b, g);
    StartsOfConcat(Marks(a, g), Marks(b, GapAfter(a, g)));
    StartsAfterGap(a, g, h);
    if b != "" {
      StartsAfterGap(b, GapAfter(a, g), 3);
    }
  }

  lemma {:induction false} GapAfterSpace(run: string, g: Gap)
    requires AllSpace(run) && (g > 0 || run != "")
    ensures GapAfter(run, g) > 0
  {
    if run != "" {
      assert run[0] in run;
      GapAfterSpace(run[1..], AfterSpace(g, run[0]));
    }
  }

  // ---------------------------------------------------------------- short runs

  /** There is a blank among the `half + 1` characters from `i` on. */
  predicate BlankFrom(s: string, i: nat, half: nat) {
    exists k | i <= k <= i + half && k < |s| :: s[k] == ' '
  }

  /** No run of characters without a blank is longer than `half`. */
  predicate ShortRuns(s: string, half: nat) {
    forall i | 0 <= i < |s| - half :: BlankFrom(s, i, half)
  }

  lemma {:induction false} SliceHasShortRuns(s: string, a: nat, b: nat, half: nat)
    requires ShortRuns(s, half) && a <= b <= |s|
    ensures ShortRuns(s[a..b], half)
  {
    forall i | 0 <= i < |s[a..b]| - half
      ensures BlankFrom(s[a..b], i, half)
    {
      assert BlankFrom(s, a + i, half);
      var k :| a + i <= k <= a + i + half && k < |s| && s[k] == ' ';
      assert s[a..b][k - a] == ' ';
    }
  }

  lemma {:induction false} TailHasShortRuns(s: string, a: nat, half: nat)
    requires ShortRuns(s, half) && a <= |s|
    ensures ShortRuns(s[a..], half)
  {
    SliceHasShortRuns(s, a, |s|, half);
    assert s[a..|s|] == s[a..];
  }

  // ---------------------------------------------------------------- hard cuts

  /**
   * The cut is at the last blank up to the limit, if that lies in the second half; only if there is no blank in the second
   * half it is at the limit.
   */
  lemma {:induction false} CutIsAtTheLastBlank(s: string, max: nat)
    requires |s| > max >= MIN_CHUNK_SIZE
    ensures var k := SplitAt(s, max);
            if exists j | max / 2 <= j <= max :: s[j] == ' '
            then max / 2 <= k <= max && s[k] == ' ' && forall j | k < j <= max :: s[j] != ' '
            else k == max
  {
  }

  /** The condition is needed: a word that is longer than the limit is cut there. */
  lemma {:induction false} LongWordIsCut(word: string, max: nat)
    requires |word| > max >= MIN_CHUNK_SIZE && forall i | 0 <= i < |word| :: !IsSpace(word[i])
    ensures HardSplit(word, max) == [word[..max]] + HardSplit(word[max..], max)
  {
    assert IsSpace(' ');
    CutIsAtTheLastBlank(word, max);
    HardSplitStep(word, max);
    assert RStrip(word[..max]) == word[..max] && LStrip(word[max..]) == word[max..];
  }

  lemma {:induction false} CutIsAtABlank(s: string, max: nat)
    requires |s| > max >= MIN_CHUNK_SIZE && ShortRuns(s, max / 2)
    ensures s[SplitAt(s, max)] == ' '
  {
    var i := max - max / 2;
    assert BlankFrom(s, i, max / 2);
    var k :| i <= k <= i + max / 2 && k < |s| && s[k] == ' ';
    CutIsAtTheLastBlank(s, max);
    assert max / 2 <= k <= max && s[k] == ' ';
  }

  lemma {:induction false} PiecesStart(pieces: seq<string>, more: seq<string>)
    ensures Starts(MarksOf(pieces + more)) == Starts(MarksOf(pieces)) + Starts(MarksOf(more))
  {
    MarksOfLists(pieces, more);
    StartsOfConcat(MarksOf(pieces), MarksOf(more));
  }

  lemma {:induction false} BlankCutStarts(s: string, k: nat, pieces: seq<string>)
    requires k < |s| && s[k] == ' ' && Starts(Marks(LStrip(s[k..]), 3)) == Starts(MarksOf(pieces))
    ensures Starts(Marks(s, 3)) == Starts(MarksOf(OrNone(RStrip(s[..k])) + pieces))
  {
    assert s == s[..k] + s[k..] && IsSpace(' ');
    StartsOfParts(s[..k], s[k..], 3, 3);
    RStripKeepsMarks(s[..k], 3);
    LStripKeepsMarks(s[k..], 3);
    MarksOfOne(RStrip(s[..k]));
    PiecesStart(OrNone(RStrip(s[..k])), pieces);
  }

  lemma {:induction false} HardSplitStarts(s: string, max: nat)
    requires max >= MIN_CHUNK_SIZE && ShortRuns(s, max / 2)
    ensures Starts(Marks(s, 3)) == Starts(MarksOf(HardSplit(s, max)))
    decreases |s|
  {
    if |s| <= max {
      HardSplitEnd(s, max);
      MarksOfOne(s);
    } else {
      var k := SplitAt(s, max);
      var rest := s[k..];
      CutIsAtABlank(s, max);
      TailHasShortRuns(s, k, max / 2);
      TailHasShortRuns(rest, Leading(rest), max / 2);
      HardSplitStarts(LStrip(rest), max);
      HardSplitStep(s, max);
      BlankCutStarts(s, k, HardSplit(LStrip(rest), max));
    }
  }

  // ---------------------------------------------------------------- sentences

  ghost predicate AllShort(sentences: seq<string>, half: nat) {
    forall x | x in sentences :: ShortRuns(x, half)
  }

  lemma {:induction false} SentencesStart(s: string, half: nat)
    requires NoBreak(s) && ShortRuns(s, half)
    ensures Starts(Marks(s, 3)) == Starts(MarksOf(Sentences(s))) && AllShort(Sentences(s), half)
    decreases |s|
  {
    if s != "" && SentenceEnd(s, 0) < |s| {
      var k := SentenceEnd(s, 0);
      var first, run, rest := FirstSentence(s);
      SentencesAreSlices(s, k, half);
      SplitSentences(s);
      SentencesStart(LStrip(s[k..]), half);
      CutStarts(s, k, Sentences(LStrip(s[k..])));
    } else if s != "" {
      assert Sentences(s) == [s];
      MarksOfOne(s);
    }
  }

  lemma {:induction false} SentencesAreSlices(s: string, k: nat, half: nat)
    requires NoBreak(s) && ShortRuns(s, half) && k <= |s|
    ensures ShortRuns(s[..k], half) && ShortRuns(LStrip(s[k..]), half) && NoBreak(LStrip(s[k..]))
  {
    SliceHasShortRuns(s, 0, k, half);
    assert s[0..k] == s[..k];
    TailHasShortRuns(s, k, half);
    TailHasShortRuns(s[k..], Leading(s[k..]), half);
    SliceHasNoBreak(s, k + Leading(s[k..]), |s|);
    assert s[k + Leading(s[k..])..|s|] == LStrip(s[k..]);
  }

  lemma {:induction false} CutStarts(s: string, k: nat, pieces: seq<string>)
    requires k < |s| && IsSpace(s[k]) && Starts(Marks(LStrip(s[k..]), 3)) == Starts(MarksOf(pieces))
    ensures Starts(Marks(s, 3)) == Starts(MarksOf([s[..k]] + pieces))
  {
    assert s == s[..k] + s[k..];
    StartsOfParts(s[..k], s[k..], 3, 3);
    LStripKeepsMarks(s[k..], 3);
    MarksOfOne(s[..k]);
    PiecesStart([s[..k]], pieces);
  }

  // ---------------------------------------------------------------- packing sentences

  lemma {:induction false} CandidateStarts(sentence: string, current: string)
    ensures var candidate := if current == "" then sentence else current + " " + sentence;
            Starts(Marks(candidate, 3)) == Starts(Marks(current, 3)) + Starts(Marks(sentence, 3))
  {
    if current != "" {
      assert IsSpace(' ') && AllSpace(" ");
      StartsOfParts(current, " " + sentence, 3, 3);
      assert current + (" " + sentence) == current + " " + sentence;
      LStripKeepsMarks(" " + sentence, 3);
      MarksOfConcat(" ", sentence, 3);
      SpaceHasNoMarks(" ", 3);
    }
  }

  lemma {:induction false} PackOneStarts(sentence: string, current: string, max: nat)
    requires max >= MIN_CHUNK_SIZE && NoBreak(sentence) && ShortRuns(sentence, max / 2)
    ensures var round := PackOne(sentence, current, max);
            Starts(Marks(current, 3)) + Starts(Marks(sentence, 3)) == Starts(MarksOf(round.0)) + Starts(Marks(round.1, 3))
    decreases |sentence|, 2, 0
  {
    var candidate := if current == "" then sentence else current + " " + sentence;
    MarksOfOne(current);
    if |candidate| <= max {
      CandidateStarts(sentence, current);
      assert MarksOf([]) == [];
    } else if |sentence| > max {
      SplitBlockStarts(sentence, max);
      PiecesStart(OrNone(current), SplitBlock(sentence, max));
    }
  }

  lemma {:induction false} PackStarts(sentences: seq<string>, current: string, max: nat, bound: nat)
    requires max >= MIN_CHUNK_SIZE && SentencesOf(sentences, bound) && AllShort(sentences, max / 2)
    ensures Starts(Marks(current, 3)) + Starts(MarksOf(sentences)) == Starts(MarksOf(Pack(sentences, current, max, bound)))
    decreases bound, 0, |sentences|
  {
    if sentences == [] {
      MarksOfOne(current);
    } else {
      var first, rest := sentences[0], sentences[1..];
      assert sentences == [first] + rest && first in sentences && forall x | x in rest :: x in sentences;
      var round := PackOne(first, current, max);
      PackOneStarts(first, current, max);
      PackStarts(rest, round.1, max, bound);
      MarksOfOne(first);
      PiecesStart([first], rest);
      PiecesStart(round.0, Pack(rest, round.1, max, bound));
      Regroup(Starts(Marks(current, 3)), Starts(Marks(first, 3)), Starts(MarksOf(rest)), Starts(MarksOf(round.0)),
              Starts(Marks(round.1, 3)));
    }
  }

  lemma {:induction false} Regroup<T>(a: seq<T>, b: seq<T>, c: seq<T>, x: seq<T>, y: seq<T>)
    requires a + b == x + y
    ensures a + (b + c) == x + (y + c)
  {
    assert a + (b + c) == a + b + c && x + (y + c) == x + y + c;
  }

  /** The pieces of a block have exactly its words. */
  lemma {:induction false} SplitBlockStarts(block: string, max: nat)
    requires max >= MIN_CHUNK_SIZE && NoBreak(block) && ShortRuns(block, max / 2)
    ensures Starts(Marks(block, 3)) == Starts(MarksOf(SplitBlock(block, max)))
    decreases |block|, 1, 0
  {
    var sentences := Sentences(block);
    MarksOfOne(block);
    if |block| > max && |sentences| > 1 {
      SentencesStart(block, max / 2);
      SentencesKeep(block, 3);
      PackStarts(sentences, "", max, |block|);
      assert Starts(Marks("", 3)) + Starts(MarksOf(sentences)) == Starts(MarksOf(sentences));
    } else if |block| > max {
      HardSplitStarts(block, max);
    }
  }

  // ---------------------------------------------------------------- the whole text

  lemma {:induction false} BreakStarts(first: string, break_: string, rest: string, parts: seq<string>)
    requires IsBreak(break_) && Starts(Marks(rest, 3)) == Starts(MarksOf(parts))
    ensures Starts(Marks(first + break_ + rest, 3)) == Starts(MarksOf([first, break_] + parts))
  {
    BreakAlone(break_, rest, parts);
    Associative(first, break_, rest);
    StartsOfParts(first, break_ + rest, 3, 3);
    MarksOfOne(first);
    PiecesStart([first], [break_] + parts);
    assert [first, break_] + parts == [first] + ([break_] + parts);
  }

  lemma {:induction false} BreakAlone(break_: string, rest: string, parts: seq<string>)
    requires IsBreak(break_) && Starts(Marks(rest, 3)) == Starts(MarksOf(parts))
    ensures Starts(Marks(break_ + rest, 3)) == Starts(MarksOf([break_] + parts))
    ensures break_ + rest != "" && IsSpace((break_ + rest)[0])
  {
    BreakIsSpace(break_);
    SpaceHasNoMarks(break_, 3);
    MarksOfConcat(break_, rest, 3);
    MarksOfOne(break_);
    PiecesStart([break_], parts);
    assert break_[0] in break_;
  }

  lemma {:induction false} ParagraphsStart(s: string, half: nat)
    requires ShortRuns(s, half)
    ensures Starts(Marks(s, 3)) == Starts(MarksOf(Paragraphs(s))) && AllShort(Paragraphs(s), half)
    decreases |s|
  {
    var r := FindBreak(s, 0);
    FirstPartIsPure(s);
    if r.0 == r.1 {
      assert s[..r.0] == s;
      MarksOfOne(s);
    } else {
      var first, break_, rest := ShortParts(s, r.0, r.1, half);
      ParagraphsStart(rest, half);
      BreakStarts(first, break_, rest, Paragraphs(rest));
    }
  }

  lemma {:induction false} ShortParts(s: string, i: nat, j: nat, half: nat)
    returns (first: string, break_: string, rest: string)
    requires i <= j <= |s| && ShortRuns(s, half)
    ensures first == s[..i] && break_ == s[i..j] && rest == s[j..] && s == first + break_ + rest
    ensures ShortRuns(first, half) && ShortRuns(break_, half) && ShortRuns(rest, half)
  {
    first, break_, rest := s[..i], s[i..j], s[j..];
    SliceHasShortRuns(s, 0, i, half);
    SliceHasShortRuns(s, i, j, half);
    TailHasShortRuns(s, j, half);
    assert s[0..i] == s[..i];
  }

  lemma {:induction false} AddPartStarts(st: Filling, part: string, max: nat)
    requires max >= MIN_CHUNK_SIZE && InBounds(st, max) && Pure(part) && ShortRuns(part, max / 2)
    ensures Starts(MarksIn(AddPart(st, part, max))) == Starts(MarksIn(st)) + Starts(Marks(part, 3))
  {
    StartsOfConcat(MarksIn(st), Marks(part, 3));
    if part == "" {
      assert MarksIn(st) + [] == MarksIn(st);
    } else if IsBreak(part) {
      AddBreakKeeps(st, part, max);
    } else {
      SplitBlockStarts(part, max);
      SplitBlockFits(part, max);
      AddPiecesKeep(st, SplitBlock(part, max), max);
      StartsOfConcat(MarksIn(st), MarksOf(SplitBlock(part, max)));
    }
  }

  lemma {:induction false} AddPartsStart(parts: seq<string>, max: nat)
    requires max >= MIN_CHUNK_SIZE && AllPure(parts) && AllShort(parts, max / 2)
    ensures Starts(MarksIn(AddParts(Filling([], ""), parts, max))) == Starts(MarksOf(parts))
  {
    if parts != [] {
      var before, last := parts[..|parts| - 1], parts[|parts| - 1];
      assert parts == before + [last] && last in parts && forall p | p in before :: p in parts;
      AddPartsKeep(before, max);
      AddPartsStart(before, max);
      AddPartStarts(AddParts(Filling([], ""), before, max), last, max);
      PiecesStart(before, [last]);
      MarksOfOne(last);
    }
  }

  /** Without a run of more than half the chunk size between two blanks, the chunks have exactly the words of the text. */
  lemma {:induction false} SplitCutsNoWord(source: string, max: nat)
    requires Split(source, max).Chunks? && ShortRuns(source, max / 2)
    ensures Starts(MarksOf(Split(source, max).chunks)) == Starts(Marks(source, 3))
  {
    MarksOfOne(source);
    if source != "" && |source| > max {
      var parts := Paragraphs(source);
      var st := AddParts(Filling([], ""), parts, max);
      ParagraphsKeep(source, 3);
      ParagraphsStart(source, max / 2);
      AddPartsStart(parts, max);
      PushedKeeps(st);
      NonEmptyKeeps(Pushed(st));
    }
  }

  /** Nor does merging the chunks change a word: it is a word of the result exactly if it is one of the text, in order. */
  lemma {:induction false} SplitAndMergeKeepWords(source: string, max: nat)
    requires Split(source, max).Chunks? && ShortRuns(source, max / 2)
    ensures Starts(Marks(Merge(Split(source, max).chunks), 3)) == Starts(Marks(source, 3))
  {
    SplitCutsNoWord(source, max);
    MergeKeepsChunks(Split(source, max).chunks);
  }

  // ---------------------------------------------------------------- how full the chunks are

  /** No two chunks in a row would fit into one with `gap` characters between them. */
  predicate Tight(chunks: seq<string>, gap: nat, max: nat) {
    forall i | 0 <= i < |chunks| - 1 :: |chunks[i]| + gap + |chunks[i + 1]| > max
  }

  predicate EndInWords(pieces: seq<string>) {
    forall x | x in pieces :: x != "" && !IsSpace(x[|x| - 1])
  }

  lemma {:induction false} OneMoreTight(chunks: seq<string>, last: string, gap: nat, max: nat)
    requires Tight(chunks, gap, max) && (chunks != [] ==> |chunks[|chunks| - 1]| + gap + |last| > max)
    ensures Tight(chunks + [last], gap, max)
  {
  }

  lemma {:induction false} LongerLastTight(chunks: seq<string>, last: string, longer: string, gap: nat, max: nat)
    requires Tight(chunks + [last], gap, max) && |last| <= |longer|
    ensures Tight(chunks + [longer], gap, max)
  {
    var a, b := chunks + [last], chunks + [longer];
    forall i | 0 <= i < |b| - 1
      ensures |b[i]| + gap + |b[i + 1]| > max
    {
      assert |a[i]| + gap + |a[i + 1]| > max;
    }
  }

  /** Pieces that end in words are joined as long as they fit: no two chunks in a row would fit into one. */
  lemma {:induction false} PiecesFillChunks(pieces: seq<string>, max: nat)
    requires EndInWords(pieces)
    ensures var st := AddPieces(Filling([], ""), pieces, max);
            if pieces == [] then st == Filling([], "")
            else st.current != "" && !IsSpace(st.current[|st.current| - 1]) && Tight(st.chunks + [st.current], 2, max)
  {
    if pieces != [] {
      var before, last := pieces[..|pieces| - 1], pieces[|pieces| - 1];
      assert last in pieces && forall x | x in before :: x in pieces;
      PiecesFillChunks(before, max);
      var st := AddPieces(Filling([], ""), before, max);
      if before != [] {
        PieceFills(st, last, max);
      }
    }
  }

  lemma {:induction false} PieceFills(st: Filling, piece: string, max: nat)
    requires st.current != "" && !IsSpace(st.current[|st.current| - 1]) && Tight(st.chunks + [st.current], 2, max)
    requires piece != "" && !IsSpace(piece[|piece| - 1])
    ensures var st' := AddPiece(st, piece, max);
            st'.current != "" && !IsSpace(st'.current[|st'.current| - 1]) && Tight(st'.chunks + [st'.current], 2, max)
  {
    var st' := AddPiece(st, piece, max);
    assert RStrip(st.current) == st.current;
    if st'.chunks == st.chunks {
      assert st'.current[|st'.current| - 1] == piece[|piece| - 1];
      LongerLastTight(st.chunks, st.current, st'.current, 2, max);
    } else {
      OneMoreTight(st.chunks + [st.current], piece, 2, max);
    }
  }

  predicate NoneTooLong(sentences: seq<string>, max: nat) {
    forall x | x in sentences :: x != "" && |x| <= max
  }

  /** Sentences that fit on their own are joined with a blank as long as they fit. */
  lemma {:induction false} SentencesFillChunks(sentences: seq<string>, current: string, max: nat, bound: nat)
    requires max >= MIN_CHUNK_SIZE && NoneTooLong(sentences, max) && forall x | x in sentences :: |x| < bound
    ensures var r := Pack(sentences, current, max, bound);
            && Tight(r, 1, max)
            && (current != "" ==> r != [] && |r[0]| >= |current|)
            && (current == "" && sentences != [] ==> r != [] && |r[0]| >= |sentences[0]|)
    decreases |sentences|
  {
    if sentences != [] {
      var first, rest := sentences[0], sentences[1..];
      assert first in sentences && forall x | x in rest :: x in sentences;
      var round := PackOne(first, current, max);
      SentencesFillChunks(rest, round.1, max, bound);
      if round.0 != [] {
        TightBehind(current, Pack(rest, round.1, max, bound), 1, max);
      }
    }
  }

  lemma {:induction false} TightBehind(first: string, chunks: seq<string>, gap: nat, max: nat)
    requires Tight(chunks, gap, max) && (chunks != [] ==> |first| + gap + |chunks[0]| > max)
    ensures Tight([first] + chunks, gap, max)
  {
    var all := [first] + chunks;
    forall i | 0 <= i < |all| - 1
      ensures |all[i]| + gap + |all[i + 1]| > max
    {
      if i > 0 {
        assert |chunks[i - 1]| + gap + |chunks[i - 1 + 1]| > max;
      }
    }
  }

  // ---------------------------------------------------------------- chunks over several paragraphs

  /** The parts of paragraphs with an empty line between two of them. */
  function Between(paragraphs: seq<string>): seq<string> {
    if |paragraphs| <= 1 then paragraphs
    else Between(paragraphs[..|paragraphs| - 1]) + ["\n\n", paragraphs[|paragraphs| - 1]]
  }

  /** A paragraph whose pieces end in words. */
  predicate IsParagraph(p: string, max: nat)
    requires max >= MIN_CHUNK_SIZE
  {
    p != "" && !IsBreak(p) && SplitBlock(p, max) != [] && EndInWords(SplitBlock(p, max))
  }

  /** The chunks so far are as full as they can be; the one at hand may end in an empty line. */
  predicate Full(st: Filling, max: nat) {
    && (forall c | c in st.chunks :: c != "")
    && if st.current == "" then
         Tight(st.chunks, 2, max) && (st.chunks != [] ==> |st.chunks[|st.chunks| - 1]| + 2 > max)
       else
         var core := RStrip(st.current);
         core != "" && (st.current == core || st.current == core + "\n\n") && Tight(st.chunks + [core], 2, max)
  }

  lemma {:induction false} EndsInWord(s: string)
    requires s != "" && !IsSpace(s[|s| - 1])
    ensures RStrip(s) == s && !EndsWithBlankLine(s) && RStrip(s + "\n\n") == s && EndsWithBlankLine(s + "\n\n")
  {
    assert IsSpace('\n') && AllSpace("\n\n");
    TrimmedBefore(s, "\n\n");
  }

  /** The state after a piece, when the chunk at hand is `core`, perhaps with an empty line behind it. */
  lemma {:induction false} PieceBehindCore(st: Filling, core: string, piece: string, max: nat)
    requires core != "" && !IsSpace(core[|core| - 1]) && (st.current == core || st.current == core + "\n\n")
    ensures var longer := core + "\n\n" + piece;
            AddPiece(st, piece, max)
            == if |longer| <= max then Filling(st.chunks, longer) else Filling(st.chunks + [core], piece)
  {
    EndsInWord(core);
    assert core + "\n\n" + "" + piece == core + "\n\n" + piece;
  }

  lemma {:induction false} CoreEnds(s: string)
    ensures RStrip(s) != "" ==> !IsSpace(RStrip(s)[|RStrip(s)| - 1])
  {
  }

  /** The chunks with one at hand that ends in a word. */
  predicate FullWith(chunks: seq<string>, current: string, max: nat) {
    && (forall c | c in chunks :: c != "") && current != "" && !IsSpace(current[|current| - 1])
    && Tight(chunks + [current], 2, max)
  }

  lemma {:induction false} FullWithIsFull(chunks: seq<string>, current: string, max: nat)
    requires FullWith(chunks, current, max)
    ensures Full(Filling(chunks, current), max)
  {
    EndsInWord(current);
  }

  lemma {:induction false} PieceFillsCore(chunks: seq<string>, core: string, piece: string, max: nat)
    requires FullWith(chunks, core, max) && piece != "" && !IsSpace(piece[|piece| - 1])
    ensures var longer := core + "\n\n" + piece;
            if |longer| <= max then FullWith(chunks, longer, max) else FullWith(chunks + [core], piece, max)
  {
    var longer := core + "\n\n" + piece;
    assert longer[|longer| - 1] == piece[|piece| - 1];
    if |longer| <= max {
      LongerLastTight(chunks, core, longer, 2, max);
    } else {
      OneMoreTight(chunks + [core], piece, 2, max);
    }
  }

  lemma {:induction false} PieceKeepsFull(st: Filling, piece: string, max: nat)
    requires Full(st, max) && piece != "" && !IsSpace(piece[|piece| - 1])
    ensures var st' := AddPiece(st, piece, max); FullWith(st'.chunks, st'.current, max)
  {
    if st.current == "" {
      OneMoreTight(st.chunks, piece, 2, max);
    } else {
      var core := RStrip(st.current);
      CoreEnds(st.current);
      PieceBehindCore(st, core, piece, max);
      PieceFillsCore(st.chunks, core, piece, max);
    }
  }

  lemma {:induction false} PiecesKeepFull(st: Filling, pieces: seq<string>, max: nat)
    requires Full(st, max) && pieces != [] && EndInWords(pieces)
    ensures var st' := AddPieces(st, pieces, max); FullWith(st'.chunks, st'.current, max)
  {
    var before, last := pieces[..|pieces| - 1], pieces[|pieces| - 1];
    assert last in pieces && forall x | x in before :: x in pieces;
    if before != [] {
      PiecesKeepFull(st, before, max);
      FullWithIsFull(AddPieces(st, before, max).chunks, AddPieces(st, before, max).current, max);
    }
    PieceKeepsFull(AddPieces(st, before, max), last, max);
  }

  lemma {:induction false} ParagraphKeepsFull(st: Filling, p: string, max: nat)
    requires max >= MIN_CHUNK_SIZE && Full(st, max) && IsParagraph(p, max)
    ensures var st' := AddPart(st, p, max); FullWith(st'.chunks, st'.current, max)
  {
    PiecesKeepFull(st, SplitBlock(p, max), max);
  }

  lemma {:induction false} BreakKeepsFull(st: Filling, max: nat)
    requires max >= MIN_CHUNK_SIZE && FullWith(st.chunks, st.current, max)
    ensures Full(AddPart(st, "\n\n", max), max)
  {
    EndsInWord(st.current);
    assert IsBreak("\n\n");
  }

  lemma {:induction false} ParagraphsFill(paragraphs: seq<string>, max: nat)
    requires max >= MIN_CHUNK_SIZE && paragraphs != [] && forall p | p in paragraphs :: IsParagraph(p, max)
    ensures var st := AddParts(Filling([], ""), Between(paragraphs), max); FullWith(st.chunks, st.current, max)
  {
    var n := |paragraphs| - 1;
    var last, start := paragraphs[n], Filling([], "");
    assert last in paragraphs && forall p | p in paragraphs[..n] :: p in paragraphs;
    if n == 0 {
      OneParagraph(start, paragraphs, max);
      ParagraphKeepsFull(start, last, max);
    } else {
      var st := AddParts(start, Between(paragraphs[..n]), max);
      ParagraphsFill(paragraphs[..n], max);
      TwoMoreParts(start, Between(paragraphs[..n]), "\n\n", last, max);
      BreakKeepsFull(st, max);
      ParagraphKeepsFull(AddPart(st, "\n\n", max), last, max);
    }
  }

  lemma {:induction false} OneParagraph(st: Filling, paragraphs: seq<string>, max: nat)
    requires max >= MIN_CHUNK_SIZE && |paragraphs| == 1
    ensures AddParts(st, Between(paragraphs), max) == AddPart(st, paragraphs[0], max)
  {
    assert paragraphs[..0] == [];
  }

  lemma {:induction false} TwoMoreParts(st: Filling, parts: seq<string>, a: string, b: string, max: nat)
    requires max >= MIN_CHUNK_SIZE
    ensures AddParts(st, parts + [a, b], max) == AddPart(AddPart(AddParts(st, parts, max), a, max), b, max)
  {
    assert (parts + [a, b])[..|parts| + 1] == parts + [a] && (parts + [a])[..|parts|] == parts;
  }

  lemma {:induction false} NoneEmpty(chunks: seq<string>)
    requires forall c | c in chunks :: c != ""
    ensures NonEmpty(chunks) == chunks
  {
    if chunks != [] {
      assert chunks[0] in chunks && forall c | c in chunks[1..] :: c in chunks;
      NoneEmpty(chunks[1..]);
    }
  }

  /** A text of such paragraphs fills its chunks: no two in a row would fit into one, with their empty line. */
  lemma {:induction false} SplitFillsChunks(source: string, paragraphs: seq<string>, max: nat)
    requires max >= MIN_CHUNK_SIZE && |source| > max && Paragraphs(source) == Between(paragraphs)
    requires paragraphs != [] && forall p | p in paragraphs :: IsParagraph(p, max)
    ensures var r := Split(source, max); r.Chunks? && Tight(r.chunks, 2, max)
  {
    ParagraphsFill(paragraphs, max);
    PushedIsTight(AddParts(Filling([], ""), Between(paragraphs), max), max);
  }

  lemma {:induction false} PushedIsTight(st: Filling, max: nat)
    requires FullWith(st.chunks, st.current, max)
    ensures Tight(NonEmpty(Pushed(st)), 2, max)
  {
    EndsInWord(st.current);
    NoneEmpty(st.chunks + [st.current]);
  }
}
