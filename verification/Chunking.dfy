/**
 * Splitting long text for the language model (app/ai/chunking.py): paragraphs, sentences, blanks and hard cuts. The two
 * regular expressions are written as recursive splitters.
 */
module Chunking {
  import opened Text
  import opened TextMarks

  const MIN_CHUNK_SIZE := 256

  // ---------------------------------------------------------------- sentences and paragraphs

  /** The class of the sentence pattern's look-behind. */
  predicate EndsSentence(c: char) {
    c in {'\U{3002}', '\U{ff01}', '\U{ff1f}', '.', '!', '?', '\U{ff1b}', ';'}
  }

  /** The first white space that follows the end of a sentence. */
  function SentenceEnd(s: string, from: nat): (k: nat)
    requires from <= |s|
    ensures from <= k <= |s|
    ensures k < |s| ==> k > 0 && EndsSentence(s[k - 1]) && IsSpace(s[k])
    decreases |s| - from
  {
    if from == |s| then from
    else if from > 0 && EndsSentence(s[from - 1]) && IsSpace(s[from]) then from
    else SentenceEnd(s, from + 1)
  }

  /** The parts that are not empty of a split at the white space after each sentence end. */
  function Sentences(s: string): (r: seq<string>)
    ensures forall x | x in r :: x != "" && (|r| > 1 ==> |x| < |s|)
    ensures forall x | x in r :: |x| <= |s|
    decreases |s|
  {
    var k := SentenceEnd(s, 0);
    if s == "" then []
    else if k == |s| then [s]
    else [s[..k]] + Sentences(LStrip(s[k..]))
  }

  predicate IsBreakAt(s: string, i: nat, j: nat) {
    i < j < |s| && s[i] == '\n' && s[j] == '\n' && forall k | i < k < j :: IsSpace(s[k])
  }

  /** The last line feed of `s[from..to]`, or `from` itself. */
  function LastLineFeed(s: string, from: nat, to: nat): (k: nat)
    requires from < to <= |s|
    ensures from <= k < to && (k > from ==> s[k] == '\n')
    ensures forall j | k < j < to :: s[j] != '\n'
  {
    if to - 1 == from || s[to - 1] == '\n' then to - 1 else LastLineFeed(s, from, to - 1)
  }

  /** The first paragraph break at or after `from`, as a half-open range: greedy, from its first to its last line feed. */
  function FindBreak(s: string, from: nat): (r: (nat, nat))
    requires from <= |s|
    ensures from <= r.0 <= r.1 <= |s| && (r.0 == r.1 ==> r.0 == |s|)
    ensures r.0 < r.1 ==> IsBreakAt(s, r.0, r.1 - 1)
    decreases |s| - from
  {
    if from == |s| then (from, from)
    else if s[from] != '\n' then FindBreak(s, from + 1)
    else
      var last := LastLineFeed(s, from, from + Leading(s[from..]));
      if last > from then (from, last + 1) else FindBreak(s, from + 1)
  }

  /** `re.split` at the paragraph breaks, which it keeps as parts. */
  function Paragraphs(s: string): (parts: seq<string>)
    decreases |s|
  {
    var r := FindBreak(s, 0);
    if r.0 == r.1 then [s] else [s[..r.0], s[r.0..r.1]] + Paragraphs(s[r.1..])
  }

  /** `re.fullmatch` of the paragraph break. */
  predicate IsBreak(part: string) {
    |part| >= 2 && IsBreakAt(part, 0, |part| - 1)
  }

  // ---------------------------------------------------------------- one oversized block

  /** `s.rfind(" ", 0, to)`. */
  function RFindBlank(s: string, to: nat): (k: int)
    requires to <= |s|
    ensures -1 <= k < to && (k >= 0 ==> s[k] == ' ')
    ensures forall j | k < j < to :: s[j] != ' '
  {
    if to == 0 then -1 else if s[to - 1] == ' ' then to - 1 else RFindBlank(s, to - 1)
  }

  function SplitAt(s: string, max: nat): (k: nat)
    requires |s| > max >= MIN_CHUNK_SIZE
    ensures 0 < k <= max
  {
    var k := RFindBlank(s, max + 1);
    if k < max / 2 then max else k
  }

  function OrNone(s: string): seq<string> {
    if s == "" then [] else [s]
  }

  function HardSplit(s: string, max: nat): seq<string>
    requires max >= MIN_CHUNK_SIZE
    decreases |s|
  {
    if |s| <= max then OrNone(s)
    else OrNone(RStrip(s[..SplitAt(s, max)])) + HardSplit(LStrip(s[SplitAt(s, max)..]), max)
  }

  /** `_split_oversized_block`. */
  function SplitBlock(block: string, max: nat): seq<string>
    requires max >= MIN_CHUNK_SIZE
    decreases |block|, 1, 0
  {
    if |block| <= max then [block]
    else
      var sentences := Sentences(block);
      if |sentences| > 1 then Pack(sentences, "", max, |block|) else HardSplit(block, max)
  }

  /** One round of the sentence loop: the chunks it completes, and the text it leaves at hand. */
  function PackOne(sentence: string, current: string, max: nat): (seq<string>, string)
    requires max >= MIN_CHUNK_SIZE
    decreases |sentence|, 2, 0
  {
    var candidate := if current == "" then sentence else current + " " + sentence;
    if |candidate| <= max then ([], candidate)
    else if |sentence| <= max then (OrNone(current), sentence)
    else (OrNone(current) + SplitBlock(sentence, max), "")
  }

  /** The chunks that the sentence loop still makes of `sentences`, all shorter than `bound`, with `current` at hand. */
  function Pack(sentences: seq<string>, current: string, max: nat, ghost bound: nat): seq<string>
    requires max >= MIN_CHUNK_SIZE && forall x | x in sentences :: |x| < bound
    decreases bound, 0, |sentences|
  {
    if sentences == [] then OrNone(current)
    else
      var round := PackOne(sentences[0], current, max);
      round.0 + Pack(sentences[1..], round.1, max, bound)
  }

  lemma {:induction false} PackAt(sentences: seq<string>, k: nat, current: string, max: nat, bound: nat)
    requires max >= MIN_CHUNK_SIZE && k < |sentences| && forall x | x in sentences :: |x| < bound
    ensures var round := PackOne(sentences[k], current, max);
            Pack(sentences[k..], current, max, bound) == round.0 + Pack(sentences[k + 1..], round.1, max, bound)
  {
    assert sentences[k..][1..] == sentences[k + 1..];
  }

  method SplitOversizedBlock(block: string, max: nat) returns (chunks: seq<string>)
    requires max >= MIN_CHUNK_SIZE
    ensures chunks == SplitBlock(block, max)
    decreases |block|, 1
  {
    if |block| <= max {
      return [block];
    }
    var sentences := Sentences(block);
    if |sentences| > 1 {
      chunks := PackSentences(sentences, max, |block|);
    } else {
      chunks := HardSplitLoop(block, max);
    }
  }

  method PackSentences(sentences: seq<string>, max: nat, ghost bound: nat) returns (chunks: seq<string>)
    requires max >= MIN_CHUNK_SIZE && forall x | x in sentences :: |x| < bound
    ensures chunks == Pack(sentences, "", max, bound)
    decreases bound, 0
  {
    chunks := [];
    var current := "";
    assert sentences[0..] == sentences;
    for k := 0 to |sentences|
      invariant chunks + Pack(sentences[k..], current, max, bound) == Pack(sentences, "", max, bound)
    {
      PackAt(sentences, k, current, max, bound);
      var completed;
      completed, current := PackSentence(sentences[k], current, max);
      Associative(chunks, completed, Pack(sentences[k + 1..], current, max, bound));
      chunks := chunks + completed;
    }
    chunks := chunks + OrNone(current);
  }

  method PackSentence(sentence: string, current: string, max: nat) returns (chunks: seq<string>, current': string)
    requires max >= MIN_CHUNK_SIZE
    ensures (chunks, current') == PackOne(sentence, current, max)
    decreases |sentence|, 2
  {
    var candidate := if current == "" then sentence else current + " " + sentence;
    if |candidate| <= max {
      return [], candidate;
    }
    chunks, current' := OrNone(current), "";
    if |sentence| <= max {
      current' := sentence;
    } else {
      var more := SplitOversizedBlock(sentence, max);
      chunks := chunks + more;
    }
  }

  lemma {:induction false} HardSplitStep(s: string, max: nat)
    requires max >= MIN_CHUNK_SIZE && |s| > max
    ensures HardSplit(s, max) == OrNone(RStrip(s[..SplitAt(s, max)])) + HardSplit(LStrip(s[SplitAt(s, max)..]), max)
  {
  }

  lemma {:induction false} HardSplitEnd(s: string, max: nat)
    requires max >= MIN_CHUNK_SIZE && |s| <= max
    ensures HardSplit(s, max) == OrNone(s)
  {
  }

  method HardSplitLoop(block: string, max: nat) returns (chunks: seq<string>)
    requires max >= MIN_CHUNK_SIZE
    ensures chunks == HardSplit(block, max)
  {
    chunks := [];
    var remaining := block;
    while |remaining| > max
      invariant chunks + HardSplit(remaining, max) == HardSplit(block, max)
      decreases |remaining|
    {
      HardSplitStep(remaining, max);
      var splitAt := SplitAt(remaining, max);
      var piece := OrNone(RStrip(remaining[..splitAt]));
      remaining := LStrip(remaining[splitAt..]);
      Associative(chunks, piece, HardSplit(remaining, max));
      chunks := chunks + piece;
    }
    HardSplitEnd(remaining, max);
    chunks := chunks + OrNone(remaining);
  }

  // ---------------------------------------------------------------- the whole text

  /** The chunks made so far and the one at hand. */
  datatype Filling = Filling(chunks: seq<string>, current: string)

  predicate EndsWithBlankLine(s: string) {
    |s| >= 2 && s[|s| - 2] == '\n' && s[|s| - 1] == '\n'
  }

  function Pushed(st: Filling): seq<string> {
    if st.current == "" then st.chunks else st.chunks + [RStrip(st.current)]
  }

  function AddPiece(st: Filling, piece: string, max: nat): Filling {
    var separator := if st.current == "" || EndsWithBlankLine(st.current) then "" else "\n\n";
    var candidate := if st.current == "" then piece else st.current + separator + piece;
    if |candidate| <= max then st.(current := candidate) else Filling(Pushed(st), piece)
  }

  function AddPieces(st: Filling, pieces: seq<string>, max: nat): Filling {
    if pieces == [] then st
    else AddPiece(AddPieces(st, pieces[..|pieces| - 1], max), pieces[|pieces| - 1], max)
  }

  function AddPart(st: Filling, part: string, max: nat): Filling
    requires max >= MIN_CHUNK_SIZE
  {
    if part == "" then st
    else if !IsBreak(part) then AddPieces(st, SplitBlock(part, max), max)
    else if st.current != "" && |st.current| + |part| <= max then st.(current := st.current + part)
    else if st.current != "" then Filling(Pushed(st), "")
    else st
  }

  function AddParts(st: Filling, parts: seq<string>, max: nat): Filling
    requires max >= MIN_CHUNK_SIZE
  {
    if parts == [] then st else AddPart(AddParts(st, parts[..|parts| - 1], max), parts[|parts| - 1], max)
  }

  function NonEmpty(chunks: seq<string>): seq<string> {
    if chunks == [] then [] else OrNone(chunks[0]) + NonEmpty(chunks[1..])
  }

  /** `split_text`, which refuses a chunk size below the minimum unless there is no text. */
  datatype SplitResult = Chunks(chunks: seq<string>) | InvalidSize

  function Split(source: string, max: nat): SplitResult {
    if source == "" then Chunks([])
    else if max < MIN_CHUNK_SIZE then InvalidSize
    else if |source| <= max then Chunks([source])
    else Chunks(NonEmpty(Pushed(AddParts(Filling([], ""), Paragraphs(source), max))))
  }

  method SplitText(source: string, max: nat) returns (r: SplitResult)
    ensures r == Split(source, max)
  {
    if source == "" {
      return Chunks([]);
    } else if max < MIN_CHUNK_SIZE {
      return InvalidSize;
    } else if |source| <= max {
      return Chunks([source]);
    }
    var parts := Paragraphs(source);
    var chunks, current := [], "";
    for k := 0 to |parts|
      invariant Filling(chunks, current) == AddParts(Filling([], ""), parts[..k], max)
    {
      assert parts[..k + 1][..k] == parts[..k];
      var part := parts[k];
      if part == "" {
        continue;
      }
      if IsBreak(part) {
        if current != "" && |current| + |part| <= max {
          current := current + part;
        } else if current != "" {
          chunks, current := chunks + [RStrip(current)], "";
        }
        continue;
      }
      var pieces := SplitOversizedBlock(part, max);
      chunks, current := FillPieces(pieces, max, chunks, current);
    }
    assert parts[..|parts|] == parts;
    if current != "" {
      chunks := chunks + [RStrip(current)];
    }
    r := Chunks(NonEmpty(chunks));
  }

  method FillPieces(pieces: seq<string>, max: nat, chunks: seq<string>, current: string)
    returns (chunks': seq<string>, current': string)
    ensures Filling(chunks', current') == AddPieces(Filling(chunks, current), pieces, max)
  {
    chunks', current' := chunks, current;
    for k := 0 to |pieces|
      invariant Filling(chunks', current') == AddPieces(Filling(chunks, current), pieces[..k], max)
    {
      assert pieces[..k + 1][..k] == pieces[..k];
      var piece := pieces[k];
      var separator := if current' == "" || EndsWithBlankLine(current') then "" else "\n\n";
      var candidate := if current' != "" then current' + separator + piece else piece;
      if |candidate| <= max {
        current' := candidate;
      } else {
        if current' != "" {
          chunks' := chunks' + [RStrip(current')];
        }
        current' := piece;
      }
    }
    assert pieces[..|pieces|] == pieces;
  }

  function StrippedNonBlank(chunks: seq<string>): seq<string> {
    if chunks == [] then [] else OrNone(Strip(chunks[0])) + StrippedNonBlank(chunks[1..])
  }

  /** `merge_chunks`. */
  function Merge(chunks: seq<string>): string {
    Strip(Join("\n\n", StrippedNonBlank(chunks)))
  }

  // ---------------------------------------------------------------- what a split must keep

  /** The marks of a list of texts, each of which starts a paragraph. */
  function MarksOf(texts: seq<string>): seq<Mark> {
    if texts == [] then [] else Marks(texts[0], 3) + MarksOf(texts[1..])
  }
}
