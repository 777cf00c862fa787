/** What the normalized texts of the research memory, by which claims, entities and names are compared, have in common. */
module ResearchMemoryText {
  import opened Text
  import opened ResearchMemory

  predicate IsWord(w: string) {
    w != "" && forall i | 0 <= i < |w| :: !IsSpace(w[i])
  }

  predicate AreWords(ws: seq<string>) {
    forall i | 0 <= i < |ws| :: IsWord(ws[i])
  }

  lemma {:induction false} WordEnds(w: string, rest: string)
    requires (forall i | 0 <= i < |w| :: !IsSpace(w[i])) && (rest == "" || IsSpace(rest[0]))
    ensures WordLength(w + rest) == |w|
  {
    if w == "" {
      assert w + rest == rest;
    } else {
      assert (w + rest)[1..] == w[1..] + rest;
      WordEnds(w[1..], rest);
    }
  }

  /** A word before white space is the first of the words. */
  lemma {:induction false} FirstWord(w: string, rest: string)
    requires IsWord(w) && (rest == "" || IsSpace(rest[0]))
    ensures Words(w + rest) == [w] + Words(rest)
  {
    WordEnds(w, rest);
    assert (w + rest)[0] == w[0] && (w + rest)[..|w|] == w && (w + rest)[|w|..] == rest;
  }

  /** White space separates words and is no part of them: the words of two texts with white space between them. */
  lemma {:induction false} WordsAroundSpace(a: string, space: char, b: string)
    requires IsSpace(space)
    ensures Words(a + [space] + b) == Words(a) + Words(b)
    decreases |a|
  {
    var text := a + [space] + b;
    if a == "" {
      assert text == [space] + b && text[1..] == b;
    } else if IsSpace(a[0]) {
      assert text[1..] == a[1..] + [space] + b;
      WordsAroundSpace(a[1..], space, b);
    } else {
      var w, rest := FirstWordOf(a);
      WordsAroundSpace(rest, space, b);
      Associative(rest, [space], b);
      Associative(a, [space], b);
      WordsAfterWord(w, rest, [space] + b, b);
    }
  }

  lemma {:induction false} WordsAfterWord(w: string, rest: string, tail: string, b: string)
    requires IsWord(w) && (rest == "" || IsSpace(rest[0])) && tail != "" && IsSpace(tail[0])
    requires Words(rest + tail) == Words(rest) + Words(b)
    ensures Words(w + rest + tail) == Words(w + rest) + Words(b)
  {
    Associative(w, rest, tail);
    FirstWord(w, rest + tail);
    FirstWord(w, rest);
    Associative([w], Words(rest), Words(b));
  }

  lemma {:induction false} FirstWordOf(s: string) returns (w: string, rest: string)
    requires s != "" && !IsSpace(s[0])
    ensures IsWord(w) && s == w + rest && (rest == "" || IsSpace(rest[0]))
  {
    WordLengthIs(s);
    w, rest := s[..WordLength(s)], s[WordLength(s)..];
  }

  lemma {:induction false} WordLengthIs(s: string)
    ensures forall i | 0 <= i < WordLength(s) :: !IsSpace(s[i])
    ensures WordLength(s) < |s| ==> IsSpace(s[WordLength(s)])
  {
    if s != "" && !IsSpace(s[0]) {
      WordLengthIs(s[1..]);
    }
  }

  /** A text without white space is one word. */
  lemma {:induction false} OneWord(w: string)
    requires IsWord(w)
    ensures Words(w) == [w]
  {
    FirstWord(w, "");
    assert w + "" == w;
  }

  lemma {:induction false} WordsAreWords(s: string)
    ensures AreWords(Words(s))
    decreases |s|
  {
    if s != "" && IsSpace(s[0]) {
      WordsAreWords(s[1..]);
    } else if s != "" {
      var w, rest := FirstWordOf(s);
      FirstWord(w, rest);
      WordsAreWords(rest);
    }
  }

  lemma {:induction false} WordsOfJoin(ws: seq<string>)
    requires AreWords(ws)
    ensures Words(Join(" ", ws)) == ws
  {
    if |ws| == 1 {
      OneWord(ws[0]);
    } else if ws != [] {
      assert IsSpace(' ');
      WordsOfJoin(ws[1..]);
      OneWord(ws[0]);
      WordsAroundSpace(ws[0], ' ', Join(" ", ws[1..]));
      assert Join(" ", ws) == ws[0] + [' '] + Join(" ", ws[1..]);
    }
  }

  /**
   * Two texts count as the same exactly if they have the same words in the same order, whatever their case and the white
   * space between and around them.
   */
  lemma {:induction false} SameNormalizedExactly(a: string, b: string)
    ensures Normalized(a) == Normalized(b) <==> Words(Lower(Clean(a, 0))) == Words(Lower(Clean(b, 0)))
  {
    WordsAreWords(Lower(Clean(a, 0)));
    WordsAreWords(Lower(Clean(b, 0)));
    WordsOfJoin(Words(Lower(Clean(a, 0))));
    WordsOfJoin(Words(Lower(Clean(b, 0))));
  }

  /** Cleaning removes NUL characters and the white space around what is left, and then cuts at the limit, if there is one. */
  lemma {:induction false} CleanExactly(s: string, limit: nat) returns (a: string, core: string, b: string)
    ensures WithoutNul(s) == a + core + b && AllSpace(a) && AllSpace(b)
    ensures core != "" ==> !IsSpace(core[0]) && !IsSpace(core[|core| - 1])
    ensures Clean(s, limit) == if limit == 0 || |core| <= limit then core else core[..limit]
  {
    a, core, b := StrippedParts(WithoutNul(s));
  }

  lemma {:induction false} StrippedParts(text: string) returns (a: string, core: string, b: string)
    ensures text == a + core + b && AllSpace(a) && AllSpace(b) && core == Strip(text)
    ensures core != "" ==> !IsSpace(core[0]) && !IsSpace(core[|core| - 1])
  {
    core := Strip(text);
    a, b := AroundStrip(text);
    StripEnds(text);
  }

  /** A kind is the one that is drafted, up to 128 characters, unless it is blank. */
  lemma {:induction false} KindIsDrafted(kind: string, default: string)
    ensures KindOf(kind, default)
            == if kind != "" && Clean(kind, 128) != "" then Clean(kind, 128)
               else if kind == "" && Clean(default, 128) != "" then Clean(default, 128) else default
  {
  }

  /** A confidence is the nearest number from 0 to 1. */
  lemma {:induction false} ConfidenceIsClamped(confidence: real)
    ensures 0.0 <= Bounded(confidence) <= 1.0
    ensures 0.0 <= confidence <= 1.0 ==> Bounded(confidence) == confidence
    ensures confidence > 1.0 ==> Bounded(confidence) == 1.0
    ensures confidence < 0.0 ==> Bounded(confidence) == 0.0
  {
  }
}
