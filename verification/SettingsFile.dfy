/**
 * The text of the user settings file (app/infrastructure/settings.py): the printer, with its JSON string escapes, and a
 * parser of the lines it can print, by the rules of TOML v1.0.0 (sections Comment, String, Integer, Boolean and Table).
 */
module SettingsFile {
  import opened Wrappers
  import opened Text

  /** A finite float is the text that Python writes for it. */
  type FloatText = s: string | IsFloatText(s) witness "0.0"

  /** A value of a configuration; `NonFinite` is an infinite float or a NaN, `Other` an array or a date. */
  datatype Toml =
    | Str(text: string) | Bool(b: bool) | Int(i: int) | Float(literal: FloatText) | NonFinite | Other
    | Table(entries: map<string, Toml>)

  predicate IsScalar(v: Toml) {
    v.Str? || v.Bool? || v.Int? || v.Float?
  }

  predicate IsDigit(c: char) {
    '0' <= c <= '9'
  }

  predicate IsFloatText(s: string) {
    && s != "" && (IsDigit(s[0]) || s[0] == '-') && ('.' in s || 'e' in s)
    && forall i | 0 <= i < |s| :: IsDigit(s[i]) || s[i] == '.' || s[i] == 'e' || s[i] == '-' || s[i] == '+'
  }

  /** The characters of a bare key. */
  predicate IsBare(c: char) {
    'a' <= c <= 'z' || 'A' <= c <= 'Z' || IsDigit(c) || c == '_' || c == '-'
  }

  predicate IsName(s: string) {
    s != "" && forall i | 0 <= i < |s| :: IsBare(s[i])
  }

  // ---------------------------------------------------------------- the printer

  function HexDigit(n: nat): char
    requires n < 16
  {
    if n < 10 then '0' + n as char else 'a' + (n - 10) as char
  }

  /** `json.dumps` of one character, without escapes for characters outside ASCII. */
  function EscapeChar(c: char): string {
    if c == '"' then "\\\""
    else if c == '\\' then "\\\\"
    else if c == '\n' then "\\n"
    else if c == '\r' then "\\r"
    else if c == '\t' then "\\t"
    else if c == '\U{c}' then "\\f"
    else if c == '\U{8}' then "\\b"
    else if c < ' ' then "\\u00" + [HexDigit(c as int / 16), HexDigit(c as int % 16)]
    else [c]
  }

  function Escape(s: string): string {
    if s == "" then "" else EscapeChar(s[0]) + Escape(s[1..])
  }

  function Signed(negative: bool, digits: string): string {
    if negative then "-" + digits else digits
  }

  function PrintInt(i: int): string {
    Signed(i < 0, Decimal(if i < 0 then -i else i))
  }

  /** `_toml_literal`. */
  function Literal(v: Toml): string
    requires IsScalar(v)
  {
    match v
    case Bool(b) => if b then "true" else "false"
    case Str(s) => "\"" + Escape(s) + "\""
    case Int(i) => PrintInt(i)
    case Float(literal) => literal
  }

  type Pairs = seq<(string, Toml)>
  type Listing = seq<(string, Pairs)>

  predicate ScalarPairs(pairs: Pairs) {
    forall p | p in pairs :: IsScalar(p.1)
  }

  predicate ScalarListing(l: Listing) {
    forall s | s in l :: ScalarPairs(s.1)
  }

  function PairLines(pairs: Pairs): seq<string>
    requires ScalarPairs(pairs)
  {
    if pairs == [] then [] else [pairs[0].0 + " = " + Literal(pairs[0].1)] + PairLines(pairs[1..])
  }

  function SectionLines(l: Listing): seq<string>
    requires ScalarListing(l)
  {
    if l == [] then [] else OneSection(l[0].0, l[0].1) + SectionLines(l[1..])
  }

  /** A section without values is not printed. */
  function OneSection(name: string, pairs: Pairs): seq<string>
    requires ScalarPairs(pairs)
  {
    if pairs == [] then [] else ["[" + name + "]"] + PairLines(pairs) + [""]
  }

  /** The first line of the file, in parts that are short enough to be looked at character by character. */
  const HEADING := "# Generated by " + "Desktop Translator. " + "Do not store " + "secrets here."

  /** `_dump_toml` of a configuration whose sections and keys are enumerated in the order of `l`. */
  function Dump(l: Listing): string
    requires ScalarListing(l)
  {
    Join("\n", [HEADING, ""] + SectionLines(l))
  }

  method PrintText(l: Listing) returns (text: string)
    requires ScalarListing(l)
    ensures text == Dump(l)
  {
    var sections := PrintAll(l);
    text := Join("\n", [HEADING, ""] + sections);
  }

  method PrintAll(l: Listing) returns (lines: seq<string>)
    requires ScalarListing(l)
    ensures lines == SectionLines(l)
  {
    lines := [];
    for k := 0 to |l|
      invariant lines + SectionLines(l[k..]) == SectionLines(l)
    {
      NextSection(l, k);
      var section := PrintSection(l[k].0, l[k].1);
      Associative(lines, section, SectionLines(l[k + 1..]));
      lines := lines + section;
    }
  }

  lemma {:induction false} NextSection(l: Listing, k: nat)
    requires ScalarListing(l) && k < |l|
    ensures SectionLines(l[k..]) == OneSection(l[k].0, l[k].1) + SectionLines(l[k + 1..])
  {
    assert l[k..][1..] == l[k + 1..] && l[k] in l;
  }

  method PrintSection(name: string, pairs: Pairs) returns (lines: seq<string>)
    requires ScalarPairs(pairs)
    ensures lines == OneSection(name, pairs)
  {
    if pairs == [] {
      return [];
    }
    var rest := PrintPairs(pairs);
    lines := ["[" + name + "]"] + rest + [""];
  }

  lemma {:induction false} NextPair(pairs: Pairs, k: nat)
    requires ScalarPairs(pairs) && k < |pairs|
    ensures IsScalar(pairs[k].1)
    ensures PairLines(pairs[k..]) == [pairs[k].0 + " = " + Literal(pairs[k].1)] + PairLines(pairs[k + 1..])
  {
    assert pairs[k..][1..] == pairs[k + 1..] && pairs[k] in pairs;
  }

  method PrintPairs(pairs: Pairs) returns (lines: seq<string>)
    requires ScalarPairs(pairs)
    ensures lines == PairLines(pairs)
  {
    lines := [];
    for k := 0 to |pairs|
      invariant lines + PairLines(pairs[k..]) == PairLines(pairs)
    {
      NextPair(pairs, k);
      var line := pairs[k].0 + " = " + Literal(pairs[k].1);
      Associative(lines, [line], PairLines(pairs[k + 1..]));
      lines := lines + [line];
    }
  }

  // ---------------------------------------------------------------- the parser

  /** The characters that neither a basic string nor a comment may hold unescaped. */
  predicate IsIllegal(c: char) {
    (c < ' ' && c != '\t') || c == '\U{7f}'
  }

  function HexValue(c: char): Option<nat> {
    if IsDigit(c) then Some((c - '0') as nat)
    else if 'a' <= c <= 'f' then Some((c - 'a') as nat + 10)
    else if 'A' <= c <= 'F' then Some((c - 'A') as nat + 10)
    else None
  }

  function HexNumber(s: string): Option<nat> {
    if s == "" then Some(0)
    else
      var before, last := HexNumber(s[..|s| - 1]), HexValue(s[|s| - 1]);
      if before.None? || last.None? then None else Some(before.value * 16 + last.value)
  }

  /** The character that an escape stands for, and its length after the backslash; surrogates are no characters. */
  function ParseEscape(t: string): Option<(char, nat)>
    ensures ParseEscape(t).Some? ==> 0 < ParseEscape(t).value.1 <= |t|
  {
    if t == "" then None
    else if t[0] == '"' then Some(('"', 1))
    else if t[0] == '\\' then Some(('\\', 1))
    else if t[0] == 'n' then Some(('\n', 1))
    else if t[0] == 'r' then Some(('\r', 1))
    else if t[0] == 't' then Some(('\t', 1))
    else if t[0] == 'f' then Some(('\U{c}', 1))
    else if t[0] == 'b' then Some(('\U{8}', 1))
    else if t[0] == 'u' && |t| >= 5 then
      var n := HexNumber(t[1..5]);
      if n.None? || n.value >= 0x10000 || 0xD800 <= n.value < 0xE000 then None else Some((n.value as char, 5))
    else None
  }

  /** The value of a basic string after its opening quote, and the text after its closing quote. */
  function ParseString(t: string): Option<(string, string)>
    decreases |t|
  {
    if t == "" then None
    else if t[0] == '"' then Some(("", t[1..]))
    else if t[0] == '\\' then
      var e := ParseEscape(t[1..]);
      if e.None? then None
      else
        var rest := ParseString(t[1..][e.value.1..]);
        if rest.None? then None else Some(([e.value.0] + rest.value.0, rest.value.1))
    else if IsIllegal(t[0]) then None
    else
      var rest := ParseString(t[1..]);
      if rest.None? then None else Some(([t[0]] + rest.value.0, rest.value.1))
  }

  predicate AllDigits(s: string) {
    s != "" && forall i | 0 <= i < |s| :: IsDigit(s[i])
  }

  function ParseDigits(s: string): nat
    requires forall i | 0 <= i < |s| :: IsDigit(s[i])
  {
    if s == "" then 0
    else
      var last := s[|s| - 1];
      assert IsDigit(last);
      ParseDigits(s[..|s| - 1]) * 10 + (last as int - '0' as int)
  }

  /** A decimal integer without leading zeros, perhaps negative. */
  function ParseInt(t: string): Option<int> {
    var negative := t != "" && t[0] == '-';
    var digits := if negative then t[1..] else t;
    if !AllDigits(digits) || (|digits| > 1 && digits[0] == '0') then None
    else
      var n: int := ParseDigits(digits);
      Some(if negative then -n else n)
  }

  function ParseLiteral(t: string): Option<Toml> {
    if t == "" then None
    else if t[0] == '"' then
      var s := ParseString(t[1..]);
      if s.Some? && s.value.1 == "" then Some(Str(s.value.0)) else None
    else if t == "true" then Some(Bool(true))
    else if t == "false" then Some(Bool(false))
    else if ParseInt(t).Some? then Some(Int(ParseInt(t).value))
    else if IsFloatText(t) then Some(Float(t))
    else None
  }

  datatype Line = Blank | Header(name: string) | Pair(key: string, value: Toml)

  function NameLength(t: string): (n: nat)
    ensures n <= |t|
    ensures forall i | 0 <= i < n :: IsBare(t[i])
    ensures n < |t| ==> !IsBare(t[n])
  {
    if t != "" && IsBare(t[0]) then 1 + NameLength(t[1..]) else 0
  }

  function ParseLine(t: string): Option<Line> {
    var n := NameLength(t);
    if t == "" then Some(Blank)
    else if t[0] == '#' then (if exists i | 0 <= i < |t| :: IsIllegal(t[i]) then None else Some(Blank))
    else if t[0] == '[' then
      if |t| > 2 && t[|t| - 1] == ']' && IsName(t[1..|t| - 1]) then Some(Header(t[1..|t| - 1])) else None
    else if n == 0 || |t| < n + 3 || t[n..n + 3] != " = " then None
    else
      var v := ParseLiteral(t[n + 3..]);
      if v.None? then None else Some(Pair(t[..n], v.value))
  }

  type Sections = map<string, map<string, Toml>>

  /** The document, read line by line; a section or key that is defined twice is an error. */
  function ParseLines(lines: seq<string>, section: Option<string>, read: Sections): Option<Sections>
    requires section.Some? ==> section.value in read
  {
    if lines == [] then Some(read)
    else
      match ParseLine(lines[0])
      case None => None
      case Some(Blank) => ParseLines(lines[1..], section, read)
      case Some(Header(name)) => if name in read then None else ParseLines(lines[1..], Some(name), read[name := map[]])
      case Some(Pair(key, v)) =>
        if section.None? || key in read[section.value] then None
        else ParseLines(lines[1..], section, read[section.value := read[section.value][key := v]])
  }

  function Parse(text: string): Option<Sections> {
    ParseLines(Lines(text), None, map[])
  }

  // ---------------------------------------------------------------- strings survive, but for U+007F

  predicate NoDelete(s: string) {
    forall i | 0 <= i < |s| :: s[i] != '\U{7f}'
  }

  lemma {:induction false} HexOfControl(c: char)
    requires c < ' '
    ensures HexNumber("00" + [HexDigit(c as int / 16), HexDigit(c as int % 16)]) == Some(c as nat)
  {
    var a, b := HexDigit(c as int / 16), HexDigit(c as int % 16);
    assert HexValue(a) == Some(c as nat / 16) && HexValue(b) == Some(c as nat % 16);
    assert "00"[..1] == "0" && "0"[..0] == "" && HexNumber("0") == Some(0) && HexNumber("00") == Some(0);
    assert ("00" + [a])[..2] == "00" && ("00" + [a, b])[..3] == "00" + [a];
    assert HexNumber("00" + [a]) == Some(c as nat / 16);
  }

  lemma {:induction false} EscapedChar(c: char, rest: string)
    ensures var t := EscapeChar(c) + rest;
            && t != "" && t[0] != '"'
            && (t[0] == '\\' ==> ParseEscape(t[1..]) == Some((c, |EscapeChar(c)| - 1)))
            && (t[0] != '\\' ==> EscapeChar(c) == [c] && (IsIllegal(c) <==> c == '\U{7f}'))
            && (c == '\U{7f}' ==> t[0] == c)
  {
    var t := EscapeChar(c) + rest;
    if IsOtherControl(c) {
      EscapedControl(c, rest);
    }
  }

  /** The control characters that have no escape of their own. */
  predicate IsOtherControl(c: char) {
    c < ' ' && c != '\n' && c != '\r' && c != '\t' && c != '\U{c}' && c != '\U{8}'
  }

  lemma {:induction false} EscapedControl(c: char, rest: string)
    requires IsOtherControl(c)
    ensures ParseEscape((EscapeChar(c) + rest)[1..]) == Some((c, 5)) && |EscapeChar(c)| == 6
  {
    var hex := [HexDigit(c as int / 16), HexDigit(c as int % 16)];
    HexOfControl(c);
    assert EscapeChar(c) == "\\u00" + hex;
    AfterBackslash(hex, rest);
  }

  lemma {:induction false} AfterBackslash(hex: string, rest: string)
    requires |hex| == 2
    ensures var t := ("\\u00" + hex + rest)[1..]; |t| >= 5 && t[0] == 'u' && t[1..5] == "00" + hex
  {
    var t := ("\\u00" + hex + rest)[1..];
    assert t[1] == '0' && t[2] == '0' && t[3] == hex[0] && t[4] == hex[1];
  }

  /** A printed string is read back, unless it has U+007F: then it is rejected. */
  lemma {:induction false} EscapedString(s: string, rest: string)
    ensures ParseString(Escape(s) + "\"" + rest) == if NoDelete(s) then Some((s, rest)) else None
  {
    if s == "" {
      assert Escape(s) + "\"" + rest == "\"" + rest && ("\"" + rest)[1..] == rest;
    } else {
      var t := Escape(s[1..]) + "\"" + rest;
      assert Escape(s) + "\"" + rest == EscapeChar(s[0]) + t;
      EscapedString(s[1..], rest);
      EscapedChar(s[0], t);
      AfterEscape(s[0], t);
      assert s == [s[0]] + s[1..];
      assert NoDelete(s) <==> s[0] != '\U{7f}' && NoDelete(s[1..]);
    }
  }

  lemma {:induction false} AfterEscape(c: char, rest: string)
    ensures var t := EscapeChar(c) + rest;
            ParseString(t) == if c == '\U{7f}' || ParseString(rest).None? then None
                              else Some(([c] + ParseString(rest).value.0, ParseString(rest).value.1))
  {
    var t := EscapeChar(c) + rest;
    EscapedChar(c, rest);
    if t[0] == '\\' {
      var e := ParseEscape(t[1..]);
      assert e == Some((c, |EscapeChar(c)| - 1));
      assert t[1..][e.value.1..] == rest;
    } else {
      assert t[1..] == rest;
    }
  }

  // ---------------------------------------------------------------- literals

  lemma {:induction false} DecimalIsRead(n: nat)
    ensures AllDigits(Decimal(n)) && ParseDigits(Decimal(n)) == n
    ensures (n >= 10 ==> |Decimal(n)| > 1) && (n > 0 ==> Decimal(n)[0] != '0')
  {
    var last := Digit(n % 10);
    if n < 10 {
      OneDigit(last);
      assert Decimal(n) == [last];
    } else {
      DecimalIsRead(n / 10);
      LongDecimal(n);
      OneMoreDigit(Decimal(n / 10), last);
    }
  }

  lemma {:induction false} LongDecimal(n: nat)
    requires n >= 10
    ensures Decimal(n) == Decimal(n / 10) + [Digit(n % 10)]
  {
  }

  lemma {:induction false} OneDigit(c: char)
    requires IsDigit(c)
    ensures AllDigits([c]) && ParseDigits([c]) == c as int - '0' as int
  {
    assert [c][..0] == "" && ParseDigits("") == 0;
  }

  lemma {:induction false} OneMoreDigit(s: string, c: char)
    requires AllDigits(s) && IsDigit(c)
    ensures AllDigits(s + [c]) && ParseDigits(s + [c]) == ParseDigits(s) * 10 + (c as int - '0' as int)
    ensures |s + [c]| > 1 && (s + [c])[0] == s[0]
  {
    assert (s + [c])[..|s|] == s;
  }

  lemma {:induction false} IntIsRead(i: int)
    ensures ParseInt(PrintInt(i)) == Some(i)
    ensures PrintInt(i) != "" && (PrintInt(i)[0] == '-' || IsDigit(PrintInt(i)[0]))
  {
    var n := if i < 0 then -i else i;
    DecimalIsRead(n);
    var digits := Decimal(n);
    assert IsDigit(digits[0]);
    if i < 0 {
      assert ("-" + digits)[1..] == digits;
    } else if n < 10 {
      assert |digits| == 1;
    }
  }

  lemma {:induction false} FloatIsNoInt(t: FloatText)
    ensures ParseInt(t).None?
  {
    var digits := if t[0] == '-' then t[1..] else t;
    var c :| c in t && (c == '.' || c == 'e');
    var i :| 0 <= i < |t| && t[i] == c;
    assert t[0] == '-' ==> i > 0 && t[1..][i - 1] == c;
    assert c in digits && !IsDigit(c);
  }

  /** Whether the value has text that TOML cannot hold unescaped. */
  predicate IsClean(v: Toml) {
    v.Str? ==> NoDelete(v.text)
  }

  /** A printed value is read back as itself, unless it is a string with U+007F: then it is rejected. */
  lemma {:induction false} LiteralIsRead(v: Toml)
    requires IsScalar(v)
    ensures ParseLiteral(Literal(v)) == if IsClean(v) then Some(v) else None
  {
    match v
    case Str(s) =>
      EscapedString(s, "");
      assert Literal(v)[1..] == Escape(s) + "\"" + "";
    case Bool(b) =>
    case Int(i) => IntIsRead(i);
    case Float(literal) => FloatIsNoInt(literal);
  }

  // ---------------------------------------------------------------- lines

  lemma {:induction false} NameIsRead(name: string, rest: string)
    requires IsName(name) && (rest != "" ==> !IsBare(rest[0]))
    ensures NameLength(name + rest) == |name|
  {
    if |name| == 1 {
      assert (name + rest)[1..] == rest;
    } else {
      assert (name + rest)[1..] == name[1..] + rest;
      NameIsRead(name[1..], rest);
    }
  }

  lemma {:induction false} PairLine(key: string, literal: string)
    requires IsName(key)
    ensures var v := ParseLiteral(literal);
            ParseLine(key + " = " + literal) == if v.None? then None else Some(Pair(key, v.value))
  {
    var t := key + " = " + literal;
    assert t == key + (" = " + literal);
    NameIsRead(key, " = " + literal);
    assert IsBare(t[0]) && t[|key|..|key| + 3] == " = " && t[|key| + 3..] == literal && t[..|key|] == key;
  }

  lemma {:induction false} PairIsRead(key: string, v: Toml)
    requires IsName(key) && IsScalar(v)
    ensures ParseLine(key + " = " + Literal(v)) == if IsClean(v) then Some(Pair(key, v)) else None
  {
    PairLine(key, Literal(v));
    LiteralIsRead(v);
  }

  lemma {:induction false} HeaderIsRead(name: string)
    requires IsName(name)
    ensures ParseLine("[" + name + "]") == Some(Header(name))
  {
    var t := "[" + name + "]";
    assert t[1..|t| - 1] == name;
  }

  function MapOf(pairs: Pairs): map<string, Toml> {
    if pairs == [] then map[] else MapOf(pairs[1..])[pairs[0].0 := pairs[0].1]
  }

  function SectionsOf(l: Listing): Sections {
    if l == [] then map[] else SectionsOf(l[1..])[l[0].0 := MapOf(l[0].1)]
  }

  /** An enumeration of a table: names that do not repeat, and values that can be printed. */
  predicate IsPairs(pairs: Pairs) {
    pairs == [] || (IsName(pairs[0].0) && IsScalar(pairs[0].1) && pairs[0].0 !in MapOf(pairs[1..]) && IsPairs(pairs[1..]))
  }

  predicate IsListing(l: Listing) {
    l == [] || (IsName(l[0].0) && l[0].1 != [] && IsPairs(l[0].1) && l[0].0 !in SectionsOf(l[1..]) && IsListing(l[1..]))
  }

  predicate CleanPairs(pairs: Pairs) {
    pairs == [] || (IsClean(pairs[0].1) && CleanPairs(pairs[1..]))
  }

  predicate CleanListing(l: Listing) {
    l == [] || (CleanPairs(l[0].1) && CleanListing(l[1..]))
  }

  lemma {:induction false} PairsAreScalar(pairs: Pairs)
    requires IsPairs(pairs)
    ensures ScalarPairs(pairs)
  {
    if pairs != [] {
      PairsAreScalar(pairs[1..]);
      assert pairs == [pairs[0]] + pairs[1..];
    }
  }

  lemma {:induction false} ListingIsScalar(l: Listing)
    requires IsListing(l)
    ensures ScalarListing(l)
  {
    if l != [] {
      PairsAreScalar(l[0].1);
      ListingIsScalar(l[1..]);
      assert l == [l[0]] + l[1..];
    }
  }

  lemma {:induction false} NextPairIsRead(key: string, v: Toml, lines: seq<string>, section: string, read: Sections)
    requires IsName(key) && IsScalar(v) && section in read && key !in read[section]
    ensures ParseLines([key + " = " + Literal(v)] + lines, Some(section), read)
            == if IsClean(v) then ParseLines(lines, Some(section), read[section := read[section][key := v]]) else None
  {
    PairIsRead(key, v);
    LineIsRead(key + " = " + Literal(v), lines, section, read);
  }

  /** A line of a section is a pair or an error. */
  lemma {:induction false} LineIsRead(line: string, lines: seq<string>, section: string, read: Sections)
    requires section in read
    ensures match ParseLine(line)
            case None => ParseLines([line] + lines, Some(section), read) == None
            case Some(Pair(key, v)) =>
              key !in read[section] ==>
                ParseLines([line] + lines, Some(section), read)
                == ParseLines(lines, Some(section), read[section := read[section][key := v]])
            case _ => true
  {
    assert ([line] + lines)[1..] == lines;
  }

  lemma {:induction false} AddedPair(a: map<string, Toml>, key: string, v: Toml, b: map<string, Toml>)
    requires key !in b
    ensures a[key := v] + b == a + b[key := v]
  {
  }

  /** The pairs of a section are added to what has been read of it. */
  lemma {:induction false} PairsAreRead(pairs: Pairs, rest: seq<string>, section: string, read: Sections)
    requires IsPairs(pairs) && ScalarPairs(pairs) && section in read
    requires forall k | k in MapOf(pairs) :: k !in read[section]
    ensures ParseLines(PairLines(pairs) + rest, Some(section), read)
            == if CleanPairs(pairs) then ParseLines(rest, Some(section), read[section := read[section] + MapOf(pairs)])
               else None
  {
    if pairs == [] {
      assert PairLines(pairs) + rest == rest && read[section] + map[] == read[section];
      assert read[section := read[section]] == read;
    } else {
      var key, v := pairs[0].0, pairs[0].1;
      var lines := PairLines(pairs[1..]) + rest;
      assert PairLines(pairs) + rest == [key + " = " + Literal(v)] + lines;
      NextPairIsRead(key, v, lines, section, read);
      if IsClean(v) {
        var next := read[section := read[section][key := v]];
        PairsAreRead(pairs[1..], rest, section, next);
        AddedPair(read[section], key, v, MapOf(pairs[1..]));
        assert next[section := next[section] + MapOf(pairs[1..])] == read[section := next[section] + MapOf(pairs[1..])];
      }
    }
  }

  /** A printed section is read as itself. */
  lemma {:induction false} SectionIsRead(name: string, pairs: Pairs, rest: seq<string>, section: Option<string>, read: Sections)
    requires IsName(name) && pairs != [] && IsPairs(pairs) && ScalarPairs(pairs) && name !in read
    requires section.Some? ==> section.value in read
    ensures ParseLines(OneSection(name, pairs) + rest, section, read)
            == if CleanPairs(pairs) then ParseLines([""] + rest, Some(name), read[name := MapOf(pairs)]) else None
  {
    var withHeader := read[name := map[]];
    SectionText(name, pairs, rest);
    HeaderLine(name, PairLines(pairs) + ([""] + rest), section, read);
    PairsAreRead(pairs, [""] + rest, name, withHeader);
    assert map[] + MapOf(pairs) == MapOf(pairs);
    assert withHeader[name := MapOf(pairs)] == read[name := MapOf(pairs)];
  }

  lemma {:induction false} SectionText(name: string, pairs: Pairs, rest: seq<string>)
    requires pairs != [] && ScalarPairs(pairs)
    ensures OneSection(name, pairs) + rest == ["[" + name + "]"] + (PairLines(pairs) + ([""] + rest))
  {
  }

  lemma {:induction false} HeaderLine(name: string, lines: seq<string>, section: Option<string>, read: Sections)
    requires IsName(name) && name !in read && (section.Some? ==> section.value in read)
    ensures ParseLines(["[" + name + "]"] + lines, section, read) == ParseLines(lines, Some(name), read[name := map[]])
  {
    HeaderIsRead(name);
    assert (["[" + name + "]"] + lines)[1..] == lines;
  }

  lemma {:induction false} BlankIsRead(line: string, lines: seq<string>, section: Option<string>, read: Sections)
    requires ParseLine(line) == Some(Blank) && (section.Some? ==> section.value in read)
    ensures ParseLines([line] + lines, section, read) == ParseLines(lines, section, read)
  {
    assert ([line] + lines)[1..] == lines;
  }

  lemma {:induction false} AddedSection(a: Sections, name: string, pairs: map<string, Toml>, b: Sections)
    requires name !in b
    ensures a[name := pairs] + b == a + b[name := pairs]
  {
  }

  lemma {:induction false} SectionsAreRead(l: Listing, section: Option<string>, read: Sections)
    requires IsListing(l) && ScalarListing(l) && (section.Some? ==> section.value in read)
    requires forall k | k in SectionsOf(l) :: k !in read
    ensures ParseLines(SectionLines(l), section, read)
            == if CleanListing(l) then Some(read + SectionsOf(l)) else None
  {
    if l == [] {
      assert read + map[] == read;
    } else {
      var name, pairs := l[0].0, l[0].1;
      SectionIsRead(name, pairs, SectionLines(l[1..]), section, read);
      if CleanPairs(pairs) {
        var next := read[name := MapOf(pairs)];
        BlankIsRead("", SectionLines(l[1..]), Some(name), next);
        SectionsAreRead(l[1..], Some(name), next);
        AddedSection(read, name, MapOf(pairs), SectionsOf(l[1..]));
      }
    }
  }

  // ---------------------------------------------------------------- the whole text

  predicate NoLineFeed(s: string) {
    forall i | 0 <= i < |s| :: s[i] != '\n'
  }

  predicate AllLines(lines: seq<string>) {
    forall x | x in lines :: NoLineFeed(x)
  }

  lemma {:induction false} LineLengthOf(line: string, rest: string)
    requires NoLineFeed(line) && (rest == "" || rest[0] == '\n')
    ensures LineLength(line + rest) == |line|
  {
    assert forall i | 0 <= i < |line| :: (line + rest)[i] == line[i];
    assert rest != "" ==> (line + rest)[|line|] == '\n';
  }

  /** Splitting undoes joining. */
  lemma {:induction false} LinesOfJoin(lines: seq<string>)
    requires lines != [] && AllLines(lines)
    ensures Lines(Join("\n", lines)) == lines
  {
    var first, text := lines[0], Join("\n", lines);
    assert first in lines;
    if |lines| == 1 {
      LineLengthOf(first, "");
      assert first + "" == first && lines == [first];
    } else {
      assert forall x | x in lines[1..] :: x in lines;
      LinesOfJoin(lines[1..]);
      FirstLine(first, Join("\n", lines[1..]));
    }
  }

  lemma {:induction false} FirstLine(first: string, rest: string)
    requires NoLineFeed(first)
    ensures Lines(first + "\n" + rest) == [first] + Lines(rest)
  {
    var text := first + "\n" + rest;
    assert text == first + ("\n" + rest);
    LineLengthOf(first, "\n" + rest);
    assert text[..|first|] == first && text[|first| + 1..] == rest;
  }

  lemma {:induction false} EscapeHasNoLineFeed(s: string)
    ensures NoLineFeed(Escape(s))
  {
    if s != "" {
      EscapeHasNoLineFeed(s[1..]);
      EscapedCharHasNoLineFeed(s[0]);
    }
  }

  lemma {:induction false} EscapedCharHasNoLineFeed(c: char)
    ensures NoLineFeed(EscapeChar(c))
  {
  }

  lemma {:induction false} LiteralHasNoLineFeed(v: Toml)
    requires IsScalar(v)
    ensures NoLineFeed(Literal(v))
  {
    match v
    case Str(s) => EscapeHasNoLineFeed(s);
    case Int(i) => IntHasNoLineFeed(i);
    case _ =>
  }

  lemma {:induction false} IntHasNoLineFeed(i: int)
    ensures NoLineFeed(PrintInt(i))
  {
    var n := if i < 0 then -i else i;
    DecimalIsRead(n);
    SignedHasNoLineFeed(i < 0, Decimal(n));
  }

  lemma {:induction false} SignedHasNoLineFeed(negative: bool, digits: string)
    requires AllDigits(digits)
    ensures NoLineFeed(Signed(negative, digits))
  {
    forall i | 0 <= i < |digits|
      ensures digits[i] != '\n'
    {
      assert IsDigit(digits[i]);
    }
  }

  lemma {:induction false} PairLinesHaveNoLineFeed(pairs: Pairs)
    requires IsPairs(pairs) && ScalarPairs(pairs)
    ensures AllLines(PairLines(pairs))
  {
    if pairs != [] {
      LiteralHasNoLineFeed(pairs[0].1);
      PairLinesHaveNoLineFeed(pairs[1..]);
    }
  }

  lemma {:induction false} SectionLinesHaveNoLineFeed(l: Listing)
    requires IsListing(l) && ScalarListing(l)
    ensures AllLines(SectionLines(l))
  {
    if l != [] {
      PairLinesHaveNoLineFeed(l[0].1);
      SectionLinesHaveNoLineFeed(l[1..]);
    }
  }

  predicate IsPlain(s: string) {
    forall i | 0 <= i < |s| :: ' ' <= s[i] <= '~'
  }

  lemma {:induction false} HeadingIsBlank()
    ensures ParseLine(HEADING) == Some(Blank) && NoLineFeed(HEADING)
  {
    assert IsPlain("# Generated by ") && IsPlain("Desktop Translator. ");
    assert IsPlain("Do not store ") && IsPlain("secrets here.");
    assert IsPlain(HEADING);
    PlainComment(HEADING);
  }

  lemma {:induction false} PlainComment(s: string)
    requires IsPlain(s) && s != "" && s[0] == '#'
    ensures ParseLine(s) == Some(Blank) && NoLineFeed(s)
  {
  }

  /** What is printed is read back exactly, in any order of its sections and keys, or rejected because of U+007F. */
  lemma {:induction false} PrintedIsRead(l: Listing)
    requires IsListing(l) && ScalarListing(l)
    ensures Parse(Dump(l)) == if CleanListing(l) then Some(SectionsOf(l)) else None
  {
    HeadingIsBlank();
    SectionLinesHaveNoLineFeed(l);
    WithHeading(HEADING, l);
  }

  lemma {:induction false} WithHeading(heading: string, l: Listing)
    requires ParseLine(heading) == Some(Blank) && NoLineFeed(heading)
    requires IsListing(l) && ScalarListing(l) && AllLines(SectionLines(l))
    ensures Parse(Join("\n", [heading, ""] + SectionLines(l))) == if CleanListing(l) then Some(SectionsOf(l)) else None
  {
    var lines := [heading, ""] + SectionLines(l);
    LinesOfJoin(lines);
    assert lines == [heading] + ([""] + SectionLines(l));
    BlankIsRead(heading, [""] + SectionLines(l), None, map[]);
    BlankIsRead("", SectionLines(l), None, map[]);
    SectionsAreRead(l, None, map[]);
    assert map[] + SectionsOf(l) == SectionsOf(l);
  }
}
