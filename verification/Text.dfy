/** Python string primitives shared by the components: `str.isspace`, `strip`, `lstrip` and `rstrip`. */
module Text {

  /** The characters for which Python's `str.isspace` holds; also the class `\s` of a `str` pattern. */
  predicate IsSpace(c: char) {
    '\t' <= c <= '\r' || '\U{1c}' <= c <= ' ' || (c >= '\U{85}' && IsWideSpace(c))
  }

  /** The white space outside ASCII. */
  predicate IsWideSpace(c: char) {
    || c == '\U{85}' || c == '\U{a0}' || c == '\U{1680}' || '\U{2000}' <= c <= '\U{200a}'
    || '\U{2028}' <= c <= '\U{2029}' || c == '\U{202f}' || c == '\U{205f}' || c == '\U{3000}'
  }

  predicate AllSpace(s: string) {
    forall i | 0 <= i < |s| :: IsSpace(s[i])
  }

  /** The number of white-space characters that `s` begins with. */
  function Leading(s: string): (n: nat)
    ensures n <= |s|
    ensures forall i | 0 <= i < n :: IsSpace(s[i])
    ensures n < |s| ==> !IsSpace(s[n])
  {
    if s != "" && IsSpace(s[0]) then 1 + Leading(s[1..]) else 0
  }

  /** The length of `s` without the white space that it ends with. */
  function Trimmed(s: string): (n: nat)
    ensures n <= |s|
    ensures forall i | n <= i < |s| :: IsSpace(s[i])
    ensures n > 0 ==> !IsSpace(s[n - 1])
  {
    if s != "" && IsSpace(s[|s| - 1]) then Trimmed(s[..|s| - 1]) else |s|
  }

  function LStrip(s: string): string {
    s[Leading(s)..]
  }

  function RStrip(s: string): string {
    s[..Trimmed(s)]
  }

  function Strip(s: string): string {
    RStrip(LStrip(s))
  }

  lemma {:induction false} StripEnds(s: string)
    ensures Strip(s) != "" ==> !IsSpace(Strip(s)[0]) && !IsSpace(Strip(s)[|Strip(s)| - 1])
  {
  }

  lemma {:induction false} StripAround(a: string, core: string, b: string)
    requires AllSpace(a) && AllSpace(b)
    ensures Strip(a + core + b) == Strip(core)
  {
    LeadingPast(a, core + b);
    assert a + (core + b) == a + core + b;
    assert LStrip(a + core + b) == LStrip(core + b);
    if Leading(core) == |core| {
      assert AllSpace(core + b);
      AllSpaceStrips(core + b);
      AllSpaceStrips(core);
    } else {
      LeadingBefore(core, b);
      assert LStrip(core + b) == LStrip(core) + b;
      TrimmedBefore(LStrip(core), b);
    }
  }

  lemma {:induction false} LeadingPast(a: string, s: string)
    requires AllSpace(a)
    ensures Leading(a + s) == |a| + Leading(s) && LStrip(a + s) == LStrip(s)
  {
    if a == "" {
      assert a + s == s;
    } else {
      assert (a + s)[1..] == a[1..] + s;
      LeadingPast(a[1..], s);
    }
  }

  lemma {:induction false} LeadingBefore(s: string, b: string)
    requires Leading(s) < |s|
    ensures Leading(s + b) == Leading(s)
  {
    if s != "" && IsSpace(s[0]) {
      assert (s + b)[1..] == s[1..] + b;
      LeadingBefore(s[1..], b);
    }
  }

  lemma {:induction false} TrimmedBefore(s: string, b: string)
    requires AllSpace(b)
    ensures RStrip(s + b) == RStrip(s)
  {
    if b == "" {
      assert s + b == s;
    } else {
      var n := |b| - 1;
      assert (s + b)[..|s + b| - 1] == s + b[..n] && (s + b)[|s + b| - 1] == b[n];
      assert IsSpace(b[n]);
      TrimmedBefore(s, b[..n]);
      assert Trimmed(s + b) == Trimmed(s + b[..n]);
    }
  }

  lemma {:induction false} AllSpaceStrips(s: string)
    requires AllSpace(s)
    ensures Strip(s) == ""
  {
    LeadingPast(s, "");
    assert s + "" == s;
  }

  lemma {:induction false} AroundStrip(s: string) returns (a: string, b: string)
    ensures AllSpace(a) && AllSpace(b) && s == a + Strip(s) + b
  {
    a := s[..Leading(s)];
    var rest := LStrip(s);
    b := rest[Trimmed(rest)..];
    assert s == a + rest;
    assert rest == RStrip(rest) + b;
    Associative(a, RStrip(rest), b);
  }

  function Digit(d: nat): (c: char)
    requires d < 10
    ensures '0' <= c <= '9' && c as int == '0' as int + d
  {
    ('0' as int + d) as char
  }

  function Decimal(n: nat): (s: string)
    ensures s != ""
    ensures n < 10 ==> |s| == 1 && s[0] as int == '0' as int + n
  {
    (if n < 10 then "" else Decimal(n / 10)) + [Digit(n % 10)]
  }

  lemma {:induction false} StripOfStripped(s: string)
    requires s == "" || (!IsSpace(s[0]) && !IsSpace(s[|s| - 1]))
    ensures Strip(s) == s
  {
  }

  /** The text with its ASCII letters in lower case: `casefold` and `lower` on ASCII. */
  function Lower(s: string): string {
    if s == "" then ""
    else [if 'A' <= s[0] <= 'Z' then (s[0] as int + 32) as char else s[0]] + Lower(s[1..])
  }

  lemma {:induction false} Associative<T>(a: seq<T>, b: seq<T>, c: seq<T>)
    ensures a + (b + c) == a + b + c
  {
  }

  function Join(separator: string, parts: seq<string>): string {
    if parts == [] then ""
    else if |parts| == 1 then parts[0]
    else parts[0] + separator + Join(separator, parts[1..])
  }

  /** `s.replace("\r\n", "\n")`. */
  function WithoutCrLf(s: string): string
    decreases |s|
  {
    if |s| >= 2 && s[0] == '\r' && s[1] == '\n' then "\n" + WithoutCrLf(s[2..])
    else if s == "" then ""
    else [s[0]] + WithoutCrLf(s[1..])
  }

  /** `s.replace("\r", "\n")`. */
  function WithoutCr(s: string): string {
    if s == "" then "" else [if s[0] == '\r' then '\n' else s[0]] + WithoutCr(s[1..])
  }

  /** The text with every line break written as a line feed. */
  function UnixLines(s: string): string {
    WithoutCr(WithoutCrLf(s))
  }

  function LineLength(s: string): (n: nat)
    ensures n <= |s| && (n < |s| ==> s[n] == '\n')
    ensures forall i | 0 <= i < n :: s[i] != '\n'
  {
    if s == "" || s[0] == '\n' then 0 else 1 + LineLength(s[1..])
  }

  /** `s.split("\n")`. */
  function Lines(s: string): (r: seq<string>)
    ensures r != []
    decreases |s|
  {
    var n := LineLength(s);
    if n == |s| then [s] else [s[..n]] + Lines(s[n + 1..])
  }

  /** Strings by their code points. */
  predicate StringLess(a: string, b: string) {
    if b == "" then false else if a == "" then true
    else if a[0] != b[0] then a[0] < b[0] else StringLess(a[1..], b[1..])
  }

  /** Any two different strings are in one order, and the order is transitive. */
  lemma {:induction false} StringOrder(a: string, b: string, c: string)
    ensures StringLess(a, b) || a == b || StringLess(b, a)
    ensures !(StringLess(a, b) && StringLess(b, a))
    ensures StringLess(a, b) && StringLess(b, c) ==> StringLess(a, c)
  {
    if a != "" && b != "" && a[0] == b[0] {
      StringOrder(a[1..], b[1..], if c == "" then "" else c[1..]);
      assert a == [a[0]] + a[1..] && b == [b[0]] + b[1..];
    }
  }
}
