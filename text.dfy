/**
 * Character classes, decimal numerals and the few pieces of Python's string
 * handling the pipeline relies on: the `\d` and `\s` regular-expression
 * classes (over ASCII), `str(n)` for a natural number, `int(s)`, and
 * `s.split('=')[1]`.
 */
module Text {
  import opened Wrappers

  /** `\d` over ASCII. */
  predicate IsDigit(c: char) { '0' <= c <= '9' }

  /** `\s` over ASCII, as Python's str.isspace() classifies it: space, \t \n \v \f \r and \x1c-\x1f. */
  predicate IsSpace(c: char) {
    c == ' ' || ('\t' <= c <= '\r') || ('\U{1C}' <= c <= '\U{1F}')
  }

  predicate AllDigits(s: string) { forall i :: 0 <= i < |s| ==> IsDigit(s[i]) }

  predicate AllSpaces(s: string) { forall i :: 0 <= i < |s| ==> IsSpace(s[i]) }

  /** What `\d+` matches as a whole. */
  predicate IsNumeral(s: string) { |s| > 0 && AllDigits(s) }

  function DigitValue(c: char): nat
    requires IsDigit(c)
  {
    c as int - '0' as int
  }

  function DigitChar(d: nat): char
    requires d < 10
  {
    ('0' as int + d) as char
  }

  /** Python's int() of a string of ASCII digits (leading zeros allowed). */
  function DigitsValue(s: string): nat
    requires AllDigits(s)
  {
    if |s| == 0 then 0 else DigitsValue(s[..|s| - 1]) * 10 + DigitValue(s[|s| - 1])
  }

  /** Python's str(n) for a natural number: decimal, without leading zeros. */
  function NatToString(n: nat): (s: string)
    ensures IsNumeral(s)
    ensures DigitsValue(s) == n
    ensures s[0] == '0' ==> n == 0 && |s| == 1
  {
    if n < 10 then [DigitChar(n)]
    else
      var p := NatToString(n / 10);
      var s := p + [DigitChar(n % 10)];
      assert s[..|s| - 1] == p;
      s
  }

  lemma NatToStringInjective(a: nat, b: nat)
    requires NatToString(a) == NatToString(b)
    ensures a == b
  {
    assert DigitsValue(NatToString(a)) == a;
  }

  /** Length of the longest prefix of digits: how far a greedy `\d*` reaches. */
  function LeadingDigits(s: string): (n: nat)
    ensures n <= |s|
    ensures AllDigits(s[..n])
    ensures n < |s| ==> !IsDigit(s[n])
  {
    if |s| > 0 && IsDigit(s[0]) then
      var m := LeadingDigits(s[1..]);
      assert s[..1 + m] == [s[0]] + s[1..][..m];
      1 + m
    else 0
  }

  /** Length of the longest prefix of whitespace: how far a greedy `\s*` reaches. */
  function LeadingSpaces(s: string): (n: nat)
    ensures n <= |s|
    ensures AllSpaces(s[..n])
    ensures n < |s| ==> !IsSpace(s[n])
  {
    if |s| > 0 && IsSpace(s[0]) then
      var m := LeadingSpaces(s[1..]);
      assert s[..1 + m] == [s[0]] + s[1..][..m];
      1 + m
    else 0
  }

  /** Length of the longest suffix of whitespace. */
  function TrailingSpaces(s: string): (n: nat)
    ensures n <= |s|
    ensures AllSpaces(s[|s| - n..])
    ensures n < |s| ==> !IsSpace(s[|s| - n - 1])
  {
    if |s| > 0 && IsSpace(s[|s| - 1]) then
      var p := s[..|s| - 1];
      var m := TrailingSpaces(p);
      TrailingStep(s, p, m);
      1 + m
    else 0
  }

  /** One more space at the end lengthens the trailing run by one. */
  lemma TrailingStep(s: string, p: string, m: nat)
    requires s != [] && IsSpace(s[|s| - 1]) && p == s[..|s| - 1]
    requires m <= |p| && AllSpaces(p[|p| - m..]) && (m < |p| ==> !IsSpace(p[|p| - m - 1]))
    ensures AllSpaces(s[|s| - (1 + m)..])
    ensures 1 + m < |s| ==> !IsSpace(s[|s| - (1 + m) - 1])
  {
    var t := s[|s| - (1 + m)..];
    forall i | 0 <= i < |t| ensures IsSpace(t[i]) {
      if i < m {
        assert t[i] == p[|p| - m..][i];
      }
    }
  }

  /** Python's str.strip() with no argument, over ASCII whitespace. */
  function Strip(s: string): string {
    var t := s[LeadingSpaces(s)..];
    t[..|t| - TrailingSpaces(t)]
  }

  /** Index of the first occurrence of `c` in `s`, or |s| when there is none. */
  function FindOrEnd(s: string, c: char): (i: nat)
    ensures i <= |s|
    ensures c !in s[..i]
    ensures i < |s| ==> s[i] == c
  {
    if |s| == 0 then 0
    else if s[0] == c then 0
    else
      var j := FindOrEnd(s[1..], c);
      assert s[..1 + j] == [s[0]] + s[1..][..j];
      1 + j
  }

  /** What `.*` captures: the rest of the line, up to a line feed. */
  function RestOfLine(s: string): string {
    s[..FindOrEnd(s, '\n')]
  }

  predicate StartsWith(s: string, prefix: string) {
    |prefix| <= |s| && s[..|prefix|] == prefix
  }

  /** `s.split('=')[1]` when `'=' in s`: the text between the first `=` and the next one (or the end). */
  function SecondField(s: string): (f: string)
    requires '=' in s
    ensures '=' !in f
  {
    var i := FindOrEnd(s, '=');
    var rest := s[i + 1..];
    rest[..FindOrEnd(rest, '=')]
  }

  /** Digits grouped by single underscores, as Python's int() accepts them ("1_000"). */
  predicate IsGroupedDigits(b: string) {
    && |b| > 0
    && IsDigit(b[0])
    && IsDigit(b[|b| - 1])
    && (forall i :: 0 <= i < |b| ==> IsDigit(b[i]) || b[i] == '_')
    && (forall i :: 0 <= i < |b| - 1 ==> !(b[i] == '_' && b[i + 1] == '_'))
  }

  /** The digits of `b`, underscores removed. */
  function Ungroup(b: string): (d: string)
    requires forall i :: 0 <= i < |b| ==> IsDigit(b[i]) || b[i] == '_'
    ensures AllDigits(d)
    ensures AllDigits(b) ==> d == b
  {
    if |b| == 0 then []
    else if b[0] == '_' then Ungroup(b[1..])
    else [b[0]] + Ungroup(b[1..])
  }

  /**
   * Python's int(s) on a string: surrounding whitespace is ignored, an optional
   * sign, then digits that single underscores may group. None stands for the
   * ValueError raised on anything else.
   */
  function ParseInt(s: string): Option<int> {
    var t := Strip(s);
    var signed := |t| > 0 && (t[0] == '-' || t[0] == '+');
    var body := if signed then t[1..] else t;
    if IsGroupedDigits(body) then
      var v: int := DigitsValue(Ungroup(body));
      Some(if signed && t[0] == '-' then -v else v)
    else None
  }

  lemma StripNumeral(s: string)
    requires IsNumeral(s)
    ensures Strip(s) == s
  {
    assert !IsSpace(s[0]);
    assert LeadingSpaces(s) == 0;
    assert !IsSpace(s[|s| - 1]);
    assert TrailingSpaces(s) == 0;
  }

  /** int() reads back every numeral, in particular every str(n). */
  lemma ParseIntNumeral(s: string)
    requires IsNumeral(s)
    ensures ParseInt(s) == Some(DigitsValue(s))
  {
    StripNumeral(s);
    assert IsGroupedDigits(s);
  }

  lemma ParseIntNatToString(n: nat)
    ensures ParseInt(NatToString(n)) == Some(n)
  {
    ParseIntNumeral(NatToString(n));
  }

  /** The greedy scans stop exactly where the run of digits or spaces ends. */
  lemma {:induction false} LeadingDigitsOf(d: string, rest: string)
    requires AllDigits(d)
    requires rest == [] || !IsDigit(rest[0])
    ensures LeadingDigits(d + rest) == |d|
  {
    if d != [] {
      assert (d + rest)[1..] == d[1..] + rest;
      LeadingDigitsOf(d[1..], rest);
    }
  }

  lemma {:induction false} LeadingSpacesOf(w: string, rest: string)
    requires AllSpaces(w)
    requires rest == [] || !IsSpace(rest[0])
    ensures LeadingSpaces(w + rest) == |w|
  {
    if w != [] {
      assert (w + rest)[1..] == w[1..] + rest;
      LeadingSpacesOf(w[1..], rest);
    }
  }
}
