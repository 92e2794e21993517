/** Character and string helpers used by the quiz: decimal digits, JavaScript's
    `String.prototype.trim`, and the container-name normalisation. */
module Text {

  predicate IsDigit(c: char) { '0' <= c <= '9' }

  predicate AllDigits(s: string) { forall i :: 0 <= i < |s| ==> IsDigit(s[i]) }

  function DigitChar(d: nat): (c: char)
    requires d < 10
    ensures IsDigit(c) && c as int - '0' as int == d
  {
    ('0' as int + d) as char
  }

  function DigitValue(c: char): (d: nat)
    requires IsDigit(c)
    ensures d < 10 && DigitChar(d) == c
  {
    c as int - '0' as int
  }

  /** The decimal text of a natural number, as JavaScript prints an integer. */
  function NatToString(n: nat): (s: string)
    ensures 1 <= |s| && AllDigits(s)
    ensures n < 10 <==> |s| == 1
  {
    if n < 10 then [DigitChar(n)] else NatToString(n / 10) + [DigitChar(n % 10)]
  }

  /** The value of a string of decimal digits. */
  function ParseNat(s: string): nat
    requires AllDigits(s)
  {
    if s == [] then 0 else 10 * ParseNat(s[..|s| - 1]) + DigitValue(s[|s| - 1])
  }

  /** Printing a number and reading it back gives the number. */
  lemma {:induction false} ParseNatToString(n: nat)
    ensures ParseNat(NatToString(n)) == n
  {
    if 10 <= n {
      var s := NatToString(n);
      assert s[..|s| - 1] == NatToString(n / 10);
      ParseNatToString(n / 10);
    }
  }

  /** The characters JavaScript's `trim` removes: the WhiteSpace and LineTerminator
      code points of ECMA-262. */
  predicate IsWhitespace(c: char) {
    c == '\t' || c == '\n' || c == '\U{B}' || c == '\U{C}' || c == '\r' || c == ' '
    || c == '\U{A0}' || c == '\U{1680}' || ('\U{2000}' <= c <= '\U{200A}')
    || c == '\U{2028}' || c == '\U{2029}' || c == '\U{202F}' || c == '\U{205F}'
    || c == '\U{3000}' || c == '\U{FEFF}'
  }

  /** The number of whitespace characters at the start of `s`. */
  function Leading(s: string): (k: nat)
    ensures k <= |s|
    ensures forall i :: 0 <= i < k ==> IsWhitespace(s[i])
    ensures k < |s| ==> !IsWhitespace(s[k])
  {
    if s != [] && IsWhitespace(s[0]) then
      var k := 1 + Leading(s[1..]);
      assert forall i :: 1 <= i < k ==> s[i] == s[1..][i - 1];
      k
    else 0
  }

  /** The number of whitespace characters at the end of `s`. */
  function Trailing(s: string): (k: nat)
    ensures k <= |s|
    ensures forall i :: |s| - k <= i < |s| ==> IsWhitespace(s[i])
    ensures k < |s| ==> !IsWhitespace(s[|s| - 1 - k])
  {
    if s != [] && IsWhitespace(s[|s| - 1]) then
      var k := 1 + Trailing(s[..|s| - 1]);
      assert forall i :: |s| - k <= i < |s| - 1 ==> s[i] == s[..|s| - 1][i];
      k
    else 0
  }

  /** `s.trimStart()`. */
  function TrimStart(s: string): (r: string)
    ensures r == [] || !IsWhitespace(r[0])
    ensures |r| == |s| - Leading(s) && r == s[Leading(s)..]
  {
    s[Leading(s)..]
  }

  /** `s.trimEnd()`. */
  function TrimEnd(s: string): (r: string)
    ensures r == [] || !IsWhitespace(r[|r| - 1])
    ensures |r| == |s| - Trailing(s) && r == s[..|r|]
    ensures forall i :: |r| <= i < |s| ==> IsWhitespace(s[i])
  {
    s[..|s| - Trailing(s)]
  }

  /** `s.trim()`: what is left of `s` after dropping the whitespace at both ends
      (the characters counted by `Leading` and `Trailing`); it neither starts nor
      ends with whitespace. */
  function Trim(s: string): (r: string)
    ensures r == [] || (!IsWhitespace(r[0]) && !IsWhitespace(r[|r| - 1]))
    ensures Leading(s) + |r| <= |s| && r == s[Leading(s)..Leading(s) + |r|]
    ensures forall i :: Leading(s) + |r| <= i < |s| ==> IsWhitespace(s[i])
  {
    var t := TrimStart(s);
    var r := TrimEnd(t);
    assert r == [] ==> Trailing(t) == |t|;
    assert forall i :: Leading(s) + |r| <= i < |s| ==> s[i] == t[i - Leading(s)];
    r
  }

  /** `toLowerCase` restricted to the ASCII letters. */
  function ToLower(c: char): (r: char)
    ensures !('A' <= r <= 'Z')
    ensures !('A' <= c <= 'Z') ==> r == c
    ensures 'A' <= c <= 'Z' ==> r as int - 'a' as int == c as int - 'A' as int
  {
    if 'A' <= c <= 'Z' then (c as int - 'A' as int + 'a' as int) as char else c
  }

  /** `_normalizeName`: lower-case the name and turn every space into a hyphen,
      giving a string usable as an element id. */
  function NormalizeName(s: string): (r: string)
    ensures |r| == |s|
    ensures forall i :: 0 <= i < |r| ==> r[i] != ' ' && !('A' <= r[i] <= 'Z')
    ensures forall i :: 0 <= i < |s| && s[i] == ' ' ==> r[i] == '-'
    ensures forall i :: 0 <= i < |s| && s[i] != ' ' ==> r[i] == ToLower(s[i])
  {
    if s == [] then []
    else [if s[0] == ' ' then '-' else ToLower(s[0])] + NormalizeName(s[1..])
  }

  /** Normalising twice is the same as normalising once. */
  lemma NormalizeNameIdempotent(s: string)
    ensures NormalizeName(NormalizeName(s)) == NormalizeName(s)
  {
    var r := NormalizeName(s);
    var rr := NormalizeName(r);
    assert forall i :: 0 <= i < |r| ==> rr[i] == r[i];
  }
}
