/** The handful of JavaScript string primitives the aggregation code relies on:
    `String.prototype.trim`, `toLowerCase` on the letters the patterns care about,
    the `\d` character class, `parseInt(_, 10)` and the decimal rendering of a
    non-negative integer inside a template literal. */
module Text {

  /** ECMAScript WhiteSpace and LineTerminator code points: the set that both
      `trim()` and the regular-expression class `\s` use. */
  predicate IsSpace(c: char) {
    c == '\t' || c == '\n' || c == '\U{B}' || c == '\U{C}' || c == '\r' || c == ' '
    || c == '\U{A0}' || c == '\U{1680}' || ('\U{2000}' <= c <= '\U{200A}')
    || c == '\U{2028}' || c == '\U{2029}' || c == '\U{202F}' || c == '\U{205F}'
    || c == '\U{3000}' || c == '\U{FEFF}'
  }

  predicate AllSpaces(s: string) {
    forall k :: 0 <= k < |s| ==> IsSpace(s[k])
  }

  /** Drops leading white space: the result is the suffix of `s` that starts at
      its first non-space character. */
  function TrimStart(s: string): (r: string)
    ensures |r| <= |s| && r == s[|s| - |r|..]
    ensures AllSpaces(s[..|s| - |r|])
    ensures r != [] ==> !IsSpace(r[0])
  {
    if s != [] && IsSpace(s[0]) then
      var r := TrimStart(s[1..]);
      assert s[..|s| - |r|] == [s[0]] + s[1..][..|s| - 1 - |r|];
      r
    else s
  }

  /** Drops trailing white space: the result is the prefix of `s` that ends at
      its last non-space character. */
  function TrimEnd(s: string): (r: string)
    ensures |r| <= |s| && r == s[..|r|]
    ensures AllSpaces(s[|r|..])
    ensures r != [] ==> !IsSpace(r[|r| - 1])
  {
    if s != [] && IsSpace(s[|s| - 1]) then
      var r := TrimEnd(s[..|s| - 1]);
      assert s[|r|..] == s[..|s| - 1][|r|..] + [s[|s| - 1]];
      r
    else s
  }

  /** `s.trim()`: the longest infix of `s` that neither starts nor ends with
      white space, with only white space cut off on either side. */
  function Trim(s: string): (r: string)
    ensures |r| <= |s|
    ensures r != [] ==> !IsSpace(r[0]) && !IsSpace(r[|r| - 1])
    ensures r == [] <==> AllSpaces(s)
  {
    var t := TrimStart(s);
    var r := TrimEnd(t);

    assert AllSpaces(s) ==> t == [] by {
      if t != [] { assert t[0] == s[|s| - |t|]; }
    }
    assert t == [] ==> s == s[..|s| - |t|];
    r
  }

  /** `trim()` cuts only white space: its result is an infix of the text
      with nothing but white space before and after it. */
  lemma TrimInfix(s: string)
    ensures exists i, j :: 0 <= i <= j <= |s| && Trim(s) == s[i..j] && AllSpaces(s[..i]) && AllSpaces(s[j..])
  {
    var t := TrimStart(s);
    var r := TrimEnd(t);
    var i := |s| - |t|;
    assert s[i + |r|..] == t[|r|..];
    assert s[i..i + |r|] == t[..|r|];
  }

  /** Trimming text that has no white space at either end changes nothing. */
  lemma TrimUnpadded(s: string)
    requires s != [] ==> !IsSpace(s[0]) && !IsSpace(s[|s| - 1])
    ensures Trim(s) == s
  {
  }

  /** Trimming is idempotent. */
  lemma TrimIdempotent(s: string)
    ensures Trim(Trim(s)) == Trim(s)
  {
    TrimUnpadded(Trim(s));
  }

  function LowerChar(c: char): char {
    if 'A' <= c <= 'Z' then (c as int + 32) as char else c
  }

  /** `toLowerCase()` restricted to the ASCII letters. */
  function ToLower(s: string): (r: string)
    ensures |r| == |s|
    ensures forall k :: 0 <= k < |s| ==> r[k] == LowerChar(s[k])
  {
    seq(|s|, k requires 0 <= k < |s| => LowerChar(s[k]))
  }

  predicate IsLower(s: string) {
    forall k :: 0 <= k < |s| ==> !('A' <= s[k] <= 'Z')
  }

  /** Lower-casing yields lower-case text, and lower-case text is its own
      lower case; together: `ToLower` is idempotent. */
  lemma ToLowerIdempotent(s: string)
    ensures IsLower(ToLower(s))
    ensures IsLower(s) ==> ToLower(s) == s
    ensures ToLower(ToLower(s)) == ToLower(s)
  {
  }

  /** Lower-casing neither makes nor unmakes white space. */
  lemma LowerKeepsSpaces(s: string)
    ensures AllSpaces(ToLower(s)) <==> AllSpaces(s)
  {
    assert forall k :: 0 <= k < |s| ==> (IsSpace(ToLower(s)[k]) <==> IsSpace(s[k]));
  }

  predicate IsDigit(c: char) {
    '0' <= c <= '9'
  }

  predicate AllDigits(s: string) {
    forall k :: 0 <= k < |s| ==> IsDigit(s[k])
  }

  function DigitValue(c: char): nat
    requires IsDigit(c)
  {
    c as int - '0' as int
  }

  function DigitChar(d: nat): (c: char)
    requires d < 10
    ensures IsDigit(c) && DigitValue(c) == d
  {
    ('0' as int + d) as char
  }

  /** `parseInt(ds, 10)` for a run of decimal digits (as an exact integer). */
  function DecimalValue(ds: string): nat
    requires AllDigits(ds)
  {
    if ds == [] then 0 else DecimalValue(ds[..|ds| - 1]) * 10 + DigitValue(ds[|ds| - 1])
  }

  /** The decimal text a template literal gives a non-negative integer. */
  function NatToString(n: nat): (r: string)
    ensures r != [] && AllDigits(r)
    ensures r[0] == '0' ==> n == 0
  {
    if n < 10 then [DigitChar(n)] else NatToString(n / 10) + [DigitChar(n % 10)]
  }

  /** Reading back the rendered digits gives the number: `parseInt(String(n), 10) == n`. */
  lemma {:induction false} DecimalRoundTrip(n: nat)
    ensures DecimalValue(NatToString(n)) == n
  {
    var r := NatToString(n);
    if n >= 10 {
      DecimalRoundTrip(n / 10);
      assert r[..|r| - 1] == NatToString(n / 10);
    }
  }

  /** Different numbers render differently. */
  lemma NatToStringInjective(m: nat, n: nat)
    requires NatToString(m) == NatToString(n)
    ensures m == n
  {
    DecimalRoundTrip(m);
    DecimalRoundTrip(n);
  }
}
