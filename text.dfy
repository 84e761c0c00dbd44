/**
 * Character-level string operations shared by the client (JavaScript) and the
 * server (Python), restricted to ASCII: whitespace classes, trimming, case
 * mapping and decimal rendering of integers.
 */
module Text {

  /** The two whitespace classes of the system: JavaScript's (client) and Python's (server). */
  datatype Whitespace = JsWhitespace | PyWhitespace

  /**
   * ASCII whitespace as `String.prototype.trim` and the regex class `\s` see it
   * in JavaScript, and as `str.strip()` sees it in Python; only Python counts
   * U+001C..U+001F as whitespace.
   */
  predicate IsSpace(c: char, ws: Whitespace) {
    c == ' ' || '\t' <= c <= '\r' || (ws == PyWhitespace && '\U{1C}' <= c <= '\U{1F}')
  }

  /** True when no character of `s` is whitespace. */
  predicate NoSpace(s: string, ws: Whitespace) {
    forall k :: 0 <= k < |s| ==> !IsSpace(s[k], ws)
  }

  /** True when every character of `s` is whitespace (so also for the empty string). */
  predicate AllSpace(s: string, ws: Whitespace) {
    forall k :: 0 <= k < |s| ==> IsSpace(s[k], ws)
  }

  /** The first index at or after `i` that does not hold whitespace (`|s|` if there is none). */
  function SkipSpace(s: string, i: nat, ws: Whitespace): (j: nat)
    requires i <= |s|
    ensures i <= j <= |s|
    ensures forall k :: i <= k < j ==> IsSpace(s[k], ws)
    ensures j < |s| ==> !IsSpace(s[j], ws)
    decreases |s| - i
  {
    if i < |s| && IsSpace(s[i], ws) then SkipSpace(s, i + 1, ws) else i
  }

  /** Moving down from `j` but not below `lo`, the first index whose preceding character is not whitespace. */
  function SkipSpaceBack(s: string, lo: nat, j: nat, ws: Whitespace): (i: nat)
    requires lo <= j <= |s|
    ensures lo <= i <= j
    ensures forall k :: i <= k < j ==> IsSpace(s[k], ws)
    ensures i > lo ==> !IsSpace(s[i - 1], ws)
    decreases j
  {
    if j > lo && IsSpace(s[j - 1], ws) then SkipSpaceBack(s, lo, j - 1, ws) else j
  }

  /**
   * `s.trim()` in JavaScript, `s.strip()` in Python: the infix of `s` left
   * after removing whitespace at both ends.
   */
  function Trim(s: string, ws: Whitespace): (r: string)
    ensures |r| <= |s|
    ensures r == [] <==> AllSpace(s, ws)
    ensures r != [] ==> !IsSpace(r[0], ws) && !IsSpace(r[|r| - 1], ws)
  {
    var i := SkipSpace(s, 0, ws);
    var j := SkipSpaceBack(s, i, |s|, ws);
    assert i < |s| ==> j > i;
    s[i..j]
  }

  /** What `Trim` removed is whitespace: the result sits at offset `i` of `s`, with only whitespace around it. */
  lemma TrimIsInfix(s: string, ws: Whitespace) returns (i: nat)
    ensures i + |Trim(s, ws)| <= |s| && Trim(s, ws) == s[i..i + |Trim(s, ws)|]
    ensures forall k :: 0 <= k < i ==> IsSpace(s[k], ws)
    ensures forall k :: i + |Trim(s, ws)| <= k < |s| ==> IsSpace(s[k], ws)
  {
    i := SkipSpace(s, 0, ws);
    var j := SkipSpaceBack(s, i, |s|, ws);
    assert Trim(s, ws) == s[i..j];
  }

  /** Trimming a string that already has no whitespace at either end changes nothing. */
  lemma TrimmedIsFixed(s: string, ws: Whitespace)
    requires s != [] ==> !IsSpace(s[0], ws) && !IsSpace(s[|s| - 1], ws)
    ensures Trim(s, ws) == s
  {
    assert SkipSpace(s, 0, ws) == 0;
    assert s[0..|s|] == s;
  }

  function LowerChar(c: char): char {
    if 'A' <= c <= 'Z' then (c as int + 32) as char else c
  }

  function UpperChar(c: char): char {
    if 'a' <= c <= 'z' then (c as int - 32) as char else c
  }

  /** `toLowerCase()` / `lower()` on the ASCII letters; every other character is kept. */
  function Lower(s: string): (r: string)
    ensures |r| == |s| && forall k :: 0 <= k < |s| ==> r[k] == LowerChar(s[k])
  {
    seq(|s|, k requires 0 <= k < |s| => LowerChar(s[k]))
  }

  /** `toUpperCase()` on the ASCII letters; every other character is kept. */
  function Upper(s: string): (r: string)
    ensures |r| == |s| && forall k :: 0 <= k < |s| ==> r[k] == UpperChar(s[k])
  {
    seq(|s|, k requires 0 <= k < |s| => UpperChar(s[k]))
  }

  predicate IsDigit(c: char) {
    '0' <= c <= '9'
  }

  function DigitChar(d: nat): (c: char)
    requires d < 10
    ensures IsDigit(c)
  {
    ('0' as int + d) as char
  }

  predicate AllDigits(s: string) {
    forall k :: 0 <= k < |s| ==> IsDigit(s[k])
  }

  /** The decimal rendering of a natural number, as `${n}` in JavaScript and `str(n)` in Python produce it. */
  function NatToDecimal(n: nat): (r: string)
    ensures r != [] && AllDigits(r)
    ensures n > 0 ==> r[0] != '0'
    decreases n
  {
    if n < 10 then [DigitChar(n)] else NatToDecimal(n / 10) + [DigitChar(n % 10)]
  }

  /** `str(n)` for any integer: a minus sign before the digits of a negative number. */
  function IntToDecimal(n: int): (r: string)
    ensures r != [] && (n < 0 <==> r[0] == '-')
  {
    if n < 0 then "-" + NatToDecimal(-n) else NatToDecimal(n)
  }

  /** The value of a string of decimal digits (leading zeros allowed). */
  function DecimalValue(s: string): nat
    requires AllDigits(s)
  {
    if s == [] then 0 else DecimalValue(s[..|s| - 1]) * 10 + (s[|s| - 1] as int - '0' as int)
  }

  /** Reading back a rendered number gives the number. */
  lemma {:induction false} DecimalRoundTrip(n: nat)
    ensures DecimalValue(NatToDecimal(n)) == n
    decreases n
  {
    if n >= 10 {
      var s := NatToDecimal(n);
      DecimalRoundTrip(n / 10);
      assert s[..|s| - 1] == NatToDecimal(n / 10);
    }
  }
}
