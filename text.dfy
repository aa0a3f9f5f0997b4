/** String operations the source takes from its languages' runtimes: Python's `str.strip()`,
    JavaScript's `String.prototype.trim()` and `length`, and Python's `str(int)`. */
module Text {

  /** The characters Python's `str.strip()` removes (those for which `str.isspace()` holds),
      by code point. */
  predicate IsPySpace(c: char) {
    var n := c as int;
    (0x09 <= n <= 0x0D) || (0x1C <= n <= 0x20) || n == 0x85 || n == 0xA0 || n == 0x1680
    || (0x2000 <= n <= 0x200A) || n == 0x2028 || n == 0x2029 || n == 0x202F || n == 0x205F
    || n == 0x3000
  }

  /** The characters JavaScript's `trim()` removes (WhiteSpace and LineTerminator of
      ECMA-262), by code point. */
  predicate IsJsSpace(c: char) {
    var n := c as int;
    (0x09 <= n <= 0x0D) || n == 0x20 || n == 0xA0 || n == 0x1680 || (0x2000 <= n <= 0x200A)
    || n == 0x2028 || n == 0x2029 || n == 0x202F || n == 0x205F || n == 0x3000 || n == 0xFEFF
  }

  /** The number of leading characters of class `space` in `s`. */
  function LeadingSpaces(s: string, space: char -> bool): (n: nat)
    ensures n <= |s| && (forall i :: 0 <= i < n ==> space(s[i])) && (n < |s| ==> !space(s[n]))
  {
    if s != [] && space(s[0]) then 1 + LeadingSpaces(s[1..], space) else 0
  }

  /** The number of trailing characters of class `space` in `s`. */
  function TrailingSpaces(s: string, space: char -> bool): (n: nat)
    ensures n <= |s| && (forall i :: |s| - n <= i < |s| ==> space(s[i]))
    ensures n < |s| ==> !space(s[|s| - n - 1])
  {
    if s != [] && space(s[|s| - 1]) then 1 + TrailingSpaces(s[..|s| - 1], space) else 0
  }

  /** `s` without leading and trailing characters of class `space`: the contiguous middle part
      of `s` after its leading spaces, followed only by spaces, beginning and ending with a
      non-space, and empty exactly when `s` is all space. */
  function Trim(s: string, space: char -> bool): (r: string)
    ensures LeadingSpaces(s, space) + |r| <= |s|
    ensures r == s[LeadingSpaces(s, space)..LeadingSpaces(s, space) + |r|]
    ensures forall i :: LeadingSpaces(s, space) + |r| <= i < |s| ==> space(s[i])
    ensures r != [] ==> !space(r[0]) && !space(r[|r| - 1])
    ensures r == [] <==> forall i :: 0 <= i < |s| ==> space(s[i])
  {
    var a := LeadingSpaces(s, space);
    if a == |s| then [] else s[a..|s| - TrailingSpaces(s, space)]
  }

  /** Trimming twice is trimming once. */
  lemma {:induction false} TrimIdempotent(s: string, space: char -> bool)
    ensures Trim(Trim(s, space), space) == Trim(s, space)
  {
    var r := Trim(s, space);
    assert r != [] ==> LeadingSpaces(r, space) == 0 && TrailingSpaces(r, space) == 0;
  }

  /** Python's `s.strip()`. */
  function PyStrip(s: string): string {
    Trim(s, IsPySpace)
  }

  /** JavaScript's `s.trim()`. */
  function JsTrim(s: string): string {
    Trim(s, IsJsSpace)
  }

  /** JavaScript's `s.length`: the number of UTF-16 code units, two for a character above U+FFFF. */
  function Utf16Length(s: string): (n: nat)
    ensures |s| <= n <= 2 * |s|
  {
    if s == [] then 0 else (if s[0] as int > 0xFFFF then 2 else 1) + Utf16Length(s[1..])
  }

  /** A string is at least two UTF-16 units long exactly when it has two characters, or one
      character outside the Basic Multilingual Plane. */
  lemma Utf16AtLeastTwo(s: string)
    ensures Utf16Length(s) >= 2 <==> |s| >= 2 || (|s| == 1 && s[0] as int > 0xFFFF)
  {
    if |s| == 1 {
      assert s[1..] == [];
    }
  }

  predicate IsDigit(c: char) {
    '0' <= c <= '9'
  }

  function DigitChar(d: int): (c: char)
    requires 0 <= d < 10
    ensures IsDigit(c) && c as int - '0' as int == d
  {
    ('0' as int + d) as char
  }

  /** The decimal numeral of `n`, with no leading zero (Python's `str` of a non-negative int). */
  function NatToString(n: nat): (r: string)
    ensures r != [] && forall i :: 0 <= i < |r| ==> IsDigit(r[i])
    ensures (|r| == 1) == (n < 10)
    decreases n
  {
    if n < 10 then [DigitChar(n)] else NatToString(n / 10) + [DigitChar(n % 10)]
  }

  /** The number a string of decimal digits denotes. */
  function DecimalValue(s: string): nat
    requires forall i :: 0 <= i < |s| ==> IsDigit(s[i])
  {
    if s == [] then 0 else DecimalValue(s[..|s| - 1]) * 10 + DigitValue(s[|s| - 1])
  }

  function DigitValue(c: char): nat
    requires IsDigit(c)
  {
    c as int - '0' as int
  }

  /** Reading back the numeral gives the number. */
  lemma {:induction false} DecimalRoundTrip(n: nat)
    ensures DecimalValue(NatToString(n)) == n
    decreases n
  {
    var r := NatToString(n);
    if n >= 10 {
      DecimalRoundTrip(n / 10);
      assert r[..|r| - 1] == NatToString(n / 10);
    }
  }

  /** Python's `str(i)` for an int: a minus sign before the numeral of a negative number. */
  function IntToString(i: int): (r: string)
    ensures r != [] && (r[0] == '-' <==> i < 0)
    ensures forall k :: 0 <= k < |r| ==> IsDigit(r[k]) || (k == 0 && r[k] == '-')
  {
    if i < 0 then "-" + NatToString(-i) else NatToString(i)
  }

  /** Different numbers have different numerals. */
  lemma IntToStringInjective(a: int, b: int)
    requires IntToString(a) == IntToString(b)
    ensures a == b
  {
    if a < 0 {
      assert IntToString(a)[1..] == NatToString(-a);
      assert IntToString(b)[1..] == NatToString(-b);
      DecimalRoundTrip(-a);
      DecimalRoundTrip(-b);
    } else {
      DecimalRoundTrip(a);
      DecimalRoundTrip(b);
    }
  }
}
