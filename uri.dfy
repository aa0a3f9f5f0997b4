/** JavaScript's `encodeURIComponent` (section 19.2.6.5 of ECMA-262): every character outside
    the unreserved set becomes the percent-escaped bytes of its UTF-8 form (RFC 3629). Its
    inverse `decodeURIComponent` is given as the partner that shows no query is lost. */
module Uri {
  import opened Wrappers

  /** The characters `encodeURIComponent` leaves unescaped: letters, digits and `-_.!~*'()`. */
  predicate IsUnreserved(c: char) {
    ('A' <= c <= 'Z') || ('a' <= c <= 'z') || ('0' <= c <= '9') || c in "-_.!~*'()"
  }

  type Byte = b: int | 0 <= b < 256

  /** The UTF-8 bytes of one character. */
  function Utf8(c: char): (bs: seq<Byte>)
    ensures 1 <= |bs| <= 4
  {
    var n := c as int;
    if n < 0x80 then [n]
    else if n < 0x800 then [0xC0 + n / 64, 0x80 + n % 64]
    else if n < 0x10000 then [0xE0 + n / 4096, 0x80 + (n / 64) % 64, 0x80 + n % 64]
    else [0xF0 + n / 262144, 0x80 + (n / 4096) % 64, 0x80 + (n / 64) % 64, 0x80 + n % 64]
  }

  const HexDigits := "0123456789ABCDEF"

  predicate IsUpperHex(c: char) {
    ('0' <= c <= '9') || ('A' <= c <= 'F')
  }

  function HexDigit(d: int): (c: char)
    requires 0 <= d < 16
    ensures IsUpperHex(c)
  {
    HexDigits[d]
  }

  /** The value of a hexadecimal digit of either case, if it is one. */
  function HexValue(c: char): (r: Option<int>)
    ensures r.Some? ==> 0 <= r.value < 16
  {
    if '0' <= c <= '9' then Some(c as int - '0' as int)
    else if 'A' <= c <= 'F' then Some(c as int - 'A' as int + 10)
    else if 'a' <= c <= 'f' then Some(c as int - 'a' as int + 10)
    else None
  }

  lemma HexDigitValue(d: int)
    requires 0 <= d < 16
    ensures HexValue(HexDigit(d)) == Some(d)
  {
  }

  /** `%` and two upper-case hex digits for each byte. */
  function PercentBytes(bs: seq<Byte>): (r: string)
    ensures |r| == 3 * |bs|
    ensures forall i :: 0 <= i < |r| ==> r[i] == '%' || IsUpperHex(r[i])
  {
    if bs == [] then "" else
      var b := bs[0];
      ['%', HexDigit(b / 16), HexDigit(b % 16)] + PercentBytes(bs[1..])
  }

  function EncodeChar(c: char): string {
    if IsUnreserved(c) then [c] else PercentBytes(Utf8(c))
  }

  /** `encodeURIComponent(s)`. Every character of the result is unreserved, `%` or a hex digit. */
  function EncodeURIComponent(s: string): (r: string)
    ensures forall i :: 0 <= i < |r| ==> IsUnreserved(r[i]) || r[i] == '%' || IsUpperHex(r[i])
  {
    if s == [] then "" else EncodeChar(s[0]) + EncodeURIComponent(s[1..])
  }

  /** A string made only of unreserved characters is sent as it is. */
  lemma {:induction false} EncodeUnreservedIdentity(s: string)
    requires forall i :: 0 <= i < |s| ==> IsUnreserved(s[i])
    ensures EncodeURIComponent(s) == s
  {
    if s != [] {
      EncodeUnreservedIdentity(s[1..]);
    }
  }

  // ---- decoding, the partner of the encoder ----

  /** After percent-unescaping: a literal character, or a byte written as `%XX`. */
  datatype Unit = Lit(c: char) | Octet(b: Byte)

  /** Undo the `%XX` escapes; fails on a `%` not followed by two hex digits. */
  function Unescape(s: string): Option<seq<Unit>>
  {
    if s == [] then Some([])
    else if s[0] != '%' then
      match Unescape(s[1..])
      case None => None
      case Some(rest) => Some([Lit(s[0])] + rest)
    else if |s| < 3 then None
    else
      match (HexValue(s[1]), HexValue(s[2]))
      case (Some(hi), Some(lo)) =>
        (match Unescape(s[3..])
         case None => None
         case Some(rest) => Some([Octet(hi * 16 + lo)] + rest))
      case _ => None
  }

  predicate IsContinuation(u: Unit) {
    u.Octet? && 0x80 <= u.b < 0xC0
  }

  predicate IsScalar(n: int) {
    (0 <= n < 0xD800) || (0xE000 <= n <= 0x10FFFF)
  }

  /** Reassemble the characters: literals stand for themselves, byte runs must be well-formed
      UTF-8 of a Unicode scalar value (not overlong, not a surrogate). */
  function Assemble(us: seq<Unit>): Option<string>
    decreases |us|
  {
    if us == [] then Some("")
    else
      match DecodeOne(us)
      case None => None
      case Some((c, k)) =>
        (match Assemble(us[k..])
         case None => None
         case Some(rest) => Some([c] + rest))
  }

  /** The first character of `us` and how many units it takes. */
  function DecodeOne(us: seq<Unit>): (r: Option<(char, nat)>)
    requires us != []
    ensures r.Some? ==> 1 <= r.value.1 <= |us|
  {
    match us[0]
    case Lit(c) => Some((c, 1))
    case Octet(b) =>
      if b < 0x80 then Some((b as char, 1))
      else if 0xC0 <= b < 0xE0 && |us| >= 2 && IsContinuation(us[1]) then
        var n := (b - 0xC0) * 64 + (us[1].b - 0x80);
        if 0x80 <= n then Some((n as char, 2)) else None
      else if 0xE0 <= b < 0xF0 && |us| >= 3 && IsContinuation(us[1]) && IsContinuation(us[2]) then
        var n := (b - 0xE0) * 4096 + (us[1].b - 0x80) * 64 + (us[2].b - 0x80);
        if 0x800 <= n && IsScalar(n) then Some((n as char, 3)) else None
      else if 0xF0 <= b < 0xF8 && |us| >= 4 && IsContinuation(us[1]) && IsContinuation(us[2])
        && IsContinuation(us[3]) then
        var n := (b - 0xF0) * 262144 + (us[1].b - 0x80) * 4096 + (us[2].b - 0x80) * 64 + (us[3].b - 0x80);
        if 0x10000 <= n <= 0x10FFFF then Some((n as char, 4)) else None
      else None
  }

  /** `decodeURIComponent(s)`; `None` where it throws `URIError`. */
  function DecodeURIComponent(s: string): Option<string> {
    match Unescape(s)
    case None => None
    case Some(us) => Assemble(us)
  }

  function Octets(bs: seq<Byte>): (us: seq<Unit>)
    ensures |us| == |bs| && forall i :: 0 <= i < |bs| ==> us[i] == Octet(bs[i])
  {
    if bs == [] then [] else [Octet(bs[0])] + Octets(bs[1..])
  }

  /** The units one character is encoded to. */
  function CharUnits(c: char): seq<Unit> {
    if IsUnreserved(c) then [Lit(c)] else Octets(Utf8(c))
  }

  lemma UnescapeOneEscape(b: Byte, rest: string, tail: seq<Unit>)
    requires Unescape(rest) == Some(tail)
    ensures Unescape(['%', HexDigit(b / 16), HexDigit(b % 16)] + rest) == Some([Octet(b)] + tail)
  {
    var s := ['%', HexDigit(b / 16), HexDigit(b % 16)] + rest;
    assert s[0] == '%' && s[1] == HexDigit(b / 16) && s[2] == HexDigit(b % 16);
    assert s[3..] == rest;
    HexDigitValue(b / 16);
    HexDigitValue(b % 16);
  }

  lemma {:induction false} UnescapePercentBytes(bs: seq<Byte>, rest: string, tail: seq<Unit>)
    requires Unescape(rest) == Some(tail)
    ensures Unescape(PercentBytes(bs) + rest) == Some(Octets(bs) + tail)
  {
    if bs != [] {
      var b := bs[0];
      UnescapePercentBytes(bs[1..], rest, tail);
      assert PercentBytes(bs) + rest == ['%', HexDigit(b / 16), HexDigit(b % 16)] + (PercentBytes(bs[1..]) + rest);
      UnescapeOneEscape(b, PercentBytes(bs[1..]) + rest, Octets(bs[1..]) + tail);
      assert [Octet(b)] + (Octets(bs[1..]) + tail) == Octets(bs) + tail;
    } else {
      assert PercentBytes(bs) + rest == rest;
      assert Octets(bs) + tail == tail;
    }
  }

  lemma {:induction false} UnescapeEncoded(s: string)
    ensures Unescape(EncodeURIComponent(s)).Some?
    ensures Unescape(EncodeURIComponent(s)).value == Units(s)
  {
    if s != [] {
      UnescapeEncoded(s[1..]);
      var c := s[0];
      var rest := EncodeURIComponent(s[1..]);
      if IsUnreserved(c) {
        assert EncodeURIComponent(s) == [c] + rest;
        assert ([c] + rest)[1..] == rest;
      } else {
        UnescapePercentBytes(Utf8(c), rest, Units(s[1..]));
      }
    }
  }

  /** The units a whole string is encoded to. */
  function Units(s: string): seq<Unit> {
    if s == [] then [] else CharUnits(s[0]) + Units(s[1..])
  }

  lemma DivMod64(n: int)
    requires n >= 0
    ensures n == (n / 64) * 64 + n % 64
    ensures (n / 64) / 64 == n / 4096
    ensures (n / 4096) / 64 == n / 262144
  {
  }

  /** One encoded character decodes back to itself, whatever follows it. */
  lemma DecodeOneChar(c: char, tail: seq<Unit>)
    ensures DecodeOne(CharUnits(c) + tail) == Some((c, |CharUnits(c)|))
  {
    var n := c as int;
    var us := CharUnits(c) + tail;
    if !IsUnreserved(c) {
      DivMod64(n);
      DivMod64(n / 64);
      DivMod64(n / 4096);
      var bs := Utf8(c);
      assert forall i :: 0 <= i < |bs| ==> us[i] == Octet(bs[i]);
    }
  }

  lemma {:induction false} AssembleUnits(s: string)
    ensures Assemble(Units(s)) == Some(s)
  {
    if s != [] {
      AssembleUnits(s[1..]);
      var us := Units(s);
      assert us == CharUnits(s[0]) + Units(s[1..]);
      assert |CharUnits(s[0])| >= 1;
      DecodeOneChar(s[0], Units(s[1..]));
      assert us[|CharUnits(s[0])|..] == Units(s[1..]);
      assert [s[0]] + s[1..] == s;
    }
  }

  /** Decoding what `encodeURIComponent` produced gives back the original string. */
  lemma EncodeDecodeRoundTrip(s: string)
    ensures DecodeURIComponent(EncodeURIComponent(s)) == Some(s)
  {
    UnescapeEncoded(s);
    AssembleUnits(s);
  }
}
