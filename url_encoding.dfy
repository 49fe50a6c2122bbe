/**
 * Percent-encoding of text as the URL code uses it: UTF-8 bytes, a set of
 * bytes written as themselves, and `%XX` (upper-case hex) for the rest.
 * `encodeURIComponent` keeps letters, digits and `-_.!~*'()`; the
 * `application/x-www-form-urlencoded` serialiser of `URLSearchParams` keeps
 * letters, digits and `*-._` and writes a space as `+`.
 */
module UrlEncoding {
  import opened Wrappers

  type Byte = b: int | 0 <= b < 256

  // ------------------------------------------------------------------- UTF-8

  /** The UTF-8 encoding of one Unicode scalar value. */
  function Utf8(c: char): (bs: seq<Byte>)
    ensures 1 <= |bs| <= 4
    ensures c as int < 0x80 <==> bs == [c as int]
  {
    var n := c as int;
    if n < 0x80 then [n]
    else if n < 0x800 then [0xC0 + n / 64, 0x80 + n % 64]
    else if n < 0x1_0000 then [0xE0 + n / 64 / 64, 0x80 + n / 64 % 64, 0x80 + n % 64]
    else [0xF0 + n / 64 / 64 / 64, 0x80 + n / 64 / 64 % 64, 0x80 + n / 64 % 64, 0x80 + n % 64]
  }

  function Utf8String(s: string): (bs: seq<Byte>)
    ensures |s| <= |bs| <= 4 * |s|
  {
    if s == [] then [] else Utf8(s[0]) + Utf8String(s[1..])
  }

  predicate Continuation(b: Byte) { 0x80 <= b < 0xC0 }

  /** A code point that is a `char`: not a surrogate, at most `0x10FFFF`. */
  predicate Scalar(n: int) { (0 <= n < 0xD800) || (0xE000 <= n <= 0x10FFFF) }

  /** The first character of a UTF-8 byte string and the number of bytes it took. */
  function DecodeChar(bs: seq<Byte>): (r: Option<(char, nat)>)
    ensures r.Some? ==> 1 <= r.value.1 <= |bs|
  {
    if bs == [] then None
    else if bs[0] < 0x80 then Some((bs[0] as char, 1))
    else if 0xC0 <= bs[0] < 0xE0 && |bs| >= 2 && Continuation(bs[1]) then
      Some((((bs[0] as int - 0xC0) * 64 + (bs[1] as int - 0x80)) as char, 2))
    else if 0xE0 <= bs[0] < 0xF0 && |bs| >= 3 && Continuation(bs[1]) && Continuation(bs[2]) then
      var n := (bs[0] as int - 0xE0) * 4096 + (bs[1] as int - 0x80) * 64 + (bs[2] as int - 0x80);
      if Scalar(n) then Some((n as char, 3)) else None
    else if 0xF0 <= bs[0] < 0xF8 && |bs| >= 4 && Continuation(bs[1]) && Continuation(bs[2]) && Continuation(bs[3]) then
      var n := (bs[0] as int - 0xF0) * 262144 + (bs[1] as int - 0x80) * 4096 + (bs[2] as int - 0x80) * 64 + (bs[3] as int - 0x80);
      if Scalar(n) then Some((n as char, 4)) else None
    else None
  }

  /** UTF-8 decoding; `None` on a malformed sequence. */
  function Utf8Decode(bs: seq<Byte>): Option<string>
    decreases |bs|
  {
    if bs == [] then Some("")
    else match DecodeChar(bs)
      case None => None
      case Some((c, k)) =>
        match Utf8Decode(bs[k..])
        case None => None
        case Some(t) => Some([c] + t)
  }

  lemma {:induction false} DivMod64(n: nat)
    ensures n == n / 64 * 64 + n % 64 && 0 <= n % 64 < 64
  {
  }

  /** The bytes of one character decode to that character. */
  lemma {:induction false} DecodeUtf8Char(c: char, rest: seq<Byte>)
    ensures DecodeChar(Utf8(c) + rest) == Some((c, |Utf8(c)|))
  {
    var n := c as int;
    var bs := Utf8(c) + rest;
    if n < 0x80 {
    } else if n < 0x800 {
      DivMod64(n);
      assert bs[0] == 0xC0 + n / 64 && bs[1] == 0x80 + n % 64;
    } else if n < 0x1_0000 {
      DivMod64(n);
      DivMod64(n / 64);
      assert bs[0] == 0xE0 + n / 64 / 64 && bs[1] == 0x80 + n / 64 % 64 && bs[2] == 0x80 + n % 64;
      assert (bs[0] as int - 0xE0) * 4096 + (bs[1] as int - 0x80) * 64 + (bs[2] as int - 0x80) == n;
    } else {
      DivMod64(n);
      DivMod64(n / 64);
      DivMod64(n / 64 / 64);
      assert bs[0] == 0xF0 + n / 64 / 64 / 64 && bs[1] == 0x80 + n / 64 / 64 % 64;
      assert bs[2] == 0x80 + n / 64 % 64 && bs[3] == 0x80 + n % 64;
      assert (bs[0] as int - 0xF0) * 262144 + (bs[1] as int - 0x80) * 4096 + (bs[2] as int - 0x80) * 64 + (bs[3] as int - 0x80) == n;
    }
  }

  /** Decoding the UTF-8 bytes of a string gives the string back. */
  lemma {:induction false} Utf8RoundTrip(s: string)
    ensures Utf8Decode(Utf8String(s)) == Some(s)
  {
    if s != [] {
      var bs := Utf8String(s);
      DecodeUtf8Char(s[0], Utf8String(s[1..]));
      assert bs[|Utf8(s[0])|..] == Utf8String(s[1..]);
      Utf8RoundTrip(s[1..]);
      assert [s[0]] + s[1..] == s;
    }
  }

  // --------------------------------------------------------- percent-encoding

  function HexDigit(d: int): (c: char)
    requires 0 <= d < 16
    ensures ('0' <= c <= '9') || ('A' <= c <= 'F')
  {
    if d < 10 then ('0' as int + d) as char else ('A' as int + d - 10) as char
  }

  function HexValue(c: char): (r: Option<int>)
    ensures r.Some? ==> 0 <= r.value < 16
  {
    if '0' <= c <= '9' then Some(c as int - '0' as int)
    else if 'A' <= c <= 'F' then Some(c as int - 'A' as int + 10)
    else if 'a' <= c <= 'f' then Some(c as int - 'a' as int + 10)
    else None
  }

  predicate AlnumByte(b: Byte) {
    (0x30 <= b <= 0x39) || (0x41 <= b <= 0x5A) || (0x61 <= b <= 0x7A)
  }

  /** The two serialisers: the form one of `URLSearchParams` and `encodeURIComponent`. */
  datatype Scheme = Form | Component

  /** The bytes a scheme writes as themselves. */
  predicate Kept(b: Byte, scheme: Scheme) {
    AlnumByte(b) ||
    match scheme
    case Form => b == 0x2A || b == 0x2D || b == 0x2E || b == 0x5F
    case Component =>
      b == 0x2D || b == 0x5F || b == 0x2E || b == 0x21 || b == 0x7E || b == 0x2A ||
      b == 0x27 || b == 0x28 || b == 0x29
  }

  /** A character an encoded string may hold: a kept byte, `%`, a hex digit, or `+` in form encoding. */
  predicate EncodedChar(c: char, scheme: Scheme) {
    c == '%' || (c as int < 256 && Kept(c as int, scheme)) || (scheme == Form && c == '+')
  }

  /** One byte: itself when kept, `+` for a form-encoded space, otherwise `%XX`. */
  function EncodeByte(b: Byte, scheme: Scheme): (r: string)
    ensures |r| == 1 || |r| == 3
    ensures forall i :: 0 <= i < |r| ==> EncodedChar(r[i], scheme)
  {
    if Kept(b, scheme) then [b as char]
    else if scheme == Form && b == 0x20 then "+"
    else ['%', HexDigit(b / 16), HexDigit(b % 16)]
  }

  function EncodeBytes(bs: seq<Byte>, scheme: Scheme): (r: string)
    ensures forall i :: 0 <= i < |r| ==> EncodedChar(r[i], scheme)
  {
    if bs == [] then ""
    else
      var h, t := EncodeByte(bs[0], scheme), EncodeBytes(bs[1..], scheme);
      assert forall i :: |h| <= i < |h + t| ==> (h + t)[i] == t[i - |h|];
      h + t
  }

  /** The form serialiser's encoding of a name or a value. */
  function FormEncode(s: string): (r: string)
    ensures forall i :: 0 <= i < |r| ==> EncodedChar(r[i], Form)
  {
    EncodeBytes(Utf8String(s), Form)
  }

  /** `encodeURIComponent(s)` for a string of Unicode scalar values. */
  function EncodeURIComponent(s: string): (r: string)
    ensures forall i :: 0 <= i < |r| ==> EncodedChar(r[i], Component)
  {
    EncodeBytes(Utf8String(s), Component)
  }

  /** Percent-decoding to bytes; `+` is a space only in form encoding. */
  function DecodeBytes(s: string, scheme: Scheme): (r: Option<seq<Byte>>)
    decreases |s|
  {
    if s == [] then Some([])
    else if scheme == Form && s[0] == '+' then
      match DecodeBytes(s[1..], scheme) case Some(t) => Some([0x20] + t) case None => None
    else if s[0] == '%' && |s| >= 3 && HexValue(s[1]).Some? && HexValue(s[2]).Some? then
      match DecodeBytes(s[3..], scheme)
      case Some(t) => Some([HexValue(s[1]).value * 16 + HexValue(s[2]).value] + t)
      case None => None
    else if s[0] as int < 256 then
      match DecodeBytes(s[1..], scheme) case Some(t) => Some([s[0] as int] + t) case None => None
    else None
  }

  /** Percent-decoding followed by UTF-8 decoding (`decodeURIComponent`, or the form parser's value decoding). */
  function Decode(s: string, scheme: Scheme): Option<string> {
    match DecodeBytes(s, scheme)
    case Some(bs) => Utf8Decode(bs)
    case None => None
  }

  lemma {:induction false} DecodeEncodeByte(b: Byte, scheme: Scheme, rest: string)
    ensures DecodeBytes(EncodeByte(b, scheme) + rest, scheme) ==
            match DecodeBytes(rest, scheme) case Some(t) => Some([b] + t) case None => None
  {
    var e := EncodeByte(b, scheme);
    var s := e + rest;
    if Kept(b, scheme) {
      assert s[0] == b as char && s[1..] == rest;
    } else if scheme == Form && b == 0x20 {
      assert s[0] == '+' && s[1..] == rest;
    } else {
      assert s[0] == '%' && s[1] == HexDigit(b / 16) && s[2] == HexDigit(b % 16) && s[3..] == rest;
      assert HexValue(HexDigit(b / 16)) == Some(b / 16);
      assert HexValue(HexDigit(b % 16)) == Some(b % 16);
    }
  }

  /** Percent-decoding the encoded bytes gives the bytes back. */
  lemma {:induction false} EncodeBytesRoundTrip(bs: seq<Byte>, scheme: Scheme)
    ensures DecodeBytes(EncodeBytes(bs, scheme), scheme) == Some(bs)
  {
    if bs != [] {
      EncodeBytesRoundTrip(bs[1..], scheme);
      DecodeEncodeByte(bs[0], scheme, EncodeBytes(bs[1..], scheme));
      assert [bs[0]] + bs[1..] == bs;
    }
  }

  /** `decodeURIComponent(encodeURIComponent(s)) == s`, and the same for the form encoding. */
  lemma {:induction false} EncodeRoundTrip(s: string)
    ensures Decode(EncodeURIComponent(s), Component) == Some(s)
    ensures Decode(FormEncode(s), Form) == Some(s)
  {
    EncodeBytesRoundTrip(Utf8String(s), Component);
    EncodeBytesRoundTrip(Utf8String(s), Form);
    Utf8RoundTrip(s);
  }

  /** The delimiters of a query string never appear inside an encoded part. */
  lemma {:induction false} NoDelimiters(s: string)
    ensures '&' !in FormEncode(s) && '=' !in FormEncode(s) && '#' !in FormEncode(s) && '?' !in FormEncode(s)
    ensures '&' !in EncodeURIComponent(s) && '=' !in EncodeURIComponent(s) && ':' !in EncodeURIComponent(s)
  {
  }

  /** Lower-case letters and `_`. */
  predicate Plain(s: string) {
    forall i :: 0 <= i < |s| ==> ('a' <= s[i] <= 'z') || s[i] == '_'
  }

  /** Lower-case words pass through the form serialiser unchanged. */
  lemma {:induction false} PlainFormEncode(s: string)
    requires Plain(s)
    ensures FormEncode(s) == s
  {
    if s != [] {
      PlainFormEncode(s[1..]);
      assert Utf8String(s) == [s[0] as int] + Utf8String(s[1..]);
      assert [s[0]] + s[1..] == s;
    }
  }
}
