/**
 * `JSON.stringify` and `JSON.parse` over `JsValues.Js`, as far as the error
 * envelope, the job return values and the cache-key parameters need them.
 *
 * Serialize is the compact form `JSON.stringify` produces: no whitespace,
 * object members whose value is undefined or a function are omitted, and such
 * array items are written `null`. Parse follows the JSON grammar (whitespace
 * between tokens, all string escapes, later duplicate keys win); numbers with a
 * fraction or an exponent and `\u` escapes of surrogate halves are outside the
 * model and make Parse fail.
 */
module Json {
  import opened Wrappers
  import opened JsValues

  // ---------------------------------------------------------------- stringify

  /** Values `JSON.stringify` drops from objects (and returns undefined for at top level). */
  predicate Omitted(v: Js) {
    v.Undefined? || v.Fn?
  }

  function HexDigit(d: nat): (c: char)
    requires d < 16
  {
    if d < 10 then ('0' as int + d) as char else ('a' as int + d - 10) as char
  }

  /** How `JSON.stringify` writes one character of a string. */
  function EscapeChar(c: char): string {
    if c == '"' then ['\\', '"']
    else if c == '\\' then ['\\', '\\']
    else if c as int == 8 then ['\\', 'b']
    else if c as int == 12 then ['\\', 'f']
    else if c == '\n' then ['\\', 'n']
    else if c == '\r' then ['\\', 'r']
    else if c == '\t' then ['\\', 't']
    else if (c as int) < 32 then ['\\', 'u', '0', '0', HexDigit(c as int / 16), HexDigit(c as int % 16)]
    else [c]
  }

  function Escape(s: string): string {
    if s == [] then [] else EscapeChar(s[0]) + Escape(s[1..])
  }

  /** Characters `JSON.stringify` writes as they are. */
  predicate Unescaped(c: char) {
    c != '"' && c != '\\' && c as int >= 32
  }

  lemma {:induction false} EscapeUnescaped(s: string)
    requires forall i :: 0 <= i < |s| ==> Unescaped(s[i])
    ensures Escape(s) == s
  {
    if s != [] {
      EscapeUnescaped(s[1..]);
      assert [s[0]] + s[1..] == s;
    }
  }

  function Quote(s: string): string {
    "\"" + Escape(s) + "\""
  }

  /** The JSON text of a value; undefined and functions are written as array items are (`null`). */
  function Serialize(v: Js): string
    decreases v, 1
  {
    match v
    case Undefined => "null"
    case Fn(_) => "null"
    case Null => "null"
    case Bool(b) => if b then "true" else "false"
    case Num(n) => DecimalString(n)
    case Str(s) => Quote(s)
    case Arr(items) => "[" + SerializeItems(items) + "]"
    case Obj(fields) => "{" + SerializeMembers(fields) + "}"
  }

  function SerializeItems(items: seq<Js>): string
    decreases items, 0
  {
    if items == [] then ""
    else if |items| == 1 then Serialize(items[0])
    else Serialize(items[0]) + "," + SerializeItems(items[1..])
  }

  function SerializeMembers(fs: seq<Field>): string
    decreases fs, 0
  {
    if fs == [] then ""
    else if Omitted(fs[0].1) then SerializeMembers(fs[1..])
    else
      var member := SerializeMember(fs[0]);
      var more := SerializeMembers(fs[1..]);
      if more == "" then member else member + "," + more
  }

  function SerializeMember(f: Field): string
    decreases f, 2
  {
    Quote(f.0) + ":" + Serialize(f.1)
  }

  /** `JSON.stringify(v)`: undefined (None) for undefined and functions. */
  function Stringify(v: Js): Option<string> {
    if Omitted(v) then None else Some(Serialize(v))
  }

  // -------------------------------------------------------------------- parse

  predicate IsWs(c: char) {
    c == ' ' || c == '\t' || c == '\n' || c == '\r'
  }

  predicate IsDigit(c: char) {
    '0' <= c <= '9'
  }

  function SkipWs(s: string): (r: string)
    ensures |r| <= |s|
    ensures r == [] || !IsWs(r[0])
  {
    if s != [] && IsWs(s[0]) then SkipWs(s[1..]) else s
  }

  function HexValue(c: char): Option<nat> {
    if '0' <= c <= '9' then Some(c as int - '0' as int)
    else if 'a' <= c <= 'f' then Some(c as int - 'a' as int + 10)
    else if 'A' <= c <= 'F' then Some(c as int - 'A' as int + 10)
    else None
  }

  /** The character after a backslash; `\u` takes four hex digits. */
  function Unescape(s: string): (r: Option<(char, string)>)
    ensures r.Some? ==> |r.value.1| < |s|
  {
    if s == [] then None
    else
      match s[0]
      case '"' => Some(('"', s[1..]))
      case '\\' => Some(('\\', s[1..]))
      case '/' => Some(('/', s[1..]))
      case 'b' => Some((8 as char, s[1..]))
      case 'f' => Some((12 as char, s[1..]))
      case 'n' => Some(('\n', s[1..]))
      case 'r' => Some(('\r', s[1..]))
      case 't' => Some(('\t', s[1..]))
      case 'u' => UnicodeEscape(s[1..])
      case _ => None
  }

  /** The four hex digits of a `\u` escape; a surrogate half on its own is not modelled. */
  function UnicodeEscape(h: string): (r: Option<(char, string)>)
    ensures r.Some? ==> |r.value.1| < |h|
  {
    if |h| < 4 then None
    else
      match (HexValue(h[0]), HexValue(h[1]), HexValue(h[2]), HexValue(h[3]))
      case (Some(a), Some(b), Some(c), Some(d)) =>
        var code := ((a * 16 + b) * 16 + c) * 16 + d;
        if code < 0xD800 || 0xDFFF < code then Some((code as char, h[4..])) else None
      case _ => None
  }

  /** The characters of a string literal up to its closing quote, and what follows it. */
  function ParseChars(s: string): (r: Option<(string, string)>)
    ensures r.Some? ==> |r.value.1| < |s|
    decreases |s|
  {
    if s == [] then None
    else if s[0] == '"' then Some(("", s[1..]))
    else if (s[0] as int) < 32 then None
    else if s[0] == '\\' then
      match Unescape(s[1..])
      case None => None
      case Some((c, rest)) => Prepend(c, ParseChars(rest))
    else Prepend(s[0], ParseChars(s[1..]))
  }

  function Prepend(c: char, r: Option<(string, string)>): Option<(string, string)> {
    match r
    case None => None
    case Some((str, rest)) => Some(([c] + str, rest))
  }

  /** Length of the longest prefix of decimal digits. */
  function DigitRun(s: string): (n: nat)
    ensures n <= |s|
    ensures forall i :: 0 <= i < n ==> IsDigit(s[i])
    ensures n < |s| ==> !IsDigit(s[n])
  {
    if s != [] && IsDigit(s[0]) then 1 + DigitRun(s[1..]) else 0
  }

  function DigitsValue(ds: string): nat
    requires forall i :: 0 <= i < |ds| ==> IsDigit(ds[i])
  {
    if ds == [] then 0
    else
      var last := ds[|ds| - 1];
      assert IsDigit(last);
      DigitsValue(ds[..|ds| - 1]) * 10 + (last as int - '0' as int)
  }

  /** An integer literal: `-`?, then the digits. */
  function ParseNumber(t: string): (r: Option<(Js, string)>)
    ensures r.Some? ==> |r.value.1| < |t|
  {
    if t != [] && t[0] == '-' then
      match ParseDigits(t[1..])
      case None => None
      case Some((m, rest)) => Some((Num(0 - m), rest))
    else
      match ParseDigits(t)
      case None => None
      case Some((m, rest)) => Some((Num(m), rest))
  }

  /** `0` or a digit run without a leading zero, not followed by a fraction or an exponent. */
  function ParseDigits(u: string): (r: Option<(nat, string)>)
    ensures r.Some? ==> |r.value.1| < |u|
  {
    var d := DigitRun(u);
    if d == 0 || (u[0] == '0' && d > 1) then None
    else
      var rest := u[d..];
      if rest != [] && (rest[0] == '.' || rest[0] == 'e' || rest[0] == 'E') then None
      else Some((DigitsValue(u[..d]), rest))
  }

  /** A keyword token. */
  function Literal(t: string, word: string, v: Js): (r: Option<(Js, string)>)
    requires word != []
    ensures r.Some? ==> |r.value.1| < |t|
  {
    if |word| <= |t| && t[..|word|] == word then Some((v, t[|word|..])) else None
  }

  function ParseValue(s: string): (r: Option<(Js, string)>)
    ensures r.Some? ==> |r.value.1| < |s|
    decreases |s|, 1
  {
    var t := SkipWs(s);
    if t == [] then None
    else
      match t[0]
      case 'n' => Literal(t, "null", Null)
      case 't' => Literal(t, "true", Bool(true))
      case 'f' => Literal(t, "false", Bool(false))
      case '"' =>
        (match ParseChars(t[1..])
         case None => None
         case Some((str, rest)) => Some((Str(str), rest)))
      case '[' => ParseArray(t[1..])
      case '{' => ParseObject(t[1..])
      case _ => if t[0] == '-' || IsDigit(t[0]) then ParseNumber(t) else None
  }

  /** After `[`. */
  function ParseArray(s: string): (r: Option<(Js, string)>)
    ensures r.Some? ==> |r.value.1| < |s|
    decreases |s|, 3
  {
    var t := SkipWs(s);
    if t != [] && t[0] == ']' then Some((Arr([]), t[1..])) else ParseElements(t, [])
  }

  function ParseElements(s: string, acc: seq<Js>): (r: Option<(Js, string)>)
    ensures r.Some? ==> |r.value.1| < |s|
    decreases |s|, 2
  {
    match ParseValue(s)
    case None => None
    case Some((v, rest)) =>
      var t := SkipWs(rest);
      if t == [] then None
      else if t[0] == ',' then ParseElements(t[1..], acc + [v])
      else if t[0] == ']' then Some((Arr(acc + [v]), t[1..]))
      else None
  }

  /** After `{`. */
  function ParseObject(s: string): (r: Option<(Js, string)>)
    ensures r.Some? ==> |r.value.1| < |s|
    decreases |s|, 3
  {
    var t := SkipWs(s);
    if t != [] && t[0] == '}' then Some((Obj([]), t[1..])) else ParseMembers(t, [])
  }

  /** One `"key": value` pair. */
  function ParseMember(s: string): (r: Option<(string, Js, string)>)
    ensures r.Some? ==> |r.value.2| < |s|
    decreases |s|, 1
  {
    var t := SkipWs(s);
    if t == [] || t[0] != '"' then None
    else
      match ParseChars(t[1..])
      case None => None
      case Some((k, r1)) =>
        var u := SkipWs(r1);
        if u == [] || u[0] != ':' then None
        else
          match ParseValue(u[1..])
          case None => None
          case Some((v, r2)) => Some((k, v, r2))
  }

  /** Members are assigned in order, so a later duplicate key overwrites an earlier one in place. */
  function ParseMembers(s: string, acc: seq<Field>): (r: Option<(Js, string)>)
    ensures r.Some? ==> |r.value.1| < |s|
    decreases |s|, 2
  {
    match ParseMember(s)
    case None => None
    case Some((k, v, rest)) =>
      var w := SkipWs(rest);
      if w == [] then None
      else if w[0] == ',' then ParseMembers(w[1..], Put(acc, k, v))
      else if w[0] == '}' then Some((Obj(Put(acc, k, v)), w[1..]))
      else None
  }

  /** `JSON.parse(s)`: None where `JSON.parse` throws. */
  function Parse(s: string): Option<Js> {
    match ParseValue(s)
    case None => None
    case Some((v, rest)) => if SkipWs(rest) == [] then Some(v) else None
  }


  // --------------------------------------------------------------- round trip

  /** Values that survive `JSON.stringify`: no undefined or functions anywhere. */
  predicate Plain(v: Js)
    decreases v
  {
    match v
    case Undefined => false
    case Fn(_) => false
    case Arr(items) => forall i :: 0 <= i < |items| ==> Plain(items[i])
    case Obj(fs) => UniqueKeys(fs) && forall i :: 0 <= i < |fs| ==> Plain(fs[i].1)
    case _ => true
  }

  /** What may follow a value inside JSON text. */
  predicate Delim(rest: string) {
    rest == [] || rest[0] == ',' || rest[0] == ']' || rest[0] == '}'
  }

  lemma {:induction false} SkipWsNone(t: string)
    requires t == [] || !IsWs(t[0])
    ensures SkipWs(t) == t
  {
  }

  lemma {:induction false} DigitRunExact(x: string, n: nat)
    requires n <= |x|
    requires forall i :: 0 <= i < n ==> IsDigit(x[i])
    requires n == |x| || !IsDigit(x[n])
    ensures DigitRun(x) == n
  {
    if n > 0 {
      DigitRunExact(x[1..], n - 1);
    }
  }

  lemma {:induction false} NatStringValue(n: nat)
    ensures DigitsValue(NatString(n)) == n
    decreases n
  {
    if n >= 10 {
      var s := NatString(n);
      assert s == NatString(n / 10) + [DigitChar(n % 10)];
      assert s[..|s| - 1] == NatString(n / 10);
      NatStringValue(n / 10);
    }
  }

  lemma {:induction false} Split(a: string, b: string)
    ensures (a + b)[..|a|] == a && (a + b)[|a|..] == b
  {
  }

  lemma {:induction false} Assoc(a: string, b: string, c: string)
    ensures a + b + c == a + (b + c)
  {
  }

  lemma {:induction false} Assoc4(a: string, b: string, c: string, d: string)
    ensures a + b + c + d == a + (b + c + d)
  {
  }

  lemma {:induction false} NatRoundTrip(m: nat, rest: string)
    requires Delim(rest)
    ensures ParseDigits(NatString(m) + rest) == Some((m, rest))
  {
    var ns := NatString(m);
    var u := ns + rest;
    Split(ns, rest);
    assert forall i :: 0 <= i < |ns| ==> u[i] == ns[i];
    DigitRunExact(u, |ns|);
    NatStringValue(m);
    assert ns[0] == '0' ==> |ns| == 1;
  }

  lemma {:induction false} NumberRoundTrip(n: int, rest: string)
    requires Delim(rest)
    ensures ParseNumber(DecimalString(n) + rest) == Some((Num(n), rest))
  {
    var m: nat := if n < 0 then -n else n;
    var t := DecimalString(n) + rest;
    NatRoundTrip(m, rest);
    if n < 0 {
      Assoc("-", NatString(m), rest);
      Drop1('-', NatString(m) + rest);
    } else {
      assert t[0] == NatString(m)[0];
    }
  }

  lemma {:induction false} HexRoundTrip(d: nat)
    requires d < 16
    ensures HexValue(HexDigit(d)) == Some(d)
  {
  }

  lemma {:induction false} Drop1(c: char, x: string)
    ensures ([c] + x)[0] == c && ([c] + x)[1..] == x
  {
  }

  /** One escaped character reads back as that character. */
  lemma {:induction false} EscapeCharStep(c: char, tail: string)
    ensures ParseChars(EscapeChar(c) + tail) == Prepend(c, ParseChars(tail))
  {
    var e := EscapeChar(c);
    if |e| == 1 {
      Drop1(c, tail);
    } else if |e| == 2 {
      ShortEscapeStep(c, tail);
    } else {
      UnicodeEscapeStep(c, tail);
    }
  }

  lemma {:induction false} ShortEscapeStep(c: char, tail: string)
    requires |EscapeChar(c)| == 2
    ensures ParseChars(EscapeChar(c) + tail) == Prepend(c, ParseChars(tail))
  {
    var e := EscapeChar(c);
    assert e == ['\\', e[1]];
    assert e + tail == ['\\'] + ([e[1]] + tail);
    Drop1('\\', [e[1]] + tail);
    Drop1(e[1], tail);
    assert Unescape([e[1]] + tail) == Some((c, tail));
  }

  lemma {:induction false} UnicodeEscapeStep(c: char, tail: string)
    requires |EscapeChar(c)| > 2
    ensures ParseChars(EscapeChar(c) + tail) == Prepend(c, ParseChars(tail))
  {
    var code := c as int;
    assert code < 32;
    var hi, lo := HexDigit(code / 16), HexDigit(code % 16);
    HexRoundTrip(code / 16);
    HexRoundTrip(code % 16);
    var h := ['0', '0', hi, lo] + tail;
    assert EscapeChar(c) + tail == ['\\'] + (['u'] + h);
    Drop1('\\', ['u'] + h);
    Drop1('u', h);
    assert h[4..] == tail;
    assert UnicodeEscape(h) == Some((c, tail));
  }

  lemma {:induction false} StringRoundTrip(str: string, rest: string)
    ensures ParseChars(Escape(str) + "\"" + rest) == Some((str, rest))
    decreases |str|
  {
    if str == [] {
      assert Escape(str) + "\"" + rest == "\"" + rest;
    } else {
      var tail := Escape(str[1..]) + "\"" + rest;
      assert Escape(str) + "\"" + rest == EscapeChar(str[0]) + tail;
      EscapeCharStep(str[0], tail);
      StringRoundTrip(str[1..], rest);
      assert [str[0]] + str[1..] == str;
    }
  }

  lemma {:induction false} LiteralRoundTrip(word: string, v: Js, rest: string)
    requires word != []
    ensures Literal(word + rest, word, v) == Some((v, rest))
  {
    assert (word + rest)[..|word|] == word && (word + rest)[|word|..] == rest;
  }

  lemma {:induction false} FirstChar(v: Js)
    ensures Serialize(v) != []
    ensures var c := Serialize(v)[0]; !IsWs(c) && c != ',' && c != ']' && c != '}'
  {
    match v
    case Num(n) =>
      if n >= 0 { assert Serialize(v)[0] == NatString(n)[0]; }
    case _ =>
  }

  lemma {:induction false} ValueRoundTrip(v: Js, rest: string)
    requires Plain(v) && Delim(rest)
    ensures ParseValue(Serialize(v) + rest) == Some((v, rest))
    decreases v, 0
  {
    var t := Serialize(v) + rest;
    FirstChar(v);
    SkipWsNone(t);
    match v
    case Null =>
      LiteralRoundTrip("null", Null, rest);
    case Bool(b) =>
      if b { LiteralRoundTrip("true", v, rest); } else { LiteralRoundTrip("false", v, rest); }
    case Num(n) =>
      assert t[0] == '-' || IsDigit(t[0]) by {
        if n >= 0 { assert t[0] == NatString(n)[0]; }
      }
      NumberRoundTrip(n, rest);
    case Str(s) =>
      Assoc4("\"", Escape(s), "\"", rest);
      Drop1('"', Escape(s) + "\"" + rest);
      StringRoundTrip(s, rest);
    case Arr(items) =>
      Assoc4("[", SerializeItems(items), "]", rest);
      Drop1('[', SerializeItems(items) + "]" + rest);
      ArrayRoundTrip(items, rest);
    case Obj(fs) =>
      Assoc4("{", SerializeMembers(fs), "}", rest);
      Drop1('{', SerializeMembers(fs) + "}" + rest);
      ObjectRoundTrip(fs, rest);
  }

  lemma {:induction false} ArrayRoundTrip(items: seq<Js>, rest: string)
    requires forall i :: 0 <= i < |items| ==> Plain(items[i])
    requires Delim(rest)
    ensures ParseArray(SerializeItems(items) + "]" + rest) == Some((Arr(items), rest))
    decreases items, 2
  {
    var s := SerializeItems(items) + "]" + rest;
    if items == [] {
      assert s == "]" + rest;
    } else {
      FirstChar(items[0]);
      SkipWsNone(s);
      ElementsRoundTrip(items, [], rest);
      assert [] + items == items;
    }
  }

  lemma {:induction false} ElementsRoundTrip(items: seq<Js>, acc: seq<Js>, rest: string)
    requires items != []
    requires forall i :: 0 <= i < |items| ==> Plain(items[i])
    requires Delim(rest)
    ensures ParseElements(SerializeItems(items) + "]" + rest, acc) == Some((Arr(acc + items), rest))
    decreases items, 1
  {
    var tail := if |items| == 1 then "]" + rest else "," + (SerializeItems(items[1..]) + "]" + rest);
    assert SerializeItems(items) + "]" + rest == Serialize(items[0]) + tail;
    ValueRoundTrip(items[0], tail);
    SkipWsNone(tail);
    HeadTail(acc, items);
    if |items| > 1 {
      ElementsRoundTrip(items[1..], acc + [items[0]], rest);
    }
  }

  lemma {:induction false} ObjectRoundTrip(fs: seq<Field>, rest: string)
    requires UniqueKeys(fs) && forall i :: 0 <= i < |fs| ==> Plain(fs[i].1)
    requires Delim(rest)
    ensures ParseObject(SerializeMembers(fs) + "}" + rest) == Some((Obj(fs), rest))
    decreases fs, 2
  {
    var s := SerializeMembers(fs) + "}" + rest;
    if fs == [] {
      assert s == "}" + rest;
    } else {
      assert Plain(fs[0].1) && (|fs| > 1 ==> Plain(fs[1].1));
      MembersText(fs, rest);
      SkipWsNone(s);
      MembersRoundTrip(fs, [], rest);
      assert [] + fs == fs;
    }
  }

  lemma {:induction false} MemberRoundTrip(f: Field, tail: string)
    requires Plain(f.1) && Delim(tail)
    ensures ParseMember(SerializeMember(f) + tail) == Some((f.0, f.1, tail))
    decreases f, 2
  {
    var (k, v) := f;
    var afterKey := ":" + (Serialize(v) + tail);
    var s := SerializeMember(f) + tail;
    MemberText(k, v, tail);
    Drop1('"', Escape(k) + "\"" + afterKey);
    SkipWsNone(s);
    StringRoundTrip(k, afterKey);
    Drop1(':', Serialize(v) + tail);
    SkipWsNone(afterKey);
    ValueRoundTrip(v, tail);
  }

  lemma {:induction false} MemberText(k: string, v: Js, tail: string)
    ensures SerializeMember((k, v)) + tail == "\"" + (Escape(k) + "\"" + (":" + (Serialize(v) + tail)))
  {
    var e, x := Escape(k), Serialize(v);
    assert SerializeMember((k, v)) == "\"" + e + "\"" + ":" + x;
    calc {
      "\"" + e + "\"" + ":" + x + tail;
      "\"" + (e + "\"" + (":" + (x + tail)));
    }
  }

  lemma {:induction false} FreshKey(acc: seq<Field>, fs: seq<Field>)
    requires fs != [] && UniqueKeys(acc + fs)
    ensures fs[0].0 !in KeysOf(acc)
  {
    forall i | 0 <= i < |acc| ensures KeysOf(acc)[i] != fs[0].0 {
      assert (acc + fs)[i] == acc[i] && (acc + fs)[|acc|] == fs[0];
    }
  }

  lemma {:induction false} MembersText(fs: seq<Field>, rest: string)
    requires fs != [] && !Omitted(fs[0].1)
    requires |fs| > 1 ==> !Omitted(fs[1].1)
    ensures SerializeMembers(fs) + "}" + rest ==
            SerializeMember(fs[0]) +
            (if |fs| == 1 then "}" + rest else "," + (SerializeMembers(fs[1..]) + "}" + rest))
  {
    var m := SerializeMember(fs[0]);
    if |fs| == 1 {
      assert SerializeMembers(fs) == m;
      AppendAssoc(m, "}", rest);
    } else {
      var more := SerializeMembers(fs[1..]);
      assert more != "" by {
        var g := fs[1..];
        assert g[0] == fs[1];
        assert SerializeMember(g[0]) != [];
      }
      assert SerializeMembers(fs) == m + "," + more;
      AppendAssoc5(m, ",", more, "}", rest);
    }
  }

  lemma {:induction false} AppendAssoc(a: string, b: string, c: string)
    ensures a + b + c == a + (b + c)
  {
  }

  lemma {:induction false} AppendAssoc5(a: string, b: string, c: string, d: string, e: string)
    ensures a + b + c + d + e == a + (b + (c + d + e))
  {
  }

  lemma {:induction false} MembersStep(f: Field, tail: string, acc: seq<Field>)
    requires Plain(f.1) && Delim(tail) && tail != []
    ensures ParseMembers(SerializeMember(f) + tail, acc) ==
            if tail[0] == ',' then ParseMembers(tail[1..], Put(acc, f.0, f.1))
            else if tail[0] == '}' then Some((Obj(Put(acc, f.0, f.1)), tail[1..]))
            else None
    decreases f, 3
  {
    MemberRoundTrip(f, tail);
    SkipWsNone(tail);
  }

  lemma {:induction false} HeadTail<T>(acc: seq<T>, fs: seq<T>)
    requires fs != []
    ensures acc + [fs[0]] + fs[1..] == acc + fs
    ensures |fs| == 1 ==> acc + [fs[0]] == acc + fs
  {
  }

  lemma {:induction false} MembersRoundTrip(fs: seq<Field>, acc: seq<Field>, rest: string)
    requires fs != []
    requires forall i :: 0 <= i < |fs| ==> Plain(fs[i].1)
    requires UniqueKeys(acc + fs)
    requires Delim(rest)
    ensures ParseMembers(SerializeMembers(fs) + "}" + rest, acc) == Some((Obj(acc + fs), rest))
    decreases fs, 1
  {
    var more := SerializeMembers(fs[1..]);
    var tail := if |fs| == 1 then "}" + rest else "," + (more + "}" + rest);
    assert Plain(fs[0].1) && (|fs| > 1 ==> Plain(fs[1].1));
    MembersText(fs, rest);
    MembersStep(fs[0], tail, acc);
    var acc' := acc + [fs[0]];
    assert Put(acc, fs[0].0, fs[0].1) == acc' by {
      FreshKey(acc, fs);
      PutSpec(acc, fs[0].0, fs[0].1);
    }
    HeadTail(acc, fs);
    if |fs| > 1 {
      MembersRoundTrip(fs[1..], acc', rest);
    }
  }

  /** Every value without undefined or functions in it parses back from its JSON text. */
  lemma {:induction false} ParseStringify(v: Js)
    requires Plain(v)
    ensures Stringify(v) == Some(Serialize(v))
    ensures Parse(Serialize(v)) == Some(v)
  {
    ValueRoundTrip(v, []);
    assert Serialize(v) + [] == Serialize(v);
  }
}
