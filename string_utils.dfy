/**
 * The string helpers: case conversion, truncation, slugs, HTML escaping and
 * stripping, pluralisation and the random code generator.
 *
 * `toUpperCase`/`toLowerCase` are modelled on ASCII letters only; every other
 * character is left as it is.
 */
module StringUtils {
  import opened Wrappers

  predicate IsUpper(c: char) { 'A' <= c <= 'Z' }
  predicate IsLower(c: char) { 'a' <= c <= 'z' }
  predicate IsDigitChar(c: char) { '0' <= c <= '9' }
  predicate IsAlnum(c: char) { IsUpper(c) || IsLower(c) || IsDigitChar(c) }

  function UpperChar(c: char): char {
    if IsLower(c) then (c as int - 32) as char else c
  }

  function LowerChar(c: char): char {
    if IsUpper(c) then (c as int + 32) as char else c
  }

  function ToUpper(s: string): (r: string)
    ensures |r| == |s| && forall i :: 0 <= i < |s| ==> r[i] == UpperChar(s[i])
  {
    seq(|s|, i requires 0 <= i < |s| => UpperChar(s[i]))
  }

  function ToLower(s: string): (r: string)
    ensures |r| == |s| && forall i :: 0 <= i < |s| ==> r[i] == LowerChar(s[i])
  {
    seq(|s|, i requires 0 <= i < |s| => LowerChar(s[i]))
  }

  // ---------------------------------------------------------------- capitalize

  /** `str.charAt(0).toUpperCase() + str.slice(1).toLowerCase()` */
  function Capitalize(s: string): (r: string)
    ensures |r| == |s|
    ensures s != [] ==> r[0] == UpperChar(s[0])
    ensures forall i :: 1 <= i < |s| ==> r[i] == LowerChar(s[i])
  {
    if s == [] then "" else [UpperChar(s[0])] + ToLower(s[1..])
  }

  /** A capitalized word starts with no lower-case letter and has no upper-case letter after it; capitalizing it again changes nothing. */
  lemma {:induction false} CapitalizeShape(s: string)
    ensures var r := Capitalize(s);
      (r != [] ==> !IsLower(r[0])) && (forall i :: 1 <= i < |r| ==> !IsUpper(r[i])) &&
      Capitalize(r) == r
  {
    var r := Capitalize(s);
    if r != [] {
      var c := Capitalize(r);
      assert forall i :: 0 <= i < |r| ==> c[i] == r[i];
    }
  }

  // ------------------------------------------------------------------ truncate

  /** The end index `String.prototype.slice(0, end)` uses: a negative end counts from the back. */
  function SliceEnd(len: nat, end: int): (e: nat)
    ensures e <= len
  {
    if end < 0 then (if len + end < 0 then 0 else len + end)
    else if end > len then len
    else end
  }

  /** `truncate(str, length, suffix)` as written: the slice end `length - suffix.length` may be negative. */
  function TruncateAsWritten(s: string, length: int, suffix: string): string {
    if |s| <= length then s else s[..SliceEnd(|s|, length - |suffix|)] + suffix
  }

  /** A limit shorter than the suffix keeps all but the last characters of the input and returns a string longer than the input. */
  lemma {:induction false} TruncateAsWrittenGrows()
    ensures TruncateAsWritten("hello world", 2, "...") == "hello worl..."
    ensures |TruncateAsWritten("hello world", 2, "...")| > |"hello world"|
  {
  }

  /** `truncate` with the slice end clamped at zero. */
  function Truncate(s: string, length: int, suffix: string): (r: string)
    ensures |s| <= length ==> r == s
    ensures |s| > length ==>
              |r| == (if length > |suffix| then length else |suffix|) &&
              r[|r| - |suffix|..] == suffix &&
              r[..|r| - |suffix|] == s[..|r| - |suffix|]
  {
    if |s| <= length then s
    else
      var keep := if length - |suffix| < 0 then 0 else length - |suffix|;
      s[..keep] + suffix
  }

  /** The correction changes only the inputs whose limit is shorter than the suffix. */
  lemma {:induction false} TruncateAgrees(s: string, length: int, suffix: string)
    requires length >= |suffix|
    ensures Truncate(s, length, suffix) == TruncateAsWritten(s, length, suffix)
  {
  }

  // ----------------------------------------------------------------- pluralize

  /** `modifierCount === 1 ? singular : plural` */
  function Pluralize(modifierCount: int, plural: string, singular: string): (r: string)
    ensures modifierCount == 1 ==> r == singular
    ensures modifierCount != 1 ==> r == plural
  {
    if modifierCount == 1 then singular else plural
  }

  // ---------------------------------------------------------------- escapeHtml

  function EscapeHtmlChar(c: char): string {
    if c == '&' then "&amp;"
    else if c == '<' then "&lt;"
    else if c == '>' then "&gt;"
    else if c == '"' then "&quot;"
    else if c == '\'' then "&#39;"
    else [c]
  }

  function EscapeHtml(s: string): string {
    if s == [] then "" else EscapeHtmlChar(s[0]) + EscapeHtml(s[1..])
  }

  predicate HasPrefix(r: string, p: string) {
    |p| <= |r| && r[..|p|] == p
  }

  /** The character one of the five entities at the head of `r` stands for, and the entity's length. */
  function DecodeEntity(r: string): (d: Option<(char, nat)>)
    ensures d.Some? ==> 0 < d.value.1 <= |r|
  {
    if r == [] || r[0] != '&' then None
    else if HasPrefix(r, "&amp;") then Some(('&', 5))
    else if HasPrefix(r, "&lt;") then Some(('<', 4))
    else if HasPrefix(r, "&gt;") then Some(('>', 4))
    else if HasPrefix(r, "&quot;") then Some(('"', 6))
    else if HasPrefix(r, "&#39;") then Some(('\'', 5))
    else None
  }

  /** The escaped text has none of `< > " '`, and each `&` in it starts an entity. */
  predicate HtmlSafe(r: string) {
    NoMarkup(r) && AmpersandsStartEntities(r)
  }

  /** None of `< > " '`. */
  predicate NoMarkup(r: string) {
    forall i :: 0 <= i < |r| ==> r[i] != '<' && r[i] != '>' && r[i] != '"' && r[i] != '\''
  }

  /** Every `&` starts one of the five entities. */
  predicate AmpersandsStartEntities(r: string) {
    forall i :: 0 <= i < |r| && r[i] == '&' ==> DecodeEntity(r[i..]).Some?
  }

  lemma {:induction false} CharSafe(c: char, t: string)
    ensures var e := EscapeHtmlChar(c);
      |e| > 0 &&
      (forall i :: 0 <= i < |e| ==> e[i] != '<' && e[i] != '>' && e[i] != '"' && e[i] != '\'' && (e[i] == '&' ==> i == 0)) &&
      (e[0] == '&' ==> DecodeEntity(e + t).Some?)
  {
    var e := EscapeHtmlChar(c);
    var r := e + t;
    if c == '&' { assert r[..5] == "&amp;"; }
    else if c == '<' { assert r[..4] == "&lt;"; }
    else if c == '>' { assert r[..4] == "&gt;"; }
    else if c == '"' { assert r[..6] == "&quot;"; }
    else if c == '\'' { assert r[..5] == "&#39;"; }
  }

  lemma {:induction false} ShiftTail(e: string, t: string, j: nat)
    requires j <= |t|
    ensures (e + t)[|e| + j..] == t[j..]
  {
  }

  /** An entity that starts in `t` still starts there once `e` is prefixed. */
  lemma {:induction false} ShiftEntity(e: string, t: string, i: nat)
    requires |e| <= i < |e| + |t| && (t[i - |e|] == '&' ==> DecodeEntity(t[i - |e|..]).Some?)
    ensures (e + t)[i] == '&' ==> DecodeEntity((e + t)[i..]).Some?
  {
    ShiftTail(e, t, i - |e|);
  }

  /** An `&` inside an escaped character is the start of its entity. */
  lemma {:induction false} HeadEntity(c: char, t: string, i: nat)
    requires i < |EscapeHtmlChar(c)| && EscapeHtmlChar(c)[i] == '&'
    ensures (EscapeHtmlChar(c) + t)[i] == '&'
    ensures DecodeEntity((EscapeHtmlChar(c) + t)[i..]).Some?
  {
    var e := EscapeHtmlChar(c);
    CharSafe(c, t);
    assert i == 0;
    assert (e + t)[i..] == e + t;
  }

  lemma {:induction false} NoMarkupCons(c: char, t: string)
    requires NoMarkup(t)
    ensures NoMarkup(EscapeHtmlChar(c) + t)
  {
    var e := EscapeHtmlChar(c);
    CharSafe(c, t);
    var r := e + t;
    forall i | 0 <= i < |r|
      ensures r[i] != '<' && r[i] != '>' && r[i] != '"' && r[i] != '\''
    {
      if i < |e| {
        assert r[i] == e[i];
      } else {
        assert r[i] == t[i - |e|];
      }
    }
  }

  lemma {:induction false} EntitiesCons(c: char, t: string)
    requires AmpersandsStartEntities(t)
    ensures AmpersandsStartEntities(EscapeHtmlChar(c) + t)
  {
    var e := EscapeHtmlChar(c);
    var r := e + t;
    forall i | 0 <= i < |r| && r[i] == '&'
      ensures DecodeEntity(r[i..]).Some?
    {
      if i < |e| {
        HeadEntity(c, t, i);
      } else {
        ShiftEntity(e, t, i);
      }
    }
  }

  /** `escapeHtml` output is safe to place in HTML text and attribute values. */
  lemma {:induction false} EscapeHtmlSafe(s: string)
    ensures HtmlSafe(EscapeHtml(s))
  {
    if s != [] {
      EscapeHtmlSafe(s[1..]);
      NoMarkupCons(s[0], EscapeHtml(s[1..]));
      EntitiesCons(s[0], EscapeHtml(s[1..]));
      assert EscapeHtml(s) == EscapeHtmlChar(s[0]) + EscapeHtml(s[1..]);
    }
  }

  /** The decoder of the five entities: the reference `escapeHtml` is checked against. */
  function UnescapeHtml(r: string): string
    decreases |r|
  {
    if r == [] then ""
    else match DecodeEntity(r)
      case Some((c, n)) => [c] + UnescapeHtml(r[n..])
      case None => [r[0]] + UnescapeHtml(r[1..])
  }

  lemma {:induction false} EscapeCharDecodes(c: char, t: string)
    ensures DecodeEntity(EscapeHtmlChar(c) + t) == if |EscapeHtmlChar(c)| == 1 then None else Some((c, |EscapeHtmlChar(c)|))
    ensures |EscapeHtmlChar(c)| == 1 ==> EscapeHtmlChar(c) == [c]
  {
    var e := EscapeHtmlChar(c);
    var r := e + t;
    if c == '&' { assert r[..5] == "&amp;"; }
    else if c == '<' { assert r[..4] == "&lt;" && r[1] == 'l'; }
    else if c == '>' { assert r[..4] == "&gt;" && r[1] == 'g'; }
    else if c == '"' { assert r[..6] == "&quot;" && r[1] == 'q'; }
    else if c == '\'' { assert r[..5] == "&#39;" && r[1] == '#'; }
    else { assert r[0] == c; }
  }

  /** Decoding the escaped text gives back the input. */
  lemma {:induction false} EscapeHtmlRoundTrip(s: string)
    ensures UnescapeHtml(EscapeHtml(s)) == s
  {
    if s != [] {
      var e, t := EscapeHtmlChar(s[0]), EscapeHtml(s[1..]);
      EscapeCharDecodes(s[0], t);
      ShiftTail(e, t, 0);
      assert (e + t)[|e|..] == t;
      EscapeHtmlRoundTrip(s[1..]);
      assert [s[0]] + s[1..] == s;
    }
  }

  // ----------------------------------------------------------------- stripHtml

  /** The index of the first `>` in `s`, if any. */
  function FindClose(s: string): (r: Option<nat>)
    ensures r.Some? ==> r.value < |s| && s[r.value] == '>' && forall k :: 0 <= k < r.value ==> s[k] != '>'
    ensures r.None? ==> forall k :: 0 <= k < |s| ==> s[k] != '>'
  {
    if s == [] then None
    else if s[0] == '>' then Some(0)
    else match FindClose(s[1..]) case None => None case Some(k) => Some(k + 1)
  }

  /** `str.replace(/<[^>]*>/g, '')`: each `<` with a later `>` is removed up to and including that `>`. */
  function StripHtml(s: string): (r: string)
    ensures forall i :: 0 <= i < |r| ==> r[i] in s
    decreases |s|
  {
    if s == [] then ""
    else if s[0] == '<' && FindClose(s[1..]).Some? then StripHtml(s[1..][FindClose(s[1..]).value + 1..])
    else [s[0]] + StripHtml(s[1..])
  }

  /** No `<` is followed later by a `>`. */
  predicate NoTag(r: string) {
    forall i, j :: 0 <= i < j < |r| && r[i] == '<' ==> r[j] != '>'
  }

  /** Every complete tag is gone from the output. */
  lemma {:induction false} StripHtmlNoTags(s: string)
    ensures NoTag(StripHtml(s))
    decreases |s|
  {
    if s != [] {
      if s[0] == '<' && FindClose(s[1..]).Some? {
        var rest := s[1..][FindClose(s[1..]).value + 1..];
        assert StripHtml(s) == StripHtml(rest);
        StripHtmlNoTags(rest);
      } else {
        StripHtmlNoTags(s[1..]);
        var t := StripHtml(s[1..]);
        assert StripHtml(s) == [s[0]] + t;
        if s[0] == '<' {
          NoCloseStripped(s[1..]);
        }
        NoTagCons(s[0], t);
      }
    }
  }

  /** Stripping text without `>` leaves no `>`. */
  lemma {:induction false} NoCloseStripped(s: string)
    requires FindClose(s).None?
    ensures '>' !in StripHtml(s)
  {
    var r := StripHtml(s);
    forall i | 0 <= i < |r| ensures r[i] != '>' {
      assert r[i] in s;
    }
  }

  /** A character in front of tag-free text keeps it tag-free unless it opens a tag the text closes. */
  lemma {:induction false} NoTagCons(c: char, t: string)
    requires NoTag(t) && (c == '<' ==> '>' !in t)
    ensures NoTag([c] + t)
  {
    var r := [c] + t;
    forall i, j | 0 <= i < j < |r| && r[i] == '<' ensures r[j] != '>' {
      assert r[j] == t[j - 1];
      if i > 0 {
        assert r[i] == t[i - 1];
      }
    }
  }

  /** Text without `<` passes through unchanged. */
  lemma {:induction false} StripHtmlPlain(s: string)
    requires forall i :: 0 <= i < |s| ==> s[i] != '<'
    ensures StripHtml(s) == s
  {
    if s != [] {
      StripHtmlPlain(s[1..]);
      assert [s[0]] + s[1..] == s;
    }
  }

  // ------------------------------------------------------------------- slugify

  /** A character `[a-z0-9]` keeps in a slug. */
  predicate IsSlugChar(c: char) { IsLower(c) || IsDigitChar(c) }

  /** Only `[a-z0-9-]`. */
  predicate AllSlugChars(r: string) {
    forall i :: 0 <= i < |r| ==> IsSlugChar(r[i]) || r[i] == '-'
  }

  /** No two dashes in a row. */
  predicate NoDoubleDash(r: string) {
    forall i :: 0 <= i < |r| - 1 ==> !(r[i] == '-' && r[i + 1] == '-')
  }

  /** `.replace(/[^a-z0-9]+/g, '-')`: each run of other characters becomes one dash, written at the run's last character. */
  function CollapseRuns(s: string): (r: string)
    ensures AllSlugChars(r)
  {
    if s == [] then ""
    else if IsSlugChar(s[0]) then [s[0]] + CollapseRuns(s[1..])
    else if |s| > 1 && !IsSlugChar(s[1]) then CollapseRuns(s[1..])
    else "-" + CollapseRuns(s[1..])
  }

  function TrimStart(s: string): (r: string)
    ensures r == [] || r[0] != '-'
    ensures |r| <= |s| && r == s[|s| - |r|..]
  {
    if s != [] && s[0] == '-' then TrimStart(s[1..]) else s
  }

  function TrimEnd(s: string): (r: string)
    ensures r == [] || r[|r| - 1] != '-'
    ensures |r| <= |s| && r == s[..|r|]
  {
    if s != [] && s[|s| - 1] == '-' then TrimEnd(s[..|s| - 1]) else s
  }

  /** `slugify`: lower-case, collapse every run outside `[a-z0-9]` into a dash, strip leading and trailing dashes. */
  function Slugify(s: string): string {
    TrimEnd(TrimStart(CollapseRuns(ToLower(s))))
  }

  /** A slug: only `[a-z0-9-]`, no dash at either end, no two dashes in a row. */
  predicate IsSlug(r: string) {
    AllSlugChars(r) && (r != [] ==> r[0] != '-' && r[|r| - 1] != '-') && NoDoubleDash(r)
  }

  /** A dash in the collapsed text is followed by a kept character or ends it. */
  lemma {:induction false} CollapseNoDoubleDash(s: string)
    ensures NoDoubleDash(CollapseRuns(s))
    ensures CollapseRuns(s) != [] && CollapseRuns(s)[0] == '-' ==> s != [] && !IsSlugChar(s[0])
  {
    if s != [] {
      CollapseNoDoubleDash(s[1..]);
      var t := CollapseRuns(s[1..]);
      if !IsSlugChar(s[0]) && !(|s| > 1 && !IsSlugChar(s[1])) {
        var r := "-" + t;
        assert r == CollapseRuns(s);
        forall i | 0 <= i < |r| - 1 ensures !(r[i] == '-' && r[i + 1] == '-') {
          if i == 0 {
            assert t != [] ==> t[0] != '-';
          } else {
            assert r[i] == t[i - 1] && r[i + 1] == t[i];
          }
        }
      } else if IsSlugChar(s[0]) {
        var r := [s[0]] + t;
        assert r == CollapseRuns(s);
        forall i | 0 <= i < |r| - 1 ensures !(r[i] == '-' && r[i + 1] == '-') {
          if i > 0 {
            assert r[i] == t[i - 1] && r[i + 1] == t[i];
          }
        }
      }
    }
  }

  lemma {:induction false} SliceNoDoubleDash(s: string, a: nat, b: nat)
    requires a <= b <= |s| && NoDoubleDash(s)
    ensures NoDoubleDash(s[a..b])
  {
    var r := s[a..b];
    forall i | 0 <= i < |r| - 1 ensures !(r[i] == '-' && r[i + 1] == '-') {
      assert r[i] == s[a + i] && r[i + 1] == s[a + i + 1];
    }
  }

  lemma {:induction false} SliceSlugChars(s: string, a: nat, b: nat)
    requires a <= b <= |s| && AllSlugChars(s)
    ensures AllSlugChars(s[a..b])
  {
    var r := s[a..b];
    forall i | 0 <= i < |r| ensures IsSlugChar(r[i]) || r[i] == '-' {
      assert r[i] == s[a + i];
    }
  }

  lemma {:induction false} TrimmedIsSlug(c: string)
    requires AllSlugChars(c) && NoDoubleDash(c)
    ensures IsSlug(TrimEnd(TrimStart(c)))
  {
    var a := TrimStart(c);
    assert AllSlugChars(a) && NoDoubleDash(a) by {
      var off := |c| - |a|;
      assert a == c[off..|c|];
      SliceNoDoubleDash(c, off, |c|);
      SliceSlugChars(c, off, |c|);
    }
    var r := TrimEnd(a);
    assert AllSlugChars(r) && NoDoubleDash(r) by {
      assert r == a[0..|r|];
      SliceNoDoubleDash(a, 0, |r|);
      SliceSlugChars(a, 0, |r|);
    }
    assert r != [] ==> r[0] == a[0];
  }

  /** `slugify` output is a slug. */
  lemma {:induction false} SlugifyIsSlug(s: string)
    ensures IsSlug(Slugify(s))
  {
    CollapseNoDoubleDash(ToLower(s));
    TrimmedIsSlug(CollapseRuns(ToLower(s)));
  }

  /** A slug passes through each stage unchanged. */
  lemma {:induction false} CollapseSlug(r: string)
    requires AllSlugChars(r) && NoDoubleDash(r)
    requires r != [] ==> r[|r| - 1] != '-'
    ensures CollapseRuns(r) == r
  {
    if r != [] {
      SliceNoDoubleDash(r, 1, |r|);
      CollapseSlug(r[1..]);
      if !IsSlugChar(r[0]) {
        assert |r| > 1 && r[1] != '-';
      }
      assert [r[0]] + r[1..] == r;
    }
  }

  lemma {:induction false} LowerSlug(r: string)
    requires AllSlugChars(r)
    ensures ToLower(r) == r
  {
  }

  /** `slugify` is idempotent: slugifying a slug gives the slug back. */
  lemma {:induction false} SlugifyIdempotent(s: string)
    ensures Slugify(Slugify(s)) == Slugify(s)
  {
    var r := Slugify(s);
    SlugifyIsSlug(s);
    LowerSlug(r);
    CollapseSlug(r);
  }

  /** The characters outside `-` that a string contains, in order. */
  function WithoutDashes(s: string): (r: string)
    ensures |r| <= |s|
  {
    if s == [] then "" else (if s[0] == '-' then "" else [s[0]]) + WithoutDashes(s[1..])
  }

  /** The `[a-z0-9]` characters of a string, in order. */
  function SlugChars(s: string): string {
    if s == [] then "" else (if IsSlugChar(s[0]) then [s[0]] else "") + SlugChars(s[1..])
  }

  lemma {:induction false} CollapseKeeps(s: string)
    ensures WithoutDashes(CollapseRuns(s)) == SlugChars(s)
  {
    if s != [] {
      CollapseKeeps(s[1..]);
      var t := CollapseRuns(s[1..]);
      if IsSlugChar(s[0]) {
        assert ([s[0]] + t)[1..] == t;
      } else if !(|s| > 1 && !IsSlugChar(s[1])) {
        assert ("-" + t)[1..] == t;
      }
    }
  }

  lemma {:induction false} TrimStartKeeps(s: string)
    ensures WithoutDashes(TrimStart(s)) == WithoutDashes(s)
  {
    if s != [] && s[0] == '-' {
      TrimStartKeeps(s[1..]);
    }
  }

  lemma {:induction false} WithoutDashesAppend(a: string, b: string)
    ensures WithoutDashes(a + b) == WithoutDashes(a) + WithoutDashes(b)
  {
    if a == [] {
      assert a + b == b;
    } else {
      WithoutDashesAppend(a[1..], b);
      var h := if a[0] == '-' then "" else [a[0]];
      assert (a + b)[0] == a[0];
      assert (a + b)[1..] == a[1..] + b;
      calc {
        WithoutDashes(a + b);
        h + WithoutDashes(a[1..] + b);
        h + (WithoutDashes(a[1..]) + WithoutDashes(b));
        { AppendAssoc3(h, WithoutDashes(a[1..]), WithoutDashes(b)); }
        (h + WithoutDashes(a[1..])) + WithoutDashes(b);
      }
    }
  }

  lemma {:induction false} AppendAssoc3(a: string, b: string, c: string)
    ensures a + (b + c) == (a + b) + c
  {
  }

  lemma {:induction false} TrimEndKeeps(s: string)
    ensures WithoutDashes(TrimEnd(s)) == WithoutDashes(s)
    decreases |s|
  {
    if s != [] && s[|s| - 1] == '-' {
      TrimEndKeeps(s[..|s| - 1]);
      WithoutDashesAppend(s[..|s| - 1], "-");
      assert s[..|s| - 1] + "-" == s;
    }
  }

  /** Apart from its dashes, a slug is exactly the `[a-z0-9]` characters of the lower-cased input, in order. */
  lemma {:induction false} SlugifyKeeps(s: string)
    ensures WithoutDashes(Slugify(s)) == SlugChars(ToLower(s))
  {
    var c := CollapseRuns(ToLower(s));
    CollapseKeeps(ToLower(s));
    TrimStartKeeps(c);
    TrimEndKeeps(TrimStart(c));
  }

  // ------------------------------------------------------------- toKebabCase

  /** JavaScript's `\s`: the ECMAScript white space and line terminator characters. */
  predicate IsJsSpace(c: char) {
    var n := c as int;
    (9 <= n <= 13) || n == 0x20 || n == 0xA0 || n == 0x1680 || (0x2000 <= n <= 0x200A) ||
    n == 0x2028 || n == 0x2029 || n == 0x202F || n == 0x205F || n == 0x3000 || n == 0xFEFF
  }

  predicate IsKebabSep(c: char) { IsJsSpace(c) || c == '_' }

  /** `.replace(/([a-z])([A-Z])/g, '$1-$2')`: a dash between a lower-case and an upper-case letter; matches do not overlap. */
  function SplitCamel(s: string): (r: string)
    ensures forall i :: 0 <= i < |r| ==> r[i] in s || r[i] == '-'
  {
    if |s| >= 2 && IsLower(s[0]) && IsUpper(s[1]) then [s[0], '-', s[1]] + SplitCamel(s[2..])
    else if s == [] then ""
    else [s[0]] + SplitCamel(s[1..])
  }

  /** `.replace(/[\s_]+/g, '-')`: each run of white space and underscores becomes one dash. */
  function DashSeparators(s: string): (r: string)
    ensures forall i :: 0 <= i < |r| ==> !IsKebabSep(r[i])
  {
    if s == [] then ""
    else if !IsKebabSep(s[0]) then [s[0]] + DashSeparators(s[1..])
    else if |s| > 1 && IsKebabSep(s[1]) then DashSeparators(s[1..])
    else "-" + DashSeparators(s[1..])
  }

  /** `toKebabCase` */
  function ToKebabCase(s: string): (r: string)
    ensures forall i :: 0 <= i < |r| ==> !IsUpper(r[i]) && !IsKebabSep(r[i])
  {
    ToLower(DashSeparators(SplitCamel(s)))
  }

  /** The characters of a string other than dashes, white space and underscores, in order. */
  function WordChars(s: string): string {
    if s == [] then "" else (if s[0] == '-' || IsKebabSep(s[0]) then "" else [s[0]]) + WordChars(s[1..])
  }

  lemma {:induction false} WordCharsCons(c: char, t: string)
    ensures WordChars([c] + t) == (if c == '-' || IsKebabSep(c) then "" else [c]) + WordChars(t)
  {
    assert ([c] + t)[1..] == t;
  }

  /** The dash `SplitCamel` inserts is not a word character. */
  lemma {:induction false} WordCharsDash(x: char, y: char, t: string)
    ensures WordChars([x, '-', y] + t) == WordChars([x, y] + t)
  {
    var a := [y] + t;
    assert [x, '-', y] + t == [x] + (['-'] + a);
    assert [x, y] + t == [x] + a;
    WordCharsCons(x, ['-'] + a);
    WordCharsCons('-', a);
    WordCharsCons(x, a);
  }

  lemma {:induction false} WordCharsPairCongruent(x: char, y: char, t1: string, t2: string)
    requires WordChars(t1) == WordChars(t2)
    ensures WordChars([x, y] + t1) == WordChars([x, y] + t2)
  {
    assert [x, y] + t1 == [x] + ([y] + t1);
    assert [x, y] + t2 == [x] + ([y] + t2);
    WordCharsCons(y, t1);
    WordCharsCons(y, t2);
    WordCharsCons(x, [y] + t1);
    WordCharsCons(x, [y] + t2);
  }

  lemma {:induction false} SplitCamelWords(s: string)
    ensures WordChars(SplitCamel(s)) == WordChars(s)
  {
    if |s| >= 2 && IsLower(s[0]) && IsUpper(s[1]) {
      var t := SplitCamel(s[2..]);
      SplitCamelWords(s[2..]);
      SplitCamelHump(s[0], s[1], s[2..]);
      assert [s[0], s[1]] + s[2..] == s;
      WordCharsDash(s[0], s[1], t);
      WordCharsPairCongruent(s[0], s[1], t, s[2..]);
    } else if s != [] {
      SplitCamelWords(s[1..]);
      WordCharsCons(s[0], SplitCamel(s[1..]));
      WordCharsCons(s[0], s[1..]);
      assert [s[0]] + s[1..] == s;
    }
  }

  lemma {:induction false} DashSeparatorsWords(s: string)
    ensures WordChars(DashSeparators(s)) == WordChars(s)
  {
    if s != [] {
      DashSeparatorsWords(s[1..]);
      var t := DashSeparators(s[1..]);
      if !IsKebabSep(s[0]) {
        assert ([s[0]] + t)[1..] == t;
      } else if !(|s| > 1 && IsKebabSep(s[1])) {
        assert ("-" + t)[1..] == t;
      }
    }
  }

  lemma {:induction false} LowerWords(s: string)
    requires forall i :: 0 <= i < |s| ==> !IsKebabSep(s[i])
    ensures WithoutDashes(ToLower(s)) == ToLower(WordChars(s))
  {
    if s != [] {
      LowerWords(s[1..]);
      assert ToLower(s)[1..] == ToLower(s[1..]);
      var h := if s[0] == '-' then "" else [s[0]];
      calc {
        ToLower(WordChars(s));
        ToLower(h + WordChars(s[1..]));
        { LowerAppend(h, WordChars(s[1..])); }
        ToLower(h) + ToLower(WordChars(s[1..]));
      }
    }
  }

  lemma {:induction false} LowerAppend(a: string, b: string)
    ensures ToLower(a + b) == ToLower(a) + ToLower(b)
  {
  }

  /**
   * Apart from its dashes, the kebab-case form is the input's letters and
   * digits (every character but dashes, white space and underscores),
   * lower-cased and in order.
   */
  lemma {:induction false} KebabKeepsWords(s: string)
    ensures WithoutDashes(ToKebabCase(s)) == ToLower(WordChars(s))
  {
    SplitCamelWords(s);
    DashSeparatorsWords(SplitCamel(s));
    LowerWords(DashSeparators(SplitCamel(s)));
  }

  /** A character that is not white space or `_` passes `DashSeparators` unchanged. */
  lemma {:induction false} DashSeparatorsKeep(c: char, t: string)
    requires !IsKebabSep(c)
    ensures DashSeparators([c] + t) == [c] + DashSeparators(t)
  {
    assert ([c] + t)[1..] == t;
  }

  lemma {:induction false} SplitCamelHump(a: char, b: char, rest: string)
    requires IsLower(a) && IsUpper(b)
    ensures SplitCamel([a, b] + rest) == [a, '-', b] + SplitCamel(rest)
  {
    assert ([a, b] + rest)[2..] == rest;
  }

  lemma {:induction false} DashSeparatorsHump(a: char, b: char, u: string)
    requires !IsKebabSep(a) && !IsKebabSep(b)
    ensures DashSeparators([a, '-', b] + u) == [a, '-', b] + DashSeparators(u)
  {
    var t1 := [b] + u;
    var t2 := ['-'] + t1;
    assert [a, '-', b] + u == [a] + t2;
    DashSeparatorsKeep(b, u);
    DashSeparatorsKeep('-', t1);
    DashSeparatorsKeep(a, t2);
    var d := DashSeparators(u);
    assert [a] + (['-'] + ([b] + d)) == [a, '-', b] + d;
  }

  lemma {:induction false} LowerHump(a: char, b: char, d: string)
    requires IsLower(a)
    ensures var r := ToLower([a, '-', b] + d); |r| >= 3 && r[..3] == [a, '-', LowerChar(b)]
  {
  }

  /** A lower-case letter followed by an upper-case one gets a dash between them. */
  lemma {:induction false} KebabSplitsCamelHump(a: char, b: char, rest: string)
    requires IsLower(a) && IsUpper(b)
    ensures var r := ToKebabCase([a, b] + rest); |r| >= 3 && r[..3] == [a, '-', LowerChar(b)]
  {
    SplitCamelHump(a, b, rest);
    DashSeparatorsHump(a, b, SplitCamel(rest));
    LowerHump(a, b, DashSeparators(SplitCamel(rest)));
  }

  // ---------------------------------------------------- toCamelCase, toPascalCase

  /** The characters `.` does not match in a JavaScript regular expression. */
  predicate IsLineTerminator(c: char) {
    c == '\n' || c == '\r' || c as int == 0x2028 || c as int == 0x2029
  }

  /** The length of the run of non-alphanumeric characters at the head of `s`. */
  function SeparatorRun(s: string): (n: nat)
    ensures n <= |s| && (n < |s| ==> IsAlnum(s[n]))
    ensures forall i :: 0 <= i < n ==> !IsAlnum(s[i])
  {
    if s == [] || IsAlnum(s[0]) then 0 else 1 + SeparatorRun(s[1..])
  }

  /** The last index from 1 on whose character `.` matches, if any. */
  function LastMatchable(s: string): (k: Option<nat>)
    ensures k.Some? ==> 1 <= k.value < |s| && !IsLineTerminator(s[k.value])
    ensures k.Some? ==> forall i :: k.value < i < |s| ==> IsLineTerminator(s[i])
    ensures k.None? ==> forall i :: 1 <= i < |s| ==> IsLineTerminator(s[i])
    decreases |s|
  {
    if |s| <= 1 then None
    else if !IsLineTerminator(s[|s| - 1]) then Some(|s| - 1)
    else LastMatchable(s[..|s| - 1])
  }

  /**
   * `.replace(/[^a-zA-Z0-9]+(.)/g, (_, char) => char.toUpperCase())`. A run of
   * separators followed by a character is replaced by that character
   * upper-cased. A run that reaches the end backtracks so that `(.)` takes
   * the run's last character `.` matches, which drops the run before it.
   */
  function CamelPass(s: string): (r: string)
    decreases |s|
  {
    if s == [] then ""
    else if IsAlnum(s[0]) then [s[0]] + CamelPass(s[1..])
    else
      var q := SeparatorRun(s);
      if q < |s| then [UpperChar(s[q])] + CamelPass(s[q + 1..])
      else TrailingRun(s)
  }

  /** A separator run that reaches the end: `(.)` backtracks to the run's last character `.` matches. */
  function TrailingRun(s: string): string {
    match LastMatchable(s)
    case Some(k) => [UpperChar(s[k])] + s[k + 1..]
    case None => s
  }

  /** `.replace(/^[A-Z]/, (char) => char.toLowerCase())` */
  function FirstLower(s: string): (r: string)
    ensures |r| == |s| && (r != [] ==> !IsUpper(r[0]) && r[1..] == s[1..])
  {
    if s != [] && IsUpper(s[0]) then [LowerChar(s[0])] + s[1..] else s
  }

  /** `toCamelCase` */
  function ToCamelCase(s: string): string {
    FirstLower(CamelPass(s))
  }

  /** `toPascalCase`: the camel-case form with its first character upper-cased. */
  function ToPascalCase(s: string): (r: string)
    ensures |r| == |ToCamelCase(s)| && (r != [] ==> !IsLower(r[0]) && r[1..] == ToCamelCase(s)[1..])
  {
    var c := ToCamelCase(s);
    if c == [] then "" else [UpperChar(c[0])] + c[1..]
  }

  predicate AllAlnum(s: string) {
    forall i :: 0 <= i < |s| ==> IsAlnum(s[i])
  }

  /** When the input ends in a letter or digit, every separator run is gone from the camel-case form. */
  lemma {:induction false} CamelPassAlnum(s: string)
    requires s != [] ==> IsAlnum(s[|s| - 1])
    ensures AllAlnum(CamelPass(s))
    decreases |s|
  {
    if s != [] {
      if IsAlnum(s[0]) {
        CamelPassAlnum(s[1..]);
        AllAlnumCons(s[0], CamelPass(s[1..]));
      } else {
        var q := SeparatorRun(s);
        assert q < |s|;
        CamelPassAlnum(s[q + 1..]);
        CamelPassRun(s);
        AllAlnumCons(UpperChar(s[q]), CamelPass(s[q + 1..]));
      }
    }
  }

  /** A separator run followed by a character becomes that character upper-cased. */
  lemma {:induction false} CamelPassRun(s: string)
    requires s != [] && !IsAlnum(s[0]) && SeparatorRun(s) < |s|
    ensures CamelPass(s) == [UpperChar(s[SeparatorRun(s)])] + CamelPass(s[SeparatorRun(s) + 1..])
  {
  }

  lemma {:induction false} AllAlnumCons(c: char, t: string)
    requires IsAlnum(c) && AllAlnum(t)
    ensures AllAlnum([c] + t)
  {
    forall i | 0 < i < |[c] + t| ensures IsAlnum(([c] + t)[i]) {
      assert ([c] + t)[i] == t[i - 1];
    }
  }

  /** Letters and digits pass through unchanged. */
  lemma {:induction false} CamelPassIdentity(s: string)
    requires AllAlnum(s)
    ensures CamelPass(s) == s
  {
    if s != [] {
      CamelPassIdentity(s[1..]);
      assert [s[0]] + s[1..] == s;
    }
  }

  /** A word of letters and digits only changes the case of its first letter. */
  lemma {:induction false} AlnumCase(s: string)
    requires AllAlnum(s) && s != []
    ensures ToCamelCase(s) == [LowerChar(s[0])] + s[1..]
    ensures ToPascalCase(s) == [UpperChar(s[0])] + s[1..]
  {
    CamelPassIdentity(s);
  }

  /** Letters and digits in front of any text pass through unchanged. */
  lemma {:induction false} CamelWord(w: string, t: string)
    requires AllAlnum(w)
    ensures CamelPass(w + t) == w + CamelPass(t)
  {
    if w != [] {
      var s := w + t;
      assert s[0] == w[0] && s[1..] == w[1..] + t;
      CamelWord(w[1..], t);
      AppendAssoc3([w[0]], w[1..], CamelPass(t));
      assert [w[0]] + w[1..] == w;
    } else {
      assert w + t == t;
    }
  }

  /** A separator run before a letter or digit is dropped and the letter is upper-cased. */
  lemma {:induction false} CamelSeparator(sep: string, c: char, rest: string)
    requires sep != [] && (forall i :: 0 <= i < |sep| ==> !IsAlnum(sep[i])) && IsAlnum(c)
    ensures CamelPass(sep + [c] + rest) == [UpperChar(c)] + CamelPass(rest)
  {
    var s := sep + [c] + rest;
    assert s[|sep|] == c;
    assert forall i :: 0 <= i < |sep| ==> s[i] == sep[i];
    SeparatorRunBound(s, |sep|);
    assert s[|sep| + 1..] == rest;
  }

  /** Two words joined by a separator run become one camel-case word. */
  lemma {:induction false} CamelJoins(w: string, sep: string, c: char, rest: string)
    requires AllAlnum(w) && sep != [] && (forall i :: 0 <= i < |sep| ==> !IsAlnum(sep[i])) && IsAlnum(c)
    ensures CamelPass(w + sep + [c] + rest) == w + [UpperChar(c)] + CamelPass(rest)
  {
    assert w + sep + [c] + rest == w + (sep + [c] + rest);
    CamelWord(w, sep + [c] + rest);
    CamelSeparator(sep, c, rest);
    AppendAssoc3(w, [UpperChar(c)], CamelPass(rest));
  }

  lemma {:induction false} SeparatorRunBound(s: string, n: nat)
    requires n <= |s| && forall i :: 0 <= i < n ==> !IsAlnum(s[i])
    ensures SeparatorRun(s) >= n
  {
    if n > 0 {
      SeparatorRunBound(s[1..], n - 1);
    }
  }

  // ---------------------------------------------------- numberStringGenerator

  newtype byte = x: int | 0 <= x < 256

  const LetterSet := "abcdefghijklmnopqrstuvwxyz"
  const NumberSet := "0123456789"
  const SpecialSet := "!@#$%^&*()_+-=[]{}|;:,.<>?/"
  const EmptyCharsetMessage := "At least one character set must be enabled."

  datatype OutputOption = OutputOption(letters: Option<bool>, numeric: Option<bool>, special: Option<bool>, exclude: Option<seq<string>>)

  /** The character sets the options switch on: letters and digits unless turned off, specials only when turned on. */
  function BaseCharset(opt: Option<OutputOption>): (cs: string)
    ensures opt.None? ==> cs == LetterSet + NumberSet
  {
    var letters := opt.None? || opt.value.letters.GetOr(true);
    var numeric := opt.None? || opt.value.numeric.GetOr(true);
    var special := opt.Some? && opt.value.special.GetOr(false);
    (if letters then LetterSet else "") + (if numeric then NumberSet else "") + (if special then SpecialSet else "")
  }

  /** The characters of `cs` that `exclude` does not list, in order. */
  function Exclude(cs: string, exclude: seq<string>): (r: string)
    ensures forall i :: 0 <= i < |r| ==> r[i] in cs && [r[i]] !in exclude
    ensures forall c :: c in cs && [c] !in exclude ==> c in r
  {
    if cs == [] then ""
    else (if [cs[0]] in exclude then "" else [cs[0]]) + Exclude(cs[1..], exclude)
  }

  /** The charset after a non-empty `exclude` list has been applied. */
  function Charset(opt: Option<OutputOption>): string {
    var cs := BaseCharset(opt);
    if opt.Some? && opt.value.exclude.Some? && |opt.value.exclude.value| > 0 then Exclude(cs, opt.value.exclude.value)
    else cs
  }

  function Cased(isCapitalized: bool, s: string): (r: string)
    ensures |r| == |s|
  {
    if isCapitalized then ToUpper(s) else ToLower(s)
  }

  function CasedChar(isCapitalized: bool, c: char): char {
    if isCapitalized then UpperChar(c) else LowerChar(c)
  }

  /** `s` repeated `n` times. */
  function Repeat(s: string, n: nat): (r: string)
    ensures |r| == n * |s|
  {
    if n == 0 then "" else Repeat(s, n - 1) + s
  }

  /**
   * The loop of `numberStringGenerator`: one character per random byte,
   * `charset[byte % charset.length]`. On an empty charset the index is NaN
   * and every step appends the string "undefined".
   */
  method PickChars(charset: string, bytes: seq<byte>) returns (result: string)
    ensures charset != [] ==> (|result| == |bytes| &&
              forall i :: 0 <= i < |bytes| ==> result[i] == charset[bytes[i] as int % |charset|])
    ensures charset == [] ==> result == Repeat("undefined", |bytes|)
  {
    result := "";
    var i := 0;
    while i < |bytes|
      invariant 0 <= i <= |bytes|
      invariant charset != [] ==> (|result| == i &&
                  forall k :: 0 <= k < i ==> result[k] == charset[bytes[k] as int % |charset|])
      invariant charset == [] ==> result == Repeat("undefined", i)
    {
      if charset != [] {
        result := result + [charset[bytes[i] as int % |charset|]];
      } else {
        result := result + "undefined";
      }
      i := i + 1;
    }
  }

  /**
   * `numberStringGenerator` as written, with the random bytes as a parameter.
   * The empty-charset check runs before `exclude` is applied, so an `exclude`
   * list that removes every character is not caught.
   */
  method NumberStringGeneratorAsWritten(characterLength: nat, outputOption: Option<OutputOption>, isCapitalized: bool, bytes: seq<byte>)
    returns (r: Result<string, string>)
    requires |bytes| == characterLength
    ensures BaseCharset(outputOption) == [] <==> r == Err(EmptyCharsetMessage)
    ensures r.Ok? && Charset(outputOption) == [] ==> r.value == Cased(isCapitalized, Repeat("undefined", characterLength))
    ensures r.Ok? && Charset(outputOption) != [] ==>
              var cs := Charset(outputOption);
              |r.value| == characterLength &&
              forall i :: 0 <= i < characterLength ==> r.value[i] == CasedChar(isCapitalized, cs[bytes[i] as int % |cs|])
  {
    if BaseCharset(outputOption) == [] {
      return Err(EmptyCharsetMessage);
    }
    var picked := PickChars(Charset(outputOption), bytes);
    r := Ok(Cased(isCapitalized, picked));
  }

  lemma {:induction false} ExcludeAll(cs: string, exclude: seq<string>)
    requires forall i :: 0 <= i < |cs| ==> [cs[i]] in exclude
    ensures Exclude(cs, exclude) == []
  {
    if cs != [] {
      assert [cs[0]] in exclude;
      ExcludeAll(cs[1..], exclude);
    }
  }

  const Digits: seq<string> := ["0", "1", "2", "3", "4", "5", "6", "7", "8", "9"]

  /** Excluding every digit from a digits-only charset leaves nothing to pick from, yet passes the emptiness check. */
  lemma {:induction false} ExcludeEverything()
    ensures var opt := Some(OutputOption(Some(false), None, None, Some(Digits)));
      BaseCharset(opt) != [] && Charset(opt) == []
  {
    var opt := Some(OutputOption(Some(false), None, None, Some(Digits)));
    assert Charset(opt) == [] by {
      assert BaseCharset(opt) == NumberSet;
      assert Charset(opt) == Exclude(NumberSet, Digits);
      assert Exclude(NumberSet, Digits) == [] by {
        DigitsListed();
        ExcludeAll(NumberSet, Digits);
      }
    }
    assert BaseCharset(opt) != [] by {
      assert BaseCharset(opt) == NumberSet;
    }
  }

  /** Each digit of `NumberSet`, as a one-character string, is in `Digits`. */
  lemma {:induction false} DigitsListed()
    ensures forall i :: 0 <= i < |NumberSet| ==> [NumberSet[i]] in Digits
  {
    assert forall i :: 0 <= i < |NumberSet| ==> [NumberSet[i]] == Digits[i];
  }

  /** Each "undefined" pick is nine characters long: the as-written output is nine times the requested length. */
  lemma {:induction false} UndefinedPicksTooLong(n: nat, isCapitalized: bool)
    requires n > 0
    ensures |Cased(isCapitalized, Repeat("undefined", n))| == 9 * n != n
  {
  }

  /**
   * `numberStringGenerator` with the emptiness check applied to the charset
   * actually drawn from: an empty charset throws, otherwise the result has
   * exactly `characterLength` characters, each drawn from the charset.
   */
  method NumberStringGenerator(characterLength: nat, outputOption: Option<OutputOption>, isCapitalized: bool, bytes: seq<byte>)
    returns (r: Result<string, string>)
    requires |bytes| == characterLength
    ensures Charset(outputOption) == [] <==> r == Err(EmptyCharsetMessage)
    ensures r.Ok? ==>
              var cs := Charset(outputOption);
              |r.value| == characterLength &&
              (forall i :: 0 <= i < characterLength ==> r.value[i] == CasedChar(isCapitalized, cs[bytes[i] as int % |cs|])) &&
              forall i :: 0 <= i < characterLength ==> r.value[i] in Cased(isCapitalized, cs)
  {
    var cs := Charset(outputOption);
    if cs == [] {
      return Err(EmptyCharsetMessage);
    }
    var picked := PickChars(cs, bytes);
    var out := Cased(isCapitalized, picked);
    forall i | 0 <= i < characterLength ensures out[i] in Cased(isCapitalized, cs) {
      var j := bytes[i] as int % |cs|;
      assert Cased(isCapitalized, cs)[j] == out[i];
    }
    r := Ok(out);
  }
}
