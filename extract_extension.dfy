/** File-name extensions and the MIME types uploaded assets are stored with. */
module Extensions {
  import opened Wrappers
  import opened JsValues
  import opened StringUtils

  /** `s.lastIndexOf(c)`: the last index holding `c`, or -1. */
  function LastIndexOf(s: string, c: char): (r: int)
    ensures -1 <= r < |s|
    ensures r == -1 <==> c !in s
    ensures r >= 0 ==> s[r] == c && forall i :: r < i < |s| ==> s[i] != c
  {
    if s == [] then -1
    else if s[|s| - 1] == c then |s| - 1
    else LastIndexOf(s[..|s| - 1], c)
  }

  /**
   * `extractExtension(filename)`: the text after the last dot, lower-cased;
   * empty when there is no dot or the only dot that counts is the first character.
   */
  function ExtractExtension(filename: string): (r: string)
    ensures LastIndexOf(filename, '.') <= 0 ==> r == ""
    ensures LastIndexOf(filename, '.') > 0 ==> r == ToLower(filename[LastIndexOf(filename, '.') + 1..])
    ensures '.' !in r
  {
    var lastDotIndex := LastIndexOf(filename, '.');
    if lastDotIndex == -1 || lastDotIndex == 0 then ""
    else
      var tail := filename[lastDotIndex + 1..];
      assert forall i :: 0 <= i < |tail| ==> tail[i] == filename[lastDotIndex + 1 + i];
      ToLower(tail)
  }

  /** A name made of a non-empty stem, a dot and a dot-free extension yields that extension, lower-cased. */
  lemma {:induction false} ExtensionOfName(stem: string, ext: string)
    requires stem != [] && '.' !in ext
    ensures ExtractExtension(stem + "." + ext) == ToLower(ext)
  {
    var f := stem + "." + ext;
    assert f[|stem|] == '.';
    assert forall i :: |stem| < i < |f| ==> f[i] == ext[i - |stem| - 1];
    var k := LastIndexOf(f, '.');
    assert k == |stem|;
    assert f[k + 1..] == ext;
  }

  /** The file names that have no extension. */
  lemma {:induction false} NoExtension(filename: string)
    requires '.' !in filename || (filename != [] && filename[0] == '.' && '.' !in filename[1..])
    ensures ExtractExtension(filename) == ""
  {
  }

  /** `s.replace(c, '')` with a one-character pattern: only the first occurrence goes. */
  function RemoveFirst(s: string, c: char): (r: string)
    ensures c !in s ==> r == s
  {
    if s == [] then ""
    else if s[0] == c then s[1..]
    else [s[0]] + RemoveFirst(s[1..], c)
  }

  /** The MIME table's own entries. */
  function MimeOf(ext: string): Option<string> {
    if ext == "jpg" || ext == "jpeg" then Some("image/jpeg")
    else if ext == "png" then Some("image/png")
    else if ext == "gif" then Some("image/gif")
    else if ext == "mp4" then Some("video/mp4")
    else if ext == "mov" then Some("video/quicktime")
    else if ext == "webm" then Some("video/webm")
    else if ext == "pdf" then Some("application/pdf")
    else if ext == "txt" then Some("text/plain")
    else None
  }

  const DefaultContentType := "application/octet-stream"

  /**
   * `getContentType(extension)` as written: `types[ext]` on an object
   * literal also finds what every object inherits, so `constructor` yields
   * the `Object` function and `__proto__` the prototype object, both truthy.
   */
  function GetContentTypeAsWritten(extension: string): (r: Js)
    ensures MimeOf(RemoveFirst(ToLower(extension), '.')).Some? ==>
              r == Str(MimeOf(RemoveFirst(ToLower(extension), '.')).value)
  {
    var ext := RemoveFirst(ToLower(extension), '.');
    match MimeOf(ext)
    case Some(m) => Str(m)
    case None =>
      if ext == "__proto__" then Obj([])
      else if ext in ObjectPrototypeKeys then Fn(0)
      else Str(DefaultContentType)
  }

  /** A file named `x.constructor` gets a function, not a string, as its content type. */
  lemma {:induction false} InheritedKeyIsNotAType()
    ensures ExtractExtension("x.constructor") == "constructor"
    ensures !GetContentTypeAsWritten("constructor").Str?
  {
    ExtensionOfName("x", "constructor");
    assert "x" + "." + "constructor" == "x.constructor";
    LowerWord();
    NotInTable();
  }

  lemma {:induction false} LowerWord()
    ensures ToLower("constructor") == "constructor"
  {
    var w := "constructor";
    assert forall i :: 0 <= i < |w| ==> IsLower(w[i]);
  }

  lemma {:induction false} NotInTable()
    ensures RemoveFirst("constructor", '.') == "constructor"
    ensures MimeOf("constructor").None? && "constructor" in ObjectPrototypeKeys
  {
    var w := "constructor";
    assert forall i :: 0 <= i < |w| ==> w[i] != '.';
    NoMimeForLongNames(w);
    ConstructorInherited();
  }

  lemma {:induction false} NoMimeForLongNames(w: string)
    requires |w| > 4
    ensures MimeOf(w).None?
  {
  }

  lemma {:induction false} ConstructorInherited()
    ensures "constructor" in ObjectPrototypeKeys
  {
  }

  /** `getContentType` reading only the table's own entries: every other extension is the default type. */
  function GetContentType(extension: string): (r: string)
    ensures MimeOf(RemoveFirst(ToLower(extension), '.')).Some? ==> r == MimeOf(RemoveFirst(ToLower(extension), '.')).value
    ensures MimeOf(RemoveFirst(ToLower(extension), '.')).None? ==> r == DefaultContentType
  {
    MimeOf(RemoveFirst(ToLower(extension), '.')).GetOr(DefaultContentType)
  }

  /** Where the table has an entry, the correction agrees with the code as written. */
  lemma {:induction false} ContentTypeAgrees(extension: string)
    requires MimeOf(RemoveFirst(ToLower(extension), '.')).Some? || RemoveFirst(ToLower(extension), '.') !in ObjectPrototypeKeys + {"__proto__"}
    ensures GetContentTypeAsWritten(extension) == Str(GetContentType(extension))
  {
  }

  lemma {:induction false} LowerUpper(s: string)
    ensures ToLower(ToUpper(s)) == ToLower(s)
  {
    assert forall i :: 0 <= i < |s| ==> LowerChar(UpperChar(s[i])) == LowerChar(s[i]);
  }

  /** The lookup ignores case. */
  lemma {:induction false} ContentTypeIgnoresCase(extension: string)
    ensures GetContentType(ToUpper(extension)) == GetContentType(extension)
  {
    LowerUpper(extension);
  }

  /** A leading dot is ignored. */
  lemma {:induction false} ContentTypeIgnoresDot(extension: string)
    requires '.' !in extension
    ensures GetContentType("." + extension) == GetContentType(extension)
  {
    var l := ToLower("." + extension);
    assert l[0] == '.' && l[1..] == ToLower(extension);
    assert '.' !in ToLower(extension) by {
      assert forall i :: 0 <= i < |extension| ==> ToLower(extension)[i] == LowerChar(extension[i]);
    }
  }
}
