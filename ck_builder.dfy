/**
 * `CacheKeyBuilder`: a cache key of colon-joined segments that starts with
 * `module:version`, followed by `?` and sorted parameters when there are any.
 */
module CacheKeyBuilders {
  import opened Wrappers
  import opened JsValues
  import opened StringUtils
  import opened CacheParams

  /** The number of white-space characters at the start of `s`. */
  function LeadingSpaces(s: string): (n: nat)
    ensures n <= |s|
    ensures forall i :: 0 <= i < n ==> IsJsSpace(s[i])
    ensures n < |s| ==> !IsJsSpace(s[n])
  {
    if s != [] && IsJsSpace(s[0]) then 1 + LeadingSpaces(s[1..]) else 0
  }

  /** The number of white-space characters at the end of `s`. */
  function TrailingSpaces(s: string): (n: nat)
    ensures n <= |s|
    ensures forall i :: |s| - n <= i < |s| ==> IsJsSpace(s[i])
    ensures n < |s| ==> !IsJsSpace(s[|s| - 1 - n])
  {
    if s != [] && IsJsSpace(s[|s| - 1]) then 1 + TrailingSpaces(s[..|s| - 1]) else 0
  }

  /** `s.trim()`: the text between the leading and the trailing white space. */
  function Trim(s: string): (r: string)
    ensures r == "" || (!IsJsSpace(r[0]) && !IsJsSpace(r[|r| - 1]))
    ensures r == "" <==> forall i :: 0 <= i < |s| ==> IsJsSpace(s[i])
  {
    var n := LeadingSpaces(s);
    var t := s[n..];
    var m := TrailingSpaces(t);
    if n == |s| then
      assert t == [];
      []
    else
      assert t[0] == s[n] && !IsJsSpace(t[0]);
      assert m < |t|;
      var r := t[..|t| - m];
      assert r[0] == t[0] && r[|r| - 1] == t[|t| - 1 - m];
      r
  }

  /** Trimming twice is trimming once. */
  lemma {:induction false} TrimIdempotent(s: string)
    ensures Trim(Trim(s)) == Trim(s)
  {
    var r := Trim(s);
    if r != "" {
      assert LeadingSpaces(r) == 0;
      assert TrailingSpaces(r) == 0;
    }
  }

  const ModuleEmpty := "Module cannot be empty for CacheKeyBuilder."
  const VersionEmpty := "Version cannot be empty for CacheKeyBuilder."

  /** `segments.join(':')` */
  function JoinSegments(segments: seq<string>): string {
    Join(segments, ":")
  }

  /** `make()`: the joined segments, then `?` and the parameter string when there are parameters. */
  function MakeKey(segments: seq<string>, parameters: seq<Field>): string {
    if parameters == [] then JoinSegments(segments) else JoinSegments(segments) + "?" + ParamString(parameters)
  }

  lemma {:induction false} JoinAppend(a: seq<string>, b: seq<string>, sep: string)
    requires a != [] && b != []
    ensures Join(a + b, sep) == Join(a, sep) + sep + Join(b, sep)
  {
    if |a| == 1 {
      assert (a + b)[1..] == b;
    } else {
      JoinAppend(a[1..], b, sep);
      assert (a + b)[1..] == a[1..] + b;
      assert a[0] + sep + (Join(a[1..], sep) + sep + Join(b, sep)) ==
             a[0] + sep + Join(a[1..], sep) + sep + Join(b, sep);
    }
  }

  /** Keys built further from a prefix start with that prefix and a colon, which is what prefix invalidation relies on. */
  lemma {:induction false} PrefixCoversExtensions(segments: seq<string>, more: seq<string>, parameters: seq<Field>)
    requires segments != [] && more != []
    ensures var p := JoinSegments(segments) + ":";
      |p| <= |MakeKey(segments + more, parameters)| && MakeKey(segments + more, parameters)[..|p|] == p
  {
    JoinAppend(segments, more, ":");
    var p := JoinSegments(segments) + ":";
    var k := MakeKey(segments + more, parameters);
    assert JoinSegments(segments + more) == p + Join(more, ":");
    if parameters != [] {
      assert k == p + (Join(more, ":") + "?" + ParamString(parameters));
    }
  }

  class CacheKeyBuilder {
    var segments: seq<string>
    var parameters: seq<Field>

    /** The first segment is always there. */
    predicate Valid()
      reads this
    {
      segments != []
    }

    /** The constructor after its checks: the single segment `module:version`. */
    constructor(moduleName: string, version: string)
      ensures segments == [Trim(moduleName) + ":" + Trim(version)] && parameters == []
      ensures Valid()
    {
      segments := [Trim(moduleName) + ":" + Trim(version)];
      parameters := [];
    }

    /** `list()` */
    method List() returns (self: CacheKeyBuilder)
      modifies this
      ensures segments == old(segments) + ["list"] && parameters == old(parameters) && self == this
    {
      segments := segments + ["list"];
      self := this;
    }

    /** `single(itemId)` */
    method Single(itemId: Js) returns (self: CacheKeyBuilder)
      requires itemId.Str? || itemId.Num?
      modifies this
      ensures segments == old(segments) + ["single", ToStr(itemId)] && parameters == old(parameters) && self == this
    {
      segments := segments + ["single", ToStr(itemId)];
      self := this;
    }

    /** `userList(userId)` */
    method UserList(userId: Js) returns (self: CacheKeyBuilder)
      requires userId.Str? || userId.Num?
      modifies this
      ensures segments == old(segments) + ["user", ToStr(userId), "list"] && parameters == old(parameters) && self == this
    {
      segments := segments + ["user", ToStr(userId), "list"];
      self := this;
    }

    /** `userPrefix(userId)` */
    method UserPrefix(userId: Js) returns (self: CacheKeyBuilder)
      requires userId.Str? || userId.Num?
      modifies this
      ensures segments == old(segments) + ["user", ToStr(userId)] && parameters == old(parameters) && self == this
    {
      segments := segments + ["user", ToStr(userId)];
      self := this;
    }

    /** `userSingle(userId, itemId)` */
    method UserSingle(userId: Js, itemId: Js) returns (self: CacheKeyBuilder)
      requires (userId.Str? || userId.Num?) && (itemId.Str? || itemId.Num?)
      modifies this
      ensures segments == old(segments) + ["user", ToStr(userId), "single", ToStr(itemId)]
      ensures parameters == old(parameters) && self == this
    {
      segments := segments + ["user", ToStr(userId), "single", ToStr(itemId)];
      self := this;
    }

    /** `params(batch)`: merges the sorted batch over the parameters so far. */
    method Params(batch: seq<Field>) returns (self: CacheKeyBuilder)
      modifies this
      ensures parameters == MergeParams(old(parameters), batch) && segments == old(segments) && self == this
    {
      parameters := MergeParams(parameters, batch);
      self := this;
    }

    /** `make()`: the prefix begins the key, and is the whole key exactly when there are no parameters. */
    function Make(): (r: string)
      reads this
      ensures |GetPrefix()| <= |r| && r[..|GetPrefix()|] == GetPrefix()
      ensures r == GetPrefix() <==> parameters == []
    {
      MakeKey(segments, parameters)
    }

    /** `getPrefix()` */
    function GetPrefix(): string
      reads this
    {
      JoinSegments(segments)
    }

    /** `getVersionedPrefix()`: the first segment, which begins every key the builder makes. */
    function GetVersionedPrefix(): (r: string)
      reads this
      requires Valid()
      ensures |r| <= |Make()| && Make()[..|r|] == r
    {
      VersionedPrefixFirst(segments, parameters);
      segments[0]
    }
  }

  /**
   * `new CacheKeyBuilder(module, version = 'v1')`: fails when the module or
   * the version is empty or blank; otherwise the key starts with the trimmed
   * `module:version`.
   */
  method NewCacheKeyBuilder(moduleName: string, version: Option<string>) returns (r: Result<CacheKeyBuilder, string>)
    ensures Trim(moduleName) == "" ==> r == Err(ModuleEmpty)
    ensures Trim(moduleName) != "" && Trim(version.GetOr("v1")) == "" ==> r == Err(VersionEmpty)
    ensures r.Ok? <==> Trim(moduleName) != "" && Trim(version.GetOr("v1")) != ""
    ensures r.Ok? ==> fresh(r.value) && r.value.Valid() && r.value.parameters == []
    ensures r.Ok? ==> r.value.segments == [Trim(moduleName) + ":" + Trim(version.GetOr("v1"))]
  {
    var v := version.GetOr("v1");
    if moduleName == "" || Trim(moduleName) == "" {
      r := Err(ModuleEmpty);
    } else if v == "" || Trim(v) == "" {
      r := Err(VersionEmpty);
    } else {
      var b := new CacheKeyBuilder(moduleName, v);
      r := Ok(b);
    }
  }

  /**
   * Without parameters `make()` is the joined segments; with parameters it
   * is followed by `?` and the parameter string. When no segment holds a
   * `?` the key splits back at its first `?`, so two such keys are equal
   * exactly when their segments join alike and their parameter strings
   * agree (both absent, or both present and equal).
   */
  lemma {:induction false} MakeKeySplits(segments1: seq<string>, parameters1: seq<Field>,
                                         segments2: seq<string>, parameters2: seq<Field>)
    requires '?' !in JoinSegments(segments1) && '?' !in JoinSegments(segments2)
    ensures parameters1 == [] ==> MakeKey(segments1, parameters1) == JoinSegments(segments1)
    ensures parameters1 != [] ==> MakeKey(segments1, parameters1) == JoinSegments(segments1) + "?" + ParamString(parameters1)
    ensures MakeKey(segments1, parameters1) == MakeKey(segments2, parameters2) <==>
            JoinSegments(segments1) == JoinSegments(segments2) && (parameters1 == [] <==> parameters2 == []) &&
            (parameters1 != [] ==> ParamString(parameters1) == ParamString(parameters2))
  {
    var j1, j2 := JoinSegments(segments1), JoinSegments(segments2);
    var k1, k2 := MakeKey(segments1, parameters1), MakeKey(segments2, parameters2);
    if parameters1 != [] {
      assert k1[|j1|] == '?';
    }
    if parameters2 != [] {
      assert k2[|j2|] == '?';
    }
    if k1 == k2 && parameters1 != [] && parameters2 != [] {
      SplitAtFirst(j1, ParamString(parameters1), j2, ParamString(parameters2), '?');
    }
  }

  /** The versioned prefix begins every key the builder makes. */
  lemma {:induction false} VersionedPrefixFirst(segments: seq<string>, parameters: seq<Field>)
    requires segments != []
    ensures |segments[0]| <= |MakeKey(segments, parameters)| && MakeKey(segments, parameters)[..|segments[0]|] == segments[0]
  {
    if |segments| > 1 {
      PrefixCoversExtensions([segments[0]], segments[1..], parameters);
      assert [segments[0]] + segments[1..] == segments;
    }
  }
}
