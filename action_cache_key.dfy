/**
 * `ActionCacheKey`: a cache key for one action, built from the action's
 * dotted name (`devProfile.get` becomes the prefix `devProfile:get`), an
 * optional owner, item segments and sorted parameters.
 */
module ActionCacheKeys {
  import opened Wrappers
  import opened JsValues
  import opened CacheParams
  import opened UrlEncoding

  // --------------------------------------------------------------- validation

  /** `[a-zA-Z-]` */
  predicate WordChar(c: char) {
    ('a' <= c <= 'z') || ('A' <= c <= 'Z') || c == '-'
  }

  /** The length of the run of word characters at the start of `s`. */
  function WordRun(s: string): (n: nat)
    ensures n <= |s|
    ensures forall i :: 0 <= i < n ==> WordChar(s[i])
    ensures n < |s| ==> !WordChar(s[n])
  {
    if s != [] && WordChar(s[0]) then 1 + WordRun(s[1..]) else 0
  }

  /** `(\.[a-zA-Z-]+)+$`: one or more dot-word groups up to the end. */
  predicate MatchesGroups(t: string)
    decreases |t|
  {
    t != [] && t[0] == '.' &&
    var m := WordRun(t[1..]);
    m > 0 && (1 + m == |t| || MatchesGroups(t[1 + m..]))
  }

  /**
   * `^[a-zA-Z-]+(\.[a-zA-Z-]+)+$`. Word characters never include the dot,
   * so taking the longest run of word characters at each step is the only
   * way to match.
   */
  predicate ValidAction(s: string) {
    var n := WordRun(s);
    n > 0 && MatchesGroups(s[n..])
  }

  /** Dot-separated words, said character by character. */
  predicate DottedWords(s: string) {
    s != [] && s[0] != '.' && s[|s| - 1] != '.' && '.' in s &&
    (forall i :: 0 <= i < |s| ==> WordChar(s[i]) || s[i] == '.') &&
    (forall i :: 0 < i < |s| ==> !(s[i - 1] == '.' && s[i] == '.'))
  }

  /** The groups part, character by character: a dot first, a word character last, no two dots together. */
  predicate GroupsShape(t: string) {
    t != [] && t[0] == '.' && t[|t| - 1] != '.' &&
    (forall i :: 0 <= i < |t| ==> WordChar(t[i]) || t[i] == '.') &&
    (forall i :: 0 < i < |t| ==> !(t[i - 1] == '.' && t[i] == '.'))
  }

  lemma {:induction false} GroupsSound(t: string)
    requires MatchesGroups(t)
    ensures GroupsShape(t)
    decreases |t|
  {
    var m := WordRun(t[1..]);
    if 1 + m < |t| {
      var u := t[1 + m..];
      GroupsSound(u);
      assert forall i :: 0 <= i < |u| ==> u[i] == t[1 + m + i];
      forall i | 0 < i < |t| ensures !(t[i - 1] == '.' && t[i] == '.') {
        if i > 1 + m {
          assert t[i - 1] == u[i - 2 - m] && t[i] == u[i - 1 - m];
        } else {
          assert t[i] == t[1..][i - 1];
        }
      }
      forall i | 0 <= i < |t| ensures WordChar(t[i]) || t[i] == '.' {
        if i > m {
          assert t[i] == u[i - 1 - m];
        } else if i > 0 {
          assert t[i] == t[1..][i - 1];
        }
      }
    } else {
      forall i | 0 < i < |t| ensures WordChar(t[i]) {
        assert t[i] == t[1..][i - 1];
      }
    }
  }

  lemma {:induction false} GroupsComplete(t: string)
    requires GroupsShape(t)
    ensures MatchesGroups(t)
    decreases |t|
  {
    var m := WordRun(t[1..]);
    if 1 + m < |t| {
      var u := t[1 + m..];
      assert t[1 + m] == t[1..][m];
      assert forall i :: 0 <= i < |u| ==> u[i] == t[1 + m + i];
      GroupsComplete(u);
    }
  }

  /** The name check accepts exactly the names made of two or more dot-separated words. */
  lemma {:induction false} ValidActionIff(s: string)
    ensures ValidAction(s) <==> DottedWords(s)
  {
    if ValidAction(s) {
      ValidActionSound(s);
    }
    if DottedWords(s) {
      ValidActionComplete(s);
    }
  }

  lemma {:induction false} ValidActionSound(s: string)
    requires ValidAction(s)
    ensures DottedWords(s)
  {
    var n := WordRun(s);
    var t := s[n..];
    GroupsSound(t);
    assert t[0] == s[n];
    assert forall i :: n <= i < |s| ==> s[i] == t[i - n];
    assert s[|s| - 1] == t[|t| - 1];
  }

  lemma {:induction false} ValidActionComplete(s: string)
    requires DottedWords(s)
    ensures ValidAction(s)
  {
    var n := WordRun(s);
    var t := s[n..];
    assert n > 0;
    assert forall i :: 0 <= i < |t| ==> t[i] == s[n + i];
    assert GroupsShape(t);
    GroupsComplete(t);
  }

  /** `devProfile.get` is a valid name. */
  lemma {:induction false} ExampleValidName()
    ensures ValidAction("devProfile.get")
  {
    var s := "devProfile.get";
    assert DottedWords(s) by {
      assert s[10] == '.';
    }
    ValidActionIff(s);
  }

  /** `myAction` has no dot and is rejected. */
  lemma {:induction false} ExampleInvalidName()
    ensures !ValidAction("myAction")
  {
    var s := "myAction";
    assert '.' !in s;
    ValidActionIff(s);
  }

  // ------------------------------------------------------------------ prefix

  /** `input.replaceAll('.', ':')` */
  function DotToColon(s: string): (r: string)
    ensures |r| == |s|
    ensures forall i :: 0 <= i < |s| ==> r[i] == if s[i] == '.' then ':' else s[i]
  {
    seq(|s|, i requires 0 <= i < |s| => if s[i] == '.' then ':' else s[i])
  }

  /** `s.split(':')[0]`: the text before the first colon. */
  function FirstPart(s: string): (r: string)
    ensures |r| <= |s| && r == s[..|r|]
    ensures ':' !in r
    ensures |r| < |s| ==> s[|r|] == ':'
  {
    if s == [] || s[0] == ':' then "" else [s[0]] + FirstPart(s[1..])
  }

  /** The module tag of a valid name is its first word. */
  lemma {:induction false} ModuleTagIsFirstWord(action: string)
    requires ValidAction(action)
    ensures FirstPart(DotToColon(action)) == action[..WordRun(action)]
  {
    var p := DotToColon(action);
    var n := WordRun(action);
    var r := FirstPart(p);
    assert action[n..][0] == '.';
    assert p[n] == ':';
    forall i | 0 <= i < n ensures p[i] == action[i] && p[i] != ':' {
    }
    assert |r| == n;
    assert r == p[..n];
  }

  // ----------------------------------------------------------------- the key

  /** `:${owner}` when an owner is set and non-empty, otherwise nothing. */
  function OwnerSegment(owner: Option<string>): (r: string)
    ensures r == "" <==> owner.None? || owner.value == ""
  {
    if owner.Some? && owner.value != "" then ":" + owner.value else ""
  }

  /** `:${segments.join(':')}` when there are segments, otherwise nothing. */
  function SegmentString(segments: seq<string>): (r: string)
    ensures segments == [] <==> r == ""
  {
    if segments == [] then "" else ":" + Join(segments, ":")
  }

  /** `toString()`: the base key, then `:` and the parameter string when there are parameters. */
  function RenderKey(prefix: string, owner: Option<string>, segments: seq<string>, parameters: seq<Field>): string {
    var baseKey := prefix + OwnerSegment(owner) + SegmentString(segments);
    if parameters == [] then baseKey else baseKey + ":" + ParamString(parameters)
  }

  /** `ownerTag`: the module tag and the owner segment when there is an owner, otherwise the prefix. */
  function OwnerTag(prefix: string, owner: Option<string>): (r: string)
    ensures OwnerSegment(owner) != "" ==> r == FirstPart(prefix) + ":" + owner.value
    ensures OwnerSegment(owner) == "" ==> r == prefix
  {
    if OwnerSegment(owner) != "" then FirstPart(prefix) + OwnerSegment(owner) else prefix
  }

  /** Without parameters the key is the prefix, then the owner, then the segments, each after a colon. */
  lemma {:induction false} KeyWithoutParams(prefix: string, owner: string, segments: seq<string>)
    requires owner != "" && segments != []
    ensures RenderKey(prefix, Some(owner), segments, []) == prefix + ":" + owner + ":" + Join(segments, ":")
    ensures RenderKey(prefix, None, segments, []) == prefix + ":" + Join(segments, ":")
    ensures RenderKey(prefix, None, [], []) == prefix
  {
    var j := Join(segments, ":");
    assert OwnerSegment(Some(owner)) == ":" + owner;
    assert SegmentString(segments) == ":" + j;
    assert prefix + (":" + owner) + (":" + j) == prefix + ":" + owner + ":" + j;
    assert prefix + "" + (":" + j) == prefix + ":" + j;
    assert prefix + "" + "" == prefix;
  }

  /** Parameter names free of `:` leave the parameter string free of it: the values are URI-encoded. */
  lemma {:induction false} ParamStringNoColon(ps: seq<Field>)
    requires forall i :: 0 <= i < |ps| ==> ':' !in ps[i].0
    ensures ':' !in ParamString(ps)
  {
    var parts := ParamParts(ps);
    forall i | 0 <= i < |parts|
      ensures ':' !in parts[i]
    {
      NoDelimiters(SerializeValue(ps[i].1));
    }
    JoinAvoids(parts, "&", ':');
  }

  /**
   * With parameters the key is the key without them, `:` and the `k=v&k=v`
   * string; when no parameter name holds a colon the key splits back at its
   * last colon, so two such keys are equal exactly when their keys without
   * parameters and their parameter strings are.
   */
  lemma {:induction false} KeyWithParamsSplits(prefix1: string, owner1: Option<string>, segments1: seq<string>, ps1: seq<Field>,
                                               prefix2: string, owner2: Option<string>, segments2: seq<string>, ps2: seq<Field>)
    requires ps1 != [] && ps2 != []
    requires forall i :: 0 <= i < |ps1| ==> ':' !in ps1[i].0
    requires forall i :: 0 <= i < |ps2| ==> ':' !in ps2[i].0
    ensures RenderKey(prefix1, owner1, segments1, ps1) ==
            RenderKey(prefix1, owner1, segments1, []) + ":" + ParamString(ps1)
    ensures RenderKey(prefix1, owner1, segments1, ps1) == RenderKey(prefix2, owner2, segments2, ps2) <==>
            RenderKey(prefix1, owner1, segments1, []) == RenderKey(prefix2, owner2, segments2, []) &&
            ParamString(ps1) == ParamString(ps2)
  {
    var b1, b2 := RenderKey(prefix1, owner1, segments1, []), RenderKey(prefix2, owner2, segments2, []);
    ParamStringNoColon(ps1);
    ParamStringNoColon(ps2);
    if RenderKey(prefix1, owner1, segments1, ps1) == RenderKey(prefix2, owner2, segments2, ps2) {
      SplitAtLast(b1, ParamString(ps1), b2, ParamString(ps2), ':');
    }
  }

  /** `devProfile.get` has the prefix `devProfile:get`. */
  lemma {:induction false} ExamplePrefix()
    ensures DotToColon("devProfile.get") == "devProfile:get"
  {
  }

  class ActionCacheKey {
    var segments: seq<string>
    var parameters: seq<Field>
    var ownerParam: Option<string>
    var prefix: string

    /** The constructor after validation: no segments, parameters or owner yet. */
    constructor(action: string)
      requires ValidAction(action)
      ensures prefix == DotToColon(action)
      ensures segments == [] && parameters == [] && ownerParam.None?
    {
      segments := [];
      parameters := [];
      ownerParam := None;
      prefix := DotToColon(action);
    }

    /** `owner(input)`: replaces any earlier owner. */
    method Owner(input: string) returns (self: ActionCacheKey)
      modifies this
      ensures ownerParam == Some(input) && self == this
      ensures segments == old(segments) && parameters == old(parameters) && prefix == old(prefix)
    {
      ownerParam := Some(input);
      self := this;
    }

    /** `single(itemId)`: appends `String(itemId)` as a segment. */
    method Single(itemId: Js) returns (self: ActionCacheKey)
      requires itemId.Str? || itemId.Num?
      modifies this
      ensures segments == old(segments) + [ToStr(itemId)] && self == this
      ensures parameters == old(parameters) && ownerParam == old(ownerParam) && prefix == old(prefix)
    {
      segments := segments + [ToStr(itemId)];
      self := this;
    }

    /** `listParams(batch)`: merges the sorted batch over the parameters so far. */
    method ListParams(batch: seq<Field>) returns (self: ActionCacheKey)
      modifies this
      ensures parameters == MergeParams(old(parameters), batch) && self == this
      ensures segments == old(segments) && ownerParam == old(ownerParam) && prefix == old(prefix)
    {
      parameters := MergeParams(parameters, batch);
      self := this;
    }

    /** `toString()`: the key begins with the action's colon prefix. */
    function ToString(): (r: string)
      reads this
      ensures |prefix| <= |r| && r[..|prefix|] == prefix
    {
      RenderKey(prefix, ownerParam, segments, parameters)
    }

    /** `ownerTag` */
    function OwnerTagOf(): string
      reads this
    {
      OwnerTag(prefix, ownerParam)
    }

    /** `moduleTag`: the prefix up to the first colon. */
    function ModuleTag(): string
      reads this
    {
      FirstPart(prefix)
    }
  }

  /** `new ActionCacheKey(action)`: fails (the schema's parse error) unless the name is dot-separated words. */
  method NewActionCacheKey(action: string) returns (r: Result<ActionCacheKey, string>)
    ensures r.Ok? <==> ValidAction(action)
    ensures r.Ok? ==> fresh(r.value) && r.value.prefix == DotToColon(action)
    ensures r.Ok? ==> r.value.segments == [] && r.value.parameters == [] && r.value.ownerParam.None?
  {
    if ValidAction(action) {
      var k := new ActionCacheKey(action);
      r := Ok(k);
    } else {
      r := Err("invalid action name");
    }
  }
}
