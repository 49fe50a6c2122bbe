/**
 * Helpers that render the segments of an agent's instructions: the list
 * normaliser and the table of labels and transforms per segment.
 */
module AiHelpers {
  import opened Wrappers
  import opened JsValues
  import opened StringUtils

  /** The keys an instruction input may carry. */
  datatype Segment =
    | Identity | Rules | Procedure | Writing | Backstory | Extras | Instructions
    | Constraints | Examples | Goal | InternalNotes | IncludeGlobalContext | OutputStructure

  function SegmentKey(seg: Segment): string {
    match seg
    case Identity => "identity"
    case Rules => "rules"
    case Procedure => "procedure"
    case Writing => "writing"
    case Backstory => "backstory"
    case Extras => "extras"
    case Instructions => "instructions"
    case Constraints => "constraints"
    case Examples => "examples"
    case Goal => "goal"
    case InternalNotes => "internalNotes"
    case IncludeGlobalContext => "includeGlobalContext"
    case OutputStructure => "outputStructure"
  }

  /** The per-item formatter a caller may pass: item and index to line. */
  type MapFn = (Js, nat) -> string

  /** The line the default formatter writes for an item: `- ${item}`. */
  function Bullet(item: Js): string {
    "- " + ToStr(item)
  }

  /**
   * `normalizeStringStringArray(input, mapFn)`: an array becomes one formatted
   * line per item joined by newlines; anything else is returned as it is.
   */
  function NormalizeStringStringArray(input: Js, mapFn: Option<MapFn>): (r: Js)
    ensures !input.Arr? ==> r == input
    ensures input.Arr? ==> r.Str?
  {
    match input
    case Arr(items) =>
      var f: MapFn := match mapFn case Some(g) => g case None => (item, i) => Bullet(item);
      Str(Join(seq(|items|, i requires 0 <= i < |items| => f(items[i], i)), "\n"))
    case _ => input
  }

  /** `s.split(c)` for a one-character separator. */
  function SplitOn(s: string, c: char): (r: seq<string>)
    ensures |r| >= 1
  {
    if s == [] then [""]
    else
      var rest := SplitOn(s[1..], c);
      if s[0] == c then [""] + rest else [[s[0]] + rest[0]] + rest[1..]
  }

  lemma {:induction false} SplitOnAppend(p: string, c: char, rest: string)
    requires c !in p
    ensures SplitOn(p + [c] + rest, c) == [p] + SplitOn(rest, c)
  {
    if p == [] {
      assert p + [c] + rest == [c] + rest;
      assert ([c] + rest)[1..] == rest;
    } else {
      var s := p + [c] + rest;
      assert s[0] == p[0] && s[1..] == p[1..] + [c] + rest;
      SplitOnAppend(p[1..], c, rest);
      assert [p[0]] + p[1..] == p;
    }
  }

  lemma {:induction false} SplitOnPlain(p: string, c: char)
    requires c !in p
    ensures SplitOn(p, c) == [p]
  {
    if p != [] {
      SplitOnPlain(p[1..], c);
      assert [p[0]] + p[1..] == p;
    }
  }

  /** Splitting lines that hold no separator after joining them gives the lines back. */
  lemma {:induction false} SplitJoin(parts: seq<string>, c: char)
    requires |parts| >= 1 && forall i :: 0 <= i < |parts| ==> c !in parts[i]
    ensures SplitOn(Join(parts, [c]), c) == parts
  {
    if |parts| == 1 {
      SplitOnPlain(parts[0], c);
    } else {
      SplitJoin(parts[1..], c);
      SplitOnAppend(parts[0], c, Join(parts[1..], [c]));
      assert [parts[0]] + parts[1..] == parts;
    }
  }

  /**
   * With the default formatter every item sits on a line of its own: the
   * result splits on newlines into the items' `- item` lines.
   */
  lemma {:induction false} NormalizeLines(items: seq<Js>)
    requires |items| >= 1 && forall i :: 0 <= i < |items| ==> '\n' !in ToStr(items[i])
    ensures NormalizeStringStringArray(Arr(items), None).Str?
    ensures SplitOn(NormalizeStringStringArray(Arr(items), None).s, '\n') ==
            seq(|items|, i requires 0 <= i < |items| => Bullet(items[i]))
  {
    var lines := seq(|items|, i requires 0 <= i < |items| => Bullet(items[i]));
    forall i | 0 <= i < |lines| ensures '\n' !in lines[i] {
      assert lines[i] == "- " + ToStr(items[i]);
    }
    var f: MapFn := (item, i) => Bullet(item);
    assert seq(|items|, i requires 0 <= i < |items| => f(items[i], i)) == lines;
    SplitJoin(lines, '\n');
  }

  /** A supplied formatter replaces the default one, item by item and with the item's index. */
  lemma {:induction false} NormalizeWithMapFn(items: seq<Js>, g: MapFn)
    requires |items| >= 1 && forall i :: 0 <= i < |items| ==> '\n' !in g(items[i], i)
    ensures SplitOn(NormalizeStringStringArray(Arr(items), Some(g)).s, '\n') ==
            seq(|items|, i requires 0 <= i < |items| => g(items[i], i))
  {
    SplitJoin(seq(|items|, i requires 0 <= i < |items| => g(items[i], i)), '\n');
  }

  lemma {:induction false} NormalizeExample()
    ensures NormalizeStringStringArray(Arr([Str("Test"), Str("Word")]), None) == Str("- Test\n- Word")
  {
    var items := [Str("Test"), Str("Word")];
    var f: MapFn := (item, i) => Bullet(item);
    var lines := seq(|items|, i requires 0 <= i < |items| => f(items[i], i));
    assert lines[0] == "- Test" && lines[1] == "- Word";
    assert lines == ["- Test", "- Word"];
    assert Join(lines, "\n") == "- Test" + "\n" + "- Word";
  }

  /** The transform a segment's field carries. */
  datatype Transform = Normalize

  /** `InstructionField`: the segment's key, its label and its optional transform. */
  datatype InstructionField = InstructionField(key: Segment, labelText: string, transform: Option<Transform>)

  /**
   * `getSegmentTransformation(key)`: `examples`, `outputStructure` and
   * `internalNotes` have fixed labels and only `internalNotes` a transform;
   * any other key is labelled with its Pascal-case form and normalised.
   */
  function GetSegmentTransformation(key: Segment): (f: InstructionField)
    ensures f.key == key
    ensures key == Examples ==> f.labelText == "Examples" && f.transform.None?
    ensures key == OutputStructure ==> f.labelText == "Output Structure" && f.transform.None?
    ensures key == InternalNotes ==> f.labelText == "Internal Notes" && f.transform == Some(Normalize)
    ensures key !in {Examples, OutputStructure, InternalNotes} ==>
              f.labelText == ToPascalCase(SegmentKey(key)) && f.transform == Some(Normalize)
  {
    match key
    case Examples => InstructionField(Examples, "Examples", None)
    case OutputStructure => InstructionField(OutputStructure, "Output Structure", None)
    case InternalNotes => InstructionField(InternalNotes, "Internal Notes", Some(Normalize))
    case _ => InstructionField(key, ToPascalCase(SegmentKey(key)), Some(Normalize))
  }

  lemma {:induction false} KeyIsWord(seg: Segment)
    ensures SegmentKey(seg) != [] && AllAlnum(SegmentKey(seg))
  {
    if seg in {Identity, Rules, Procedure, Writing, Backstory} {
      ShortKeysAreWords(seg);
    } else if seg in {Extras, Instructions, Constraints, Examples} {
      MiddleKeysAreWords(seg);
    } else {
      LongKeysAreWords(seg);
    }
  }

  lemma {:induction false} ShortKeysAreWords(seg: Segment)
    requires seg in {Identity, Rules, Procedure, Writing, Backstory}
    ensures SegmentKey(seg) != [] && AllAlnum(SegmentKey(seg))
  {
  }

  lemma {:induction false} MiddleKeysAreWords(seg: Segment)
    requires seg in {Extras, Instructions, Constraints, Examples}
    ensures SegmentKey(seg) != [] && AllAlnum(SegmentKey(seg))
  {
  }

  lemma {:induction false} LongKeysAreWords(seg: Segment)
    requires seg !in {Identity, Rules, Procedure, Writing, Backstory, Extras, Instructions, Constraints, Examples}
    ensures SegmentKey(seg) != [] && AllAlnum(SegmentKey(seg))
  {
  }

  /** A key without a fixed label is labelled with its first letter upper-cased, e.g. `includeGlobalContext` as `IncludeGlobalContext`. */
  lemma {:induction false} DefaultLabel(key: Segment)
    requires key !in {Examples, OutputStructure, InternalNotes}
    ensures var k := SegmentKey(key);
      GetSegmentTransformation(key).labelText == [UpperChar(k[0])] + k[1..]
  {
    KeyIsWord(key);
    AlnumCase(SegmentKey(key));
  }
}
