/**
 * `formatAgentInstructions`: the system prompt text built from an agent's
 * instruction segments, one labelled section per key.
 */
module AgentInstructions {
  import opened Wrappers
  import opened JsValues
  import opened AiHelpers

  /** The input object's own entries, in `Object.keys` order. */
  type InstructionInput = seq<(Segment, Js)>

  /** The text a segment's value renders to: its field's transform, or `String(value)`. */
  function Rendered(field: InstructionField, value: Js): string {
    match field.transform
    case Some(Normalize) => ToStr(NormalizeStringStringArray(value, None))
    case None => ToStr(value)
  }

  /** One section: `${label}:\n${rendered}`. */
  function Section(entry: (Segment, Js)): string {
    var field := GetSegmentTransformation(entry.0);
    field.labelText + ":\n" + Rendered(field, entry.1)
  }

  function Sections(input: InstructionInput): (r: seq<string>)
    ensures |r| == |input| && forall i :: 0 <= i < |input| ==> r[i] == Section(input[i])
  {
    seq(|input|, i requires 0 <= i < |input| => Section(input[i]))
  }

  /** The loop pushes one section per key, in key order, and the sections are joined by a blank line. */
  method FormatAgentInstructions(input: InstructionInput) returns (r: string)
    ensures r == Join(Sections(input), "\n\n")
  {
    var finalInstructions: seq<string> := [];
    var i := 0;
    while i < |input|
      invariant 0 <= i <= |input|
      invariant finalInstructions == Sections(input)[..i]
    {
      var field := GetSegmentTransformation(input[i].0);
      var rendered := Rendered(field, input[i].1);
      var section := field.labelText + ":\n" + rendered;
      assert section == Sections(input)[i];
      assert Sections(input)[..i + 1] == Sections(input)[..i] + [section];
      finalInstructions := finalInstructions + [section];
      i := i + 1;
    }
    assert Sections(input)[..i] == Sections(input);
    r := Join(finalInstructions, "\n\n");
  }

  /** One more key adds its section at the end, after a blank line. */
  lemma {:induction false} FormatAppend(input: InstructionInput, entry: (Segment, Js))
    ensures Join(Sections(input + [entry]), "\n\n") ==
            if input == [] then Section(entry) else Join(Sections(input), "\n\n") + "\n\n" + Section(entry)
  {
    assert Sections(input + [entry]) == Sections(input) + [Section(entry)];
    JoinSnoc(Sections(input), Section(entry), "\n\n");
  }

  /** A list segment renders as its bullet lines, and a text segment as the text itself. */
  lemma {:induction false} RenderedValues(seg: Segment, value: Js)
    requires seg !in {Examples, OutputStructure}
    ensures value.Str? ==> Rendered(GetSegmentTransformation(seg), value) == value.s
    ensures value.Arr? ==>
              Rendered(GetSegmentTransformation(seg), value) == NormalizeStringStringArray(value, None).s
  {
  }

  /** `examples` and `outputStructure` have no transform: their value goes through `String(value)`, so an object shows as `[object Object]`. */
  lemma {:induction false} UntransformedValues(seg: Segment, value: Js)
    requires seg in {Examples, OutputStructure}
    ensures Rendered(GetSegmentTransformation(seg), value) == ToStr(value)
  {
  }
}
