/** The admin-defined quote-form schema: saving the posted field rows into the
    `request_quote_fields` option, loading it back, and how each stored row is
    rendered on the product page, including the parsing of its options string. */
module QuoteFields {
  import opened PhpArrays
  import opened PhpStrings
  import opened PhpNumbers

  /** A value in a field row: the strings the admin form posts, and the
      boolean the save puts under `required`. */
  datatype FieldValue = Text(s: string) | Flag(b: bool)

  /** One field definition: `name`, `type`, `options`, `required`, in posted order. */
  type FieldRow = PhpArray<FieldValue>

  /** What the save does to one posted row: `$field['required'] = isset(...)`. */
  function NormalizeRow(row: FieldRow): FieldRow {
    Put(row, "required", Flag(Get(row, "required").Some?))
  }

  /** `required` becomes true when the key was posted (the checkbox was ticked)
      and false when it was not; every other entry keeps its value and
      position, and a missing `required` is appended last. */
  lemma NormalizeRowSpec(row: FieldRow)
    ensures Get(NormalizeRow(row), "required") == Some(Flag("required" in Keys(row)))
    ensures forall k :: k != "required" ==> Get(NormalizeRow(row), k) == Get(row, k)
    ensures Keys(NormalizeRow(row)) ==
              if "required" in Keys(row) then Keys(row) else Keys(row) + ["required"]
  {
    PutSpec(row, "required", Flag(Get(row, "required").Some?));
  }

  /** The save loop: one normalised row per posted row, in posted order; no
      rows at all when no `fields` were posted. */
  method CollectFields(posted: Option<seq<FieldRow>>) returns (fields: seq<FieldRow>)
    ensures posted.None? ==> fields == []
    ensures posted.Some? ==> |fields| == |posted.value|
    ensures posted.Some? ==> forall i :: 0 <= i < |fields| ==> fields[i] == NormalizeRow(posted.value[i])
  {
    fields := [];
    if posted.Some? {
      var rows := posted.value;
      var i := 0;
      while i < |rows|
        invariant 0 <= i <= |rows|
        invariant |fields| == i
        invariant forall j :: 0 <= j < i ==> fields[j] == NormalizeRow(rows[j])
      {
        fields := fields + [NormalizeRow(rows[i])];
        i := i + 1;
      }
    }
  }

  /** The options table slot that holds the schema. */
  class QuoteSettings {
    /** The `request_quote_fields` option: None until the first save. */
    var option: Option<seq<FieldRow>>

    constructor ()
      ensures option == None
    {
      option := None;
    }

    /** Loading: the saved list, or the empty list when nothing was ever saved. */
    function LoadFields(): (fields: seq<FieldRow>)
      reads this
      ensures option.None? ==> fields == []
      ensures option.Some? ==> fields == option.value
    {
      if option.Some? then option.value else []
    }

    /** The Fields tab: when the form was submitted the posted rows replace the
        whole schema; in every case the tab then lists the schema as loaded. */
    method RenderFieldsTab(submitFields: bool, posted: Option<seq<FieldRow>>) returns (listed: seq<FieldRow>)
      modifies this
      ensures !submitFields ==> option == old(option)
      ensures submitFields && posted.None? ==> option == Some([])
      ensures submitFields && posted.Some? ==>
                option.Some? && |option.value| == |posted.value| &&
                forall i :: 0 <= i < |posted.value| ==> option.value[i] == NormalizeRow(posted.value[i])
      ensures listed == LoadFields()
    {
      if submitFields {
        var fields := CollectFields(posted);
        option := Some(fields);
      }
      listed := LoadFields();
    }
  }

  /** A saved row is rendered as required exactly when its checkbox was ticked. */
  lemma SavedRowRequired(row: FieldRow)
    ensures IsRequired(NormalizeRow(row)) <==> "required" in Keys(row)
  {
    NormalizeRowSpec(row);
  }

  /** `isset($field['required']) && $field['required']`, with PHP truthiness. */
  predicate IsRequired(row: FieldRow)
    ensures "required" !in Keys(row) ==> !IsRequired(row)
    ensures Get(row, "required") == Some(Flag(true)) ==> IsRequired(row)
  {
    var v: Option<FieldValue> := Get(row, "required");
    match v
    case Some(Flag(b)) => b
    case Some(Text(s)) => Truthy(s)
    case None => false
  }

  /** `$field['options'] ?? ''`, converted to a string. */
  function OptionsText(row: FieldRow): (text: string)
    ensures "options" !in Keys(row) ==> text == ""
  {
    var v: Option<FieldValue> := Get(row, "options");
    match v
    case Some(Text(s)) => s
    case Some(Flag(b)) => if b then "1" else ""
    case None => ""
  }

  /** explode(',', $options) with each piece trimmed: the choices a checkbox,
      radio or select field offers. */
  function ParseOptions(text: string): (opts: seq<string>)
    ensures |opts| == |Explode(',', text)|
  {
    var parts := Explode(',', text);
    seq(|parts|, i requires 0 <= i < |parts| => Trim(parts[i]))
  }

  /** One choice per comma-separated piece: as many as there are commas plus
      one, with neither duplicates nor empty pieces removed. */
  lemma ParseOptionsCount(text: string)
    ensures |ParseOptions(text)| == multiset(text)[','] + 1
  {
    ExplodeCount(',', text);
  }

  /** Each choice is trimmed and holds no comma. */
  lemma ParseOptionsTokens(text: string)
    ensures forall i :: 0 <= i < |ParseOptions(text)| ==>
              ',' !in ParseOptions(text)[i] &&
              Trim(ParseOptions(text)[i]) == ParseOptions(text)[i]
  {
    ExplodePiecesAreSeparatorFree(',', text);
    var parts := Explode(',', text);
    forall i | 0 <= i < |parts|
      ensures ',' !in Trim(parts[i]) && Trim(Trim(parts[i])) == Trim(parts[i])
    {
      TrimIdempotent(parts[i]);
      TrimAddsNoChar(parts[i]);
    }
  }

  /** Choices typed as a comma-separated list of pieces are listed back as
      those pieces, each trimmed: choice i is the trim of the i-th piece.
      Since every text is the join of its pieces (JoinExplode), this covers
      every options string. */
  lemma {:induction false} ParseOptionsOfJoin(pieces: seq<string>)
    requires |pieces| >= 1
    requires forall i :: 0 <= i < |pieces| ==> ',' !in pieces[i]
    ensures ParseOptions(Join(',', pieces)) == seq(|pieces|, i requires 0 <= i < |pieces| => Trim(pieces[i]))
  {
    ExplodeJoin(',', pieces);
  }

  /** How the product page renders one stored field. */
  datatype Control =
    | InputControl(inputType: string, required: bool)
    | TextareaControl(required: bool)
    | CheckboxGroup(options: seq<string>)
    | RadioGroup(options: seq<string>)
    | SelectControl(options: seq<string>, required: bool)
    | FileControl(required: bool)
    | LabelOnly

  function FieldType(row: FieldRow): string {
    var v: Option<FieldValue> := Get(row, "type");
    match v
    case Some(Text(s)) => s
    case _ => ""
  }

  /** The switch on the field type: text, email and number inputs, a textarea,
      a checkbox or radio group and a select listing the parsed options, a
      file input; any other type renders its label only. */
  function RenderedControl(row: FieldRow): (c: Control)
    ensures c.CheckboxGroup? || c.RadioGroup? || c.SelectControl? <==>
              FieldType(row) in {"checkbox", "radio", "select"}
    ensures c.CheckboxGroup? ==> c.options == ParseOptions(OptionsText(row))
    ensures c.RadioGroup? ==> c.options == ParseOptions(OptionsText(row))
    ensures c.SelectControl? ==> c.options == ParseOptions(OptionsText(row))
  {
    var t := FieldType(row);
    var req := IsRequired(row);
    if t == "text" || t == "email" || t == "number" then InputControl(t, req)
    else if t == "textarea" then TextareaControl(req)
    else if t == "checkbox" then CheckboxGroup(ParseOptions(OptionsText(row)))
    else if t == "radio" then RadioGroup(ParseOptions(OptionsText(row)))
    else if t == "select" then SelectControl(ParseOptions(OptionsText(row)), req)
    else if t == "file" then FileControl(req)
    else LabelOnly
  }

  /** A checkbox or radio field renders as its group of parsed options,
      whatever its `required` entry says. */
  lemma ChoiceGroupControl(row: FieldRow)
    requires FieldType(row) in {"checkbox", "radio"}
    ensures RenderedControl(row) ==
              if FieldType(row) == "checkbox" then CheckboxGroup(ParseOptions(OptionsText(row)))
              else RadioGroup(ParseOptions(OptionsText(row)))
  {
  }

  /** The only enforcement of `required` is the HTML attribute, and checkbox
      and radio groups never carry it: a required choice group renders exactly
      as an optional one. */
  lemma RequiredNotEnforcedOnChoiceGroups(row: FieldRow)
    requires FieldType(row) in {"checkbox", "radio"}
    ensures RenderedControl(row) == RenderedControl(Put(row, "required", Flag(!IsRequired(row))))
  {
    var other := Put(row, "required", Flag(!IsRequired(row)));
    PutSpec(row, "required", Flag(!IsRequired(row)));
    assert FieldType(other) == FieldType(row);
    assert OptionsText(other) == OptionsText(row);
    ChoiceGroupControl(row);
    ChoiceGroupControl(other);
  }

  /** A trailing comma leaves an empty last piece. */
  lemma ExplodeTrailingComma()
    ensures Explode(',', "A,B,") == ["A", "B", ""]
  {
    assert Explode(',', ",") == ["", ""] by {
      assert ","[1..] == "";
    }
    assert Explode(',', "B,") == ["B", ""] by {
      assert "B,"[0] == 'B' && "B,"[1..] == ",";
      assert ['B'] + "" == "B";
    }
    assert Explode(',', ",B,") == ["", "B", ""] by {
      assert ",B,"[1..] == "B,";
    }
    assert "A,B,"[0] == 'A' && "A,B,"[1..] == ",B,";
    assert ['A'] + "" == "A";
  }

  /** The options strings the two parsing examples below use. */
  lemma ParseOptionsExamples()
    ensures ParseOptions("") == [""]
    ensures ParseOptions("A,B,") == ["A", "B", ""]
  {
    TrimOfTrimmed("");
    assert Explode(',', "") == [""];
    ExplodeTrailingComma();
    TrimOfTrimmed("A");
    TrimOfTrimmed("B");
    var opts := ParseOptions("A,B,");
    assert opts == ["A", "B", ""] by {
      assert |opts| == 3 && opts[0] == "A" && opts[1] == "B" && opts[2] == "";
    }
  }
}
