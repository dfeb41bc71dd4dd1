/** What an applicant typed, and the checks both public pages run on it
    before a submission is written: which answers count as empty, how the
    answers are flattened to text, and the key that identifies an applicant.
    The two pages carry identical copies of these helpers. */
module Answers {
  import opened Wrappers
  import opened Strings
  import opened Types
  import opened Seqs

  /** One grid row's answer: a single column (multiple-choice grid) or a
      list of columns (checkbox grid). */
  datatype Cell = One(choice: string) | Many(choices: seq<string>)

  /** An answer: text, a list of choices, or a grid keyed by row. */
  datatype FieldValue = Text(text: string) | List(items: seq<string>) | Grid(cells: map<string, Cell>)

  /** `field.rows || []` */
  function RowsOf(field: FormField): seq<string> {
    field.rows.GetOr([])
  }

  /** A grid row without an answer: missing, or (`!rowValue[row]`) the empty
      string; a checkbox grid also treats an empty list (`!map[row]?.length`)
      as unanswered. */
  predicate RowUnanswered(kind: FieldType, cells: map<string, Cell>, row: string) {
    || row !in cells
    || cells[row] == One("")
    || (kind == CheckboxGrid && cells[row] == Many([]))
  }

  /** `isEmpty(field, value)`: whether a required question still needs an
      answer. An array given to a grid question is an object without the
      row names as keys, so every row of it is unanswered. */
  predicate IsEmpty(field: FormField, value: Option<FieldValue>)
    ensures value.None? || value == Some(Text("")) ==> IsEmpty(field, value)
    ensures value == Some(List([])) && field.kind !in {MultipleChoiceGrid, CheckboxGrid} ==> IsEmpty(field, value)
  {
    match value
    case None => true
    case Some(v) =>
      match field.kind
      case Checkboxes => !(v.List? && v.items != [])
      case MultipleChoiceGrid => GridEmpty(field, v)
      case CheckboxGrid => GridEmpty(field, v)
      case _ => v == Text("") || v == List([])
  }

  /** The grid branch of `isEmpty`: text is never a grid answer. */
  predicate GridEmpty(field: FormField, v: FieldValue) {
    var rows := RowsOf(field);
    match v
    case Text(_) => true
    case List(_) => rows != []
    case Grid(cells) => exists i | 0 <= i < |rows| :: RowUnanswered(field.kind, cells, rows[i])
  }

  /** The text kinds only ask for a non-empty string: white space is an answer. */
  lemma TextAnswerEmptyIff(field: FormField, s: string)
    requires field.kind !in {Checkboxes, MultipleChoiceGrid, CheckboxGrid}
    ensures IsEmpty(field, Some(Text(s))) <==> s == ""
  {
  }

  /** A grid answer that names a non-empty choice for every row is complete,
      for either kind of grid. */
  lemma FilledGridIsAnswered(field: FormField, cells: map<string, Cell>)
    requires field.kind == MultipleChoiceGrid || field.kind == CheckboxGrid
    requires forall i :: 0 <= i < |RowsOf(field)| ==>
               RowsOf(field)[i] in cells && cells[RowsOf(field)[i]] != One("") && cells[RowsOf(field)[i]] != Many([])
    ensures !IsEmpty(field, Some(Grid(cells)))
  {
  }

  /** A grid answer that skips a row is incomplete, for either kind of grid. */
  lemma MissingRowIsEmpty(field: FormField, cells: map<string, Cell>, i: nat)
    requires field.kind == MultipleChoiceGrid || field.kind == CheckboxGrid
    requires i < |RowsOf(field)| && RowsOf(field)[i] !in cells
    ensures IsEmpty(field, Some(Grid(cells)))
  {
  }

  /** Checkbox questions are answered exactly by a non-empty list. */
  lemma CheckboxesAnsweredIff(field: FormField, value: Option<FieldValue>)
    requires field.kind == Checkboxes
    ensures !IsEmpty(field, value) <==> value.Some? && value.value.List? && value.value.items != []
  {
  }

  /** One answer as stored text: lists joined with `", "`, grids through
      `JSON.stringify` (passed in as `encodeGrid`), text as it is, and a
      missing answer as the empty string. */
  function Serialize(value: Option<FieldValue>, encodeGrid: map<string, Cell> -> string): (r: string)
    ensures value == Some(List([])) ==> r == ""
    ensures value.Some? && value.value.List? && |value.value.items| == 1 ==> r == value.value.items[0]
  {
    match value
    case None => ""
    case Some(Text(s)) => s
    case Some(List(xs)) => Join(xs, ", ")
    case Some(Grid(cells)) => encodeGrid(cells)
  }

  /** A list answer survives storage: parsing the stored text at its commas
      gives the choices back, when they are trimmed, non-blank and comma-free. */
  lemma SerializeListRoundTrip(xs: seq<string>, encodeGrid: map<string, Cell> -> string)
    requires forall i :: 0 <= i < |xs| ==> xs[i] != "" && IsTrimmed(xs[i]) && ',' !in xs[i]
    ensures ParseCommaList(Serialize(Some(List(xs)), encodeGrid)) == xs
  {
    ParseJoinRoundTrip(xs);
  }

  /** The ids of a form's questions. */
  function FieldIds(fields: seq<FormField>): set<string> {
    set f | f in fields :: f.id
  }

  /** Stored answers for a form: exactly one entry per question id, each the
      stored text of that question's answer; answers to ids that are not
      questions of the form are dropped. */
  predicate SerializedAnswers(stored: map<string, string>, fields: seq<FormField>,
                              values: map<string, FieldValue>, encodeGrid: map<string, Cell> -> string) {
    && stored.Keys == FieldIds(fields)
    && forall id | id in stored :: stored[id] == Serialize(Get(values, id), encodeGrid)
  }

  /** `serializeValues(fields, values)`: one stored string per question id. */
  method SerializeValues(fields: seq<FormField>, values: map<string, FieldValue>,
                         encodeGrid: map<string, Cell> -> string)
    returns (result: map<string, string>)
    ensures SerializedAnswers(result, fields, values, encodeGrid)
  {
    result := map[];
    var k := 0;
    while k < |fields|
      invariant 0 <= k <= |fields|
      invariant result.Keys == FieldIds(fields[..k])
      invariant forall id | id in result :: result[id] == Serialize(Get(values, id), encodeGrid)
    {
      var field := fields[k];
      result := result[field.id := Serialize(Get(values, field.id), encodeGrid)];
      assert fields[..k + 1] == fields[..k] + [field];
      k := k + 1;
    }
    assert fields[..k] == fields;
  }

  /** The ids of the required questions still without an answer. */
  function MissingIds(fields: seq<FormField>, values: map<string, FieldValue>): set<string> {
    set f | f in fields && f.required && IsEmpty(f, Get(values, f.id)) :: f.id
  }

  /** No required question is left without an answer. */
  predicate AllRequiredAnswered(fields: seq<FormField>, values: map<string, FieldValue>) {
    MissingIds(fields, values) == {}
  }

  lemma AllRequiredAnsweredIff(fields: seq<FormField>, values: map<string, FieldValue>)
    ensures AllRequiredAnswered(fields, values)
        <==> forall f | f in fields && f.required :: !IsEmpty(f, Get(values, f.id))
  {
    if !AllRequiredAnswered(fields, values) {
      var id :| id in MissingIds(fields, values);
      var f :| f in fields && f.required && IsEmpty(f, Get(values, f.id)) && f.id == id;
    } else {
      forall f | f in fields && f.required
        ensures !IsEmpty(f, Get(values, f.id))
      {
        assert f.id !in MissingIds(fields, values);
      }
    }
  }

  /** The errors of the validation pass: `Required` on exactly the required
      questions still without an answer. */
  predicate IsRequiredErrors(errors: map<string, string>, fields: seq<FormField>, values: map<string, FieldValue>) {
    && errors.Keys == MissingIds(fields, values)
    && forall id | id in errors :: errors[id] == "Required"
  }

  /** The validation pass of `handleSubmit`: the submission goes on only
      when it finds no error. */
  method RequiredErrors(fields: seq<FormField>, values: map<string, FieldValue>)
    returns (errors: map<string, string>)
    ensures IsRequiredErrors(errors, fields, values)
    ensures errors == map[] <==> AllRequiredAnswered(fields, values)
  {
    errors := map[];
    var k := 0;
    while k < |fields|
      invariant 0 <= k <= |fields|
      invariant IsRequiredErrors(errors, fields[..k], values)
    {
      var field := fields[k];
      assert fields[..k + 1] == fields[..k] + [field];
      if field.required && IsEmpty(field, Get(values, field.id)) {
        errors := errors[field.id := "Required"];
      }
      k := k + 1;
    }
    assert fields[..k] == fields;
    assert errors == map[] <==> errors.Keys == {};
  }

  predicate IsEmailField(f: FormField) {
    f.kind == Email
  }

  /** `form.fields.find((field) => field.type === 'email')` */
  function EmailField(fields: seq<FormField>): Option<FormField> {
    Find(fields, IsEmailField)
  }

  /** `value.trim().toLowerCase()` */
  function NormaliseEmail(s: string): (k: string)
    ensures IsTrimmed(k) && IsLower(k)
    ensures |k| <= |s|
  {
    LowerKeepsTrimmed(Trim(s));
    Lower(Trim(s))
  }

  lemma LowerKeepsTrimmed(t: string)
    requires IsTrimmed(t)
    ensures IsTrimmed(Lower(t))
  {
    if t != [] {
      assert Lower(t)[0] == LowerChar(t[0]);
      assert Lower(t)[|t| - 1] == LowerChar(t[|t| - 1]);
    }
  }

  /** Normalising an address twice changes nothing more. */
  lemma NormaliseIdempotent(s: string)
    ensures NormaliseEmail(NormaliseEmail(s)) == NormaliseEmail(s)
  {
    var k := NormaliseEmail(s);
    TrimOfTrimmed(k);
    LowerIdempotent(Trim(s));
  }

  lemma LowerIdempotent(s: string)
    ensures Lower(Lower(s)) == Lower(s)
  {
  }

  /** Addresses that differ only in letter case and surrounding white space
      give the same key. */
  lemma NormaliseIgnoresCaseAndPadding(s: string, pad1: string, pad2: string)
    requires forall i :: 0 <= i < |pad1| ==> IsWhitespace(pad1[i])
    requires forall i :: 0 <= i < |pad2| ==> IsWhitespace(pad2[i])
    requires s != "" && IsTrimmed(s)
    ensures NormaliseEmail(pad1 + Lower(s) + pad2) == NormaliseEmail(s)
  {
    var l := Lower(s);
    LowerKeepsTrimmed(s);
    PaddedTrim(l, pad1, pad2);
    TrimOfTrimmed(s);
    LowerIdempotent(s);
  }

  lemma PaddedTrim(s: string, pad1: string, pad2: string)
    requires forall i :: 0 <= i < |pad1| ==> IsWhitespace(pad1[i])
    requires forall i :: 0 <= i < |pad2| ==> IsWhitespace(pad2[i])
    requires s != "" && IsTrimmed(s)
    ensures Trim(pad1 + s + pad2) == s
  {
    assert pad1 + s + pad2 == pad1 + (s + pad2);
    TrimStartPadded(pad1, s + pad2);
    TrimEndPadded(s, pad2);
  }

  lemma {:induction false} TrimStartPadded(pad: string, t: string)
    requires forall i :: 0 <= i < |pad| ==> IsWhitespace(pad[i])
    requires t != [] && !IsWhitespace(t[0])
    ensures TrimStart(pad + t) == t
  {
    if pad != [] {
      assert (pad + t)[1..] == pad[1..] + t;
      TrimStartPadded(pad[1..], t);
    } else {
      assert pad + t == t;
    }
  }

  lemma {:induction false} TrimEndPadded(t: string, pad: string)
    requires forall i :: 0 <= i < |pad| ==> IsWhitespace(pad[i])
    requires t != [] && !IsWhitespace(t[|t| - 1])
    ensures TrimEnd(t + pad) == t
  {
    if pad != [] {
      var u := t + pad;
      assert u[..|u| - 1] == t + pad[..|pad| - 1];
      TrimEndPadded(t, pad[..|pad| - 1]);
    } else {
      assert t + pad == t;
    }
  }

  /** `deriveApplicantKey()`: the normalised address from the first email
      question, when that question holds a text answer. */
  function ApplicantKey(fields: seq<FormField>, values: map<string, FieldValue>): (key: Option<string>)
    ensures key.Some? ==> EmailField(fields).Some?
    ensures key.Some? ==> IsTrimmed(key.value) && IsLower(key.value)
  {
    match EmailField(fields)
    case None => None
    case Some(f) =>
      if f.id in values && values[f.id].Text? then Some(NormaliseEmail(values[f.id].text))
      else None
  }

  /** A blank address of spaces passes the required-field check, yet gives an
      empty key, which is falsy, so the duplicate check is skipped. */
  lemma BlankEmailSkipsDuplicateCheck(fields: seq<FormField>, values: map<string, FieldValue>, s: string)
    requires EmailField(fields).Some?
    requires Get(values, EmailField(fields).value.id) == Some(Text(s))
    requires s != "" && forall i :: 0 <= i < |s| ==> IsWhitespace(s[i])
    ensures !IsEmpty(EmailField(fields).value, Some(Text(s)))
    ensures ApplicantKey(fields, values) == Some("")
  {
  }
}
