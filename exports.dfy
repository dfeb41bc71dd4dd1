/** What the administrator's exports hand to the CSV download, the
    spreadsheet writer and the PDF table, and what the submissions table
    shows: one row per submission, one column per question. Both admin pages
    build these the same way. */
module Exports {
  import opened Wrappers
  import opened Strings
  import opened Types
  import opened Json

  /** `String(submission.values[field.id] || '')`: the stored answer, or the
      empty string when there is none. Stored answers are strings, so the
      `typeof … === 'object'` branch never applies. */
  function StoredValue(values: map<string, string>, id: string): string {
    if id in values then values[id] else ""
  }

  /** `fields.map((field) => field.label)` */
  function Labels(fields: seq<FormField>): (r: seq<string>)
    ensures |r| == |fields|
    ensures forall i :: 0 <= i < |fields| ==> r[i] == fields[i].caption
  {
    seq(|fields|, i requires 0 <= i < |fields| => fields[i].caption)
  }

  /** The answers of one submission in question order: a table row, and the
      spreadsheet and PDF cells after the date. */
  function Cells(fields: seq<FormField>, values: map<string, string>): (r: seq<string>)
    ensures |r| == |fields|
    ensures forall i :: 0 <= i < |fields| ==> r[i] == StoredValue(values, fields[i].id)
  {
    seq(|fields|, i requires 0 <= i < |fields| => StoredValue(values, fields[i].id))
  }

  /** A table cell is the stored answer when there is one and is blank
      otherwise, for every question in order. */
  lemma TableCellsShowAnswers(fields: seq<FormField>, values: map<string, string>, i: nat)
    requires i < |fields|
    ensures fields[i].id in values ==> Cells(fields, values)[i] == values[fields[i].id]
    ensures fields[i].id !in values ==> Cells(fields, values)[i] == ""
  {
  }

  // ---------------------------------------------------------------------
  // CSV

  /** The header line: the labels joined with commas, not quoted. */
  function CsvHeader(fields: seq<FormField>): string {
    Join(Labels(fields), ",")
  }

  /** `JSON.stringify(submission.values[field.id] || '')` for every question. */
  function CsvCells(fields: seq<FormField>, values: map<string, string>): (r: seq<string>)
    ensures |r| == |fields|
  {
    seq(|fields|, i requires 0 <= i < |fields| => Quote(StoredValue(values, fields[i].id)))
  }

  function CsvRow(fields: seq<FormField>, s: FormSubmission): string {
    Join(CsvCells(fields, s.values), ",")
  }

  function CsvRows(fields: seq<FormField>, subs: seq<FormSubmission>): (r: seq<string>)
    ensures |r| == |subs|
  {
    seq(|subs|, j requires 0 <= j < |subs| => CsvRow(fields, subs[j]))
  }

  /** `[headers.join(','), ...rows.map((row) => row.join(','))].join('\n')` */
  function CsvContent(fields: seq<FormField>, subs: seq<FormSubmission>): (r: string)
    ensures CsvHeader(fields) <= r
    ensures subs == [] ==> r == CsvHeader(fields)
  {
    Join([CsvHeader(fields)] + CsvRows(fields, subs), "\n")
  }

  /** A character that is in no piece and not in the separator is not in
      the joined text. */
  lemma {:induction false} JoinAvoids(xs: seq<string>, sep: string, c: char)
    requires c !in sep
    requires forall i :: 0 <= i < |xs| ==> c !in xs[i]
    ensures c !in Join(xs, sep)
  {
    if |xs| > 1 {
      forall i | 0 <= i < |xs[1..]|
        ensures c !in xs[1..][i]
      {
        assert xs[1..][i] == xs[i + 1];
      }
      JoinAvoids(xs[1..], sep, c);
    }
  }

  /** Every cell of the CSV decodes back to the stored answer. */
  lemma CsvCellDecodes(fields: seq<FormField>, values: map<string, string>, i: nat)
    requires i < |fields|
    ensures Unquote(CsvCells(fields, values)[i]) == Some(StoredValue(values, fields[i].id))
  {
    UnquoteQuote(StoredValue(values, fields[i].id));
  }

  /** When no label holds a line break, the export has exactly one line per
      submission after the header line: the quoted answers never break a
      line. */
  lemma CsvLines(fields: seq<FormField>, subs: seq<FormSubmission>)
    requires forall i :: 0 <= i < |fields| ==> '\n' !in fields[i].caption
    ensures Split(CsvContent(fields, subs), '\n') == [CsvHeader(fields)] + CsvRows(fields, subs)
    ensures |Split(CsvContent(fields, subs), '\n')| == |subs| + 1
  {
    JoinAvoids(Labels(fields), ",", '\n');
    var rows := CsvRows(fields, subs);
    forall j | 0 <= j < |rows|
      ensures '\n' !in rows[j]
    {
      JoinAvoids(CsvCells(fields, subs[j].values), ",", '\n');
    }
    var lines := [CsvHeader(fields)] + rows;
    forall k | 0 <= k < |lines|
      ensures '\n' !in lines[k]
    {
      if k > 0 {
        assert lines[k] == rows[k - 1];
      }
    }
    SplitJoin(lines, '\n');
  }

  // ---------------------------------------------------------------------
  // Spreadsheet

  /** The spreadsheet row as a function of the questions: the date under
      `Date` and each question's answer under its label, a later question
      overwriting an earlier one with the same label. The row is a map, so
      the order of its columns is not part of it. */
  function ExcelRowOf(fields: seq<FormField>, values: map<string, string>, date: string): (r: map<string, string>)
    ensures "Date" in r
    ensures forall i :: 0 <= i < |fields| ==> fields[i].caption in r
    decreases |fields|
  {
    if fields == [] then map["Date" := date]
    else
      var last := fields[|fields| - 1];
      ExcelRowOf(fields[..|fields| - 1], values, date)[last.caption := StoredValue(values, last.id)]
  }

  /** `handleExportExcel`'s row: starts from the date and fills in one label
      per question in a loop. */
  method ExcelRow(fields: seq<FormField>, s: FormSubmission, date: string) returns (row: map<string, string>)
    ensures row == ExcelRowOf(fields, s.values, date)
  {
    row := map["Date" := date];
    for k := 0 to |fields|
      invariant row == ExcelRowOf(fields[..k], s.values, date)
    {
      assert fields[..k + 1][..k] == fields[..k];
      row := row[fields[k].caption := StoredValue(s.values, fields[k].id)];
    }
    assert fields[..|fields|] == fields;
  }

  /** The columns of a spreadsheet row are `Date` and the labels. */
  lemma {:induction false} ExcelRowKeys(fields: seq<FormField>, values: map<string, string>, date: string)
    ensures ExcelRowOf(fields, values, date).Keys == {"Date"} + set f | f in fields :: f.caption
  {
    if fields != [] {
      var init := fields[..|fields| - 1];
      ExcelRowKeys(init, values, date);
      assert fields == init + [fields[|fields| - 1]];
    }
  }

  /** Under each label stands the answer to the last question with that
      label. */
  lemma {:induction false} ExcelRowValue(fields: seq<FormField>, values: map<string, string>, date: string, j: nat)
    requires j < |fields|
    requires forall k :: j < k < |fields| ==> fields[k].caption != fields[j].caption
    ensures fields[j].caption in ExcelRowOf(fields, values, date)
    ensures ExcelRowOf(fields, values, date)[fields[j].caption] == StoredValue(values, fields[j].id)
  {
    if j < |fields| - 1 {
      var init := fields[..|fields| - 1];
      ExcelRowValue(init, values, date, j);
    }
  }

  /** The date stands under `Date` unless a question is itself labelled
      `Date`, in which case its answer replaces the date. */
  lemma {:induction false} ExcelRowDate(fields: seq<FormField>, values: map<string, string>, date: string)
    requires forall i :: 0 <= i < |fields| ==> fields[i].caption != "Date"
    ensures "Date" in ExcelRowOf(fields, values, date)
    ensures ExcelRowOf(fields, values, date)["Date"] == date
  {
    if fields != [] {
      ExcelRowDate(fields[..|fields| - 1], values, date);
    }
  }

  /** `data`: one spreadsheet row per submission, dated with
      `formatDate(submittedAt)` (the locale's rendering). */
  function ExcelSheet(fields: seq<FormField>, subs: seq<FormSubmission>, formatDate: int -> string): (r: seq<map<string, string>>)
    ensures |r| == |subs|
  {
    seq(|subs|, j requires 0 <= j < |subs| => ExcelRowOf(fields, subs[j].values, formatDate(subs[j].submittedAt)))
  }

  // ---------------------------------------------------------------------
  // PDF

  /** `[['Date', ...labels]]` */
  function PdfHead(fields: seq<FormField>): seq<string> {
    ["Date"] + Labels(fields)
  }

  /** One body row: the date, then the answers in question order. */
  function PdfRow(fields: seq<FormField>, s: FormSubmission, date: string): (r: seq<string>)
    ensures |r| == |fields| + 1 && r[0] == date
  {
    [date] + Cells(fields, s.values)
  }

  function PdfBody(fields: seq<FormField>, subs: seq<FormSubmission>, formatDate: int -> string): (r: seq<seq<string>>)
    ensures |r| == |subs|
    ensures forall j :: 0 <= j < |subs| ==> |r[j]| == |fields| + 1 && r[j][0] == formatDate(subs[j].submittedAt)
  {
    var rows := seq(|subs|, j requires 0 <= j < |subs| => PdfRow(fields, subs[j], formatDate(subs[j].submittedAt)));
    assert forall j :: 0 <= j < |subs| ==> rows[j] == PdfRow(fields, subs[j], formatDate(subs[j].submittedAt));
    rows
  }

  /** Every body row has as many cells as the header, and each answer sits
      under its own question's label. */
  lemma PdfColumnsLineUp(fields: seq<FormField>, subs: seq<FormSubmission>, formatDate: int -> string, j: nat)
    requires j < |subs|
    ensures var row := PdfBody(fields, subs, formatDate)[j];
      && |row| == |PdfHead(fields)| == |fields| + 1
      && row[0] == formatDate(subs[j].submittedAt) && PdfHead(fields)[0] == "Date"
      && forall i :: 0 <= i < |fields| ==>
           PdfHead(fields)[i + 1] == fields[i].caption && row[i + 1] == StoredValue(subs[j].values, fields[i].id)
  {
  }

  // ---------------------------------------------------------------------
  // The three exports

  /** What an export produces; `None` is the early return. */
  datatype Export =
    | Csv(content: string)
    | Sheet(rows: seq<map<string, string>>)
    | Pdf(head: seq<string>, body: seq<seq<string>>)

  datatype Format = CsvFormat | ExcelFormat | PdfFormat

  /** Every export first returns when no form is selected or there are no
      submissions to export. */
  function ExportOf(format: Format, form: Option<PublishedForm>, subs: seq<FormSubmission>,
                    formatDate: int -> string): (r: Option<Export>)
    ensures r.None? <==> form.None? || subs == []
    ensures r.Some? ==> match format
      case CsvFormat => r.value == Csv(CsvContent(form.value.fields, subs))
      case ExcelFormat => r.value == Sheet(ExcelSheet(form.value.fields, subs, formatDate)) && |r.value.rows| == |subs|
      case PdfFormat => r.value == Pdf(PdfHead(form.value.fields), PdfBody(form.value.fields, subs, formatDate))
                        && |r.value.body| == |subs| && |r.value.head| == |form.value.fields| + 1
  {
    if form.None? || |subs| == 0 then None
    else
      var fields := form.value.fields;
      match format
      case CsvFormat => Some(Csv(CsvContent(fields, subs)))
      case ExcelFormat => Some(Sheet(ExcelSheet(fields, subs, formatDate)))
      case PdfFormat => Some(Pdf(PdfHead(fields), PdfBody(fields, subs, formatDate)))
  }
}
