/** The stand-alone submissions page: pick a form, see its submissions as a
    table, export them. */
module AdminSubmissions {
  import opened Wrappers
  import opened Types
  import opened Db
  import opened Exports

  /** One table row: the rendered date, then one cell per question in order. */
  function TableRow(fields: seq<FormField>, s: FormSubmission, formatDate: int -> string): (row: seq<string>)
    ensures |row| == |fields| + 1 && row[0] == formatDate(s.submittedAt)
    ensures forall i :: 0 <= i < |fields| ==> row[i + 1] == StoredValue(s.values, fields[i].id)
  {
    [formatDate(s.submittedAt)] + Cells(fields, s.values)
  }

  /** The table shows what the PDF export writes, row for row. */
  lemma TableMatchesPdf(fields: seq<FormField>, subs: seq<FormSubmission>, formatDate: int -> string, j: nat)
    requires j < |subs|
    ensures TableRow(fields, subs[j], formatDate) == PdfBody(fields, subs, formatDate)[j]
  {
  }

  /** The page's state, all of it. */
  datatype PageState = PageState(forms: seq<PublishedForm>, selectedForm: Option<PublishedForm>,
                                 submissions: seq<FormSubmission>)

  class AdminSubmissionsPage {
    var forms: seq<PublishedForm>
    var selectedForm: Option<PublishedForm>
    var submissions: seq<FormSubmission>
    const db: Database

    constructor (db: Database)
      ensures this.db == db && forms == [] && selectedForm.None? && submissions == []
    {
      this.db := db;
      forms := [];
      selectedForm := None;
      submissions := [];
    }

    function State(): PageState
      reads this
    {
      PageState(forms, selectedForm, submissions)
    }

    /** The mount effect: every form; a failed fetch leaves the list empty. */
    method Mount(fetchOk: bool)
      modifies this
      ensures State() == if fetchOk then old(State()).(forms := db.GetAllForms()) else old(State())
    {
      if fetchOk {
        forms := db.GetAllForms();
      }
    }

    /** `handleViewSubmissions(form)`: the form is selected first, then its
        submissions are fetched; when the fetch fails the previous list
        stays on screen under the new form. */
    method ViewSubmissions(form: PublishedForm, fetchOk: bool)
      modifies this
      ensures State() == old(State()).(selectedForm := Some(form),
                                       submissions := if fetchOk then db.GetSubmissions(Some(form.id))
                                                      else old(submissions))
    {
      selectedForm := Some(form);
      if fetchOk {
        submissions := db.GetSubmissions(Some(form.id));
      }
    }

    /** "Back to Forms": the list of forms again. */
    method BackToForms()
      modifies this
      ensures State() == old(State()).(selectedForm := None)
    {
      selectedForm := None;
    }

    /** The table's body rows: with a form selected, exactly the body of the
        PDF export of that form. */
    function Table(formatDate: int -> string): (rows: seq<seq<string>>)
      reads this
      ensures selectedForm.None? ==> rows == []
      ensures selectedForm.Some? ==> rows == PdfBody(selectedForm.value.fields, submissions, formatDate)
    {
      if selectedForm.None? then []
      else
        var fields := selectedForm.value.fields;
        var subs := submissions;
        var rows := seq(|subs|, j requires 0 <= j < |subs| => TableRow(fields, subs[j], formatDate));
        forall j | 0 <= j < |subs| {
          TableMatchesPdf(fields, subs, formatDate, j);
        }
        rows
    }

    /** What the export menu produces: nothing without a selected form or
        without submissions; a PDF export's body is the table on screen. */
    function ExportSelected(format: Format, formatDate: int -> string): (r: Option<Export>)
      reads this
      ensures r.None? <==> selectedForm.None? || submissions == []
      ensures r.Some? && format == PdfFormat ==> r.value.Pdf? && r.value.body == Table(formatDate)
    {
      ExportOf(format, selectedForm, submissions, formatDate)
    }
  }
}
