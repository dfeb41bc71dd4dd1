/** The hosted tables behind the admin pages and the job board, as an
    in-memory table of form rows and one of submission rows. Column names
    are the tables' own snake_case names; `MapForm` turns a row into the
    camelCase record the pages use. Row ids and the current time are
    passed in: the database generates the first and reads the clock. */
module Db {
  import opened Wrappers
  import opened Types
  import opened Seqs
  import opened Sorting

  /** One row of the `forms` table. */
  datatype FormRow = FormRow(
    id: string,
    slug: string,
    name: string,
    description: Option<string>,
    status: Status,
    fields: seq<FormField>,
    theme: Option<Theme>,
    open_at: int,
    close_at: int,
    created_at: int,
    updated_at: Option<int>,
    job_type: Option<string>,
    department: Option<string>,
    location: Option<string>,
    experience: Option<string>,
    skills: Option<seq<string>>,
    seo_title: Option<string>,
    seo_description: Option<string>,
    seo_keywords: Option<seq<string>>)

  /** One row of the `submissions` table. */
  datatype SubmissionRow = SubmissionRow(
    id: string,
    form_id: string,
    values: map<string, string>,
    applicant_key: Option<string>,
    submitted_at: int)

  /** What `createSubmission` is given: a submission without id and time. */
  datatype NewSubmission = NewSubmission(formId: string, values: map<string, string>, applicantKey: Option<string>)

  /** `mapForm(data)`: each column copied into its camelCase field. */
  function MapForm(r: FormRow): (f: PublishedForm)
    ensures f.id == r.id && f.slug == r.slug && f.name == r.name && f.status == r.status
    ensures f.openAt == r.open_at && f.closeAt == r.close_at && f.createdAt == r.created_at
    ensures f.fields == r.fields && f.skills == r.skills && f.seoKeywords == r.seo_keywords
  {
    PublishedForm(
      r.id, r.slug, r.name, r.open_at, r.close_at, r.fields, r.created_at, r.status, r.theme,
      r.description, r.job_type, r.department, r.location, r.experience, r.skills,
      r.seo_title, r.seo_description, r.seo_keywords)
  }

  /** The row a record comes from, given the one column the record drops. */
  function ToRow(f: PublishedForm, updatedAt: Option<int>): FormRow {
    FormRow(
      f.id, f.slug, f.name, f.description, f.status, f.fields, f.theme, f.openAt, f.closeAt,
      f.createdAt, updatedAt, f.jobType, f.department, f.location, f.experience, f.skills,
      f.seoTitle, f.seoDescription, f.seoKeywords)
  }

  /** `mapForm` loses nothing but `updated_at`: the row is rebuilt from the record. */
  lemma MapFormRoundTrip(r: FormRow, f: PublishedForm)
    ensures ToRow(MapForm(r), r.updated_at) == r
    ensures MapForm(ToRow(f, None)) == f
  {
  }

  /** A submission row as the pages see it. */
  function ToSubmission(r: SubmissionRow): (s: FormSubmission)
    ensures s.id == r.id && s.formId == r.form_id && s.submittedAt == r.submitted_at
    ensures s.values == r.values && s.applicantKey == r.applicant_key
  {
    FormSubmission(r.id, r.form_id, r.submitted_at, r.values, r.applicant_key)
  }

  function CreatedAt(r: FormRow): int { r.created_at }
  function SubmittedAt(r: SubmissionRow): int { r.submitted_at }

  /** A string the source tests for truthiness: present and not empty. */
  predicate Truthy(s: Option<string>) {
    s.Some? && s.value != ""
  }

  /** The fields of `Partial<PublishedForm>` that `updateForm` reads. Window
      timestamps are present or absent; an empty ISO string has no
      millisecond value. */
  datatype FormUpdates = FormUpdates(
    name: Option<string>,
    description: Option<string>,
    status: Option<Status>,
    fields: Option<seq<FormField>>,
    theme: Option<Theme>,
    openAt: Option<int>,
    closeAt: Option<int>,
    jobType: Option<string>,
    department: Option<string>,
    location: Option<string>,
    experience: Option<string>,
    skills: Option<seq<string>>,
    seoTitle: Option<string>,
    seoDescription: Option<string>,
    seoKeywords: Option<seq<string>>)

  const NoUpdates := FormUpdates(None, None, None, None, None, None, None, None, None, None, None, None, None, None, None)

  /** The columns `updateForm` writes; `None` leaves a column as it is. */
  datatype FormPatch = FormPatch(
    name: Option<string>,
    description: Option<string>,
    status: Option<Status>,
    fields: Option<seq<FormField>>,
    theme: Option<Theme>,
    open_at: Option<int>,
    close_at: Option<int>,
    job_type: Option<string>,
    department: Option<string>,
    location: Option<string>,
    experience: Option<string>,
    skills: Option<seq<string>>,
    seo_title: Option<string>,
    seo_description: Option<string>,
    seo_keywords: Option<seq<string>>)

  const EmptyPatch := FormPatch(None, None, None, None, None, None, None, None, None, None, None, None, None, None, None)

  /** A string update kept only when truthy: never the empty string. */
  function WhenTruthy(s: Option<string>): (r: Option<string>)
    ensures r != Some("")
    ensures r.Some? <==> Truthy(s)
    ensures r.Some? ==> r == s
  {
    if Truthy(s) then s else None
  }

  /** `dbUpdates`: a string column is written only for a non-empty string;
      status, questions, theme, window times and the two lists whenever they
      are given (an empty list is an object, so it is written too). */
  function PatchOf(u: FormUpdates): (p: FormPatch)
    ensures p.status == u.status && p.fields == u.fields && p.theme == u.theme
    ensures p.open_at == u.openAt && p.close_at == u.closeAt
    ensures p.skills == u.skills && p.seo_keywords == u.seoKeywords
    ensures p.name != Some("") && p.description != Some("") && p.job_type != Some("") && p.department != Some("")
    ensures p.location != Some("") && p.experience != Some("") && p.seo_title != Some("") && p.seo_description != Some("")
    ensures p.name.Some? <==> Truthy(u.name)
    ensures p.name.Some? ==> p.name == u.name
  {
    FormPatch(
      WhenTruthy(u.name), WhenTruthy(u.description),
      u.status, u.fields, u.theme, u.openAt, u.closeAt,
      WhenTruthy(u.jobType), WhenTruthy(u.department), WhenTruthy(u.location), WhenTruthy(u.experience),
      u.skills,
      WhenTruthy(u.seoTitle), WhenTruthy(u.seoDescription),
      u.seoKeywords)
  }

  /** `dbUpdates` built key by key, as `updateForm` does: each `if` adds one
      column to the patch. */
  method BuildPatch(u: FormUpdates) returns (p: FormPatch)
    ensures p == PatchOf(u)
  {
    p := PatchDetails(u, EmptyPatch);
    p := PatchListing(u, p);
    p := PatchSeo(u, p);
  }

  /** The name, description, status, questions and theme columns. */
  method PatchDetails(u: FormUpdates, p0: FormPatch) returns (p: FormPatch)
    ensures p == p0.(name := if Truthy(u.name) then u.name else p0.name,
                     description := if Truthy(u.description) then u.description else p0.description,
                     status := if u.status.Some? then u.status else p0.status,
                     fields := if u.fields.Some? then u.fields else p0.fields,
                     theme := if u.theme.Some? then u.theme else p0.theme)
  {
    p := p0;
    if Truthy(u.name) { p := p.(name := u.name); }
    if Truthy(u.description) { p := p.(description := u.description); }
    if u.status.Some? { p := p.(status := u.status); }
    if u.fields.Some? { p := p.(fields := u.fields); }
    if u.theme.Some? { p := p.(theme := u.theme); }
  }

  /** The window and the job-listing columns. */
  method PatchListing(u: FormUpdates, p0: FormPatch) returns (p: FormPatch)
    ensures p == p0.(open_at := if u.openAt.Some? then u.openAt else p0.open_at,
                     close_at := if u.closeAt.Some? then u.closeAt else p0.close_at,
                     job_type := if Truthy(u.jobType) then u.jobType else p0.job_type,
                     department := if Truthy(u.department) then u.department else p0.department,
                     location := if Truthy(u.location) then u.location else p0.location,
                     experience := if Truthy(u.experience) then u.experience else p0.experience)
  {
    p := p0;
    if u.openAt.Some? { p := p.(open_at := u.openAt); }
    if u.closeAt.Some? { p := p.(close_at := u.closeAt); }
    if Truthy(u.jobType) { p := p.(job_type := u.jobType); }
    if Truthy(u.department) { p := p.(department := u.department); }
    if Truthy(u.location) { p := p.(location := u.location); }
    if Truthy(u.experience) { p := p.(experience := u.experience); }
  }

  /** The skills and search-engine columns. */
  method PatchSeo(u: FormUpdates, p0: FormPatch) returns (p: FormPatch)
    ensures p == p0.(skills := if u.skills.Some? then u.skills else p0.skills,
                     seo_title := if Truthy(u.seoTitle) then u.seoTitle else p0.seo_title,
                     seo_description := if Truthy(u.seoDescription) then u.seoDescription else p0.seo_description,
                     seo_keywords := if u.seoKeywords.Some? then u.seoKeywords else p0.seo_keywords)
  {
    p := p0;
    if u.skills.Some? { p := p.(skills := u.skills); }
    if Truthy(u.seoTitle) { p := p.(seo_title := u.seoTitle); }
    if Truthy(u.seoDescription) { p := p.(seo_description := u.seoDescription); }
    if u.seoKeywords.Some? { p := p.(seo_keywords := u.seoKeywords); }
  }

  function Over<T>(patched: Option<T>, current: T): T {
    if patched.Some? then patched.value else current
  }

  function OverOpt<T>(patched: Option<T>, current: Option<T>): Option<T> {
    if patched.Some? then patched else current
  }

  /** The row after `update({...dbUpdates, updated_at})`. */
  function ApplyPatch(r: FormRow, p: FormPatch, now: int): (n: FormRow)
    ensures n.id == r.id && n.slug == r.slug && n.created_at == r.created_at && n.updated_at == Some(now)
    ensures p == EmptyPatch ==> n == r.(updated_at := Some(now))
  {
    FormRow(
      r.id, r.slug, Over(p.name, r.name), OverOpt(p.description, r.description),
      Over(p.status, r.status), Over(p.fields, r.fields), OverOpt(p.theme, r.theme),
      Over(p.open_at, r.open_at), Over(p.close_at, r.close_at), r.created_at, Some(now),
      OverOpt(p.job_type, r.job_type), OverOpt(p.department, r.department),
      OverOpt(p.location, r.location), OverOpt(p.experience, r.experience),
      OverOpt(p.skills, r.skills), OverOpt(p.seo_title, r.seo_title),
      OverOpt(p.seo_description, r.seo_description), OverOpt(p.seo_keywords, r.seo_keywords))
  }

  /** What an update does to one row: id, slug and creation time never
      change, the update time is stamped, a text column takes the given
      value only when it is a non-empty string, and a list column takes any
      given list, even an empty one. */
  lemma UpdatedRow(r: FormRow, u: FormUpdates, now: int)
    ensures var n := ApplyPatch(r, PatchOf(u), now);
      && n.id == r.id && n.slug == r.slug && n.created_at == r.created_at
      && n.updated_at == Some(now)
      && n.name == (if Truthy(u.name) then u.name.value else r.name)
      && n.description == (if Truthy(u.description) then u.description else r.description)
      && n.location == (if Truthy(u.location) then u.location else r.location)
      && n.seo_title == (if Truthy(u.seoTitle) then u.seoTitle else r.seo_title)
      && n.skills == (if u.skills.Some? then u.skills else r.skills)
      && n.status == (if u.status.Some? then u.status.value else r.status)
  {
  }

  /** An update that names nothing still stamps the update time, and
      changes nothing else. */
  lemma EmptyUpdateOnlyStamps(r: FormRow, now: int)
    ensures ApplyPatch(r, PatchOf(NoUpdates), now) == r.(updated_at := Some(now))
  {
  }

  /** An update of the status alone changes the status and the update time
      and nothing else. */
  lemma StatusOnlyUpdate(r: FormRow, s: Status, now: int)
    ensures ApplyPatch(r, PatchOf(NoUpdates.(status := Some(s))), now) == r.(status := s, updated_at := Some(now))
  {
  }

  /** Sending back a record with its text fields blanked never clears them. */
  lemma BlankStringsKeepColumns(r: FormRow, u: FormUpdates, now: int)
    requires u.name == Some("") && u.description == Some("") && u.jobType == Some("")
    ensures ApplyPatch(r, PatchOf(u), now).name == r.name
    ensures ApplyPatch(r, PatchOf(u), now).description == r.description
    ensures ApplyPatch(r, PatchOf(u), now).job_type == r.job_type
  {
  }

  function FormWithId(id: string): FormRow -> bool {
    (row: FormRow) => row.id == id
  }

  function FormWithoutId(id: string): FormRow -> bool {
    (row: FormRow) => row.id != id
  }

  function FormWithSlug(slug: string): FormRow -> bool {
    (row: FormRow) => row.slug == slug
  }

  predicate IsPublishedRow(row: FormRow) {
    row.status == Published
  }

  function SubmissionOfForm(formId: string): SubmissionRow -> bool {
    (row: SubmissionRow) => row.form_id == formId
  }

  function SubmissionWithId(id: string): SubmissionRow -> bool {
    (row: SubmissionRow) => row.id == id
  }

  /** `.single()` over the updated submission rows: the one row, or an
      error for none or several. */
  function SingleSubmission(rows: seq<SubmissionRow>): (r: Result<FormSubmission, string>)
    ensures r.Ok? <==> |rows| == 1
    ensures r.Ok? ==> r.value == ToSubmission(rows[0])
  {
    if |rows| == 1 then Ok(ToSubmission(rows[0]))
    else Err("JSON object requested, multiple (or no) rows returned")
  }

  /** After replacing the answers of the rows with `id`, every row with that
      id carries the new answers, and there is such a row only if there was
      one before. */
  lemma UpdatedSubmissionsHaveValues(before: seq<SubmissionRow>, after: seq<SubmissionRow>, id: string,
                                     values: map<string, string>)
    requires |after| == |before|
    requires forall i :: 0 <= i < |before| ==>
               after[i] == if before[i].id == id then before[i].(values := values) else before[i]
    ensures forall row | row in Filter(after, SubmissionWithId(id)) :: row.id == id && row.values == values
    ensures (forall i :: 0 <= i < |before| ==> before[i].id != id) ==> Filter(after, SubmissionWithId(id)) == []
  {
    forall row | row in Filter(after, SubmissionWithId(id))
      ensures row.id == id && row.values == values
    {
      var i :| 0 <= i < |after| && after[i] == row;
    }
    if forall i :: 0 <= i < |before| ==> before[i].id != id {
      var f := Filter(after, SubmissionWithId(id));
      if f != [] {
        assert f[0] in f;
      }
    }
  }

  function SubmissionWithoutId(id: string): SubmissionRow -> bool {
    (row: SubmissionRow) => row.id != id
  }

  /** `data.map(mapForm)` */
  function MapForms(rows: seq<FormRow>): (r: seq<PublishedForm>)
    ensures |r| == |rows|
    ensures forall i :: 0 <= i < |rows| ==> r[i] == MapForm(rows[i])
  {
    seq(|rows|, i requires 0 <= i < |rows| => MapForm(rows[i]))
  }

  /** `.single()`: the one row selected, or an error for none or several. */
  function Single(rows: seq<FormRow>): (r: Result<PublishedForm, string>)
    ensures r.Ok? <==> |rows| == 1
  {
    if |rows| == 1 then Ok(MapForm(rows[0]))
    else Err("JSON object requested, multiple (or no) rows returned")
  }

  /** The rows of `select('*').order(column, { ascending: false })`, with
      the status filter when `onlyPublished`. */
  function FormQuery(rows: seq<FormRow>, onlyPublished: bool): seq<FormRow> {
    SortDesc(if onlyPublished then Filter(rows, IsPublishedRow) else rows, CreatedAt)
  }

  /** The form listing is newest first and holds the published rows (or all
      rows) with their multiplicities. */
  lemma FormQueryFacts(rows: seq<FormRow>, onlyPublished: bool)
    ensures var r := FormQuery(rows, onlyPublished);
      && SortedDesc(r, CreatedAt)
      && (onlyPublished ==> multiset(r) == multiset(Filter(rows, IsPublishedRow)))
      && (!onlyPublished ==> multiset(r) == multiset(rows))
      && (onlyPublished ==> forall i :: 0 <= i < |r| ==> r[i].status == Published)
  {
    var kept := if onlyPublished then Filter(rows, IsPublishedRow) else rows;
    var sorted := SortDesc(kept, CreatedAt);
    SortDescSorts(kept, CreatedAt);
    forall i | 0 <= i < |sorted| ensures sorted[i] in kept {
      assert sorted[i] in multiset(kept);
    }
  }

  /** The rows of the submissions query: `if (formId)` adds the form filter. */
  function SubmissionQuery(rows: seq<SubmissionRow>, formId: Option<string>): seq<SubmissionRow> {
    SortDesc(if Truthy(formId) then Filter(rows, SubmissionOfForm(formId.value)) else rows, SubmittedAt)
  }

  /** The submission listing is newest first and holds that form's rows (or
      all rows) with their multiplicities. */
  lemma SubmissionQueryFacts(rows: seq<SubmissionRow>, formId: Option<string>)
    ensures var r := SubmissionQuery(rows, formId);
      && SortedDesc(r, SubmittedAt)
      && (Truthy(formId) ==> multiset(r) == multiset(Filter(rows, SubmissionOfForm(formId.value))))
      && (!Truthy(formId) ==> multiset(r) == multiset(rows))
      && (Truthy(formId) ==> forall i :: 0 <= i < |r| ==> r[i].form_id == formId.value)
  {
    var kept := if Truthy(formId) then Filter(rows, SubmissionOfForm(formId.value)) else rows;
    var sorted := SortDesc(kept, SubmittedAt);
    SortDescSorts(kept, SubmittedAt);
    forall i | 0 <= i < |sorted| ensures sorted[i] in kept {
      assert sorted[i] in multiset(kept);
    }
  }

  /** `data.map(...)` of `getSubmissions`. */
  function ToSubmissions(rows: seq<SubmissionRow>): (r: seq<FormSubmission>)
    ensures |r| == |rows|
    ensures forall i :: 0 <= i < |rows| ==> r[i] == ToSubmission(rows[i])
  {
    seq(|rows|, i requires 0 <= i < |rows| => ToSubmission(rows[i]))
  }

  /** The two tables. */
  class Database {
    var forms: seq<FormRow>
    var submissions: seq<SubmissionRow>

    constructor ()
      ensures forms == [] && submissions == []
    {
      forms := [];
      submissions := [];
    }

    /** `getPublishedForms()` */
    function GetPublishedForms(): (r: seq<PublishedForm>)
      reads this
      ensures |r| == |Filter(forms, IsPublishedRow)|
      ensures forall i :: 0 <= i < |r| ==> r[i].status == Published
    {
      FormQueryFacts(forms, true);
      assert |multiset(FormQuery(forms, true))| == |multiset(Filter(forms, IsPublishedRow))|;
      MapForms(FormQuery(forms, true))
    }

    /** `getAllForms()` */
    function GetAllForms(): (r: seq<PublishedForm>)
      reads this
      ensures |r| == |forms|
      ensures forall row | row in forms :: MapForm(row) in r
    {
      var sorted := FormQuery(forms, false);
      FormQueryFacts(forms, false);
      assert |multiset(sorted)| == |multiset(forms)|;
      MapFormsReordered(forms, sorted);
      MapForms(sorted)
    }

    /** `getFormBySlug(slug)` */
    function GetFormBySlug(slug: string): (r: Result<PublishedForm, string>)
      reads this
      ensures r.Ok? ==> r.value.slug == slug && r.value in MapForms(forms)
      ensures (forall row | row in forms :: row.slug != slug) ==> r.Err?
      ensures r.Ok? <==> |Filter(forms, FormWithSlug(slug))| == 1
      ensures r.Ok? ==> r.value == MapForm(Filter(forms, FormWithSlug(slug))[0])
    {
      var matches := Filter(forms, FormWithSlug(slug));
      if |matches| == 1 then
        assert matches[0] in forms;
        MapFormsHas(forms, matches[0]);
        Single(matches)
      else
        assert matches != [] ==> matches[0] in matches;
        Single(matches)
    }

    /** `createForm(form)`: inserts a row named `name`, or the draft's title
        when `name` is missing or empty. */
    method CreateForm(draft: DraftFormState, slug: string, status: Status, name: Option<string>,
                      openAt: int, closeAt: int, newId: string, now: int)
      returns (f: PublishedForm)
      modifies this
      ensures f.name == (if Truthy(name) then name.value else draft.title)
      ensures f.id == newId && f.slug == slug && f.status == status && f.fields == draft.fields
      ensures f.description == Some(draft.description) && f.createdAt == now
      ensures forms == old(forms) + [ToRow(f, None)]
      ensures submissions == old(submissions)
    {
      var row := FormRow(
        newId, slug, if Truthy(name) then name.value else draft.title, Some(draft.description),
        status, draft.fields, draft.theme, openAt, closeAt, now, None,
        None, None, None, None, None, None, None, None);
      forms := forms + [row];
      f := MapForm(row);
      MapFormRoundTrip(row, f);
    }

    /** `updateForm(id, updates)`: patches the rows with that id, then
        selects the single updated row. */
    method UpdateForm(id: string, updates: FormUpdates, now: int)
      returns (r: Result<PublishedForm, string>)
      modifies this
      ensures submissions == old(submissions)
      ensures |forms| == |old(forms)|
      ensures forall i :: 0 <= i < |forms| ==>
                forms[i] == if old(forms)[i].id == id then ApplyPatch(old(forms)[i], PatchOf(updates), now)
                            else old(forms)[i]
      ensures r == Single(Filter(forms, FormWithId(id)))
    {
      var p := BuildPatch(updates);
      var k := 0;
      var updated: seq<FormRow> := [];
      while k < |forms|
        invariant 0 <= k <= |forms| && |updated| == k
        invariant forall i :: 0 <= i < k ==>
                    updated[i] == if forms[i].id == id then ApplyPatch(forms[i], p, now) else forms[i]
      {
        var row := forms[k];
        if row.id == id {
          row := ApplyPatch(row, p, now);
        }
        updated := updated + [row];
        k := k + 1;
      }
      forms := updated;
      r := Single(Filter(forms, FormWithId(id)));
    }

    /** `deleteForm(id)`: removes the rows with that id; submissions stay. */
    method DeleteForm(id: string)
      modifies this
      ensures forms == Filter(old(forms), FormWithoutId(id))
      ensures submissions == old(submissions)
    {
      forms := Filter(forms, FormWithoutId(id));
    }

    /** `createSubmission(submission)`: appends a row stamped with `now`. */
    method CreateSubmission(s: NewSubmission, newId: string, now: int) returns (created: FormSubmission)
      modifies this
      ensures created == FormSubmission(newId, s.formId, now, s.values, s.applicantKey)
      ensures submissions == old(submissions) + [SubmissionRow(newId, s.formId, s.values, s.applicantKey, now)]
      ensures forms == old(forms)
    {
      var row := SubmissionRow(newId, s.formId, s.values, s.applicantKey, now);
      submissions := submissions + [row];
      created := ToSubmission(row);
    }

    /** `getSubmissions(formId)` */
    function GetSubmissions(formId: Option<string>): (r: seq<FormSubmission>)
      reads this
      ensures !Truthy(formId) ==> |r| == |submissions|
      ensures Truthy(formId) ==> forall i :: 0 <= i < |r| ==> r[i].formId == formId.value
    {
      var sorted := SubmissionQuery(submissions, formId);
      SubmissionQueryFacts(submissions, formId);
      assert |multiset(sorted)| == |multiset(if Truthy(formId) then Filter(submissions, SubmissionOfForm(formId.value)) else submissions)|;
      ToSubmissions(sorted)
    }

    /** `updateSubmission(id, values)`: replaces the answers of the rows
        with that id; an error when there is none. */
    method UpdateSubmission(id: string, values: map<string, string>)
      returns (r: Result<FormSubmission, string>)
      modifies this
      ensures forms == old(forms)
      ensures |submissions| == |old(submissions)|
      ensures forall i :: 0 <= i < |submissions| ==>
                submissions[i] == if old(submissions)[i].id == id then old(submissions)[i].(values := values)
                                  else old(submissions)[i]
      ensures r == SingleSubmission(Filter(submissions, SubmissionWithId(id)))
      ensures (forall i :: 0 <= i < |old(submissions)| ==> old(submissions)[i].id != id) ==> r.Err?
      ensures r.Ok? ==> r.value.id == id && r.value.values == values
    {
      var k := 0;
      var updated: seq<SubmissionRow> := [];
      while k < |submissions|
        invariant 0 <= k <= |submissions| && |updated| == k
        invariant forall i :: 0 <= i < k ==>
                    updated[i] == if submissions[i].id == id then submissions[i].(values := values) else submissions[i]
      {
        var row := submissions[k];
        if row.id == id {
          row := row.(values := values);
        }
        updated := updated + [row];
        k := k + 1;
      }
      UpdatedSubmissionsHaveValues(submissions, updated, id, values);
      submissions := updated;
      r := SingleSubmission(Filter(submissions, SubmissionWithId(id)));
    }

    /** `deleteSubmission(id)` */
    method DeleteSubmission(id: string)
      modifies this
      ensures submissions == Filter(old(submissions), SubmissionWithoutId(id))
      ensures forms == old(forms)
    {
      submissions := Filter(submissions, SubmissionWithoutId(id));
    }
  }

  lemma MapFormsHas(rows: seq<FormRow>, row: FormRow)
    requires row in rows
    ensures MapForm(row) in MapForms(rows)
  {
    var i :| 0 <= i < |rows| && rows[i] == row;
    assert MapForms(rows)[i] == MapForm(row);
  }

  /** Every row keeps its record in a reordering of the rows. */
  lemma MapFormsReordered(rows: seq<FormRow>, reordered: seq<FormRow>)
    requires multiset(reordered) == multiset(rows)
    ensures forall row | row in rows :: MapForm(row) in MapForms(reordered)
  {
    forall row | row in rows
      ensures MapForm(row) in MapForms(reordered)
    {
      assert row in multiset(rows);
      MapFormsHas(reordered, row);
    }
  }

  /** The job board's query returns every published row and nothing else,
      newest first. */
  lemma PublishedQueryExact(rows: seq<FormRow>, row: FormRow)
    ensures row in FormQuery(rows, true) <==> row in rows && row.status == Published
  {
    FormQueryFacts(rows, true);
    assert row in FormQuery(rows, true) <==> row in multiset(FormQuery(rows, true));
  }

  /** Deleting a form removes exactly the rows with its id, keeps the others
      in order, and leaves every submission of it in place. */
  lemma DeleteFormExact(rows: seq<FormRow>, id: string, row: FormRow)
    ensures row in Filter(rows, FormWithoutId(id)) <==> row in rows && row.id != id
  {
  }

  /** A submission listing for one form holds exactly that form's rows;
      without a form id it holds every row. */
  lemma SubmissionQueryExact(rows: seq<SubmissionRow>, formId: Option<string>, row: SubmissionRow)
    ensures Truthy(formId) ==> (row in SubmissionQuery(rows, formId) <==> row in rows && row.form_id == formId.value)
    ensures !Truthy(formId) ==> (row in SubmissionQuery(rows, formId) <==> row in rows)
  {
    SubmissionQueryFacts(rows, formId);
    assert row in SubmissionQuery(rows, formId) <==> row in multiset(SubmissionQuery(rows, formId));
    assert row in rows <==> row in multiset(rows);
  }
}
