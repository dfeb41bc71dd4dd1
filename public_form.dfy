/** The single-form page an applicant reaches through a share link: which
    screen it shows, and the submit handler that validates, refuses a
    repeated applicant, writes the submission and locks the page. */
module PublicForm {
  import opened Wrappers
  import opened Strings
  import opened Types
  import opened FormRules
  import opened Answers
  import opened Storage
  import opened Db

  /** The key of the browser's "already submitted" marker for a form. */
  function MarkerKey(formId: string): string {
    "internship_submission_" + formId
  }

  const DuplicateMessage := "You already applied with this email."

  /** The marker keys never meet the draft, the published list or a local
      submission list. */
  lemma MarkerKeysApart(a: string, b: string)
    ensures MarkerKey(a) != MarkerKey(b) <==> a != b
    ensures MarkerKey(a) != SubmissionKey(b)
    ensures MarkerKey(a) != DraftKey && MarkerKey(a) != PublishedKey
  {
    assert MarkerKey(a)[21] == '_' && SubmissionKey(b)[21] == 's';
    assert MarkerKey(a)[11] == 's' && DraftKey[11] == 'f';
    assert |PublishedKey| <= 21 || PublishedKey[21] != '_';
    if MarkerKey(a) == MarkerKey(b) {
      assert MarkerKey(a)[22..] == a && MarkerKey(b)[22..] == b;
    }
  }

  /** Whether the browser holds the marker for this form. */
  predicate MarkedSubmitted(items: map<string, string>, formId: string) {
    Get(items, MarkerKey(formId)) == Some("yes")
  }

  datatype SubmitStatus = Idle | Success | Duplicate

  /** What the page renders. */
  datatype Screen = Loading | NotFound | ClosedNotice | ScheduledNotice | AlreadySubmitted | ThankYou | Questions

  /** The page's early returns, in their order: loading, no form, closed,
      not yet open, locked without a fresh success, success, the questions. */
  function ScreenOf(loading: bool, form: Option<PublishedForm>, now: int, locked: bool, status: SubmitStatus): (r: Screen)
    ensures r in {Questions, ThankYou, AlreadySubmitted} ==> !loading && form.Some? && IsFormLive(form.value, now)
    ensures r == Questions ==> !locked && status != Success
  {
    if loading then Loading
    else if form.None? then NotFound
    else if IsFormClosed(form.value, now) then ClosedNotice
    else if !IsFormLive(form.value, now) then ScheduledNotice
    else if locked && status != Success then AlreadySubmitted
    else if status == Success then ThankYou
    else Questions
  }

  /** The questions are on screen exactly when the form is loaded and live,
      the page is not locked and no submission has just succeeded. */
  lemma QuestionsShownIff(form: PublishedForm, now: int, locked: bool, status: SubmitStatus)
    ensures (ScreenOf(false, Some(form), now, locked, status) == Questions)
        <==> IsFormLive(form, now) && !locked && status != Success
  {
    WindowPhases(form, now);
  }

  /** Reopening the page of a live form after a successful submission shows
      the already-submitted notice. */
  lemma ReloadAfterSubmitShowsNotice(items: map<string, string>, form: PublishedForm, now: int)
    requires IsFormLive(form, now)
    ensures var locked := MarkedSubmitted(items[MarkerKey(form.id) := "yes"], form.id);
      ScreenOf(false, Some(form), now, locked, Idle) == AlreadySubmitted
  {
    WindowPhases(form, now);
  }

  /** `applicantKey && hasApplicantSubmitted(form.id, applicantKey)`: an
      empty key is falsy and never checked. */
  predicate IsDuplicate(form: PublishedForm, values: map<string, FieldValue>,
                        hasApplicantSubmitted: (string, string) -> bool) {
    var key := ApplicantKey(form.fields, values);
    key.Some? && key.value != "" && hasApplicantSubmitted(form.id, key.value)
  }

  /** A duplicate always comes from a form with an email question. */
  lemma DuplicateHasEmailField(form: PublishedForm, values: map<string, FieldValue>,
                               hasApplicantSubmitted: (string, string) -> bool)
    requires IsDuplicate(form, values, hasApplicantSubmitted)
    ensures EmailField(form.fields).Some?
  {
  }

  /** The submission row written for a form and its answers. */
  predicate IsWrittenSubmission(row: SubmissionRow, form: PublishedForm, values: map<string, FieldValue>,
                                encodeGrid: map<string, Cell> -> string, newId: string, now: int) {
    && row.id == newId && row.form_id == form.id && row.submitted_at == now
    && row.applicant_key == ApplicantKey(form.fields, values)
    && SerializedAnswers(row.values, form.fields, values, encodeGrid)
  }

  /** The page's own state, all of it. */
  datatype PageState = PageState(
    loading: bool, form: Option<PublishedForm>, status: SubmitStatus,
    values: map<string, FieldValue>, errors: map<string, string>, locked: bool)

  class PublicFormPage {
    var loading: bool
    var form: Option<PublishedForm>
    var status: SubmitStatus
    var values: map<string, FieldValue>
    var errors: map<string, string>
    var locked: bool
    const store: LocalStorage
    const db: Database

    constructor (store: LocalStorage, db: Database)
      ensures this.store == store && this.db == db
      ensures loading && form.None? && status == Idle && values == map[] && errors == map[] && !locked
    {
      this.store := store;
      this.db := db;
      loading := true;
      form := None;
      status := Idle;
      values := map[];
      errors := map[];
      locked := false;
    }

    function State(): PageState
      reads this
    {
      PageState(loading, form, status, values, errors, locked)
    }

    /** The screen for the current state at time `now`. */
    function Screen(now: int): Screen
      reads this
    {
      ScreenOf(loading, form, now, locked, status)
    }

    /** `fetchForm()`: with no slug nothing happens and the page keeps
        loading; otherwise the form is looked up and the page is locked when
        the browser holds its marker. */
    method Load(slug: string)
      modifies this
      ensures slug == "" ==> State() == old(State())
      ensures slug != "" ==>
                var found := db.GetFormBySlug(slug);
                State() == if found.Ok?
                           then old(State()).(loading := false, form := Some(found.value),
                                              locked := MarkedSubmitted(store.items, found.value.id))
                           else old(State()).(loading := false)
    {
      if slug == "" {
        return;
      }
      var found := db.GetFormBySlug(slug);
      if found.Ok? {
        form := Some(found.value);
        locked := store.GetItem(MarkerKey(found.value.id)) == Some("yes");
      }
      loading := false;
    }

    /** The successful write: the row is appended, the marker is set, and the
        page is locked on the thank-you screen with its answers cleared. */
    method Record(s: NewSubmission, newId: string, now: int)
      modifies this, store, db
      ensures State() == old(State()).(status := Success, values := map[], locked := true)
      ensures db.forms == old(db.forms)
      ensures db.submissions == old(db.submissions) + [SubmissionRow(newId, s.formId, s.values, s.applicantKey, now)]
      ensures store.items == old(store.items)[MarkerKey(s.formId) := "yes"]
    {
      var _ := db.CreateSubmission(s, newId, now);
      store.SetItem(MarkerKey(s.formId), "yes");
      locked := true;
      status := Success;
      values := map[];
    }

    /** `handleSubmit()`. Nothing happens on a locked page. Otherwise every
        required question still empty gets `Required` and stops the
        submission; a repeated applicant gets the duplicate status and a
        message on the email question; otherwise the submission is written,
        and only a write that succeeds (`remoteOk`) sets the marker, locks
        the page and clears the answers. */
    method HandleSubmit(hasApplicantSubmitted: (string, string) -> bool, encodeGrid: map<string, Cell> -> string,
                        remoteOk: bool, newId: string, now: int)
      requires form.Some?
      modifies this, store, db
      ensures form == old(form) && db.forms == old(db.forms)
      ensures old(locked) ==>
                State() == old(State()) && store.items == old(store.items) && db.submissions == old(db.submissions)
      ensures !old(locked) && !AllRequiredAnswered(form.value.fields, old(values)) ==>
                && IsRequiredErrors(errors, form.value.fields, old(values)) && errors != map[]
                && State() == old(State()).(errors := errors)
                && store.items == old(store.items) && db.submissions == old(db.submissions)
      ensures !old(locked) && AllRequiredAnswered(form.value.fields, old(values))
              && IsDuplicate(form.value, old(values), hasApplicantSubmitted) ==>
                && State() == old(State()).(status := Duplicate,
                                            errors := map[EmailField(form.value.fields).value.id := DuplicateMessage])
                && store.items == old(store.items) && db.submissions == old(db.submissions)
      ensures !old(locked) && AllRequiredAnswered(form.value.fields, old(values))
              && !IsDuplicate(form.value, old(values), hasApplicantSubmitted) && remoteOk ==>
                && State() == old(State()).(status := Success, values := map[], errors := map[], locked := true)
                && |db.submissions| == |old(db.submissions)| + 1
                && db.submissions[..|old(db.submissions)|] == old(db.submissions)
                && IsWrittenSubmission(db.submissions[|old(db.submissions)|], form.value, old(values), encodeGrid, newId, now)
                && store.items == old(store.items)[MarkerKey(form.value.id) := "yes"]
      ensures !old(locked) && AllRequiredAnswered(form.value.fields, old(values))
              && !IsDuplicate(form.value, old(values), hasApplicantSubmitted) && !remoteOk ==>
                && State() == old(State()).(errors := map[])
                && store.items == old(store.items) && db.submissions == old(db.submissions)
    {
      if locked {
        return;
      }
      var f := form.value;
      var nextErrors := RequiredErrors(f.fields, values);
      errors := nextErrors;
      if nextErrors == map[] {
        Submit(f, hasApplicantSubmitted, encodeGrid, remoteOk, newId, now);
      }
    }

    /** The part of `handleSubmit()` after validation has passed: the
        duplicate check, then the write. */
    method Submit(f: PublishedForm, hasApplicantSubmitted: (string, string) -> bool,
                  encodeGrid: map<string, Cell> -> string, remoteOk: bool, newId: string, now: int)
      requires form == Some(f) && errors == map[]
      modifies this, store, db
      ensures form == old(form) && db.forms == old(db.forms)
      ensures IsDuplicate(f, old(values), hasApplicantSubmitted) ==>
                && State() == old(State()).(status := Duplicate, errors := map[EmailField(f.fields).value.id := DuplicateMessage])
                && store.items == old(store.items) && db.submissions == old(db.submissions)
      ensures !IsDuplicate(f, old(values), hasApplicantSubmitted) && remoteOk ==>
                && State() == old(State()).(status := Success, values := map[], locked := true)
                && |db.submissions| == |old(db.submissions)| + 1
                && db.submissions[..|old(db.submissions)|] == old(db.submissions)
                && IsWrittenSubmission(db.submissions[|old(db.submissions)|], f, old(values), encodeGrid, newId, now)
                && store.items == old(store.items)[MarkerKey(f.id) := "yes"]
      ensures !IsDuplicate(f, old(values), hasApplicantSubmitted) && !remoteOk ==>
                State() == old(State()) && store.items == old(store.items) && db.submissions == old(db.submissions)
    {
      if IsDuplicate(f, values, hasApplicantSubmitted) {
        MarkDuplicate(f);
        return;
      }
      var serialized := SerializeValues(f.fields, values, encodeGrid);
      if remoteOk {
        Record(NewSubmission(f.id, serialized, ApplicantKey(f.fields, values)), newId, now);
      }
    }

    /** A repeated applicant: the duplicate status, and the message on the
        email question added to the (empty) errors. */
    method MarkDuplicate(f: PublishedForm)
      requires EmailField(f.fields).Some?
      modifies this
      ensures State() == old(State()).(status := Duplicate, errors := old(errors)[EmailField(f.fields).value.id := DuplicateMessage])
    {
      status := Duplicate;
      errors := errors[EmailField(f.fields).value.id := DuplicateMessage];
    }
  }
}
