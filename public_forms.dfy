/** The job board: every published form as a card, a lock per form worked
    out on load from the browser's markers and the stored submissions, and
    an application modal with its own submit handler. */
module PublicForms {
  import opened Wrappers
  import opened Strings
  import opened Types
  import opened Seqs
  import opened FormRules
  import opened Answers
  import opened Storage
  import opened Db
  import opened PublicForm

  /** The key under which the board remembers the email an applicant used. */
  function UserEmailKey(formId: string): string {
    "user_email_" + formId
  }

  /** The remembered-email keys are one per form and never meet the marker,
      draft, published-list or submission-list keys. */
  lemma UserEmailKeysApart(a: string, b: string)
    ensures UserEmailKey(a) != UserEmailKey(b) <==> a != b
    ensures UserEmailKey(a) != MarkerKey(b) && UserEmailKey(a) != SubmissionKey(b)
    ensures UserEmailKey(a) != DraftKey && UserEmailKey(a) != PublishedKey
  {
    assert UserEmailKey(a)[0] == 'u';
    assert MarkerKey(b)[0] == 'i' && SubmissionKey(b)[0] == 'i';
    assert DraftKey[0] == 'i' && PublishedKey[0] == 'i';
    if UserEmailKey(a) == UserEmailKey(b) {
      assert UserEmailKey(a)[11..] == a && UserEmailKey(b)[11..] == b;
    }
  }

  const LoadError := "Failed to load job openings. Please try again later."

  /** The answer a stored submission gives to the email question equals the
      remembered email, ignoring case. */
  predicate MatchesEmail(sub: FormSubmission, emailId: string, userEmail: string) {
    emailId in sub.values && Lower(sub.values[emailId]) == Lower(userEmail)
  }

  /** `submissions.some(...)` */
  predicate AnyMatches(subs: seq<FormSubmission>, emailId: string, userEmail: string) {
    exists i | 0 <= i < |subs| :: MatchesEmail(subs[i], emailId, userEmail)
  }

  /** `submissions.some(...)` over `getSubmissions(formId)`: some stored
      submission of the form answers the email question with `userEmail`. */
  predicate HasDbSubmission(rows: seq<SubmissionRow>, formId: string, emailId: string, userEmail: string) {
    AnyMatches(ToSubmissions(SubmissionQuery(rows, Some(formId))), emailId, userEmail)
  }

  /** For a form with an id (so that the query is filtered), the check finds
      exactly the rows of that form. */
  lemma HasDbSubmissionIff(rows: seq<SubmissionRow>, formId: string, emailId: string, userEmail: string)
    requires formId != ""
    ensures HasDbSubmission(rows, formId, emailId, userEmail)
        <==> exists row | row in rows :: row.form_id == formId && MatchesEmail(ToSubmission(row), emailId, userEmail)
  {
    if HasDbSubmission(rows, formId, emailId, userEmail) {
      MatchComesFromForm(rows, formId, emailId, userEmail);
    }
    if exists row | row in rows :: row.form_id == formId && MatchesEmail(ToSubmission(row), emailId, userEmail) {
      var row :| row in rows && row.form_id == formId && MatchesEmail(ToSubmission(row), emailId, userEmail);
      FoundRowMatches(rows, formId, emailId, userEmail, row);
    }
  }

  /** A match the check finds is a stored row of that form. */
  lemma MatchComesFromForm(rows: seq<SubmissionRow>, formId: string, emailId: string, userEmail: string)
    requires formId != ""
    requires HasDbSubmission(rows, formId, emailId, userEmail)
    ensures exists row | row in rows :: row.form_id == formId && MatchesEmail(ToSubmission(row), emailId, userEmail)
  {
    var query := SubmissionQuery(rows, Some(formId));
    var subs := ToSubmissions(query);
    var i :| 0 <= i < |subs| && MatchesEmail(subs[i], emailId, userEmail);
    var row := query[i];
    SubmissionQueryExact(rows, Some(formId), row);
    assert subs[i] == ToSubmission(row);
  }

  /** One form's outcome on load: its lock and the store after clean-up. */
  datatype Reconciled = Reconciled(locked: bool, items: map<string, string>)

  /** One iteration of the loading loop. Without an email question the lock
      is the marker. With one, a marker counts only when the remembered email
      is there and some stored submission of the form answers with it;
      otherwise the marker (and the remembered email, if any) is removed. */
  function LockStep(form: PublishedForm, items: map<string, string>, rows: seq<SubmissionRow>): (r: Reconciled)
    ensures r.locked <==> MarkedSubmitted(r.items, form.id)
    ensures r.locked ==> MarkedSubmitted(items, form.id)
    ensures forall k | k in r.items :: k in items && r.items[k] == items[k]
    ensures forall k | k != MarkerKey(form.id) && k != UserEmailKey(form.id) :: Get(r.items, k) == Get(items, k)
    ensures EmailField(form.fields).Some? && !r.locked ==> MarkerKey(form.id) !in r.items || !MarkedSubmitted(items, form.id)
  {
    UserEmailKeysApart(form.id, form.id);
    match EmailField(form.fields)
    case None => Reconciled(MarkedSubmitted(items, form.id), items)
    case Some(emailField) =>
      if !MarkedSubmitted(items, form.id) then Reconciled(false, items)
      else
        var userEmail := Get(items, UserEmailKey(form.id));
        if Truthy(userEmail) then
          if HasDbSubmission(rows, form.id, emailField.id, userEmail.value) then Reconciled(true, items)
          else Reconciled(false, items - {MarkerKey(form.id), UserEmailKey(form.id)})
        else Reconciled(false, items - {MarkerKey(form.id)})
  }

  /** For a form with an email question (and an id, so that the query is
      filtered), the lock holds exactly when the marker is set, an email is
      remembered and a stored row of that form answers with it. */
  lemma LockedIffStoredMatch(form: PublishedForm, items: map<string, string>, rows: seq<SubmissionRow>)
    requires form.id != ""
    requires EmailField(form.fields).Some?
    ensures var emailId := EmailField(form.fields).value.id;
      var userEmail := Get(items, UserEmailKey(form.id));
      (LockStep(form, items, rows).locked)
        <==> && MarkedSubmitted(items, form.id) && Truthy(userEmail)
             && exists row | row in rows :: row.form_id == form.id && MatchesEmail(ToSubmission(row), emailId, userEmail.value)
  {
    var userEmail := Get(items, UserEmailKey(form.id));
    if Truthy(userEmail) {
      HasDbSubmissionIff(rows, form.id, EmailField(form.fields).value.id, userEmail.value);
    }
  }

  /** A submission recorded by the modal keeps the form locked on the next
      load: its stored answer to the email question is the typed email, and
      the remembered email is that email normalised. It is stated for text
      that trimming leaves unchanged: an email input strips ASCII
      whitespace from its value, and the model's trim, which removes more,
      agrees with it on addresses without other leading or trailing space. */
  lemma RecordedSubmissionStaysLocked(form: PublishedForm, values: map<string, FieldValue>,
                                      encodeGrid: map<string, Cell> -> string, text: string,
                                      items: map<string, string>, rows: seq<SubmissionRow>, row: SubmissionRow)
    requires EmailField(form.fields).Some?
    requires EmailField(form.fields).value.id in values && values[EmailField(form.fields).value.id] == Text(text)
    requires IsTrimmed(text) && text != ""
    requires row in rows && row.form_id == form.id
    requires SerializedAnswers(row.values, form.fields, values, encodeGrid)
    requires MarkedSubmitted(items, form.id) && Get(items, UserEmailKey(form.id)) == ApplicantKey(form.fields, values)
    ensures LockStep(form, items, rows).locked
  {
    var emailId := EmailField(form.fields).value.id;
    TypedEmailKey(form.fields, values, text);
    StoredEmailAnswer(form.fields, values, encodeGrid, text, row.values);
    LowerIdempotent(text);
    FoundRowMatches(rows, form.id, emailId, Lower(text), row);
  }

  /** The key of a trimmed typed email is that email in lower case. */
  lemma TypedEmailKey(fields: seq<FormField>, values: map<string, FieldValue>, text: string)
    requires EmailField(fields).Some?
    requires EmailField(fields).value.id in values && values[EmailField(fields).value.id] == Text(text)
    requires IsTrimmed(text)
    ensures ApplicantKey(fields, values) == Some(Lower(text))
  {
    TrimOfTrimmed(text);
  }

  /** The serialized answers hold the typed email as it was typed. */
  lemma StoredEmailAnswer(fields: seq<FormField>, values: map<string, FieldValue>,
                          encodeGrid: map<string, Cell> -> string, text: string, stored: map<string, string>)
    requires EmailField(fields).Some?
    requires EmailField(fields).value.id in values && values[EmailField(fields).value.id] == Text(text)
    requires SerializedAnswers(stored, fields, values, encodeGrid)
    ensures EmailField(fields).value.id in stored && stored[EmailField(fields).value.id] == text
  {
    assert EmailField(fields).value.id in FieldIds(fields);
  }

  /** A matching row of the form is found by the check, whatever the form's id. */
  lemma FoundRowMatches(rows: seq<SubmissionRow>, formId: string, emailId: string, userEmail: string, row: SubmissionRow)
    requires row in rows && row.form_id == formId && MatchesEmail(ToSubmission(row), emailId, userEmail)
    ensures HasDbSubmission(rows, formId, emailId, userEmail)
  {
    var query := SubmissionQuery(rows, Some(formId));
    SubmissionQueryExact(rows, Some(formId), row);
    var i :| 0 <= i < |query| && query[i] == row;
    assert MatchesEmail(ToSubmissions(query)[i], emailId, userEmail);
  }

  /** A second pass over the same form changes nothing. */
  lemma LockStepIdempotent(form: PublishedForm, items: map<string, string>, rows: seq<SubmissionRow>)
    ensures LockStep(form, LockStep(form, items, rows).items, rows) == LockStep(form, items, rows)
  {
    UserEmailKeysApart(form.id, form.id);
  }

  /** The locks and the store the loading loop builds. */
  datatype Locks = Locks(locks: map<string, bool>, items: map<string, string>)

  /** The loading loop over the forms, from the locks and store so far. */
  function Reconcile(forms: seq<PublishedForm>, acc: Locks, rows: seq<SubmissionRow>): Locks
  {
    if forms == [] then acc
    else
      var step := LockStep(forms[0], acc.items, rows);
      Reconcile(forms[1..], Locks(acc.locks[forms[0].id := step.locked], step.items), rows)
  }

  /** Running the loop over `a` and then over `b` is running it over `a + b`. */
  lemma {:induction false} ReconcileAppend(a: seq<PublishedForm>, b: seq<PublishedForm>, acc: Locks, rows: seq<SubmissionRow>)
    ensures Reconcile(a + b, acc, rows) == Reconcile(b, Reconcile(a, acc, rows), rows)
  {
    if a != [] {
      assert (a + b)[0] == a[0] && (a + b)[1..] == a[1..] + b;
      var step := LockStep(a[0], acc.items, rows);
      ReconcileAppend(a[1..], b, Locks(acc.locks[a[0].id := step.locked], step.items), rows);
    } else {
      assert a + b == b;
    }
  }

  /** The loop's step for a form with an email question and a marker awaits
      `getSubmissions(form.id)`; the other steps query nothing. */
  predicate QueriesSubmissions(form: PublishedForm, items: map<string, string>) {
    EmailField(form.fields).Some? && MarkedSubmitted(items, form.id)
  }

  /** How the loading loop ends: every lock worked out, or the submissions
      query of one step threw, leaving the store as the earlier steps made it. */
  datatype LoadOutcome = Loaded(result: Locks) | QueryFailed(items: map<string, string>)

  /** The loading loop when the submissions query for `published[failAt]`
      throws, if that step reaches it (`None`: no query throws). */
  function LoadLocksOutcome(published: seq<PublishedForm>, items: map<string, string>, rows: seq<SubmissionRow>,
                            failAt: Option<nat>): (r: LoadOutcome)
    ensures failAt.None? ==> r == Loaded(Reconcile(published, Locks(map[], items), rows))
    ensures r.QueryFailed? ==> failAt.Some? && failAt.value < |published|
    ensures r.QueryFailed? ==> r.items == Reconcile(published[..failAt.value], Locks(map[], items), rows).items
  {
    if failAt.Some? && failAt.value < |published|
       && QueriesSubmissions(published[failAt.value], Reconcile(published[..failAt.value], Locks(map[], items), rows).items)
    then QueryFailed(Reconcile(published[..failAt.value], Locks(map[], items), rows).items)
    else Loaded(Reconcile(published, Locks(map[], items), rows))
  }

  /** A load cut short by a failed query has still only removed entries
      from the store, and markers removed by the earlier steps stay removed. */
  lemma FailedLoadOnlyRemoves(published: seq<PublishedForm>, items: map<string, string>, rows: seq<SubmissionRow>,
                              failAt: Option<nat>)
    ensures var r := LoadLocksOutcome(published, items, rows, failAt);
      && (r.QueryFailed? ==> OnlyRemoved(r.items, items))
      && (r.Loaded? ==> OnlyRemoved(r.result.items, items) && LocksAgree(r.result.locks, r.result.items)
                        && r.result.locks.Keys == FormIds(published))
  {
    ReconcileAgrees(published, Locks(map[], items), rows);
    if failAt.Some? && failAt.value < |published| {
      ReconcileAgrees(published[..failAt.value], Locks(map[], items), rows);
    }
  }

  /** The ids of a list of forms. */
  function FormIds(forms: seq<PublishedForm>): set<string> {
    set f | f in forms :: f.id
  }

  /** Every lock agrees with the marker in the store. */
  predicate LocksAgree(locks: map<string, bool>, items: map<string, string>) {
    forall id | id in locks :: locks[id] <==> MarkedSubmitted(items, id)
  }

  /** `after` is `before` with some entries removed. */
  predicate OnlyRemoved(after: map<string, string>, before: map<string, string>) {
    forall k | k in after :: k in before && after[k] == before[k]
  }

  /** Each form's step touches only its own marker. */
  lemma StepKeepsOtherMarkers(form: PublishedForm, items: map<string, string>, rows: seq<SubmissionRow>, id: string)
    requires id != form.id
    ensures MarkedSubmitted(LockStep(form, items, rows).items, id) == MarkedSubmitted(items, id)
  {
    MarkerKeysApart(id, form.id);
    UserEmailKeysApart(form.id, id);
  }

  /** After loading, every form has a lock, and each lock agrees with the
      marker left in the store; the store only ever loses entries. */
  lemma {:induction false} ReconcileAgrees(forms: seq<PublishedForm>, acc: Locks, rows: seq<SubmissionRow>)
    requires LocksAgree(acc.locks, acc.items)
    ensures var r := Reconcile(forms, acc, rows);
      && r.locks.Keys == acc.locks.Keys + FormIds(forms)
      && LocksAgree(r.locks, r.items)
      && OnlyRemoved(r.items, acc.items)
  {
    if forms != [] {
      var next := StepAgrees(forms[0], acc, rows);
      ReconcileAgrees(forms[1..], next, rows);
      var r := Reconcile(forms[1..], next, rows);
      assert OnlyRemoved(r.items, acc.items) by {
        assert OnlyRemoved(r.items, next.items);
        assert OnlyRemoved(next.items, acc.items);
      }
      FormIdsCons(forms);
    }
  }

  /** One pass of the loop keeps the locks in agreement with the store. */
  lemma StepAgrees(form: PublishedForm, acc: Locks, rows: seq<SubmissionRow>) returns (next: Locks)
    requires LocksAgree(acc.locks, acc.items)
    ensures var step := LockStep(form, acc.items, rows);
      next == Locks(acc.locks[form.id := step.locked], step.items)
    ensures LocksAgree(next.locks, next.items) && OnlyRemoved(next.items, acc.items)
  {
    var step := LockStep(form, acc.items, rows);
    next := Locks(acc.locks[form.id := step.locked], step.items);
    forall id | id in next.locks
      ensures next.locks[id] <==> MarkedSubmitted(next.items, id)
    {
      if id != form.id {
        StepKeepsOtherMarkers(form, acc.items, rows, id);
      }
    }
  }

  lemma FormIdsCons(forms: seq<PublishedForm>)
    requires forms != []
    ensures FormIds(forms) == {forms[0].id} + FormIds(forms[1..])
  {
    assert forall f | f in forms :: f == forms[0] || f in forms[1..];
  }

  /** A missing lock is `undefined`, which is falsy. */
  predicate IsLocked(locks: map<string, bool>, formId: string) {
    formId in locks && locks[formId]
  }

  /** A card's buttons are disabled when the form is not live or is locked. */
  predicate Disabled(form: PublishedForm, now: int, locks: map<string, bool>)
    ensures IsFormClosed(form, now) || now < form.openAt || IsLocked(locks, form.id) ==> Disabled(form, now, locks)
  {
    !IsFormLive(form, now) || IsLocked(locks, form.id)
  }

  /** Once loaded, a card can be opened exactly when its form is live and the
      browser holds no marker for it. */
  lemma ApplyEnabledIff(form: PublishedForm, now: int, forms: seq<PublishedForm>, items: map<string, string>,
                        rows: seq<SubmissionRow>)
    requires form in forms
    ensures var r := Reconcile(forms, Locks(map[], items), rows);
      !Disabled(form, now, r.locks) <==> IsFormLive(form, now) && !MarkedSubmitted(r.items, form.id)
  {
    ReconcileAgrees(forms, Locks(map[], items), rows);
  }

  datatype ModalView = Details | Application

  /** What the modal shows, in the order it checks: success, closed, not yet
      open, already applied, then the details or the questions. */
  datatype ModalScreen = Submitted | PositionClosed | NotYetOpen | AlreadyApplied | DetailsCard | ApplicationForm

  /** The modal's screen: each one exactly under its own condition, so that
      already-applied, the details and the questions appear only on a live
      form, and the questions only on an unlocked one the applicant opened. */
  function ModalScreenOf(status: SubmitStatus, form: PublishedForm, now: int, locked: bool, view: ModalView): (r: ModalScreen)
    ensures r == Submitted <==> status == Success
    ensures r == PositionClosed <==> status != Success && IsFormClosed(form, now)
    ensures r == NotYetOpen <==> status != Success && !IsFormClosed(form, now) && !IsFormLive(form, now)
    ensures r == AlreadyApplied <==> status != Success && IsFormLive(form, now) && locked
    ensures r == DetailsCard <==> status != Success && IsFormLive(form, now) && !locked && view == Details
    ensures r == ApplicationForm <==> status != Success && IsFormLive(form, now) && !locked && view == Application
  {
    WindowPhases(form, now);
    if status == Success then Submitted
    else if IsFormClosed(form, now) then PositionClosed
    else if !IsFormLive(form, now) then NotYetOpen
    else if locked then AlreadyApplied
    else if view == Details then DetailsCard
    else assert view == Application; ApplicationForm
  }

  /** The store after a modal submission: the marker, and the normalised
      email when there is one. */
  function ApplicationItems(items: map<string, string>, formId: string, key: Option<string>): map<string, string> {
    if Truthy(key) then items[MarkerKey(formId) := "yes"][UserEmailKey(formId) := key.value]
    else items[MarkerKey(formId) := "yes"]
  }

  /** The board's own state, all of it. */
  datatype BoardState = BoardState(
    forms: seq<PublishedForm>, lockedForms: map<string, bool>, loading: bool, error: string,
    selected: Option<PublishedForm>, view: ModalView, status: SubmitStatus,
    values: map<string, FieldValue>, errors: map<string, string>)

  class PublicFormsPage {
    var forms: seq<PublishedForm>
    var lockedForms: map<string, bool>
    var loading: bool
    var error: string
    var selected: Option<PublishedForm>
    var view: ModalView
    var status: SubmitStatus
    var values: map<string, FieldValue>
    var errors: map<string, string>
    const store: LocalStorage
    const db: Database

    constructor (store: LocalStorage, db: Database)
      ensures this.store == store && this.db == db
      ensures forms == [] && lockedForms == map[] && loading && error == ""
      ensures selected.None? && view == Details && status == Idle && values == map[] && errors == map[]
    {
      this.store := store;
      this.db := db;
      forms := [];
      lockedForms := map[];
      loading := true;
      error := "";
      selected := None;
      view := Details;
      status := Idle;
      values := map[];
      errors := map[];
    }

    function State(): BoardState
      reads this
    {
      BoardState(forms, lockedForms, loading, error, selected, view, status, values, errors)
    }

    /** `fetchForms()`: loads the published forms and works out every lock,
        cleaning up markers that no stored submission backs. `fetchOk` is
        whether the forms query succeeded; `failAt` names the form whose
        submissions query throws, if any. A throw inside the loop leaves the
        forms shown, the locks as they were, the store as the earlier steps
        left it, and the error message. */
    method FetchForms(fetchOk: bool, failAt: Option<nat>)
      modifies this, store
      ensures !fetchOk ==> State() == old(State()).(loading := false, error := LoadError) && store.items == old(store.items)
      ensures fetchOk ==>
                var published := db.GetPublishedForms();
                match LoadLocksOutcome(published, old(store.items), db.submissions, failAt)
                case Loaded(r) =>
                  State() == old(State()).(forms := published, lockedForms := r.locks, loading := false) && store.items == r.items
                case QueryFailed(items) =>
                  State() == old(State()).(forms := published, loading := false, error := LoadError) && store.items == items
      ensures fetchOk && failAt.None? ==>
                var published := db.GetPublishedForms();
                var r := Reconcile(published, Locks(map[], old(store.items)), db.submissions);
                State() == old(State()).(forms := published, lockedForms := r.locks, loading := false) && store.items == r.items
      ensures fetchOk && LoadLocksOutcome(db.GetPublishedForms(), old(store.items), db.submissions, failAt).Loaded? ==>
                && lockedForms.Keys == FormIds(forms) && LocksAgree(lockedForms, store.items)
      ensures OnlyRemoved(store.items, old(store.items))
    {
      if !fetchOk {
        error := LoadError;
        loading := false;
        return;
      }
      var published := db.GetPublishedForms();
      FailedLoadOnlyRemoves(published, store.items, db.submissions, failAt);
      ShowForms(published, failAt);
    }

    /** `setForms(published)`, the loading loop, then `setLockedForms(locks)`
        and `setLoading(false)`; a throw in the loop skips to the error. */
    method ShowForms(published: seq<PublishedForm>, failAt: Option<nat>)
      modifies this, store
      ensures match LoadLocksOutcome(published, old(store.items), db.submissions, failAt)
        case Loaded(r) =>
          State() == old(State()).(forms := published, lockedForms := r.locks, loading := false) && store.items == r.items
        case QueryFailed(items) =>
          State() == old(State()).(forms := published, loading := false, error := LoadError) && store.items == items
    {
      forms := published;
      var locks, ok := LoadLocks(published, failAt);
      if !ok {
        error := LoadError;
        loading := false;
        return;
      }
      lockedForms := locks;
      loading := false;
    }

    /** The loading loop: one lock per form, in order, each step cleaning the
        store as it goes; `ok` is false when a submissions query threw. */
    method LoadLocks(published: seq<PublishedForm>, failAt: Option<nat>) returns (locks: map<string, bool>, ok: bool)
      modifies store
      ensures match LoadLocksOutcome(published, old(store.items), db.submissions, failAt)
        case Loaded(r) => ok && Locks(locks, store.items) == r
        case QueryFailed(items) => !ok && store.items == items
    {
      ghost var init := Locks(map[], store.items);
      locks := map[];
      var k := 0;
      while k < |published|
        invariant 0 <= k <= |published|
        invariant Locks(locks, store.items) == Reconcile(published[..k], init, db.submissions)
        invariant failAt.Some? && failAt.value < k ==>
                    !QueriesSubmissions(published[failAt.value],
                                        Reconcile(published[..failAt.value], init, db.submissions).items)
      {
        var form := published[k];
        var locked, stepOk := LoadLock(form, failAt != Some(k));
        if !stepOk {
          return locks, false;
        }
        ReconcileAppend(published[..k], [form], init, db.submissions);
        assert published[..k + 1] == published[..k] + [form];
        locks := locks[form.id := locked];
        k := k + 1;
      }
      assert published[..k] == published;
      ok := true;
    }

    /** The body of the loading loop for one form; `queryOk` is whether its
        submissions query, if it makes one, succeeds. A throw happens before
        the step changes anything. */
    method LoadLock(form: PublishedForm, queryOk: bool) returns (locked: bool, ok: bool)
      modifies store
      ensures ok <==> queryOk || !QueriesSubmissions(form, old(store.items))
      ensures ok ==> LockStep(form, old(store.items), db.submissions) == Reconciled(locked, store.items)
      ensures !ok ==> store.items == old(store.items)
    {
      ghost var before := store.items;
      ok := true;
      var emailField := EmailField(form.fields);
      if emailField.None? {
        locked := store.GetItem(MarkerKey(form.id)) == Some("yes");
        assert LockStep(form, before, db.submissions) == Reconciled(locked, before);
        return;
      }
      var localKey := MarkerKey(form.id);
      var hasLocalSubmission := store.GetItem(localKey) == Some("yes");
      if !hasLocalSubmission {
        locked := false;
        assert LockStep(form, before, db.submissions) == Reconciled(false, before);
        return;
      }
      if !queryOk {
        return false, false;
      }
      var submissions := db.GetSubmissions(Some(form.id));
      var userEmail := store.GetItem(UserEmailKey(form.id));
      if Truthy(userEmail) {
        locked := AnyMatches(submissions, emailField.value.id, userEmail.value);
        assert locked == HasDbSubmission(db.submissions, form.id, emailField.value.id, userEmail.value);
        if !locked {
          store.RemoveItem(localKey);
          store.RemoveItem(UserEmailKey(form.id));
          assert store.items == before - {MarkerKey(form.id), UserEmailKey(form.id)};
        }
      } else {
        locked := false;
        store.RemoveItem(localKey);
      }
    }

    /** `openModal(form)` */
    method OpenModal(form: PublishedForm)
      modifies this
      ensures State() == old(State()).(selected := Some(form), view := Details, status := Idle, values := map[], errors := map[])
    {
      selected := Some(form);
      view := Details;
      status := Idle;
      values := map[];
      errors := map[];
    }

    /** `closeModal()` */
    method CloseModal()
      modifies this
      ensures State() == old(State()).(selected := None, view := Details, status := Idle, values := map[], errors := map[])
    {
      selected := None;
      view := Details;
      status := Idle;
      values := map[];
      errors := map[];
    }

    /** `showApplicationForm()` */
    method ShowApplicationForm()
      modifies this
      ensures State() == old(State()).(view := Application)
    {
      view := Application;
    }

    /** The modal's "back" link from the questions to the details. */
    method ShowDetails()
      modifies this
      ensures State() == old(State()).(view := Details)
    {
      view := Details;
    }

    /** What the modal of the selected form shows at time `now`. */
    function Modal(now: int): Option<ModalScreen>
      reads this
    {
      if selected.None? then None
      else Some(ModalScreenOf(status, selected.value, now, IsLocked(lockedForms, selected.value.id), view))
    }

    /** The write and what follows it, whether or not the write reached the
        database: the marker, the remembered email when there is one, the
        lock and the thank-you. */
    method RecordApplication(form: PublishedForm, s: NewSubmission, remoteOk: bool, newId: string, now: int)
      requires s.formId == form.id
      modifies this, store, db
      ensures State() == old(State()).(lockedForms := old(lockedForms)[form.id := true], status := Success, values := map[])
      ensures store.items == ApplicationItems(old(store.items), form.id, s.applicantKey)
      ensures db.forms == old(db.forms)
      ensures db.submissions == if remoteOk
                                then old(db.submissions) + [SubmissionRow(newId, s.formId, s.values, s.applicantKey, now)]
                                else old(db.submissions)
    {
      if remoteOk {
        var _ := db.CreateSubmission(s, newId, now);
      }
      store.SetItem(MarkerKey(form.id), "yes");
      if Truthy(s.applicantKey) {
        store.SetItem(UserEmailKey(form.id), s.applicantKey.value);
      }
      lockedForms := lockedForms[form.id := true];
      status := Success;
      values := map[];
    }

    /** `handleModalSubmit()`. Like the single-form page, but a failed write
        is treated as a success: the form is marked and locked either way,
        and the email used is remembered for the next load. */
    method HandleModalSubmit(hasApplicantSubmitted: (string, string) -> bool, encodeGrid: map<string, Cell> -> string,
                             remoteOk: bool, newId: string, now: int)
      modifies this, store, db
      ensures selected == old(selected) && db.forms == old(db.forms)
      ensures selected.None? || IsLocked(old(lockedForms), selected.value.id) ==>
                State() == old(State()) && store.items == old(store.items) && db.submissions == old(db.submissions)
      ensures selected.Some? && !IsLocked(old(lockedForms), selected.value.id)
              && !AllRequiredAnswered(selected.value.fields, old(values)) ==>
                && IsRequiredErrors(errors, selected.value.fields, old(values)) && errors != map[]
                && State() == old(State()).(errors := errors)
                && store.items == old(store.items) && db.submissions == old(db.submissions)
      ensures selected.Some? && !IsLocked(old(lockedForms), selected.value.id)
              && AllRequiredAnswered(selected.value.fields, old(values))
              && IsDuplicate(selected.value, old(values), hasApplicantSubmitted) ==>
                && State() == old(State()).(status := Duplicate,
                                            errors := map[EmailField(selected.value.fields).value.id := DuplicateMessage])
                && store.items == old(store.items) && db.submissions == old(db.submissions)
      ensures selected.Some? && !IsLocked(old(lockedForms), selected.value.id)
              && AllRequiredAnswered(selected.value.fields, old(values))
              && !IsDuplicate(selected.value, old(values), hasApplicantSubmitted) ==>
                && var form := selected.value;
                && State() == old(State()).(lockedForms := old(lockedForms)[form.id := true], status := Success,
                                            values := map[], errors := map[])
                && store.items == ApplicationItems(old(store.items), form.id, ApplicantKey(form.fields, old(values)))
                && (remoteOk ==>
                      && |db.submissions| == |old(db.submissions)| + 1
                      && db.submissions[..|old(db.submissions)|] == old(db.submissions)
                      && IsWrittenSubmission(db.submissions[|old(db.submissions)|], form, old(values), encodeGrid, newId, now))
                && (!remoteOk ==> db.submissions == old(db.submissions))
    {
      if selected.None? {
        return;
      }
      var form := selected.value;
      if IsLocked(lockedForms, form.id) {
        return;
      }
      var nextErrors := RequiredErrors(form.fields, values);
      errors := nextErrors;
      if nextErrors == map[] {
        SubmitApplication(form, hasApplicantSubmitted, encodeGrid, remoteOk, newId, now);
      }
    }

    /** The part of `handleModalSubmit()` after validation has passed. */
    method SubmitApplication(form: PublishedForm, hasApplicantSubmitted: (string, string) -> bool,
                             encodeGrid: map<string, Cell> -> string, remoteOk: bool, newId: string, now: int)
      requires selected == Some(form) && errors == map[]
      modifies this, store, db
      ensures db.forms == old(db.forms)
      ensures IsDuplicate(form, old(values), hasApplicantSubmitted) ==>
                && State() == old(State()).(status := Duplicate, errors := map[EmailField(form.fields).value.id := DuplicateMessage])
                && store.items == old(store.items) && db.submissions == old(db.submissions)
      ensures !IsDuplicate(form, old(values), hasApplicantSubmitted) ==>
                && State() == old(State()).(lockedForms := old(lockedForms)[form.id := true], status := Success, values := map[])
                && store.items == ApplicationItems(old(store.items), form.id, ApplicantKey(form.fields, old(values)))
                && (remoteOk ==>
                      && |db.submissions| == |old(db.submissions)| + 1
                      && db.submissions[..|old(db.submissions)|] == old(db.submissions)
                      && IsWrittenSubmission(db.submissions[|old(db.submissions)|], form, old(values), encodeGrid, newId, now))
                && (!remoteOk ==> db.submissions == old(db.submissions))
    {
      if IsDuplicate(form, values, hasApplicantSubmitted) {
        MarkDuplicate(form);
        return;
      }
      var serialized := SerializeValues(form.fields, values, encodeGrid);
      RecordApplication(form, NewSubmission(form.id, serialized, ApplicantKey(form.fields, values)), remoteOk, newId, now);
    }

    /** A repeated applicant: the duplicate status, and the message on the
        email question added to the (empty) errors. */
    method MarkDuplicate(form: PublishedForm)
      requires EmailField(form.fields).Some?
      modifies this
      ensures State() == old(State()).(status := Duplicate, errors := old(errors)[EmailField(form.fields).value.id := DuplicateMessage])
    {
      status := Duplicate;
      errors := errors[EmailField(form.fields).value.id := DuplicateMessage];
    }
  }

  /** When the write failed and no other stored row of the form answers with
      the remembered email, the next load unlocks the form and forgets both
      the marker and the email: the local-only success does not survive. */
  lemma UnsyncedSubmissionIsUndone(form: PublishedForm, items: map<string, string>, rows: seq<SubmissionRow>,
                                   key: string)
    requires form.id != "" && EmailField(form.fields).Some? && key != ""
    requires forall row | row in rows && row.form_id == form.id ::
               !MatchesEmail(ToSubmission(row), EmailField(form.fields).value.id, key)
    ensures var after := ApplicationItems(items, form.id, Some(key));
      var r := LockStep(form, after, rows);
      && !r.locked && MarkerKey(form.id) !in r.items && UserEmailKey(form.id) !in r.items
  {
    var after := ApplicationItems(items, form.id, Some(key));
    UserEmailKeysApart(form.id, form.id);
    assert MarkedSubmitted(after, form.id);
    LockedIffStoredMatch(form, after, rows);
  }
}
