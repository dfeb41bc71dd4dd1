/** The administrator's dashboard: the statistics cards, the status toggle of
    a form, the submissions of the selected form, their exports and the
    name and email columns picked out by label. */
module AdminHome {
  import opened Wrappers
  import opened Strings
  import opened Types
  import opened Seqs
  import opened Db
  import opened Exports

  /** One day in milliseconds. */
  const DayMs := 24 * 60 * 60 * 1000

  datatype Stats = Stats(totalForms: nat, publishedForms: nat, totalSubmissions: nat, recentSubmissions: nat)

  predicate IsPublished(f: PublishedForm) {
    f.status == Published
  }

  /** Submitted strictly after the instant one day before `now`. */
  predicate IsRecent(s: FormSubmission, now: int) {
    s.submittedAt > now - DayMs
  }

  /** The statistics `loadData` computes from the lists it has loaded. */
  function StatsOf(forms: seq<PublishedForm>, subs: seq<FormSubmission>, now: int): (r: Stats)
    ensures r.publishedForms <= r.totalForms == |forms|
    ensures r.recentSubmissions <= r.totalSubmissions == |subs|
  {
    Stats(|forms|, |Filter(forms, IsPublished)|, |subs|,
          |Filter(subs, (s: FormSubmission) => IsRecent(s, now))|)
  }

  /** One more form adds one to the total, and one to the published count
      exactly when it is published. */
  lemma StatsOfNewForm(f: PublishedForm, forms: seq<PublishedForm>, subs: seq<FormSubmission>, now: int)
    ensures StatsOf([f] + forms, subs, now).totalForms == StatsOf(forms, subs, now).totalForms + 1
    ensures StatsOf([f] + forms, subs, now).publishedForms
         == StatsOf(forms, subs, now).publishedForms + (if f.status == Published then 1 else 0)
  {
    assert ([f] + forms)[1..] == forms;
  }

  /** One more submission adds one to the total, and one to the recent
      count exactly when it was made less than a day before `now`; one made
      exactly a day before is not recent. */
  lemma StatsOfNewSubmission(s: FormSubmission, forms: seq<PublishedForm>, subs: seq<FormSubmission>, now: int)
    ensures StatsOf(forms, [s] + subs, now).totalSubmissions == StatsOf(forms, subs, now).totalSubmissions + 1
    ensures StatsOf(forms, [s] + subs, now).recentSubmissions
         == StatsOf(forms, subs, now).recentSubmissions + (if s.submittedAt > now - DayMs then 1 else 0)
    ensures s.submittedAt == now - DayMs ==>
              StatsOf(forms, [s] + subs, now).recentSubmissions == StatsOf(forms, subs, now).recentSubmissions
  {
    assert ([s] + subs)[1..] == subs;
  }

  /** The new status `handleToggleStatus` asks for. */
  function Toggled(s: Status): (r: Status)
    ensures r != s
  {
    if s == Published then Unpublished else Published
  }

  /** Toggling twice gives the status back. */
  lemma ToggleTwice(s: Status)
    ensures Toggled(Toggled(s)) == s
  {
  }

  /** The submissions of the selected form; none while no form is selected. */
  function SubmissionsFor(selected: string, subs: seq<FormSubmission>): (r: seq<FormSubmission>)
    ensures selected == "" ==> r == []
  {
    if selected != "" then Filter(subs, (s: FormSubmission) => s.formId == selected) else []
  }

  /** The filtered list holds exactly the submissions of the selected form. */
  lemma SubmissionsForExact(selected: string, subs: seq<FormSubmission>, s: FormSubmission)
    ensures s in SubmissionsFor(selected, subs) <==> selected != "" && s in subs && s.formId == selected
  {
  }

  /** Whether a question's lower-cased label contains the lower-cased pattern. */
  predicate LabelMatches(f: FormField, pattern: string) {
    Contains(Lower(f.caption), Lower(pattern))
  }

  /** `getFieldValue(submission, labelPattern)` in the submissions table. */
  function GetFieldValue(form: Option<PublishedForm>, s: FormSubmission, pattern: string): (v: string)
    ensures v != ""
  {
    var field := if form.Some? then Find(form.value.fields, (f: FormField) => LabelMatches(f, pattern)) else None;
    if field.None? then "N/A"
    else
      var stored := StoredValue(s.values, field.value.id);
      if stored == "" then "N/A" else stored
  }

  /** The value shown is the non-empty answer to the first question whose
      label contains the pattern, regardless of case; `N/A` when there is
      no such question or its answer is missing or empty. */
  lemma GetFieldValueFirstMatch(form: PublishedForm, s: FormSubmission, pattern: string)
    ensures var fields := form.fields;
      var v := GetFieldValue(Some(form), s, pattern);
      && ((forall i :: 0 <= i < |fields| ==> !LabelMatches(fields[i], pattern)) ==> v == "N/A")
      && (forall i :: 0 <= i < |fields| && LabelMatches(fields[i], pattern)
                       && (forall j :: 0 <= j < i ==> !LabelMatches(fields[j], pattern)) ==>
            v == (if StoredValue(s.values, fields[i].id) == "" then "N/A" else StoredValue(s.values, fields[i].id)))
  {
    var p := (f: FormField) => LabelMatches(f, pattern);
    var idx := FindIndex(form.fields, p);
    if idx.Some? {
      forall i | 0 <= i < |form.fields| && LabelMatches(form.fields[i], pattern)
                 && (forall j :: 0 <= j < i ==> !LabelMatches(form.fields[j], pattern))
        ensures i == idx.value
      {
        assert p(form.fields[i]);
        assert LabelMatches(form.fields[idx.value], pattern);
      }
    }
  }

  /** The dashboard's state, all of it. */
  datatype HomeState = HomeState(forms: seq<PublishedForm>, allSubmissions: seq<FormSubmission>,
                                 selectedFormId: string, filtered: seq<FormSubmission>, stats: Stats)

  class AdminHomePage {
    var forms: seq<PublishedForm>
    var allSubmissions: seq<FormSubmission>
    var selectedFormId: string
    var filtered: seq<FormSubmission>
    var stats: Stats
    const db: Database

    constructor (db: Database)
      ensures this.db == db
      ensures forms == [] && allSubmissions == [] && selectedFormId == "" && filtered == []
      ensures stats == Stats(0, 0, 0, 0)
    {
      this.db := db;
      forms := [];
      allSubmissions := [];
      selectedFormId := "";
      filtered := [];
      stats := Stats(0, 0, 0, 0);
    }

    function State(): HomeState
      reads this
    {
      HomeState(forms, allSubmissions, selectedFormId, filtered, stats)
    }

    /** The filtered list is the selected form's submissions: the effect
        re-runs whenever the selection or the loaded submissions change. */
    ghost predicate Valid()
      reads this
    {
      filtered == SubmissionsFor(selectedFormId, allSubmissions)
    }

    /** `loadData()`: every form and every submission, and the statistics
        over them; a failed fetch changes nothing. The filter effect then
        runs on the new submissions. */
    method LoadData(fetchOk: bool, now: int)
      modifies this
      ensures !fetchOk ==> State() == old(State())
      ensures fetchOk ==>
                var all := db.GetSubmissions(None);
                State() == old(State()).(forms := db.GetAllForms(), allSubmissions := all,
                                         filtered := SubmissionsFor(selectedFormId, all),
                                         stats := StatsOf(db.GetAllForms(), all, now))
      ensures old(Valid()) ==> Valid()
    {
      if !fetchOk {
        return;
      }
      var loadedForms := db.GetAllForms();
      var loadedSubmissions := db.GetSubmissions(None);
      forms := loadedForms;
      allSubmissions := loadedSubmissions;
      stats := StatsOf(loadedForms, loadedSubmissions, now);
      filtered := SubmissionsFor(selectedFormId, loadedSubmissions);
    }

    /** Choosing a form in the selector; the filter effect follows. */
    method SelectForm(id: string)
      modifies this
      ensures State() == old(State()).(selectedFormId := id, filtered := SubmissionsFor(id, old(allSubmissions)))
      ensures Valid()
    {
      selectedFormId := id;
      filtered := SubmissionsFor(id, allSubmissions);
    }

    /** `handleToggleStatus(form)`: asks the store for the opposite of the
        status the page shows; only the rows with that id change, and only
        in status and update time. The page reloads after a successful
        update. */
    method ToggleStatus(form: PublishedForm, fetchOk: bool, now: int)
      modifies this, db
      ensures db.submissions == old(db.submissions) && |db.forms| == |old(db.forms)|
      ensures forall i :: 0 <= i < |db.forms| ==>
                db.forms[i] == if old(db.forms)[i].id == form.id
                               then old(db.forms)[i].(status := Toggled(form.status), updated_at := Some(now))
                               else old(db.forms)[i]
      ensures var reloaded := |Filter(db.forms, FormWithId(form.id))| == 1 && fetchOk;
              var all := db.GetSubmissions(None);
              && (reloaded ==> State() == old(State()).(forms := db.GetAllForms(), allSubmissions := all,
                                                       filtered := SubmissionsFor(old(selectedFormId), all),
                                                       stats := StatsOf(db.GetAllForms(), all, now)))
              && (!reloaded ==> State() == old(State()))
      ensures old(Valid()) ==> Valid()
    {
      var r := db.UpdateForm(form.id, NoUpdates.(status := Some(Toggled(form.status))), now);
      forall i | 0 <= i < |db.forms| && old(db.forms)[i].id == form.id {
        StatusOnlyUpdate(old(db.forms)[i], Toggled(form.status), now);
      }
      if r.Ok? {
        LoadData(fetchOk, now);
      }
    }

    /** `getSelectedForm()`: a loaded form carrying the selected id, and
        nothing exactly when no loaded form carries it. */
    function SelectedForm(): (r: Option<PublishedForm>)
      reads this
      ensures r.Some? ==> r.value in forms && r.value.id == selectedFormId
      ensures r.None? <==> forall i :: 0 <= i < |forms| ==> forms[i].id != selectedFormId
    {
      var id := selectedFormId;
      Find(forms, (f: PublishedForm) => f.id == id)
    }

    /** What the export menu produces for the selected form: nothing when
        no loaded form is selected or the filter leaves no submission,
        otherwise the chosen format with one row per filtered submission. */
    function ExportSelected(format: Format, formatDate: int -> string): (r: Option<Export>)
      reads this
      ensures r.None? <==> SelectedForm().None? || filtered == []
      ensures r.Some? ==> match format
        case CsvFormat => r.value.Csv?
        case ExcelFormat => r.value.Sheet? && |r.value.rows| == |filtered|
        case PdfFormat => r.value.Pdf? && |r.value.body| == |filtered|
    {
      ExportOf(format, SelectedForm(), filtered, formatDate)
    }
  }

  /** With no form selected every export of a dashboard whose filter is up
      to date is the early return. */
  lemma NothingSelectedExportsNothing(page: AdminHomePage, format: Format, formatDate: int -> string)
    requires page.Valid() && page.selectedFormId == ""
    ensures page.ExportSelected(format, formatDate) == None
  {
  }
}
