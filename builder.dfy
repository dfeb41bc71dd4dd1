/** The form builder: the draft's questions are appended from the palette,
    edited, removed and reordered, and the finished draft is published with
    an opening window and a share link. Every change to the draft is saved
    to the browser's store by the page's effect. */
module Builder {
  import opened Wrappers
  import opened Strings
  import opened Types
  import opened Seqs
  import opened FormRules
  import opened Storage
  import opened Sorting

  /** The builder's own starting draft, which differs in its description
      from the store's default. */
  const BuilderDefault := DraftFormState(
    "Untitled internship form",
    "Outline your internship intake requirements.",
    [],
    None)

  /** One hour in milliseconds. */
  const HourMs := 60 * 60 * 1000

  // ---------------------------------------------------------------------
  // Questions

  /** Appending a palette template (by drop or by click): one new question
      with a fresh id at the end, everything else as it was. */
  function AppendTemplate(draft: DraftFormState, t: FieldTemplate, id: string): (r: DraftFormState)
    ensures r.title == draft.title && r.description == draft.description && r.theme == draft.theme
    ensures |r.fields| == |draft.fields| + 1 && r.fields[..|draft.fields|] == draft.fields
    ensures r.fields[|draft.fields|].id == id && WithoutId(r.fields[|draft.fields|]) == t
  {
    var f := CreateFieldFromTemplate(t, id);
    var r := draft.(fields := draft.fields + [f]);
    assert r.fields[..|draft.fields|] == draft.fields;
    r
  }

  /** The keys the page ever passes to `updateField`: the label, the
      required flag and the dropdown options. */
  datatype FieldPatch = FieldPatch(caption: Option<string>, required: Option<bool>, options: Option<seq<string>>)

  /** `{ ...field, ...updates }` */
  function Merge(f: FormField, u: FieldPatch): (r: FormField)
    ensures r.id == f.id && r.kind == f.kind
    ensures u == FieldPatch(None, None, None) ==> r == f
  {
    f.(caption := u.caption.GetOr(f.caption),
       required := u.required.GetOr(f.required),
       options := if u.options.Some? then u.options else f.options)
  }

  /** `updateField(id, updates)` over the question list. */
  function UpdateField(fields: seq<FormField>, id: string, u: FieldPatch): (r: seq<FormField>)
    ensures |r| == |fields|
    ensures forall i :: 0 <= i < |fields| ==> r[i] == if fields[i].id == id then Merge(fields[i], u) else fields[i]
  {
    seq(|fields|, i requires 0 <= i < |fields| => if fields[i].id == id then Merge(fields[i], u) else fields[i])
  }

  /** An update keeps every question's id and kind in place, and applying
      the same update twice is applying it once. */
  lemma UpdateFieldKeepsShape(fields: seq<FormField>, id: string, u: FieldPatch)
    ensures forall i :: 0 <= i < |fields| ==>
              UpdateField(fields, id, u)[i].id == fields[i].id && UpdateField(fields, id, u)[i].kind == fields[i].kind
    ensures UpdateField(UpdateField(fields, id, u), id, u) == UpdateField(fields, id, u)
  {
  }

  /** An update for an id no question has changes nothing. */
  lemma UpdateAbsentId(fields: seq<FormField>, id: string, u: FieldPatch)
    requires forall i :: 0 <= i < |fields| ==> fields[i].id != id
    ensures UpdateField(fields, id, u) == fields
  {
  }

  /** `removeField(id)`: `fields.filter((field) => field.id !== id)`. */
  function RemoveField(fields: seq<FormField>, id: string): (r: seq<FormField>)
    ensures forall f :: f in r <==> f in fields && f.id != id
  {
    Filter(fields, (f: FormField) => f.id != id)
  }

  /** Removal keeps the order of what stays: removing from a concatenation
      is concatenating the removals. */
  lemma {:induction false} RemoveFieldSplits(a: seq<FormField>, b: seq<FormField>, id: string)
    ensures RemoveField(a + b, id) == RemoveField(a, id) + RemoveField(b, id)
  {
    if a != [] {
      RemoveFieldSplits(a[1..], b, id);
      assert (a + b)[1..] == a[1..] + b;
      assert (a + b)[0] == a[0];
    } else {
      assert a + b == b;
    }
  }

  /** Removing an id no question has changes nothing; removing the question
      just appended gives back the list before it (when its id is fresh). */
  lemma {:induction false} RemoveAbsentId(fields: seq<FormField>, id: string)
    requires forall i :: 0 <= i < |fields| ==> fields[i].id != id
    ensures RemoveField(fields, id) == fields
  {
    if fields != [] {
      RemoveAbsentId(fields[1..], id);
      ConsTail(fields);
    }
  }

  lemma RemoveAppended(fields: seq<FormField>, f: FormField)
    requires forall i :: 0 <= i < |fields| ==> fields[i].id != f.id
    ensures RemoveField(fields + [f], f.id) == fields
  {
    RemoveFieldSplits(fields, [f], f.id);
    RemoveAbsentId(fields, f.id);
    assert RemoveField([f], f.id) == [];
  }

  // ---------------------------------------------------------------------
  // Reordering

  /** The position a question moves to. */
  function MoveTarget(index: int, up: bool): int {
    if up then index - 1 else index + 1
  }

  /** The two slots exchanged, or the list itself when the target falls
      outside it. */
  function Moved(fields: seq<FormField>, index: nat, up: bool): (r: seq<FormField>)
    requires index < |fields|
    ensures |r| == |fields|
    ensures multiset(r) == multiset(fields)
  {
    var t := MoveTarget(index, up);
    if t < 0 || t >= |fields| then fields
    else
      var s1 := fields[index := fields[t]];
      assert multiset(s1) == multiset(fields) - multiset{fields[index]} + multiset{fields[t]};
      assert multiset(s1[t := fields[index]]) == multiset(s1) - multiset{s1[t]} + multiset{fields[index]};
      s1[t := fields[index]]
  }

  /** `moveField(index, direction)`: copies the list into a fresh array and
      swaps the two slots in place. */
  method MoveField(fields: seq<FormField>, index: nat, up: bool) returns (next: seq<FormField>)
    requires index < |fields|
    ensures next == Moved(fields, index, up)
  {
    var target := MoveTarget(index, up);
    if target < 0 || target >= |fields| {
      return fields;
    }
    var a := new FormField[|fields|](i requires 0 <= i < |fields| => fields[i]);
    a[index], a[target] := a[target], a[index];
    next := a[..];
  }

  /** A move exchanges the two slots and leaves every other one alone, so the
      questions are the same, only reordered. */
  lemma MovedSwaps(fields: seq<FormField>, index: nat, up: bool)
    requires index < |fields|
    ensures var t := MoveTarget(index, up);
      0 <= t < |fields| ==> && Moved(fields, index, up)[index] == fields[t]
                            && Moved(fields, index, up)[t] == fields[index]
    ensures forall k :: 0 <= k < |fields| && k != index && k != MoveTarget(index, up) ==>
              Moved(fields, index, up)[k] == fields[k]
  {
  }

  /** The first question cannot move up and the last cannot move down. */
  lemma EndsDoNotMove(fields: seq<FormField>)
    requires fields != []
    ensures Moved(fields, 0, true) == fields
    ensures Moved(fields, |fields| - 1, false) == fields
  {
  }

  /** Moving a question up and then moving it back down restores the list. */
  lemma MoveUpThenDown(fields: seq<FormField>, index: nat)
    requires 0 < index < |fields|
    ensures Moved(Moved(fields, index, true), index - 1, false) == fields
  {
    var once := Moved(fields, index, true);
    assert once == fields[index := fields[index - 1]][index - 1 := fields[index]];
    var twice := Moved(once, index - 1, false);
    assert twice == once[index - 1 := once[index]][index := once[index - 1]];
    assert forall k :: 0 <= k < |fields| ==> twice[k] == fields[k];
  }

  // ---------------------------------------------------------------------
  // Dropdown options

  /** The options a dropdown question shows: `field.options || []`. */
  function OptionsOf(f: FormField): seq<string> {
    f.options.GetOr([])
  }

  /** Editing the text of one option. */
  function SetOption(opts: seq<string>, i: nat, text: string): (r: seq<string>)
    requires i < |opts|
    ensures |r| == |opts| && r[i] == text
    ensures forall j :: 0 <= j < |opts| && j != i ==> r[j] == opts[j]
  {
    opts[i := text]
  }

  /** `filter((_, idx) => idx !== optionIndex)`: the option at `i` goes and
      the later ones move up by one. */
  function RemoveOptionAt(opts: seq<string>, i: nat): (r: seq<string>)
    requires i < |opts|
    ensures |r| == |opts| - 1
    ensures forall j :: 0 <= j < i ==> r[j] == opts[j]
    ensures forall j :: i <= j < |r| ==> r[j] == opts[j + 1]
  {
    opts[..i] + opts[i + 1..]
  }

  /** "Add option": a new option labelled with its one-based position. */
  function AddOption(opts: seq<string>): (r: seq<string>)
    ensures |r| == |opts| + 1 && r[..|opts|] == opts
    ensures r[|opts|] == "Option " + NatToString(|opts| + 1)
  {
    var r := opts + ["Option " + NatToString(|opts| + 1)];
    assert r[..|opts|] == opts;
    r
  }

  /** Removing the option just added gives the list back. */
  lemma AddThenRemoveOption(opts: seq<string>)
    ensures RemoveOptionAt(AddOption(opts), |opts|) == opts
  {
    assert AddOption(opts)[..|opts|] == opts;
  }

  // ---------------------------------------------------------------------
  // Publishing

  /** The record `handlePublish` stores: the window opens at `now` and closes
      `openHours` hours later. */
  function NewPublishedForm(draft: DraftFormState, name: string, openHours: int,
                            id: string, suffix: string, now: int): (f: PublishedForm)
    ensures f.openAt == now && f.createdAt == now && f.closeAt == now + openHours * 3600000
    ensures f.fields == draft.fields && f.name == name && f.id == id
    ensures f.slug == SlugStem(name) + "-" + suffix
  {
    PublishedForm(id, BuildSlug(name, suffix), name, now, now + openHours * HourMs, draft.fields, now, Published,
                  None, None, None, None, None, None, None, None, None, None)
  }

  /** With a positive number of hours the form is live from the moment it
      is published until its close time; with a negative number it is never
      live (the number input only suggests a minimum of one). */
  lemma PublishedWindow(draft: DraftFormState, name: string, openHours: int, id: string, suffix: string, now: int)
    ensures var f := NewPublishedForm(draft, name, openHours, id, suffix, now);
      && (openHours > 0 ==> IsFormLive(f, now) && IsFormLive(f, f.closeAt) && IsFormClosed(f, f.closeAt + 1))
      && (openHours < 0 ==> forall t :: !IsFormLive(f, t))
  {
    var f := NewPublishedForm(draft, name, openHours, id, suffix, now);
    if openHours < 0 {
      assert openHours * HourMs < 0;
      InvertedWindowNeverLive(f);
    } else if openHours > 0 {
      assert openHours * HourMs > 0;
    }
  }

  /** The share link: `${origin}/form/${slug}`. */
  function ShareUrl(origin: string, slug: string): (url: string)
    ensures |url| == |origin| + 6 + |slug|
    ensures url[..|origin|] == origin && url[|origin|..|origin| + 6] == "/form/" && url[|url| - |slug|..] == slug
  {
    origin + "/form/" + slug
  }

  /** The page's own state, all of it. */
  datatype BuilderState = BuilderState(draft: DraftFormState, publishOpen: bool, shareUrl: string,
                                       forms: seq<PublishedForm>)

  class BuilderPage {
    var draft: DraftFormState
    var publishOpen: bool
    var shareUrl: string
    var forms: seq<PublishedForm>
    const store: LocalStorage
    const codecs: Codecs

    constructor (store: LocalStorage, codecs: Codecs)
      ensures this.store == store && this.codecs == codecs
      ensures draft == BuilderDefault && !publishOpen && shareUrl == "" && forms == []
    {
      this.store := store;
      this.codecs := codecs;
      draft := BuilderDefault;
      publishOpen := false;
      shareUrl := "";
      forms := [];
    }

    function State(): BuilderState
      reads this
    {
      BuilderState(draft, publishOpen, shareUrl, forms)
    }

    /** The forms of the history list: the same forms, newest first. */
    function SortedForms(): (r: seq<PublishedForm>)
      reads this
      ensures SortedDesc(r, FormCreatedAt)
      ensures multiset(r) == multiset(forms)
    {
      NewestFirst(forms)
    }

    /** A new draft, and the effect that saves every draft it sees. */
    method Commit(next: DraftFormState)
      modifies this, store
      ensures State() == old(State()).(draft := next)
      ensures store.items == old(store.items)[DraftKey := codecs.draft.encode(next)]
    {
      draft := next;
      SaveDraft(store, codecs, next);
    }

    /** Mounting: the stored draft and forms are loaded. The saving effect
        first sees the initial draft and then the loaded one, so the store
        ends up holding the loaded draft. */
    method Mount()
      modifies this, store
      ensures var loaded := LoadDraft(old(store.items), codecs);
        && State() == old(State()).(draft := loaded, forms := LoadPublishedForms(old(store.items), codecs))
        && store.items == old(store.items)[DraftKey := codecs.draft.encode(loaded)]
      ensures Lawful(codecs.draft) ==> LoadDraft(store.items, codecs) == draft
    {
      var loaded := LoadDraft(store.items, codecs);
      forms := LoadPublishedForms(store.items, codecs);
      SaveDraft(store, codecs, draft);
      draft := loaded;
      SaveDraft(store, codecs, loaded);
    }

    /** Dropping or clicking a palette template. */
    method AddTemplate(t: FieldTemplate, id: string)
      modifies this, store
      ensures State() == old(State()).(draft := AppendTemplate(old(draft), t, id))
      ensures store.items == old(store.items)[DraftKey := codecs.draft.encode(draft)]
    {
      Commit(AppendTemplate(draft, t, id));
    }

    method EditField(id: string, u: FieldPatch)
      modifies this, store
      ensures State() == old(State()).(draft := old(draft).(fields := UpdateField(old(draft.fields), id, u)))
      ensures store.items == old(store.items)[DraftKey := codecs.draft.encode(draft)]
    {
      Commit(draft.(fields := UpdateField(draft.fields, id, u)));
    }

    method DeleteField(id: string)
      modifies this, store
      ensures State() == old(State()).(draft := old(draft).(fields := RemoveField(old(draft.fields), id)))
      ensures store.items == old(store.items)[DraftKey := codecs.draft.encode(draft)]
    {
      Commit(draft.(fields := RemoveField(draft.fields, id)));
    }

    /** The arrows beside a question; `index` is the question's position. */
    method Move(index: nat, up: bool)
      requires index < |draft.fields|
      modifies this, store
      ensures State() == old(State()).(draft := old(draft).(fields := Moved(old(draft.fields), index, up)))
      ensures store.items == old(store.items)[DraftKey := codecs.draft.encode(draft)]
    {
      var next := MoveField(draft.fields, index, up);
      Commit(draft.(fields := next));
    }

    /** `handlePublish({ name, openHours })`. Without questions nothing
        happens. Otherwise the new form is put in front of the stored list,
        the draft is reset, the history is reloaded and the share link is
        shown; the saving effect then stores the builder's default draft. */
    method HandlePublish(name: string, openHours: int, id: string, suffix: string, now: int, origin: string)
      modifies this, store
      ensures |old(draft.fields)| == 0 ==> State() == old(State()) && store.items == old(store.items)
      ensures |old(draft.fields)| > 0 ==>
                var f := NewPublishedForm(old(draft), name, openHours, id, suffix, now);
                var saved := WithPublished(old(store.items), codecs, f);
                && store.items == (saved - {DraftKey})[DraftKey := codecs.draft.encode(BuilderDefault)]
                && State() == BuilderState(BuilderDefault, false, ShareUrl(origin, f.slug),
                                           LoadPublishedForms(saved, codecs))
    {
      if |draft.fields| == 0 {
        return;
      }
      var f := NewPublishedForm(draft, name, openHours, id, suffix, now);
      StoreForm(f);
      forms := LoadPublishedForms(store.items, codecs);
      shareUrl := ShareUrl(origin, f.slug);
      publishOpen := false;
      Commit(BuilderDefault);
    }

    /** `savePublishedForm(newForm)` followed by `resetDraft()`. */
    method StoreForm(f: PublishedForm)
      modifies store
      ensures store.items == WithPublished(old(store.items), codecs, f) - {DraftKey}
      ensures LoadPublishedForms(store.items, codecs) == LoadPublishedForms(WithPublished(old(store.items), codecs, f), codecs)
    {
      SavePublishedForm(store, codecs, f);
      ResetDraft(store, codecs);
      assert Get(store.items, PublishedKey) == Get(WithPublished(old(store.items), codecs, f), PublishedKey);
    }
  }

  /** The store after `savePublishedForm(f)`. */
  function WithPublished(items: map<string, string>, codecs: Codecs, f: PublishedForm): map<string, string> {
    items[PublishedKey := codecs.forms.encode([f] + LoadPublishedForms(items, codecs))]
  }

  /** After publishing (with well-behaved JSON) the new form heads the
      history, the older forms follow in their order, its link finds it, and
      the builder starts again from its default draft. */
  lemma PublishOutcome(items: map<string, string>, codecs: Codecs, f: PublishedForm)
    requires Lawful(codecs.forms) && Lawful(codecs.draft)
    ensures var saved := WithPublished(items, codecs, f);
      var after := (saved - {DraftKey})[DraftKey := codecs.draft.encode(BuilderDefault)];
      && LoadPublishedForms(saved, codecs) == [f] + LoadPublishedForms(items, codecs)
      && FindPublishedForm(saved, codecs, f.slug) == Some(f)
      && LoadDraft(after, codecs) == BuilderDefault
  {
    SavePublishedFormPrepends(items, codecs, f);
    FindSavedForm(items, codecs, f);
    var saved := WithPublished(items, codecs, f);
    SaveDraftThenLoad(saved - {DraftKey}, codecs, BuilderDefault);
    assert LoadPublishedForms(saved, codecs) == [LoadPublishedForms(saved, codecs)[0]] + LoadPublishedForms(saved, codecs)[1..];
  }
}
