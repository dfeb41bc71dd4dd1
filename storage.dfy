/** The browser's key/value store and the helpers that keep the builder's
    draft, the locally published forms and local submission lists in it.
    Every value is JSON text; the encoder and parser are passed in as a
    `JsonCodec`, since they are platform code. Reads are functions of the
    store's contents; writes are methods on the store. */
module Storage {
  import opened Wrappers
  import opened Types
  import opened Seqs

  const DraftKey := "internship_form_draft"
  const PublishedKey := "internship_published_forms"
  const SubmissionPrefix := "internship_submissions_"

  /** `JSON.stringify` and a `JSON.parse` that yields `None` where the
      original throws. */
  datatype JsonCodec<!T> = JsonCodec(encode: T -> string, decode: string -> Option<T>)

  /** What the platform's JSON promises for these records: parsing gives back
      what was written, and the text written is never empty. */
  ghost predicate Lawful<T(!new)>(codec: JsonCodec<T>) {
    forall x :: codec.decode(codec.encode(x)) == Some(x) && codec.encode(x) != ""
  }

  /** The three record shapes kept in the store. */
  datatype Codecs = Codecs(
    draft: JsonCodec<DraftFormState>,
    forms: JsonCodec<seq<PublishedForm>>,
    submissions: JsonCodec<seq<FormSubmission>>)

  ghost predicate LawfulCodecs(c: Codecs) {
    Lawful(c.draft) && Lawful(c.forms) && Lawful(c.submissions)
  }

  /** `window.localStorage`: string keys to string values. */
  class LocalStorage {
    var items: map<string, string>

    constructor ()
      ensures items == map[]
    {
      items := map[];
    }

    /** `getItem(key)`, with a missing key as `None`. */
    function GetItem(key: string): (r: Option<string>)
      reads this
      ensures r.Some? <==> key in items
      ensures r.Some? ==> r.value == items[key]
    {
      Get(items, key)
    }

    /** `setItem(key, value)` */
    method SetItem(key: string, value: string)
      modifies this
      ensures items == old(items)[key := value]
    {
      items := items[key := value];
    }

    /** `removeItem(key)` */
    method RemoveItem(key: string)
      modifies this
      ensures items == old(items) - {key}
    {
      items := items - {key};
    }
  }

  /** `parseJSON(value, fallback)`: a missing or empty value and text that
      does not parse both give the fallback. */
  function ParseJson<T>(value: Option<string>, fallback: T, decode: string -> Option<T>): (r: T)
    ensures value.None? || value == Some("") ==> r == fallback
    ensures r != fallback ==> value.Some? && decode(value.value) == Some(r)
  {
    if value.None? || value.value == "" then fallback
    else match decode(value.value)
      case Some(x) => x
      case None => fallback
  }

  /** Whatever was written by the encoder is read back, whatever the fallback. */
  lemma ParseJsonRoundTrip<T(!new)>(x: T, fallback: T, codec: JsonCodec<T>)
    requires Lawful(codec)
    ensures ParseJson(Some(codec.encode(x)), fallback, codec.decode) == x
  {
    assert codec.decode(codec.encode(x)) == Some(x) && codec.encode(x) != "";
  }

  /** The draft the store starts from. */
  const DefaultDraft := DraftFormState(
    "Untitled internship form",
    "Collect candidate details for your internship program.",
    [],
    None)

  /** `loadDraft()` over the store's contents. */
  function LoadDraft(items: map<string, string>, codecs: Codecs): (r: DraftFormState)
    ensures DraftKey !in items ==> r == DefaultDraft
    ensures r != DefaultDraft ==> DraftKey in items && codecs.draft.decode(items[DraftKey]) == Some(r)
  {
    ParseJson(Get(items, DraftKey), DefaultDraft, codecs.draft.decode)
  }

  /** With nothing stored, or after `resetDraft`, the default draft is loaded. */
  lemma LoadDraftWithoutEntry(items: map<string, string>, codecs: Codecs)
    requires DraftKey !in items
    ensures LoadDraft(items, codecs) == DefaultDraft
    ensures LoadRecentFields(items, codecs) == []
  {
  }

  /** `saveDraft(draft)`: stores the draft's JSON under the draft key. */
  method SaveDraft(store: LocalStorage, codecs: Codecs, draft: DraftFormState)
    modifies store
    ensures store.items == old(store.items)[DraftKey := codecs.draft.encode(draft)]
    ensures Lawful(codecs.draft) ==> LoadDraft(store.items, codecs) == draft
  {
    store.SetItem(DraftKey, codecs.draft.encode(draft));
    if Lawful(codecs.draft) {
      ParseJsonRoundTrip(draft, DefaultDraft, codecs.draft);
    }
  }

  /** A saved draft is the one loaded next, and its questions are the recent ones. */
  lemma SaveDraftThenLoad(items: map<string, string>, codecs: Codecs, draft: DraftFormState)
    requires Lawful(codecs.draft)
    ensures LoadDraft(items[DraftKey := codecs.draft.encode(draft)], codecs) == draft
    ensures LoadRecentFields(items[DraftKey := codecs.draft.encode(draft)], codecs) == draft.fields
  {
    ParseJsonRoundTrip(draft, DefaultDraft, codecs.draft);
  }

  /** `resetDraft()`: forgets the stored draft. */
  method ResetDraft(store: LocalStorage, codecs: Codecs)
    modifies store
    ensures store.items == old(store.items) - {DraftKey}
    ensures LoadDraft(store.items, codecs) == DefaultDraft
  {
    store.RemoveItem(DraftKey);
  }

  /** `loadPublishedForms()`: the stored list, empty when there is none. */
  function LoadPublishedForms(items: map<string, string>, codecs: Codecs): (r: seq<PublishedForm>)
    ensures PublishedKey !in items ==> r == []
    ensures r != [] ==> PublishedKey in items && codecs.forms.decode(items[PublishedKey]) == Some(r)
  {
    ParseJson(Get(items, PublishedKey), [], codecs.forms.decode)
  }

  /** `savePublishedForm(form)`: puts the form in front of the stored list. */
  method SavePublishedForm(store: LocalStorage, codecs: Codecs, form: PublishedForm)
    modifies store
    ensures store.items == old(store.items)[PublishedKey :=
              codecs.forms.encode([form] + LoadPublishedForms(old(store.items), codecs))]
    ensures Lawful(codecs.forms) ==>
              LoadPublishedForms(store.items, codecs) == [form] + LoadPublishedForms(old(store.items), codecs)
  {
    var existing := LoadPublishedForms(store.items, codecs);
    store.SetItem(PublishedKey, codecs.forms.encode([form] + existing));
    if Lawful(codecs.forms) {
      ParseJsonRoundTrip([form] + existing, [], codecs.forms);
    }
  }

  /** Saving a form puts it first and keeps the earlier forms in their order. */
  lemma SavePublishedFormPrepends(items: map<string, string>, codecs: Codecs, form: PublishedForm)
    requires Lawful(codecs.forms)
    ensures var after := items[PublishedKey := codecs.forms.encode([form] + LoadPublishedForms(items, codecs))];
      && LoadPublishedForms(after, codecs)[0] == form
      && LoadPublishedForms(after, codecs)[1..] == LoadPublishedForms(items, codecs)
  {
    ParseJsonRoundTrip([form] + LoadPublishedForms(items, codecs), [], codecs.forms);
  }

  /** `findPublishedForm(slug)`: the first stored form with that slug. */
  function FindPublishedForm(items: map<string, string>, codecs: Codecs, slug: string): (r: Option<PublishedForm>)
    ensures r.Some? ==> r.value.slug == slug && r.value in LoadPublishedForms(items, codecs)
    ensures r.None? <==> forall f | f in LoadPublishedForms(items, codecs) :: f.slug != slug
    ensures r.Some? ==> exists i | 0 <= i < |LoadPublishedForms(items, codecs)| ::
              && LoadPublishedForms(items, codecs)[i] == r.value
              && forall j | 0 <= j < i :: LoadPublishedForms(items, codecs)[j].slug != slug
  {
    var forms := LoadPublishedForms(items, codecs);
    var p := (f: PublishedForm) => f.slug == slug;
    var r := Find(forms, p);
    assert r.None? <==> forall i :: 0 <= i < |forms| ==> forms[i].slug != slug;
    assert r.Some? ==> var i := FindIndex(forms, p).value; forms[i] == r.value;
    r
  }

  /** A form just saved is found by its slug, ahead of older forms with the same slug. */
  lemma FindSavedForm(items: map<string, string>, codecs: Codecs, form: PublishedForm)
    requires Lawful(codecs.forms)
    ensures var after := items[PublishedKey := codecs.forms.encode([form] + LoadPublishedForms(items, codecs))];
      FindPublishedForm(after, codecs, form.slug) == Some(form)
  {
    ParseJsonRoundTrip([form] + LoadPublishedForms(items, codecs), [], codecs.forms);
  }

  /** `loadRecentFields()`: the questions of the stored draft. */
  function LoadRecentFields(items: map<string, string>, codecs: Codecs): (r: seq<FormField>)
    ensures DraftKey !in items ==> r == []
    ensures r != [] ==> DraftKey in items && exists d :: codecs.draft.decode(items[DraftKey]) == Some(d) && d.fields == r
  {
    LoadDraft(items, codecs).fields
  }

  /** The key of one form's local submission list. */
  function SubmissionKey(formId: string): string {
    SubmissionPrefix + formId
  }

  /** Different forms never share a submission list. */
  lemma SubmissionKeyInjective(a: string, b: string)
    requires a != b
    ensures SubmissionKey(a) != SubmissionKey(b)
  {
    assert SubmissionKey(a)[|SubmissionPrefix|..] == a;
    assert SubmissionKey(b)[|SubmissionPrefix|..] == b;
  }

  /** `loadSubmissions(formId)` */
  function LoadSubmissions(items: map<string, string>, codecs: Codecs, formId: string): (r: seq<FormSubmission>)
    ensures SubmissionKey(formId) !in items ==> r == []
    ensures r != [] ==> SubmissionKey(formId) in items && codecs.submissions.decode(items[SubmissionKey(formId)]) == Some(r)
  {
    ParseJson(Get(items, SubmissionKey(formId)), [], codecs.submissions.decode)
  }

  /** `saveSubmission(formId, submission)`: puts the submission in front of
      that form's list; no other key changes. */
  method SaveSubmission(store: LocalStorage, codecs: Codecs, formId: string, submission: FormSubmission)
    modifies store
    ensures store.items == old(store.items)[SubmissionKey(formId) :=
              codecs.submissions.encode([submission] + LoadSubmissions(old(store.items), codecs, formId))]
    ensures forall k | k != SubmissionKey(formId) :: Get(store.items, k) == Get(old(store.items), k)
  {
    var existing := LoadSubmissions(store.items, codecs, formId);
    store.SetItem(SubmissionKey(formId), codecs.submissions.encode([submission] + existing));
  }

  /** After saving a submission for one form, that form's list gains it in
      front and every other form's list reads as before. */
  lemma SaveSubmissionIsolated(items: map<string, string>, codecs: Codecs, formId: string,
                               submission: FormSubmission, other: string)
    requires Lawful(codecs.submissions)
    ensures var after := items[SubmissionKey(formId) :=
              codecs.submissions.encode([submission] + LoadSubmissions(items, codecs, formId))];
      && LoadSubmissions(after, codecs, formId) == [submission] + LoadSubmissions(items, codecs, formId)
      && (other != formId ==> LoadSubmissions(after, codecs, other) == LoadSubmissions(items, codecs, other))
  {
    ParseJsonRoundTrip([submission] + LoadSubmissions(items, codecs, formId), [], codecs.submissions);
    if other != formId {
      SubmissionKeyInjective(formId, other);
    }
  }
}
