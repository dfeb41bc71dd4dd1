# Internship form builder — a verified model

This project models the logic underneath a small job-application form
builder. In the original system, administrators build a form from field
templates, publish it for a window of hours and share a link. Applicants
then answer it on a single-form page or through a board of openings with a
modal. Administrators see statistics, toggle forms between published and
unpublished, and export submissions as CSV, spreadsheet or PDF. A build step
writes `robots.txt` and `sitemap.xml`.

The model covers, module by module:

- `Types` holds the records of `src/types.ts`: the fourteen field kinds, questions, drafts,
  published forms with their two-valued status, and submissions whose
  answers are stored as one string per question id.
- `FormRules` covers `src/utils/form.ts`:
  - the template catalogue and `createFieldFromTemplate`;
  - `buildSlug`, split into its lower-case, collapse, trim, truncate and suffix steps;
  - the publishing window (`isFormLive`, `isFormClosed`);
  - the newest-first sort that the builder's history and the job board share.
- `Storage` covers `src/utils/storage.ts`. The browser's key/value store is
  the `LocalStorage` class. JSON encoding of records is an abstract codec.
  Its `Lawful` predicate states the round trip that `JSON.parse` and
  `JSON.stringify` give.
- `Db` covers `src/services/db.ts`. The hosted tables are modelled as the
  in-memory `Database` class. Each query (filter, order, single row) and
  each insert, update and delete is an operation on sequences of rows.
  `updateForm` builds its patch key by key.
- `Answers` holds what the two public pages share: `isEmpty`,
  `serializeValues`, the required-answer pass and the applicant key.
- `PublicForm` covers the single-form page: loading, the order of early
  returns on screen, and `handleSubmit`.
- `PublicForms` covers the job board:
  - the lock reconciliation in `fetchForms`, which clears stale markers;
  - the `disabled` rule;
  - the modal's screens;
  - `handleModalSubmit`, which locks the form even when the remote write fails.
- `Builder` covers the builder page: append on drop or click, update,
  remove and move of questions, dropdown option edits, and `handlePublish`.
- `Exports` covers the row construction of the three exports and the table
  cells, which both admin pages share.
- `AdminHome` covers the dashboard: statistics, status toggle, the
  submission filter and the label lookup.
- `AdminSubmissions` covers the stand-alone submissions page.
- `Seo` covers `tools/generate-seo-assets.mjs`: normalising the site
  address, the fallback, and the robots and sitemap texts.
- `Json` models `JSON.stringify` of a string, together with a decoder for
  it. `Strings`, `Seqs` and `Sorting` model the string, array and sort
  built-ins the source relies on.

Time is an integer number of milliseconds and is passed in as `now`.
Generated ids, slug suffixes and the window's origin are parameters. So is
whether a remote call succeeded (`fetchOk`, `remoteOk`). Locale date
rendering is a function parameter `formatDate`. `hasApplicantSubmitted` is
a parameter as well, because `src/utils/storage.ts` does not define it.

Behaviours of the code worth noting:

- the CSV header is not quoted;
- `deleteForm` leaves the form's submissions in place;
- the builder page's default draft has a different description from the
  store's default draft, and both are modelled;
- `handlePublish` builds its record without a `status` and stores it
  locally only. The model gives that record `Published`.
- (not executed; read from the code) both submit handlers call
  `event.currentTarget.reset()` after an `await`
  (src/pages/PublicFormPage.tsx:104, src/pages/PublicFormsPage.tsx:183
  and :198). React clears `currentTarget` once the handler first yields,
  so that call throws. On the single-form page a successful write then
  ends in the catch and its "Failed to submit" alert, after the marker,
  the lock and the success status are already set. On the job board the
  catch repeats the same updates and then throws from its own `reset()`,
  so its warning is never logged. The state the model computes is the
  same in every case; the form fields are not cleared and the alert is
  UI.

## Model

| member | source | states |
|---|---|---|
| FormRules.CreateFieldFromTemplate | src/utils/form.ts:41-44 | the new question has the fresh id and, apart from the id, exactly the template's attributes |
| FormRules.CreateFromWithoutId | src/utils/form.ts:41-44 | a question rebuilt from its own attributes and id is the same question |
| FormRules.TemplateCatalogue | src/utils/form.ts:3-39 | six templates; a template is required exactly when it is the email one; the dropdown starts with `Option 1`, `Option 2` |
| FormRules.Collapse | src/utils/form.ts:49 | after replacing runs of other characters by one hyphen, only `a-z`, `0-9` and `-` remain and no two hyphens are adjacent; a leading slug character is kept |
| FormRules.TrimHyphens | src/utils/form.ts:50 | the result neither starts nor ends with a hyphen |
| FormRules.SlugBase | src/utils/form.ts:47-51 | the base is at most 40 characters, slug text, and never starts with a hyphen |
| FormRules.SlugStem | src/utils/form.ts:53 | the part before the suffix has 1 to 40 characters, is slug text and does not start with a hyphen; an empty base gives `form` |
| FormRules.BuildSlug | src/utils/form.ts:46-54 | the slug ends with `-` and the suffix, after the stem |
| FormRules.TruncationCanLeaveHyphen | src/utils/form.ts:49-53 | a 39-letter name followed by ` b` gives a base ending in `-`, so the slug has a double hyphen before the suffix |
| FormRules.CollapseSpaceB | src/utils/form.ts:49 | collapsing ` b` gives `-b` |
| FormRules.SlugBaseFixesCleanNames | src/utils/form.ts:47-51 | a name that is already slug text of at most 40 characters, with no hyphen at either end, is its own base |
| FormRules.CollapseOfSlugText | src/utils/form.ts:49 | collapsing slug text changes nothing |
| FormRules.IsFormClosed | src/utils/form.ts:61-63 | a form is closed exactly when `now` is after its close time |
| FormRules.IsFormLive | src/utils/form.ts:56-59 | a live form has a window that opens no later than it closes, and is not closed |
| FormRules.WindowPhases | src/utils/form.ts:56-63 | live and closed never hold together; with a proper window, every instant is before the window, inside it or after it |
| FormRules.InvertedWindowNeverLive | src/utils/form.ts:58 | a form whose window opens after it closes is live at no instant |
| FormRules.NewestFirst | src/pages/PublicFormsPage.tsx:104-110 | the shown list is the loaded list reordered, sorted by creation time with the newest first |
| Sorting.SortDescSorts | src/services/db.ts:27-36 | the order-by-descending used by the queries and the pages sorts and is a permutation |
| Storage.ParseJson | src/utils/storage.ts:13-20 | a missing or empty value gives the fallback; any other result is the decoded value |
| Storage.ParseJsonRoundTrip | src/utils/storage.ts:13-20 | parsing an encoded value gives that value back |
| Storage.LoadDraftWithoutEntry | src/utils/storage.ts:22-24 | with no draft stored, the default draft is loaded and the recent fields are empty |
| Storage.LoadDraft | src/utils/storage.ts:22-24 | with no draft stored, the default draft; any other draft is the decoding of the stored text |
| Storage.LoadRecentFields | src/utils/storage.ts:48-50 | with no draft stored, no questions; any questions are those of the decoded stored draft |
| Storage.LoadPublishedForms | src/utils/storage.ts:34-36 | with nothing stored, no forms; any forms are the decoding of the stored list |
| Storage.LoadSubmissions | src/utils/storage.ts:52-54 | with nothing stored for the form, no submissions; any submissions are the decoding of that form's stored text |
| Storage.SaveDraft | src/utils/storage.ts:26-28 | the draft key holds the encoded draft, and loading then gives that draft |
| Storage.SaveDraftThenLoad | src/utils/storage.ts:22-28 | saving and then loading a draft gives it back, and its questions are the recent fields |
| Storage.ResetDraft | src/utils/storage.ts:30-32 | only the draft key is removed, after which the default draft is loaded |
| Storage.SavePublishedForm | src/utils/storage.ts:38-42 | the stored list becomes the new form followed by the old list |
| Storage.SavePublishedFormPrepends | src/utils/storage.ts:38-42 | after saving, the loaded list is the form followed by the previous list in its order |
| Storage.FindPublishedForm | src/utils/storage.ts:44-46 | the result is the first stored form with that slug, and none exactly when no stored form has it |
| Storage.FindSavedForm | src/utils/storage.ts:38-46 | a form just saved is the one found by its slug |
| Storage.SubmissionKeyInjective | src/utils/storage.ts:5 | different forms have different submission keys |
| Storage.SaveSubmission | src/utils/storage.ts:56-60 | only the form's own key changes, and it now holds the submission followed by the old list |
| Storage.SaveSubmissionIsolated | src/utils/storage.ts:52-60 | after saving, that form's list starts with the submission, and every other form's list is unchanged |
| Db.MapForm | src/services/db.ts:4-23 | each column is copied unchanged into its camel-case field |
| Db.MapFormRoundTrip | src/services/db.ts:4-23 | mapping loses only the update time: the row is rebuilt from the record, and the record from its row |
| Db.ToSubmission | src/services/db.ts:161-168 | each submission column is copied into its field |
| Db.BuildPatch | src/services/db.ts:83-98 | the patch built key by key is the patch function of the updates |
| Db.PatchOf | src/services/db.ts:83-98 | status, questions, theme, window and lists are taken as given; a text column is set exactly for a non-empty string, so never to `''` |
| Db.ApplyPatch | src/services/db.ts:100-108 | id, slug and creation time are kept and the update time is stamped; an empty patch only stamps the time |
| Db.UpdatedRow | src/services/db.ts:83-108 | id, slug and creation time are kept and the update time is stamped; a text column changes only for a non-empty string; a list column takes any list, including an empty one |
| Db.EmptyUpdateOnlyStamps | src/services/db.ts:100-108 | an update naming nothing only stamps the update time |
| Db.StatusOnlyUpdate | src/services/db.ts:100-108 | a status update changes the status and the update time, and nothing else |
| Db.BlankStringsKeepColumns | src/services/db.ts:84-91 | empty strings never overwrite the name, description or job type |
| Db.MapForms | src/services/db.ts:35 | one record per row, in order, each the mapped row |
| Db.Single | src/services/db.ts:48-57 | a single row is returned exactly when the query matched one row |
| Db.FormQueryFacts | src/services/db.ts:27-46 | the form listing is newest first; it holds the published rows, or all rows, with their multiplicities |
| Db.PublishedQueryExact | src/services/db.ts:27-36 | a row is listed as published exactly when it is in the table with status published |
| Db.SubmissionQueryFacts | src/services/db.ts:148-169 | the submission listing is newest first; it holds the given form's rows, or all rows when no id is given |
| Db.SubmissionQueryExact | src/services/db.ts:148-157 | a row is listed exactly when it belongs to the given form, or to any form when no id is given |
| Db.Database.GetPublishedForms | src/services/db.ts:27-36 | one record per published row, each with status published |
| Db.Database.GetAllForms | src/services/db.ts:38-46 | one record per row, and every row's record is listed |
| Db.Database.GetSubmissions | src/services/db.ts:148-169 | without a form id, one submission per row; with one, only that form's submissions |
| Db.ToSubmissions | src/services/db.ts:161-168 | one submission per row, in order |
| Db.MapFormsHas | src/services/db.ts:35 | every row's mapped record is in the listing |
| Db.Database.GetFormBySlug | src/services/db.ts:48-57 | a form is found exactly when one row has the slug, and it is then that row's record; with no row of that slug, or several, the result is an error |
| Db.Database.CreateForm | src/services/db.ts:59-79 | the stored name is the given name when non-empty and otherwise the title; the row is appended; submissions are unchanged |
| Db.Database.UpdateForm | src/services/db.ts:81-112 | only the rows with that id change, each by the patch; the result is the single updated row or an error |
| Db.Database.DeleteForm | src/services/db.ts:114-121 | exactly the rows with other ids remain, and no submission is deleted |
| Db.DeleteFormExact | src/services/db.ts:114-121 | a row survives the delete exactly when its id differs |
| Db.Database.CreateSubmission | src/services/db.ts:124-146 | the new row is appended and returned as a submission; forms are unchanged |
| Db.Database.UpdateSubmission | src/services/db.ts:171-189 | the rows with that id take the new answers; the result is the updated row when exactly one row has that id, and an error when none or several do |
| Db.SingleSubmission | src/services/db.ts:179-189 | `.single()` on the updated rows: a submission exactly when there is one row, and then that row's |
| Db.UpdatedSubmissionsHaveValues | src/services/db.ts:171-189 | after the update every row with that id carries the new answers; with no such row the filter is empty |
| Db.Database.DeleteSubmission | src/services/db.ts:191-198 | exactly the submissions with other ids remain |
| Answers.TextAnswerEmptyIff | src/pages/PublicFormPage.tsx:541-542 | for text-like kinds an answer is empty exactly when it is the empty string |
| Answers.CheckboxesAnsweredIff | src/pages/PublicFormPage.tsx:531-532 | a checkboxes question is answered exactly when the answer is a non-empty list |
| Answers.FilledGridIsAnswered | src/pages/PublicFormPage.tsx:533-540 | a grid whose every row has a non-empty answer is answered, also when it has no rows |
| Answers.MissingRowIsEmpty | src/pages/PublicFormPage.tsx:533-540 | a grid answer missing one row is empty |
| Answers.IsEmpty | src/pages/PublicFormPage.tsx:528-544 | no answer and the empty string are empty for every kind; an empty list is empty for every kind but the grids |
| Answers.SerializeListRoundTrip | src/pages/PublicFormPage.tsx:549-550 | a list answer stored by joining with `, ` parses back to the list |
| Answers.Serialize | src/pages/PublicFormPage.tsx:549-556 | an empty list is stored as `''`, like a missing answer; a single choice is stored as itself |
| Answers.SerializeValues | src/pages/PublicFormPage.tsx:546-559 | exactly one stored string per question id: lists joined, grids encoded, missing or empty as `''`; answers to other ids are dropped |
| Answers.AllRequiredAnsweredIff | src/pages/PublicFormPage.tsx:76-84 | all required questions are answered exactly when no required question is empty |
| Answers.RequiredErrors | src/pages/PublicFormPage.tsx:77-84 | one `Required` error for every required empty question; none exactly when all are answered |
| Answers.EmailField | src/pages/PublicFormPage.tsx:65 | the result is the first email question |
| Answers.NormaliseEmail | src/pages/PublicFormPage.tsx:71 | the key is trimmed, lower case and no longer than the input |
| Answers.NormaliseIdempotent | src/pages/PublicFormPage.tsx:71 | normalising twice is normalising once |
| Answers.NormaliseIgnoresCaseAndPadding | src/pages/PublicFormPage.tsx:71 | surrounding white space and case do not change the key |
| Answers.ApplicantKey | src/pages/PublicFormPage.tsx:68-72 | a key exists only for a form with an email question, and it is trimmed and lower case |
| Answers.BlankEmailSkipsDuplicateCheck | src/pages/PublicFormPage.tsx:79-87 | a white-space email passes the required check but gives the empty key, so the duplicate check is skipped |
| PublicForm.MarkerKeysApart | src/pages/PublicFormPage.tsx:11 | marker keys are one per form and never meet the draft, published-list or submission keys |
| PublicForm.ScreenOf | src/pages/PublicFormPage.tsx:38-160 | the questions, thank-you and already-submitted screens appear only for a loaded live form; the questions only when unlocked and not just submitted |
| PublicForm.QuestionsShownIff | src/pages/PublicFormPage.tsx:38-160 | the questions are shown exactly when the form is loaded and live, the page is not locked, and no submission has just succeeded |
| PublicForm.ReloadAfterSubmitShowsNotice | src/pages/PublicFormPage.tsx:28 | reopening a live form once its marker is set shows the already-submitted notice |
| PublicForm.DuplicateHasEmailField | src/pages/PublicFormPage.tsx:86-94 | a duplicate comes only from a form with an email question |
| PublicForm.PublicFormPage.Load | src/pages/PublicFormPage.tsx:22-36 | with a slug, the page holds the form found and is locked exactly when that form's marker is set; loading ends |
| PublicForm.PublicFormPage.HandleSubmit | src/pages/PublicFormPage.tsx:74-111 | locked: no change; otherwise every required error and no write; a duplicate gives an email error and no write; a successful write appends the serialised row, sets the marker and locks; a failed write sets neither |
| PublicForm.PublicFormPage.Submit | src/pages/PublicFormPage.tsx:86-110 | the duplicate check, then the write and the marker only on success |
| PublicForm.PublicFormPage.Record | src/pages/PublicFormPage.tsx:96-105 | the row is appended, the marker is `yes`, and the page is locked with cleared answers |
| PublicForm.PublicFormPage.MarkDuplicate | src/pages/PublicFormPage.tsx:88-92 | status duplicate and the email question's error |
| PublicForms.UserEmailKeysApart | src/pages/PublicFormsPage.tsx:66 | remembered-email keys are one per form and never meet the other keys |
| PublicForms.HasDbSubmissionIff | src/pages/PublicFormsPage.tsx:65-73 | the check finds a match exactly when a stored row of that form answers the email question with the remembered email, ignoring case |
| PublicForms.LockStep | src/pages/PublicFormsPage.tsx:56-89 | the lock holds exactly when the marker survives; only this form's marker and email may be removed |
| PublicForms.LockedIffStoredMatch | src/pages/PublicFormsPage.tsx:57-82 | with an email question: locked exactly when the marker is set, an email is remembered and a stored row of that form matches it |
| PublicForms.RecordedSubmissionStaysLocked | src/pages/PublicFormsPage.tsx:165-180 | a submission that reached the table keeps its form locked on the next load |
| PublicForms.UnsyncedSubmissionIsUndone | src/pages/PublicFormsPage.tsx:74-82 | after a failed write with no matching stored row, the next load unlocks the form and forgets the marker and the email |
| PublicForms.LockStepIdempotent | src/pages/PublicFormsPage.tsx:56-89 | reconciling a second time changes nothing |
| PublicForms.StepKeepsOtherMarkers | src/pages/PublicFormsPage.tsx:56-89 | one form's step leaves every other form's marker as it was |
| PublicForms.ReconcileAgrees | src/pages/PublicFormsPage.tsx:55-92 | after the loop every form has a lock, each lock agrees with its stored marker, and entries are only removed |
| PublicForms.Disabled | src/pages/PublicFormsPage.tsx:274-276 | a card is disabled whenever its form is closed, not yet open, or locked |
| PublicForms.ApplyEnabledIff | src/pages/PublicFormsPage.tsx:274-276 | a card's buttons are enabled exactly when its form is live and its marker survived the load |
| PublicForms.ModalScreenOf | src/pages/PublicFormsPage.tsx:352-385 | each screen exactly under its own condition: thanks after a success, then closed, not yet open, already applied on a locked live form, and the details or the questions on an unlocked live one as the applicant chose |
| PublicForms.ReconcileAppend | src/pages/PublicFormsPage.tsx:55-92 | running the loop over one list of forms and then another is running it over both |
| PublicForms.LoadLocksOutcome | src/pages/PublicFormsPage.tsx:55-97 | with no failing query, the full reconciliation; a query failure happens only at a form of the list, and the store is then what the steps before it made |
| PublicForms.FailedLoadOnlyRemoves | src/pages/PublicFormsPage.tsx:55-97 | whether the loop finishes or a query throws, the store only lost entries; a finished loop gives every form a lock that agrees with the store |
| PublicForms.PublicFormsPage.FetchForms | src/pages/PublicFormsPage.tsx:48-102 | on success, the published forms with their reconciled locks, which agree with the store; a submissions query that throws inside the loop leaves the forms shown, the locks unchanged, the error message and the markers already removed; a failed forms query shows only the error; the store only ever loses entries |
| PublicForms.PublicFormsPage.ShowForms | src/pages/PublicFormsPage.tsx:52-101 | the forms are shown; then either the loop's locks, or, when a query in it throws, the error message |
| PublicForms.PublicFormsPage.LoadLocks | src/pages/PublicFormsPage.tsx:55-92 | the locks and the store after the loop are the reconciliation of every published form, in order; when a query throws, `ok` is false and the store is what the earlier steps left |
| PublicForms.PublicFormsPage.LoadLock | src/pages/PublicFormsPage.tsx:57-89 | the step fails exactly when it queries the submissions and the query throws, and then changes nothing; otherwise its lock and store changes are the reconciliation step |
| PublicForms.PublicFormsPage.OpenModal | src/pages/PublicFormsPage.tsx:112-118 | the form is selected, on its details, with a fresh status and answers |
| PublicForms.PublicFormsPage.ShowApplicationForm | src/pages/PublicFormsPage.tsx:128-130 | the modal switches to the questions and nothing else changes |
| PublicForms.PublicFormsPage.ShowDetails | src/pages/PublicFormsPage.tsx:427 | the modal switches back to the details and nothing else changes |
| PublicForms.PublicFormsPage.CloseModal | src/pages/PublicFormsPage.tsx:120-126 | nothing is selected, and the status and answers are reset |
| PublicForms.PublicFormsPage.HandleModalSubmit | src/pages/PublicFormsPage.tsx:132-203 | no selection or locked: no change; otherwise every required error; a duplicate gives an email error; else the form is locked and marked and the email remembered, whether the write succeeds or not |
| PublicForms.PublicFormsPage.RecordApplication | src/pages/PublicFormsPage.tsx:165-199 | the row is appended only when the write succeeds; the marker, email and lock are set either way |
| Builder.AppendTemplate | src/pages/BuilderPage.tsx:33-37 | exactly one question is appended at the end, with the new id and the template's attributes; the rest of the draft is kept |
| Builder.BuilderPage.AddTemplate | src/pages/BuilderPage.tsx:131-136 | the draft gains the appended question and is saved |
| Builder.UpdateField | src/pages/BuilderPage.tsx:40-45 | same length and order; exactly the questions with that id take the updates |
| Builder.Merge | src/pages/BuilderPage.tsx:43 | the id and kind are kept, and an empty update changes nothing |
| Builder.UpdateFieldKeepsShape | src/pages/BuilderPage.tsx:40-45 | ids and kinds are kept, and applying the same update twice is applying it once |
| Builder.UpdateAbsentId | src/pages/BuilderPage.tsx:40-45 | an update for an absent id changes nothing |
| Builder.RemoveField | src/pages/BuilderPage.tsx:47-52 | a question remains exactly when it was there and has another id |
| Builder.RemoveFieldSplits | src/pages/BuilderPage.tsx:47-52 | removing distributes over concatenation, so the others keep their relative order |
| Builder.RemoveAbsentId | src/pages/BuilderPage.tsx:47-52 | removing an absent id changes nothing |
| Builder.RemoveAppended | src/pages/BuilderPage.tsx:33-52 | removing a question just appended gives the previous list |
| Builder.MoveField | src/pages/BuilderPage.tsx:54-62 | the array swap gives the moved list |
| Builder.Moved | src/pages/BuilderPage.tsx:54-62 | the same number of questions, as the same multiset |
| Builder.MovedSwaps | src/pages/BuilderPage.tsx:56-60 | a target in range swaps the two slots; every other slot is unchanged; the multiset of questions is kept |
| Builder.EndsDoNotMove | src/pages/BuilderPage.tsx:58 | moving the first question up, or the last one down, changes nothing |
| Builder.MoveUpThenDown | src/pages/BuilderPage.tsx:54-62 | moving up and then down again restores the list |
| Builder.SetOption | src/pages/BuilderPage.tsx:201-204 | one option takes the new text, and the others are unchanged |
| Builder.RemoveOptionAt | src/pages/BuilderPage.tsx:208-211 | the option at the index is removed, and the others keep their order |
| Builder.AddOption | src/pages/BuilderPage.tsx:220-223 | `Option n+1` is appended to the n options |
| Builder.AddThenRemoveOption | src/pages/BuilderPage.tsx:208-223 | removing an option just added restores the list |
| Builder.NewPublishedForm | src/pages/BuilderPage.tsx:66-77 | opens and is created at `now`, closes `openHours` hours later, carries the draft's questions and the slug |
| Builder.PublishedWindow | src/pages/BuilderPage.tsx:66-77 | with positive hours the form is live from publication through its close time and closed after it; with negative hours it is never live |
| Builder.ShareUrl | src/pages/BuilderPage.tsx:82 | the link is the origin, then `/form/`, then the slug |
| Builder.BuilderPage.HandlePublish | src/pages/BuilderPage.tsx:64-85 | without questions, no change; otherwise the form is saved in front, the draft is reset to the builder default, the history is reloaded and the link shown |
| Builder.PublishOutcome | src/pages/BuilderPage.tsx:78-81 | after publishing, the new form heads the history, its slug finds it, and the default draft loads |
| Builder.BuilderPage.SortedForms | src/pages/BuilderPage.tsx:89-92 | the history list holds the same forms, newest first |
| Builder.BuilderPage.Mount | src/pages/BuilderPage.tsx:20-27 | the loaded draft and history are shown; the saving effect then stores the draft, which loads back |
| Builder.BuilderPage.EditField | src/pages/BuilderPage.tsx:40-45 | the draft's questions are updated and the draft is saved |
| Builder.BuilderPage.DeleteField | src/pages/BuilderPage.tsx:47-52 | the draft's questions are filtered and the draft is saved |
| Builder.BuilderPage.Move | src/pages/BuilderPage.tsx:54-62 | the draft's questions are moved and the draft is saved |
| Exports.Labels | src/pages/AdminHomePage.tsx:199 | one label per question, in order |
| Exports.Cells | src/pages/AdminSubmissionsPage.tsx:143-149 | one cell per question, in order, each the stored answer or `''` |
| Exports.TableCellsShowAnswers | src/pages/AdminSubmissionsPage.tsx:143-149 | a cell shows the stored answer when there is one and is blank otherwise |
| Exports.CsvCellDecodes | src/pages/AdminHomePage.tsx:200-202 | every CSV cell decodes back to the stored answer |
| Exports.CsvContent | src/pages/AdminSubmissionsPage.tsx:42-46 | the text starts with the header line, and is only the header when there are no submissions |
| Exports.CsvLines | src/pages/AdminHomePage.tsx:199-203 | when no label holds a line break, the CSV splits into the header line and one line per submission |
| Exports.ExcelRow | src/pages/AdminHomePage.tsx:218-226 | the row built in the loop is the date followed by each label's answer |
| Exports.ExcelRowOf | src/pages/AdminSubmissionsPage.tsx:62-67 | the row always has a `Date` column and a column for every label |
| Exports.ExcelRowKeys | src/pages/AdminHomePage.tsx:218-226 | the columns are `Date` and the labels |
| Exports.ExcelRowValue | src/pages/AdminHomePage.tsx:220-222 | under each label stands the answer of the last question with that label |
| Exports.ExcelRowDate | src/pages/AdminHomePage.tsx:219 | the date stands under `Date` unless a question is labelled `Date` |
| Exports.PdfColumnsLineUp | src/pages/AdminHomePage.tsx:240-248 | the header is `Date` and the labels; every row has one more cell than there are questions, each answer under its label |
| Exports.PdfBody | src/pages/AdminSubmissionsPage.tsx:83-90 | one row per submission, each with one cell more than there are questions, starting with the rendered date |
| Exports.ExportOf | src/pages/AdminSubmissionsPage.tsx:39-98 | nothing exactly when no form is selected or there are no submissions; otherwise the CSV text, the spreadsheet rows, or the PDF header and body built from the form's questions and the submissions |
| Json.Quote | src/pages/AdminSubmissionsPage.tsx:44 | the encoded text starts and ends with a quote and holds no raw line break or control character |
| Json.UnquoteQuote | src/pages/AdminSubmissionsPage.tsx:44 | decoding the encoded text gives the original string |
| Json.QuoteInjective | src/pages/AdminSubmissionsPage.tsx:44 | different strings encode differently |
| AdminHome.StatsOf | src/pages/AdminHomePage.tsx:82-93 | total forms and submissions are the list lengths; published ≤ total and recent ≤ total |
| AdminHome.StatsOfNewForm | src/pages/AdminHomePage.tsx:89-90 | one more form adds one to the total, and one to the published count exactly when it is published |
| AdminHome.StatsOfNewSubmission | src/pages/AdminHomePage.tsx:82-86 | one more submission counts as recent exactly when it is strictly within the last day; one exactly a day old does not count |
| AdminHome.Toggled | src/pages/AdminHomePage.tsx:121 | the new status differs from the old |
| AdminHome.ToggleTwice | src/pages/AdminHomePage.tsx:121 | toggling twice gives the status back |
| AdminHome.SubmissionsFor | src/pages/AdminHomePage.tsx:64-71 | nothing is shown while no form is selected |
| AdminHome.SubmissionsForExact | src/pages/AdminHomePage.tsx:64-71 | a submission is shown exactly when a form is selected and the submission belongs to it |
| AdminHome.GetFieldValue | src/pages/AdminHomePage.tsx:472-477 | the value shown is never empty |
| AdminHome.GetFieldValueFirstMatch | src/pages/AdminHomePage.tsx:472-477 | the first question whose label contains the pattern, ignoring case, gives its non-empty answer; otherwise `N/A` |
| AdminHome.AdminHomePage.LoadData | src/pages/AdminHomePage.tsx:73-97 | on success, all forms and submissions, their statistics and the refreshed filter; on failure, no change |
| AdminHome.AdminHomePage.SelectForm | src/pages/AdminHomePage.tsx:64-71 | the filter follows the selection |
| AdminHome.AdminHomePage.ToggleStatus | src/pages/AdminHomePage.tsx:119-129 | only that form's rows change, in status and update time; when the update finds its one row and the reload succeeds, the page holds every form and submission, the refreshed filter and their statistics; otherwise the page is unchanged |
| AdminHome.AdminHomePage.SelectedForm | src/pages/AdminHomePage.tsx:193 | a loaded form with the selected id, and nothing exactly when no loaded form has it |
| AdminHome.AdminHomePage.ExportSelected | src/pages/AdminHomePage.tsx:195-257 | nothing exactly when no loaded form is selected or the filter leaves no submission; otherwise the chosen format, the spreadsheet and the PDF with one row per filtered submission |
| AdminHome.NothingSelectedExportsNothing | src/pages/AdminHomePage.tsx:196-197 | with no form selected every export returns early |
| AdminSubmissions.TableRow | src/pages/AdminSubmissionsPage.tsx:141-149 | the rendered date, then one cell per question with the stored answer or `''` |
| AdminSubmissions.TableMatchesPdf | src/pages/AdminSubmissionsPage.tsx:82-90 | the table shows what the PDF export writes, row for row |
| AdminSubmissions.AdminSubmissionsPage.Mount | src/pages/AdminSubmissionsPage.tsx:17-27 | on success, every form; on failure, no change |
| AdminSubmissions.AdminSubmissionsPage.BackToForms | src/pages/AdminSubmissionsPage.tsx:105 | the selection is cleared and nothing else changes |
| AdminSubmissions.AdminSubmissionsPage.Table | src/pages/AdminSubmissionsPage.tsx:139-151 | no rows without a selected form; with one, exactly the body the PDF export writes |
| AdminSubmissions.AdminSubmissionsPage.ExportSelected | src/pages/AdminSubmissionsPage.tsx:39-99 | nothing exactly when no form is selected or there are no submissions; a PDF export's body is the table on screen |
| AdminSubmissions.AdminSubmissionsPage.ViewSubmissions | src/pages/AdminSubmissionsPage.tsx:29-37 | the form is selected; the list is its submissions on success and the previous list on failure |
| Strings.ParseCommaList | src/pages/AdminHomePage.tsx:706 | every parsed skill is non-empty and trimmed |
| Strings.ParseCommaListClean | src/pages/AdminHomePage.tsx:706 | no parsed item holds a comma |
| Strings.ParseEmptyText | src/pages/AdminHomePage.tsx:799 | an empty input gives no items |
| Strings.ParseJoinRoundTrip | src/pages/AdminHomePage.tsx:706 | a list of trimmed, non-blank, comma-free items, shown joined by `, `, parses back to itself |
| Strings.ParseJoinParse | src/pages/AdminHomePage.tsx:799 | parsing, joining and parsing again gives the first parse |
| Seo.NormalizeSiteUrl | tools/generate-seo-assets.mjs:10-19 | nothing exactly for a missing or blank input; otherwise a result starting with `http://` or `https://` |
| Seo.NormalizeKeepsScheme | tools/generate-seo-assets.mjs:14-18 | an existing scheme is kept, otherwise `https://` is put in front; trailing slashes are gone |
| Seo.NormalizedTrailingSlash | tools/generate-seo-assets.mjs:14-18 | a result ends with `/` exactly when the trimmed input was all slashes, and is then `https://` |
| Seo.NormalizeIdempotent | tools/generate-seo-assets.mjs:10-19 | a trimmed address with a scheme and no trailing slash is its own normal form |
| Seo.SchemeAloneIsRewritten | tools/generate-seo-assets.mjs:14-18 | `http://` alone loses its slashes and becomes `https://http:` |
| Seo.SiteUrl | tools/generate-seo-assets.mjs:21-22 | the site address has a scheme, and is the fallback when normalisation gives nothing |
| Seo.HostOf | tools/generate-seo-assets.mjs:30 | the host is the address without its leading `http://` or `https://` |
| Seo.RobotsTxt | tools/generate-seo-assets.mjs:23-31 | the lines joined by line breaks, with a line break after the last; the first line is `User-agent: *` |
| Seo.RobotsTxtLines | tools/generate-seo-assets.mjs:24-31 | robots.txt reads back as its seven lines and a final empty piece |
| Seo.UrlEntries | tools/generate-seo-assets.mjs:34-36 | exactly one entry, whose location is the site address |
| Seo.SitemapXml | tools/generate-seo-assets.mjs:38-52 | the text starts with the XML declaration and `<urlset>` and ends with the closing tag and a line break |
| Seo.SitemapHasOneEntry | tools/generate-seo-assets.mjs:38-51 | the sitemap is its header, the single entry and its closing tag |
| Seo.SitemapNamesSite | tools/generate-seo-assets.mjs:43 | the sitemap contains a `<loc>` element naming the site address |

## Left out

- Rendering, styling, toasts and the field controls (`FormFieldControl`, including its checkbox closures) are UI. The model keeps only the state they read and write.
- Sign-in, route protection and file upload are foreign calls and are not part of this model.
- The hosted database is an in-memory table. A failed remote call is a boolean parameter, not an exception.
- A failure partway through a query, and any concurrency between requests, are not modelled.
- Writing the spreadsheet, the PDF and the downloaded blob, and writing files in the SEO step, are library calls and I/O. The model stops at the rows and texts they receive.
- Parsing dates and `toLocaleString` depend on the locale. Timestamps are integer milliseconds and the rendered date is a function parameter.
- `crypto.randomUUID` and `Math.random` are nondeterministic. Ids and slug suffixes are parameters, so the form of the suffix is not modelled.
- Storage codecs stand for `JSON.stringify` and `JSON.parse` of records. The model assumes only their round trip, not the JSON text.
- The grid encoding in `serializeValues` is a parameter function.
- `hasApplicantSubmitted` is imported by the public pages from `src/utils/storage.ts`, which does not define it; it is a parameter.
- Answers.NormaliseEmail: lower-casing covers ASCII letters only, not the full Unicode case mapping that `toLowerCase` performs. Answers.ApplicantKey, Answers.NormaliseIdempotent and Answers.NormaliseIgnoresCaseAndPadding are stated for that ASCII lowering.
- FormRules.SlugBase: lower-casing covers ASCII letters only. `toLowerCase` maps some other characters to ASCII letters, such as `İ` (U+0130) to `i` followed by a combining dot, and the Kelvin sign (U+212A) to `k`; the model treats them as separators, so the base of `İx` is `x` here and `i-x` in the code.
- FormRules.SlugStem and FormRules.BuildSlug inherit the ASCII-only lowering of `FormRules.SlugBase`.
- PublicForms.HasDbSubmissionIff: the case-insensitive email comparison lowers ASCII letters only, so two addresses that differ only in a non-ASCII letter's case do not match here; PublicForms.LockedIffStoredMatch and PublicForms.LockStep inherit this.
- AdminHome.GetFieldValueFirstMatch: the case-insensitive label match lowers ASCII letters only; AdminHome.GetFieldValue inherits this.
- Exports.ExcelRowOf: the column order of the spreadsheet is not modelled. The row is a map; the library takes the columns from the first row's key order, which in JavaScript puts integer-like labels first.
- FormRules.NewestFirst: sort stability is not stated. Forms with the same creation time may come out in any order of the permutation.
- Builder.NewPublishedForm: a fractional number of hours is not modelled, because hours are integers.
- Builder.UpdateField: the patch covers the keys the builder page passes (label, required, options), not every key of a question.
- The dashboard's delete, edit-submission and edit-form handlers are not modelled as page handlers. The database operations they call are modelled.
- The dashboard's automatic filling of SEO title, description and keywords is not modelled.
- The `formName` that `getSubmissions` joins in from the forms table is not carried by the model's submissions; no modelled operation reads it.
- The login, forms and statistics pages are not part of this model.
