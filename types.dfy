/** The records of the form builder: questions, drafts, published forms and
    submissions. Timestamps are milliseconds since the epoch. */
module Types {
  import opened Wrappers

  /** The fourteen kinds of question. */
  datatype FieldType =
    | ShortText | LongText | Email | Number | Dropdown | MultipleChoice
    | Checkboxes | FileUpload | LinearScale | Rating
    | MultipleChoiceGrid | CheckboxGrid | Date | Time

  datatype Scale = Scale(min: int, max: int, minLabel: Option<string>, maxLabel: Option<string>)

  /** One question. `kind` and `caption` are the source's `type` and `label`
      (both words are reserved in Dafny). */
  datatype FormField = FormField(
    id: string,
    kind: FieldType,
    caption: string,
    required: bool,
    placeholder: Option<string>,
    options: Option<seq<string>>,
    helperText: Option<string>,
    rows: Option<seq<string>>,
    columns: Option<seq<string>>,
    scale: Option<Scale>,
    maxRating: Option<int>)

  /** A question without its id: the shape of a palette template. */
  datatype FieldTemplate = FieldTemplate(
    kind: FieldType,
    caption: string,
    required: bool,
    placeholder: Option<string>,
    options: Option<seq<string>>,
    helperText: Option<string>,
    rows: Option<seq<string>>,
    columns: Option<seq<string>>,
    scale: Option<Scale>,
    maxRating: Option<int>)

  /** Colours, fonts and images; purely presentational, keyed by setting name. */
  datatype Theme = Theme(settings: map<string, string>)

  datatype DraftFormState = DraftFormState(
    title: string,
    description: string,
    fields: seq<FormField>,
    theme: Option<Theme>)

  datatype Status = Published | Unpublished

  datatype PublishedForm = PublishedForm(
    id: string,
    slug: string,
    name: string,
    openAt: int,
    closeAt: int,
    fields: seq<FormField>,
    createdAt: int,
    status: Status,
    theme: Option<Theme>,
    description: Option<string>,
    jobType: Option<string>,
    department: Option<string>,
    location: Option<string>,
    experience: Option<string>,
    skills: Option<seq<string>>,
    seoTitle: Option<string>,
    seoDescription: Option<string>,
    seoKeywords: Option<seq<string>>)

  /** One candidate response: field id to serialized answer. */
  datatype FormSubmission = FormSubmission(
    id: string,
    formId: string,
    submittedAt: int,
    values: map<string, string>,
    applicantKey: Option<string>)
}
