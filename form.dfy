/** The field palette, slug construction and the publishing window
    (src/utils/form.ts). */
module FormRules {
  import opened Wrappers
  import opened Strings
  import opened Types
  import opened Sorting

  // ---------------------------------------------------------------------
  // Field templates

  /** The palette, in display order. */
  const FieldTemplates: seq<FieldTemplate> := [
    FieldTemplate(ShortText, "Short answer", false, Some("Type here..."), None, None, None, None, None, None),
    FieldTemplate(LongText, "Paragraph", false, Some("Describe your experience"), None, None, None, None, None, None),
    FieldTemplate(Email, "Email address", true, Some("applicant@example.com"), None, None, None, None, None, None),
    FieldTemplate(Number, "Numeric response", false, Some("0"), None, None, None, None, None, None),
    FieldTemplate(Date, "Date picker", false, None, None, None, None, None, None, None),
    FieldTemplate(Dropdown, "Dropdown", false, None, Some(["Option 1", "Option 2"]), None, None, None, None, None)
  ]

  /** A question with its id dropped (`Omit<FormField, 'id'>`). */
  function WithoutId(f: FormField): FieldTemplate {
    FieldTemplate(f.kind, f.caption, f.required, f.placeholder, f.options, f.helperText,
                  f.rows, f.columns, f.scale, f.maxRating)
  }

  /** `{ ...template, id }`: every attribute of the template, plus the fresh id. */
  function CreateFieldFromTemplate(t: FieldTemplate, id: string): (f: FormField)
    ensures f.id == id
    ensures WithoutId(f) == t
  {
    FormField(id, t.kind, t.caption, t.required, t.placeholder, t.options, t.helperText,
              t.rows, t.columns, t.scale, t.maxRating)
  }

  /** Creating from a question's own attributes and id rebuilds the question. */
  lemma CreateFromWithoutId(f: FormField)
    ensures CreateFieldFromTemplate(WithoutId(f), f.id) == f
  {
  }

  /** Six templates; only the email one is required; the dropdown starts with two options. */
  lemma TemplateCatalogue()
    ensures |FieldTemplates| == 6
    ensures forall i :: 0 <= i < |FieldTemplates| ==>
              (FieldTemplates[i].required <==> FieldTemplates[i].kind == Email)
    ensures forall i :: 0 <= i < |FieldTemplates| && FieldTemplates[i].kind == Dropdown ==>
              FieldTemplates[i].options == Some(["Option 1", "Option 2"])
  {
  }

  // ---------------------------------------------------------------------
  // Slugs

  predicate IsSlugChar(c: char) {
    'a' <= c <= 'z' || '0' <= c <= '9'
  }

  /** Only `a-z`, `0-9` and `-`, and never two hyphens in a row. */
  predicate IsSlugText(s: string) {
    && (forall i :: 0 <= i < |s| ==> IsSlugChar(s[i]) || s[i] == '-')
    && (forall i :: 0 <= i < |s| - 1 ==> !(s[i] == '-' && s[i + 1] == '-'))
  }

  function DropNonSlug(s: string): (r: string)
    ensures |r| <= |s| && r == s[|s| - |r|..]
    ensures forall i :: 0 <= i < |s| - |r| ==> !IsSlugChar(s[i])
    ensures r != [] ==> IsSlugChar(s[|s| - |r|])
  {
    if |s| > 0 && !IsSlugChar(s[0]) then
      var r := DropNonSlug(s[1..]);
      assert s[1..][|s| - 1 - |r|..] == s[|s| - |r|..];
      assert forall i :: 1 <= i < |s| - |r| ==> s[i] == s[1..][i - 1];
      r
    else s
  }

  /** `replace(/[^a-z0-9]+/g, '-')`: every maximal run of other characters becomes one hyphen. */
  function Collapse(s: string): (r: string)
    ensures IsSlugText(r)
    ensures s != [] && IsSlugChar(s[0]) ==> r != [] && r[0] == s[0]
    decreases |s|
  {
    if s == [] then []
    else if IsSlugChar(s[0]) then [s[0]] + Collapse(s[1..])
    else "-" + Collapse(DropNonSlug(s[1..]))
  }

  /** `replace(/^-+|-+$/g, '')` */
  function TrimHyphens(s: string): (r: string)
    ensures r == [] || (r[0] != '-' && r[|r| - 1] != '-')
  {
    DropTrailing(DropLeading(s, '-'), '-')
  }

  lemma SliceIsSlugText(s: string, a: int, b: int)
    requires IsSlugText(s) && 0 <= a <= b <= |s|
    ensures IsSlugText(s[a..b])
  {
    var t := s[a..b];
    forall i | 0 <= i < |t| - 1
      ensures !(t[i] == '-' && t[i + 1] == '-')
    {
      assert t[i] == s[a + i] && t[i + 1] == s[a + i + 1];
    }
  }

  /** The part of the slug taken from the name: lower-cased, runs of other
      characters collapsed to one hyphen, hyphens trimmed at both ends, then
      cut to 40 characters (so it may end with a hyphen again). */
  function SlugBase(name: string): (b: string)
    ensures |b| <= 40
    ensures IsSlugText(b)
    ensures b == [] || b[0] != '-'
  {
    var c := Collapse(Lower(name));
    var t := TrimHyphens(c);
    TrimHyphensKeepsSlugText(c);
    var b := if |t| <= 40 then t else t[..40];
    SliceIsSlugText(t, 0, |b|);
    b
  }

  /** Trimming hyphens off slug text leaves slug text. */
  lemma TrimHyphensKeepsSlugText(c: string)
    requires IsSlugText(c)
    ensures IsSlugText(TrimHyphens(c))
  {
    var l := DropLeading(c, '-');
    SliceIsSlugText(c, |c| - |l|, |c|);
    SliceIsSlugText(l, 0, |DropTrailing(l, '-')|);
  }

  /** `base || 'form'` */
  function SlugStem(name: string): (stem: string)
    ensures 1 <= |stem| <= 40
    ensures IsSlugText(stem) && stem[0] != '-'
  {
    var b := SlugBase(name);
    if b == "" then FormIsSlugText(); "form" else b
  }

  lemma FormIsSlugText()
    ensures IsSlugText("form")
  {
    assert forall i :: 0 <= i < 4 ==> IsSlugChar("form"[i]);
  }

  /** `buildSlug(name)` with the random five-character suffix passed in. */
  function BuildSlug(name: string, suffix: string): (r: string)
    ensures r == SlugStem(name) + "-" + suffix
    ensures r[|r| - |suffix|..] == suffix && r[|r| - |suffix| - 1] == '-'
  {
    SlugStem(name) + "-" + suffix
  }

  lemma {:induction false} CollapseSlugPrefix(x: string, t: string)
    requires forall i :: 0 <= i < |x| ==> IsSlugChar(x[i])
    ensures Collapse(x + t) == x + Collapse(t)
  {
    if x == [] {
      assert x + t == t;
    } else {
      SlugCharsTail(x);
      CollapseSlugPrefix(x[1..], t);
      CollapseStep(x, t);
    }
  }

  lemma SlugCharsTail(x: string)
    requires x != [] && forall i :: 0 <= i < |x| ==> IsSlugChar(x[i])
    ensures forall i :: 0 <= i < |x[1..]| ==> IsSlugChar(x[1..][i])
  {
    forall i | 0 <= i < |x[1..]| ensures IsSlugChar(x[1..][i]) {
      assert x[1..][i] == x[i + 1];
    }
  }

  /** One more slug character in front of a prefix already known to pass
      through unchanged. */
  lemma CollapseStep(x: string, t: string)
    requires x != [] && IsSlugChar(x[0])
    requires Collapse(x[1..] + t) == x[1..] + Collapse(t)
    ensures Collapse(x + t) == x + Collapse(t)
  {
    ConsAppend(x, t);
    CollapseCons(x[0], x[1..] + t);
    ConsAppend(x, Collapse(t));
  }

  lemma ConsAppend(x: string, t: string)
    requires x != []
    ensures x + t == [x[0]] + (x[1..] + t)
  {
    assert x == [x[0]] + x[1..];
  }

  /** A slug character is kept as it is in front of the rest. */
  lemma CollapseCons(c: char, rest: string)
    requires IsSlugChar(c)
    ensures Collapse([c] + rest) == [c] + Collapse(rest)
  {
    assert ([c] + rest)[0] == c && ([c] + rest)[1..] == rest;
  }

  lemma LowerOfLowercase(s: string)
    requires forall i :: 0 <= i < |s| ==> !('A' <= s[i] <= 'Z')
    ensures Lower(s) == s
  {
  }

  lemma CollapseSpaceB()
    ensures Collapse(" b") == "-b"
  {
    assert Collapse("b") == "b" by {
      assert Collapse("b") == "b" + Collapse("b"[1..]);
    }
    assert !IsSlugChar(" b"[0]);
    assert " b"[1..] == "b";
    assert DropNonSlug("b") == "b";
  }

  /** Truncation comes after trimming, so the base can end with a hyphen and
      the slug then holds two hyphens in a row: a 39-letter word followed by
      " b" gives that word, a hyphen, and then the separator. */
  lemma TruncationCanLeaveHyphen(x: string, suffix: string)
    requires |x| == 39 && forall i :: 0 <= i < |x| ==> 'a' <= x[i] <= 'z'
    ensures SlugBase(x + " b") == x + "-"
    ensures BuildSlug(x + " b", suffix) == x + "--" + suffix
  {
    var n := x + " b";
    var c := x + "-b";
    assert Collapse(Lower(n)) == c by {
      LowerOfLowercase(n);
      CollapseSlugPrefix(x, " b");
      CollapseSpaceB();
    }
    assert TrimHyphens(c) == c by {
      assert c[0] == x[0];
      assert DropLeading(c, '-') == c;
      assert c[|c| - 1] == 'b';
      assert DropTrailing(c, '-') == c;
    }
    SlugBaseUnfold(n);
    assert c[..40] == x + "-";
  }

  lemma SlugBaseUnfold(name: string)
    ensures var t := TrimHyphens(Collapse(Lower(name)));
      SlugBase(name) == if |t| <= 40 then t else t[..40]
  {
  }

  /** Collapsing text that is already slug text changes nothing. */
  lemma {:induction false} CollapseOfSlugText(s: string)
    requires IsSlugText(s)
    ensures Collapse(s) == s
    decreases |s|
  {
    if s != [] {
      var rest := s[1..];
      SliceIsSlugText(s, 1, |s|);
      CollapseOfSlugText(rest);
      if s[0] == '-' {
        assert rest == [] || IsSlugChar(rest[0]) by {
          if rest != [] { assert rest[0] == s[1]; }
        }
        assert DropNonSlug(rest) == rest;
      }
      assert [s[0]] + rest == s;
    }
  }

  /** A name that is already a clean slug base is left as it is. */
  lemma SlugBaseFixesCleanNames(n: string)
    requires IsSlugText(n) && |n| <= 40
    requires n == [] || (n[0] != '-' && n[|n| - 1] != '-')
    ensures SlugBase(n) == n
  {
    assert forall i :: 0 <= i < |n| ==> !('A' <= n[i] <= 'Z');
    LowerOfLowercase(n);
    CollapseOfSlugText(n);
    assert DropLeading(n, '-') == n;
    assert DropTrailing(n, '-') == n;
    assert TrimHyphens(n) == n;
    SlugBaseUnfold(n);
  }

  // ---------------------------------------------------------------------
  // Publishing window

  /** `isFormLive`: open at `now`, both ends of the window included. */
  predicate IsFormLive(form: PublishedForm, now: int)
    ensures IsFormLive(form, now) ==> form.openAt <= form.closeAt && !IsFormClosed(form, now)
  {
    form.openAt <= now && now <= form.closeAt
  }

  /** `isFormClosed`: the window has ended. */
  predicate IsFormClosed(form: PublishedForm, now: int) {
    now > form.closeAt
  }

  /** Live and closed exclude each other; with a proper window every instant
      is exactly one of scheduled, live and closed. */
  lemma WindowPhases(form: PublishedForm, now: int)
    ensures !(IsFormLive(form, now) && IsFormClosed(form, now))
    ensures form.openAt <= form.closeAt ==>
              || (now < form.openAt && !IsFormLive(form, now) && !IsFormClosed(form, now))
              || (now >= form.openAt && IsFormLive(form, now) && !IsFormClosed(form, now))
              || (now >= form.openAt && !IsFormLive(form, now) && IsFormClosed(form, now))
  {
  }

  /** A window that closes before it opens is never live. */
  lemma InvertedWindowNeverLive(form: PublishedForm)
    requires form.openAt > form.closeAt
    ensures forall now :: !IsFormLive(form, now)
  {
  }

  // ---------------------------------------------------------------------
  // Listing order

  function FormCreatedAt(form: PublishedForm): int {
    form.createdAt
  }

  /** `[...forms].sort((a, b) => time(b.createdAt) - time(a.createdAt))`:
      the same forms, newest first. */
  function NewestFirst(forms: seq<PublishedForm>): (r: seq<PublishedForm>)
    ensures SortedDesc(r, FormCreatedAt)
    ensures multiset(r) == multiset(forms)
  {
    SortDescSorts(forms, FormCreatedAt);
    SortDesc(forms, FormCreatedAt)
  }
}
