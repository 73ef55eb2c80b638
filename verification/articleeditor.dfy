/** The article editor (`ArticleEditor.tsx` and its copy under `forms/`,
    which behaves the same): the slug generated from the title, the
    checks before saving, the article handed to `onSave`, and the markdown
    buttons that wrap the selected text. */
module ArticleEditor {
  import opened Wrappers
  import Text

  // ---------------------------------------------------------------------
  // Slugs
  // ---------------------------------------------------------------------

  /** A character the slug keeps: `[a-z0-9]`. */
  predicate IsSlugChar(c: char) {
    'a' <= c <= 'z' || '0' <= c <= '9'
  }

  /** The letters and digits of `s`, in order. */
  function Letters(s: string): string
    decreases |s|
  {
    if |s| == 0 then "" else (if IsSlugChar(s[0]) then [s[0]] else "") + Letters(s[1..])
  }

  lemma {:induction false} LettersConcat(a: string, b: string)
    ensures Letters(a + b) == Letters(a) + Letters(b)
    decreases |a|
  {
    if |a| > 0 {
      assert (a + b)[1..] == a[1..] + b;
      LettersConcat(a[1..], b);
    } else {
      assert a + b == b;
    }
  }

  /** `replace(/[^a-z0-9]+/g, "-")`: each run of other characters becomes
      one '-'; `inRun` says the previous character was already replaced. */
  function Dashify(s: string, inRun: bool): (r: string)
    ensures |r| <= |s|
    ensures Letters(r) == Letters(s)
    decreases |s|
  {
    if |s| == 0 then ""
    else if IsSlugChar(s[0]) then
      var rest := Dashify(s[1..], false);
      assert ([s[0]] + rest)[1..] == rest;
      [s[0]] + rest
    else if inRun then Dashify(s[1..], true)
    else
      var rest := Dashify(s[1..], true);
      assert ("-" + rest)[1..] == rest;
      "-" + rest
  }

  /** `replace(/^-+/, "")`. */
  function StripStart(s: string): (r: string)
    ensures |r| <= |s| && r == s[|s| - |r|..]
    ensures |r| == 0 || r[0] != '-'
    ensures Letters(r) == Letters(s)
    decreases |s|
  {
    if |s| > 0 && s[0] == '-' then StripStart(s[1..]) else s
  }

  /** `replace(/-+$/, "")`. */
  function StripEnd(s: string): (r: string)
    ensures |r| <= |s| && r == s[..|r|]
    ensures |r| == 0 || r[|r| - 1] != '-'
    ensures Letters(r) == Letters(s)
    decreases |s|
  {
    if |s| > 0 && s[|s| - 1] == '-' then
      assert s == s[..|s| - 1] + "-";
      LettersConcat(s[..|s| - 1], "-");
      StripEnd(s[..|s| - 1])
    else s
  }

  /** The generated slug: lower-cased, runs of other characters replaced
      by '-', and hyphens trimmed from both ends. It keeps exactly the
      lower-cased title's letters and digits, in order, and is no longer
      than the title. */
  function Slugify(title: string): (r: string)
    ensures |r| <= |title|
    ensures Letters(r) == Letters(Text.Lower(title))
  {
    StripEnd(StripStart(Dashify(Text.Lower(title), false)))
  }

  /** Only `[a-z0-9]` and '-'. */
  predicate SlugAlphabet(s: string) {
    forall i :: 0 <= i < |s| ==> IsSlugChar(s[i]) || s[i] == '-'
  }

  /** No "--". */
  predicate NoDoubleDash(s: string) {
    forall i :: 0 <= i < |s| - 1 ==> !(s[i] == '-' && s[i + 1] == '-')
  }

  /** A well-formed slug: the alphabet, no double hyphen, no hyphen at
      either end. */
  predicate IsSlug(s: string) {
    SlugAlphabet(s) && NoDoubleDash(s) && (|s| == 0 || (s[0] != '-' && s[|s| - 1] != '-'))
  }

  lemma {:induction false} DashifyShape(s: string, inRun: bool)
    ensures SlugAlphabet(Dashify(s, inRun)) && NoDoubleDash(Dashify(s, inRun))
    ensures inRun ==> |Dashify(s, inRun)| == 0 || Dashify(s, inRun)[0] != '-'
    decreases |s|
  {
    if |s| > 0 {
      if IsSlugChar(s[0]) {
        DashifyShape(s[1..], false);
        ConsShape(s[0], Dashify(s[1..], false));
      } else if inRun {
        DashifyShape(s[1..], true);
      } else {
        DashifyShape(s[1..], true);
        ConsShape('-', Dashify(s[1..], true));
      }
    }
  }

  /** One slug character or a hyphen not followed by another in front of
      a string of the right shape keeps the shape. */
  lemma ConsShape(x: char, t: string)
    requires IsSlugChar(x) || x == '-'
    requires SlugAlphabet(t) && NoDoubleDash(t)
    requires x == '-' ==> |t| == 0 || t[0] != '-'
    ensures SlugAlphabet([x] + t) && NoDoubleDash([x] + t)
  {
    assert forall i :: 0 < i <= |t| ==> ([x] + t)[i] == t[i - 1];
  }

  /** A slice of a string keeps the alphabet and has no new double hyphen. */
  lemma SliceKeepsShape(s: string, a: nat, b: nat)
    requires a <= b <= |s| && SlugAlphabet(s) && NoDoubleDash(s)
    ensures SlugAlphabet(s[a..b]) && NoDoubleDash(s[a..b])
  {
    assert forall i :: 0 <= i < b - a ==> s[a..b][i] == s[a + i];
  }

  /** A generated slug is well formed. */
  lemma SlugifyIsSlug(title: string)
    ensures IsSlug(Slugify(title))
  {
    var d := Dashify(Text.Lower(title), false);
    DashifyShape(Text.Lower(title), false);
    var t := StripStart(d);
    SliceKeepsShape(d, |d| - |t|, |d|);
    var u := StripEnd(t);
    SliceKeepsShape(t, 0, |u|);
    if |u| > 0 {
      assert u[0] == t[0];
    }
  }

  lemma {:induction false} DashifyOfSlug(s: string, inRun: bool)
    requires SlugAlphabet(s) && NoDoubleDash(s)
    requires inRun ==> |s| == 0 || s[0] != '-'
    ensures Dashify(s, inRun) == s
    decreases |s|
  {
    if |s| > 0 {
      SliceKeepsShape(s, 1, |s|);
      DashifyOfSlug(s[1..], !IsSlugChar(s[0]));
    }
  }

  /** Generating a slug from a well-formed slug gives it back unchanged. */
  lemma SlugifyOfSlug(s: string)
    requires IsSlug(s)
    ensures Slugify(s) == s
  {
    Text.LowerOfLowercase(s);
    DashifyOfSlug(s, false);
  }

  /** Generating a slug is idempotent. */
  lemma SlugifyIdempotent(title: string)
    ensures Slugify(Slugify(title)) == Slugify(title)
  {
    SlugifyIsSlug(title);
    SlugifyOfSlug(Slugify(title));
  }

  /** The slug effect: a new article with a title and no slug gets the
      generated one; otherwise the slug stays. */
  function AutoSlug(isNew: bool, title: string, slug: string): (r: string)
    ensures r != slug ==> isNew && title != "" && slug == ""
    ensures r != slug ==> IsSlug(r)
  {
    SlugifyIsSlug(title);
    if isNew && title != "" && slug == "" then Slugify(title) else slug
  }

  /** The effect settles after one run: running it again on its own result
      changes nothing, and an existing article's slug is never replaced. */
  lemma AutoSlugSettles(isNew: bool, title: string, slug: string)
    ensures AutoSlug(isNew, title, AutoSlug(isNew, title, slug)) == AutoSlug(isNew, title, slug)
    ensures !isNew ==> AutoSlug(isNew, title, slug) == slug
  {
  }

  // ---------------------------------------------------------------------
  // Saving
  // ---------------------------------------------------------------------

  /** `article_type`. */
  datatype ArticleType = Diy | Industrial | Experimental

  /** `sustainability_category`. */
  datatype Category = Compostability | Recyclability | Reusability

  /** A content block of an article (`overview`, `introduction`, ...),
      as the object's string-valued fields. */
  datatype Section = Section(fields: map<string, string>)

  /** `{}`. */
  const NoFields := Section(map[])

  /** `{ content: "" }`. */
  const EmptyContent := Section(map["content" := ""])

  /** The fields of an article the editor reads and writes. Optional
      fields are the ones a stored article may lack. */
  datatype Article = Article(
    id: string, title: string, slug: string, contentMarkdown: string,
    articleType: ArticleType, category: Category, materialId: string,
    status: Option<string>, authorId: Option<string>,
    createdAt: Option<string>, updatedAt: Option<string>, version: Option<int>,
    dateAdded: Option<string>, overview: Option<Section>, introduction: Option<Section>,
    supplies: Option<Section>, step1: Option<Section>)

  /** The editor's inputs. */
  datatype Form = Form(title: string, slug: string, content: string,
                       articleType: ArticleType, category: Category, materialId: string)

  /** `x || fallback` on an optional string. */
  function OrElse(s: Option<string>, fallback: string): (r: string)
    ensures s.Some? && s.value != "" ==> r == s.value
    ensures s.None? || s.value == "" ==> r == fallback
  {
    if s.Some? && s.value != "" then s.value else fallback
  }

  /** `x || fallback` on an optional object: any object is truthy. */
  function SectionOr(s: Option<Section>, fallback: Section): (r: Section)
    ensures s.Some? ==> r == s.value
    ensures s.None? ==> r == fallback
  {
    if s.Some? then s.value else fallback
  }

  /** A field of the stored article, or nothing for a new one. */
  function Stored<T>(article: Option<Article>, field: Article -> Option<T>): Option<T> {
    if article.Some? then field(article.value) else None
  }

  /** `handleSave`, with the generated id and the clock as inputs: the
      checks in order (title, slug, content, material), then the article
      handed to `onSave`. */
  function Save(form: Form, article: Option<Article>, newId: string, now: string): (r: Result<Article>)
    ensures r.Err? <==> Text.IsBlank(form.title) || Text.IsBlank(form.slug)
                        || Text.IsBlank(form.content) || form.materialId == ""
    ensures Text.IsBlank(form.title) ==> r == Err("Please enter a title")
    ensures !Text.IsBlank(form.title) && Text.IsBlank(form.slug) ==> r == Err("Please enter a slug")
    ensures !Text.IsBlank(form.title) && !Text.IsBlank(form.slug) && Text.IsBlank(form.content) ==>
      r == Err("Please enter some content")
    ensures r.Ok? ==>
      && r.value.title == form.title && r.value.slug == form.slug && r.value.contentMarkdown == form.content
      && r.value.materialId == form.materialId && r.value.updatedAt == Some(now)
  {
    if Text.IsBlank(form.title) then Err("Please enter a title")
    else if Text.IsBlank(form.slug) then Err("Please enter a slug")
    else if Text.IsBlank(form.content) then Err("Please enter some content")
    else if form.materialId == "" then Err("Please select a material")
    else
      Ok(Article(
        if article.Some? && article.value.id != "" then article.value.id else newId,
        form.title, form.slug, form.content, form.articleType, form.category, form.materialId,
        Some(OrElse(if article.Some? then article.value.status else None, "draft")),
        Some(OrElse(if article.Some? then article.value.authorId else None, "")),
        Some(OrElse(if article.Some? then article.value.createdAt else None, now)),
        Some(now),
        Some((if article.Some? && article.value.version.Some? then article.value.version.value else 0) + 1),
        Some(OrElse(Stored(article, (a: Article) => a.dateAdded), now)),
        Some(SectionOr(Stored(article, (a: Article) => a.overview), NoFields)),
        Some(SectionOr(Stored(article, (a: Article) => a.introduction), EmptyContent)),
        Some(SectionOr(Stored(article, (a: Article) => a.supplies), EmptyContent)),
        Some(SectionOr(Stored(article, (a: Article) => a.step1), EmptyContent))))
  }

  /** Saving a stored article bumps its version by one and keeps its id,
      creation date, status, date added and content blocks; a new article
      starts at version 1 as a draft with the generated id, added now, with
      an empty overview and empty introduction, supplies and first step. */
  lemma SaveVersions(form: Form, article: Option<Article>, newId: string, now: string)
    requires Save(form, article, newId, now).Ok?
    ensures var a := Save(form, article, newId, now).value;
      && (article.None? ==> a.version == Some(1) && a.status == Some("draft") && a.id == newId
                            && a.createdAt == Some(now) && a.dateAdded == Some(now)
                            && a.overview == Some(NoFields) && a.introduction == Some(EmptyContent)
                            && a.supplies == Some(EmptyContent) && a.step1 == Some(EmptyContent))
      && (article.Some? && article.value.dateAdded.Some? && article.value.dateAdded.value != "" ==>
            a.dateAdded == article.value.dateAdded)
      && (article.Some? && article.value.overview.Some? ==> a.overview == article.value.overview)
      && (article.Some? && article.value.introduction.Some? ==> a.introduction == article.value.introduction)
      && (article.Some? && article.value.supplies.Some? ==> a.supplies == article.value.supplies)
      && (article.Some? && article.value.step1.Some? ==> a.step1 == article.value.step1)
      && (article.Some? && article.value.version.Some? ==> a.version == Some(article.value.version.value + 1))
      && (article.Some? && article.value.id != "" ==> a.id == article.value.id)
      && (article.Some? && article.value.createdAt.Some? && article.value.createdAt.value != "" ==>
            a.createdAt == article.value.createdAt)
      && (article.Some? && article.value.status.Some? && article.value.status.value != "" ==>
            a.status == article.value.status)
  {
  }

  /** Saving the saved article again moves it one version on and changes
      nothing else but the update time. */
  lemma ResaveBumpsVersion(form: Form, article: Option<Article>, newId: string, now: string, later: string, otherId: string)
    requires Save(form, article, newId, now).Ok?
    requires newId != "" && now != ""
    ensures var a := Save(form, article, newId, now).value;
      var b := Save(form, Some(a), otherId, later);
      b.Ok? && b.value == a.(updatedAt := Some(later), version := Some(a.version.value + 1))
  {
  }

  /** The form a stored article opens with: `article?.x || ""`. */
  function Load(article: Article): (f: Form)
    ensures f.title == article.title && f.slug == article.slug && f.content == article.contentMarkdown
    ensures f.materialId == article.materialId
  {
    Form(article.title, article.slug, article.contentMarkdown, article.articleType, article.category, article.materialId)
  }

  // ---------------------------------------------------------------------
  // Markdown buttons
  // ---------------------------------------------------------------------

  /** The text after `insertMarkdown`, with the new selection. */
  datatype Inserted = Inserted(text: string, selStart: nat, selEnd: nat)

  /** `insertMarkdown(before, after)` on the selection `[start, end)`:
      the selected text wrapped in the markers, and the selection moved to
      the same text inside them. */
  function InsertMarkdown(content: string, start: nat, end: nat, before: string, after: string): (r: Inserted)
    requires start <= end <= |content|
    ensures |r.text| == |content| + |before| + |after|
    ensures r.selStart == start + |before| && r.selStart <= r.selEnd <= |r.text|
    ensures r.text[r.selStart..r.selEnd] == content[start..end]
    ensures r.text[..start] == content[..start] && r.text[start..r.selStart] == before
    ensures r.text[r.selEnd..r.selEnd + |after|] == after && r.text[r.selEnd + |after|..] == content[end..]
  {
    var selected := content[start..end];
    var text := content[..start] + before + selected + after + content[end..];
    Inserted(text, start + |before|, start + |before| + |selected|)
  }

  /** Taking the markers out again gives the content back. */
  lemma InsertMarkdownUndo(content: string, start: nat, end: nat, before: string, after: string)
    requires start <= end <= |content|
    ensures var r := InsertMarkdown(content, start, end, before, after);
      r.text[..start] + r.text[r.selStart..r.selEnd] + r.text[r.selEnd + |after|..] == content
  {
    assert content == content[..start] + content[start..end] + content[end..];
  }
}
