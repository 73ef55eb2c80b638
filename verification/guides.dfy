/** Guides: the category filter of the guide list (`views/GuidesView.tsx`)
    and the two guide forms (`forms/SubmitGuideForm.tsx`,
    `forms/EditGuideForm.tsx`), which turn comma-separated inputs into
    lists. A guide's rich-text body is a document the forms only carry
    along. */
module Guides {
  import opened Wrappers
  import Seqs
  import Text

  /** A rich-text node: its type, its text if any, and its children. */
  datatype Node = Node(kind: string, text: Option<string>, children: seq<Node>)

  /** A rich-text document: `{ type, content }`. */
  datatype Doc = Doc(kind: string, content: seq<Node>)

  /** A stored body: still JSON text, or already a document. */
  datatype Body = Json(text: string) | Structured(doc: Doc)

  /** A stored guide: the fields the list and the forms read; `howTo` is
      its `method` (DIY, industrial or experimental). */
  datatype Guide = Guide(
    id: string, title: string, description: string, body: Body, howTo: string,
    materialId: Option<string>, difficulty: string, estimatedTime: Option<string>,
    requiredMaterials: Option<seq<string>>, tags: Option<seq<string>>,
    coverImageUrl: Option<string>, metaDescription: Option<string>)

  // ---------------------------------------------------------------------
  // The guide list
  // ---------------------------------------------------------------------

  /** `GuideCategory`. */
  datatype Category = All | Composting | Recycling | Art | Repair

  /** Whether one of the tags, lower-cased, is `t`. */
  predicate HasTag(tags: seq<string>, t: string) {
    t in Seqs.Map(Text.Lower, tags)
  }

  /** `getGuideCategory`: by the first matching tag group, in the order
      composting, recycling, art or creative, repair or maintenance;
      "all" for a guide without tags or with none of them. */
  function CategoryOf(g: Guide): (c: Category)
    ensures g.tags.None? ==> c == All
    ensures c == Composting <==> g.tags.Some? && HasTag(g.tags.value, "composting")
    ensures c == Recycling <==>
      g.tags.Some? && !HasTag(g.tags.value, "composting") && HasTag(g.tags.value, "recycling")
    ensures c == Art <==>
      g.tags.Some? && !HasTag(g.tags.value, "composting") && !HasTag(g.tags.value, "recycling")
      && (HasTag(g.tags.value, "art") || HasTag(g.tags.value, "creative"))
    ensures c == Repair <==>
      g.tags.Some? && !HasTag(g.tags.value, "composting") && !HasTag(g.tags.value, "recycling")
      && !HasTag(g.tags.value, "art") && !HasTag(g.tags.value, "creative")
      && (HasTag(g.tags.value, "repair") || HasTag(g.tags.value, "maintenance"))
  {
    match g.tags
    case None => All
    case Some(tags) =>
      if HasTag(tags, "composting") then Composting
      else if HasTag(tags, "recycling") then Recycling
      else if HasTag(tags, "art") || HasTag(tags, "creative") then Art
      else if HasTag(tags, "repair") || HasTag(tags, "maintenance") then Repair
      else All
  }

  function InCategory(c: Category): Guide -> bool {
    (g: Guide) => CategoryOf(g) == c
  }

  /** `filteredGuides`: every guide under "all", otherwise the guides of
      the chosen category, in order. */
  function Filtered(guides: seq<Guide>, selected: Category): (r: seq<Guide>)
    ensures selected == All ==> r == guides
    ensures selected != All ==> forall g :: g in r <==> g in guides && CategoryOf(g) == selected
    ensures multiset(r) <= multiset(guides)
  {
    if selected == All then guides
    else
      Seqs.FilterSubMultiset(InCategory(selected), guides);
      Seqs.Filter(InCategory(selected), guides)
  }

  /** A guide whose tags name no category shows up only under "all". */
  lemma UncategorisedOnlyUnderAll(guides: seq<Guide>, g: Guide, c: Category)
    requires g in guides && CategoryOf(g) == All
    ensures g in Filtered(guides, c) <==> c == All
  {
  }

  /** The tag test ignores letter case: upper-casing a guide's tags can't
      change its category. */
  lemma CategoryIgnoresCase(g: Guide, h: Guide)
    requires g.tags.Some? <==> h.tags.Some?
    requires g.tags.Some? ==> Seqs.Map(Text.Lower, g.tags.value) == Seqs.Map(Text.Lower, h.tags.value)
    ensures CategoryOf(g) == CategoryOf(h)
  {
  }

  /** Each guide is under exactly one category besides "all", or none. */
  lemma CategoriesDisjoint(guides: seq<Guide>, g: Guide, c: Category, d: Category)
    requires c != All && d != All && c != d
    ensures !(g in Filtered(guides, c) && g in Filtered(guides, d))
  {
  }

  /** The difficulty badge's colour. */
  datatype Badge = TagGreen | TagYellow | TagRed | TagGray

  /** `getDifficultyColor`: grey for a missing or unknown difficulty. */
  function DifficultyColor(difficulty: Option<string>): (b: Badge)
    ensures b == TagGray <==>
      difficulty !in {Some("beginner"), Some("intermediate"), Some("advanced")}
    ensures b == TagGreen <==> difficulty == Some("beginner")
  {
    match difficulty
    case Some("beginner") => TagGreen
    case Some("intermediate") => TagYellow
    case Some("advanced") => TagRed
    case _ => TagGray
  }

  // ---------------------------------------------------------------------
  // The forms
  // ---------------------------------------------------------------------

  /** The parsed form of a comma-separated input: nothing for an empty
      input, otherwise the trimmed, non-empty pieces. */
  function ParseList(input: string): (r: seq<string>)
    ensures input == "" ==> r == []
    ensures forall i :: 0 <= i < |r| ==> r[i] != "" && ',' !in r[i]
  {
    if input == "" then [] else Text.SplitTrimmed(input, ',')
  }

  /** The guard for an empty input changes nothing: splitting the empty
      input already gives no entries. */
  lemma ParseListIsSplitTrimmed(input: string)
    ensures ParseList(input) == Text.SplitTrimmed(input, ',')
  {
    if input == "" {
      assert Text.Split("", ',') == [""];
      assert Seqs.Map(Text.Trim, [""]) == [""];
    }
  }

  /** `GuideSubmission`. */
  datatype Submission = Submission(
    title: string, description: string, content: Doc, howTo: string,
    materialId: Option<string>, difficulty: string, estimatedTime: string,
    requiredMaterials: seq<string>, tags: seq<string>,
    coverImageUrl: string, metaDescription: string)

  /** A form's state: its data and the two list inputs. */
  datatype FormState = FormState(data: Submission, materialsInput: string, tagsInput: string, submitting: bool)

  /** What `handleSubmit` does: the submission handed over, whether the
      form closed, and the state afterwards. */
  datatype Submitted = Submitted(sent: Submission, closed: bool, state: FormState)

  /** The submission built from a form: the data as entered, with the two
      lists parsed from their inputs. */
  function Collect(st: FormState): (s: Submission)
    ensures s.requiredMaterials == ParseList(st.materialsInput) && s.tags == ParseList(st.tagsInput)
    ensures s.(requiredMaterials := st.data.requiredMaterials, tags := st.data.tags) == st.data
  {
    st.data.(requiredMaterials := ParseList(st.materialsInput), tags := ParseList(st.tagsInput))
  }

  /** `SubmitGuideForm.handleSubmit`, with whether `onSubmit` resolved as
      input: the form closes only after a successful submission, and is
      no longer submitting either way. */
  function SubmitGuide(st: FormState, resolved: bool): (r: Submitted)
    ensures r.sent == Collect(st)
    ensures r.closed <==> resolved
    ensures !r.state.submitting && r.state.data == st.data
  {
    Submitted(Collect(st), resolved, st.(submitting := false))
  }

  /** The empty document a malformed body falls back to. */
  function EmptyDoc(): Doc { Doc("doc", []) }

  /** `parseContent`, with `parsed` the result of `JSON.parse` on a text
      body (`None` when it throws): a document is kept, parsed text is
      used, unparsable text becomes the empty document. */
  function ParseContent(body: Body, parsed: Option<Doc>): (d: Doc)
    ensures body.Structured? ==> d == body.doc
    ensures body.Json? && parsed.Some? ==> d == parsed.value
    ensures body.Json? && parsed.None? ==> d.kind == "doc" && d.content == []
  {
    match body
    case Structured(doc) => doc
    case Json(_) => if parsed.Some? then parsed.value else EmptyDoc()
  }

  /** Parsing a parsed body again changes nothing. */
  lemma ParseContentSettles(body: Body, parsed: Option<Doc>, again: Option<Doc>)
    ensures ParseContent(Structured(ParseContent(body, parsed)), again) == ParseContent(body, parsed)
  {
  }

  /** `x || ""`. */
  function OrEmpty(s: Option<string>): string {
    if s.Some? then s.value else ""
  }

  /** `xs?.join(", ") || ""`. */
  function JoinOrEmpty(xs: Option<seq<string>>): (r: string)
    ensures xs.None? ==> r == ""
    ensures xs.Some? ==> r == Text.Join(xs.value, ", ")
  {
    if xs.Some? then Text.Join(xs.value, ", ") else ""
  }

  /** The edit form as it opens on a guide. */
  function OpenEdit(g: Guide, parsed: Option<Doc>): (st: FormState)
    ensures st.data.title == g.title && st.data.description == g.description
    ensures st.data.content == ParseContent(g.body, parsed)
    ensures st.materialsInput == JoinOrEmpty(g.requiredMaterials) && st.tagsInput == JoinOrEmpty(g.tags)
    ensures !st.submitting
  {
    FormState(
      Submission(g.title, g.description, ParseContent(g.body, parsed), g.howTo, g.materialId, g.difficulty,
                 OrEmpty(g.estimatedTime),
                 if g.requiredMaterials.Some? then g.requiredMaterials.value else [],
                 if g.tags.Some? then g.tags.value else [],
                 OrEmpty(g.coverImageUrl), OrEmpty(g.metaDescription)),
      JoinOrEmpty(g.requiredMaterials), JoinOrEmpty(g.tags), false)
  }

  /** What `EditGuideForm.handleSubmit` hands over: the guide's id and
      the updates. */
  datatype Update = Update(id: string, updates: Submission, closed: bool, state: FormState)

  /** `EditGuideForm.handleSubmit`: the updates go to the guide's own id;
      the form closes only after a successful update. */
  function EditGuide(g: Guide, st: FormState, resolved: bool): (r: Update)
    ensures r.id == g.id && r.updates == Collect(st)
    ensures r.closed <==> resolved
    ensures !r.state.submitting
  {
    Update(g.id, Collect(st), resolved, st.(submitting := false))
  }

  /** Words a list may hold and get back unchanged. */
  predicate ListWords(xs: Option<seq<string>>) {
    xs.Some? ==> forall i :: 0 <= i < |xs.value| ==> Text.IsListWord(xs.value[i], ',')
  }

  /** Saving the edit form untouched writes back the guide's lists when
      their entries are non-empty, trimmed and comma-free (an absent list
      becomes empty). */
  lemma EditRoundTrip(g: Guide, parsed: Option<Doc>, resolved: bool)
    requires ListWords(g.requiredMaterials) && ListWords(g.tags)
    ensures var u := EditGuide(g, OpenEdit(g, parsed), resolved).updates;
      && u.requiredMaterials == (if g.requiredMaterials.Some? then g.requiredMaterials.value else [])
      && u.tags == (if g.tags.Some? then g.tags.value else [])
      && u.title == g.title && u.description == g.description
  {
    ParseListIsSplitTrimmed(JoinOrEmpty(g.requiredMaterials));
    ParseListIsSplitTrimmed(JoinOrEmpty(g.tags));
    if g.requiredMaterials.Some? {
      Text.SplitTrimmedJoin(g.requiredMaterials.value);
    } else {
      ParseListIsSplitTrimmed("");
    }
    if g.tags.Some? {
      Text.SplitTrimmedJoin(g.tags.value);
    }
  }
}
