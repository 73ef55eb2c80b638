/** The source library: the list of citable sources the curators maintain,
    with its search filter, the usage guard on deletion, adding, updating,
    importing and the open-access toggle. Both library screens are
    modelled; where the older one differs it has its own member. */
module Library {
  import opened Wrappers
  import opened Text
  import Seqs
  import opened Materials

  /** A library source. `kind` is the source's `type` (`peer-reviewed`,
      `government`, ...) and `summary` its abstract. */
  datatype LibSource = LibSource(
    id: string,
    title: string,
    authors: Option<string>,
    year: Option<int>,
    doi: Option<string>,
    url: Option<string>,
    weight: Option<real>,
    kind: string,
    summary: Option<string>,
    tags: Option<seq<string>>,
    isOpenAccess: Option<bool>,
    manualOaOverride: Option<bool>,
    oaStatus: Option<string>)

  /** JavaScript falsiness of an optional string: absent or empty. */
  predicate Falsy(s: Option<string>) {
    s.None? || s.value == ""
  }

  /** `source.tags || []`. */
  function TagsOf(s: LibSource): seq<string> {
    if s.tags.Some? then s.tags.value else []
  }

  // ---------------------------------------------------------------------
  // Tags and filtering
  // ---------------------------------------------------------------------

  function AllTagsOf(sources: seq<LibSource>): (r: seq<string>)
    ensures forall t :: t in r <==> exists i :: 0 <= i < |sources| && t in TagsOf(sources[i])
    decreases |sources|
  {
    if |sources| == 0 then []
    else
      var rest := AllTagsOf(sources[1..]);
      assert forall i :: 0 < i < |sources| ==> sources[i] == sources[1..][i - 1];
      TagsOf(sources[0]) + rest
  }

  /** `allTags`: every tag of every source, once each, sorted. */
  function AllTags(sources: seq<LibSource>): (r: seq<string>)
    ensures StrictlySorted(r) && Seqs.Distinct(r)
    ensures forall t :: t in r <==> exists i :: 0 <= i < |sources| && t in TagsOf(sources[i])
  {
    var r := SortedSet(AllTagsOf(sources));
    SortedDistinct(r);
    r
  }

  /** The search condition: an empty query matches everything; otherwise
      the query occurs, ignoring case, in the title, the authors or a tag. */
  predicate MatchesSearch(s: LibSource, query: string) {
    query == ""
    || ContainsCi(s.title, query)
    || (s.authors.Some? && ContainsCi(s.authors.value, query))
    || (exists t :: t in TagsOf(s) && ContainsCi(t, query))
  }

  /** The conditions of the library screen's filter. */
  predicate MatchesFilter(s: LibSource, query: string, kind: string, selectedTags: seq<string>, oaOnly: bool) {
    && MatchesSearch(s, query)
    && (kind == "all" || s.kind == kind)
    && (forall t :: t in selectedTags ==> t in TagsOf(s))
    && (!oaOnly || s.doi.Some?)
  }

  /** `filteredSources`: the sources meeting all four conditions, in
      library order. */
  function FilterSources(sources: seq<LibSource>, query: string, kind: string, selectedTags: seq<string>,
                         oaOnly: bool): (r: seq<LibSource>)
    ensures |r| <= |sources|
    ensures forall s :: s in r <==> s in sources && MatchesFilter(s, query, kind, selectedTags, oaOnly)
  {
    Seqs.Filter((s: LibSource) => MatchesFilter(s, query, kind, selectedTags, oaOnly), sources)
  }

  /** The older screen's filter is the same without the open-access
      condition. */
  lemma OlderFilterHasNoOaCondition(sources: seq<LibSource>, query: string, kind: string, selectedTags: seq<string>)
    ensures forall s :: s in FilterSources(sources, query, kind, selectedTags, false) <==>
      s in sources && MatchesSearch(s, query) && (kind == "all" || s.kind == kind)
      && (forall t :: t in selectedTags ==> t in TagsOf(s))
  {
  }

  /** An empty query, type "all", no selected tags and no open-access
      restriction keep the whole library. */
  lemma NoFilterKeepsAll(sources: seq<LibSource>)
    ensures FilterSources(sources, "", "all", [], false) == sources
  {
    Seqs.FilterAll((s: LibSource) => MatchesFilter(s, "", "all", [], false), sources);
  }

  // ---------------------------------------------------------------------
  // Usage and deletion
  // ---------------------------------------------------------------------

  /** A material's citation refers to the library source: same title, and
      the DOIs do not disagree (either is missing or empty, or they are
      equal). */
  predicate Cites(m: Material, title: string, doi: Option<string>) {
    m.sources.Some? &&
    exists c :: c in m.sources.value && c.title == title && (Falsy(doi) || Falsy(c.doi) || c.doi == doi)
  }

  /** `getSourceUsage`: the materials citing the source. */
  function SourceUsage(materials: seq<Material>, title: string, doi: Option<string>): (r: seq<Material>)
    ensures forall m :: m in r <==> m in materials && Cites(m, title, doi)
  {
    Seqs.Filter((m: Material) => Cites(m, title, doi), materials)
  }

  /** `sources.find(s => s.id === id)`. */
  function FindSource(sources: seq<LibSource>, id: string): (r: Option<LibSource>)
    ensures r.Some? <==> exists i :: 0 <= i < |sources| && sources[i].id == id
    ensures r.Some? ==> r.value in sources && r.value.id == id
    decreases |sources|
  {
    if |sources| == 0 then None
    else if sources[0].id == id then Some(sources[0])
    else
      assert forall i :: 0 < i < |sources| ==> sources[i] == sources[1..][i - 1];
      FindSource(sources[1..], id)
  }

  /** Every source except those with the given id. */
  function Without(sources: seq<LibSource>, id: string): (r: seq<LibSource>)
    ensures forall s :: s in r <==> s in sources && s.id != id
    ensures |r| <= |sources|
  {
    Seqs.Filter((s: LibSource) => s.id != id, sources)
  }

  /** The usage guard: the citations of the source with that id (of a
      source titled "" when there is none). */
  function UsageOf(sources: seq<LibSource>, materials: seq<Material>, id: string): seq<Material> {
    match FindSource(sources, id)
    case Some(s) => SourceUsage(materials, s.title, s.doi)
    case None => SourceUsage(materials, "", None)
  }

  /** `handleDelete`: refused while a material cites the source; otherwise
      the source is removed, unless the server refused an admin's
      deletion (`serverOk` is the outcome of that call). */
  function Delete(sources: seq<LibSource>, materials: seq<Material>, id: string, admin: bool,
                  serverOk: bool): (r: Result<seq<LibSource>>)
    ensures r.Err? <==> |UsageOf(sources, materials, id)| > 0 || (admin && !serverOk)
    ensures r.Ok? ==> r.value == Without(sources, id)
  {
    if |UsageOf(sources, materials, id)| > 0 then Err("Cannot delete: source in use")
    else if admin && !serverOk then Err("Failed to delete source")
    else Ok(Without(sources, id))
  }

  /** The older screen's `handleDelete`: the same guard, and local removal
      regardless of the server. */
  function DeleteOlder(sources: seq<LibSource>, materials: seq<Material>, id: string): (r: Result<seq<LibSource>>)
    ensures r.Err? <==> |UsageOf(sources, materials, id)| > 0
    ensures r.Ok? ==> forall s :: s in r.value <==> s in sources && s.id != id
  {
    Delete(sources, materials, id, false, true)
  }

  /** A source some material cites can never be deleted. */
  lemma CitedSourceKept(sources: seq<LibSource>, materials: seq<Material>, i: nat, m: Material,
                        admin: bool, serverOk: bool)
    requires i < |sources| && m in materials
    requires forall j :: 0 <= j < i ==> sources[j].id != sources[i].id
    requires Cites(m, sources[i].title, sources[i].doi)
    ensures Delete(sources, materials, sources[i].id, admin, serverOk).Err?
  {
    var f := FindSource(sources, sources[i].id);
    FirstFound(sources, sources[i].id, i);
    assert m in SourceUsage(materials, sources[i].title, sources[i].doi);
  }

  lemma {:induction false} FirstFound(sources: seq<LibSource>, id: string, i: nat)
    requires i < |sources| && sources[i].id == id
    requires forall j :: 0 <= j < i ==> sources[j].id != id
    ensures FindSource(sources, id) == Some(sources[i])
    decreases i
  {
    if i > 0 {
      FirstFound(sources[1..], id, i - 1);
    }
  }

  /** `handleDeleteAllSources`: with skipped ids only those sources stay,
      otherwise the library is emptied. */
  function DeleteAll(sources: seq<LibSource>, skippedIds: seq<string>): (r: seq<LibSource>)
    ensures forall s :: s in r <==> s in sources && |skippedIds| > 0 && s.id in skippedIds
  {
    if |skippedIds| > 0 then Seqs.Filter((s: LibSource) => s.id in skippedIds, sources) else []
  }

  /** `handleRemoveDuplicates`: the deleted ids leave the list. */
  function RemoveDeleted(sources: seq<LibSource>, deletedIds: seq<string>): (r: seq<LibSource>)
    ensures forall s :: s in r <==> s in sources && (|deletedIds| == 0 || s.id !in deletedIds)
  {
    if |deletedIds| > 0 then Seqs.Filter((s: LibSource) => s.id !in deletedIds, sources) else sources
  }

  // ---------------------------------------------------------------------
  // Adding and updating
  // ---------------------------------------------------------------------

  /** The add/edit form. `kind` is absent when no type is chosen. */
  datatype SourceForm = SourceForm(
    title: Option<string>,
    authors: Option<string>,
    year: Option<int>,
    doi: Option<string>,
    url: Option<string>,
    weight: Option<real>,
    kind: Option<string>,
    summary: Option<string>,
    tags: Option<seq<string>>)

  function TrimOpt(s: Option<string>): (r: Option<string>)
    ensures r.Some? <==> s.Some?
    ensures r.Some? ==> r.value == Trim(s.value)
  {
    if s.Some? then Some(Trim(s.value)) else None
  }

  /** `weight || 1.0`: a missing or zero weight becomes 1.0. */
  function WeightOrDefault(w: Option<real>): (r: real)
    ensures w.Some? && w.value != 0.0 ==> r == w.value
    ensures w.None? || w.value == 0.0 ==> r == 1.0
  {
    if w.Some? && w.value != 0.0 then w.value else 1.0
  }

  /** The result of the server's duplicate check. */
  datatype DuplicateCheck = Unique | Duplicate | CheckFailed

  /** What `handleAdd` leads to. */
  datatype AddOutcome =
    | Rejected(message: string)
    | AwaitingConfirmation(pending: LibSource)
    | Added(sources: seq<LibSource>)

  /** The validation of `handleAdd`, in its order: a blank title, a missing
      type, a truthy year outside `[1900, thisYear + 1]`, a defined weight
      outside `[0, 1]`. */
  function ValidateForm(form: SourceForm, thisYear: int): (r: Option<string>)
    ensures r.None? <==>
      && form.title.Some? && !IsBlank(form.title.value)
      && form.kind.Some? && form.kind.value != ""
      && (form.year.None? || form.year.value == 0 || 1900 <= form.year.value <= thisYear + 1)
      && (form.weight.None? || 0.0 <= form.weight.value <= 1.0)
  {
    if form.title.None? || IsBlank(form.title.value) then Some("Title is required")
    else if form.kind.None? || form.kind.value == "" then Some("Source type is required")
    else if form.year.Some? && form.year.value != 0 && (form.year.value < 1900 || form.year.value > thisYear + 1)
    then Some("Please enter a valid year")
    else if form.weight.Some? && (form.weight.value < 0.0 || form.weight.value > 1.0)
    then Some("Weight must be between 0 and 1")
    else None
  }

  /** The source `handleAdd` builds: text fields trimmed, weight defaulted. */
  function NewSource(form: SourceForm, id: string): (s: LibSource)
    requires form.title.Some? && form.kind.Some?
    ensures s.id == id && s.title == Trim(form.title.value) && s.kind == form.kind.value
    ensures s.authors == TrimOpt(form.authors) && s.doi == TrimOpt(form.doi) && s.url == TrimOpt(form.url)
    ensures s.weight == Some(WeightOrDefault(form.weight))
    ensures s.tags == Some(if form.tags.Some? then form.tags.value else [])
  {
    LibSource(id, Trim(form.title.value), TrimOpt(form.authors), form.year, TrimOpt(form.doi), TrimOpt(form.url),
              Some(WeightOrDefault(form.weight)), form.kind.value, TrimOpt(form.summary),
              Some(if form.tags.Some? then form.tags.value else []), None, None, None)
  }

  /** `handleAdd` with the generated id, the current year and the server's
      duplicate verdict as inputs. */
  function Add(sources: seq<LibSource>, form: SourceForm, id: string, thisYear: int,
               check: DuplicateCheck): (r: AddOutcome)
    ensures r.Rejected? <==> ValidateForm(form, thisYear).Some? || check == CheckFailed
    ensures r.AwaitingConfirmation? <==> ValidateForm(form, thisYear).None? && check == Duplicate
    ensures r.Added? ==>
      && |r.sources| == |sources| + 1 && r.sources[..|sources|] == sources
      && var s := r.sources[|sources|];
         s.id == id && s.title != "" && IsTrimmed(s.title) && s.kind != ""
         && s.weight.Some? && 0.0 < s.weight.value <= 1.0
  {
    match ValidateForm(form, thisYear)
    case Some(msg) => Rejected(msg)
    case None =>
      var s := NewSource(form, id);
      TrimIsTrimmed(form.title.value);
      match check
      case CheckFailed => Rejected("Failed to check for duplicates. Please try again.")
      case Duplicate => AwaitingConfirmation(s)
      case Unique => Added(sources + [s])
  }

  /** The older screen's `handleAdd`: only a non-blank title is required,
      nothing is trimmed, and a zero weight is stored as 1.0. */
  function AddOlder(sources: seq<LibSource>, form: SourceForm, id: string): (r: Result<seq<LibSource>>)
    ensures r.Err? <==> form.title.None? || IsBlank(form.title.value)
    ensures r.Ok? ==>
      && |r.value| == |sources| + 1 && r.value[..|sources|] == sources
      && r.value[|sources|].title == form.title.value
      && r.value[|sources|].weight == Some(WeightOrDefault(form.weight))
  {
    if form.title.None? || IsBlank(form.title.value) then Err("Title is required")
    else
      var s := LibSource(id, form.title.value, form.authors, form.year, form.doi, form.url,
                         Some(WeightOrDefault(form.weight)), if form.kind.Some? then form.kind.value else "",
                         form.summary, Some(if form.tags.Some? then form.tags.value else []), None, None, None);
      Ok(sources + [s])
  }

  /** `sources.map(s => s.id === id ? updated : s)`. */
  function ReplaceById(sources: seq<LibSource>, id: string, updated: LibSource): (r: seq<LibSource>)
    ensures |r| == |sources|
    ensures forall i :: 0 <= i < |sources| ==> r[i] == (if sources[i].id == id then updated else sources[i])
  {
    Seqs.Map((s: LibSource) => if s.id == id then updated else s, sources)
  }

  /** `handleUpdate` (both screens): a blank title is refused; otherwise the
      edited source's entry is replaced and nothing else changes. Without an
      edited source no entry matches. */
  function Update(sources: seq<LibSource>, editing: Option<LibSource>, updated: LibSource): (r: Result<seq<LibSource>>)
    ensures r.Err? <==> IsBlank(updated.title)
    ensures r.Ok? ==> |r.value| == |sources|
    ensures r.Ok? ==> forall i :: 0 <= i < |sources| ==>
      r.value[i] == (if editing.Some? && sources[i].id == editing.value.id then updated else sources[i])
  {
    if IsBlank(updated.title) then Err("Title is required")
    else if editing.Some? then Ok(ReplaceById(sources, editing.value.id, updated))
    else Ok(sources)
  }

  // ---------------------------------------------------------------------
  // Import
  // ---------------------------------------------------------------------

  /** An imported entry is kept only with a title and a type. */
  predicate ImportValid(s: LibSource) {
    s.title != "" && s.kind != ""
  }

  function Ids(sources: seq<LibSource>): (r: set<string>)
    ensures forall x :: x in r <==> exists i :: 0 <= i < |sources| && sources[i].id == x
  {
    set i | 0 <= i < |sources| :: sources[i].id
  }

  /** `handleImportSources`: a file that is not an array is refused; the
      valid entries whose id is not in the library are appended in file
      order. */
  function Import(sources: seq<LibSource>, imported: Option<seq<LibSource>>): (r: Result<seq<LibSource>>)
    ensures r.Err? <==> imported.None?
    ensures r.Ok? ==> |r.value| >= |sources| && r.value[..|sources|] == sources
    ensures r.Ok? ==> forall s :: s in r.value[|sources|..] <==>
      s in imported.value && ImportValid(s) && s.id !in Ids(sources)
  {
    if imported.None? then Err("Invalid file format: Expected array of sources")
    else
      var ids := Ids(sources);
      var valid := Seqs.Filter(ImportValid, imported.value);
      var added := Seqs.Filter((s: LibSource) => s.id !in ids, valid);
      assert (sources + added)[|sources|..] == added;
      Ok(sources + added)
  }

  // ---------------------------------------------------------------------
  // Text inputs
  // ---------------------------------------------------------------------

  /** The tag input: ';' is read as ',', then the comma-separated entries
      are trimmed and empty ones dropped. */
  function ParseTags(input: string): (r: seq<string>)
    ensures forall i :: 0 <= i < |r| ==> r[i] != "" && ',' !in r[i] && ';' !in r[i]
  {
    var r := SplitTrimmed(ReplaceChar(input, ';', ','), ',');
    forall i | 0 <= i < |r| ensures ';' !in r[i] {
      NoSemicolonPieces(input, r, i);
    }
    r
  }

  lemma NoSemicolonPieces(input: string, r: seq<string>, i: nat)
    requires r == SplitTrimmed(ReplaceChar(input, ';', ','), ',') && i < |r|
    ensures ';' !in r[i]
  {
    var t := ReplaceChar(input, ';', ',');
    assert ';' !in t;
    var pieces := Split(t, ',');
    SplitPiecesFrom(t, ';');
    var trimmed := Seqs.Map(Trim, pieces);
    assert r[i] in trimmed;
    var k :| 0 <= k < |trimmed| && trimmed[k] == r[i];
    TrimSub(pieces[k], ';');
  }

  /** A character absent from the input is absent from every piece. */
  lemma {:induction false} SplitPiecesFrom(s: string, d: char)
    requires d !in s
    ensures forall k :: 0 <= k < |Split(s, ',')| ==> d !in Split(s, ',')[k]
    decreases |s|
  {
    if |s| > 0 {
      SplitPiecesFrom(s[1..], d);
    }
  }

  /** The older screen's tag input: only ',' separates. */
  function ParseTagsOlder(input: string): (r: seq<string>)
    ensures forall i :: 0 <= i < |r| ==> r[i] != "" && ',' !in r[i]
  {
    SplitTrimmed(input, ',')
  }

  /** The tag input shows `tags.join(", ")`; reading that text back gives
      the same tags when they are trimmed, non-empty and free of ',' and
      ';'. */
  lemma TagsRoundTrip(tags: seq<string>)
    requires forall i :: 0 <= i < |tags| ==> IsListWord(tags[i], ',') && ';' !in tags[i]
    ensures ParseTags(Join(tags, ", ")) == tags
    ensures ParseTagsOlder(Join(tags, ", ")) == tags
  {
    NoCharInJoin(tags, ';');
    ReplaceAbsent(Join(tags, ", "), ';', ',');
    SplitTrimmedJoin(tags);
  }

  lemma {:induction false} NoCharInJoinRest(parts: seq<string>, d: char)
    requires d != ',' && d != ' '
    requires forall i :: 0 <= i < |parts| ==> d !in parts[i]
    ensures d !in JoinRest(parts, ", ")
    decreases |parts|
  {
    if |parts| > 0 {
      NoCharInJoinRest(parts[1..], d);
    }
  }

  lemma NoCharInJoin(parts: seq<string>, d: char)
    requires d != ',' && d != ' '
    requires forall i :: 0 <= i < |parts| ==> d !in parts[i]
    ensures d !in Join(parts, ", ")
  {
    if |parts| > 0 {
      NoCharInJoinRest(parts[1..], d);
    }
  }

  lemma ReplaceAbsent(s: string, a: char, b: char)
    requires a !in s
    ensures ReplaceChar(s, a, b) == s
  {
  }

  /** The four prefixes the DOI cleaner strips. */
  const DoiPrefixes: seq<string> := ["https://doi.org/", "http://doi.org/", "https://dx.doi.org/", "http://dx.doi.org/"]

  /** Remove the first of the prefixes `d` starts with, if any. */
  function StripPrefix(d: string, prefixes: seq<string>): (r: string)
    ensures || (exists p :: p in prefixes && StartsWith(d, p) && r == d[|p|..])
            || ((forall p :: p in prefixes ==> !StartsWith(d, p)) && r == d)
    decreases |prefixes|
  {
    if |prefixes| == 0 then d
    else if StartsWith(d, prefixes[0]) then d[|prefixes[0]|..]
    else StripPrefix(d, prefixes[1..])
  }

  /** The CrossRef lookup's DOI: an empty (trimmed) DOI is refused, and one
      leading `http(s)://(dx.)doi.org/` is removed. */
  function CleanDoi(doi: Option<string>): (r: Result<string>)
    ensures r.Err? <==> doi.None? || Trim(doi.value) == ""
    ensures r.Ok? ==> var d := Trim(doi.value);
      || (exists p :: p in DoiPrefixes && StartsWith(d, p) && r.value == d[|p|..])
      || ((forall p :: p in DoiPrefixes ==> !StartsWith(d, p)) && r.value == d)
  {
    if doi.None? || Trim(doi.value) == "" then Err("Please enter a DOI first")
    else Ok(StripPrefix(Trim(doi.value), DoiPrefixes))
  }

  /** A DOI written as a `https://doi.org/` link cleans to the bare DOI. */
  lemma CleanDoiLink(d: string)
    requires IsTrimmed(d) && d != ""
    ensures CleanDoi(Some("https://doi.org/" + d)) == Ok(d)
  {
    var s := "https://doi.org/" + d;
    assert IsTrimmed(s);
    TrimOfTrimmed(s);
    assert s[..16] == "https://doi.org/";
    assert s[16..] == d;
  }

  // ---------------------------------------------------------------------
  // Open-access toggle
  // ---------------------------------------------------------------------

  /** `handleToggleOAStatus` for an admin: the open-access flag of the
      source becomes the negation of the current one (the source's own,
      else the checker's `stateOa`, else false), marked as a manual
      override. */
  function ToggleOa(sources: seq<LibSource>, id: string, stateOa: Option<bool>): (r: seq<LibSource>)
    ensures FindSource(sources, id).None? ==> r == sources
    ensures |r| == |sources|
    ensures FindSource(sources, id).Some? ==>
      var cur := FindSource(sources, id).value;
      var now := !(if cur.isOpenAccess.Some? then cur.isOpenAccess.value else stateOa.GetOr(false));
      forall i :: 0 <= i < |sources| ==>
        r[i] == (if sources[i].id == id
                 then sources[i].(isOpenAccess := Some(now), manualOaOverride := Some(true),
                                  oaStatus := Some(if now then "manual" else "closed"))
                 else sources[i])
  {
    match FindSource(sources, id)
    case None => sources
    case Some(cur) =>
      var now := !(if cur.isOpenAccess.Some? then cur.isOpenAccess.value else stateOa.GetOr(false));
      Seqs.Map((s: LibSource) =>
        if s.id == id then s.(isOpenAccess := Some(now), manualOaOverride := Some(true),
                              oaStatus := Some(if now then "manual" else "closed"))
        else s, sources)
  }

  /** Toggling twice restores a defined open-access flag, whatever the
      checker reports. */
  lemma ToggleTwice(sources: seq<LibSource>, id: string, i: nat, state1: Option<bool>, state2: Option<bool>)
    requires i < |sources| && sources[i].id == id && sources[i].isOpenAccess.Some?
    requires forall j :: 0 <= j < |sources| && sources[j].id == id ==> sources[j] == sources[i]
    ensures ToggleOa(ToggleOa(sources, id, state1), id, state2)[i].isOpenAccess == sources[i].isOpenAccess
  {
    var f := FindSource(sources, id);
    assert f.Some? && f.value == sources[i];
    var once := ToggleOa(sources, id, state1);
    var g := FindSource(once, id);
    assert g.Some?;
    var k :| 0 <= k < |once| && once[k] == g.value;
    assert sources[k].id == id;
  }
}
