/** The evidence lab (`views/EvidenceLabView.tsx`): the per-parameter
    evidence counts, the list filter, and the source search that turns a
    search result into a draft library source. */
module EvidenceLab {
  import opened Wrappers
  import Seqs
  import Text
  import EvidenceList

  type Miu = EvidenceList.Miu

  // ---------------------------------------------------------------------
  // Per-parameter counts
  // ---------------------------------------------------------------------

  function CodeOf(m: Miu): string { m.parameterCode }

  /** The parameter codes of the points, in order. */
  function Codes(ps: seq<Miu>): seq<string> { Seqs.Map(CodeOf, ps) }

  /** `getEvidenceCount`: `counts[code] || 0`. */
  function EvidenceCount(counts: map<string, nat>, code: string): nat {
    if code in counts then counts[code] else 0
  }

  /** `loadAllEvidenceCounts`' `forEach`: each point adds one to its
      parameter's count, starting from an empty record. */
  function Tally(ps: seq<Miu>): map<string, nat>
    decreases |ps|
  {
    if |ps| == 0 then map[]
    else
      var counts := Tally(ps[..|ps| - 1]);
      var c := ps[|ps| - 1].parameterCode;
      counts[c := EvidenceCount(counts, c) + 1]
  }

  /** Each parameter's count is the number of points with that code. */
  lemma {:induction false} TallyIsMultiplicity(ps: seq<Miu>, code: string)
    ensures EvidenceCount(Tally(ps), code) == multiset(Codes(ps))[code]
    decreases |ps|
  {
    if |ps| > 0 {
      var init := ps[..|ps| - 1];
      TallyIsMultiplicity(init, code);
      assert Codes(ps) == Codes(init) + [ps[|ps| - 1].parameterCode];
    }
  }

  /** A parameter without points counts zero, and one with points is a
      key of the record. */
  lemma AbsentCodeCountsZero(ps: seq<Miu>, code: string)
    ensures code !in Codes(ps) ==> EvidenceCount(Tally(ps), code) == 0
    ensures code in Codes(ps) <==> code in Tally(ps)
  {
    TallyIsMultiplicity(ps, code);
    if code in Tally(ps) {
      assert Tally(ps)[code] > 0 by { TallyPositive(ps, code); }
    }
  }

  /** Every key of the record has a positive count. */
  lemma {:induction false} TallyPositive(ps: seq<Miu>, code: string)
    requires code in Tally(ps)
    ensures Tally(ps)[code] > 0
    decreases |ps|
  {
    var init := ps[..|ps| - 1];
    if code != ps[|ps| - 1].parameterCode {
      TallyPositive(init, code);
    }
  }

  /** The counts of the listed codes, added up. */
  function SumCounts(counts: map<string, nat>, codes: seq<string>): nat
    decreases |codes|
  {
    if |codes| == 0 then 0 else EvidenceCount(counts, codes[0]) + SumCounts(counts, codes[1..])
  }

  lemma SumCountsEmpty(codes: seq<string>)
    ensures SumCounts(map[], codes) == 0
  {
  }

  /** Adding one to a code's count adds one to the sum when the code is
      listed, once. */
  lemma {:induction false} SumCountsBump(counts: map<string, nat>, codes: seq<string>, c: string)
    requires Seqs.Distinct(codes)
    ensures SumCounts(counts[c := EvidenceCount(counts, c) + 1], codes)
            == SumCounts(counts, codes) + (if c in codes then 1 else 0)
    decreases |codes|
  {
    if |codes| > 0 {
      assert Seqs.Distinct(codes[1..]);
      SumCountsBump(counts, codes[1..], c);
      assert c == codes[0] ==> c !in codes[1..];
      assert c in codes <==> c == codes[0] || c in codes[1..];
    }
  }

  /** Over distinct parameter codes covering every point, the per-parameter
      counts add up to the number of points. */
  lemma {:induction false} TallySum(ps: seq<Miu>, codes: seq<string>)
    requires Seqs.Distinct(codes)
    requires forall i :: 0 <= i < |ps| ==> ps[i].parameterCode in codes
    ensures SumCounts(Tally(ps), codes) == |ps|
    decreases |ps|
  {
    if |ps| == 0 {
      SumCountsEmpty(codes);
    } else {
      var init := ps[..|ps| - 1];
      TallySum(init, codes);
      SumCountsBump(Tally(init), codes, ps[|ps| - 1].parameterCode);
    }
  }

  // ---------------------------------------------------------------------
  // The evidence list
  // ---------------------------------------------------------------------

  /** A point is listed when its parameter is the selected one and the
      query is empty or occurs, ignoring case, in its citation or snippet. */
  predicate Shows(m: Miu, selected: Option<string>, query: string) {
    selected == Some(m.parameterCode)
    && (query == "" || Text.ContainsCi(m.citation, query) || Text.ContainsCi(m.snippet, query))
  }

  function Showing(selected: Option<string>, query: string): Miu -> bool {
    (m: Miu) => Shows(m, selected, query)
  }

  /** `filteredEvidence`. */
  function Filtered(ps: seq<Miu>, selected: Option<string>, query: string): (r: seq<Miu>)
    ensures forall m :: m in r <==> m in ps && Shows(m, selected, query)
    ensures multiset(r) <= multiset(ps)
  {
    Seqs.FilterSubMultiset(Showing(selected, query), ps);
    Seqs.Filter(Showing(selected, query), ps)
  }

  /** With no parameter selected nothing is listed. */
  lemma NoSelectionListsNothing(ps: seq<Miu>, query: string)
    ensures Filtered(ps, None, query) == []
  {
    Seqs.FilterNone(Showing(None, query), ps);
  }

  /** With an empty query the list holds as many points as the parameter's
      count, when the counted points are the loaded ones. */
  lemma {:induction false} EmptyQueryListsCount(ps: seq<Miu>, code: string)
    ensures |Filtered(ps, Some(code), "")| == EvidenceCount(Tally(ps), code)
    decreases |ps|
  {
    if |ps| > 0 {
      var init, last := ps[..|ps| - 1], ps[|ps| - 1];
      EmptyQueryListsCount(init, code);
      assert ps == init + [last];
      Seqs.FilterConcat(Showing(Some(code), ""), init, [last]);
      assert [last][1..] == [];
    }
  }

  // ---------------------------------------------------------------------
  // Source search
  // ---------------------------------------------------------------------

  /** A search hit (`CrossRefSearchResult`). */
  datatype Hit = Hit(doi: string, title: string, authors: seq<string>, year: Option<int>, summary: Option<string>)

  /** The open-access answer (`checkOAStatus`). */
  datatype Oa = Oa(isOpenAccess: bool, oaStatus: Option<string>, bestOaUrl: Option<string>)

  /** The search panel's state. */
  datatype Panel = Panel(searching: bool, results: seq<Hit>, selected: Option<Hit>, oa: Option<Oa>, checkingOa: bool)

  /** `handleSourceSearch` up to the request: a blank query is refused with
      a message and nothing is sent; otherwise the previous results,
      selection and open-access answer are cleared. */
  function StartSearch(p: Panel, query: string): (r: Result<Panel>)
    ensures r.Err? <==> Text.IsBlank(query)
    ensures r.Ok? ==> r.value.searching && r.value.results == [] && r.value.selected.None? && r.value.oa.None?
  {
    if Text.IsBlank(query) then Err("Please enter a search term")
    else Ok(p.(searching := true, results := [], selected := None, oa := None))
  }

  /** The toast after a search. */
  datatype Notice = NoneFound | Found(count: nat) | SearchFailed

  /** The rest of `handleSourceSearch`: the hits, or `None` when the request
      failed. */
  function FinishSearch(p: Panel, outcome: Option<seq<Hit>>): (r: (Panel, Notice))
    ensures !r.0.searching && r.0.selected == p.selected
    ensures r.1 == SearchFailed <==> outcome.None?
    ensures outcome.Some? ==> r.0.results == outcome.value && (r.1 == NoneFound <==> outcome.value == [])
    ensures r.1.Found? ==> r.1.count == |r.0.results| > 0
    ensures outcome.None? ==> r.0.results == p.results
  {
    match outcome
    case None => (p.(searching := false), SearchFailed)
    case Some(hits) => (p.(searching := false, results := hits), if |hits| == 0 then NoneFound else Found(|hits|))
  }

  /** `handleSelectSearchResult` up to the request. */
  function Select(p: Panel, hit: Hit): (r: Panel)
    ensures r.selected == Some(hit) && r.oa.None? && r.checkingOa && r.results == p.results
  {
    p.(selected := Some(hit), oa := None, checkingOa := true)
  }

  /** The rest of it: the server's answer, or `None` when the check failed,
      which counts as not open access. */
  function FinishOaCheck(p: Panel, outcome: Option<Oa>): (r: Panel)
    ensures !r.checkingOa && r.oa.Some? && r.selected == p.selected
    ensures outcome.Some? ==> r.oa == outcome
    ensures outcome.None? ==> !r.oa.value.isOpenAccess && r.oa.value.oaStatus.None? && r.oa.value.bestOaUrl.None?
  {
    p.(oa := Some(if outcome.Some? then outcome.value else Oa(false, None, None)), checkingOa := false)
  }

  /** The draft source (`sourceToAdd`). */
  datatype Draft = Draft(
    id: string, title: string, authors: string, year: Option<int>, doi: string, url: string,
    kind: string, summary: Option<string>, isOpenAccess: bool, oaStatus: Option<string>,
    bestOaUrl: Option<string>, tags: seq<string>)

  /** `x || undefined` on an optional string. */
  function NonEmpty(s: Option<string>): (r: Option<string>)
    ensures r.Some? <==> s.Some? && s.value != ""
    ensures r.Some? ==> r == s
  {
    if s.Some? && s.value != "" then s else None
  }

  const DoiResolver := "https://doi.org/"

  /** `handlePrepareAddSource`, with the generated id as input: nothing
      without a selected hit; otherwise a peer-reviewed draft whose authors
      are joined with ", ", whose url resolves the DOI, with no tags and
      the open-access answer where there is one. A zero year and empty
      texts count as absent. */
  function PrepareAddSource(p: Panel, id: string): (r: Option<Draft>)
    ensures r.None? <==> p.selected.None?
    ensures r.Some? ==>
      var h, d := p.selected.value, r.value;
      && d.id == id && d.title == h.title && d.doi == h.doi
      && d.authors == Text.Join(h.authors, ", ")
      && d.url == DoiResolver + h.doi
      && d.kind == "peer-reviewed" && d.tags == []
      && (d.year.Some? <==> h.year.Some? && h.year.value != 0) && (d.year.Some? ==> d.year == h.year)
      && (d.isOpenAccess <==> p.oa.Some? && p.oa.value.isOpenAccess)
      && (p.oa.None? ==> d.oaStatus.None? && d.bestOaUrl.None?)
  {
    match p.selected
    case None => None
    case Some(h) =>
      var oa := if p.oa.Some? then p.oa.value else Oa(false, None, None);
      Some(Draft(
        id, h.title, Text.Join(h.authors, ", "),
        if h.year.Some? && h.year.value != 0 then h.year else None,
        h.doi, DoiResolver + h.doi, "peer-reviewed", NonEmpty(h.summary),
        oa.isOpenAccess, NonEmpty(oa.oaStatus), NonEmpty(oa.bestOaUrl), []))
  }

  /** A search just started has no selection, so the add button prepares
      nothing until a hit is picked. */
  lemma NewSearchPreparesNothing(p: Panel, query: string, id: string)
    requires !Text.IsBlank(query)
    ensures PrepareAddSource(StartSearch(p, query).value, id).None?
  {
  }

  /** A failed open-access check leaves the draft marked as not open
      access, without a status or link. */
  lemma FailedOaCheckDraftsClosed(p: Panel, hit: Hit, id: string)
    ensures var d := PrepareAddSource(FinishOaCheck(Select(p, hit), None), id).value;
      !d.isOpenAccess && d.oaStatus.None? && d.bestOaUrl.None? && d.doi == hit.doi
  {
  }

  /** Author names without commas or surrounding spaces can be read back
      from the draft's author text. */
  lemma AuthorsReadBack(p: Panel, id: string)
    requires p.selected.Some?
    requires forall i :: 0 <= i < |p.selected.value.authors| ==> Text.IsListWord(p.selected.value.authors[i], ',')
    ensures Text.SplitTrimmed(PrepareAddSource(p, id).value.authors, ',') == p.selected.value.authors
  {
    Text.SplitTrimmedJoin(p.selected.value.authors);
  }

  // ---------------------------------------------------------------------
  // Draft tags
  // ---------------------------------------------------------------------

  function TrimLower(t: string): string { Text.Lower(Text.Trim(t)) }

  /** The tag input's parser: split on ',', each piece trimmed and
      lower-cased, empty pieces dropped. */
  function TagsOf(text: string): (r: seq<string>)
    ensures forall i :: 0 <= i < |r| ==> r[i] != "" && ',' !in r[i] && Text.Lower(r[i]) == r[i]
  {
    var r := Seqs.Filter(Text.Nonempty, Seqs.Map(TrimLower, Text.Split(text, ',')));
    forall i | 0 <= i < |r| ensures ',' !in r[i] && Text.Lower(r[i]) == r[i] {
      TagPieceShape(text, r[i]);
    }
    r
  }

  lemma TagPieceShape(text: string, t: string)
    requires t in Seqs.Map(TrimLower, Text.Split(text, ','))
    ensures ',' !in t && Text.Lower(t) == t
  {
    var pieces := Text.Split(text, ',');
    var i :| 0 <= i < |pieces| && t == TrimLower(pieces[i]);
    Text.TrimSub(pieces[i], ',');
    Text.LowerIdempotent(Text.Trim(pieces[i]));
  }

  /** Editing the tag input. */
  function EditTags(d: Draft, text: string): (r: Draft)
    ensures r.tags == TagsOf(text) && r == d.(tags := r.tags)
  {
    d.(tags := TagsOf(text))
  }

  lemma {:induction false} FilterNonemptyLower(xs: seq<string>)
    ensures Seqs.Filter(Text.Nonempty, Seqs.Map(Text.Lower, xs))
            == Seqs.Map(Text.Lower, Seqs.Filter(Text.Nonempty, xs))
    decreases |xs|
  {
    if |xs| > 0 {
      FilterNonemptyLower(xs[1..]);
      assert Seqs.Map(Text.Lower, xs)[1..] == Seqs.Map(Text.Lower, xs[1..]);
    }
  }

  /** The tag parser is the list parser of the guide forms followed by
      lower-casing. */
  lemma TagsOfIsLoweredList(text: string)
    ensures TagsOf(text) == Seqs.Map(Text.Lower, Text.SplitTrimmed(text, ','))
  {
    var pieces := Text.Split(text, ',');
    assert Seqs.Map(TrimLower, pieces) == Seqs.Map(Text.Lower, Seqs.Map(Text.Trim, pieces));
    FilterNonemptyLower(Seqs.Map(Text.Trim, pieces));
  }

  /** The input shows the tags joined with ", "; re-reading that text gives
      back tags that are lower-case words without commas or surrounding
      spaces. */
  lemma TagsRoundTrip(tags: seq<string>)
    requires forall i :: 0 <= i < |tags| ==> Text.IsListWord(tags[i], ',') && Text.Lower(tags[i]) == tags[i]
    ensures TagsOf(Text.Join(tags, ", ")) == tags
  {
    TagsOfIsLoweredList(Text.Join(tags, ", "));
    Text.SplitTrimmedJoin(tags);
    assert Seqs.Map(Text.Lower, tags) == tags;
  }
}
