/** The evidence point lists (`evidence/EvidenceListViewer.tsx` and the
    older pilot `EvidenceListViewer.tsx`): which points are listed, how a
    point's locator and confidence are shown, the name lookups, the bulk
    delete request and the material menu. */
module EvidenceList {
  import opened Wrappers
  import Seqs
  import Text

  /** A minimal information unit (MIU): the fields the lists read. */
  datatype Miu = Miu(
    id: string,
    materialId: string,
    parameterCode: string,
    snippet: string,
    citation: string,
    confidenceLevel: string,
    pageNumber: Option<int>,
    figureNumber: Option<string>,
    tableNumber: Option<string>,
    dimension: string)

  // ---------------------------------------------------------------------
  // Loading and filtering
  // ---------------------------------------------------------------------

  /** The pilot list keeps aluminium, PET and cardboard points of the
      recyclability (CR) dimension, whatever the case of the material id. */
  predicate PilotPoint(m: Miu) {
    Text.Lower(m.materialId) in ["aluminum", "pet", "cardboard"] && m.dimension == "CR"
  }

  /** The pilot list's load filter. */
  function PilotLoad(evidence: seq<Miu>): (r: seq<Miu>)
    ensures forall m :: m in r <==> m in evidence && PilotPoint(m)
    ensures multiset(r) <= multiset(evidence)
  {
    Seqs.FilterSubMultiset(PilotPoint, evidence);
    Seqs.Filter(PilotPoint, evidence)
  }

  /** The filter panel: material, parameter ("all" for any) and search. */
  datatype Selection = Selection(material: string, parameter: string, query: string)

  /** `filteredMIUs`'s test: the material matches ignoring case, the
      parameter matches exactly, and the query occurs in the snippet or the
      citation ignoring case; "all" and "" switch a test off. */
  predicate Shown(m: Miu, s: Selection) {
    (s.material == "all" || Text.Lower(m.materialId) == Text.Lower(s.material))
    && (s.parameter == "all" || m.parameterCode == s.parameter)
    && (s.query == "" || Text.ContainsCi(m.snippet, s.query) || Text.ContainsCi(m.citation, s.query))
  }

  /** `filteredMIUs`. */
  function Filtered(mius: seq<Miu>, s: Selection): (r: seq<Miu>)
    ensures forall m :: m in r <==> m in mius && Shown(m, s)
    ensures multiset(r) <= multiset(mius)
  {
    Seqs.FilterSubMultiset((m: Miu) => Shown(m, s), mius);
    Seqs.Filter((m: Miu) => Shown(m, s), mius)
  }

  /** The panel before anything is chosen lists everything. */
  lemma AllSelectionKeepsAll(mius: seq<Miu>)
    ensures Filtered(mius, Selection("all", "all", "")) == mius
  {
    Seqs.FilterAll((m: Miu) => Shown(m, Selection("all", "all", "")), mius);
  }

  /** The material test ignores letter case in the selection. */
  lemma MaterialCaseIgnored(m: Miu, s: Selection)
    requires s.material != "all" && Text.Lower(s.material) != "all"
    ensures Shown(m, s) == Shown(m, s.(material := Text.Lower(s.material)))
  {
    Text.LowerIdempotent(s.material);
  }

  /** `handleBulkDelete`'s body: the ids of the listed points, in order. */
  function BulkDeleteIds(mius: seq<Miu>, s: Selection): (ids: seq<string>)
    ensures |ids| == |Filtered(mius, s)|
    ensures forall i :: 0 <= i < |ids| ==> ids[i] == Filtered(mius, s)[i].id
  {
    Seqs.Map((m: Miu) => m.id, Filtered(mius, s))
  }

  /** Bulk delete asks for exactly the listed points: every id belongs to a
      listed point, and every listed point's id is asked for. */
  lemma BulkDeleteIsListed(mius: seq<Miu>, s: Selection, id: string)
    ensures id in BulkDeleteIds(mius, s) <==> exists m :: m in mius && Shown(m, s) && m.id == id
  {
    var ids := BulkDeleteIds(mius, s);
    var f := Filtered(mius, s);
    if id in ids {
      var i :| 0 <= i < |ids| && ids[i] == id;
      assert f[i] in f;
    }
    if exists m :: m in mius && Shown(m, s) && m.id == id {
      var m :| m in mius && Shown(m, s) && m.id == id;
      assert m in f;
      var i :| 0 <= i < |f| && f[i] == m;
      assert ids[i] == id;
    }
  }

  // ---------------------------------------------------------------------
  // Presentation
  // ---------------------------------------------------------------------

  /** The truthy locator parts, in the order page, figure, table. */
  function LocatorParts(m: Miu): (parts: seq<string>)
    ensures |parts| <= 3
    ensures forall i :: 0 <= i < |parts| ==> |parts[i]| > 0 && parts[i][0] in {'p', 'F', 'T'}
  {
    (if m.pageNumber.Some? && m.pageNumber.value != 0 then ["p. " + Text.IntToString(m.pageNumber.value)] else [])
    + (if m.figureNumber.Some? && m.figureNumber.value != "" then ["Fig. " + m.figureNumber.value] else [])
    + (if m.tableNumber.Some? && m.tableNumber.value != "" then ["Table " + m.tableNumber.value] else [])
  }

  /** A joined list starts with its first part. */
  lemma JoinStartsWithFirst(parts: seq<string>, sep: string)
    requires |parts| > 0
    ensures Text.StartsWith(Text.Join(parts, sep), parts[0])
  {
    var j := Text.Join(parts, sep);
    assert j == parts[0] + Text.JoinRest(parts[1..], sep);
    assert j[..|parts[0]|] == parts[0];
  }

  /** `getLocatorText`: the parts joined with ", ", or "No locator". */
  function LocatorText(m: Miu): (r: string)
    ensures r == "No locator" <==> LocatorParts(m) == []
    ensures LocatorParts(m) != [] ==> r == Text.Join(LocatorParts(m), ", ")
  {
    JoinedLocatorNotSentinel(m);
    var joined := Text.Join(LocatorParts(m), ", ");
    if joined == "" then "No locator" else joined
  }

  /** Joined parts are empty only without parts, and never read
      "No locator", since every part starts with 'p', 'F' or 'T'. */
  lemma JoinedLocatorNotSentinel(m: Miu)
    ensures Text.Join(LocatorParts(m), ", ") == "" <==> LocatorParts(m) == []
    ensures Text.Join(LocatorParts(m), ", ") != "No locator"
  {
    var parts := LocatorParts(m);
    var joined := Text.Join(parts, ", ");
    if parts != [] {
      JoinStartsWithFirst(parts, ", ");
      assert joined[0] == parts[0][0];
    }
  }

  /** A point has no locator exactly when its page is missing or 0 and its
      figure and table are missing or empty. */
  lemma NoLocatorIff(m: Miu)
    ensures LocatorText(m) == "No locator" <==>
      (m.pageNumber.None? || m.pageNumber.value == 0)
      && (m.figureNumber.None? || m.figureNumber.value == "")
      && (m.tableNumber.None? || m.tableNumber.value == "")
  {
  }

  /** The confidence badge styles. */
  datatype BadgeStyle = Green | Yellow | Red

  /** `getConfidenceBadge`: high is green, low is red, and anything else,
      "medium" included, gets the medium style. */
  function ConfidenceBadge(level: string): (r: BadgeStyle)
    ensures r == Green <==> level == "high"
    ensures r == Red <==> level == "low"
    ensures r == Yellow <==> level != "high" && level != "low"
  {
    if level == "high" then Green else if level == "low" then Red else Yellow
  }

  /** A list entry: a code or id and its display name. */
  datatype Named = Named(key: string, name: string)

  /** The recyclability parameters and their names. */
  const CrParameters: seq<Named> := [
    Named("Y", "Years to Degrade"), Named("D", "Degradability"), Named("C", "Compostability"),
    Named("M", "Methane Production"), Named("E", "Ecotoxicity")]

  /** The first entry whose key satisfies the test, if any. */
  function Find(list: seq<Named>, matches: string -> bool): (r: Option<Named>)
    ensures r.None? <==> forall i :: 0 <= i < |list| ==> !matches(list[i].key)
    ensures r.Some? ==> r.value in list && matches(r.value.key)
    decreases |list|
  {
    if |list| == 0 then None
    else if matches(list[0].key) then Some(list[0])
    else Find(list[1..], matches)
  }

  /** `getParameterName`: the listed name, or the code itself (also when
      the listed name is empty). */
  function ParameterName(list: seq<Named>, code: string): (r: string)
    ensures (forall i :: 0 <= i < |list| ==> list[i].key != code) ==> r == code
    ensures r == code || exists i :: 0 <= i < |list| && list[i].key == code && list[i].name == r
  {
    match Find(list, (k: string) => k == code)
    case None => code
    case Some(p) => if p.name != "" then p.name else code
  }

  /** `getMaterialName`: as above, matching ids ignoring case. */
  function MaterialName(list: seq<Named>, id: string): (r: string)
    ensures (forall i :: 0 <= i < |list| ==> Text.Lower(list[i].key) != Text.Lower(id)) ==> r == id
    ensures r == id || exists i :: 0 <= i < |list| && Text.Lower(list[i].key) == Text.Lower(id) && list[i].name == r
  {
    match Find(list, (k: string) => Text.Lower(k) == Text.Lower(id))
    case None => id
    case Some(p) => if p.name != "" then p.name else id
  }

  // ---------------------------------------------------------------------
  // Material menu
  // ---------------------------------------------------------------------

  /** Whether some point has the material, ignoring case. */
  predicate Present(mius: seq<Miu>, id: string) {
    exists i :: 0 <= i < |mius| && Text.Lower(mius[i].materialId) == Text.Lower(id)
  }

  /** Whether an id names a pilot material, ignoring case. */
  predicate IsPilot(pilots: seq<Named>, id: string) {
    exists i :: 0 <= i < |pilots| && Text.Lower(pilots[i].key) == Text.Lower(id)
  }

  /** The material ids of the points. */
  function MaterialIds(mius: seq<Miu>): (ids: seq<string>)
    ensures |ids| == |mius| && forall i :: 0 <= i < |mius| ==> ids[i] == mius[i].materialId
  {
    Seqs.Map((m: Miu) => m.materialId, mius)
  }

  /** The pilot materials that have points, in list order. */
  function PresentPilots(mius: seq<Miu>, pilots: seq<Named>): seq<string> {
    Seqs.Map((p: Named) => p.key, Seqs.Filter((p: Named) => Present(mius, p.key), pilots))
  }

  /** The first part of the menu names exactly the pilots with points. */
  lemma PresentPilotsMembership(mius: seq<Miu>, pilots: seq<Named>)
    ensures forall k :: k in PresentPilots(mius, pilots) <==>
      exists i :: 0 <= i < |pilots| && pilots[i].key == k && Present(mius, k)
  {
    var present := Seqs.Filter((p: Named) => Present(mius, p.key), pilots);
    var first := PresentPilots(mius, pilots);
    forall k ensures k in first <==> exists i :: 0 <= i < |pilots| && pilots[i].key == k && Present(mius, k) {
      if k in first {
        var j :| 0 <= j < |first| && first[j] == k;
        assert present[j] in pilots;
      }
      if exists i :: 0 <= i < |pilots| && pilots[i].key == k && Present(mius, k) {
        var i :| 0 <= i < |pilots| && pilots[i].key == k && Present(mius, k);
        assert pilots[i] in present;
        var j :| 0 <= j < |present| && present[j] == pilots[i];
        assert first[j] == k;
      }
    }
  }

  /** The menu's entries after "All": the pilot materials that have
      points, in list order, then the other distinct ids, sorted. */
  function MaterialMenu(mius: seq<Miu>, pilots: seq<Named>): (r: (seq<string>, seq<string>))
    ensures forall k :: k in r.0 <==> exists i :: 0 <= i < |pilots| && pilots[i].key == k && Present(mius, k)
    ensures Text.StrictlySorted(r.1)
    ensures forall k :: k in r.1 <==> k in MaterialIds(mius) && !IsPilot(pilots, k)
  {
    PresentPilotsMembership(mius, pilots);
    (PresentPilots(mius, pilots), Text.SortedSet(Seqs.Filter((k: string) => !IsPilot(pilots, k), MaterialIds(mius))))
  }

  /** Every material with points appears in the menu: as a pilot entry
      when it names a pilot material, among the others otherwise. */
  lemma MenuCoversMaterials(mius: seq<Miu>, pilots: seq<Named>, i: nat)
    requires i < |mius|
    ensures var menu := MaterialMenu(mius, pilots);
      (IsPilot(pilots, mius[i].materialId) ==>
        exists j :: 0 <= j < |menu.0| && Text.Lower(menu.0[j]) == Text.Lower(mius[i].materialId))
      && (!IsPilot(pilots, mius[i].materialId) ==> mius[i].materialId in menu.1)
  {
    var menu := MaterialMenu(mius, pilots);
    var id := mius[i].materialId;
    assert MaterialIds(mius)[i] == id;
    if IsPilot(pilots, id) {
      var p :| 0 <= p < |pilots| && Text.Lower(pilots[p].key) == Text.Lower(id);
      assert Present(mius, pilots[p].key);
      var k := pilots[p].key;
      assert k in menu.0;
      var j :| 0 <= j < |menu.0| && menu.0[j] == k;
    }
  }
}
