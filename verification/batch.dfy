/** Batch operations over all materials: the statistics panel, the JSON
    export and the import that merges it back, the confidence
    recalculation and the data-quality audit. */
module Batch {
  import opened Wrappers
  import opened Materials
  import Seqs
  import Confidence

  // ---------------------------------------------------------------------
  // Statistics
  // ---------------------------------------------------------------------

  datatype Stats = Stats(
    total: nat,
    withScientificData: nat,
    withoutScientificData: nat,
    highConfidence: nat,
    mediumConfidence: nat,
    lowConfidence: nat)

  predicate HasY(m: Material) { m.yValue.Some? }
  predicate IsLevel(m: Material, l: Level) { m.confidence == Some(l) }

  /** The number of materials with the given level. */
  function LevelCount(ms: seq<Material>, l: Level): (n: nat)
    ensures n <= |ms|
    decreases |ms|
  {
    if |ms| == 0 then 0 else (if IsLevel(ms[0], l) then 1 else 0) + LevelCount(ms[1..], l)
  }

  /** The three level counts never add up to more than the list. */
  lemma {:induction false} LevelCountsBounded(ms: seq<Material>)
    ensures LevelCount(ms, High) + LevelCount(ms, Medium) + LevelCount(ms, Low) <= |ms|
    decreases |ms|
  {
    if |ms| > 0 {
      LevelCountsBounded(ms[1..]);
    }
  }

  /** `calculateStats`. */
  function CalculateStats(ms: seq<Material>): (s: Stats)
    ensures s.total == |ms|
    ensures s.withScientificData + s.withoutScientificData == s.total
    ensures s.highConfidence + s.mediumConfidence + s.lowConfidence <= s.total
  {
    var with := Seqs.Count(HasY, ms);
    LevelCountsBounded(ms);
    Stats(|ms|, with, |ms| - with, LevelCount(ms, High), LevelCount(ms, Medium), LevelCount(ms, Low))
  }

  // ---------------------------------------------------------------------
  // JSON export and import
  // ---------------------------------------------------------------------

  /** One entry of an imported JSON file: the keys the export writes, and
      the score and description keys a hand-made file may add (the export
      never writes those). A field that is `None` is absent from the JSON
      text, so on import it leaves the material's value alone. */
  datatype Entry = Entry(
    id: string,
    name: string,
    category: string,
    yValue: Option<real>,
    dValue: Option<real>,
    cValue: Option<real>,
    mValue: Option<real>,
    eValue: Option<real>,
    crPracticalMean: Option<real>,
    crTheoreticalMean: Option<real>,
    crPracticalCi: Option<CI>,
    crTheoreticalCi: Option<CI>,
    confidence: Option<Level>,
    sources: Option<seq<Source>>,
    whitepaperVersion: Option<string>,
    calculationTimestamp: Option<string>,
    methodVersion: Option<string>,
    compostability: Option<int>,
    recyclability: Option<int>,
    reusability: Option<int>,
    description: Option<string>)

  /** The entry `handleExportJSON` writes for a material: no score and no
      description key. */
  function ExportOne(m: Material): (e: Entry)
    ensures e.id == m.id
    ensures e.compostability.None? && e.recyclability.None? && e.reusability.None? && e.description.None?
  {
    Entry(m.id, m.name, m.category, m.yValue, m.dValue, m.cValue, m.mValue, m.eValue,
          m.crPracticalMean, m.crTheoreticalMean, m.crPracticalCi, m.crTheoreticalCi,
          m.confidence, m.sources, m.whitepaperVersion, m.calculationTimestamp, m.methodVersion,
          None, None, None, None)
  }

  /** `handleExportJSON`: one entry per material, in order. */
  function Export(ms: seq<Material>): (r: seq<Entry>)
    ensures |r| == |ms|
    ensures forall i :: 0 <= i < |ms| ==> r[i] == ExportOne(ms[i])
  {
    Seqs.Map(ExportOne, ms)
  }

  /** `b ?? a` for a key that may be absent from the imported entry. */
  function Over<T>(a: Option<T>, b: Option<T>): Option<T> {
    if b.Some? then b else a
  }

  /** An integer key that may be absent from the imported entry. */
  function OverInt(a: int, b: Option<int>): int {
    if b.Some? then b.value else a
  }

  /** `{ ...material, ...imported, name, category, articles }`: every key
      the entry carries overrides, except the name, category and articles;
      a key it lacks keeps the material's value. The entry's id is the
      material's (it was found by id), so the id is kept too. */
  function Merge(m: Material, e: Entry): (r: Material)
    ensures r.id == m.id && r.name == m.name && r.category == m.category && r.articles == m.articles
    ensures e.compostability.Some? ==> r.compostability == e.compostability.value
    ensures e.compostability.None? ==> r.compostability == m.compostability
    ensures e.recyclability.Some? ==> r.recyclability == e.recyclability.value
    ensures e.recyclability.None? ==> r.recyclability == m.recyclability
    ensures e.reusability.Some? ==> r.reusability == e.reusability.value
    ensures e.reusability.None? ==> r.reusability == m.reusability
    ensures e.description.Some? ==> r.description == e.description
    ensures e.description.None? ==> r.description == m.description
    ensures e.yValue.Some? ==> r.yValue == e.yValue
    ensures e.yValue.None? ==> r.yValue == m.yValue
    ensures e.sources.Some? ==> r.sources == e.sources
    ensures e.sources.None? ==> r.sources == m.sources
    ensures e.confidence.Some? ==> r.confidence == e.confidence
    ensures e.confidence.None? ==> r.confidence == m.confidence
  {
    m.(yValue := Over(m.yValue, e.yValue), dValue := Over(m.dValue, e.dValue),
       cValue := Over(m.cValue, e.cValue), mValue := Over(m.mValue, e.mValue),
       eValue := Over(m.eValue, e.eValue),
       crPracticalMean := Over(m.crPracticalMean, e.crPracticalMean),
       crTheoreticalMean := Over(m.crTheoreticalMean, e.crTheoreticalMean),
       crPracticalCi := Over(m.crPracticalCi, e.crPracticalCi),
       crTheoreticalCi := Over(m.crTheoreticalCi, e.crTheoreticalCi),
       confidence := Over(m.confidence, e.confidence),
       sources := Over(m.sources, e.sources),
       whitepaperVersion := Over(m.whitepaperVersion, e.whitepaperVersion),
       calculationTimestamp := Over(m.calculationTimestamp, e.calculationTimestamp),
       methodVersion := Over(m.methodVersion, e.methodVersion),
       compostability := OverInt(m.compostability, e.compostability),
       recyclability := OverInt(m.recyclability, e.recyclability),
       reusability := OverInt(m.reusability, e.reusability),
       description := Over(m.description, e.description))
  }

  /** Merging a material's own export changes nothing. */
  lemma MergeOwnExport(m: Material)
    ensures Merge(m, ExportOne(m)) == m
  {
  }

  /** `importedData.find(im => im.id === material.id)`. */
  function FindEntry(es: seq<Entry>, id: string): (r: Option<Entry>)
    ensures r.Some? ==> r.value in es && r.value.id == id
    ensures r.None? ==> forall i :: 0 <= i < |es| ==> es[i].id != id
    ensures forall i :: 0 <= i < |es| && es[i].id == id && (forall j :: 0 <= j < i ==> es[j].id != id)
                        ==> r == Some(es[i])
    decreases |es|
  {
    if |es| == 0 then None
    else if es[0].id == id then Some(es[0])
    else
      var r := FindEntry(es[1..], id);
      assert forall i :: 1 <= i < |es| ==> es[i] == es[1..][i - 1];
      r
  }

  function MergeFrom(es: seq<Entry>): Material -> Material {
    (m: Material) => match FindEntry(es, m.id)
         case Some(e) => Merge(m, e)
         case None => m
  }

  /** `handleImportJSON`: anything but an array is refused; otherwise each
      material is merged with the first entry carrying its id, and a
      material without one is left alone. */
  function Import(ms: seq<Material>, imported: Option<seq<Entry>>): (r: Result<seq<Material>>)
    ensures r.Err? <==> imported.None?
    ensures r.Ok? ==> |r.value| == |ms|
    ensures r.Ok? ==> forall i :: 0 <= i < |ms| ==>
      r.value[i].id == ms[i].id && r.value[i].name == ms[i].name
      && r.value[i].category == ms[i].category && r.value[i].articles == ms[i].articles
    ensures r.Ok? ==> forall i :: 0 <= i < |ms| && FindEntry(imported.value, ms[i].id).None? ==>
      r.value[i] == ms[i]
    ensures r.Ok? ==> forall i :: 0 <= i < |ms| && FindEntry(imported.value, ms[i].id).Some? ==>
      r.value[i] == Merge(ms[i], FindEntry(imported.value, ms[i].id).value)
  {
    if imported.None? then Err("Invalid format: expected array of materials")
    else Ok(Seqs.Map(MergeFrom(imported.value), ms))
  }

  /** Importing the export of a list whose ids are distinct gives the list
      back. */
  lemma ImportOwnExport(ms: seq<Material>)
    requires forall i, j :: 0 <= i < j < |ms| ==> ms[i].id != ms[j].id
    ensures Import(ms, Some(Export(ms))) == Ok(ms)
  {
    var es := Export(ms);
    var r := Import(ms, Some(es)).value;
    forall i | 0 <= i < |ms|
      ensures r[i] == ms[i]
    {
      assert forall j :: 0 <= j < i ==> es[j].id != ms[i].id;
      assert FindEntry(es, ms[i].id) == Some(ExportOne(ms[i]));
      MergeOwnExport(ms[i]);
      assert r[i] == MergeFrom(es)(ms[i]);
    }
    assert r == ms;
  }

  // ---------------------------------------------------------------------
  // Recalculation and audit
  // ---------------------------------------------------------------------

  /** `handleRecalculateConfidence`: every material recalculated in place;
      only the confidence level of a material with a truthy Y changes. */
  function RecalculateAll(ms: seq<Material>): (r: seq<Material>)
    ensures |r| == |ms|
    ensures forall i :: 0 <= i < |ms| && Truthy(ms[i].yValue) ==>
      r[i].confidence == Some(Confidence.BatchLevel(ms[i]))
    ensures forall i :: 0 <= i < |ms| ==> r[i] == ms[i].(confidence := r[i].confidence)
    ensures forall i :: 0 <= i < |ms| && !Truthy(ms[i].yValue) ==> r[i] == ms[i]
  {
    Seqs.Map(Confidence.Recalculated, ms)
  }

  /** Recalculating a second time changes nothing more. */
  lemma RecalculateAllIdempotent(ms: seq<Material>)
    ensures RecalculateAll(RecalculateAll(ms)) == RecalculateAll(ms)
  {
    var r := RecalculateAll(ms);
    forall i | 0 <= i < |ms|
      ensures Confidence.Recalculated(r[i]) == r[i]
    {
      assert Confidence.Present(r[i]) == Confidence.Present(ms[i]);
      assert Confidence.BatchLevel(r[i]) == Confidence.BatchLevel(ms[i]);
    }
  }

  predicate Flagged(m: Material) {
    Confidence.AuditFlags(m.confidence, SourceCount(m))
  }

  /** The audit's list of issues: the flagged materials, in order. */
  function Issues(ms: seq<Material>): (r: seq<Material>)
    ensures forall m :: m in r <==> m in ms && Confidence.AuditFlags(m.confidence, SourceCount(m))
  {
    Seqs.Filter(Flagged, ms)
  }
}
