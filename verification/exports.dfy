/** The public and research export endpoints: the public record of a
    material, the two CSV layouts, the number formatting of the research
    CSV, and the grouping of evidence points under their materials. The
    store reads are the two lists the endpoints fetch, passed in. */
module Exports {
  import opened Wrappers
  import Text
  import Seqs
  import Csv
  import opened Schema

  /** A material as the endpoints read it from the store. The numeric
      scientific fields are keyed by their field name (`Y_value`,
      `CR_practical_mean`, ...) and the intervals by theirs
      (`CR_practical_CI95`, ...); an absent key is an undefined field. */
  datatype Stored = Stored(
    id: string,
    name: string,
    category: string,
    description: Option<string>,
    compostability: Option<int>,
    recyclability: Option<int>,
    reusability: Option<int>,
    isEstimated: Option<bool>,
    confidenceLevel: Option<string>,
    createdAt: Option<string>,
    updatedAt: Option<string>,
    values: map<string, real>,
    intervals: map<string, Bounds>,
    sourceCount: Option<nat>,
    whitepaperVersion: Option<string>,
    methodVersion: Option<string>,
    calculationTimestamp: Option<string>)

  /** A stored interval; either bound may be missing. */
  datatype Bounds = Bounds(lower: Option<real>, upper: Option<real>)

  /** JavaScript falsiness of an optional string. */
  predicate Falsy(s: Option<string>) {
    s.None? || s.value == ""
  }

  /** `a || b` on optional strings. */
  function Or(a: Option<string>, b: Option<string>): (r: Option<string>)
    ensures !Falsy(a) ==> r == a
    ensures Falsy(a) ==> r == b
  {
    if Falsy(a) then b else a
  }

  // ---------------------------------------------------------------------
  // The public record
  // ---------------------------------------------------------------------

  datatype Public = Public(
    id: string,
    name: string,
    category: string,
    description: Option<string>,
    compostability: Option<int>,
    recyclability: Option<int>,
    reusability: Option<int>,
    isEstimated: bool,
    confidenceLevel: string,
    lastUpdated: Option<string>,
    whitepaperVersion: string)

  /** `convertToPublicFormat`: the basic fields and scores copied, with
      defaults for the estimate flag, the level and the version, and the
      update time falling back to the creation time. */
  function ToPublic(m: Stored): (p: Public)
    ensures p.id == m.id && p.name == m.name && p.category == m.category
    ensures p.description == m.description && p.compostability == m.compostability
    ensures p.recyclability == m.recyclability && p.reusability == m.reusability
    ensures p.isEstimated <==> m.isEstimated == Some(true)
    ensures p.confidenceLevel != "" && p.whitepaperVersion != ""
    ensures !Falsy(m.confidenceLevel) ==> p.confidenceLevel == m.confidenceLevel.value
    ensures Falsy(m.confidenceLevel) ==> p.confidenceLevel == "low"
    ensures !Falsy(m.whitepaperVersion) ==> p.whitepaperVersion == m.whitepaperVersion.value
    ensures Falsy(m.whitepaperVersion) ==> p.whitepaperVersion == "2025.1"
    ensures !Falsy(m.updatedAt) ==> p.lastUpdated == m.updatedAt
    ensures Falsy(m.updatedAt) ==> p.lastUpdated == m.createdAt
  {
    Public(m.id, m.name, m.category, m.description, m.compostability, m.recyclability,
           m.reusability, m.isEstimated == Some(true),
           Or(m.confidenceLevel, Some("low")).value,
           Or(m.updatedAt, m.createdAt),
           Or(m.whitepaperVersion, Some("2025.1")).value)
  }

  const PublicHeaders: seq<string> := [
    "ID", "Name", "Category", "Description", "Compostability", "Recyclability",
    "Reusability", "Is Estimated", "Confidence Level", "Last Updated", "Whitepaper Version"
  ]

  /** `String(n)` of an optional number; `undefined` stays empty. */
  function IntCell(n: Option<int>): (c: Option<string>)
    ensures c.None? <==> n.None?
  {
    match n
    case None => None
    case Some(k) => Some(Text.IntToString(k))
  }

  /** The public CSV row of a material, one cell per header. */
  function PublicRow(p: Public): (r: seq<Option<string>>)
    ensures |r| == |PublicHeaders| == 11
    ensures r[0] == Some(p.id) && r[1] == Some(p.name) && r[2] == Some(p.category)
    ensures r[7] == Some(if p.isEstimated then "Yes" else "No")
  {
    [Some(p.id), Some(p.name), Some(p.category), p.description,
     IntCell(p.compostability), IntCell(p.recyclability), IntCell(p.reusability),
     Some(if p.isEstimated then "Yes" else "No"), Some(p.confidenceLevel),
     p.lastUpdated, Some(p.whitepaperVersion)]
  }

  function PublicRowOf(m: Stored): seq<Option<string>> {
    PublicRow(ToPublic(m))
  }

  /** An export's CSV text: empty without rows, else the header and one
      record per row. */
  function Document(headers: seq<string>, rows: seq<seq<Option<string>>>): string {
    if |rows| == 0 then "" else Csv.ToCsv(headers, rows)
  }

  /** The public CSV, one row per material. */
  function PublicCsv(ms: seq<Stored>): string {
    Document(PublicHeaders, Seqs.Map(PublicRowOf, ms))
  }

  /** Reading a written CSV back: record `i + 1` shows row `i`. */
  lemma RecordAt(headers: seq<string>, rows: seq<seq<Option<string>>>, i: nat)
    requires |headers| >= 1 && forall k :: 0 <= k < |rows| ==> |rows[k]| >= 1
    requires i < |rows|
    ensures var r := Csv.Parse(Document(headers, rows));
      r.Some? && |r.value| == |rows| + 1 && r.value[0] == headers
      && r.value[i + 1] == Csv.ShownRow(rows[i])
  {
    Csv.ToCsvRoundTrip(headers, rows);
  }

  /** The cells of a material's public record as a reader sees them. */
  function PublicCells(m: Stored): (c: seq<string>)
    ensures |c| == 11 && c[0] == m.id && c[1] == m.name && c[2] == m.category
    ensures c[7] == "Yes" <==> m.isEstimated == Some(true)
  {
    Csv.ShownRow(PublicRowOf(m))
  }

  lemma PublicRecordAt(ms: seq<Stored>, i: nat)
    requires i < |ms|
    ensures var r := Csv.Parse(PublicCsv(ms));
      r.Some? && |r.value| == |ms| + 1 && r.value[0] == PublicHeaders
      && r.value[i + 1] == PublicCells(ms[i])
  {
    RecordAt(PublicHeaders, Seqs.Map(PublicRowOf, ms), i);
  }

  /** Reading the public CSV back gives the header and then, for each
      material in order, its eleven cells. */
  lemma PublicCsvReadsBack(ms: seq<Stored>)
    requires |ms| > 0
    ensures var r := Csv.Parse(PublicCsv(ms));
      && r.Some? && |r.value| == |ms| + 1 && r.value[0] == PublicHeaders
      && forall i :: 0 <= i < |ms| ==> r.value[i + 1] == PublicCells(ms[i])
  {
    PublicRecordAt(ms, 0);
    forall i | 0 <= i < |ms| ensures Csv.Parse(PublicCsv(ms)).value[i + 1] == PublicCells(ms[i]) {
      PublicRecordAt(ms, i);
    }
  }

  // ---------------------------------------------------------------------
  // `toFixed(4)`
  // ---------------------------------------------------------------------

  /** The magnitude in ten-thousandths, rounded to nearest with ties away
      from zero: the digits `toFixed(4)` prints. */
  function Scaled(x: real): (n: nat)
    ensures var a := if x < 0.0 then -x else x;
      (n as real) - 0.5 <= a * 10000.0 < (n as real) + 0.5
  {
    var a := if x < 0.0 then -x else x;
    (a * 10000.0 + 0.5).Floor
  }

  /** Four digits, zero-padded on the left. */
  function Pad4(k: nat): (s: string)
    requires k < 10000
    ensures |s| == 4 && forall i :: 0 <= i < 4 ==> Text.IsDecimalDigit(s[i])
  {
    var d := Text.NatToString(k);
    var zeros := if |d| >= 4 then "" else seq(4 - |d|, _ => '0');
    assert |d| <= 4 by {
      NatToStringLength(k);
    }
    zeros + d
  }

  lemma {:induction false} NatToStringLength(k: nat)
    ensures k < 10 ==> |Text.NatToString(k)| == 1
    ensures k < 100 ==> |Text.NatToString(k)| <= 2
    ensures k < 1000 ==> |Text.NatToString(k)| <= 3
    ensures k < 10000 ==> |Text.NatToString(k)| <= 4
    decreases k
  {
    if k >= 10 {
      NatToStringLength(k / 10);
    }
  }

  /** `x.toFixed(4)` for a number below 1e21 in magnitude: an optional
      minus sign, the whole part, a point and four digits. */
  function Fixed4(x: real): (r: string)
    ensures |r| >= 6 && r[|r| - 5] == '.'
    ensures r[0] == '-' <==> x < 0.0
    ensures forall i :: 0 <= i < |r| && i != |r| - 5 && !(i == 0 && x < 0.0) ==> Text.IsDecimalDigit(r[i])
  {
    var n := Scaled(x);
    var whole := Text.NatToString(n / 10000);
    (if x < 0.0 then "-" else "") + whole + "." + Pad4(n % 10000)
  }

  /** A formatted number never needs quoting in CSV. */
  lemma Fixed4Plain(x: real)
    ensures !Csv.NeedsQuotes(Fixed4(x))
  {
    var r := Fixed4(x);
    forall i | 0 <= i < |r| ensures r[i] != ',' && r[i] != '"' && r[i] != '\n' {
    }
  }

  function Pow10(n: nat): (p: nat)
    ensures p >= 1
  {
    if n == 0 then 1 else 10 * Pow10(n - 1)
  }

  /** The digits of a concatenation denote the first part shifted left by
      the length of the second, plus the second. */
  lemma {:induction false} DigitsConcat(a: string, b: string)
    ensures Text.DigitsValue(a + b, 10) == Text.DigitsValue(a, 10) * Pow10(|b|) + Text.DigitsValue(b, 10)
    decreases |b|
  {
    if |b| == 0 {
      assert a + b == a;
    } else {
      var b' := b[..|b| - 1];
      assert (a + b)[..|a + b| - 1] == a + b';
      assert (a + b)[|a + b| - 1] == b[|b| - 1];
      DigitsConcat(a, b');
      var va := Text.DigitsValue(a, 10);
      var vb := Text.DigitsValue(b', 10);
      var d := Text.DigitValue(b[|b| - 1], 10);
      var p := Pow10(|b'|);
      assert Text.DigitsValue(a + b, 10) == (va * p + vb) * 10 + d;
      assert Text.DigitsValue(b, 10) == vb * 10 + d;
      Shift(va, p, vb, d);
    }
  }

  lemma Shift(va: int, p: int, vb: int, d: int)
    ensures (va * p + vb) * 10 + d == va * (p * 10) + (vb * 10 + d)
  {
  }

  lemma {:induction false} ZerosValue(k: nat)
    ensures Text.DigitsValue(seq(k, _ => '0'), 10) == 0
    decreases k
  {
    if k > 0 {
      assert seq(k, _ => '0')[..k - 1] == seq(k - 1, _ => '0');
      ZerosValue(k - 1);
    }
  }

  lemma Pad4Value(k: nat)
    requires k < 10000
    ensures Text.DigitsValue(Pad4(k), 10) == k
  {
    var d := Text.NatToString(k);
    NatToStringLength(k);
    var zeros := if |d| >= 4 then "" else seq(4 - |d|, _ => '0');
    assert Pad4(k) == zeros + d;
    DigitsConcat(zeros, d);
    ZerosValue(|zeros|);
    assert zeros == seq(|zeros|, _ => '0');
    Text.NatToStringValue(k);
  }

  /** Reading the digits `toFixed(4)` prints, without the sign and the
      point, gives the rounded magnitude in ten-thousandths. */
  lemma Fixed4Value(x: real)
    ensures var r := Fixed4(x);
      var start := if x < 0.0 then 1 else 0;
      start <= |r| - 5 && Text.DigitsValue(r[start..|r| - 5] + r[|r| - 4..], 10) == Scaled(x)
  {
    var n := Scaled(x);
    var whole := Text.NatToString(n / 10000);
    var pad := Pad4(n % 10000);
    var sign := if x < 0.0 then "-" else "";
    var r := Fixed4(x);
    assert r == sign + whole + "." + pad;
    assert r[|sign|..|r| - 5] == whole;
    assert r[|r| - 4..] == pad;
    DigitsConcat(whole, pad);
    Text.NatToStringValue(n / 10000);
    Pad4Value(n % 10000);
  }

  // ---------------------------------------------------------------------
  // The research CSV
  // ---------------------------------------------------------------------

  const ResearchHeaders: seq<string> :=
    ["ID", "Name", "Category", "Description"]
    + DimensionHeaders("CR", ["Y (Yield)", "D (Degradability)", "C (Contamination)", "M (Maturity)", "E (Energy)"])
    + DimensionHeaders("CC", ["B (Biodegradation)", "N (Nutrient Balance)", "T (Toxicity)", "H (Habitat Adaptability)"])
    + DimensionHeaders("RU", ["L (Lifetime)", "R (Repairability)", "U (Upgradability)", "C_RU (Contamination)"])
    + ["Compostability (0-100)", "Recyclability (0-100)", "Reusability (0-100)",
       "Confidence Level", "Source Count", "Evidence Count",
       "Whitepaper Version", "Method Version", "Calculation Timestamp"]

  /** A dimension's parameter headers, then its mean and interval headers. */
  function DimensionHeaders(dim: string, parameters: seq<string>): seq<string> {
    parameters + [dim + " Practical Mean", dim + " Practical CI Lower", dim + " Practical CI Upper",
                  dim + " Theoretical Mean", dim + " Theoretical CI Lower", dim + " Theoretical CI Upper"]
  }

  /** `m.X?.toFixed(4) || ""`. */
  function FixedCell(values: map<string, real>, key: string): (c: Option<string>)
    ensures c.Some?
    ensures key !in values <==> c == Some("")
  {
    if key in values then Some(Fixed4(values[key])) else Some("")
  }

  /** `m.X_CI95?.lower?.toFixed(4) || ""` (or the upper bound). */
  function BoundCell(intervals: map<string, Bounds>, key: string, upper: bool): (c: Option<string>)
    ensures c.Some?
  {
    if key !in intervals then Some("")
    else
      var b := if upper then intervals[key].upper else intervals[key].lower;
      if b.Some? then Some(Fixed4(b.value)) else Some("")
  }

  /** A dimension's parameters, then its practical and theoretical means
      with their interval bounds. */
  function DimensionCells(m: Stored, parameters: seq<string>, dim: string): (r: seq<Option<string>>)
    ensures |r| == |parameters| + 6
    ensures forall i :: 0 <= i < |parameters| ==> r[i] == FixedCell(m.values, parameters[i])
  {
    Seqs.Map((p: string) => FixedCell(m.values, p), parameters)
    + [FixedCell(m.values, dim + "_practical_mean"),
       BoundCell(m.intervals, dim + "_practical_CI95", false),
       BoundCell(m.intervals, dim + "_practical_CI95", true),
       FixedCell(m.values, dim + "_theoretical_mean"),
       BoundCell(m.intervals, dim + "_theoretical_CI95", false),
       BoundCell(m.intervals, dim + "_theoretical_CI95", true)]
  }

  const CrFields: seq<string> := ["Y_value", "D_value", "C_value", "M_value", "E_value"]
  const CcFields: seq<string> := ["B_value", "N_value", "T_value", "H_value"]
  const RuFields: seq<string> := ["L_value", "R_value", "U_value", "C_RU_value"]

  /** `m.score || ""`: a missing score and a score of 0 both give an empty
      cell. */
  function ScoreCell(n: Option<int>): (c: Option<string>)
    ensures c == Some("") <==> n.None? || n.value == 0
  {
    if n.None? || n.value == 0 then Some("") else Some(Text.IntToString(n.value))
  }

  /** `m.sources?.length || "0"`. */
  function SourceCountCell(n: Option<nat>): (c: Option<string>)
    ensures c.Some? && c.value != ""
  {
    if n.None? || n.value == 0 then Some("0") else Some(Text.NatToString(n.value))
  }

  /** The research CSV row of a material with `evidenceCount` evidence
      points, one cell per header. */
  function ResearchRow(m: Stored, evidenceCount: nat): (r: seq<Option<string>>)
    ensures |r| == 44
    ensures r[0] == Some(m.id) && r[1] == Some(m.name) && r[2] == Some(m.category)
    ensures r[35] == ScoreCell(m.compostability)
    ensures r[40] == Some(Text.NatToString(evidenceCount))
  {
    var head := IdentityCells(m);
    var science := ScienceCells(m);
    var tail := SummaryCells(m, evidenceCount);
    assert (head + science + tail)[35] == tail[0];
    assert (head + science + tail)[40] == tail[5];
    head + science + tail
  }

  function IdentityCells(m: Stored): (r: seq<Option<string>>)
    ensures |r| == 4 && r[0] == Some(m.id) && r[1] == Some(m.name) && r[2] == Some(m.category)
  {
    [Some(m.id), Some(m.name), Some(m.category), Some(m.description.GetOr(""))]
  }

  /** The three dimension blocks, 31 cells. */
  function ScienceCells(m: Stored): (r: seq<Option<string>>)
    ensures |r| == 31
  {
    DimensionCells(m, CrFields, "CR") + DimensionCells(m, CcFields, "CC") + DimensionCells(m, RuFields, "RU")
  }

  /** The scores, level, counts and version stamps, 9 cells. */
  function SummaryCells(m: Stored, evidenceCount: nat): (r: seq<Option<string>>)
    ensures |r| == 9 && r[0] == ScoreCell(m.compostability)
    ensures r[5] == Some(Text.NatToString(evidenceCount))
  {
    [ScoreCell(m.compostability), ScoreCell(m.recyclability), ScoreCell(m.reusability),
     Or(m.confidenceLevel, Some("")), SourceCountCell(m.sourceCount),
     Some(Text.NatToString(evidenceCount)),
     Or(m.whitepaperVersion, Some("")), Or(m.methodVersion, Some("")),
     Or(m.calculationTimestamp, Some(""))]
  }

  /** A public score of 0 reaches the research CSV as an empty cell, the
      same cell as a missing score. */
  lemma ZeroScoreIsEmpty(m: Stored, evidenceCount: nat)
    requires m.compostability == Some(0)
    ensures ResearchRow(m, evidenceCount)[35] == Some("")
    ensures ResearchRow(m, evidenceCount)[35] == ResearchRow(m.(compostability := None), evidenceCount)[35]
  {
  }

  // ---------------------------------------------------------------------
  // Evidence by material
  // ---------------------------------------------------------------------

  /** Whether an evidence point belongs to the material. */
  function Of(id: string): EvidencePoint -> bool {
    (e: EvidencePoint) => e.materialId == id
  }

  /** The loop that builds `evidenceByMaterial`: each point appended to the
      list of its material. */
  function Group(evs: seq<EvidencePoint>): (g: map<string, seq<EvidencePoint>>)
    ensures forall id :: id in g <==> exists i :: 0 <= i < |evs| && evs[i].materialId == id
    ensures forall id :: id in g ==> g[id] == Seqs.Filter(Of(id), evs)
    decreases |evs|
  {
    if |evs| == 0 then map[]
    else
      var init := evs[..|evs| - 1];
      var e := evs[|evs| - 1];
      assert evs == init + [e];
      GroupStep(Group(init), init, e)
  }

  /** Appending one point to the grouping of the points before it. */
  function GroupStep(g: map<string, seq<EvidencePoint>>, init: seq<EvidencePoint>, e: EvidencePoint)
    : (r: map<string, seq<EvidencePoint>>)
    requires forall id :: id in g <==> exists i :: 0 <= i < |init| && init[i].materialId == id
    requires forall id :: id in g ==> g[id] == Seqs.Filter(Of(id), init)
    ensures forall id :: id in r <==> exists i :: 0 <= i < |init + [e]| && (init + [e])[i].materialId == id
    ensures forall id :: id in r ==> r[id] == Seqs.Filter(Of(id), init + [e])
  {
    GroupStepKeys(g, init, e);
    assert forall i :: 0 <= i < |init| ==> init[i].materialId in g;
    GroupStepLists(g, init, e);
    Appended(g, e)
  }

  function Appended(g: map<string, seq<EvidencePoint>>, e: EvidencePoint): map<string, seq<EvidencePoint>> {
    g[e.materialId := (if e.materialId in g then g[e.materialId] else []) + [e]]
  }

  lemma GroupStepKeys(g: map<string, seq<EvidencePoint>>, init: seq<EvidencePoint>, e: EvidencePoint)
    requires forall id :: id in g <==> exists i :: 0 <= i < |init| && init[i].materialId == id
    ensures forall id :: id in Appended(g, e) <==> exists i :: 0 <= i < |init + [e]| && (init + [e])[i].materialId == id
  {
    var evs := init + [e];
    var r := Appended(g, e);
    forall id ensures id in r <==> exists i :: 0 <= i < |evs| && evs[i].materialId == id {
      if id in g {
        var i :| 0 <= i < |init| && init[i].materialId == id;
        assert evs[i] == init[i];
      }
      if id == e.materialId {
        assert evs[|init|] == e;
      }
      if exists i :: 0 <= i < |evs| && evs[i].materialId == id {
        var i :| 0 <= i < |evs| && evs[i].materialId == id;
        if i < |init| {
          assert init[i] == evs[i];
        }
      }
    }
  }

  lemma GroupStepLists(g: map<string, seq<EvidencePoint>>, init: seq<EvidencePoint>, e: EvidencePoint)
    requires forall id :: id in g ==> g[id] == Seqs.Filter(Of(id), init)
    requires forall i :: 0 <= i < |init| ==> init[i].materialId in g
    ensures forall id :: id in Appended(g, e) ==> Appended(g, e)[id] == Seqs.Filter(Of(id), init + [e])
  {
    forall id | id in Appended(g, e) ensures Appended(g, e)[id] == Seqs.Filter(Of(id), init + [e]) {
      GroupListAt(g, init, e, id);
    }
  }

  lemma GroupListAt(g: map<string, seq<EvidencePoint>>, init: seq<EvidencePoint>, e: EvidencePoint, id: string)
    requires id in g ==> g[id] == Seqs.Filter(Of(id), init)
    requires id !in g ==> forall i :: 0 <= i < |init| ==> init[i].materialId != id
    requires id in Appended(g, e)
    ensures Appended(g, e)[id] == Seqs.Filter(Of(id), init + [e])
  {
    Seqs.FilterConcat(Of(id), init, [e]);
    if id != e.materialId {
      assert Seqs.Filter(Of(id), [e]) == [];
    } else {
      assert Seqs.Filter(Of(id), [e]) == [e];
      if id !in g {
        Seqs.FilterNone(Of(id), init);
      }
    }
  }

  /** `evidenceByMaterial.get(id)?.length || 0`: the number of points of
      the material. */
  function EvidenceCount(g: map<string, seq<EvidencePoint>>, id: string): nat {
    if id in g then |g[id]| else 0
  }

  lemma GroupCount(evs: seq<EvidencePoint>, id: string)
    ensures EvidenceCount(Group(evs), id) == Seqs.Count(Of(id), evs)
  {
    var g := Group(evs);
    if id !in g {
      Seqs.FilterNone(Of(id), evs);
    }
  }

  /** The research CSV, one row per material with its evidence count. */
  function ResearchCsv(ms: seq<Stored>, evs: seq<EvidencePoint>): string {
    Document(ResearchHeaders, Seqs.Map(ResearchRowIn(Group(evs)), ms))
  }

  /** The cells of a material's research record as a reader sees them. */
  function ResearchCells(m: Stored, evidenceCount: nat): (c: seq<string>)
    ensures |c| == 44 && c[0] == m.id && c[1] == m.name && c[2] == m.category
    ensures c[40] == Text.NatToString(evidenceCount)
  {
    Csv.ShownRow(ResearchRow(m, evidenceCount))
  }

  function ResearchRowIn(g: map<string, seq<EvidencePoint>>): Stored -> seq<Option<string>> {
    (m: Stored) => ResearchRow(m, EvidenceCount(g, m.id))
  }

  lemma ResearchRecordAt(ms: seq<Stored>, evs: seq<EvidencePoint>, i: nat)
    requires i < |ms|
    ensures var r := Csv.Parse(ResearchCsv(ms, evs));
      r.Some? && |r.value| == |ms| + 1 && r.value[0] == ResearchHeaders
      && r.value[i + 1] == ResearchCells(ms[i], Seqs.Count(Of(ms[i].id), evs))
  {
    RecordAt(ResearchHeaders, Seqs.Map(ResearchRowIn(Group(evs)), ms), i);
    ResearchRowAt(ms, evs, i);
  }

  lemma ResearchRowAt(ms: seq<Stored>, evs: seq<EvidencePoint>, i: nat)
    requires i < |ms|
    ensures Seqs.Map(ResearchRowIn(Group(evs)), ms)[i] == ResearchRow(ms[i], Seqs.Count(Of(ms[i].id), evs))
  {
    GroupCount(evs, ms[i].id);
  }

  /** Reading the research CSV back gives the header and then, for each
      material in order, its 44 cells with its own evidence count. */
  lemma ResearchCsvReadsBack(ms: seq<Stored>, evs: seq<EvidencePoint>)
    requires |ms| > 0
    ensures var r := Csv.Parse(ResearchCsv(ms, evs));
      && r.Some? && |r.value| == |ms| + 1 && r.value[0] == ResearchHeaders
      && forall i :: 0 <= i < |ms| ==>
           r.value[i + 1] == ResearchCells(ms[i], Seqs.Count(Of(ms[i].id), evs))
  {
    ResearchRecordAt(ms, evs, 0);
    forall i | 0 <= i < |ms|
      ensures Csv.Parse(ResearchCsv(ms, evs)).value[i + 1] == ResearchCells(ms[i], Seqs.Count(Of(ms[i].id), evs))
    {
      ResearchRecordAt(ms, evs, i);
    }
  }

  // ---------------------------------------------------------------------
  // The research JSON
  // ---------------------------------------------------------------------

  datatype ResearchEntry = ResearchEntry(material: Stored, evidence: seq<EvidencePoint>, evidenceCount: nat)

  datatype Research = Research(materialCount: nat, totalEvidencePoints: nat, materials: seq<ResearchEntry>)

  function Entry(g: map<string, seq<EvidencePoint>>, m: Stored): ResearchEntry {
    var es := if m.id in g then g[m.id] else [];
    ResearchEntry(m, es, |es|)
  }

  /** The research JSON body: every material with exactly its own evidence
      points, in store order, and the two totals. */
  function ResearchJson(ms: seq<Stored>, evs: seq<EvidencePoint>): (r: Research)
    ensures r.materialCount == |ms| == |r.materials| && r.totalEvidencePoints == |evs|
    ensures forall i :: 0 <= i < |ms| ==>
      r.materials[i].material == ms[i]
      && r.materials[i].evidence == Seqs.Filter(Of(ms[i].id), evs)
      && r.materials[i].evidenceCount == |r.materials[i].evidence|
  {
    var g := Group(evs);
    var es := Seqs.Map((m: Stored) => Entry(g, m), ms);
    forall i | 0 <= i < |ms| ensures es[i].evidence == Seqs.Filter(Of(ms[i].id), evs) {
      if ms[i].id !in g {
        Seqs.FilterNone(Of(ms[i].id), evs);
      }
    }
    Research(|ms|, |evs|, es)
  }

  /** A response of either endpoint. */
  datatype Response =
    | CsvBody(text: string)
    | PublicBody(count: nat, materials: seq<Public>)
    | ResearchBody(research: Research)
    | EmptyBody

  /** `c.req.query("format") || "json"` asks for CSV. */
  predicate WantsCsv(format: Option<string>) {
    format == Some("csv")
  }

  /** `handlePublicExport`. */
  function PublicExport(ms: seq<Stored>, format: Option<string>): (r: Response)
    ensures |ms| == 0 ==> r == (if WantsCsv(format) then CsvBody("") else EmptyBody)
    ensures |ms| > 0 && !WantsCsv(format) ==> r.PublicBody? && r.count == |ms| == |r.materials|
  {
    if |ms| == 0 then (if WantsCsv(format) then CsvBody("") else EmptyBody)
    else if WantsCsv(format) then CsvBody(PublicCsv(ms))
    else PublicBody(|ms|, Seqs.Map(ToPublic, ms))
  }

  /** `handleResearchExport`. */
  function ResearchExport(ms: seq<Stored>, evs: seq<EvidencePoint>, format: Option<string>): (r: Response)
    ensures |ms| == 0 ==> r == (if WantsCsv(format) then CsvBody("") else EmptyBody)
    ensures |ms| > 0 && !WantsCsv(format) ==> r.ResearchBody? && r.research.totalEvidencePoints == |evs|
  {
    if |ms| == 0 then (if WantsCsv(format) then CsvBody("") else EmptyBody)
    else if WantsCsv(format) then CsvBody(ResearchCsv(ms, evs))
    else ResearchBody(ResearchJson(ms, evs))
  }

  // ---------------------------------------------------------------------
  // Accounting for every evidence point
  // ---------------------------------------------------------------------

  /** The evidence counts of the materials, added up. */
  function CountSum(ids: seq<string>, evs: seq<EvidencePoint>): nat
    decreases |ids|
  {
    if |ids| == 0 then 0 else Seqs.Count(Of(ids[0]), evs) + CountSum(ids[1..], evs)
  }

  /** The number of materials with the given id. */
  function Hits(ids: seq<string>, id: string): (n: nat)
    ensures n == 0 <==> id !in ids
    decreases |ids|
  {
    if |ids| == 0 then 0 else (if ids[0] == id then 1 else 0) + Hits(ids[1..], id)
  }

  lemma {:induction false} HitsDistinct(ids: seq<string>, id: string)
    requires Seqs.Distinct(ids)
    ensures Hits(ids, id) <= 1
    decreases |ids|
  {
    if |ids| > 0 {
      HitsDistinct(ids[1..], id);
      if ids[0] == id {
        assert id !in ids[1..];
      }
    }
  }

  lemma CountCons(p: EvidencePoint -> bool, e: EvidencePoint, evs: seq<EvidencePoint>)
    ensures Seqs.Count(p, [e] + evs) == (if p(e) then 1 else 0) + Seqs.Count(p, evs)
  {
    assert ([e] + evs)[1..] == evs;
  }

  lemma {:induction false} CountSumCons(ids: seq<string>, e: EvidencePoint, evs: seq<EvidencePoint>)
    ensures CountSum(ids, [e] + evs) == Hits(ids, e.materialId) + CountSum(ids, evs)
    decreases |ids|
  {
    if |ids| > 0 {
      CountCons(Of(ids[0]), e, evs);
      CountSumCons(ids[1..], e, evs);
    }
  }

  /** The points whose material is among `ids`. */
  function Exported(ids: seq<string>, evs: seq<EvidencePoint>): nat
    decreases |evs|
  {
    if |evs| == 0 then 0 else (if evs[0].materialId in ids then 1 else 0) + Exported(ids, evs[1..])
  }

  lemma {:induction false} CountSumExported(ids: seq<string>, evs: seq<EvidencePoint>)
    requires Seqs.Distinct(ids)
    ensures CountSum(ids, evs) == Exported(ids, evs)
    decreases |evs|
  {
    if |evs| == 0 {
      CountSumEmpty(ids, evs);
    } else {
      assert evs == [evs[0]] + evs[1..];
      CountSumCons(ids, evs[0], evs[1..]);
      HitsDistinct(ids, evs[0].materialId);
      CountSumExported(ids, evs[1..]);
    }
  }

  lemma {:induction false} CountSumEmpty(ids: seq<string>, evs: seq<EvidencePoint>)
    requires |evs| == 0
    ensures CountSum(ids, evs) == 0
    decreases |ids|
  {
    if |ids| > 0 {
      CountSumEmpty(ids[1..], evs);
    }
  }

  lemma {:induction false} ExportedBound(ids: seq<string>, evs: seq<EvidencePoint>)
    ensures Exported(ids, evs) <= |evs|
    ensures Exported(ids, evs) == |evs| <==> forall j :: 0 <= j < |evs| ==> evs[j].materialId in ids
    decreases |evs|
  {
    if |evs| > 0 {
      ExportedBound(ids, evs[1..]);
      assert forall j :: 1 <= j < |evs| ==> evs[j] == evs[1..][j - 1];
    }
  }

  /** With distinct material ids, the evidence counts of the research
      export add up to at most the number of evidence points, and to
      exactly that number when every point's material is exported. */
  lemma EvidenceAccounted(ms: seq<Stored>, evs: seq<EvidencePoint>)
    requires forall i, j :: 0 <= i < j < |ms| ==> ms[i].id != ms[j].id
    ensures var ids := Seqs.Map((m: Stored) => m.id, ms);
      && CountSum(ids, evs) <= |evs|
      && (CountSum(ids, evs) == |evs| <==> forall j :: 0 <= j < |evs| ==> evs[j].materialId in ids)
  {
    var ids := Seqs.Map((m: Stored) => m.id, ms);
    CountSumExported(ids, evs);
    ExportedBound(ids, evs);
  }
}
