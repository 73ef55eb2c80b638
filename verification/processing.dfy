/** The recyclability batch calculator (`DataProcessingView.tsx`): the
    composite index from Y, D, C, M and a cleanliness factor, its label,
    per-category parameter defaults, the preview table and "apply to all". */
module Processing {
  import opened Wrappers
  import opened Materials
  import Editor

  /** `RecyclabilityParameters`. */
  datatype Params = Params(
    y: real, d: real, c: real, m: real,
    useTheoretical: bool,
    uCleanTheo: real,
    uCleanPrac: real)

  /** `defaultParameters`. */
  const Defaults := Params(0.75, 0.80, 0.70, 0.65, false, 1.0, 0.6)

  /** Y, D, C and M of a category default. */
  datatype Core = Core(y: real, d: real, c: real, m: real)

  /** `categoryDefaults[category]`, if the category has an entry. */
  function CategoryDefault(category: string): Option<Core> {
    if category == "Glass" then Some(Core(0.95, 1.0, 0.85, 0.95))
    else if category == "Metals" then Some(Core(0.90, 0.95, 0.80, 0.90))
    else if category == "Paper & Cardboard" then Some(Core(0.70, 0.60, 0.65, 0.85))
    else if category == "Plastics" then Some(Core(0.60, 0.50, 0.40, 0.70))
    else if category == "Electronics & Batteries" then Some(Core(0.50, 0.40, 0.30, 0.50))
    else if category == "Fabrics & Textiles" then Some(Core(0.40, 0.45, 0.35, 0.40))
    else if category == "Building Materials" then Some(Core(0.65, 0.70, 0.60, 0.60))
    else if category == "Organic/Natural Waste" then Some(Core(0.20, 0.30, 0.25, 0.30))
    else None
  }

  /** `{ ...parameters, ...categoryParams }`: a category default replaces
      Y, D, C and M; the mode and cleanliness factors stay global. */
  function Merge(p: Params, category: string): (r: Params)
    ensures r.useTheoretical == p.useTheoretical && r.uCleanTheo == p.uCleanTheo && r.uCleanPrac == p.uCleanPrac
    ensures CategoryDefault(category).None? ==> r == p
    ensures CategoryDefault(category).Some? ==>
      var k := CategoryDefault(category).value;
      r.y == k.y && r.d == k.d && r.c == k.c && r.m == k.m
  {
    match CategoryDefault(category)
    case None => p
    case Some(k) => p.(y := k.y, d := k.d, c := k.c, m := k.m)
  }

  /** The cleanliness factor of the selected mode. */
  function UClean(p: Params): real {
    if p.useTheoretical then p.uCleanTheo else p.uCleanPrac
  }

  /** `calculateRecyclability`: `Math.round(Y·D·C·M·U · 100)`. */
  function Score(p: Params): int {
    Editor.Round(p.y * p.d * p.c * p.m * UClean(p) * 100.0)
  }

  /** Every parameter in `[0, 1]`. */
  predicate InUnitRange(p: Params) {
    0.0 <= p.y <= 1.0 && 0.0 <= p.d <= 1.0 && 0.0 <= p.c <= 1.0 && 0.0 <= p.m <= 1.0
    && 0.0 <= p.uCleanTheo <= 1.0 && 0.0 <= p.uCleanPrac <= 1.0
  }

  lemma MulUnit(a: real, b: real)
    requires 0.0 <= a <= 1.0 && 0.0 <= b <= 1.0
    ensures 0.0 <= a * b <= 1.0
  {
    MulMono(a, 1.0, b);
    assert a * b <= a;
    MulMono(a, b, 0.0);
    assert 0.0 <= a * b;
  }

  lemma MulMono(a: real, b1: real, b2: real)
    requires 0.0 <= a && b2 <= b1
    ensures a * b2 <= a * b1
  {
  }

  /** `Math.round` is monotone. */
  lemma RoundMono(x: real, y: real)
    requires x <= y
    ensures Editor.Round(x) <= Editor.Round(y)
  {
  }

  /** The product of the four parameters lies in `[0, 1]`. */
  lemma CoreUnit(p: Params)
    requires InUnitRange(p)
    ensures 0.0 <= p.y * p.d * p.c * p.m <= 1.0
  {
    MulUnit(p.y, p.d);
    MulUnit(p.y * p.d, p.c);
    MulUnit(p.y * p.d * p.c, p.m);
  }

  /** With every input in `[0, 1]` the score lies in `[0, 100]`. */
  lemma ScoreInRange(p: Params)
    requires InUnitRange(p)
    ensures 0 <= Score(p) <= 100
  {
    CoreUnit(p);
    var k := p.y * p.d * p.c * p.m;
    MulUnit(k, UClean(p));
    var x := k * UClean(p) * 100.0;
    assert 0.0 <= x <= 100.0;
    RoundMono(0.0, x);
    RoundMono(x, 100.0);
    assert Editor.Round(0.0) == 0;
    assert Editor.Round(100.0) == 100;
  }

  /** With the theoretical cleanliness at least the practical one, the
      theoretical score is at least the practical score. */
  lemma TheoreticalAtLeastPractical(p: Params)
    requires p.y >= 0.0 && p.d >= 0.0 && p.c >= 0.0 && p.m >= 0.0
    requires p.uCleanTheo >= p.uCleanPrac
    ensures Score(p.(useTheoretical := true)) >= Score(p.(useTheoretical := false))
  {
    var k := p.y * p.d * p.c * p.m;
    assert k >= 0.0 by {
      assert p.y * p.d >= 0.0;
      assert p.y * p.d * p.c >= 0.0;
    }
    MulMono(k, p.uCleanTheo, p.uCleanPrac);
    MulMono(100.0, k * p.uCleanTheo, k * p.uCleanPrac);
    RoundMono(k * p.uCleanPrac * 100.0, k * p.uCleanTheo * 100.0);
  }

  /** The five labels, best first. */
  datatype Label = EasilyRecyclable | RecyclableWithCare | Limited | TechnicallyRecyclable | Unrecyclable

  /** The label's text. */
  function LabelText(l: Label): string {
    match l
    case EasilyRecyclable => "Easily recyclable"
    case RecyclableWithCare => "Recyclable with care"
    case Limited => "Limited recyclability"
    case TechnicallyRecyclable => "Technically recyclable"
    case Unrecyclable => "Unrecyclable / Experimental"
  }

  /** The label's band: 4 for the best, 0 for the worst. */
  function Band(l: Label): nat {
    match l
    case EasilyRecyclable => 4
    case RecyclableWithCare => 3
    case Limited => 2
    case TechnicallyRecyclable => 1
    case Unrecyclable => 0
  }

  /** `getRecyclabilityLabel(score)`: thresholds 0.8, 0.6, 0.4, 0.2 on
      `score / 100`. */
  function LabelOf(score: int): (l: Label)
    ensures Band(l) == 4 <==> score >= 80
    ensures Band(l) == 0 <==> score < 20
    ensures 60 <= score < 80 ==> l == RecyclableWithCare
    ensures 40 <= score < 60 ==> l == Limited
    ensures 20 <= score < 40 ==> l == TechnicallyRecyclable
  {
    var normalized := score as real / 100.0;
    if normalized >= 0.80 then EasilyRecyclable
    else if normalized >= 0.60 then RecyclableWithCare
    else if normalized >= 0.40 then Limited
    else if normalized >= 0.20 then TechnicallyRecyclable
    else Unrecyclable
  }

  /** A higher score never gets a worse label. */
  lemma LabelMonotone(a: int, b: int)
    requires a <= b
    ensures Band(LabelOf(a)) <= Band(LabelOf(b))
  {
  }

  /** One row of the preview table. */
  datatype Preview = Preview(id: string, name: string, category: string, oldScore: int, newScore: int, rating: Label)

  /** The parameters a material is scored with. */
  function ParamsFor(p: Params, m: Material): Params {
    Merge(p, m.category)
  }

  /** `handlePreviewCalculation`: one row per material, in order. */
  function PreviewAll(ms: seq<Material>, p: Params): (r: seq<Preview>)
    ensures |r| == |ms|
    ensures forall i :: 0 <= i < |ms| ==>
      r[i].id == ms[i].id && r[i].oldScore == ms[i].recyclability
      && r[i].newScore == Score(ParamsFor(p, ms[i])) && r[i].rating == LabelOf(r[i].newScore)
    decreases |ms|
  {
    if |ms| == 0 then []
    else
      var m := ms[0];
      var s := Score(ParamsFor(p, m));
      [Preview(m.id, m.name, m.category, m.recyclability, s, LabelOf(s))] + PreviewAll(ms[1..], p)
  }

  /** `previewResults.find(r => r.id === id)`. */
  function FindPreview(rs: seq<Preview>, id: string): (r: Option<Preview>)
    ensures r.Some? ==> r.value in rs && r.value.id == id
    ensures r.None? <==> forall i :: 0 <= i < |rs| ==> rs[i].id != id
    decreases |rs|
  {
    if |rs| == 0 then None
    else if rs[0].id == id then Some(rs[0])
    else FindPreview(rs[1..], id)
  }

  /** The distance of Y, D, C and M from the global defaults. */
  function Deviation(k: Params): real {
    Abs(k.y - 0.75) + Abs(k.d - 0.80) + Abs(k.c - 0.70) + Abs(k.m - 0.65)
  }

  function Abs(x: real): real { if x < 0.0 then -x else x }

  /** The confidence heuristic: High below 0.3, Low above 0.6. */
  function LevelFor(k: Params): (l: Level)
    ensures l == High <==> Deviation(k) < 0.3
    ensures l == Low <==> Deviation(k) > 0.6
    ensures l == Medium <==> 0.3 <= Deviation(k) <= 0.6
  {
    var dev := Deviation(k);
    if dev < 0.3 then High else if dev > 0.6 then Low else Medium
  }

  /** `{ lower: max(0, (s - 10%)/100), upper: min(1, (s + 10%)/100) }`. */
  function ScoreCi(s: int): (ci: CI)
    ensures 0.0 <= ci.lower && ci.upper <= 1.0
    ensures 0 <= s <= 100 ==> ci.lower <= s as real / 100.0 <= ci.upper
  {
    var margin := s as real * 0.10;
    CI(Editor.Max(0.0, (s as real - margin) / 100.0), Editor.Min(1.0, (s as real + margin) / 100.0))
  }

  /** What "apply to all" writes into a material with a preview row `row`. */
  function Applied(m: Material, row: Preview, p: Params, timestamp: string): (r: Material)
    ensures r.id == m.id && r.name == m.name && r.category == m.category
    ensures r.recyclability == row.newScore
    ensures r.sources == Some(m.sources.GetOr([]))
    ensures r.eValue == Some(if Truthy(m.eValue) then m.eValue.value else 0.0)
    ensures r.yValue == Some(ParamsFor(p, m).y) && r.mValue == Some(ParamsFor(p, m).m)
    ensures r.confidence == Some(LevelFor(ParamsFor(p, m)))
    ensures r.methodVersion == Some("CR-v1") && r.whitepaperVersion == Some("2025.1")
    ensures r.calculationTimestamp == Some(timestamp)
    ensures r.compostability == m.compostability && r.reusability == m.reusability
    ensures r.description == m.description && r.articles == m.articles
  {
    var k := ParamsFor(p, m);
    var practical := Score(k.(useTheoretical := false));
    var theoretical := Score(k.(useTheoretical := true));
    m.(recyclability := row.newScore,
       yValue := Some(k.y), dValue := Some(k.d), cValue := Some(k.c), mValue := Some(k.m),
       eValue := Some(if Truthy(m.eValue) then m.eValue.value else 0.0),
       crPracticalMean := Some(practical as real / 100.0),
       crTheoreticalMean := Some(theoretical as real / 100.0),
       crPracticalCi := Some(ScoreCi(practical)),
       crTheoreticalCi := Some(ScoreCi(theoretical)),
       confidence := Some(LevelFor(k)),
       whitepaperVersion := Some("2025.1"),
       calculationTimestamp := Some(timestamp),
       methodVersion := Some("CR-v1"),
       sources := Some(m.sources.GetOr([])))
  }

  /** `handleApplyToAll`: materials with a preview row are rescored from
      it; the others are left alone. */
  function ApplyToAll(ms: seq<Material>, rows: seq<Preview>, p: Params, timestamp: string): (r: seq<Material>)
    ensures |r| == |ms|
    ensures forall i :: 0 <= i < |ms| ==>
      r[i] == (match FindPreview(rows, ms[i].id)
               case None => ms[i]
               case Some(row) => Applied(ms[i], row, p, timestamp))
    decreases |ms|
  {
    if |ms| == 0 then []
    else
      var m := ms[0];
      var head := match FindPreview(rows, m.id)
        case None => m
        case Some(row) => Applied(m, row, p, timestamp);
      [head] + ApplyToAll(ms[1..], rows, p, timestamp)
  }

  /** Every row of a preview made from the same list is found by its id. */
  lemma PreviewFinds(ms: seq<Material>, p: Params, i: nat)
    requires i < |ms|
    ensures FindPreview(PreviewAll(ms, p), ms[i].id).Some?
  {
    var rs := PreviewAll(ms, p);
    assert rs[i].id == ms[i].id;
  }

  /** Applying a preview made with the same parameters rescores every
      material with its own category's parameters and the selected mode,
      keeps its sources (default []) and its energy value (default 0). */
  lemma ApplyAfterPreview(ms: seq<Material>, p: Params, timestamp: string, i: nat)
    requires i < |ms|
    requires forall a, b :: 0 <= a < b < |ms| ==> ms[a].id != ms[b].id
    ensures ApplyToAll(ms, PreviewAll(ms, p), p, timestamp)[i].recyclability == Score(ParamsFor(p, ms[i]))
    ensures ApplyToAll(ms, PreviewAll(ms, p), p, timestamp)[i].sources == Some(ms[i].sources.GetOr([]))
    ensures ApplyToAll(ms, PreviewAll(ms, p), p, timestamp)[i].eValue
            == Some(if Truthy(ms[i].eValue) then ms[i].eValue.value else 0.0)
  {
    var rs := PreviewAll(ms, p);
    PreviewFinds(ms, p, i);
    var row := FindPreview(rs, ms[i].id).value;
    var j :| 0 <= j < |rs| && rs[j] == row;
    assert rs[j].id == ms[j].id;
    assert j == i;
  }

  /** A material the preview does not list is untouched. */
  lemma ApplyLeavesUnlisted(ms: seq<Material>, rows: seq<Preview>, p: Params, timestamp: string, i: nat)
    requires i < |ms| && forall k :: 0 <= k < |rows| ==> rows[k].id != ms[i].id
    ensures ApplyToAll(ms, rows, p, timestamp)[i] == ms[i]
  {
  }

  /** Applying the same rows twice gives what applying them once gives. */
  lemma AppliedIdempotent(m: Material, row: Preview, p: Params, timestamp: string)
    requires row.id == m.id
    ensures Applied(Applied(m, row, p, timestamp), row, p, timestamp) == Applied(m, row, p, timestamp)
  {
    var once := Applied(m, row, p, timestamp);
    assert ParamsFor(p, once) == ParamsFor(p, m);
  }

  /** The global defaults themselves get High confidence. */
  lemma DefaultsHigh()
    ensures LevelFor(Defaults) == High
  {
    assert Deviation(Defaults) == 0.0;
  }
}
