/** The scientific data editor and its sources and recyclability tabs: the
    citation list a curator edits, the validation a save goes through, and
    the recalculation of the composite recyclability scores from Y, D, C
    and M. */
module Editor {
  import opened Wrappers
  import opened Materials
  import Text
  import Seqs
  import Library
  import Confidence

  // ---------------------------------------------------------------------
  // The citation list
  // ---------------------------------------------------------------------

  /** The draft a new citation is typed into, as the form resets it. */
  const EmptyDraft := Source("", Some(""), None, Some(""), Some(""), Some(1.0), None)

  /** The citation list together with the draft of the next citation. */
  datatype SourcesState = SourcesState(sources: seq<Source>, draft: Source)

  /** `handleAddSource`: a draft with a blank title is refused and nothing
      changes; otherwise one copy of it is appended and the draft reset. */
  function AddSource(st: SourcesState): (r: Result<SourcesState>)
    ensures r.Err? <==> Text.IsBlank(st.draft.title)
    ensures r.Ok? ==> |r.value.sources| == |st.sources| + 1
    ensures r.Ok? ==> r.value.sources[..|st.sources|] == st.sources
    ensures r.Ok? ==> r.value.sources[|st.sources|] == st.draft && r.value.draft == EmptyDraft
  {
    if Text.IsBlank(st.draft.title) then Err("Source title is required")
    else Ok(SourcesState(st.sources + [st.draft], EmptyDraft))
  }

  /** `handleRemoveSource`: exactly the citation at `index` goes. */
  function RemoveSource(sources: seq<Source>, index: int): (r: seq<Source>)
    ensures 0 <= index < |sources| ==> |r| == |sources| - 1
    ensures 0 <= index < |sources| ==> forall i :: 0 <= i < index ==> r[i] == sources[i]
    ensures 0 <= index < |sources| ==> forall i :: index <= i < |r| ==> r[i] == sources[i + 1]
    ensures !(0 <= index < |sources|) ==> r == sources
  {
    Seqs.WithoutIndex(sources, index)
  }

  /** Removing the citation just added gives back the list before it. */
  lemma AddThenRemove(st: SourcesState)
    requires !Text.IsBlank(st.draft.title)
    ensures RemoveSource(AddSource(st).value.sources, |st.sources|) == st.sources
  {
    var after := AddSource(st).value.sources;
    assert after[..|st.sources|] == st.sources;
  }

  /** A library citation is already in the list when one with the same
      title and DOI is. */
  predicate AlreadyAdded(sources: seq<Source>, lib: Library.LibSource) {
    exists s :: s in sources && s.title == lib.title && s.doi == lib.doi
  }

  /** The citation made from a library source with the given parameters. */
  function FromLibrary(lib: Library.LibSource, parameters: seq<string>): (s: Source)
    ensures s.title == lib.title && s.doi == lib.doi && s.weight == lib.weight
    ensures s.parameters == Some(parameters)
  {
    Source(lib.title, lib.authors, lib.year, lib.doi, lib.url, lib.weight, Some(parameters))
  }

  /** `handleAddFromLibrary`, with the rule that assigns parameters from
      tags as an argument: the sources tab takes it from a module that is
      not part of this model, the editor uses `EditorParameters`. */
  function AddFromLibrary(sources: seq<Source>, lib: Library.LibSource,
                          assign: seq<string> -> seq<string>): (r: Result<seq<Source>>)
    ensures r.Err? <==> exists s :: s in sources && s.title == lib.title && s.doi == lib.doi
    ensures r.Ok? ==> |r.value| == |sources| + 1 && r.value[..|sources|] == sources
    ensures r.Ok? ==> var c := r.value[|sources|];
      && c.title == lib.title && c.authors == lib.authors && c.year == lib.year
      && c.doi == lib.doi && c.url == lib.url && c.weight == lib.weight
      && c.parameters == Some(assign(Library.TagsOf(lib)))
    ensures r.Ok? ==> AlreadyAdded(r.value, lib)
  {
    if AlreadyAdded(sources, lib) then Err("This source has already been added")
    else Ok(sources + [FromLibrary(lib, assign(Library.TagsOf(lib)))])
  }

  /** Adding the same library source a second time is refused. */
  lemma AddFromLibraryOnce(sources: seq<Source>, lib: Library.LibSource,
                           assign: seq<string> -> seq<string>)
    requires AddFromLibrary(sources, lib, assign).Ok?
    ensures AddFromLibrary(AddFromLibrary(sources, lib, assign).value, lib, assign).Err?
  {
    var s := FromLibrary(lib, assign(Library.TagsOf(lib)));
    assert s in AddFromLibrary(sources, lib, assign).value;
  }

  const DefaultParameters: seq<string> := ["CR_practical_mean", "CR_theoretical_mean"]

  /** The parameters the tag rules push, in order, given which rules fire:
      the recycling rule, the D, C, M and E rules, and the rule for general
      sources. */
  function RulePushes(y: bool, d: bool, c: bool, m: bool, e: bool, general: bool): (r: seq<string>)
    ensures |r| == 0 <==> !(y || d || c || m || e || general)
  {
    (if y then ["Y_value", "CR_practical_mean"] else [])
    + (if d then ["D_value"] else [])
    + (if c then ["C_value"] else [])
    + (if m then ["M_value"] else [])
    + (if e then ["E_value"] else [])
    + (if general then DefaultParameters else [])
  }

  /** Each of Y, D, C, M and E is pushed exactly when its rule fires. */
  lemma RulePushesYd(y: bool, d: bool, c: bool, m: bool, e: bool, general: bool)
    ensures "Y_value" in RulePushes(y, d, c, m, e, general) <==> y
    ensures "D_value" in RulePushes(y, d, c, m, e, general) <==> d
  {
  }

  lemma RulePushesCme(y: bool, d: bool, c: bool, m: bool, e: bool, general: bool)
    ensures "C_value" in RulePushes(y, d, c, m, e, general) <==> c
    ensures "M_value" in RulePushes(y, d, c, m, e, general) <==> m
    ensures "E_value" in RulePushes(y, d, c, m, e, general) <==> e
  {
  }

  /** The parameters the editor's tag rules assign, before the default. */
  function EditorTagParameters(tags: seq<string>): seq<string> {
    RulePushes(Seqs.SomeIn(tags, ["recycling", "yield", "recovery"]),
               Seqs.SomeIn(tags, ["degradation", "quality", "composting"]),
               Seqs.SomeIn(tags, ["contamination", "purity"]),
               Seqs.SomeIn(tags, ["infrastructure", "maturity", "facilities"]),
               Seqs.SomeIn(tags, ["energy", "lca"]),
               "general" in tags || "methodology" in tags)
  }

  /** The editor's parameter assignment: the tag rules, or the CR pair
      when none of them fires. */
  function EditorParameters(tags: seq<string>): (r: seq<string>)
    ensures |r| > 0
  {
    var ps := EditorTagParameters(tags);
    if |ps| > 0 then ps else DefaultParameters
  }

  /** Each of Y, D, C, M and E is assigned exactly when one of its tags is
      present. */
  lemma EditorParametersMembers(tags: seq<string>)
    ensures "Y_value" in EditorParameters(tags) <==> Seqs.SomeIn(tags, ["recycling", "yield", "recovery"])
    ensures "D_value" in EditorParameters(tags) <==> Seqs.SomeIn(tags, ["degradation", "quality", "composting"])
    ensures "C_value" in EditorParameters(tags) <==> Seqs.SomeIn(tags, ["contamination", "purity"])
    ensures "M_value" in EditorParameters(tags) <==> Seqs.SomeIn(tags, ["infrastructure", "maturity", "facilities"])
    ensures "E_value" in EditorParameters(tags) <==> Seqs.SomeIn(tags, ["energy", "lca"])
  {
    var y := Seqs.SomeIn(tags, ["recycling", "yield", "recovery"]);
    var d := Seqs.SomeIn(tags, ["degradation", "quality", "composting"]);
    var c := Seqs.SomeIn(tags, ["contamination", "purity"]);
    var m := Seqs.SomeIn(tags, ["infrastructure", "maturity", "facilities"]);
    var e := Seqs.SomeIn(tags, ["energy", "lca"]);
    var g := "general" in tags || "methodology" in tags;
    RulePushesYd(y, d, c, m, e, g);
    RulePushesCme(y, d, c, m, e, g);
  }

  /** With no tag any rule reads, the CR pair is assigned. */
  lemma EditorParametersDefault(tags: seq<string>)
    requires forall t :: t in tags ==> t !in EditorTags
    ensures EditorParameters(tags) == DefaultParameters
  {
    var words := [["recycling", "yield", "recovery"], ["degradation", "quality", "composting"],
                  ["contamination", "purity"], ["infrastructure", "maturity", "facilities"], ["energy", "lca"]];
    forall i | 0 <= i < |words|
      ensures !Seqs.SomeIn(tags, words[i])
    {
      Seqs.SomeInMeans(tags, words[i]);
    }
    assert !Seqs.SomeIn(tags, words[0]) && !Seqs.SomeIn(tags, words[1]) && !Seqs.SomeIn(tags, words[2]);
    assert !Seqs.SomeIn(tags, words[3]) && !Seqs.SomeIn(tags, words[4]);
  }

  /** Every tag some editor rule reads. */
  const EditorTags: seq<string> := ["recycling", "yield", "recovery", "degradation", "quality", "composting",
    "contamination", "purity", "infrastructure", "maturity", "facilities", "energy", "lca", "general", "methodology"]

  // ---------------------------------------------------------------------
  // Saving
  // ---------------------------------------------------------------------

  /** A parameter passes when it is unset or lies in `[0, 1]`. */
  predicate InUnitRange(v: Option<real>) {
    v.None? || (0.0 <= v.value <= 1.0)
  }

  /** A confidence interval passes when it is unset or is a sub-interval
      of `[0, 1]`. */
  predicate CiValid(ci: Option<CI>) {
    ci.None? || (ci.value.lower >= 0.0 && ci.value.upper <= 1.0 && ci.value.lower <= ci.value.upper)
  }

  /** The seven parameters `handleSave` checks, with their names. */
  function CheckedParameters(m: Material): seq<(string, Option<real>)> {
    [("Y_value", m.yValue), ("D_value", m.dValue), ("C_value", m.cValue), ("M_value", m.mValue),
     ("E_value", m.eValue), ("CR_practical_mean", m.crPracticalMean), ("CR_theoretical_mean", m.crTheoreticalMean)]
  }

  /** The name of the first parameter outside `[0, 1]`, if any. */
  function FirstOutOfRange(ps: seq<(string, Option<real>)>): (r: Option<string>)
    ensures r.None? <==> forall i :: 0 <= i < |ps| ==> InUnitRange(ps[i].1)
    ensures r.Some? ==> exists i :: 0 <= i < |ps| && ps[i].0 == r.value && !InUnitRange(ps[i].1)
    decreases |ps|
  {
    if |ps| == 0 then None
    else if !InUnitRange(ps[0].1) then Some(ps[0].0)
    else
      var rest := FirstOutOfRange(ps[1..]);
      assert forall i :: 1 <= i < |ps| ==> ps[i] == ps[1..][i - 1];
      rest
  }

  /** Every checked field of a material is in range. */
  predicate ParametersValid(m: Material) {
    && InUnitRange(m.yValue) && InUnitRange(m.dValue) && InUnitRange(m.cValue) && InUnitRange(m.mValue)
    && InUnitRange(m.eValue) && InUnitRange(m.crPracticalMean) && InUnitRange(m.crTheoreticalMean)
    && CiValid(m.crPracticalCi) && CiValid(m.crTheoreticalCi)
  }

  lemma CheckedParametersInRange(m: Material)
    ensures FirstOutOfRange(CheckedParameters(m)).None? <==>
      && InUnitRange(m.yValue) && InUnitRange(m.dValue) && InUnitRange(m.cValue) && InUnitRange(m.mValue)
      && InUnitRange(m.eValue) && InUnitRange(m.crPracticalMean) && InUnitRange(m.crTheoreticalMean)
  {
    var ps := CheckedParameters(m);
    assert ps[0].1 == m.yValue && ps[1].1 == m.dValue && ps[2].1 == m.cValue && ps[3].1 == m.mValue;
    assert ps[4].1 == m.eValue && ps[5].1 == m.crPracticalMean && ps[6].1 == m.crTheoreticalMean;
  }

  /** `handleSave`: the form is refused when a parameter or an interval is
      out of range, or when its level (Medium when unset) ranks above the
      level the sources suggest; otherwise the sources are copied in and
      the calculation time stamped. */
  function Save(form: Material, sources: seq<Source>, now: string): (r: Result<Material>)
    ensures r.Ok? <==> ParametersValid(form)
                       && !Confidence.Mismatch(form.confidence, Confidence.Suggested(|sources|, TotalWeight(sources)))
    ensures r.Ok? ==> r.value == form.(sources := Some(sources), calculationTimestamp := Some(now))
  {
    CheckedParametersInRange(form);
    var bad := FirstOutOfRange(CheckedParameters(form));
    if bad.Some? then Err(bad.value + " must be between 0 and 1")
    else if !CiValid(form.crPracticalCi) then Err("Invalid practical confidence interval")
    else if !CiValid(form.crTheoreticalCi) then Err("Invalid theoretical confidence interval")
    else
      var suggested := Confidence.Suggested(|sources|, TotalWeight(sources));
      if Confidence.Mismatch(form.confidence, suggested) then
        Err("Confidence level requires more sources")
      else
        Ok(form.(sources := Some(sources), calculationTimestamp := Some(now)))
  }

  /** With no sources only a Low level saves. */
  lemma SaveWithoutSources(form: Material, now: string)
    requires Save(form, [], now).Ok?
    ensures form.confidence == Some(Low)
  {
    Confidence.MismatchWithoutSources(form.confidence, 0.0);
  }

  /** The sources tab's warning is shown exactly when a form that is
      otherwise valid would be refused for its level. */
  lemma WarningIffSaveRefuses(form: Material, sources: seq<Source>, now: string)
    requires ParametersValid(form)
    ensures Save(form, sources, now).Err?
            <==> Confidence.Mismatch(form.confidence, Confidence.Suggested(|sources|, TotalWeight(sources)))
  {
  }

  // ---------------------------------------------------------------------
  // Recalculation of the composite scores
  // ---------------------------------------------------------------------

  /** `Math.round`: the nearest integer, halves rounded up. */
  function Round(x: real): (r: int)
    ensures (r as real) <= x + 0.5 < (r as real) + 1.0
  {
    (x + 0.5).Floor
  }

  function Max(a: real, b: real): real { if a >= b then a else b }
  function Min(a: real, b: real): real { if a <= b then a else b }

  /** `{ lower: max(0, mean - 10%), upper: min(1, mean + 10%) }`. */
  function MarginCi(mean: real): (ci: CI)
    ensures 0.0 <= ci.lower && ci.upper <= 1.0
    ensures 0.0 <= mean <= 1.0 ==> ci.lower <= mean <= ci.upper
    ensures ci.lower == Max(0.0, 0.9 * mean) && ci.upper == Min(1.0, 1.1 * mean)
    ensures 0.0 <= mean ==> ci.lower == 0.9 * mean
    ensures mean * 1.1 <= 1.0 ==> ci.upper == 1.1 * mean
  {
    var margin := mean * 0.10;
    CI(Max(0.0, mean - margin), Min(1.0, mean + margin))
  }

  /** The product Y·D·C·M, an unset parameter counting as 0. */
  function Product(m: Material): real {
    m.yValue.GetOr(0.0) * m.dValue.GetOr(0.0) * m.cValue.GetOr(0.0) * m.mValue.GetOr(0.0)
  }

  /** `handleRecalculateFromParams` (the editor and the recyclability tab
      compute the same thing): theoretical CR is the product Y·D·C·M,
      practical CR is 0.6 of it, both get a 10% interval clamped to
      `[0, 1]`, recyclability is the rounded practical percentage and the
      method version is `CR-v1`. */
  function Recalculate(m: Material): (r: Material)
    ensures r.crTheoreticalMean == Some(Product(m))
    ensures r.crPracticalMean == Some(0.6 * Product(m))
    ensures r.crPracticalCi.Some? && 0.0 <= r.crPracticalCi.value.lower && r.crPracticalCi.value.upper <= 1.0
    ensures r.crTheoreticalCi.Some? && 0.0 <= r.crTheoreticalCi.value.lower && r.crTheoreticalCi.value.upper <= 1.0
    ensures r.methodVersion == Some("CR-v1")
    ensures r.crPracticalCi == Some(MarginCi(0.6 * Product(m)))
    ensures r.crTheoreticalCi == Some(MarginCi(Product(m)))
    ensures r.recyclability == Round(60.0 * Product(m))
    ensures r == m.(crPracticalMean := r.crPracticalMean, crTheoreticalMean := r.crTheoreticalMean,
                    crPracticalCi := r.crPracticalCi, crTheoreticalCi := r.crTheoreticalCi,
                    recyclability := r.recyclability, methodVersion := r.methodVersion)
  {
    var theoretical := Product(m) * 1.0;
    var practical := Product(m) * 0.6;
    m.(crPracticalMean := Some(practical), crTheoreticalMean := Some(theoretical),
       crPracticalCi := Some(MarginCi(practical)), crTheoreticalCi := Some(MarginCi(theoretical)),
       recyclability := Round(practical * 100.0), methodVersion := Some("CR-v1"))
  }

  /** Y, D, C and M are not touched, so recalculating twice changes
      nothing more. */
  lemma RecalculateIdempotent(m: Material)
    ensures Recalculate(Recalculate(m)) == Recalculate(m)
  {
    var r := Recalculate(m);
    assert r.yValue == m.yValue && r.dValue == m.dValue && r.cValue == m.cValue && r.mValue == m.mValue;
    assert Product(r) == Product(m);
  }

  /** The product of four values in `[0, 1]` lies in `[0, 1]`. */
  lemma ProductInUnitRange(m: Material)
    requires InUnitRange(m.yValue) && InUnitRange(m.dValue) && InUnitRange(m.cValue) && InUnitRange(m.mValue)
    ensures 0.0 <= Product(m) <= 1.0
  {
    var y, d, c, mm := m.yValue.GetOr(0.0), m.dValue.GetOr(0.0), m.cValue.GetOr(0.0), m.mValue.GetOr(0.0);
    assert 0.0 <= y * d <= 1.0 by { MulUnit(y, d); }
    assert 0.0 <= y * d * c <= 1.0 by { MulUnit(y * d, c); }
    MulUnit(y * d * c, mm);
  }

  lemma MulUnit(a: real, b: real)
    requires 0.0 <= a <= 1.0 && 0.0 <= b <= 1.0
    ensures 0.0 <= a * b <= 1.0 && a * b <= a
  {
  }

  /** For parameters in range the recalculated scores pass the save
      validation: both means and both intervals are in range, each
      interval contains its mean, practical CR does not exceed theoretical
      CR, and recyclability is a percentage. */
  lemma RecalculatedInRange(m: Material)
    requires InUnitRange(m.yValue) && InUnitRange(m.dValue) && InUnitRange(m.cValue) && InUnitRange(m.mValue)
    ensures var r := Recalculate(m);
      && InUnitRange(r.crPracticalMean) && InUnitRange(r.crTheoreticalMean)
      && CiValid(r.crPracticalCi) && CiValid(r.crTheoreticalCi)
      && r.crPracticalCi.value.lower <= r.crPracticalMean.value <= r.crPracticalCi.value.upper
      && r.crTheoreticalCi.value.lower <= r.crTheoreticalMean.value <= r.crTheoreticalCi.value.upper
      && r.crPracticalMean.value <= r.crTheoreticalMean.value
      && 0 <= r.recyclability <= 100
  {
    ProductInUnitRange(m);
  }

  /** A missing parameter makes both scores, and recyclability, zero. */
  lemma MissingParameterZero(m: Material)
    requires m.yValue.None? || m.dValue.None? || m.cValue.None? || m.mValue.None?
    ensures Recalculate(m).crTheoreticalMean == Some(0.0)
    ensures Recalculate(m).recyclability == 0
  {
  }
}
