/** The rules that grade a material's confidence level against its sources,
    side by side: the editor's suggestion, the level the migration derives,
    the batch recalculation, the batch audit with its recommendation, and
    the metadata view's warning. The lemmas at the end say where the rules
    agree and where they do not. */
module Confidence {
  import opened Wrappers
  import opened Materials
  import Text

  /** `totalWeight / sourceCount`, or 0 with no sources. */
  function MeanWeight(n: nat, total: real): real {
    if n > 0 then total / (n as real) else 0.0
  }

  /** The mean reaches a threshold exactly when the total reaches `n` times
      it (with no sources both sides compare 0 with the threshold). */
  lemma MeanAtLeast(n: nat, total: real, t: real)
    ensures n > 0 ==> (MeanWeight(n, total) >= t <==> total >= t * (n as real))
  {
    if n == 0 { return; }
    var k := n as real;
    assert MeanWeight(n, total) * k == total;
    if total >= t * k {
      assert MeanWeight(n, total) * k >= t * k;
    } else {
      assert MeanWeight(n, total) * k < t * k;
    }
  }

  // ---------------------------------------------------------------------
  // The editor's suggestion and the migration's derivation
  // ---------------------------------------------------------------------

  /** `getSuggestedConfidenceLevel(sourceCount, totalWeight)` of the
      scientific data editor, where `totalWeight` sums `weight || 1.0`. */
  function Suggested(n: nat, total: real): (l: Level)
    ensures n == 0 ==> l == Low
    ensures l == High ==> n >= 3
    ensures n >= 2 ==> l != Low
    ensures n >= 3 && total >= 0.8 * (n as real) ==> l == High
    ensures n == 1 ==> (l == Medium <==> total >= 0.6)
  {
    var score := MeanWeight(n, total);
    MeanAtLeast(n, total, 0.8);
    MeanAtLeast(n, total, 0.6);
    if n == 0 then Low
    else if n >= 3 && score >= 0.8 then High
    else if n >= 2 || score >= 0.6 then Medium
    else Low
  }

  /** The level `migrateMaterial` gives a material that has none. It has no
      separate branch for zero sources, and still agrees with the editor. */
  function MigrationLevel(n: nat, total: real): (l: Level)
    ensures l == Suggested(n, total)
  {
    var score := MeanWeight(n, total);
    if n >= 3 && score >= 0.8 then High
    else if n >= 2 || score >= 0.6 then Medium
    else Low
  }

  /** The warning the sources tab shows: the current level (Medium when
      unset) ranks above the suggested one. */
  predicate Mismatch(current: Option<Level>, suggested: Level) {
    Rank(current.GetOr(Medium)) > Rank(suggested)
  }

  /** With no sources the only level that raises no warning is Low, and an
      unset level always warns. */
  lemma MismatchWithoutSources(current: Option<Level>, total: real)
    ensures !Mismatch(current, Suggested(0, total)) <==> current == Some(Low)
  {
  }

  // ---------------------------------------------------------------------
  // The batch audit, its recommendation and the metadata warning
  // ---------------------------------------------------------------------

  /** The batch audit's test of a material's level against its source count. */
  function AuditFlags(level: Option<Level>, n: nat): (flag: bool)
    ensures flag <==> (level == Some(High) && n < 3) || (level == Some(Medium) && n < 2)
  {
    if level.None? then false
    else if level.value == High && n < 3 then true
    else if level.value == Medium && n < 2 then true
    else if (level.value == High || level.value == Medium) && n == 0 then true
    else false
  }

  /** The level the audit recommends for a flagged material. */
  function Recommended(n: nat): (l: Level)
    ensures !AuditFlags(Some(l), n)
    ensures forall k: Level :: !AuditFlags(Some(k), n) ==> Rank(k) <= Rank(l)
  {
    if n >= 3 then High
    else if n >= 2 then Medium
    else Low
  }

  /** A flagged material is always recommended a lower level than it has. */
  lemma RecommendationLowers(level: Level, n: nat)
    requires AuditFlags(Some(level), n)
    ensures Rank(Recommended(n)) < Rank(level)
  {
  }

  function LevelName(l: Level): string {
    match l
    case High => "High"
    case Medium => "Medium"
    case Low => "Low"
  }

  /** `validateConfidenceLevel` of the metadata view: a message when the
      level claims more than the source count supports. The third test
      can never fire once the first two have not. */
  function Warning(level: Option<Level>, n: nat): (w: Option<string>)
    ensures w.Some? <==> AuditFlags(level, n)
    ensures level.None? ==> w.None?
  {
    match level
    case None => None
    case Some(l) =>
      if l == High && n < 3 then
        Some("High confidence requires 3+ sources (currently " + Text.NatToString(n) + ")")
      else if l == Medium && n < 2 then
        Some("Medium confidence requires 2+ sources (currently " + Text.NatToString(n) + ")")
      else if (l == High || l == Medium) && n == 0 then
        Some(LevelName(l) + " confidence requires supporting citations (currently 0)")
      else None
  }

  /** The editor's suggestion passes the audit except in one case: a
      single source of weight at least 0.6 is suggested Medium, which the
      audit flags. */
  lemma SuggestedVersusAudit(n: nat, total: real)
    ensures AuditFlags(Some(Suggested(n, total)), n) <==> n == 1 && total >= 0.6
  {
  }

  // ---------------------------------------------------------------------
  // The batch recalculation
  // ---------------------------------------------------------------------

  /** The number of D, C and M that are defined. */
  function DcmCount(m: Material): (k: nat)
    ensures k <= 3
  {
    (if m.dValue.Some? then 1 else 0) + (if m.cValue.Some? then 1 else 0)
      + (if m.mValue.Some? then 1 else 0)
  }

  /** The completeness score: 0.2 for each of Y, D, C and M that is defined
      and 0.2 for a non-empty source list. */
  function Completeness(m: Material): real {
    var c0 := 0.0;
    var c1 := if m.yValue.Some? then c0 + 0.2 else c0;
    var c2 := if m.dValue.Some? then c1 + 0.2 else c1;
    var c3 := if m.cValue.Some? then c2 + 0.2 else c2;
    var c4 := if m.mValue.Some? then c3 + 0.2 else c3;
    if SourceCount(m) > 0 then c4 + 0.2 else c4
  }

  /** The number of the five items that are present. */
  function Present(m: Material): (k: nat)
    ensures k <= 5
  {
    (if m.yValue.Some? then 1 else 0) + DcmCount(m) + (if SourceCount(m) > 0 then 1 else 0)
  }

  lemma CompletenessCounts(m: Material)
    ensures Completeness(m) == 0.2 * (Present(m) as real)
  {
  }

  /** The level the batch recalculation assigns from completeness. */
  function BatchLevel(m: Material): (l: Level)
    ensures l == High <==> Present(m) >= 4 && SourceCount(m) >= 2
    ensures l == Medium <==> !(Present(m) >= 4 && SourceCount(m) >= 2) && Present(m) >= 3
  {
    CompletenessCounts(m);
    var c := Completeness(m);
    if c >= 0.8 && m.sources.Some? && |m.sources.value| >= 2 then High
    else if c >= 0.6 then Medium
    else Low
  }

  /** One material of `handleRecalculateConfidence`: left alone when Y is
      falsy, otherwise given the completeness level and nothing else. */
  function Recalculated(m: Material): (r: Material)
    ensures !Truthy(m.yValue) ==> r == m
    ensures Truthy(m.yValue) ==> r.confidence.Some? && r == m.(confidence := r.confidence)
    ensures Truthy(m.yValue) ==> (r.confidence == Some(High) <==> DcmCount(m) >= 2 && SourceCount(m) >= 2)
  {
    if !Truthy(m.yValue) then m
    else m.(confidence := Some(BatchLevel(m)))
  }

  /** The batch recalculation and the audit disagree: a recalculated
      material is flagged exactly when it has no source and two of D, C, M,
      one source and one of them, or two sources and two of them. */
  lemma RecalculatedVersusAudit(m: Material)
    requires Truthy(m.yValue)
    ensures var n := SourceCount(m);
      AuditFlags(Recalculated(m).confidence, n) <==>
        (n == 0 && DcmCount(m) >= 2) || (n == 1 && DcmCount(m) >= 1) || (n == 2 && DcmCount(m) >= 2)
  {
  }

  /** Concretely: two sources and all of Y, D, C and M give High, which the
      audit flags and recommends lowering to Medium. */
  lemma RecalculatedHighWithTwoSources(m: Material)
    requires Truthy(m.yValue) && m.dValue.Some? && m.cValue.Some? && m.mValue.Some?
    requires SourceCount(m) == 2
    ensures Recalculated(m).confidence == Some(High)
    ensures AuditFlags(Recalculated(m).confidence, SourceCount(m))
    ensures Recommended(SourceCount(m)) == Medium
  {
  }
}
