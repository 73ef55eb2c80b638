/** The source comparison tool (`SourceDataComparison.tsx`): which
    parameters of a material can be compared, how much each tagged source
    contributes to a parameter, and the materials offered for selection. */
module Comparison {
  import opened Wrappers
  import opened Materials
  import Seqs
  import Sorting

  /** The keys of `PARAMETER_INFO`, in their declared order. */
  const ParameterKeys: seq<string> := [
    "Y_value", "D_value", "C_value", "M_value", "E_value",
    "B_value", "N_value", "T_value", "H_value",
    "L_value", "R_value", "U_value", "C_RU_value"]

  /** The `dimension` each key is listed under. */
  function DimensionOf(key: string): string {
    if key in ["Y_value", "D_value", "C_value", "M_value", "E_value"] then "Recyclability"
    else if key in ["B_value", "N_value", "T_value", "H_value"] then "Compostability"
    else "Reusability"
  }

  /** Whether a key passes the dimension selector; "all" passes all. */
  predicate InDimension(key: string, dimension: string) {
    dimension == "all" || DimensionOf(key) == dimension
  }

  /** `availableParameters`: the keys, in order, for which the selected
      material has a defined, non-null value (`values` holds exactly
      those fields) in the selected dimension; none without a material. */
  function AvailableParameters(material: Option<map<string, real>>, dimension: string): (r: seq<string>)
    ensures material.None? ==> r == []
    ensures material.Some? ==> forall k :: k in r <==>
      k in ParameterKeys && k in material.value && InDimension(k, dimension)
  {
    match material
    case None => []
    case Some(values) =>
      Seqs.Filter((k: string) => k in values && InDimension(k, dimension), ParameterKeys)
  }

  /** Whether a source lists the parameter in its `parameters`. */
  predicate Tagged(s: Source, parameter: string) {
    s.parameters.Some? && parameter in s.parameters.value
  }

  /** One row of the comparison: a source, its weight and its share. */
  datatype Contribution = Contribution(source: Source, weight: real, share: real)

  /** `comparisonData`. */
  datatype Data = Data(paramValue: Option<real>, contributions: seq<Contribution>, totalWeight: real, sourceCount: nat)

  /** The tagged sources' rows, in source order: `weight / total · 100`. */
  function Shares(ss: seq<Source>, total: real): (r: seq<Contribution>)
    requires total != 0.0
    ensures |r| == |ss|
    ensures forall i :: 0 <= i < |ss| ==>
      r[i].source == ss[i] && r[i].weight == WeightOrOne(ss[i]) && r[i].share == WeightOrOne(ss[i]) / total * 100.0
    decreases |ss|
  {
    if |ss| == 0 then []
    else [Contribution(ss[0], WeightOrOne(ss[0]), WeightOrOne(ss[0]) / total * 100.0)] + Shares(ss[1..], total)
  }

  function ShareOf(c: Contribution): real { c.share }

  /** Sorting comparator: larger shares first. */
  function LargestFirst(): (Contribution, Contribution) -> bool {
    Sorting.DescendingBy(ShareOf)
  }

  lemma LargestFirstMeans(a: Contribution, b: Contribution)
    ensures LargestFirst()(a, b) <==> a.share >= b.share
  {
    Sorting.DescendingByMeans(ShareOf, a, b);
  }

  /** `comparisonData`: nothing without a material, a parameter, sources,
      or a source tagged with the parameter; otherwise the tagged
      sources' shares, largest first. A zero total weight (possible only
      with negative weights) is treated like no tagged source. */
  function Compare(material: Option<Material>, values: map<string, real>, parameter: string): (r: Option<Data>)
    ensures material.None? || parameter == "" ==> r.None?
    ensures material.Some? && material.value.sources.Some? && parameter != "" ==>
      var tagged := Seqs.Filter((s: Source) => Tagged(s, parameter), material.value.sources.value);
      (r.Some? <==> |tagged| > 0 && TotalWeight(tagged) != 0.0)
      && (r.Some? ==> r.value.sourceCount == |tagged| && r.value.totalWeight == TotalWeight(tagged)
                      && |r.value.contributions| == |tagged|
                      && multiset(r.value.contributions) == multiset(Shares(tagged, TotalWeight(tagged))))
    ensures material.Some? && material.value.sources.None? ==> r.None?
    ensures r.Some? ==> r.value.paramValue == (if parameter in values then Some(values[parameter]) else None)
  {
    if material.None? || parameter == "" || material.value.sources.None? || |material.value.sources.value| == 0 then None
    else
      var tagged := Seqs.Filter((s: Source) => Tagged(s, parameter), material.value.sources.value);
      var total := TotalWeight(tagged);
      if |tagged| == 0 || total == 0.0 then None
      else
        var rows := Sorting.Sort(Shares(tagged, total), LargestFirst());
        Some(Data(if parameter in values then Some(values[parameter]) else None, rows, total, |tagged|))
  }

  /** The rows are sorted by share, largest first. */
  lemma CompareSorted(material: Option<Material>, values: map<string, real>, parameter: string)
    requires Compare(material, values, parameter).Some?
    ensures Sorting.Sorted(LargestFirst(), Compare(material, values, parameter).value.contributions)
    ensures forall i, j :: 0 <= i < j < |Compare(material, values, parameter).value.contributions| ==>
      Compare(material, values, parameter).value.contributions[i].share
      >= Compare(material, values, parameter).value.contributions[j].share
  {
    var tagged := Seqs.Filter((s: Source) => Tagged(s, parameter), material.value.sources.value);
    var rows := Shares(tagged, TotalWeight(tagged));
    Sorting.NumberOrdersConsistent(ShareOf, rows);
    Sorting.SortSorted(rows, LargestFirst());
    var sorted := Compare(material, values, parameter).value.contributions;
    assert sorted == Sorting.Sort(rows, LargestFirst());
    forall i, j | 0 <= i < j < |sorted| ensures sorted[i].share >= sorted[j].share {
      LargestFirstMeans(sorted[i], sorted[j]);
    }
  }

  /** The shares of weights summing to `total` sum to 100. */
  lemma {:induction false} SharesSum(ss: seq<Source>, total: real)
    requires total != 0.0
    ensures Sorting.SumBy(ShareOf, Shares(ss, total)) == TotalWeight(ss) / total * 100.0
    decreases |ss|
  {
    if |ss| > 0 {
      SharesSum(ss[1..], total);
      var r := Shares(ss, total);
      assert r[1..] == Shares(ss[1..], total);
      var w := WeightOrOne(ss[0]);
      var rest := TotalWeight(ss[1..]);
      assert w / total * 100.0 + rest / total * 100.0 == (w + rest) / total * 100.0;
    }
  }

  /** Sorted shares of a non-zero total still add up to 100. */
  lemma SortedSharesHundred(ss: seq<Source>)
    requires TotalWeight(ss) != 0.0
    ensures Sorting.SumBy(ShareOf, Sorting.Sort(Shares(ss, TotalWeight(ss)), LargestFirst())) == 100.0
  {
    var total := TotalWeight(ss);
    var rows := Shares(ss, total);
    Sorting.SortSum(ShareOf, rows, LargestFirst());
    SharesSum(ss, total);
    WholeShare(total);
  }

  lemma WholeShare(t: real)
    requires t != 0.0
    ensures t / t * 100.0 == 100.0
  {
  }

  /** Over the reals the contributions always add up to 100%. */
  lemma SharesTotalHundred(material: Option<Material>, values: map<string, real>, parameter: string)
    requires Compare(material, values, parameter).Some?
    ensures Sorting.SumBy(ShareOf, Compare(material, values, parameter).value.contributions) == 100.0
  {
    var tagged := Seqs.Filter((s: Source) => Tagged(s, parameter), material.value.sources.value);
    var r := Compare(material, values, parameter).value;
    assert r.contributions == Sorting.Sort(Shares(tagged, TotalWeight(tagged)), LargestFirst());
    SortedSharesHundred(tagged);
  }

  /** The badge a weight earns. */
  datatype Kind = PeerReviewed | Government | Industrial | Ngo | Internal

  /** The weight-to-type thresholds 1.0, 0.9, 0.7 and 0.6. */
  function KindOf(weight: real): (k: Kind)
    ensures k == PeerReviewed <==> weight >= 1.0
    ensures k == Internal <==> weight < 0.6
    ensures k == Government <==> 0.9 <= weight < 1.0
    ensures k == Industrial <==> 0.7 <= weight < 0.9
    ensures k == Ngo <==> 0.6 <= weight < 0.7
  {
    if weight >= 1.0 then PeerReviewed
    else if weight >= 0.9 then Government
    else if weight >= 0.7 then Industrial
    else if weight >= 0.6 then Ngo
    else Internal
  }

  /** A source without a weight, or with weight 0, is shown as
      peer-reviewed, since it counts with weight 1. */
  lemma UnweightedIsPeerReviewed(s: Source)
    requires s.weight.None? || s.weight == Some(0.0)
    ensures KindOf(WeightOrOne(s)) == PeerReviewed
  {
  }

  predicate HasSources(m: Material) {
    m.sources.Some? && |m.sources.value| > 0
  }

  function NameOf(m: Material): string { m.name }

  /** The material selector: the materials with at least one source,
      sorted by name under the collation `localeCompare` applies. */
  function Selectable(ms: seq<Material>, collate: Sorting.Collation): (r: seq<Material>)
    ensures multiset(r) == multiset(Seqs.Filter(HasSources, ms))
    ensures forall m :: m in r <==> m in ms && HasSources(m)
  {
    var withSources := Seqs.Filter(HasSources, ms);
    var r := Sorting.Sort(withSources, Sorting.Ascending(NameOf, collate));
    assert forall m :: m in r <==> m in multiset(withSources);
    r
  }

  /** The selector is in name order. */
  lemma SelectableSorted(ms: seq<Material>, collate: Sorting.Collation)
    requires Sorting.Collates(collate)
    ensures Sorting.Sorted(Sorting.Ascending(NameOf, collate), Selectable(ms, collate))
  {
    var withSources := Seqs.Filter(HasSources, ms);
    Sorting.StringOrdersConsistent(NameOf, collate, withSources);
    Sorting.SortSorted(withSources, Sorting.Ascending(NameOf, collate));
  }
}
