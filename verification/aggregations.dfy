/** The parameter-aggregation data layer: the weighted mean over evidence
    points, creation with supersession of the previous current aggregation,
    the current / history / statistics queries, and the coverage matrix. */
module Aggregations {
  import opened Wrappers
  import opened Text
  import opened Schema
  import Evidence
  import Seqs

  // ---------------------------------------------------------------------
  // Weighted mean
  // ---------------------------------------------------------------------

  /** The value a point contributes: its transformed value when there is
      one, its raw value otherwise. */
  function ValueOf(p: EvidencePoint): real {
    p.transformedValue.GetOr(p.rawValue)
  }

  function SumW(ps: seq<EvidencePoint>): real
    decreases |ps|
  {
    if |ps| == 0 then 0.0 else ps[0].sourceWeight + SumW(ps[1..])
  }

  function SumWV(ps: seq<EvidencePoint>): real
    decreases |ps|
  {
    if |ps| == 0 then 0.0 else ValueOf(ps[0]) * ps[0].sourceWeight + SumWV(ps[1..])
  }

  /** The weighted squared deviations from `m`. */
  function SumSq(ps: seq<EvidencePoint>, m: real): real
    decreases |ps|
  {
    if |ps| == 0 then 0.0
    else ps[0].sourceWeight * ((ValueOf(ps[0]) - m) * (ValueOf(ps[0]) - m)) + SumSq(ps[1..], m)
  }

  /** The result of `computeWeightedMean`. */
  datatype MeanStats = MeanStats(mean: Num, se: Option<Num>, ciLower: Option<Num>, ciUpper: Option<Num>)

  /** `Math.sqrt`, which is `NaN` below zero. */
  function Sqrt(sqrt: real -> real, x: real): Num {
    if x < 0.0 then NaN else Val(sqrt(x))
  }

  /** The weighted mean: the sum of value times weight over the sum of
      weights, non-finite when the weights sum to zero. */
  function MeanOf(ps: seq<EvidencePoint>): (r: Num)
    ensures r.Val? <==> SumW(ps) != 0.0
  {
    var sw := SumW(ps);
    if sw == 0.0 then NaN else Val(SumWV(ps) / sw)
  }

  /** `computeWeightedMean`: throws on no points; the mean is the sum of
      value times weight over the sum of weights (non-finite when the weights
      sum to zero); the standard error and the 1.96-SE interval are computed
      only from two points on. */
  function WeightedMean(ps: seq<EvidencePoint>, sqrt: real -> real): (r: Result<MeanStats>)
    ensures r.Err? <==> |ps| == 0
    ensures r.Ok? ==> r.value.mean == MeanOf(ps)
    ensures r.Ok? ==> (r.value.se.Some? <==> |ps| >= 2)
    ensures r.Ok? ==> r.value.se.Some? == r.value.ciLower.Some? == r.value.ciUpper.Some?
    ensures r.Ok? && r.value.mean.NaN? && r.value.se.Some? ==>
      r.value.se.value.NaN? && r.value.ciLower.value.NaN? && r.value.ciUpper.value.NaN?
    ensures r.Ok? && |ps| >= 2 && r.value.mean.Val? ==>
      r.value.se == Some(Sqrt(sqrt, SumSq(ps, r.value.mean.v) / SumW(ps) / (|ps| as real)))
    ensures r.Ok? && r.value.se.Some? && r.value.se.value.Val? ==>
      && r.value.mean.Val?
      && r.value.ciLower == Some(Val(r.value.mean.v - 1.96 * r.value.se.value.v))
      && r.value.ciUpper == Some(Val(r.value.mean.v + 1.96 * r.value.se.value.v))
    ensures r.Ok? && r.value.se.Some? && r.value.se.value.NaN? ==>
      r.value.ciLower == Some(NaN) && r.value.ciUpper == Some(NaN)
  {
    if |ps| == 0 then Err("Cannot compute mean from zero evidence points")
    else
      var sw := SumW(ps);
      var mean := MeanOf(ps);
      if |ps| < 2 then Ok(MeanStats(mean, None, None, None))
      else if mean.NaN? then Ok(MeanStats(NaN, Some(NaN), Some(NaN), Some(NaN)))
      else
        var variance := SumSq(ps, mean.v) / sw;
        var se := Sqrt(sqrt, variance / (|ps| as real));
        match se
        case NaN => Ok(MeanStats(mean, Some(NaN), Some(NaN), Some(NaN)))
        case Val(s) => Ok(MeanStats(mean, Some(se), Some(Val(mean.v - 1.96 * s)), Some(Val(mean.v + 1.96 * s))))
  }

  lemma MulNonneg(a: real, b: real)
    requires 0.0 <= a && 0.0 <= b
    ensures 0.0 <= a * b
  {
  }

  /** With non-negative weights, the weighted sum is bracketed by the bounds
      of the values times the total weight. */
  lemma {:induction false} WeightedSumBounds(ps: seq<EvidencePoint>, lo: real, hi: real)
    requires forall i :: 0 <= i < |ps| ==> 0.0 <= ps[i].sourceWeight && lo <= ValueOf(ps[i]) <= hi
    ensures lo * SumW(ps) <= SumWV(ps) <= hi * SumW(ps)
    decreases |ps|
  {
    if |ps| > 0 {
      var w := ps[0].sourceWeight;
      var v := ValueOf(ps[0]);
      MulNonneg(v - lo, w);
      MulNonneg(hi - v, w);
      assert lo * w <= v * w <= hi * w;
      assert forall i :: 0 <= i < |ps[1..]| ==> ps[1..][i] == ps[i + 1];
      WeightedSumBounds(ps[1..], lo, hi);
      assert lo * SumW(ps) == lo * w + lo * SumW(ps[1..]);
      assert hi * SumW(ps) == hi * w + hi * SumW(ps[1..]);
    }
  }

  lemma DivideBounds(num: real, den: real, lo: real, hi: real)
    requires 0.0 < den && lo * den <= num <= hi * den
    ensures lo <= num / den <= hi
  {
    assert num / den * den == num;
  }

  lemma MeanBetween(swv: real, sw: real, lo: real, hi: real, m: Num)
    requires 0.0 < sw && lo * sw <= swv <= hi * sw && m == Val(swv / sw)
    ensures m.Val? && lo <= m.v <= hi
  {
    DivideBounds(swv, sw, lo, hi);
  }

  lemma {:induction false} SumSqNonneg(ps: seq<EvidencePoint>, m: real)
    requires forall i :: 0 <= i < |ps| ==> 0.0 <= ps[i].sourceWeight
    ensures 0.0 <= SumSq(ps, m)
    decreases |ps|
  {
    if |ps| > 0 {
      var d := ValueOf(ps[0]) - m;
      assert 0.0 <= d * d;
      MulNonneg(ps[0].sourceWeight, d * d);
      assert forall i :: 0 <= i < |ps[1..]| ==> ps[1..][i] == ps[i + 1];
      SumSqNonneg(ps[1..], m);
    }
  }

  /** With non-negative weights that do not all vanish, the mean is finite
      and lies between any bounds of the values. */
  lemma MeanWithinValues(ps: seq<EvidencePoint>, lo: real, hi: real)
    requires |ps| > 0 && SumW(ps) > 0.0
    requires forall i :: 0 <= i < |ps| ==> 0.0 <= ps[i].sourceWeight && lo <= ValueOf(ps[i]) <= hi
    ensures MeanOf(ps).Val? && lo <= MeanOf(ps).v <= hi
  {
    WeightedSumBounds(ps, lo, hi);
    MeanBetween(SumWV(ps), SumW(ps), lo, hi, MeanOf(ps));
  }

  /** With non-negative weights that do not all vanish and at least two
      points, the standard error is the non-negative root of the weighted
      variance over the number of points, and the interval reaches 1.96
      standard errors to either side of the mean. */
  lemma IntervalAroundMean(ps: seq<EvidencePoint>, sqrt: real -> real)
    requires |ps| >= 2 && SumW(ps) > 0.0
    requires forall i :: 0 <= i < |ps| ==> 0.0 <= ps[i].sourceWeight
    requires forall x :: 0.0 <= x ==> 0.0 <= sqrt(x)
    ensures var r := WeightedMean(ps, sqrt).value;
      && r.se.Some? && r.se.value.Val? && 0.0 <= r.se.value.v
      && r.ciLower.Some? && r.ciLower.value.Val? && r.ciUpper.Some? && r.ciUpper.value.Val?
      && r.ciLower.value.v <= r.mean.v <= r.ciUpper.value.v
      && r.mean.v - r.ciLower.value.v == r.ciUpper.value.v - r.mean.v
      && r.mean == MeanOf(ps)
      && r.se.value.v == sqrt(SumSq(ps, r.mean.v) / SumW(ps) / (|ps| as real))
      && r.ciLower.value.v == r.mean.v - 1.96 * r.se.value.v
      && r.ciUpper.value.v == r.mean.v + 1.96 * r.se.value.v
  {
    var sw := SumW(ps);
    var m := SumWV(ps) / sw;
    SumSqNonneg(ps, m);
    var variance := SumSq(ps, m) / sw;
    DivideBounds(SumSq(ps, m), sw, 0.0, SumSq(ps, m) / sw);
    assert 0.0 <= variance;
    DivideBounds(variance, |ps| as real, 0.0, variance / (|ps| as real));
  }

  // ---------------------------------------------------------------------
  // Creation and supersession
  // ---------------------------------------------------------------------

  /** `CreateAggregationInput`. */
  datatype AggInput = AggInput(
    materialId: string,
    parameter: string,
    miuIds: seq<string>,
    calculatedBy: string,
    qualityThreshold: Option<real>,
    minSources: Option<int>)

  datatype Created = Created(store: Store, aggregation: Aggregation)

  /** `miuIds.map(id => kv.get('evidence:' + id))`: one fetch per id, in
      id order, null where no point is stored. */
  function FetchedPoints(store: Store, ids: seq<string>): seq<Option<EvidencePoint>> {
    Seqs.Map((id: string) => Evidence.Resolve(store, Ref(id)), ids)
  }

  /** Fetch every listed evidence point and drop the missing ones. */
  function FetchPoints(store: Store, ids: seq<string>): (r: seq<EvidencePoint>)
    ensures |r| <= |ids|
    ensures forall p :: p in r <==> exists i :: 0 <= i < |ids| && Evidence.Resolve(store, Ref(ids[i])) == Some(p)
    decreases |ids|
  {
    if |ids| == 0 then []
    else
      var rest := FetchPoints(store, ids[1..]);
      assert forall i :: 1 <= i < |ids| ==> ids[i] == ids[1..][i - 1];
      assert forall i :: 0 <= i < |ids[1..]| ==> ids[1..][i] == ids[i + 1];
      match Evidence.Resolve(store, Ref(ids[0]))
      case Some(p) => [p] + rest
      case None => rest
  }

  /** The fetched points are the non-null fetches in id order: a point
      comes back once per listing of its id, so a repeated id weighs twice
      in the mean. */
  lemma {:induction false} FetchPointsInOrder(store: Store, ids: seq<string>)
    ensures Evidence.Wrapped(FetchPoints(store, ids)) == Seqs.Filter(Evidence.Wanted(None), FetchedPoints(store, ids))
    decreases |ids|
  {
    if |ids| > 0 {
      FetchPointsInOrder(store, ids[1..]);
      assert FetchedPoints(store, ids)[1..] == FetchedPoints(store, ids[1..]);
      var rest := FetchPoints(store, ids[1..]);
      match Evidence.Resolve(store, Ref(ids[0]))
      case Some(p) =>
        Evidence.WrappedConcat([p], rest);
      case None =>
    }
  }

  /** The consistency loop: the first point of another material or another
      parameter aborts the creation. */
  function Mismatch(ps: seq<EvidencePoint>, mat: string, param: string): (r: Option<string>)
    ensures r.None? <==> forall i :: 0 <= i < |ps| ==> ps[i].materialId == mat && ps[i].parameterCode == param
    decreases |ps|
  {
    if |ps| == 0 then None
    else if ps[0].materialId != mat then Some("Evidence point " + ps[0].id + " is for different material")
    else if ps[0].parameterCode != param then Some("Evidence point " + ps[0].id + " is for different parameter")
    else
      var r := Mismatch(ps[1..], mat, param);
      assert forall i :: 1 <= i < |ps| ==> ps[i] == ps[1..][i - 1];
      r
  }

  /** The ids of `ps`. */
  function IdSet(ps: seq<EvidencePoint>): (r: set<string>)
    ensures |r| <= |ps|
    decreases |ps|
  {
    if |ps| == 0 then {} else {ps[0].id} + IdSet(ps[1..])
  }

  /** An id is in `IdSet(ps)` exactly when some point of `ps` has it. */
  lemma {:induction false} IdSetMembers(ps: seq<EvidencePoint>, x: string)
    ensures x in IdSet(ps) <==> exists i :: 0 <= i < |ps| && ps[i].id == x
    decreases |ps|
  {
    if |ps| > 0 {
      IdSetMembers(ps[1..], x);
      if x in IdSet(ps[1..]) {
        var j :| 0 <= j < |ps[1..]| && ps[1..][j].id == x;
        assert ps[j + 1].id == x;
      }
      if exists i :: 0 <= i < |ps| && ps[i].id == x {
        var i :| 0 <= i < |ps| && ps[i].id == x;
        if i > 0 {
          assert ps[1..][i - 1].id == x;
        }
      }
    }
  }

  /** `weights_used`: point id to source weight; a later point with the same
      id overwrites an earlier one. */
  function WeightsUsed(ps: seq<EvidencePoint>): (r: map<string, real>)
    ensures r.Keys == IdSet(ps)
    decreases |ps|
  {
    if |ps| == 0 then map[] else map[ps[0].id := ps[0].sourceWeight] + WeightsUsed(ps[1..])
  }

  /** Each id maps to the weight of its last occurrence. */
  lemma {:induction false} WeightsUsedLastWins(ps: seq<EvidencePoint>, i: nat)
    requires i < |ps|
    requires forall j :: i < j < |ps| ==> ps[j].id != ps[i].id
    ensures ps[i].id in WeightsUsed(ps) && WeightsUsed(ps)[ps[i].id] == ps[i].sourceWeight
    decreases |ps|
  {
    var rest := ps[1..];
    if i == 0 {
      IdSetMembers(rest, ps[0].id);
    } else {
      assert rest[i - 1] == ps[i];
      assert forall j :: i - 1 < j < |rest| ==> rest[j] == ps[j + 1];
      WeightsUsedLastWins(rest, i - 1);
    }
  }

  /** Every id maps to the weight of its last occurrence. */
  lemma WeightsUsedLastWinsAll(ps: seq<EvidencePoint>)
    ensures forall i :: 0 <= i < |ps| && (forall j :: i < j < |ps| ==> ps[j].id != ps[i].id) ==>
      ps[i].id in WeightsUsed(ps) && WeightsUsed(ps)[ps[i].id] == ps[i].sourceWeight
  {
    forall i | 0 <= i < |ps| && (forall j :: i < j < |ps| ==> ps[j].id != ps[i].id)
      ensures ps[i].id in WeightsUsed(ps) && WeightsUsed(ps)[ps[i].id] == ps[i].sourceWeight
    {
      WeightsUsedLastWins(ps, i);
    }
  }

  /** The record of a superseded aggregation. */
  function Superseded(a: Aggregation, now: Time, successor: string): (r: Aggregation)
    ensures !r.isCurrent && r.supersededAt == Some(now) && r.supersededBy == Some(successor)
    ensures r.(isCurrent := a.isCurrent, supersededAt := a.supersededAt, supersededBy := a.supersededBy) == a
  {
    a.(isCurrent := false, supersededAt := Some(now), supersededBy := Some(successor))
  }

  /** The aggregation `current` names, if it names a stored one: the lookup
      happens only when the stored id is truthy (a non-empty string). */
  function CurrentTarget(store: Store, mat: string, param: string): (r: Option<string>)
    ensures r.Some? ==> && CurrentKey(mat, param) in store && store[CurrentKey(mat, param)] == Ref(r.value)
                        && r.value != "" && AggregationKey(r.value) in store && store[AggregationKey(r.value)].Agg?
  {
    var ck := CurrentKey(mat, param);
    if ck in store && store[ck].Ref? && store[ck].id != ""
       && AggregationKey(store[ck].id) in store && store[AggregationKey(store[ck].id)].Agg?
    then Some(store[ck].id) else None
  }

  /** The writes of `createAggregation`, in order: the new record, the
      supersession of the aggregation the current pointer names (read after the first
      write), the pointer, and the history entry. */
  function Publish(store: Store, a: Aggregation, now: Time): (s: Store)
    ensures s.Keys == store.Keys + {AggregationKey(a.id), CurrentKey(a.materialId, a.parameter),
                                    HistoryKey(a.materialId, a.parameter, a.id)}
    ensures var ck := CurrentKey(a.materialId, a.parameter);
      && s[ck] == Ref(a.id)
      && s[HistoryKey(a.materialId, a.parameter, a.id)] == Ref(a.id)
      && ((ck !in store || store[ck] != Ref(a.id)) ==> s[AggregationKey(a.id)] == Agg(a))
      && (forall x :: CurrentTarget(store, a.materialId, a.parameter) == Some(x) && x != a.id ==>
            s[AggregationKey(x)] == Agg(Superseded(store[AggregationKey(x)].a, now, a.id)))
    ensures forall k :: k in store && k != AggregationKey(a.id) && k != CurrentKey(a.materialId, a.parameter)
                        && k != HistoryKey(a.materialId, a.parameter, a.id)
                        && (forall x :: CurrentTarget(store, a.materialId, a.parameter) == Some(x) ==> k != AggregationKey(x))
                        ==> s[k] == store[k]
  {
    var ck := CurrentKey(a.materialId, a.parameter);
    var hk := HistoryKey(a.materialId, a.parameter, a.id);
    var s1 := store[AggregationKey(a.id) := Agg(a)];
    TargetAfterWrite(store, Agg(a), a.id, a.materialId, a.parameter);
    HistoryNotCurrent(a.materialId, a.parameter, a.id);
    AggregationKeyFamilies(a.id, a.materialId, a.parameter, a.materialId, a.parameter, a.id);
    var t := CurrentTarget(s1, a.materialId, a.parameter);
    assert t.Some? ==> AggregationKey(t.value) != ck && AggregationKey(t.value) != hk by {
      if t.Some? {
        AggregationKeyFamilies(t.value, a.materialId, a.parameter, a.materialId, a.parameter, a.id);
      }
    }
    assert t.Some? && t.value != a.id ==> AggregationKey(t.value) != AggregationKey(a.id) by {
      if t.Some? && t.value != a.id {
        AggKeysDiffer(t.value, a.id);
      }
    }
    assert t.Some? && t.value != a.id ==> CurrentTarget(store, a.materialId, a.parameter) == t by {
      if t.Some? && t.value != a.id {
        AggKeysDiffer(t.value, a.id);
      }
    }
    var s2 := match t
              case Some(x) => s1[AggregationKey(x) := Agg(Superseded(s1[AggregationKey(x)].a, now, a.id))]
              case None => s1;
    s2[ck := Ref(a.id)][hk := Ref(a.id)]
  }

  /** `createAggregation` with the generated id and the clock as inputs:
      fails when no listed point exists, when a point belongs to another
      material or parameter, or when the parameter is unknown; otherwise
      builds the record and publishes it. */
  function CreateAggregation(store: Store, input: AggInput, aggId: string, now: Time,
                             sqrt: real -> real): (r: Result<Created>)
    ensures r.Err? <==>
      || FetchPoints(store, input.miuIds) == []
      || Mismatch(FetchPoints(store, input.miuIds), input.materialId, input.parameter).Some?
      || Evidence.ParameterDimension(input.parameter).Err?
    ensures r.Ok? ==>
      var a := r.value.aggregation;
      var ps := FetchPoints(store, input.miuIds);
      && a.id == aggId && a.materialId == input.materialId && a.parameter == input.parameter
      && Ok(a.dimension) == Evidence.ParameterDimension(input.parameter)
      && a.nMius == |ps| && a.miuIds == input.miuIds
      && WeightedMean(ps, sqrt) == Ok(MeanStats(a.mean, a.se, a.ciLower, a.ciUpper))
      && a.weightsUsed == WeightsUsed(ps) && a.weightsUsed.Keys == IdSet(ps)
      && (forall i :: 0 <= i < |ps| && (forall j :: i < j < |ps| ==> ps[j].id != ps[i].id) ==>
            ps[i].id in a.weightsUsed && a.weightsUsed[ps[i].id] == ps[i].sourceWeight)
      && a.transformVersion == ps[0].transformVersion
      && a.qualityThreshold == input.qualityThreshold.GetOr(0.0) && a.minSources == input.minSources.GetOr(1)
      && a.calculatedAt == now && a.isCurrent && a.supersededAt.None? && a.supersededBy.None?
      && (forall i :: 0 <= i < |ps| ==> ps[i].materialId == input.materialId && ps[i].parameterCode == input.parameter)
      && r.value.store == Publish(store, a, now)
  {
    var ps := FetchPoints(store, input.miuIds);
    if ps == [] then Err("No valid evidence points found")
    else match Mismatch(ps, input.materialId, input.parameter)
    case Some(msg) => Err(msg)
    case None =>
      var stats := WeightedMean(ps, sqrt).value;
      WeightsUsedLastWinsAll(ps);
      match Evidence.ParameterDimension(input.parameter)
      case Err(msg) => Err(msg)
      case Ok(dim) =>
        var a := Aggregation(aggId, input.materialId, input.parameter, dim,
                             stats.mean, stats.se, stats.ciLower, stats.ciUpper,
                             |ps|, input.miuIds, WeightsUsed(ps), ps[0].transformVersion, "1.0", "1.0",
                             input.qualityThreshold.GetOr(0.0), input.minSources.GetOr(1),
                             input.calculatedBy, now, true, None, None);
        Ok(Created(Publish(store, a, now), a))
  }

  /** Writing the new record before reading the pointer changes what the
      pointer names only when it already named the new id. */
  lemma TargetAfterWrite(store: Store, v: Value, aggId: string, m: string, p: string)
    requires v.Agg?
    ensures var ck := CurrentKey(m, p);
      (ck !in store || store[ck] != Ref(aggId)) ==>
        CurrentTarget(store[AggregationKey(aggId) := v], m, p) != Some(aggId)
    ensures forall x :: CurrentTarget(store, m, p) == Some(x) && x != aggId ==>
      CurrentTarget(store[AggregationKey(aggId) := v], m, p) == Some(x)
  {
    var ck := CurrentKey(m, p);
    AggregationKeyFamilies(aggId, m, p, m, p, aggId);
    if ck in store && store[ck].Ref? && store[ck].id != aggId {
      AggKeysDiffer(store[ck].id, aggId);
    }
  }

  lemma HistoryNotCurrent(m: string, p: string, id: string)
    ensures HistoryKey(m, p, id) != CurrentKey(m, p)
    ensures HistoryKey(m, p, id) != AggregationKey(id)
  {
    assert HistoryKey(m, p, id)[12] == 'h';
    assert CurrentKey(m, p)[12] == 'c';
    assert AggregationKey(id)[11] == ':';
  }

  /** The three aggregation key families never collide. */
  lemma AggregationKeyFamilies(x: string, m: string, p: string, m2: string, p2: string, h: string)
    ensures AggregationKey(x) != CurrentKey(m, p)
    ensures AggregationKey(x) != HistoryKey(m2, p2, h)
    ensures CurrentKey(m, p) != HistoryKey(m2, p2, h)
  {
    assert AggregationKey(x)[11] == ':';
    assert CurrentKey(m, p)[11] == '_' && CurrentKey(m, p)[12] == 'c';
    assert HistoryKey(m2, p2, h)[11] == '_' && HistoryKey(m2, p2, h)[12] == 'h';
  }

  // ---------------------------------------------------------------------
  // The "one current aggregation per material and parameter" invariant
  // ---------------------------------------------------------------------

  /** Aggregation records sit under their own, non-empty id, and their
      parameter codes are colon-free (so pointer keys split back apart). */
  ghost predicate AggsKeyed(s: Store) {
    forall id :: AggregationKey(id) in s && s[AggregationKey(id)].Agg? ==>
      s[AggregationKey(id)].a.id == id && id != "" && ':' !in s[AggregationKey(id)].a.parameter
  }

  /** Every current aggregation is the one its material+parameter pointer
      names. */
  ghost predicate CurrentsPointed(s: Store) {
    forall id :: AggregationKey(id) in s && s[AggregationKey(id)].Agg? && s[AggregationKey(id)].a.isCurrent ==>
      var a := s[AggregationKey(id)].a;
      CurrentKey(a.materialId, a.parameter) in s && s[CurrentKey(a.materialId, a.parameter)] == Ref(id)
  }

  /** Every pointer names a stored, current aggregation whose own pointer
      key it is. */
  ghost predicate PointersResolve(s: Store) {
    forall m, p :: CurrentKey(m, p) in s ==>
      && s[CurrentKey(m, p)].Ref? && AggregationKey(s[CurrentKey(m, p)].id) in s
      && s[AggregationKey(s[CurrentKey(m, p)].id)].Agg?
      && s[AggregationKey(s[CurrentKey(m, p)].id)].a.isCurrent
      && CurrentKey(s[AggregationKey(s[CurrentKey(m, p)].id)].a.materialId,
                    s[AggregationKey(s[CurrentKey(m, p)].id)].a.parameter) == CurrentKey(m, p)
  }

  ghost predicate AggInvariant(s: Store) {
    AggsKeyed(s) && CurrentsPointed(s) && PointersResolve(s)
  }

  lemma EmptyStoreAggInvariant()
    ensures AggInvariant(map[])
  {
  }

  /** At most one aggregation is current for a material and parameter. */
  lemma AtMostOneCurrent(s: Store, i: string, j: string)
    requires AggInvariant(s)
    requires AggregationKey(i) in s && s[AggregationKey(i)].Agg? && s[AggregationKey(i)].a.isCurrent
    requires AggregationKey(j) in s && s[AggregationKey(j)].Agg? && s[AggregationKey(j)].a.isCurrent
    requires s[AggregationKey(i)].a.materialId == s[AggregationKey(j)].a.materialId
    requires s[AggregationKey(i)].a.parameter == s[AggregationKey(j)].a.parameter
    ensures i == j
  {
  }

  lemma AggKeysDiffer(x: string, y: string)
    requires x != y
    ensures AggregationKey(x) != AggregationKey(y)
  {
    assert AggregationKey(x)[12..] == x;
    assert AggregationKey(y)[12..] == y;
  }

  /** The store after creation, as a function of its parts. */
  function AfterCreate(store: Store, a: Aggregation, aggId: string, t: Option<string>, now: Time,
                       ck: string, hk: string): Store
    requires t.Some? ==> AggregationKey(t.value) in store && store[AggregationKey(t.value)].Agg? && t.value != aggId
  {
    var s1 := store[AggregationKey(aggId) := Agg(a)];
    var s2 := match t
              case Some(x) => s1[AggregationKey(x) := Agg(Superseded(store[AggregationKey(x)].a, now, aggId))]
              case None => s1;
    s2[ck := Ref(aggId)][hk := Ref(aggId)]
  }

  /** Creating an aggregation under a fresh id keeps the invariant: the
      previous current aggregation of that material and parameter is
      superseded and the pointer moves to the new one. */
  lemma CreatePreservesCurrent(store: Store, input: AggInput, aggId: string, now: Time, sqrt: real -> real)
    requires AggInvariant(store)
    requires aggId != "" && AggregationKey(aggId) !in store
    requires CreateAggregation(store, input, aggId, now, sqrt).Ok?
    ensures AggInvariant(CreateAggregation(store, input, aggId, now, sqrt).value.store)
  {
    var c := CreateAggregation(store, input, aggId, now, sqrt).value;
    var a := c.aggregation;
    var m := input.materialId;
    var p := input.parameter;
    var ck := CurrentKey(m, p);
    var hk := HistoryKey(m, p, aggId);
    var ak := AggregationKey(aggId);
    var s1 := store[ak := Agg(a)];
    var t := CurrentTarget(store, m, p);
    AggregationKeyFamilies(aggId, m, p, m, p, aggId);
    SameTarget(store, a, aggId, m, p);
    if t.Some? {
      AggKeysDiffer(t.value, aggId);
    }
    assert c.store == AfterCreate(store, a, aggId, t, now, ck, hk);
    assert ':' !in p by {
      Evidence.ParameterGroupsDisjoint();
      assert p in Evidence.AllParams;
    }
    CreateKeepsKeyed(store, a, aggId, t, now, ck, hk);
    CreateKeepsPointed(store, a, aggId, t, now, ck, hk);
    CreateKeepsResolving(store, a, aggId, t, now, ck, hk);
  }

  /** Writing the new record first does not change what the current pointer names,
      since the pointer cannot name a fresh id. */
  lemma SameTarget(store: Store, a: Aggregation, aggId: string, m: string, p: string)
    requires PointersResolve(store) && AggregationKey(aggId) !in store
    ensures CurrentTarget(store[AggregationKey(aggId) := Agg(a)], m, p) == CurrentTarget(store, m, p)
    ensures CurrentTarget(store, m, p).Some? ==> CurrentTarget(store, m, p).value != aggId
  {
    var ck := CurrentKey(m, p);
    AggregationKeyFamilies(aggId, m, p, m, p, aggId);
    if ck in store {
      var x := store[ck].id;
      if x != aggId {
        AggKeysDiffer(x, aggId);
      }
    }
  }

  lemma CreateKeepsKeyed(store: Store, a: Aggregation, aggId: string, t: Option<string>, now: Time,
                         ck: string, hk: string)
    requires AggsKeyed(store) && a.id == aggId && aggId != "" && ':' !in a.parameter
    requires ck == CurrentKey(a.materialId, a.parameter) && hk == HistoryKey(a.materialId, a.parameter, aggId)
    requires t.Some? ==> AggregationKey(t.value) in store && store[AggregationKey(t.value)].Agg? && t.value != aggId
    ensures AggsKeyed(AfterCreate(store, a, aggId, t, now, ck, hk))
  {
    var s := AfterCreate(store, a, aggId, t, now, ck, hk);
    forall id | AggregationKey(id) in s && s[AggregationKey(id)].Agg?
      ensures s[AggregationKey(id)].a.id == id && id != "" && ':' !in s[AggregationKey(id)].a.parameter
    {
      AggregationKeyFamilies(id, a.materialId, a.parameter, a.materialId, a.parameter, aggId);
      if id != aggId {
        AggKeysDiffer(id, aggId);
      }
      if t.Some? && id != t.value {
        AggKeysDiffer(id, t.value);
      }
    }
  }

  lemma CreateKeepsPointed(store: Store, a: Aggregation, aggId: string, t: Option<string>, now: Time,
                           ck: string, hk: string)
    requires AggsKeyed(store) && CurrentsPointed(store) && a.id == aggId && aggId != "" && a.isCurrent
    requires ck == CurrentKey(a.materialId, a.parameter) && hk == HistoryKey(a.materialId, a.parameter, aggId)
    requires t == CurrentTarget(store, a.materialId, a.parameter)
    requires t.Some? ==> t.value != aggId
    ensures CurrentsPointed(AfterCreate(store, a, aggId, t, now, ck, hk))
  {
    var s := AfterCreate(store, a, aggId, t, now, ck, hk);
    forall id | AggregationKey(id) in s && s[AggregationKey(id)].Agg? && s[AggregationKey(id)].a.isCurrent
      ensures var b := s[AggregationKey(id)].a;
        CurrentKey(b.materialId, b.parameter) in s && s[CurrentKey(b.materialId, b.parameter)] == Ref(id)
    {
      OtherCurrentStillPointed(store, a, aggId, t, now, ck, hk, id);
    }
  }

  lemma OtherCurrentStillPointed(store: Store, a: Aggregation, aggId: string, t: Option<string>, now: Time,
                                 ck: string, hk: string, id: string)
    requires AggsKeyed(store) && CurrentsPointed(store) && a.id == aggId && aggId != "" && a.isCurrent
    requires ck == CurrentKey(a.materialId, a.parameter) && hk == HistoryKey(a.materialId, a.parameter, aggId)
    requires t == CurrentTarget(store, a.materialId, a.parameter)
    requires t.Some? ==> t.value != aggId
    requires var s := AfterCreate(store, a, aggId, t, now, ck, hk);
      AggregationKey(id) in s && s[AggregationKey(id)].Agg? && s[AggregationKey(id)].a.isCurrent
    ensures var s := AfterCreate(store, a, aggId, t, now, ck, hk);
      var b := s[AggregationKey(id)].a;
      CurrentKey(b.materialId, b.parameter) in s && s[CurrentKey(b.materialId, b.parameter)] == Ref(id)
  {
    var s := AfterCreate(store, a, aggId, t, now, ck, hk);
    var b := s[AggregationKey(id)].a;
    AggregationKeyFamilies(id, a.materialId, a.parameter, a.materialId, a.parameter, aggId);
    AggregationKeyFamilies(id, b.materialId, b.parameter, a.materialId, a.parameter, aggId);
    AggregationKeyFamilies(aggId, b.materialId, b.parameter, a.materialId, a.parameter, aggId);
    if id != aggId {
      AggKeysDiffer(id, aggId);
      if t.Some? && id != t.value {
        AggKeysDiffer(id, t.value);
      }
      var bk := CurrentKey(b.materialId, b.parameter);
      if t.Some? {
        AggregationKeyFamilies(t.value, b.materialId, b.parameter, a.materialId, a.parameter, aggId);
      }
      if bk == ck {
        assert false;
      }
    }
  }

  lemma CreateKeepsResolving(store: Store, a: Aggregation, aggId: string, t: Option<string>, now: Time,
                             ck: string, hk: string)
    requires PointersResolve(store) && a.id == aggId && a.isCurrent && AggregationKey(aggId) !in store
    requires ck == CurrentKey(a.materialId, a.parameter) && hk == HistoryKey(a.materialId, a.parameter, aggId)
    requires t == CurrentTarget(store, a.materialId, a.parameter)
    requires t.Some? ==> t.value != aggId
    ensures PointersResolve(AfterCreate(store, a, aggId, t, now, ck, hk))
  {
    var s := AfterCreate(store, a, aggId, t, now, ck, hk);
    forall m, p | CurrentKey(m, p) in s
      ensures && s[CurrentKey(m, p)].Ref? && AggregationKey(s[CurrentKey(m, p)].id) in s
              && s[AggregationKey(s[CurrentKey(m, p)].id)].Agg?
              && s[AggregationKey(s[CurrentKey(m, p)].id)].a.isCurrent
              && CurrentKey(s[AggregationKey(s[CurrentKey(m, p)].id)].a.materialId,
                            s[AggregationKey(s[CurrentKey(m, p)].id)].a.parameter) == CurrentKey(m, p)
    {
      PointerStillResolves(store, a, aggId, t, now, ck, hk, m, p);
    }
  }

  lemma PointerStillResolves(store: Store, a: Aggregation, aggId: string, t: Option<string>, now: Time,
                             ck: string, hk: string, m: string, p: string)
    requires PointersResolve(store) && a.id == aggId && a.isCurrent && AggregationKey(aggId) !in store
    requires ck == CurrentKey(a.materialId, a.parameter) && hk == HistoryKey(a.materialId, a.parameter, aggId)
    requires t == CurrentTarget(store, a.materialId, a.parameter)
    requires t.Some? ==> t.value != aggId
    requires CurrentKey(m, p) in AfterCreate(store, a, aggId, t, now, ck, hk)
    ensures var s := AfterCreate(store, a, aggId, t, now, ck, hk);
      && s[CurrentKey(m, p)].Ref? && AggregationKey(s[CurrentKey(m, p)].id) in s
      && s[AggregationKey(s[CurrentKey(m, p)].id)].Agg?
      && s[AggregationKey(s[CurrentKey(m, p)].id)].a.isCurrent
      && CurrentKey(s[AggregationKey(s[CurrentKey(m, p)].id)].a.materialId,
                    s[AggregationKey(s[CurrentKey(m, p)].id)].a.parameter) == CurrentKey(m, p)
  {
    var s := AfterCreate(store, a, aggId, t, now, ck, hk);
    var k := CurrentKey(m, p);
    AggregationKeyFamilies(aggId, m, p, a.materialId, a.parameter, aggId);
    if t.Some? {
      AggregationKeyFamilies(t.value, m, p, a.materialId, a.parameter, aggId);
      AggKeysDiffer(t.value, aggId);
    }
    if k != ck {
      var x := store[k].id;
      AggregationKeyFamilies(x, m, p, a.materialId, a.parameter, aggId);
      if x != aggId {
        AggKeysDiffer(x, aggId);
      }
      if t.Some? && x != t.value {
        AggKeysDiffer(x, t.value);
      }
    }
  }

  // ---------------------------------------------------------------------
  // Queries
  // ---------------------------------------------------------------------

  /** `kv.get('aggregation:' + ref.value)`. */
  function ResolveAgg(store: Store, v: Value): (r: Option<Aggregation>)
    ensures r.Some? <==> v.Ref? && AggregationKey(v.id) in store && store[AggregationKey(v.id)].Agg?
    ensures r.Some? ==> store[AggregationKey(v.id)] == Agg(r.value)
  {
    if v.Ref? && AggregationKey(v.id) in store && store[AggregationKey(v.id)].Agg?
    then Some(store[AggregationKey(v.id)].a) else None
  }

  /** `pointers.map(ref => kv.get('aggregation:' + ref.value))`: one fetch
      per row, in row order, null where no aggregation is stored. */
  function FetchedAggs(store: Store, rows: seq<Entry>): seq<Option<Aggregation>> {
    Seqs.Map((e: Entry) => ResolveAgg(store, e.value), rows)
  }

  /** The `filter(a => a !== null)` test. */
  function Found(o: Option<Aggregation>): bool {
    o.Some?
  }

  /** Aggregations seen as fetched (non-null) values. */
  function WrappedAggs(aggs: seq<Aggregation>): seq<Option<Aggregation>> {
    Seqs.Map((a: Aggregation) => Some(a), aggs)
  }

  lemma WrappedAggsConcat(a: seq<Aggregation>, b: seq<Aggregation>)
    ensures WrappedAggs(a + b) == WrappedAggs(a) + WrappedAggs(b)
  {
  }

  /** Fetch the aggregation behind every row and drop the nulls: the
      aggregations come back in row order, once per row that resolves. */
  function ResolveAggs(store: Store, rows: seq<Entry>): (r: seq<Aggregation>)
    ensures |r| <= |rows|
    ensures forall a :: a in r <==> exists e :: e in rows && ResolveAgg(store, e.value) == Some(a)
    ensures WrappedAggs(r) == Seqs.Filter(Found, FetchedAggs(store, rows))
    decreases |rows|
  {
    if |rows| == 0 then []
    else
      var rest := ResolveAggs(store, rows[1..]);
      assert forall e :: e in rows ==> e == rows[0] || e in rows[1..];
      assert FetchedAggs(store, rows)[1..] == FetchedAggs(store, rows[1..]);
      match ResolveAgg(store, rows[0].value)
      case Some(a) =>
        WrappedAggsConcat([a], rest);
        [a] + rest
      case None => rest
  }

  /** The prefix `getCurrentAggregationsByMaterial` scans, as written: with
      a parameter it has no closing ':'. */
  function CurrentPrefixAsWritten(mat: string, param: Option<string>): string {
    if param.Some? && param.value != "" then "aggregation_current:" + mat + ":" + param.value
    else "aggregation_current:" + mat + ":"
  }

  /** `getCurrentAggregationsByMaterial` as written: every pointer whose key
      starts with the prefix, resolved. */
  function CurrentByMaterialAsWritten(store: Store, order: seq<string>, mat: string,
                                      param: Option<string>): (r: seq<Aggregation>)
    requires Lists(order, store)
    ensures forall a :: a in r <==>
      exists e :: e in GetByPrefix(store, order, CurrentPrefixAsWritten(mat, param)) && ResolveAgg(store, e.value) == Some(a)
    ensures WrappedAggs(r) == Seqs.Filter(Found, FetchedAggs(store, GetByPrefix(store, order, CurrentPrefixAsWritten(mat, param))))
  {
    ResolveAggs(store, GetByPrefix(store, order, CurrentPrefixAsWritten(mat, param)))
  }

  /** The discrepancy: asking for parameter `C` also returns the current
      aggregation of parameter `C_RU`, whose pointer key extends the
      prefix. */
  lemma CurrentQueryOvermatches(store: Store, order: seq<string>, mat: string, x: string)
    requires Lists(order, store)
    requires CurrentKey(mat, "C_RU") in store && store[CurrentKey(mat, "C_RU")] == Ref(x)
    requires AggregationKey(x) in store && store[AggregationKey(x)].Agg?
    requires store[AggregationKey(x)].a.parameter == "C_RU"
    ensures store[AggregationKey(x)].a in CurrentByMaterialAsWritten(store, order, mat, Some("C"))
    ensures store[AggregationKey(x)].a.parameter != "C"
  {
    var k := CurrentKey(mat, "C_RU");
    var pre := CurrentPrefixAsWritten(mat, Some("C"));
    assert k == pre + "_RU";
    assert StartsWith(k, pre);
    assert k in order;
    assert Entry(k, store[k]) in GetByPrefix(store, order, pre);
  }

  /** `getCurrentAggregationsByMaterial` as intended: with a parameter, the
      one aggregation its pointer names; without, every pointer of the
      material. */
  function CurrentByMaterial(store: Store, order: seq<string>, mat: string,
                             param: Option<string>): (r: seq<Aggregation>)
    requires Lists(order, store)
    ensures param.Some? && param.value != "" ==>
      r == (if CurrentKey(mat, param.value) in store && ResolveAgg(store, store[CurrentKey(mat, param.value)]).Some?
            then [ResolveAgg(store, store[CurrentKey(mat, param.value)]).value] else [])
    ensures (param.None? || param.value == "") ==> r == CurrentByMaterialAsWritten(store, order, mat, param)
  {
    if param.Some? && param.value != "" then
      var ck := CurrentKey(mat, param.value);
      if ck in store then
        match ResolveAgg(store, store[ck])
        case Some(a) => [a]
        case None => []
      else []
    else CurrentByMaterialAsWritten(store, order, mat, param)
  }

  /** Under the invariant, the corrected query for a colon-free parameter
      returns at most the one current aggregation of that material and
      parameter, and returns it whenever there is one. */
  lemma CurrentQueryExact(store: Store, order: seq<string>, mat: string, param: string)
    requires AggInvariant(store) && Lists(order, store)
    requires param != "" && ':' !in param
    ensures var r := CurrentByMaterial(store, order, mat, Some(param));
      && |r| <= 1
      && (forall a :: a in r ==> a.isCurrent && a.materialId == mat && a.parameter == param)
      && (forall id :: AggregationKey(id) in store && store[AggregationKey(id)].Agg?
            && store[AggregationKey(id)].a.isCurrent
            && store[AggregationKey(id)].a.materialId == mat && store[AggregationKey(id)].a.parameter == param
            ==> r == [store[AggregationKey(id)].a])
  {
    var ck := CurrentKey(mat, param);
    if ck in store {
      var a := store[AggregationKey(store[ck].id)].a;
      assert CurrentKey(a.materialId, a.parameter) == ck;
      CurrentKeyInjective(a.materialId, a.parameter, mat, param);
    }
  }

  /** After publishing a record whose id the pointer did not already name,
      the corrected query for its material and parameter returns exactly
      that record. */
  lemma PublishedIsCurrent(store: Store, a: Aggregation, now: Time, order: seq<string>)
    requires a.parameter != ""
    requires CurrentKey(a.materialId, a.parameter) in store ==> store[CurrentKey(a.materialId, a.parameter)] != Ref(a.id)
    requires Lists(order, Publish(store, a, now))
    ensures CurrentByMaterial(Publish(store, a, now), order, a.materialId, Some(a.parameter)) == [a]
  {
  }

  /** A fresh id cannot already be what a pointer names. */
  lemma FreshIdUnpointed(store: Store, aggId: string, m: string, p: string)
    requires AggregationKey(aggId) !in store && PointersResolve(store)
    ensures CurrentKey(m, p) in store ==> store[CurrentKey(m, p)] != Ref(aggId)
  {
  }

  /** Every known parameter code is non-empty. */
  lemma NonEmptyParameter(code: string)
    ensures Evidence.ParameterDimension(code).Ok? ==> code != ""
  {
  }

  /** After a creation under a fresh id the corrected query for that
      material and parameter returns exactly the new aggregation. */
  lemma CreatedIsCurrent(store: Store, input: AggInput, aggId: string, now: Time, sqrt: real -> real,
                         order: seq<string>)
    requires AggregationKey(aggId) !in store && PointersResolve(store)
    requires CreateAggregation(store, input, aggId, now, sqrt).Ok?
    requires Lists(order, CreateAggregation(store, input, aggId, now, sqrt).value.store)
    ensures var c := CreateAggregation(store, input, aggId, now, sqrt).value;
      CurrentByMaterial(c.store, order, input.materialId, Some(input.parameter)) == [c.aggregation]
  {
    var c := CreateAggregation(store, input, aggId, now, sqrt).value;
    NonEmptyParameter(input.parameter);
    FreshIdUnpointed(store, aggId, input.materialId, input.parameter);
    PublishedIsCurrent(store, c.aggregation, now, order);
  }

  // ---------------------------------------------------------------------
  // History
  // ---------------------------------------------------------------------

  /** Newest first by calculation time. */
  predicate NewestFirst(s: seq<Aggregation>) {
    forall i, j :: 0 <= i < j < |s| ==> s[i].calculatedAt >= s[j].calculatedAt
  }

  /** Insert `x` before the first element not newer than it. */
  function InsertByTime(x: Aggregation, s: seq<Aggregation>): (r: seq<Aggregation>)
    requires NewestFirst(s)
    ensures NewestFirst(r)
    ensures multiset(r) == multiset(s) + multiset{x}
    ensures |r| == |s| + 1
    decreases |s|
  {
    if |s| == 0 then [x]
    else if s[0].calculatedAt <= x.calculatedAt then [x] + s
    else
      var rest := InsertByTime(x, s[1..]);
      assert s == [s[0]] + s[1..];
      HeadNewest(s[0], rest, s[1..], x);
      [s[0]] + rest
  }

  /** An element no older than every element of `t` and than `x` can head
      any arrangement of `t` and `x`. */
  lemma HeadNewest(h: Aggregation, r: seq<Aggregation>, t: seq<Aggregation>, x: Aggregation)
    requires NewestFirst(r) && multiset(r) == multiset(t) + multiset{x}
    requires x.calculatedAt <= h.calculatedAt
    requires forall i :: 0 <= i < |t| ==> t[i].calculatedAt <= h.calculatedAt
    ensures NewestFirst([h] + r)
  {
    forall j | 0 <= j < |r| ensures r[j].calculatedAt <= h.calculatedAt {
      assert r[j] in multiset(r);
      if r[j] != x {
        assert r[j] in multiset(t);
      }
    }
  }

  /** The sort of `getAggregationHistory` (a stable sort, newest first). */
  function SortNewestFirst(s: seq<Aggregation>): (r: seq<Aggregation>)
    ensures NewestFirst(r)
    ensures multiset(r) == multiset(s)
    ensures |r| == |s|
    decreases |s|
  {
    if |s| == 0 then []
    else
      assert s == [s[0]] + s[1..];
      InsertByTime(s[0], SortNewestFirst(s[1..]))
  }

  lemma SameMembers(r: seq<Aggregation>, s: seq<Aggregation>)
    requires multiset(r) == multiset(s)
    ensures forall a :: a in r <==> a in s
  {
    forall a ensures a in r <==> a in s {
      assert a in r <==> a in multiset(r);
      assert a in s <==> a in multiset(s);
    }
  }

  function HistoryPrefix(mat: string, param: string): string {
    "aggregation_history:" + mat + ":" + param + ":"
  }

  /** `getAggregationHistory`: every aggregation the history of a material
      and parameter names, newest first. */
  function History(store: Store, order: seq<string>, mat: string, param: string): (r: seq<Aggregation>)
    requires Lists(order, store)
    ensures NewestFirst(r)
    ensures multiset(r) == multiset(ResolveAggs(store, GetByPrefix(store, order, HistoryPrefix(mat, param))))
    ensures forall a :: a in r <==>
      exists e :: e in GetByPrefix(store, order, HistoryPrefix(mat, param)) && ResolveAgg(store, e.value) == Some(a)
  {
    var found := ResolveAggs(store, GetByPrefix(store, order, HistoryPrefix(mat, param)));
    var r := SortNewestFirst(found);
    SameMembers(r, found);
    r
  }

  /** A published record whose id the pointer did not already name is in
      the history of its material and parameter. */
  lemma PublishedInHistory(store: Store, a: Aggregation, now: Time, order: seq<string>)
    requires CurrentKey(a.materialId, a.parameter) in store ==> store[CurrentKey(a.materialId, a.parameter)] != Ref(a.id)
    requires Lists(order, Publish(store, a, now))
    ensures a in History(Publish(store, a, now), order, a.materialId, a.parameter)
  {
    var s := Publish(store, a, now);
    var hk := HistoryKey(a.materialId, a.parameter, a.id);
    var pre := HistoryPrefix(a.materialId, a.parameter);
    assert hk == pre + a.id;
    assert StartsWith(hk, pre);
    assert Entry(hk, s[hk]) in GetByPrefix(s, order, pre);
  }

  /** A created aggregation is in the history of its material and
      parameter. */
  lemma CreatedInHistory(store: Store, input: AggInput, aggId: string, now: Time, sqrt: real -> real,
                         order: seq<string>)
    requires AggregationKey(aggId) !in store && PointersResolve(store)
    requires CreateAggregation(store, input, aggId, now, sqrt).Ok?
    requires Lists(order, CreateAggregation(store, input, aggId, now, sqrt).value.store)
    ensures var c := CreateAggregation(store, input, aggId, now, sqrt).value;
      c.aggregation in History(c.store, order, input.materialId, input.parameter)
  {
    var c := CreateAggregation(store, input, aggId, now, sqrt).value;
    FreshIdUnpointed(store, aggId, input.materialId, input.parameter);
    PublishedInHistory(store, c.aggregation, now, order);
  }

  // ---------------------------------------------------------------------
  // Statistics
  // ---------------------------------------------------------------------

  /** `AggregationStats`. */
  datatype AggStats = AggStats(
    materialId: string,
    totalParameters: nat,
    parametersWithAggregations: seq<string>,
    totalMiusUsed: int,
    lastCalculatedAt: Option<Time>)

  function SumMius(aggs: seq<Aggregation>): int
    decreases |aggs|
  {
    if |aggs| == 0 then 0 else aggs[0].nMius + SumMius(aggs[1..])
  }

  function Parameters(aggs: seq<Aggregation>): (r: seq<string>)
    ensures |r| == |aggs|
    ensures forall i :: 0 <= i < |aggs| ==> r[i] == aggs[i].parameter
    decreases |aggs|
  {
    if |aggs| == 0 then [] else [aggs[0].parameter] + Parameters(aggs[1..])
  }

  /** The statistics over a list of current aggregations: the latest
      calculation time is the newest of them. */
  function StatsOf(mat: string, aggs: seq<Aggregation>): (r: AggStats)
    ensures r.totalParameters == |aggs| == |r.parametersWithAggregations|
    ensures forall i :: 0 <= i < |aggs| ==> r.parametersWithAggregations[i] == aggs[i].parameter
    ensures r.lastCalculatedAt.None? <==> aggs == []
    ensures r.lastCalculatedAt.Some? ==>
      (forall a :: a in aggs ==> a.calculatedAt <= r.lastCalculatedAt.value)
      && (exists a :: a in aggs && a.calculatedAt == r.lastCalculatedAt.value)
    ensures r.totalMiusUsed == SumMius(aggs)
    ensures (forall a :: a in aggs ==> a.nMius >= 0) ==> r.totalMiusUsed >= 0
  {
    SumMiusNonneg(aggs);
    var last := if |aggs| == 0 then None else Some(SortNewestFirst(aggs)[0].calculatedAt);
    assert |aggs| > 0 ==> NewestIsLatest(aggs) by {
      if |aggs| > 0 { LatestOfSorted(aggs); }
    }
    AggStats(mat, |aggs|, Parameters(aggs), SumMius(aggs), last)
  }

  ghost predicate NewestIsLatest(aggs: seq<Aggregation>)
    requires |aggs| > 0
  {
    var t := SortNewestFirst(aggs)[0].calculatedAt;
    (forall a :: a in aggs ==> a.calculatedAt <= t) && (exists a :: a in aggs && a.calculatedAt == t)
  }

  lemma LatestOfSorted(aggs: seq<Aggregation>)
    requires |aggs| > 0
    ensures NewestIsLatest(aggs)
  {
    var r := SortNewestFirst(aggs);
    assert r[0] in multiset(r);
    forall a | a in aggs ensures a.calculatedAt <= r[0].calculatedAt {
      assert a in multiset(aggs);
      assert a in multiset(r);
      var i :| 0 <= i < |r| && r[i] == a;
      assert i == 0 || r[0].calculatedAt >= r[i].calculatedAt;
    }
  }

  lemma {:induction false} SumMiusNonneg(aggs: seq<Aggregation>)
    ensures (forall a :: a in aggs ==> a.nMius >= 0) ==> SumMius(aggs) >= 0
    decreases |aggs|
  {
    if |aggs| > 0 {
      assert forall a :: a in aggs[1..] ==> a in aggs;
      SumMiusNonneg(aggs[1..]);
    }
  }

  /** `getAggregationStats`: statistics over the material's current
      aggregations. */
  function Stats(store: Store, order: seq<string>, mat: string): (r: AggStats)
    requires Lists(order, store)
    ensures r.materialId == mat
    ensures r == StatsOf(mat, CurrentByMaterialAsWritten(store, order, mat, None))
    ensures r.totalParameters == |CurrentByMaterialAsWritten(store, order, mat, None)|
    ensures r.lastCalculatedAt.Some? ==>
      forall a :: a in CurrentByMaterialAsWritten(store, order, mat, None) ==> a.calculatedAt <= r.lastCalculatedAt.value
  {
    StatsOf(mat, CurrentByMaterialAsWritten(store, order, mat, None))
  }

  // ---------------------------------------------------------------------
  // Coverage matrix
  // ---------------------------------------------------------------------

  datatype CoverageStatus = Good | Sufficient | Insufficient

  /** `CoverageMatrixEntry`. */
  datatype CoverageEntry = CoverageEntry(
    materialId: string,
    parameter: string,
    numMius: int,
    numSources: nat,
    qualityScore: Option<Num>,
    ciWidth: Option<Num>,
    calculatedAt: Time,
    status: CoverageStatus)

  function MinReal(a: real, b: real): real { if a <= b then a else b }

  /** `Math.max(0, x)`, which is `NaN` when `x` is. */
  function MaxZero(x: Num): Num {
    match x
    case NaN => NaN
    case Val(v) => Val(if v >= 0.0 then v else 0.0)
  }

  /** The quality score of a point count and an interval width: the mean of
      `min(n / 3, 1)` and `max(0, 1 - width / 0.4)`. */
  function QualityScore(n: int, width: Num): (q: Num)
    ensures q.Val? <==> width.Val?
  {
    var miuScore := MinReal(n as real / 3.0, 1.0);
    match MaxZero(if width.Val? then Val(1.0 - width.v / 0.4) else NaN)
    case NaN => NaN
    case Val(ci) => Val((miuScore + ci) / 2.0)
  }

  /** One row of the coverage matrix. */
  function Coverage(a: Aggregation): (e: CoverageEntry)
    ensures e.materialId == a.materialId && e.parameter == a.parameter && e.numMius == a.nMius
    ensures e.calculatedAt == a.calculatedAt
    ensures e.numSources == |a.weightsUsed.Keys|
    ensures e.status == Good <==> a.nMius >= 3
    ensures e.status == Sufficient <==> 1 <= a.nMius < 3
    ensures e.status == Insufficient <==> a.nMius < 1
    ensures e.ciWidth.Some? <==> a.ciLower.Some? && a.ciUpper.Some?
    ensures e.ciWidth.Some? ==> e.ciWidth.value == a.ciUpper.value.Minus(a.ciLower.value)
    ensures e.qualityScore.Some? <==> e.ciWidth.Some?
    ensures e.qualityScore.Some? ==> e.qualityScore.value == QualityScore(a.nMius, e.ciWidth.value)
  {
    var status := if a.nMius >= 3 then Good else if a.nMius >= 1 then Sufficient else Insufficient;
    var width := if a.ciLower.Some? && a.ciUpper.Some? then Some(a.ciUpper.value.Minus(a.ciLower.value)) else None;
    var quality := if width.Some? then Some(QualityScore(a.nMius, width.value)) else None;
    CoverageEntry(a.materialId, a.parameter, a.nMius, |a.weightsUsed.Keys|, quality, width, a.calculatedAt, status)
  }

  /** For a non-negative count and a finite, non-negative width the score
      lies in `[0, 1]`, and it is 1 exactly for three or more points with a
      zero-width interval. */
  lemma QualityScoreRange(n: int, w: real)
    requires n >= 0 && w >= 0.0
    ensures QualityScore(n, Val(w)).Val?
    ensures 0.0 <= QualityScore(n, Val(w)).v <= 1.0
    ensures QualityScore(n, Val(w)).v == 1.0 <==> n >= 3 && w == 0.0
  {
  }

  /** `getAggregationCoverageMatrix`: one row per current aggregation of
      the material, or of every material when none (or an empty id) is
      given. */
  function CoverageMatrix(store: Store, order: seq<string>, mat: Option<string>): (r: seq<CoverageEntry>)
    requires Lists(order, store)
    ensures var aggs := if mat.Some? && mat.value != ""
                        then CurrentByMaterialAsWritten(store, order, mat.value, None)
                        else ResolveAggs(store, GetByPrefix(store, order, "aggregation_current:"));
      && |r| == |aggs|
      && forall i :: 0 <= i < |r| ==> r[i] == Coverage(aggs[i])
  {
    var aggs := if mat.Some? && mat.value != ""
                then CurrentByMaterialAsWritten(store, order, mat.value, None)
                else ResolveAggs(store, GetByPrefix(store, order, "aggregation_current:"));
    Seqs.Map(Coverage, aggs)
  }
}
