/** The transform formula test bench (`evidence/TransformFormulaTesting.tsx`):
    each transform's formula applied to mock raw values derived from a
    material's scores, compared with the material's own score, and the
    statistics over the results. `Math.log10` and the formula's regular
    expression are inputs; the arithmetic is on reals. */
module FormulaTesting {
  import opened Wrappers
  import Seqs
  import Text

  /** A transform definition: the parameter it serves and its formula. */
  datatype Transform = Transform(parameter: string, formula: string)

  /** The material scores the bench reads. */
  datatype Material = Material(id: string, name: string, compostability: real, recyclability: real, reusability: real)

  /** `Math.max(0, Math.min(100, x))`. */
  function Clamp(x: real): (r: real)
    ensures 0.0 <= r <= 100.0
    ensures 0.0 <= x <= 100.0 ==> r == x
    ensures x < 0.0 ==> r == 0.0
    ensures x > 100.0 ==> r == 100.0
  {
    if x > 100.0 then 100.0 else if x < 0.0 then 0.0 else x
  }

  /** `transforms.find(t => t.parameter === parameter)`. */
  function Find(ts: seq<Transform>, parameter: string): (r: Option<Transform>)
    ensures r.Some? ==> r.value in ts && r.value.parameter == parameter
    ensures r.None? <==> forall i :: 0 <= i < |ts| ==> ts[i].parameter != parameter
    decreases |ts|
  {
    if |ts| == 0 then None
    else if ts[0].parameter == parameter then Some(ts[0])
    else Find(ts[1..], parameter)
  }

  /** Which branch of the formula parser a formula takes, in the parser's
      order; a formula mentioning "log10" that fails the pattern gets no
      later chance. */
  datatype Branch = LogBranch | LogMismatch | Complement | Identity | Average | NoBranch

  function BranchOf(formula: string, logPattern: string -> bool): (b: Branch)
    ensures b == Identity ==> formula == "x"
    ensures b == Complement ==> Text.Contains(formula, "100 - x")
    ensures (b == LogBranch || b == LogMismatch) <==> Text.Contains(formula, "log10")
  {
    if Text.Contains(formula, "log10") then (if logPattern(formula) then LogBranch else LogMismatch)
    else if Text.Contains(formula, "100 - x") then Complement
    else if formula == "x" then Identity
    else if Text.Contains(formula, "(R + U) / 2") then Average
    else NoBranch
  }

  /** `applyTransform`: the first transform for the parameter decides the
      formula; no transform, a log formula that fails the pattern, and an
      unknown formula give no score. */
  function ApplyTransform(ts: seq<Transform>, parameter: string, raw: real,
                          log10: real -> real, logPattern: string -> bool): (r: Option<real>)
    ensures Find(ts, parameter).None? ==> r.None?
    ensures Find(ts, parameter).Some? ==>
      var b := BranchOf(Find(ts, parameter).value.formula, logPattern);
      && (b == LogMismatch || b == NoBranch <==> r.None?)
      && (b == LogBranch ==> r == Some(Clamp(100.0 - 10.0 * log10(raw + 1.0))))
      && (b == Complement ==> r == Some(Clamp(100.0 - raw)))
      && (b == Identity ==> r == Some(Clamp(raw)))
      && (b == Average ==> r == Some(raw))
      && (b != Average && r.Some? ==> 0.0 <= r.value <= 100.0)
  {
    match Find(ts, parameter)
    case None => None
    case Some(t) =>
      match BranchOf(t.formula, logPattern)
      case LogBranch => Some(Clamp(100.0 - 10.0 * log10(raw + 1.0)))
      case Complement => Some(Clamp(100.0 - raw))
      case Identity => Some(Clamp(raw))
      case Average => Some(raw)
      case _ => None
  }

  /** The identity formula leaves an in-range value alone, and the
      complement formula is its own inverse on in-range values. */
  lemma IdentityAndComplement(raw: real)
    requires 0.0 <= raw <= 100.0
    ensures Clamp(raw) == raw
    ensures Clamp(100.0 - Clamp(100.0 - raw)) == raw
  {
  }

  /** The mock raw values, by parameter; other parameters have none. */
  function RawParam(m: Material, parameter: string): (r: Option<real>)
    ensures parameter == "C" ==> r == Some(m.compostability)
    ensures parameter == "R" ==> r == Some(m.recyclability)
    ensures parameter == "U" ==> r == Some(m.reusability)
  {
    var c := m.compostability;
    match parameter
    case "Y" => Some(if c <= 30.0 then 500.0 else if c <= 60.0 then 100.0 else 10.0)
    case "D" => Some(c)
    case "C" => Some(c)
    case "M" => Some(100.0 - c)
    case "E" => Some(100.0 - c)
    case "B" => Some(c)
    case "N" => Some(50.0)
    case "T" => Some(100.0 - c)
    case "H" => Some(100.0 - c)
    case "L" => Some(100.0 - c)
    case "R" => Some(m.recyclability)
    case "U" => Some(m.reusability)
    case "C_RU" => Some((m.recyclability + m.reusability) / 2.0)
    case _ => None
  }

  /** The score a parameter is compared with: only the three dimension
      scores and their reuse average have one. */
  function ActualScore(m: Material, parameter: string): (r: Option<real>)
    ensures r.Some? <==> parameter in ["C", "R", "U", "C_RU"]
    ensures parameter == "C_RU" ==> r == Some((m.recyclability + m.reusability) / 2.0)
  {
    if parameter == "C" then Some(m.compostability)
    else if parameter == "R" then Some(m.recyclability)
    else if parameter == "U" then Some(m.reusability)
    else if parameter == "C_RU" then Some((m.recyclability + m.reusability) / 2.0)
    else None
  }

  /** The four failures, in the order they are tested. */
  datatype Failure = NoRawData | TransformFailed | NoActualScore | HighVariance

  /** `TestResult`. */
  datatype TestResult = TestResult(
    parameter: string, materialId: string, raw: Option<real>, computed: Option<real>,
    actual: Option<real>, difference: Option<real>, error: Option<Failure>)

  function Abs(x: real): real { if x < 0.0 then -x else x }

  /** One row: the raw value, the computed and actual scores, their
      distance when both exist, and the first failure that applies. */
  function Evaluate(m: Material, t: Transform, ts: seq<Transform>,
                    log10: real -> real, logPattern: string -> bool): (r: TestResult)
    ensures r.parameter == t.parameter && r.materialId == m.id
    ensures r.difference.Some? <==> r.computed.Some? && r.actual.Some?
    ensures r.difference.Some? ==> r.difference.value == Abs(r.computed.value - r.actual.value)
    ensures r.raw.None? ==> r.error == Some(NoRawData)
    ensures r.raw.Some? && r.computed.None? ==> r.error == Some(TransformFailed)
    ensures r.computed.Some? && r.actual.None? ==> r.error == Some(NoActualScore)
    ensures r.error.None? <==> r.difference.Some? && r.difference.value <= 5.0
    ensures r.error == Some(HighVariance) <==> r.difference.Some? && r.difference.value > 5.0
  {
    var raw := RawParam(m, t.parameter);
    var actual := ActualScore(m, t.parameter);
    var computed := if raw.Some? then ApplyTransform(ts, t.parameter, raw.value, log10, logPattern) else None;
    var difference := if computed.Some? && actual.Some? then Some(Abs(computed.value - actual.value)) else None;
    var error :=
      if raw.None? then Some(NoRawData)
      else if computed.None? then Some(TransformFailed)
      else if actual.None? then Some(NoActualScore)
      else if difference.Some? && difference.value > 5.0 then Some(HighVariance)
      else None;
    TestResult(t.parameter, m.id, raw, computed, actual, difference, error)
  }

  /** Only the four scored parameters can pass: every other row fails. */
  lemma OnlyScoredParametersPass(m: Material, t: Transform, ts: seq<Transform>,
                                 log10: real -> real, logPattern: string -> bool)
    requires Evaluate(m, t, ts, log10, logPattern).error.None?
    ensures t.parameter in ["C", "R", "U", "C_RU"]
  {
  }

  /** The bench's test of one material with one transform. */
  function Tester(ts: seq<Transform>, log10: real -> real, logPattern: string -> bool): (Material, Transform) -> TestResult {
    (m: Material, t: Transform) => Evaluate(m, t, ts, log10, logPattern)
  }

  /** The rows for one material, one per transform. */
  function Row(m: Material, ts: seq<Transform>, test: (Material, Transform) -> TestResult): (r: seq<TestResult>)
    ensures |r| == |ts|
    ensures forall i :: 0 <= i < |ts| ==> r[i] == test(m, ts[i])
  {
    Seqs.Map((t: Transform) => test(m, t), ts)
  }

  /** `testResults`: for each material, a row per transform. */
  function Results(ms: seq<Material>, ts: seq<Transform>, test: (Material, Transform) -> TestResult): (r: seq<TestResult>)
    ensures |r| == |ms| * |ts|
    decreases |ms|
  {
    if |ms| == 0 then []
    else
      assert |ms| * |ts| == |ts| + (|ms| - 1) * |ts|;
      Row(ms[0], ts, test) + Results(ms[1..], ts, test)
  }

  /** Row `i * |ts| + j` tests material `i` with transform `j`. */
  lemma {:induction false} ResultsAt(ms: seq<Material>, ts: seq<Transform>, test: (Material, Transform) -> TestResult,
                                     i: nat, j: nat)
    requires i < |ms| && j < |ts|
    ensures i * |ts| + j < |Results(ms, ts, test)|
    ensures Results(ms, ts, test)[i * |ts| + j] == test(ms[i], ts[j])
    decreases |ms|
  {
    var head := Row(ms[0], ts, test);
    var rest := Results(ms[1..], ts, test);
    assert Results(ms, ts, test) == head + rest;
    if i > 0 {
      ResultsAt(ms[1..], ts, test, i - 1, j);
      assert i * |ts| + j == |ts| + ((i - 1) * |ts| + j);
    }
  }

  /** The bench's row `i * |ts| + j` is material `i` evaluated under
      transform `j`. */
  lemma BenchRowAt(ms: seq<Material>, ts: seq<Transform>, log10: real -> real, logPattern: string -> bool,
                   i: nat, j: nat)
    requires i < |ms| && j < |ts|
    ensures var rs := Results(ms, ts, Tester(ts, log10, logPattern));
      i * |ts| + j < |rs| && rs[i * |ts| + j] == Evaluate(ms[i], ts[j], ts, log10, logPattern)
  {
    ResultsAt(ms, ts, Tester(ts, log10, logPattern), i, j);
  }

  // ---------------------------------------------------------------------
  // Statistics
  // ---------------------------------------------------------------------

  predicate Failed(r: TestResult) { r.error.Some? }

  /** `overallStats`. */
  datatype Overall = Overall(total: nat, errors: nat, success: nat, successRate: real)

  function OverallStats(rs: seq<TestResult>): (o: Overall)
    ensures o.total == |rs| && o.errors == Seqs.Count(Failed, rs)
    ensures o.success + o.errors == o.total
    ensures 0.0 <= o.successRate <= 100.0
    ensures o.total == 0 ==> o.successRate == 0.0
    ensures o.total > 0 ==> (o.successRate == 100.0 <==> o.errors == 0)
    ensures o.total > 0 ==> o.successRate * (o.total as real) == 100.0 * (o.success as real)
  {
    var total := |rs|;
    var errors := Seqs.Count(Failed, rs);
    var success := total - errors;
    if total > 0 then
      RatioBound(success, total);
      assert (success as real / total as real) * total as real == success as real;
      Overall(total, errors, success, (success as real / total as real) * 100.0)
    else Overall(total, errors, success, 0.0)
  }

  lemma RatioBound(a: nat, b: nat)
    requires 0 < b && a <= b
    ensures 0.0 <= a as real / b as real <= 1.0
    ensures a as real / b as real == 1.0 <==> a == b
  {
    var q := a as real / b as real;
    assert q * b as real == a as real;
  }

  /** The largest of the differences, 0 for none (`Math.max(...diffs)`). */
  function MaxOf(xs: seq<real>): (r: real)
    requires forall i :: 0 <= i < |xs| ==> xs[i] >= 0.0
    ensures r >= 0.0
    ensures forall i :: 0 <= i < |xs| ==> xs[i] <= r
    ensures |xs| > 0 ==> r in xs
    decreases |xs|
  {
    if |xs| == 0 then 0.0
    else
      var m := MaxOf(xs[1..]);
      assert forall i :: 1 <= i < |xs| ==> xs[i] == xs[1..][i - 1];
      if xs[0] >= m then xs[0] else m
  }

  lemma {:induction false} SumAtMostMax(xs: seq<real>, bound: real)
    requires forall i :: 0 <= i < |xs| ==> xs[i] <= bound
    ensures Seqs.SumReal(xs) <= |xs| as real * bound
    decreases |xs|
  {
    if |xs| > 0 {
      SumAtMostMax(xs[1..], bound);
    }
  }

  /** A parameter's statistics. */
  datatype ParamStats = ParamStats(total: nat, errors: nat, avgDiff: real, maxDiff: real)

  function HasDifference(r: TestResult): bool { r.difference.Some? }

  function DifferenceOf(r: TestResult): real { if r.difference.Some? then r.difference.value else 0.0 }

  function OfParameter(p: string): TestResult -> bool {
    (r: TestResult) => r.parameter == p
  }

  /** Every difference is a distance, as in every row the bench builds. */
  predicate Distances(rs: seq<TestResult>) {
    forall x :: x in rs && x.difference.Some? ==> x.difference.value >= 0.0
  }

  /** A test's difference is a distance. */
  lemma EvaluateIsDistance(m: Material, t: Transform, ts: seq<Transform>, log10: real -> real, logPattern: string -> bool)
    ensures var r := Evaluate(m, t, ts, log10, logPattern);
      r.difference.Some? ==> r.difference.value >= 0.0
  {
  }

  /** The rows the bench builds meet that assumption. */
  lemma {:induction false} ResultsAreDistances(ms: seq<Material>, ts: seq<Transform>,
                                               log10: real -> real, logPattern: string -> bool)
    ensures Distances(Results(ms, ts, Tester(ts, log10, logPattern)))
    decreases |ms|
  {
    var test := Tester(ts, log10, logPattern);
    if |ms| > 0 {
      ResultsAreDistances(ms[1..], ts, log10, logPattern);
      var head := Row(ms[0], ts, test);
      forall k | 0 <= k < |ts| {
        EvaluateIsDistance(ms[0], ts[k], ts, log10, logPattern);
      }
      assert Distances(head);
      assert Results(ms, ts, test) == head + Results(ms[1..], ts, test);
    }
  }

  /** The differences of the rows that have one. */
  function Diffs(rs: seq<TestResult>): (ds: seq<real>)
    requires Distances(rs)
    ensures forall i :: 0 <= i < |ds| ==> ds[i] >= 0.0
  {
    var with := Seqs.Filter(HasDifference, rs);
    assert forall i :: 0 <= i < |with| ==> with[i] in rs;
    Seqs.Map(DifferenceOf, with)
  }

  /** The mean of the differences, 0 for none; it lies between 0 and
      the largest. */
  function Mean(ds: seq<real>): (m: real)
    requires forall i :: 0 <= i < |ds| ==> ds[i] >= 0.0
    ensures 0.0 <= m <= MaxOf(ds)
    ensures |ds| == 0 ==> m == 0.0
    ensures |ds| > 0 ==> m * (|ds| as real) == Seqs.SumReal(ds)
  {
    if |ds| == 0 then 0.0
    else
      var mx := MaxOf(ds);
      SumAtMostMax(ds, mx);
      SumNonNegative(ds);
      MeanBound(Seqs.SumReal(ds), |ds|, mx);
      Seqs.SumReal(ds) / |ds| as real
  }

  lemma MeanBound(sum: real, n: nat, mx: real)
    requires n > 0 && 0.0 <= sum <= n as real * mx
    ensures 0.0 <= sum / n as real <= mx
    ensures sum / n as real * n as real == sum
  {
    var q := sum / n as real;
    assert q * n as real == sum;
  }

  /** `statistics[parameter]`: the parameter's rows, how many failed, and
      the mean and largest difference among them. */
  function Stats(rs: seq<TestResult>, parameter: string): (s: ParamStats)
    requires Distances(rs)
    ensures s.errors <= s.total <= |rs|
    ensures 0.0 <= s.avgDiff <= s.maxDiff
    ensures s.total == |Seqs.Filter(OfParameter(parameter), rs)|
    ensures s.errors == Seqs.Count(Failed, Seqs.Filter(OfParameter(parameter), rs))
    ensures s.avgDiff == Mean(Diffs(Seqs.Filter(OfParameter(parameter), rs)))
    ensures s.maxDiff == MaxOf(Diffs(Seqs.Filter(OfParameter(parameter), rs)))
  {
    var mine := Seqs.Filter(OfParameter(parameter), rs);
    assert Distances(mine) by {
      assert forall i :: 0 <= i < |mine| ==> mine[i] in rs;
    }
    var ds := Diffs(mine);
    ParamStats(|mine|, Seqs.Count(Failed, mine), Mean(ds), MaxOf(ds))
  }

  lemma {:induction false} SumNonNegative(xs: seq<real>)
    requires forall i :: 0 <= i < |xs| ==> xs[i] >= 0.0
    ensures Seqs.SumReal(xs) >= 0.0
    decreases |xs|
  {
    if |xs| > 0 {
      SumNonNegative(xs[1..]);
    }
  }

  /** `filteredResults`: one parameter or "all", and optionally only the
      failures. */
  function FilterResults(rs: seq<TestResult>, selected: string, onlyErrors: bool): (r: seq<TestResult>)
    ensures forall x :: x in r <==>
      x in rs && (selected == "all" || x.parameter == selected) && (!onlyErrors || x.error.Some?)
  {
    var byParam := if selected != "all" then Seqs.Filter(OfParameter(selected), rs) else rs;
    if onlyErrors then Seqs.Filter(Failed, byParam) else byParam
  }
}
