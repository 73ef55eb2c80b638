/** The quantile chart of one score (`charts/QuantileVisualization.tsx`):
    which of the simple bar and the three chart modes is drawn, where the
    dots go, and the accessible description. */
module Quantile {
  import opened Wrappers
  import opened Materials
  import Text
  import Editor

  /** `QuantileData`: means and 95% intervals on the 0..1 scale. */
  datatype Data = Data(
    practicalMean: Option<real>,
    theoreticalMean: Option<real>,
    practicalCi: Option<CI>,
    theoreticalCi: Option<CI>,
    confidence: Option<Level>)

  /** `VisualizationMode`. */
  datatype Mode = Overlap | NearOverlap | Gap

  /** What is drawn: the simple bar with its score, or the chart in a mode
      with its dot count and the practical score shown beside it. */
  datatype Drawing = SimpleBar(score: real) | Chart(mode: Mode, dotCount: nat, displayScore: int)

  function Abs(x: real): real { if x < 0.0 then -x else x }

  /** Whether the two intervals meet. */
  predicate Intersect(p: CI, t: CI) {
    p.upper >= t.lower && t.upper >= p.lower
  }

  /** The mode: overlap when the intervals meet, otherwise gap once the
      means are 0.1 or more apart, otherwise near-overlap. */
  function ModeOf(pracMean: real, theoMean: real, p: CI, t: CI): (r: Mode)
    ensures r == Overlap <==> Intersect(p, t)
    ensures r == Gap <==> !Intersect(p, t) && Abs(theoMean - pracMean) >= 0.1
    ensures r == NearOverlap <==> !Intersect(p, t) && Abs(theoMean - pracMean) < 0.1
  {
    if Intersect(p, t) then Overlap
    else if Abs(theoMean - pracMean) >= 0.1 then Gap
    else NearOverlap
  }

  /** The responsive dot count. */
  function DotCount(mobile: bool, width: real): (n: nat)
    ensures mobile ==> n == 50
    ensures !mobile && width < 250.0 ==> n == 80
    ensures !mobile && width >= 250.0 ==> n == 150
  {
    if mobile then 50 else if width < 250.0 then 80 else 150
  }

  /** The component's choice: the simple bar when asked for or when any of
      the four quantile fields is missing or zero, showing the fallback
      score when positive and the practical mean as a percentage
      otherwise; the chart in its mode otherwise. */
  function Draw(d: Data, simplified: bool, fallbackScore: real, width: real, mobile: bool): (r: Drawing)
    ensures r.SimpleBar? <==> simplified || !Truthy(d.practicalMean) || !Truthy(d.theoreticalMean)
                              || d.practicalCi.None? || d.theoreticalCi.None?
    ensures r.SimpleBar? && fallbackScore > 0.0 ==> r.score == fallbackScore
    ensures r.SimpleBar? && fallbackScore <= 0.0 ==>
      r.score == (if Truthy(d.practicalMean) then d.practicalMean.value * 100.0 else 0.0)
    ensures r.Chart? ==>
      r.mode == ModeOf(d.practicalMean.value, d.theoreticalMean.value, d.practicalCi.value, d.theoreticalCi.value)
      && r.dotCount >= 50
      && r.displayScore == Editor.Round(d.practicalMean.value * 100.0)
  {
    if simplified || !Truthy(d.practicalMean) || !Truthy(d.theoreticalMean)
       || d.practicalCi.None? || d.theoreticalCi.None? then
      SimpleBar(if fallbackScore > 0.0 then fallbackScore
                else if Truthy(d.practicalMean) then d.practicalMean.value * 100.0 else 0.0)
    else
      var pm := d.practicalMean.value;
      var tm := d.theoreticalMean.value;
      Chart(ModeOf(pm, tm, d.practicalCi.value, d.theoreticalCi.value), DotCount(mobile, width), Editor.Round(pm * 100.0))
  }

  /** The i-th of n evenly spaced values from lo to hi. */
  function Spread(lo: real, hi: real, i: nat, n: nat): real
    requires n >= 2
  {
    lo + (hi - lo) * (i as real / (n - 1) as real)
  }

  /** A fraction i / (n - 1) with i < n lies in [0, 1]. */
  lemma FractionUnit(i: nat, n: nat)
    requires n >= 2 && i < n
    ensures 0.0 <= i as real / (n - 1) as real <= 1.0
  {
    var d := (n - 1) as real;
    var f := i as real / d;
    assert f * d == i as real;
    assert i as real <= d;
  }

  /** Scaling a non-negative width by a unit fraction stays within it. */
  lemma ScaledWithin(w: real, f: real)
    requires w >= 0.0 && 0.0 <= f <= 1.0
    ensures 0.0 <= w * f <= w
  {
    assert w * (1.0 - f) >= 0.0;
  }

  /** Evenly spaced values stay between their ends. */
  lemma SpreadWithin(lo: real, hi: real, i: nat, n: nat)
    requires n >= 2 && i < n && lo <= hi
    ensures lo <= Spread(lo, hi, i, n) <= hi
  {
    FractionUnit(i, n);
    ScaledWithin(hi - lo, i as real / (n - 1) as real);
  }

  function Max(a: real, b: real): real { if a >= b then a else b }
  function Min(a: real, b: real): real { if a <= b then a else b }

  /** Overlap mode's i-th dot: spread over the intersection. */
  function OverlapDot(p: CI, t: CI, i: nat, n: nat): real
    requires n >= 2
  {
    Spread(Max(p.lower, t.lower), Min(p.upper, t.upper), i, n)
  }

  /** A well-formed interval. */
  predicate WellFormed(c: CI) { c.lower <= c.upper }

  /** In overlap mode every dot lies in both intervals. */
  lemma OverlapDotsInBoth(p: CI, t: CI, i: nat, n: nat)
    requires WellFormed(p) && WellFormed(t) && Intersect(p, t)
    requires n >= 2 && i < n
    ensures p.lower <= OverlapDot(p, t, i, n) <= p.upper
    ensures t.lower <= OverlapDot(p, t, i, n) <= t.upper
  {
    SpreadWithin(Max(p.lower, t.lower), Min(p.upper, t.upper), i, n);
  }

  /** Near-overlap mode's i-th dot: spread from the lower of the lower
      bounds to the higher of the upper bounds. */
  function NearDot(p: CI, t: CI, i: nat, n: nat): real
    requires n >= 2
  {
    Spread(Min(p.lower, t.lower), Max(p.upper, t.upper), i, n)
  }

  /** In near-overlap mode every dot lies in the hull of the intervals. */
  lemma NearDotsInHull(p: CI, t: CI, i: nat, n: nat)
    requires WellFormed(p) && WellFormed(t)
    requires n >= 2 && i < n
    ensures Min(p.lower, t.lower) <= NearDot(p, t, i, n) <= Max(p.upper, t.upper)
  {
    SpreadWithin(Min(p.lower, t.lower), Max(p.upper, t.upper), i, n);
  }

  /** Gap mode's i-th dot value: five points either side of the midpoint
      of the means. */
  function GapDot(pracMean: real, theoMean: real, i: nat, n: nat): real
    requires n >= 2
  {
    var midpoint := (pracMean + theoMean) / 2.0;
    Spread(midpoint - 0.05, midpoint + 0.05, i, n)
  }

  /** Every gap-mode dot lies within 0.05 of the midpoint of the means. */
  lemma GapDotsNearMidpoint(pracMean: real, theoMean: real, i: nat, n: nat)
    requires n >= 2 && i < n
    ensures Abs(GapDot(pracMean, theoMean, i, n) - (pracMean + theoMean) / 2.0) <= 0.05
  {
    var midpoint := (pracMean + theoMean) / 2.0;
    SpreadWithin(midpoint - 0.05, midpoint + 0.05, i, n);
  }

  /** A gap-mode dot's position `value · width`, clamped to the chart. */
  function GapDotX(position: real, width: real): (x: real)
    requires width >= 0.0
    ensures 0.0 <= x <= width
    ensures 0.0 <= position <= width ==> x == position
    ensures position < 0.0 ==> x == 0.0
    ensures position > width ==> x == width
  {
    Max(0.0, Min(width, position))
  }

  /** Near-overlap mode shows the "today" label once the means are more
      than 35 pixels apart. */
  predicate ShowTodayLabel(pracMean: real, theoMean: real, width: real) {
    Abs((theoMean - pracMean) * width) > 35.0
  }

  lemma AbsMul(a: real, w: real)
    requires w >= 0.0
    ensures Abs(a * w) == Abs(a) * w
  {
  }

  /** In near-overlap mode the means are under 0.1 apart, so on a chart
      of at most 350 pixels, the default 300 included, the label is never
      shown. */
  lemma NearOverlapHidesToday(pracMean: real, theoMean: real, p: CI, t: CI, width: real)
    requires ModeOf(pracMean, theoMean, p, t) == NearOverlap
    requires 0.0 <= width <= 350.0
    ensures !ShowTodayLabel(pracMean, theoMean, width)
  {
    var g := Abs(theoMean - pracMean);
    assert g < 0.1;
    AbsMul(theoMean - pracMean, width);
    assert Abs((theoMean - pracMean) * width) == g * width;
    assert g * width <= 0.1 * width by {
      assert (0.1 - g) * width >= 0.0;
    }
    assert 0.1 * width <= 35.0;
  }

  /** The confidence the description names. */
  function ConfidenceText(c: Option<Level>): string {
    match c
    case None => "Unknown"
    case Some(High) => "High"
    case Some(Medium) => "Medium"
    case Some(Low) => "Low"
  }

  /** A mean as a rounded percentage, a missing one as 0. */
  function Percent(x: Option<real>): int {
    Editor.Round(x.GetOr(0.0) * 100.0)
  }

  /** `getAriaLabel`: the overlap template names one score, the other two
      both, and the gap template also the gap in percentage points. */
  function AriaLabel(name: string, d: Data, mode: Mode, gap: real): (r: string)
    ensures Text.StartsWith(r, name + ": ")
    ensures Text.EndsWith(r, "Confidence: " + ConfidenceText(d.confidence) + ". Click for details.")
    ensures var prac := Text.IntToString(Percent(d.practicalMean));
      var theo := Text.IntToString(Percent(d.theoreticalMean));
      var tail := "Confidence: " + ConfidenceText(d.confidence) + ". Click for details.";
      && (mode == Overlap ==>
            r == name + ": " + ("Practical and theoretical scores overlap around " + prac + "%. ") + tail)
      && (mode == NearOverlap ==>
            r == name + ": " + ("Practical " + prac + "%, Theoretical " + theo + "%. Minor difference. ") + tail)
      && (mode == Gap ==>
            r == name + ": " + ("Practical " + prac + "%, Theoretical " + theo + "%. Gap of "
                 + Text.IntToString(Editor.Round(gap * 100.0))
                 + " percentage points - science outpaces infrastructure. ") + tail)
  {
    var prac := Text.IntToString(Percent(d.practicalMean));
    var theo := Text.IntToString(Percent(d.theoreticalMean));
    var tail := "Confidence: " + ConfidenceText(d.confidence) + ". Click for details.";
    var body :=
      match mode
      case Overlap => "Practical and theoretical scores overlap around " + prac + "%. "
      case NearOverlap => "Practical " + prac + "%, Theoretical " + theo + "%. Minor difference. "
      case Gap => "Practical " + prac + "%, Theoretical " + theo + "%. Gap of "
                  + Text.IntToString(Editor.Round(gap * 100.0))
                  + " percentage points - science outpaces infrastructure. ";
    assert (name + ": " + body + tail)[..|name + ": "|] == name + ": ";
    assert (name + ": " + body + tail)[|name + ": " + body|..] == tail;
    name + ": " + body + tail
  }
}
