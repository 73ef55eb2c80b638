/** The scientific metadata panel shown on a material's page (two copies
    of it exist, with the same logic): whether it is shown, the sources
    behind one parameter, and the badge colour of the confidence level.
    Its confidence warning is `Confidence.Warning`. */
module MetadataView {
  import opened Wrappers
  import opened Materials

  /** `hasScientificData`: Y, practical CR or a whitepaper version is set. */
  predicate HasScientificData(m: Material) {
    m.yValue.Some? || m.crPracticalMean.Some? || m.whitepaperVersion.Some?
  }

  /** Whether the panel renders: it is hidden only for a material without
      scientific data outside admin mode. */
  function Shown(m: Material, adminMode: bool): (shown: bool)
    ensures shown <==> HasScientificData(m) || adminMode
    ensures adminMode ==> shown
  {
    !(!HasScientificData(m) && !adminMode)
  }

  /** A source lists the parameter. */
  predicate Lists(s: Source, parameter: string) {
    s.parameters.Some? && parameter in s.parameters.value
  }

  /** The sources from position `offset` on that list the parameter, each
      tagged with its position. */
  function TaggedFrom(sources: seq<Source>, parameter: string, offset: nat): (r: seq<(nat, Source)>)
    ensures forall k :: 0 <= k < |r| ==>
      offset <= r[k].0 < offset + |sources| && r[k].1 == sources[r[k].0 - offset] && Lists(r[k].1, parameter)
    ensures forall k, l :: 0 <= k < l < |r| ==> r[k].0 < r[l].0
    decreases |sources|
  {
    if |sources| == 0 then []
    else if Lists(sources[0], parameter) then [(offset, sources[0])] + TaggedFrom(sources[1..], parameter, offset + 1)
    else TaggedFrom(sources[1..], parameter, offset + 1)
  }

  /** Every source that lists the parameter is among the tagged ones. */
  lemma {:induction false} TaggedFromComplete(sources: seq<Source>, parameter: string, offset: nat, i: nat)
    requires i < |sources| && Lists(sources[i], parameter)
    ensures exists k :: 0 <= k < |TaggedFrom(sources, parameter, offset)|
                        && TaggedFrom(sources, parameter, offset)[k].0 == offset + i
    decreases |sources|
  {
    var r := TaggedFrom(sources, parameter, offset);
    if i == 0 {
      assert r[0].0 == offset;
    } else {
      TaggedFromComplete(sources[1..], parameter, offset + 1, i - 1);
      var rest := TaggedFrom(sources[1..], parameter, offset + 1);
      var k :| 0 <= k < |rest| && rest[k].0 == offset + 1 + (i - 1);
      if Lists(sources[0], parameter) {
        assert r[k + 1] == rest[k];
      } else {
        assert r[k] == rest[k];
      }
    }
  }

  /** `getSourcesForParameter`: exactly the sources that list the
      parameter, tagged with their original position, in order; nothing
      when the material has no source list. */
  function SourcesForParameter(m: Material, parameter: string): (r: seq<(nat, Source)>)
    ensures m.sources.None? ==> r == []
    ensures m.sources.Some? ==> forall k :: 0 <= k < |r| ==>
      r[k].0 < |m.sources.value| && r[k].1 == m.sources.value[r[k].0] && Lists(r[k].1, parameter)
    ensures m.sources.Some? ==> forall i :: 0 <= i < |m.sources.value| && Lists(m.sources.value[i], parameter) ==>
      exists k :: 0 <= k < |r| && r[k].0 == i
    ensures forall k, l :: 0 <= k < l < |r| ==> r[k].0 < r[l].0
  {
    if m.sources.None? then []
    else
      var r := TaggedFrom(m.sources.value, parameter, 0);
      forall i | 0 <= i < |m.sources.value| && Lists(m.sources.value[i], parameter)
        ensures exists k :: 0 <= k < |r| && r[k].0 == i
      {
        TaggedFromComplete(m.sources.value, parameter, 0, i);
      }
      r
  }

  /** The colour family of `getConfidenceBadgeColor`: green, yellow and
      red for High, Medium and Low, gray when no level is set. */
  function Hue(level: Option<Level>): (h: string)
    ensures h == "gray" <==> level.None?
  {
    match level
    case Some(High) => "green"
    case Some(Medium) => "yellow"
    case Some(Low) => "red"
    case None => "gray"
  }

  /** Different levels get different colours. */
  lemma HuesDistinct(a: Option<Level>, b: Option<Level>)
    requires Hue(a) == Hue(b)
    ensures a == b
  {
  }

  /** The badge classes of a level. */
  function BadgeColor(level: Option<Level>): string {
    var h := Hue(level);
    "bg-" + h + "-100 text-" + h + "-800 dark:bg-" + h + "-900 dark:text-" + h + "-200"
  }
}
