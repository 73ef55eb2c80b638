/** The data migration that backfills materials: default scientific values
    looked up by material name, citations chosen from the source library by
    a relevance score, a derived confidence level and the version stamps.
    The library is a parameter; the migration reads it and never changes
    it. */
module Migration {
  import opened Wrappers
  import opened Materials
  import Text
  import Seqs
  import Library
  import Ranking
  import Editor
  import Confidence
  import MetadataView

  // ---------------------------------------------------------------------
  // Default scientific data
  // ---------------------------------------------------------------------

  /** The nine fields a default entry sets. */
  datatype Defaults = Defaults(
    y: real, d: real, c: real, m: real, e: real,
    practical: real, theoretical: real,
    practicalCi: CI, theoreticalCi: CI)

  /** The defaults table, in its declaration order (which is the order the
      partial match tries the keys in). */
  const Table: seq<(string, Defaults)> := [
    ("Cardboard", Defaults(0.82, 0.15, 0.70, 0.95, 0.25, 0.78, 0.89, CI(0.74, 0.82), CI(0.85, 0.93))),
    ("Paper", Defaults(0.80, 0.18, 0.65, 0.95, 0.28, 0.72, 0.85, CI(0.68, 0.76), CI(0.81, 0.89))),
    ("Glass", Defaults(0.98, 0.01, 0.85, 0.92, 0.35, 0.93, 0.97, CI(0.91, 0.95), CI(0.95, 0.99))),
    ("Plastic (PET)", Defaults(0.65, 0.25, 0.45, 0.75, 0.40, 0.52, 0.71, CI(0.48, 0.56), CI(0.67, 0.75))),
    ("PET", Defaults(0.65, 0.25, 0.45, 0.75, 0.40, 0.52, 0.71, CI(0.48, 0.56), CI(0.67, 0.75))),
    ("HDPE", Defaults(0.68, 0.22, 0.50, 0.72, 0.38, 0.55, 0.74, CI(0.51, 0.59), CI(0.70, 0.78))),
    ("PVC", Defaults(0.45, 0.35, 0.30, 0.40, 0.55, 0.28, 0.48, CI(0.24, 0.32), CI(0.44, 0.52))),
    ("Polystyrene", Defaults(0.42, 0.38, 0.28, 0.35, 0.58, 0.25, 0.44, CI(0.21, 0.29), CI(0.40, 0.48))),
    ("Aluminum", Defaults(0.95, 0.02, 0.88, 0.90, 0.30, 0.90, 0.95, CI(0.88, 0.92), CI(0.93, 0.97))),
    ("Steel", Defaults(0.92, 0.03, 0.82, 0.88, 0.42, 0.86, 0.92, CI(0.84, 0.88), CI(0.90, 0.94))),
    ("Food Waste", Defaults(0.75, 1.00, 0.60, 0.55, 0.15, 0.45, 0.75, CI(0.41, 0.49), CI(0.71, 0.79)))
  ]

  predicate Unit(x: real) { 0.0 <= x <= 1.0 }

  /** Every value lies in [0, 1] and each interval is ordered and holds its
      mean. */
  predicate Plausible(d: Defaults) {
    && Unit(d.y) && Unit(d.d) && Unit(d.c) && Unit(d.m) && Unit(d.e)
    && Unit(d.practicalCi.lower) && d.practicalCi.lower <= d.practical <= d.practicalCi.upper
    && Unit(d.practicalCi.upper)
    && Unit(d.theoreticalCi.lower) && d.theoreticalCi.lower <= d.theoretical <= d.theoreticalCi.upper
    && Unit(d.theoreticalCi.upper)
    && d.practical <= d.theoretical
  }

  /** Every entry of the table is plausible. */
  lemma TablePlausible()
    ensures forall i :: 0 <= i < |Table| ==> Plausible(Table[i].1)
  {
  }

  /** The key matches the name in either direction, ignoring case. */
  predicate Related(key: string, name: string) {
    Text.ContainsCi(name, key) || Text.ContainsCi(key, name)
  }

  /** The first position from `from` on whose key equals the name. */
  function ExactFrom(table: seq<(string, Defaults)>, name: string, from: nat): (r: Option<nat>)
    ensures r.Some? ==> from <= r.value < |table| && table[r.value].0 == name
    ensures r.Some? ==> forall j :: from <= j < r.value ==> table[j].0 != name
    ensures r.None? ==> forall j :: from <= j < |table| ==> table[j].0 != name
    decreases |table| - from
  {
    if from >= |table| then None
    else if table[from].0 == name then Some(from)
    else ExactFrom(table, name, from + 1)
  }

  /** The first position from `from` on whose key is related to the name. */
  function RelatedFrom(table: seq<(string, Defaults)>, name: string, from: nat): (r: Option<nat>)
    ensures r.Some? ==> from <= r.value < |table| && Related(table[r.value].0, name)
    ensures r.Some? ==> forall j :: from <= j < r.value ==> !Related(table[j].0, name)
    ensures r.None? ==> forall j :: from <= j < |table| ==> !Related(table[j].0, name)
    decreases |table| - from
  {
    if from >= |table| then None
    else if Related(table[from].0, name) then Some(from)
    else RelatedFrom(table, name, from + 1)
  }

  /** The position the lookup settles on: the first key equal to the name,
      else the first key related to it. */
  function Lookup(table: seq<(string, Defaults)>, name: string): (r: Option<nat>)
    ensures r.Some? ==> r.value < |table| && Related(table[r.value].0, name)
    ensures r.None? <==> forall i :: 0 <= i < |table| ==> !Related(table[i].0, name)
    ensures forall i :: (0 <= i < |table| && table[i].0 == name
              && forall j :: 0 <= j < i ==> table[j].0 != name) ==> r == Some(i)
  {
    match ExactFrom(table, name, 0)
    case Some(i) =>
      Text.ContainsSelf(Text.Lower(name));
      Some(i)
    case None => RelatedFrom(table, name, 0)
  }

  /** `getDefaultScientificData`: the entry whose key is the name, else the
      first entry whose key and name contain one another ignoring case,
      else nothing. Whatever it returns is plausible. */
  function DefaultsFor(name: string): (r: Option<Defaults>)
    ensures r.Some? ==> Plausible(r.value)
    ensures r.None? <==> forall i :: 0 <= i < |Table| ==> !Related(Table[i].0, name)
    ensures forall i :: (0 <= i < |Table| && Table[i].0 == name
              && forall j :: 0 <= j < i ==> Table[j].0 != name) ==> r == Some(Table[i].1)
  {
    match Lookup(Table, name)
    case Some(i) =>
      TablePlausible();
      Some(Table[i].1)
    case None => None
  }

  /** Every key contains the empty name, so a material without a name gets
      the first entry, Cardboard's. */
  lemma EmptyNameGetsCardboard()
    ensures DefaultsFor("") == Some(Table[0].1)
  {
    Text.ContainsEmpty(Text.Lower(Table[0].0));
    assert Related(Table[0].0, "");
    assert forall i :: 0 <= i < |Table| ==> |Table[i].0| > 0;
    assert Lookup(Table, "") == Some(0);
  }

  // ---------------------------------------------------------------------
  // Search terms
  // ---------------------------------------------------------------------

  /** The characters of `/[\s(),-]+/`. */
  predicate IsSeparator(c: char) {
    Text.IsWhite(c) || c == '(' || c == ')' || c == ',' || c == '-'
  }

  /** Every separator replaced by a space. */
  function Blanked(s: string): (r: string)
    ensures |r| == |s|
    ensures forall i :: 0 <= i < |s| ==> r[i] == (if IsSeparator(s[i]) then ' ' else s[i])
  {
    Seqs.Map((c: char) => if IsSeparator(c) then ' ' else c, s)
  }

  /** Every character of a piece of a split is a character of the string. */
  lemma {:induction false} SplitChars(s: string, c: char)
    ensures forall i, k :: 0 <= i < |Text.Split(s, c)| && 0 <= k < |Text.Split(s, c)[i]| ==>
              Text.Split(s, c)[i][k] in s
    decreases |s|
  {
    if |s| > 0 {
      SplitChars(s[1..], c);
      var rest := Text.Split(s[1..], c);
      var r := Text.Split(s, c);
      forall i, k | 0 <= i < |r| && 0 <= k < |r[i]|
        ensures r[i][k] in s
      {
        if s[0] == c {
          assert i > 0 && r[i] == rest[i - 1];
          assert r[i][k] in s[1..];
        } else if i == 0 {
          assert r[0] == [s[0]] + rest[0];
          if k > 0 {
            assert r[i][k] == rest[0][k - 1];
            assert r[i][k] in s[1..];
          }
        } else {
          assert r[i] == rest[i];
          assert r[i][k] in s[1..];
        }
      }
    }
  }

  function LongEnough(t: string): bool { |t| > 2 }

  /** The search terms of a material name: the lower-cased name split on
      runs of separators, keeping the terms longer than two characters.
      Splitting on every separator character and dropping the short pieces
      gives the same terms, since the pieces between two adjacent
      separators are empty. */
  function SearchTerms(name: string): (r: seq<string>)
    ensures forall i :: 0 <= i < |r| ==> |r[i]| > 2
    ensures forall i, k :: 0 <= i < |r| && 0 <= k < |r[i]| ==> !IsSeparator(r[i][k])
    ensures forall i, k :: 0 <= i < |r| && 0 <= k < |r[i]| ==> !('A' <= r[i][k] <= 'Z')
    ensures r == Seqs.Filter(LongEnough, Text.Split(Blanked(Text.Lower(name)), ' '))
  {
    var b := Blanked(Text.Lower(name));
    var pieces := Text.Split(b, ' ');
    SplitChars(b, ' ');
    var r := Seqs.Filter(LongEnough, pieces);
    forall i, k | 0 <= i < |r| && 0 <= k < |r[i]|
      ensures !IsSeparator(r[i][k]) && !('A' <= r[i][k] <= 'Z')
    {
      assert r[i] in pieces;
      var p :| 0 <= p < |pieces| && pieces[p] == r[i];
      var ch := r[i][k];
      assert ch in b && ch != ' ';
    }
    r
  }

  /** The search terms are the pieces between separators of the lower-cased
      name, longer than two characters: any cutting of the lower-cased name
      into separator-free pieces at its separators yields exactly them. */
  lemma SearchTermsArePieces(name: string, pieces: seq<string>)
    requires |pieces| >= 1 && forall i :: 0 <= i < |pieces| ==> ' ' !in pieces[i]
    requires Text.Join(pieces, [' ']) == Blanked(Text.Lower(name))
    ensures SearchTerms(name) == Seqs.Filter(LongEnough, pieces)
  {
    Text.SplitJoin(pieces, ' ');
  }

  /** A name that is one word of three or more characters, with no
      separator, is its own (lower-cased) single search term. */
  lemma SearchTermsOfWord(w: string)
    requires |w| > 2 && forall k :: 0 <= k < |w| ==> !IsSeparator(w[k])
    ensures SearchTerms(w) == [Text.Lower(w)]
  {
    var lw := Text.Lower(w);
    forall k | 0 <= k < |lw| ensures !IsSeparator(lw[k]) {
      assert lw[k] == Text.LowerChar(w[k]);
    }
    assert Blanked(lw) == lw;
    Text.SplitJoin([lw], ' ');
    assert Text.Join([lw], [' ']) == lw;
    assert Seqs.Filter(LongEnough, [lw]) == [lw];
  }

  // ---------------------------------------------------------------------
  // Scoring
  // ---------------------------------------------------------------------

  /** A general or methodology source: tagged `general`, `lca` or
      `methodology`. */
  predicate IsGeneral(s: Library.LibSource) {
    var tags := Library.TagsOf(s);
    "general" in tags || "lca" in tags || "methodology" in tags
  }

  /** One tag against one term: 10 when equal, 5 when either contains the
      other. */
  function TagScore(tag: string, term: string): (r: real)
    ensures r == 10.0 <==> tag == term
    ensures r == 0.0 <==> !(tag == term || Text.Contains(tag, term) || Text.Contains(term, tag))
  {
    if tag == term then 10.0
    else if Text.Contains(tag, term) || Text.Contains(term, tag) then 5.0
    else 0.0
  }

  function TagsScore(tags: seq<string>, term: string): (r: real)
    ensures r >= 0.0
    decreases |tags|
  {
    if |tags| == 0 then 0.0 else TagScore(tags[0], term) + TagsScore(tags[1..], term)
  }

  /** The lower-cased title mentions the term. */
  predicate TitleMentions(s: Library.LibSource, term: string) {
    Text.Contains(Text.Lower(s.title), term)
  }

  /** There is an abstract, and its lower-cased text mentions the term. */
  predicate AbstractMentions(s: Library.LibSource, term: string) {
    s.summary.Some? && Text.Contains(Text.Lower(s.summary.value), term)
  }

  /** One term against a source: its tags, then 3 for the title and 2 for
      the abstract when they mention it. */
  function TermScore(s: Library.LibSource, term: string): (r: real)
    ensures r >= TagsScore(Library.TagsOf(s), term)
    ensures var extra := r - TagsScore(Library.TagsOf(s), term);
      && (TitleMentions(s, term) && AbstractMentions(s, term) ==> extra == 5.0)
      && (TitleMentions(s, term) && !AbstractMentions(s, term) ==> extra == 3.0)
      && (!TitleMentions(s, term) && AbstractMentions(s, term) ==> extra == 2.0)
      && (!TitleMentions(s, term) && !AbstractMentions(s, term) ==> extra == 0.0)
  {
    TagsScore(Library.TagsOf(s), term)
    + (if TitleMentions(s, term) then 3.0 else 0.0)
    + (if AbstractMentions(s, term) then 2.0 else 0.0)
  }

  function TermsScore(s: Library.LibSource, terms: seq<string>): (r: real)
    ensures r >= 0.0
    decreases |terms|
  {
    if |terms| == 0 then 0.0 else TermScore(s, terms[0]) + TermsScore(s, terms[1..])
  }

  /** A source's relevance score: the terms' scores, twice its weight (a
      missing or zero weight counts as 1) and 1 more for a general source. */
  function Score(s: Library.LibSource, terms: seq<string>): (r: real)
    ensures r >= 2.0 * Library.WeightOrDefault(s.weight)
    ensures IsGeneral(s) ==> r >= 2.0 * Library.WeightOrDefault(s.weight) + 1.0
    ensures r - TermsScore(s, terms) == 2.0 * Library.WeightOrDefault(s.weight) + (if IsGeneral(s) then 1.0 else 0.0)
  {
    TermsScore(s, terms) + 2.0 * Library.WeightOrDefault(s.weight) + (if IsGeneral(s) then 1.0 else 0.0)
  }

  /** The terms' scores add up: scoring a list of terms is scoring its
      halves. */
  lemma {:induction false} TermsScoreConcat(s: Library.LibSource, a: seq<string>, b: seq<string>)
    ensures TermsScore(s, a + b) == TermsScore(s, a) + TermsScore(s, b)
    decreases |a|
  {
    if |a| == 0 {
      assert a + b == b;
    } else {
      assert (a + b)[1..] == a[1..] + b;
      TermsScoreConcat(s, a[1..], b);
    }
  }

  /** With one search term the score is that term's tag score, the title
      and abstract mentions, the weight bonus and the general bonus. */
  lemma ScoreOneTerm(s: Library.LibSource, term: string)
    ensures Score(s, [term]) == TagsScore(Library.TagsOf(s), term)
      + (if TitleMentions(s, term) then 3.0 else 0.0) + (if AbstractMentions(s, term) then 2.0 else 0.0)
      + 2.0 * Library.WeightOrDefault(s.weight) + (if IsGeneral(s) then 1.0 else 0.0)
  {
    assert TermsScore(s, [term]) == TermScore(s, term) + TermsScore(s, []);
  }

  lemma {:induction false} TagsScoreExact(tags: seq<string>, term: string)
    requires term in tags
    ensures TagsScore(tags, term) >= 10.0
    decreases |tags|
  {
    if tags[0] != term {
      TagsScoreExact(tags[1..], term);
    }
  }

  lemma {:induction false} TermsScoreAtLeast(s: Library.LibSource, terms: seq<string>, i: nat)
    requires i < |terms|
    ensures TermsScore(s, terms) >= TermScore(s, terms[i])
    decreases |terms|
  {
    if i > 0 {
      TermsScoreAtLeast(s, terms[1..], i - 1);
    }
  }

  /** A tag equal to one of the search terms earns at least 10 on top of
      the weight bonus. */
  lemma ExactTagScore(s: Library.LibSource, terms: seq<string>, i: nat)
    requires i < |terms| && terms[i] in Library.TagsOf(s)
    ensures Score(s, terms) >= 10.0 + 2.0 * Library.WeightOrDefault(s.weight)
  {
    TagsScoreExact(Library.TagsOf(s), terms[i]);
    TermsScoreAtLeast(s, terms, i);
  }

  // ---------------------------------------------------------------------
  // Choosing and converting sources
  // ---------------------------------------------------------------------

  /** The parameters a chosen source is assigned: above a score of 8 the
      tag rules (or the CR pair when none fires), else the CR pair for a
      general source, else practical CR alone. */
  function AssignedParameters(s: Library.LibSource, score: real): (r: seq<string>)
    ensures |r| > 0
    ensures score <= 8.0 && IsGeneral(s) ==> r == Editor.DefaultParameters
    ensures score <= 8.0 && !IsGeneral(s) ==> r == ["CR_practical_mean"]
    ensures score > 8.0 ==> ("Y_value" in r <==> Seqs.SomeIn(Library.TagsOf(s), ["recycling", "yield", "recovery"]))
  {
    var tags := Library.TagsOf(s);
    if score > 8.0 then
      var y := Seqs.SomeIn(tags, ["recycling", "yield", "recovery"]);
      var d := Seqs.SomeIn(tags, ["degradation", "quality", "composting"]);
      var c := Seqs.SomeIn(tags, ["contamination", "quality", "purity"]);
      var m := Seqs.SomeIn(tags, ["infrastructure", "maturity", "facilities"]);
      var e := Seqs.SomeIn(tags, ["energy", "lca"]);
      var ps := Editor.RulePushes(y, d, c, m, e, false);
      Editor.RulePushesYd(y, d, c, m, e, false);
      if |ps| > 0 then ps else Editor.DefaultParameters
    else if IsGeneral(s) then Editor.DefaultParameters
    else ["CR_practical_mean"]
  }

  /** A library source as a material citation: the bibliographic fields
      copied, the weight as given, and the assigned parameters. */
  function Cite(s: Library.LibSource, parameters: seq<string>): (r: Source)
    ensures r.title == s.title && r.weight == s.weight && r.parameters == Some(parameters)
  {
    Source(s.title, s.authors, s.year, s.doi, s.url, s.weight, Some(parameters))
  }

  /** Every library source's score for the name. */
  function Scores(name: string, lib: seq<Library.LibSource>): (r: seq<real>)
    ensures |r| == |lib|
    ensures forall i :: 0 <= i < |lib| ==> r[i] == Score(lib[i], SearchTerms(name))
  {
    var terms := SearchTerms(name);
    seq(|lib|, i requires 0 <= i < |lib| => Score(lib[i], terms))
  }

  /** The library positions `getSourcesForMaterial` chooses, in order:
      between three (or the whole library when smaller) and five distinct
      positions, always including the best-ranked general source and the
      best four sources scoring above 5. */
  function Chosen(name: string, lib: seq<Library.LibSource>): (r: seq<nat>)
    ensures 0 < |lib| ==> 0 < |r|
    ensures |r| <= 5 && |r| >= (if |lib| < 3 then |lib| else 3)
    ensures Seqs.Distinct(r)
    ensures forall k :: 0 <= k < |r| ==> r[k] < |lib|
  {
    Ranking.Choose(Scores(name, lib), GeneralAt(lib))
  }

  /** Whether a library position holds a general source. */
  function GeneralAt(lib: seq<Library.LibSource>): nat -> bool {
    (i: nat) => i < |lib| && IsGeneral(lib[i])
  }

  /** When the library has a general source, a general source is chosen. */
  lemma ChosenHasGeneral(name: string, lib: seq<Library.LibSource>, i: nat)
    requires i < |lib| && IsGeneral(lib[i])
    ensures exists k :: 0 <= k < |Chosen(name, lib)| && IsGeneral(lib[Chosen(name, lib)[k]])
  {
    var r := Chosen(name, lib);
    Ranking.ChooseHasGeneral(Scores(name, lib), GeneralAt(lib), i);
    var k :| 0 <= k < |r| && GeneralAt(lib)(r[k]);
    assert IsGeneral(lib[r[k]]);
  }

  /** The chosen positions as citations, each with its parameters. */
  function CiteAll(lib: seq<Library.LibSource>, picked: seq<nat>, scores: seq<real>): (r: seq<Source>)
    requires |scores| == |lib| && forall k :: 0 <= k < |picked| ==> picked[k] < |lib|
    ensures |r| == |picked|
    ensures forall k :: 0 <= k < |r| ==>
      r[k].title == lib[picked[k]].title && r[k].weight == lib[picked[k]].weight
      && r[k].parameters.Some? && |r[k].parameters.value| > 0
  {
    seq(|picked|, k requires 0 <= k < |picked| =>
      Cite(lib[picked[k]], AssignedParameters(lib[picked[k]], scores[picked[k]])))
  }

  /** `getSourcesForMaterial`: the chosen library sources as citations,
      each with at least one parameter. */
  function SourcesFor(name: string, lib: seq<Library.LibSource>): (r: seq<Source>)
    ensures |r| == |Chosen(name, lib)|
    ensures |r| <= 5 && |r| >= (if |lib| < 3 then |lib| else 3)
    ensures forall k :: 0 <= k < |r| ==>
      r[k].title == lib[Chosen(name, lib)[k]].title && r[k].weight == lib[Chosen(name, lib)[k]].weight
      && r[k].parameters.Some? && |r[k].parameters.value| > 0
  {
    CiteAll(lib, Chosen(name, lib), Scores(name, lib))
  }

  // ---------------------------------------------------------------------
  // Migrating a material
  // ---------------------------------------------------------------------

  /** `needsMigration`: fewer than three sources, or no Y value. */
  predicate NeedsMigration(m: Material) {
    m.sources.None? || |m.sources.value| < 3 || m.yValue.None?
  }

  /** `Object.assign(migrated, defaults)`. */
  function WithDefaults(m: Material, d: Defaults): Material {
    m.(yValue := Some(d.y), dValue := Some(d.d), cValue := Some(d.c), mValue := Some(d.m),
       eValue := Some(d.e), crPracticalMean := Some(d.practical),
       crTheoreticalMean := Some(d.theoretical),
       crPracticalCi := Some(d.practicalCi), crTheoreticalCi := Some(d.theoreticalCi))
  }

  /** A string field stamped with `value` when it is falsy. */
  function Stamp(s: Option<string>, value: string): Option<string> {
    if Library.Falsy(s) then Some(value) else s
  }

  /** The first step: a material without Y takes the defaults for its
      name, if there are any. */
  function Backfilled(m: Material): (r: Material)
    ensures m.yValue.Some? || DefaultsFor(m.name).None? ==> r == m
    ensures m.yValue.None? && DefaultsFor(m.name).Some? ==>
              r == WithDefaults(m, DefaultsFor(m.name).value) && r.yValue.Some?
  {
    if m.yValue.Some? then m
    else match DefaultsFor(m.name)
      case Some(d) => WithDefaults(m, d)
      case None => m
  }

  /** The second step: fewer than three sources are replaced by the ones
      chosen for `name`. */
  function Resourced(m: Material, name: string, lib: seq<Library.LibSource>): (r: Material)
    ensures r.sources.Some?
    ensures m.sources.Some? && |m.sources.value| >= 3 ==> r == m
    ensures m.sources.None? || |m.sources.value| < 3 ==> r == m.(sources := Some(SourcesFor(name, lib)))
  {
    if m.sources.None? || |m.sources.value| < 3 then m.(sources := Some(SourcesFor(name, lib)))
    else m
  }

  /** The third step: a material with sources and no level is given the
      level its sources support. */
  function Graded(m: Material): (r: Material)
    ensures r == m.(confidence := r.confidence)
    ensures m.confidence.Some? || m.sources.None? ==> r == m
    ensures m.confidence.None? && m.sources.Some? ==>
              r.confidence == Some(Confidence.Suggested(|m.sources.value|, TotalWeight(m.sources.value)))
  {
    match m.sources
    case Some(ss) =>
      if m.confidence.None? then m.(confidence := Some(Confidence.MigrationLevel(|ss|, TotalWeight(ss))))
      else m
    case None => m
  }

  /** The last step: the version stamps and the timestamp where falsy. */
  function Stamped(m: Material, now: string): (r: Material)
    ensures r == m.(whitepaperVersion := r.whitepaperVersion, methodVersion := r.methodVersion,
                    calculationTimestamp := r.calculationTimestamp)
    ensures !Library.Falsy(r.whitepaperVersion) && !Library.Falsy(r.methodVersion)
    ensures !Library.Falsy(m.whitepaperVersion) ==> r.whitepaperVersion == m.whitepaperVersion
    ensures !Library.Falsy(m.methodVersion) ==> r.methodVersion == m.methodVersion
    ensures !Library.Falsy(m.calculationTimestamp) ==> r.calculationTimestamp == m.calculationTimestamp
    ensures Library.Falsy(m.calculationTimestamp) ==> r.calculationTimestamp == Some(now)
  {
    m.(whitepaperVersion := Stamp(m.whitepaperVersion, "2025.1"),
       methodVersion := Stamp(m.methodVersion, "CR-v1"),
       calculationTimestamp := Stamp(m.calculationTimestamp, now))
  }

  /** `migrateMaterial`, with the clock reading `now` as a parameter. */
  function Migrate(m: Material, lib: seq<Library.LibSource>, now: string): (r: Material)
    ensures !NeedsMigration(m) ==> r == m
    // identity, basic fields and articles are never touched
    ensures r.id == m.id && r.name == m.name && r.category == m.category
    ensures r.compostability == m.compostability && r.recyclability == m.recyclability
    ensures r.reusability == m.reusability && r.description == m.description && r.articles == m.articles
    // an existing Y value keeps the scientific fields
    ensures m.yValue.Some? ==>
              (r.yValue == m.yValue && r.dValue == m.dValue && r.cValue == m.cValue
               && r.mValue == m.mValue && r.eValue == m.eValue && r.crPracticalMean == m.crPracticalMean
               && r.crPracticalCi == m.crPracticalCi)
    ensures m.yValue.None? && DefaultsFor(m.name).Some? ==> r.yValue == Some(DefaultsFor(m.name).value.y)
    ensures m.yValue.None? && DefaultsFor(m.name).None? ==> r.yValue == None
    // a set level is kept, a missing one derived from the sources
    ensures m.confidence.Some? ==> r.confidence == m.confidence
    ensures NeedsMigration(m) && m.confidence.None? ==>
              r.sources.Some? && r.confidence == Some(Confidence.Suggested(|r.sources.value|, TotalWeight(r.sources.value)))
  {
    if !NeedsMigration(m) then m
    else Stamped(Graded(Resourced(Backfilled(m), m.name, lib)), now)
  }

  /** Three or more sources are kept, fewer are replaced by the chosen
      ones. */
  lemma MigrateSources(m: Material, lib: seq<Library.LibSource>, now: string)
    ensures m.sources.Some? && |m.sources.value| >= 3 ==> Migrate(m, lib, now).sources == m.sources
    ensures NeedsMigration(m) && (m.sources.None? || |m.sources.value| < 3) ==>
              Migrate(m, lib, now).sources == Some(SourcesFor(m.name, lib))
  {
    if NeedsMigration(m) {
      var b := Backfilled(m);
      assert b.sources == m.sources && b.name == m.name;
    }
  }

  /** The stamps are added where falsy and kept otherwise. */
  lemma MigrateStamps(m: Material, lib: seq<Library.LibSource>, now: string)
    ensures var r := Migrate(m, lib, now);
      && (!Library.Falsy(m.whitepaperVersion) ==> r.whitepaperVersion == m.whitepaperVersion)
      && (!Library.Falsy(m.methodVersion) ==> r.methodVersion == m.methodVersion)
      && (!Library.Falsy(m.calculationTimestamp) ==> r.calculationTimestamp == m.calculationTimestamp)
      && (NeedsMigration(m) ==> !Library.Falsy(r.whitepaperVersion) && !Library.Falsy(r.methodVersion))
      && (NeedsMigration(m) && Library.Falsy(m.calculationTimestamp) ==> r.calculationTimestamp == Some(now))
  {
    if NeedsMigration(m) {
      var g := Graded(Resourced(Backfilled(m), m.name, lib));
      assert g.whitepaperVersion == m.whitepaperVersion && g.methodVersion == m.methodVersion;
      assert g.calculationTimestamp == m.calculationTimestamp;
    }
  }

  /** With a library of three or more sources and either a Y value or a
      defaults entry for the name, one migration leaves nothing to
      migrate. */
  lemma MigrateCompletes(m: Material, lib: seq<Library.LibSource>, now: string)
    requires |lib| >= 3 && (m.yValue.Some? || DefaultsFor(m.name).Some?)
    ensures !NeedsMigration(Migrate(m, lib, now))
  {
    MigrateSources(m, lib, now);
  }

  /** Migrating twice is migrating once. */
  lemma MigrateIdempotent(m: Material, lib: seq<Library.LibSource>, now: string)
    ensures Migrate(Migrate(m, lib, now), lib, now) == Migrate(m, lib, now)
  {
    var r := Migrate(m, lib, now);
    if NeedsMigration(m) && NeedsMigration(r) {
      var b := Backfilled(r);
      assert b == r;
      var s := Resourced(b, r.name, lib);
      assert s == r;
      assert Graded(s) == r;
      assert Stamped(r, now) == r;
    }
  }

  /** After migration the metadata panel always has scientific data to
      show, so it renders whether or not admin mode is on. */
  lemma MigratedIsShown(m: Material, lib: seq<Library.LibSource>, now: string)
    ensures MetadataView.HasScientificData(Migrate(m, lib, now))
    ensures forall adminMode :: MetadataView.Shown(Migrate(m, lib, now), adminMode)
  {
  }

  // ---------------------------------------------------------------------
  // Batches and statistics
  // ---------------------------------------------------------------------

  /** `migrateAllMaterials`. */
  function MigrateAll(ms: seq<Material>, lib: seq<Library.LibSource>, now: string): (r: seq<Material>)
    ensures |r| == |ms|
    ensures forall i :: 0 <= i < |ms| ==> r[i] == Migrate(ms[i], lib, now)
    ensures forall i :: 0 <= i < |ms| && !NeedsMigration(ms[i]) ==> r[i] == ms[i]
  {
    seq(|ms|, i requires 0 <= i < |ms| => Migrate(ms[i], lib, now))
  }

  datatype MigrationStats = MigrationStats(
    total: nat,
    needsMigration: nat,
    hasScientificData: nat,
    hasSources: nat,
    highConfidence: nat)

  predicate HasSources(m: Material) { m.sources.Some? && |m.sources.value| > 0 }
  predicate IsHigh(m: Material) { m.confidence == Some(High) }
  predicate HasY(m: Material) { m.yValue.Some? }

  /** `getMigrationStats`: every count is at most the total, and a material
      without sources or without Y needs migration. */
  function Stats(ms: seq<Material>): (s: MigrationStats)
    ensures s.total == |ms|
    ensures s.needsMigration <= s.total && s.hasScientificData <= s.total
    ensures s.hasSources <= s.total && s.highConfidence <= s.total
    ensures s.total - s.hasScientificData <= s.needsMigration
  {
    CountSplit(ms);
    CountImplies(ms);
    MigrationStats(|ms|, Seqs.Count(NeedsMigration, ms), Seqs.Count(HasY, ms),
                   Seqs.Count(HasSources, ms), Seqs.Count(IsHigh, ms))
  }

  predicate NoY(m: Material) { m.yValue.None? }

  /** Each material either has a Y value or has none. */
  lemma {:induction false} CountSplit(ms: seq<Material>)
    ensures Seqs.Count(HasY, ms) + Seqs.Count(NoY, ms) == |ms|
    decreases |ms|
  {
    if |ms| > 0 {
      CountSplit(ms[1..]);
    }
  }

  /** A material without Y needs migration. */
  lemma {:induction false} CountImplies(ms: seq<Material>)
    ensures Seqs.Count(NoY, ms) <= Seqs.Count(NeedsMigration, ms)
    decreases |ms|
  {
    if |ms| > 0 {
      CountImplies(ms[1..]);
    }
  }

  /** Migrating a batch never raises the number of materials that need
      migration. */
  lemma MigrateAllReducesWork(ms: seq<Material>, lib: seq<Library.LibSource>, now: string)
    ensures Stats(MigrateAll(ms, lib, now)).needsMigration <= Stats(ms).needsMigration
  {
    var r := MigrateAll(ms, lib, now);
    NeedsCountAfter(ms, r, lib, now);
  }

  lemma {:induction false} NeedsCountAfter(ms: seq<Material>, r: seq<Material>, lib: seq<Library.LibSource>, now: string)
    requires |r| == |ms| && forall i :: 0 <= i < |ms| ==> r[i] == Migrate(ms[i], lib, now)
    ensures Seqs.Count(NeedsMigration, r) <= Seqs.Count(NeedsMigration, ms)
    decreases |ms|
  {
    if |ms| > 0 {
      NeedsCountAfter(ms[1..], r[1..], lib, now);
    }
  }
}
