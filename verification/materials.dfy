/** The material record shared by the views, the editors and the context
    provider, and the three-valued confidence level they all grade it by. */
module Materials {
  import opened Wrappers

  /** `'High' | 'Medium' | 'Low'`. */
  datatype Level = High | Medium | Low

  /** The ordering the editors use to compare levels: High 3, Medium 2, Low 1. */
  function Rank(l: Level): (r: nat)
    ensures 1 <= r <= 3
    ensures r == 3 <==> l == High
    ensures r == 1 <==> l == Low
  {
    match l
    case High => 3
    case Medium => 2
    case Low => 1
  }

  /** A 95% confidence interval `{ lower, upper }`. */
  datatype CI = CI(lower: real, upper: real)

  /** A citation attached to a material's scientific data. */
  datatype Source = Source(
    title: string,
    authors: Option<string>,
    year: Option<int>,
    doi: Option<string>,
    url: Option<string>,
    weight: Option<real>,
    parameters: Option<seq<string>>)

  /** An article attached to a material; its contents are never inspected. */
  datatype Article = Article(id: string, title: string)

  /** `{ compostability: [], recyclability: [], reusability: [] }`. */
  datatype Articles = Articles(
    compostability: seq<Article>,
    recyclability: seq<Article>,
    reusability: seq<Article>)

  const NoArticles := Articles([], [], [])

  /** A material. The three scores are whole numbers (every writer rounds or
      parses them); the scientific fields are optional. */
  datatype Material = Material(
    id: string,
    name: string,
    category: string,
    compostability: int,
    recyclability: int,
    reusability: int,
    description: Option<string>,
    articles: Option<Articles>,
    yValue: Option<real>,
    dValue: Option<real>,
    cValue: Option<real>,
    mValue: Option<real>,
    eValue: Option<real>,
    crPracticalMean: Option<real>,
    crTheoreticalMean: Option<real>,
    crPracticalCi: Option<CI>,
    crTheoreticalCi: Option<CI>,
    confidence: Option<Level>,
    sources: Option<seq<Source>>,
    whitepaperVersion: Option<string>,
    calculationTimestamp: Option<string>,
    methodVersion: Option<string>)

  /** A material with only the basic fields set. */
  function Basic(id: string, name: string, category: string, compostability: int,
                 recyclability: int, reusability: int, description: Option<string>): Material
  {
    Material(id, name, category, compostability, recyclability, reusability, description,
             None, None, None, None, None, None, None, None, None, None, None, None,
             None, None, None)
  }

  /** JavaScript truthiness of an optional number: present and non-zero. */
  predicate Truthy(x: Option<real>) {
    x.Some? && x.value != 0.0
  }

  /** `m.sources?.length || 0`. */
  function SourceCount(m: Material): nat {
    if m.sources.Some? then |m.sources.value| else 0
  }

  /** `s.weight || 1.0`: a missing or zero weight counts as 1.0. */
  function WeightOrOne(s: Source): real {
    if s.weight.Some? && s.weight.value != 0.0 then s.weight.value else 1.0
  }

  /** Sum of `weight || 1.0` over the sources. */
  function TotalWeight(ss: seq<Source>): real
    decreases |ss|
  {
    if |ss| == 0 then 0.0 else WeightOrOne(ss[0]) + TotalWeight(ss[1..])
  }

  /** The index of the first material with the given id, if any. */
  function FindIndex(ms: seq<Material>, id: string): (r: Option<nat>)
    ensures r.Some? ==> r.value < |ms| && ms[r.value].id == id
    ensures r.Some? ==> forall j :: 0 <= j < r.value ==> ms[j].id != id
    ensures r.None? ==> forall j :: 0 <= j < |ms| ==> ms[j].id != id
    decreases |ms|
  {
    if |ms| == 0 then None
    else if ms[0].id == id then Some(0)
    else match FindIndex(ms[1..], id)
      case None => None
      case Some(k) => Some(k + 1)
  }
}
