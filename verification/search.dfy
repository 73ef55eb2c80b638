/** The search results screen (`SearchResultsView.tsx`): the query, the
    category and minimum-score filters, the sort, and the per-category
    counts on the filter badges. */
module Search {
  import opened Wrappers
  import opened Materials
  import Text
  import Seqs
  import Sorting

  /** `sortBy`. */
  datatype SortKey = ByName | ByCompostability | ByRecyclability | ByReusability

  /** The filter panel's state. */
  datatype Filters = Filters(
    categories: seq<string>,
    minCompostability: int,
    minRecyclability: int,
    minReusability: int,
    sortBy: SortKey,
    descending: bool)

  /** The panel as it opens, and as "Clear all" leaves it. */
  const Cleared := Filters([], 0, 0, 0, ByName, false)

  /** The search text matches the name or the description, ignoring case;
      an empty query matches everything. */
  predicate MatchesQuery(m: Material, query: string) {
    query == "" || Text.ContainsCi(m.name, query)
    || (m.description.Some? && Text.ContainsCi(m.description.value, query))
  }

  /** What a result satisfies: the query, the category filter when one is
      set, and every positive minimum score. */
  predicate Keep(m: Material, query: string, f: Filters) {
    MatchesQuery(m, query)
    && (|f.categories| == 0 || m.category in f.categories)
    && (f.minCompostability <= 0 || m.compostability >= f.minCompostability)
    && (f.minRecyclability <= 0 || m.recyclability >= f.minRecyclability)
    && (f.minReusability <= 0 || m.reusability >= f.minReusability)
  }

  /** `if (cond) result = result.filter(p)`. */
  function When(cond: bool, p: Material -> bool, s: seq<Material>): seq<Material> {
    if cond then Seqs.Filter(p, s) else s
  }

  /** The chain of filters, in the order the screen applies them. */
  function Chain(ms: seq<Material>, query: string, f: Filters): seq<Material> {
    var byQuery := When(query != "", (m: Material) => MatchesQuery(m, query), ms);
    var byCategory := When(|f.categories| > 0, (m: Material) => m.category in f.categories, byQuery);
    var byC := When(f.minCompostability > 0, (m: Material) => m.compostability >= f.minCompostability, byCategory);
    var byR := When(f.minRecyclability > 0, (m: Material) => m.recyclability >= f.minRecyclability, byC);
    When(f.minReusability > 0, (m: Material) => m.reusability >= f.minReusability, byR)
  }

  /** The materials satisfying every filter, in their original order. */
  function Matching(ms: seq<Material>, query: string, f: Filters): (r: seq<Material>)
    ensures forall m :: m in r <==> m in ms && Keep(m, query, f)
    ensures multiset(r) <= multiset(ms)
  {
    Seqs.FilterSubMultiset((m: Material) => Keep(m, query, f), ms);
    Seqs.Filter((m: Material) => Keep(m, query, f), ms)
  }

  /** One conditional filter step after another filter is one filter. */
  lemma WhenAfter(p: Material -> bool, cond: bool, q: Material -> bool, pq: Material -> bool, s: seq<Material>)
    requires forall m :: pq(m) == (p(m) && (cond ==> q(m)))
    ensures When(cond, q, Seqs.Filter(p, s)) == Seqs.Filter(pq, s)
  {
    if cond {
      Seqs.FilterFilter(p, q, pq, s);
    } else {
      Seqs.FilterFilter(p, (m: Material) => true, pq, s);
      Seqs.FilterAll((m: Material) => true, Seqs.Filter(p, s));
    }
  }

  /** The screen's chain of filters keeps exactly what the conjunction
      keeps, in the same order. */
  lemma ChainIsMatching(ms: seq<Material>, query: string, f: Filters)
    ensures Chain(ms, query, f) == Matching(ms, query, f)
  {
    var q0 := (m: Material) => MatchesQuery(m, query);
    var k1 := (m: Material) => MatchesQuery(m, query) && (|f.categories| == 0 || m.category in f.categories);
    var k2 := (m: Material) => k1(m) && (f.minCompostability <= 0 || m.compostability >= f.minCompostability);
    var k3 := (m: Material) => k2(m) && (f.minRecyclability <= 0 || m.recyclability >= f.minRecyclability);
    var k4 := (m: Material) => Keep(m, query, f);
    var byQuery := When(query != "", q0, ms);
    if query == "" {
      Seqs.FilterAll(q0, ms);
    }
    assert byQuery == Seqs.Filter(q0, ms);
    WhenAfter(q0, |f.categories| > 0, (m: Material) => m.category in f.categories, k1, ms);
    WhenAfter(k1, f.minCompostability > 0, (m: Material) => m.compostability >= f.minCompostability, k2, ms);
    WhenAfter(k2, f.minRecyclability > 0, (m: Material) => m.recyclability >= f.minRecyclability, k3, ms);
    WhenAfter(k3, f.minReusability > 0, (m: Material) => m.reusability >= f.minReusability, k4, ms);
  }

  function NameOf(m: Material): string { m.name }
  function CompostabilityOf(m: Material): real { m.compostability as real }
  function RecyclabilityOf(m: Material): real { m.recyclability as real }
  function ReusabilityOf(m: Material): real { m.reusability as real }

  /** The numeric sort key, if the sort is by a score. */
  function ScoreKey(k: SortKey): Material -> real
    requires !k.ByName?
  {
    match k
    case ByCompostability => CompostabilityOf
    case ByRecyclability => RecyclabilityOf
    case ByReusability => ReusabilityOf
  }

  /** The comparator: name by the collation `localeCompare` applies, or
      score by subtraction, negated for descending order. */
  function Order(f: Filters, collate: Sorting.Collation): (Material, Material) -> bool {
    if f.sortBy.ByName? then
      (if f.descending then Sorting.Descending(NameOf, collate) else Sorting.Ascending(NameOf, collate))
    else
      (if f.descending then Sorting.DescendingBy(ScoreKey(f.sortBy)) else Sorting.AscendingBy(ScoreKey(f.sortBy)))
  }

  /** `filteredMaterials`: a sorted copy of the matching materials; the
      input list itself is never reordered. */
  function Results(ms: seq<Material>, query: string, f: Filters, collate: Sorting.Collation): (r: seq<Material>)
    ensures multiset(r) == multiset(Matching(ms, query, f))
    ensures multiset(r) <= multiset(ms)
    ensures forall m :: m in r <==> m in ms && Keep(m, query, f)
  {
    ChainIsMatching(ms, query, f);
    var r := Sorting.Sort(Chain(ms, query, f), Order(f, collate));
    assert forall m :: m in r <==> m in multiset(Matching(ms, query, f));
    r
  }

  /** Every sort the screen offers is consistent, given a collation that
      is, so the results come out in the chosen order. */
  lemma ResultsSorted(ms: seq<Material>, query: string, f: Filters, collate: Sorting.Collation)
    requires f.sortBy.ByName? ==> Sorting.Collates(collate)
    ensures Sorting.Sorted(Order(f, collate), Results(ms, query, f, collate))
  {
    var s := Chain(ms, query, f);
    assert Results(ms, query, f, collate) == Sorting.Sort(s, Order(f, collate));
    if f.sortBy.ByName? {
      Sorting.StringOrdersConsistent(NameOf, collate, s);
    } else {
      Sorting.NumberOrdersConsistent(ScoreKey(f.sortBy), s);
    }
    Sorting.SortSorted(s, Order(f, collate));
  }

  /** Sorting by a score in descending order puts higher scores first. */
  lemma DescendingScoresFirst(ms: seq<Material>, query: string, f: Filters, collate: Sorting.Collation)
    requires !f.sortBy.ByName? && f.descending
    ensures var r := Results(ms, query, f, collate);
      forall i, j :: 0 <= i < j < |r| ==> ScoreKey(f.sortBy)(r[i]) >= ScoreKey(f.sortBy)(r[j])
  {
    var r := Results(ms, query, f, collate);
    ResultsSorted(ms, query, f, collate);
    forall i, j | 0 <= i < j < |r| ensures ScoreKey(f.sortBy)(r[i]) >= ScoreKey(f.sortBy)(r[j]) {
      Sorting.DescendingByMeans(ScoreKey(f.sortBy), r[i], r[j]);
    }
  }

  /** `getCategoryCount`: the query and the category only, not the score
      filters. */
  function CategoryCount(ms: seq<Material>, query: string, category: string): nat {
    |Seqs.Filter((m: Material) => MatchesQuery(m, query) && m.category == category, ms)|
  }

  /** A badge's count is the number of results the screen would show with
      only that category selected and no minimum scores, in any sort. */
  lemma CategoryCountIsSelectionSize(ms: seq<Material>, query: string, category: string, sortBy: SortKey, descending: bool, collate: Sorting.Collation)
    ensures CategoryCount(ms, query, category)
            == |Results(ms, query, Filters([category], 0, 0, 0, sortBy, descending), collate)|
  {
    var f := Filters([category], 0, 0, 0, sortBy, descending);
    Seqs.FilterExt((m: Material) => Keep(m, query, f),
                   (m: Material) => MatchesQuery(m, query) && m.category == category, ms);
    assert |Results(ms, query, f, collate)| == |multiset(Matching(ms, query, f))|;
  }

  /** `toggleCategory`: remove it when selected, append it otherwise. */
  function Toggle(selected: seq<string>, category: string): (r: seq<string>)
    ensures category in r <==> category !in selected
    ensures forall c :: c != category ==> (c in r <==> c in selected)
  {
    if category in selected then Seqs.Filter((c: string) => c != category, selected)
    else selected + [category]
  }

  /** Toggling twice restores the selected set. */
  lemma ToggleTwice(selected: seq<string>, category: string)
    ensures forall c :: c in Toggle(Toggle(selected, category), category) <==> c in selected
  {
  }

  /** `hasActiveFilters`: a category or a positive minimum; the sort does
      not count. */
  predicate HasActiveFilters(f: Filters) {
    |f.categories| > 0 || f.minCompostability > 0 || f.minRecyclability > 0 || f.minReusability > 0
  }

  /** Without active filters the results are exactly the query's matches,
      whatever the sort. */
  lemma InactiveFiltersKeepQueryMatches(ms: seq<Material>, query: string, f: Filters, collate: Sorting.Collation)
    requires !HasActiveFilters(f)
    ensures forall m :: m in Results(ms, query, f, collate) <==> m in ms && MatchesQuery(m, query)
  {
  }

  /** The sort settings do not make a filter active. */
  lemma SortIsNotAFilter(f: Filters, k: SortKey, d: bool)
    ensures HasActiveFilters(f.(sortBy := k, descending := d)) == HasActiveFilters(f)
  {
  }

  /** `clearFilters`: no filter stays active, and the sort returns to name,
      ascending. */
  function Clear(f: Filters): (r: Filters)
    ensures !HasActiveFilters(r) && r.sortBy == ByName && !r.descending
  {
    Cleared
  }
}
