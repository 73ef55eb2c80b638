/** Generic sequence helpers: the `Array.prototype.map` / `filter` / `some`
    shapes the source relies on, and the facts the other modules need. */
module Seqs {

  /** `s.map(f)`. */
  function Map<A, B>(f: A -> B, s: seq<A>): (r: seq<B>)
    ensures |r| == |s|
    ensures forall i :: 0 <= i < |s| ==> r[i] == f(s[i])
    decreases |s|
  {
    if |s| == 0 then [] else [f(s[0])] + Map(f, s[1..])
  }

  /** `s.filter(p)`: the elements satisfying `p`, in their original order. */
  function Filter<A(==)>(p: A -> bool, s: seq<A>): (r: seq<A>)
    ensures |r| <= |s|
    ensures forall i :: 0 <= i < |r| ==> r[i] in s
    ensures forall i :: 0 <= i < |s| && p(s[i]) ==> s[i] in r
    ensures forall i :: 0 <= i < |r| ==> p(r[i])
    decreases |s|
  {
    if |s| == 0 then []
    else (if p(s[0]) then [s[0]] else []) + Filter(p, s[1..])
  }

  /** The number of elements satisfying `p`. */
  function Count<A(==)>(p: A -> bool, s: seq<A>): (n: nat)
    ensures n <= |s|
  {
    |Filter(p, s)|
  }

  /** Pairwise-distinct elements. */
  predicate Distinct<A(==)>(s: seq<A>) {
    forall i, j :: 0 <= i < j < |s| ==> s[i] != s[j]
  }

  /** Sum of a sequence of reals. */
  function SumReal(s: seq<real>): real
    decreases |s|
  {
    if |s| == 0 then 0.0 else s[0] + SumReal(s[1..])
  }

  lemma {:induction false} FilterAll<A>(p: A -> bool, s: seq<A>)
    requires forall i :: 0 <= i < |s| ==> p(s[i])
    ensures Filter(p, s) == s
    decreases |s|
  {
    if |s| > 0 {
      FilterAll(p, s[1..]);
    }
  }

  lemma {:induction false} FilterNone<A>(p: A -> bool, s: seq<A>)
    requires forall i :: 0 <= i < |s| ==> !p(s[i])
    ensures Filter(p, s) == []
    decreases |s|
  {
    if |s| > 0 {
      FilterNone(p, s[1..]);
    }
  }

  lemma {:induction false} FilterConcat<A>(p: A -> bool, a: seq<A>, b: seq<A>)
    ensures Filter(p, a + b) == Filter(p, a) + Filter(p, b)
    decreases |a|
  {
    if |a| == 0 {
      assert a + b == b;
    } else {
      assert (a + b)[1..] == a[1..] + b;
      FilterConcat(p, a[1..], b);
    }
  }

  /** A filter keeps every copy of an element it accepts and none of one
      it rejects. */
  lemma {:induction false} FilterMultiplicity<A>(p: A -> bool, s: seq<A>, x: A)
    ensures multiset(Filter(p, s))[x] == if p(x) then multiset(s)[x] else 0
    decreases |s|
  {
    if |s| > 0 {
      FilterMultiplicity(p, s[1..], x);
      assert s == [s[0]] + s[1..];
      assert multiset(s)[x] == multiset{s[0]}[x] + multiset(s[1..])[x];
      var head := if p(s[0]) then [s[0]] else [];
      assert multiset(Filter(p, s))[x] == multiset(head)[x] + multiset(Filter(p, s[1..]))[x];
    }
  }

  /** Three filters that between them pick every element exactly once
      split the sequence. */
  lemma FilterPartition3<A>(p: A -> bool, q: A -> bool, r: A -> bool, s: seq<A>)
    requires forall x :: (p(x) || q(x) || r(x)) && !(p(x) && q(x)) && !(p(x) && r(x)) && !(q(x) && r(x))
    ensures multiset(Filter(p, s)) + multiset(Filter(q, s)) + multiset(Filter(r, s)) == multiset(s)
  {
    var whole := multiset(Filter(p, s)) + multiset(Filter(q, s)) + multiset(Filter(r, s));
    forall x ensures whole[x] == multiset(s)[x] {
      FilterMultiplicity(p, s, x);
      FilterMultiplicity(q, s, x);
      FilterMultiplicity(r, s, x);
    }
  }

  /** The three parts' lengths add up to the whole. */
  lemma FilterPartition3Sizes<A>(p: A -> bool, q: A -> bool, r: A -> bool, s: seq<A>)
    requires forall x :: (p(x) || q(x) || r(x)) && !(p(x) && q(x)) && !(p(x) && r(x)) && !(q(x) && r(x))
    ensures |Filter(p, s)| + |Filter(q, s)| + |Filter(r, s)| == |s|
  {
    FilterPartition3(p, q, r, s);
    assert |multiset(Filter(p, s)) + multiset(Filter(q, s)) + multiset(Filter(r, s))| == |multiset(s)|;
  }

  /** Filtering twice is filtering once by the conjunction. */
  lemma {:induction false} FilterFilter<A>(p: A -> bool, q: A -> bool, pq: A -> bool, s: seq<A>)
    requires forall x :: pq(x) == (p(x) && q(x))
    ensures Filter(q, Filter(p, s)) == Filter(pq, s)
    decreases |s|
  {
    if |s| > 0 {
      FilterFilter(p, q, pq, s[1..]);
      FilterConcat(q, if p(s[0]) then [s[0]] else [], Filter(p, s[1..]));
    }
  }

  /** Filters by predicates that agree everywhere agree. */
  lemma {:induction false} FilterExt<A>(p: A -> bool, q: A -> bool, s: seq<A>)
    requires forall x :: p(x) == q(x)
    ensures Filter(p, s) == Filter(q, s)
    decreases |s|
  {
    if |s| > 0 {
      FilterExt(p, q, s[1..]);
    }
  }

  /** A filter keeps a sub-multiset. */
  lemma {:induction false} FilterSubMultiset<A>(p: A -> bool, s: seq<A>)
    ensures multiset(Filter(p, s)) <= multiset(s)
    decreases |s|
  {
    if |s| > 0 {
      FilterSubMultiset(p, s[1..]);
      assert s == [s[0]] + s[1..];
    }
  }

  lemma {:induction false} SumRealConcat(a: seq<real>, b: seq<real>)
    ensures SumReal(a + b) == SumReal(a) + SumReal(b)
    decreases |a|
  {
    if |a| == 0 {
      assert a + b == b;
    } else {
      assert (a + b)[1..] == a[1..] + b;
      SumRealConcat(a[1..], b);
    }
  }

  /** The position `Array.prototype.slice` uses for an index argument:
      negative values count from the end, and the result is clamped to
      `[0, n]`. */
  function SliceIndex(k: int, n: nat): (r: nat)
    ensures r <= n
    ensures 0 <= k <= n ==> r == k
    ensures k > n ==> r == n
    ensures k < 0 ==> r == if n + k < 0 then 0 else n + k
  {
    if k < 0 then (if n + k < 0 then 0 else n + k) else if k > n then n else k
  }

  /** `s.slice(k)`. */
  function SliceFrom<A>(s: seq<A>, k: int): seq<A> {
    s[SliceIndex(k, |s|)..]
  }

  /** `s.slice(0, k)`. */
  function SliceTo<A>(s: seq<A>, k: int): seq<A> {
    s[..SliceIndex(k, |s|)]
  }

  /** `xs.some(x => ys.includes(x))`. */
  predicate SomeIn<A(==)>(xs: seq<A>, ys: seq<A>)
    decreases |xs|
  {
    |xs| > 0 && (xs[0] in ys || SomeIn(xs[1..], ys))
  }

  lemma {:induction false} SomeInMeans<A>(xs: seq<A>, ys: seq<A>)
    ensures SomeIn(xs, ys) <==> exists x :: x in xs && x in ys
    decreases |xs|
  {
    if |xs| > 0 {
      SomeInMeans(xs[1..], ys);
      assert forall x :: x in xs[1..] ==> x in xs;
      assert forall x :: x in xs ==> x == xs[0] || x in xs[1..];
    }
  }

  /** `s.filter((_, i) => i !== index)` on the suffix of a list that starts
      at position `offset`. */
  function WithoutIndexFrom<A>(s: seq<A>, index: int, offset: nat): (r: seq<A>)
    ensures offset <= index < offset + |s| ==> r == s[..index - offset] + s[index - offset + 1..]
    ensures !(offset <= index < offset + |s|) ==> r == s
    decreases |s|
  {
    if |s| == 0 then []
    else
      var rest := WithoutIndexFrom(s[1..], index, offset + 1);
      (if offset == index then [] else [s[0]]) + rest
  }

  /** `s.filter((_, i) => i !== index)`: the element at `index` removed, or
      the list unchanged when `index` is not a position of it. */
  function WithoutIndex<A>(s: seq<A>, index: int): (r: seq<A>)
    ensures 0 <= index < |s| ==> |r| == |s| - 1 && r == s[..index] + s[index + 1..]
    ensures !(0 <= index < |s|) ==> r == s
  {
    WithoutIndexFrom(s, index, 0)
  }
}
