/** `Array.prototype.sort` with a comparator, modelled as a stable
    insertion sort: `le(a, b)` holds when the comparator returns a
    non-positive number for `(a, b)`, so `a` may stay before `b`. */
module Sorting {
  import Text

  /** `le` is total and transitive on the elements of `s`: the comparator
      is consistent there. */
  predicate TotalPreorder<A(==)>(le: (A, A) -> bool, s: seq<A>) {
    (forall a, b :: a in s && b in s ==> le(a, b) || le(b, a))
    && (forall a, b, c :: a in s && b in s && c in s && le(a, b) && le(b, c) ==> le(a, c))
  }

  /** Every element may stay before every later one. */
  predicate Sorted<A(==)>(le: (A, A) -> bool, s: seq<A>) {
    forall i, j :: 0 <= i < j < |s| ==> le(s[i], s[j])
  }

  /** Insert `x` before the first element it may stand before; placing it
      before its equals keeps the sort stable, since `x` came first. */
  function Insert<A(==)>(x: A, t: seq<A>, le: (A, A) -> bool): (r: seq<A>)
    ensures multiset(r) == multiset(t) + multiset{x}
    decreases |t|
  {
    if |t| == 0 then [x]
    else if le(x, t[0]) then [x] + t
    else
      var rest := Insert(x, t[1..], le);
      assert t == [t[0]] + t[1..];
      [t[0]] + rest
  }

  lemma {:induction false} InsertSorted<A>(x: A, t: seq<A>, le: (A, A) -> bool)
    requires TotalPreorder(le, [x] + t) && Sorted(le, t)
    ensures Sorted(le, Insert(x, t, le))
    decreases |t|
  {
    if |t| > 0 && !le(x, t[0]) {
      assert t[0] in [x] + t && x in [x] + t;
      assert le(t[0], x);
      var rest := Insert(x, t[1..], le);
      assert TotalPreorder(le, [x] + t[1..]) by {
        forall y | y in [x] + t[1..] ensures y in [x] + t {
          if y != x { assert y in t; }
        }
      }
      InsertSorted(x, t[1..], le);
      forall k | 0 <= k < |rest| ensures le(t[0], rest[k]) {
        assert rest[k] in multiset(rest);
        assert rest[k] == x || rest[k] in multiset(t[1..]);
        if rest[k] != x {
          var j :| 0 <= j < |t[1..]| && t[1..][j] == rest[k];
          assert t[j + 1] == rest[k];
        }
      }
      var r := [t[0]] + rest;
      forall i, j | 0 <= i < j < |r| ensures le(r[i], r[j]) {
        if i > 0 { assert r[i] == rest[i - 1] && r[j] == rest[j - 1]; }
        else { assert r[j] == rest[j - 1]; }
      }
    } else if |t| > 0 {
      var r := [x] + t;
      forall i, j | 0 <= i < j < |r| ensures le(r[i], r[j]) {
        if i == 0 {
          assert r[j] == t[j - 1];
          assert r[j] in [x] + t && t[0] in [x] + t;
        }
      }
    }
  }

  /** `[...s].sort(cmp)`: a permutation of `s`. */
  function Sort<A(==)>(s: seq<A>, le: (A, A) -> bool): (r: seq<A>)
    ensures multiset(r) == multiset(s)
    decreases |s|
  {
    if |s| == 0 then []
    else
      assert s == [s[0]] + s[1..];
      Insert(s[0], Sort(s[1..], le), le)
  }

  /** For a consistent comparator the sorted copy is sorted. */
  lemma {:induction false} SortSorted<A>(s: seq<A>, le: (A, A) -> bool)
    requires TotalPreorder(le, s)
    ensures Sorted(le, Sort(s, le))
    decreases |s|
  {
    if |s| > 0 {
      var rest := Sort(s[1..], le);
      assert s == [s[0]] + s[1..];
      assert TotalPreorder(le, s[1..]) by {
        forall y | y in s[1..] ensures y in s { }
      }
      SortSorted(s[1..], le);
      assert TotalPreorder(le, [s[0]] + rest) by {
        forall y | y in [s[0]] + rest ensures y in s {
          if y != s[0] {
            assert y in multiset(rest);
          }
        }
      }
      InsertSorted(s[0], rest, le);
    }
  }

  /** The sum of `f` over a sequence. */
  function SumBy<A>(f: A -> real, s: seq<A>): real
    decreases |s|
  {
    if |s| == 0 then 0.0 else f(s[0]) + SumBy(f, s[1..])
  }

  lemma {:induction false} InsertSum<A>(f: A -> real, x: A, t: seq<A>, le: (A, A) -> bool)
    ensures SumBy(f, Insert(x, t, le)) == f(x) + SumBy(f, t)
    decreases |t|
  {
    if |t| > 0 && !le(x, t[0]) {
      InsertSum(f, x, t[1..], le);
      assert Insert(x, t, le)[1..] == Insert(x, t[1..], le);
    }
  }

  /** Sorting does not change a sum. */
  lemma {:induction false} SortSum<A>(f: A -> real, s: seq<A>, le: (A, A) -> bool)
    ensures SumBy(f, Sort(s, le)) == SumBy(f, s)
    decreases |s|
  {
    if |s| > 0 {
      SortSum(f, s[1..], le);
      InsertSum(f, s[0], Sort(s[1..], le), le);
    }
  }

  /** A string collation such as `localeCompare`: negative, zero or
      positive as the first string sorts before, with or after the second. */
  type Collation = (string, string) -> int

  /** What a sort needs of a collation: the sign flips when the two
      strings swap, and "not after" is transitive. */
  ghost predicate Collates(collate: Collation) {
    (forall x, y :: collate(x, y) < 0 <==> collate(y, x) > 0)
    && (forall x, y, z :: collate(x, y) <= 0 && collate(y, z) <= 0 ==> collate(x, z) <= 0)
  }

  /** Code-unit order, one collation that qualifies. */
  function CodeUnits(x: string, y: string): int {
    if Text.Less(x, y) then -1 else if x == y then 0 else 1
  }

  /** `(a, b) => key(a).localeCompare(key(b))`. */
  function Ascending<A>(key: A -> string, collate: Collation): (A, A) -> bool {
    (a: A, b: A) => collate(key(a), key(b)) <= 0
  }

  /** The same comparator negated. */
  function Descending<A>(key: A -> string, collate: Collation): (A, A) -> bool {
    (a: A, b: A) => -collate(key(a), key(b)) <= 0
  }

  /** `(a, b) => key(a) - key(b)`. */
  function AscendingBy<A>(key: A -> real): (A, A) -> bool {
    (a: A, b: A) => key(a) - key(b) <= 0.0
  }

  /** `(a, b) => key(b) - key(a)`. */
  function DescendingBy<A>(key: A -> real): (A, A) -> bool {
    (a: A, b: A) => key(b) - key(a) <= 0.0
  }

  lemma DescendingByMeans<A>(key: A -> real, a: A, b: A)
    ensures DescendingBy(key)(a, b) <==> key(a) >= key(b)
  {
  }

  lemma AscendingByMeans<A>(key: A -> real, a: A, b: A)
    ensures AscendingBy(key)(a, b) <==> key(a) <= key(b)
  {
  }

  /** Code-unit order is a collation a sort can use. */
  lemma CodeUnitsCollate()
    ensures Collates(CodeUnits)
  {
    forall x, y ensures CodeUnits(x, y) < 0 <==> CodeUnits(y, x) > 0 {
      if x != y { Text.LessTotal(x, y); }
      if Text.Less(x, y) && Text.Less(y, x) { Text.LessTransitive(x, y, x); Text.LessIrreflexive(x); }
    }
    forall x, y, z | CodeUnits(x, y) <= 0 && CodeUnits(y, z) <= 0 ensures CodeUnits(x, z) <= 0 {
      if Text.Less(x, y) && Text.Less(y, z) { Text.LessTransitive(x, y, z); }
    }
  }

  /** Ordering by a string key under a collation, either way, is
      consistent. */
  lemma StringOrdersConsistent<A>(key: A -> string, collate: Collation, s: seq<A>)
    requires Collates(collate)
    ensures TotalPreorder(Ascending(key, collate), s) && TotalPreorder(Descending(key, collate), s)
  {
    forall a, b, c | a in s && b in s && c in s
      ensures Descending(key, collate)(a, b) && Descending(key, collate)(b, c) ==> Descending(key, collate)(a, c)
    {
      if Descending(key, collate)(a, b) && Descending(key, collate)(b, c) {
        assert collate(key(b), key(a)) <= 0 && collate(key(c), key(b)) <= 0;
        assert collate(key(c), key(a)) <= 0;
      }
    }
  }

  /** Ordering by a numeric key, either way, is consistent. */
  lemma NumberOrdersConsistent<A>(key: A -> real, s: seq<A>)
    ensures TotalPreorder(AscendingBy(key), s) && TotalPreorder(DescendingBy(key), s)
  {
  }
}
