/** Ranking library sources by a score and picking a few of them, as the
    migration does. Sources are identified by their position in the
    library: the selection compares source objects by identity, and two
    library entries are always two objects. */
module Ranking {
  import opened Wrappers
  import Seqs

  /** Every position is a position of the score table. */
  predicate InRange(s: seq<nat>, n: nat) {
    forall i :: 0 <= i < |s| ==> s[i] < n
  }

  /** Scores do not increase along the list. */
  predicate SortedDesc(s: seq<nat>, scores: seq<real>)
    requires InRange(s, |scores|)
  {
    forall i, j :: 0 <= i < j < |s| ==> scores[s[i]] >= scores[s[j]]
  }

  /** Positions with equal scores keep their relative order. */
  predicate Stable(s: seq<nat>, scores: seq<real>)
    requires InRange(s, |scores|)
  {
    forall i, j :: 0 <= i < j < |s| && scores[s[i]] == scores[s[j]] ==> s[i] < s[j]
  }

  predicate Increasing(s: seq<nat>) {
    forall i, j :: 0 <= i < j < |s| ==> s[i] < s[j]
  }

  /** Insert `x` before the first element whose score does not exceed its
      own, so that it stays ahead of the elements it ties with. */
  function Insert(x: nat, t: seq<nat>, scores: seq<real>): (r: seq<nat>)
    requires x < |scores| && InRange(t, |scores|)
    ensures InRange(r, |scores|)
    ensures multiset(r) == multiset(t) + multiset{x}
    ensures |r| == |t| + 1
    ensures forall y :: y in r <==> y == x || y in t
    decreases |t|
  {
    if |t| == 0 || scores[t[0]] <= scores[x] then [x] + t
    else
      var rest := Insert(x, t[1..], scores);
      assert t == [t[0]] + t[1..];
      [t[0]] + rest
  }

  lemma {:induction false} InsertSorted(x: nat, t: seq<nat>, scores: seq<real>)
    requires x < |scores| && InRange(t, |scores|) && SortedDesc(t, scores)
    ensures SortedDesc(Insert(x, t, scores), scores)
    decreases |t|
  {
    if |t| > 0 && scores[t[0]] > scores[x] {
      InsertSorted(x, t[1..], scores);
      var rest := Insert(x, t[1..], scores);
      var r := Insert(x, t, scores);
      assert r == [t[0]] + rest;
      forall i, j | 0 <= i < j < |r|
        ensures scores[r[i]] >= scores[r[j]]
      {
        if i == 0 {
          var y := rest[j - 1];
          assert y in rest;
          if y != x {
            var k :| 0 <= k < |t[1..]| && t[1..][k] == y;
            assert t[k + 1] == y;
          }
        } else {
          assert r[i] == rest[i - 1] && r[j] == rest[j - 1];
        }
      }
    }
  }

  lemma {:induction false} InsertStable(x: nat, t: seq<nat>, scores: seq<real>)
    requires x < |scores| && InRange(t, |scores|) && Stable(t, scores)
    requires forall i :: 0 <= i < |t| ==> x < t[i]
    ensures Stable(Insert(x, t, scores), scores)
    decreases |t|
  {
    if |t| > 0 && scores[t[0]] > scores[x] {
      InsertStable(x, t[1..], scores);
      var rest := Insert(x, t[1..], scores);
      var r := Insert(x, t, scores);
      assert r == [t[0]] + rest;
      forall i, j | 0 <= i < j < |r| && scores[r[i]] == scores[r[j]]
        ensures r[i] < r[j]
      {
        if i == 0 {
          var y := rest[j - 1];
          assert r[j] == y && scores[y] == scores[t[0]];
          assert y != x;
          assert y in rest;
          var k :| 0 <= k < |t[1..]| && t[1..][k] == y;
          assert t[k + 1] == y;
        } else {
          assert r[i] == rest[i - 1] && r[j] == rest[j - 1];
        }
      }
    }
  }

  /** `positions.sort((a, b) => score(b) - score(a))`, stable. */
  function Sort(s: seq<nat>, scores: seq<real>): (r: seq<nat>)
    requires InRange(s, |scores|)
    ensures InRange(r, |scores|)
    ensures multiset(r) == multiset(s)
    ensures |r| == |s|
    ensures SortedDesc(r, scores)
    decreases |s|
  {
    if |s| == 0 then []
    else
      var rest := Sort(s[1..], scores);
      assert s == [s[0]] + s[1..];
      InsertSorted(s[0], rest, scores);
      Insert(s[0], rest, scores)
  }

  /** Sorting increasing positions keeps ties in position order. */
  lemma {:induction false} SortStable(s: seq<nat>, scores: seq<real>)
    requires InRange(s, |scores|) && Increasing(s)
    ensures Stable(Sort(s, scores), scores)
    decreases |s|
  {
    if |s| > 0 {
      var rest := Sort(s[1..], scores);
      assert s == [s[0]] + s[1..];
      SortStable(s[1..], scores);
      forall i | 0 <= i < |rest| ensures s[0] < rest[i] {
        assert rest[i] in multiset(s[1..]);
        var k :| 0 <= k < |s[1..]| && s[1..][k] == rest[i];
        assert s[k + 1] == rest[i];
      }
      InsertStable(s[0], rest, scores);
    }
  }

  /** Pairwise-distinct elements follow from distinct input through equal
      multisets. */
  lemma {:induction false} DistinctByMultiset(a: seq<nat>, b: seq<nat>)
    requires multiset(a) == multiset(b) && Seqs.Distinct(a)
    ensures Seqs.Distinct(b)
  {
    forall i, j | 0 <= i < j < |b|
      ensures b[i] != b[j]
    {
      if b[i] == b[j] {
        var x := b[i];
        assert multiset(b[..j]) + multiset(b[j..]) == multiset(b) by {
          assert b == b[..j] + b[j..];
        }
        assert x in multiset(b[..j]) && x in multiset(b[j..]);
        assert multiset(b)[x] >= 2;
        DistinctCount(a, x);
      }
    }
  }

  lemma {:induction false} DistinctCount(a: seq<nat>, x: nat)
    requires Seqs.Distinct(a)
    ensures multiset(a)[x] <= 1
    decreases |a|
  {
    if |a| > 0 {
      assert a == [a[0]] + a[1..];
      DistinctCount(a[1..], x);
      if a[0] == x {
        assert x !in a[1..];
      }
    }
  }

  /** The positions `0 .. n - 1` in order. */
  function Positions(n: nat): (r: seq<nat>)
    ensures |r| == n && InRange(r, n) && Increasing(r)
    ensures forall i :: 0 <= i < n ==> r[i] == i
  {
    seq(n, i requires 0 <= i < n => i)
  }

  /** Every library position ranked once, best score first, ties in
      library order. */
  function Rank(scores: seq<real>): (r: seq<nat>)
    ensures |r| == |scores| && InRange(r, |scores|)
    ensures Seqs.Distinct(r)
    ensures forall i :: 0 <= i < |scores| ==> i in r
    ensures SortedDesc(r, scores) && Stable(r, scores)
  {
    var ps := Positions(|scores|);
    var r := Sort(ps, scores);
    SortStable(ps, scores);
    DistinctByMultiset(ps, r);
    forall i | 0 <= i < |scores| ensures i in r {
      assert ps[i] == i;
      assert i in multiset(ps);
    }
    r
  }

  // ---------------------------------------------------------------------
  // Selection
  // ---------------------------------------------------------------------

  /** `xs.forEach(x => { if (!sel.includes(x)) sel.push(x) })`. */
  function PushNew(sel: seq<nat>, xs: seq<nat>): (r: seq<nat>)
    ensures Seqs.Distinct(sel) ==> Seqs.Distinct(r)
    ensures |r| <= |sel| + |xs|
    ensures forall x :: x in r <==> x in sel || x in xs
    decreases |xs|
  {
    if |xs| == 0 then sel
    else if xs[0] in sel then PushNew(sel, xs[1..])
    else PushNew(sel + [xs[0]], xs[1..])
  }

  /** The loop that tops the selection up to three: walk the ranking and
      add each position not yet selected, stopping at three. */
  function Fill(sel: seq<nat>, xs: seq<nat>): (r: seq<nat>)
    requires |sel| < 3
    ensures Seqs.Distinct(sel) ==> Seqs.Distinct(r)
    ensures |r| <= 3
    ensures forall x :: x in r ==> x in sel || x in xs
    ensures |r| < 3 ==> forall x :: x in xs ==> x in r
    ensures forall x :: x in sel ==> x in r
    decreases |xs|
  {
    if |xs| == 0 then sel
    else if xs[0] in sel then Fill(sel, xs[1..])
    else
      var s2 := sel + [xs[0]];
      if |s2| >= 3 then s2 else Fill(s2, xs[1..])
  }

  /** The first position of the ranking satisfying `p`: every position
      ranked before it fails `p`. */
  function FirstWhere(xs: seq<nat>, p: nat -> bool): (r: Option<nat>)
    ensures r.Some? ==> r.value in xs && p(r.value)
    ensures r.Some? ==> exists k :: 0 <= k < |xs| && xs[k] == r.value && forall j :: 0 <= j < k ==> !p(xs[j])
    ensures r.None? ==> forall i :: 0 <= i < |xs| ==> !p(xs[i])
    decreases |xs|
  {
    if |xs| == 0 then None
    else if p(xs[0]) then Some(xs[0])
    else
      var rest := FirstWhere(xs[1..], p);
      assert forall i :: 1 <= i < |xs| ==> xs[i] == xs[1..][i - 1];
      assert rest.Some? ==> exists k :: 0 <= k < |xs| && xs[k] == rest.value && forall j :: 0 <= j < k ==> !p(xs[j]) by {
        if rest.Some? {
          var k :| 0 <= k < |xs[1..]| && xs[1..][k] == rest.value && forall j :: 0 <= j < k ==> !p(xs[1..][j]);
          assert xs[k + 1] == rest.value && forall j :: 0 <= j < k + 1 ==> !p(xs[j]);
        }
      }
      rest
  }

  /** The elements of a list, as a set. */
  function Elements(a: seq<nat>): (r: set<nat>)
    ensures forall x :: x in r <==> x in a
    decreases |a|
  {
    if |a| == 0 then {} else {a[0]} + Elements(a[1..])
  }

  /** A distinct list that contains every element of another distinct list
      is at least as long. */
  lemma CoverLength(a: seq<nat>, b: seq<nat>)
    requires Seqs.Distinct(a) && Seqs.Distinct(b)
    ensures (forall x :: x in a ==> x in b) ==> |a| <= |b|
  {
    if !(forall x :: x in a ==> x in b) { return; }
    DistinctCard(a);
    DistinctCard(b);
    SubsetCard(Elements(a), Elements(b));
  }

  lemma {:induction false} DistinctCard(a: seq<nat>)
    requires Seqs.Distinct(a)
    ensures |Elements(a)| == |a|
    decreases |a|
  {
    if |a| > 0 {
      DistinctCard(a[1..]);
      assert a[0] !in a[1..];
      assert Elements(a) == {a[0]} + Elements(a[1..]);
    }
  }

  lemma {:induction false} SubsetCard(a: set<nat>, b: set<nat>)
    requires a <= b
    ensures |a| <= |b|
    decreases |a|
  {
    if a != {} {
      var x :| x in a;
      SubsetCard(a - {x}, b - {x});
    }
  }

  /** The first four ranked positions scoring above 5. */
  function Specific(ranked: seq<nat>, scores: seq<real>): (r: seq<nat>)
    ensures |r| <= 4
    ensures forall x :: x in r ==> x in ranked && x < |scores| && scores[x] > 5.0
  {
    Seqs.SliceTo(Seqs.Filter((x: nat) => x < |scores| && scores[x] > 5.0, ranked), 4)
  }

  /** `getSourcesForMaterial`'s choice: up to four ranked positions scoring
      above 5, the best general position if not already among them, then
      the best remaining positions until there are three, cut to five. The
      cut never removes anything: there are at most five by then. */
  function Select(ranked: seq<nat>, scores: seq<real>, general: nat -> bool): (r: seq<nat>)
    requires InRange(ranked, |scores|) && Seqs.Distinct(ranked)
    ensures |r| <= 5
    ensures Seqs.Distinct(r)
    ensures forall x :: x in r ==> x in ranked
    ensures |r| >= if |ranked| < 3 then |ranked| else 3
    ensures forall x :: x in Specific(ranked, scores) ==> x in r
    ensures FirstWhere(ranked, general).Some? ==> FirstWhere(ranked, general).value in r
  {
    var sel1 := PushNew([], Specific(ranked, scores));
    var best := FirstWhere(ranked, general);
    var sel2 := if best.Some? && best.value !in sel1 then sel1 + [best.value] else sel1;
    var sel3 := if |sel2| < 3 then Fill(sel2, ranked) else sel2;
    CoverLength(ranked, sel3);
    assert Seqs.SliceTo(sel3, 5) == sel3;
    Seqs.SliceTo(sel3, 5)
  }

  /** The whole choice over a score table: rank, then select. */
  function Choose(scores: seq<real>, general: nat -> bool): (r: seq<nat>)
    ensures |r| <= 5 && |r| >= (if |scores| < 3 then |scores| else 3)
    ensures Seqs.Distinct(r) && InRange(r, |scores|)
  {
    var ranked := Rank(scores);
    var r := Select(ranked, scores, general);
    SubsetInRange(r, ranked, |scores|);
    r
  }

  lemma SubsetInRange(r: seq<nat>, s: seq<nat>, n: nat)
    requires InRange(s, n) && forall x :: x in r ==> x in s
    ensures InRange(r, n)
  {
    forall k | 0 <= k < |r| ensures r[k] < n {
      assert r[k] in s;
    }
  }

  /** When some position satisfies `general`, the choice includes one. */
  lemma ChooseHasGeneral(scores: seq<real>, general: nat -> bool, i: nat)
    requires i < |scores| && general(i)
    ensures exists k :: 0 <= k < |Choose(scores, general)| && general(Choose(scores, general)[k])
  {
    var ranked := Rank(scores);
    var r := Choose(scores, general);
    assert i in ranked;
    var best := FirstWhere(ranked, general);
    assert best.Some?;
    var k :| 0 <= k < |r| && r[k] == best.value;
  }
}
