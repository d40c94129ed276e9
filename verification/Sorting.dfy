/** sort.SliceStable and sort.Strings, as far as the controller relies on them. */
module Sorting {
  import opened Strings

  /** Puts x behind every element it does not come before. */
  function Insert<T>(xs: seq<T>, x: T, before: (T, T) -> bool): (r: seq<T>)
    ensures |r| == |xs| + 1
  {
    if xs == [] || !before(x, xs[|xs| - 1]) then xs + [x]
    else Insert(xs[..|xs| - 1], x, before) + [xs[|xs| - 1]]
  }

  /** A stable sort: elements that do not come before one another keep their order. */
  function Sort<T>(xs: seq<T>, before: (T, T) -> bool): (r: seq<T>)
    ensures |r| == |xs|
  {
    if xs == [] then [] else Insert(Sort(xs[..|xs| - 1], before), xs[|xs| - 1], before)
  }

  ghost predicate Sorted<T>(xs: seq<T>, before: (T, T) -> bool) {
    forall i, j :: 0 <= i < j < |xs| ==> !before(xs[j], xs[i])
  }

  ghost predicate WeakOrder<T(!new)>(before: (T, T) -> bool) {
    && (forall x, y :: before(x, y) ==> !before(y, x))
    && (forall x, y, z :: !before(x, y) && !before(y, z) ==> !before(x, z))
  }

  lemma {:induction false} InsertPermutes<T>(xs: seq<T>, x: T, before: (T, T) -> bool)
    ensures multiset(Insert(xs, x, before)) == multiset(xs) + multiset{x}
  {
    if xs != [] && before(x, xs[|xs| - 1]) {
      InsertPermutes(xs[..|xs| - 1], x, before);
      assert xs == xs[..|xs| - 1] + [xs[|xs| - 1]];
    }
  }

  lemma {:induction false} SortPermutes<T>(xs: seq<T>, before: (T, T) -> bool)
    ensures multiset(Sort(xs, before)) == multiset(xs)
  {
    if xs == [] {
    } else {
      SortPermutes(xs[..|xs| - 1], before);
      InsertPermutes(Sort(xs[..|xs| - 1], before), xs[|xs| - 1], before);
      assert xs == xs[..|xs| - 1] + [xs[|xs| - 1]];
    }
  }

  lemma {:induction false} SortKeepsMembers<T>(xs: seq<T>, before: (T, T) -> bool)
    ensures forall x :: x in Sort(xs, before) <==> x in xs
  {
    SortPermutes(xs, before);
    forall x ensures x in Sort(xs, before) <==> x in xs {
      assert x in multiset(Sort(xs, before)) <==> x in multiset(xs);
    }
  }

  lemma {:induction false} InsertSorted<T(!new)>(xs: seq<T>, x: T, before: (T, T) -> bool)
    requires WeakOrder(before) && Sorted(xs, before)
    ensures Sorted(Insert(xs, x, before), before)
    ensures forall y :: y in Insert(xs, x, before) ==> y in xs || y == x
  {
    if xs == [] {
    } else {
      var last, init := xs[|xs| - 1], xs[..|xs| - 1];
      if before(x, last) {
        InsertSorted(init, x, before);
        var r := Insert(init, x, before);
        forall i | 0 <= i < |r| ensures !before(last, r[i]) {
          assert r[i] in r;
        }
      } else {
        forall i | 0 <= i < |xs| ensures !before(x, xs[i]) {
          assert i < |xs| - 1 ==> !before(last, xs[i]);
        }
      }
    }
  }

  lemma {:induction false} SortSorts<T(!new)>(xs: seq<T>, before: (T, T) -> bool)
    requires WeakOrder(before)
    ensures Sorted(Sort(xs, before), before)
  {
    if xs == [] {
    } else {
      SortSorts(xs[..|xs| - 1], before);
      InsertSorted(Sort(xs[..|xs| - 1], before), xs[|xs| - 1], before);
    }
  }

  // ---------------------------------------------------------------- no repetitions

  ghost predicate Distinct<T>(xs: seq<T>) {
    forall i, j :: 0 <= i < j < |xs| ==> xs[i] != xs[j]
  }

  lemma {:induction false} DistinctCounts<T>(xs: seq<T>)
    ensures Distinct(xs) <==> forall x :: multiset(xs)[x] <= 1
  {
    if xs == [] {
    } else {
      var init, last := xs[..|xs| - 1], xs[|xs| - 1];
      assert xs == init + [last];
      DistinctCounts(init);
      assert multiset(xs) == multiset(init) + multiset{last};
      if Distinct(xs) {
        assert last !in multiset(init);
      }
      if forall x :: multiset(xs)[x] <= 1 {
        assert multiset(xs)[last] <= 1;
        assert last !in multiset(init);
        forall x ensures multiset(init)[x] <= 1 {
          assert multiset(xs)[x] <= 1;
        }
      }
    }
  }

  lemma SameLength<T>(xs: seq<T>, ys: seq<T>)
    requires Distinct(xs) && Distinct(ys) && forall x :: x in xs <==> x in ys
    ensures |xs| == |ys|
  {
    DistinctCounts(xs);
    DistinctCounts(ys);
    forall x ensures multiset(xs)[x] == multiset(ys)[x] {
      assert x in xs <==> x in ys;
    }
    assert multiset(xs) == multiset(ys);
    assert |multiset(xs)| == |xs| && |multiset(ys)| == |ys|;
  }

  lemma {:induction false} SortKeepsDistinct<T>(xs: seq<T>, before: (T, T) -> bool)
    ensures Distinct(Sort(xs, before)) <==> Distinct(xs)
  {
    SortPermutes(xs, before);
    DistinctCounts(xs);
    DistinctCounts(Sort(xs, before));
  }

  /** Every two elements are related. */
  ghost predicate Pairwise<T>(xs: seq<T>, rel: (T, T) -> bool) {
    forall i, j :: 0 <= i < j < |xs| ==> rel(xs[i], xs[j])
  }

  ghost predicate Symmetric<T(!new)>(rel: (T, T) -> bool) {
    forall x, y :: rel(x, y) ==> rel(y, x)
  }

  lemma PairwiseAppend<T>(xs: seq<T>, x: T, rel: (T, T) -> bool)
    ensures Pairwise(xs + [x], rel) <==> Pairwise(xs, rel) && forall y :: y in xs ==> rel(y, x)
  {
    var all := xs + [x];
    assert all[|xs|] == x;
    assert forall i :: 0 <= i < |xs| ==> all[i] == xs[i];
    if Pairwise(all, rel) {
      forall i, j | 0 <= i < j < |xs| ensures rel(xs[i], xs[j]) {
        assert rel(all[i], all[j]);
      }
      forall y | y in xs ensures rel(y, x) {
        var i :| 0 <= i < |xs| && xs[i] == y;
        assert rel(all[i], all[|xs|]);
      }
    }
  }

  lemma {:induction false} InsertPairwise<T(!new)>(xs: seq<T>, x: T, before: (T, T) -> bool, rel: (T, T) -> bool)
    requires Symmetric(rel)
    ensures Pairwise(Insert(xs, x, before), rel) <==> Pairwise(xs + [x], rel)
    ensures forall y :: y in Insert(xs, x, before) <==> y in xs || y == x
  {
    if xs != [] && before(x, xs[|xs| - 1]) {
      var init, last := xs[..|xs| - 1], xs[|xs| - 1];
      InsertPairwise(init, x, before, rel);
      assert xs == init + [last];
      PairwiseAppend(Insert(init, x, before), last, rel);
      PairwiseAppend(init, x, rel);
      PairwiseAppend(xs, x, rel);
      PairwiseAppend(init, last, rel);
    }
  }

  lemma {:induction false} SortPairwise<T(!new)>(xs: seq<T>, before: (T, T) -> bool, rel: (T, T) -> bool)
    requires Symmetric(rel)
    ensures Pairwise(Sort(xs, before), rel) <==> Pairwise(xs, rel)
  {
    if xs == [] {
    } else {
      var init, last := xs[..|xs| - 1], xs[|xs| - 1];
      SortPairwise(init, before, rel);
      SortKeepsMembers(init, before);
      InsertPairwise(Sort(init, before), last, before, rel);
      PairwiseAppend(Sort(init, before), last, rel);
      PairwiseAppend(init, last, rel);
      assert xs == init + [last];
    }
  }

  // ---------------------------------------------------------------- the order on strings

  lemma {:induction false} LessAsymmetric(s: string, t: string)
    ensures Less(s, t) ==> !Less(t, s)
  {
    if s != [] && t != [] {
      LessAsymmetric(s[1..], t[1..]);
    }
  }

  lemma {:induction false} LessNegativelyTransitive(s: string, t: string, u: string)
    ensures !Less(s, t) && !Less(t, u) ==> !Less(s, u)
  {
    if s != [] && t != [] && u != [] {
      LessNegativelyTransitive(s[1..], t[1..], u[1..]);
    }
  }

  lemma {:induction false} LessTotal(s: string, t: string)
    ensures Less(s, t) || Less(t, s) || s == t
  {
    if s == [] || t == [] {
    } else {
      LessTotal(s[1..], t[1..]);
      assert s == [s[0]] + s[1..] && t == [t[0]] + t[1..];
    }
  }

  ghost predicate Increasing(xs: seq<string>) {
    forall i, j :: 0 <= i < j < |xs| ==> Less(xs[i], xs[j])
  }

  lemma IncreasingInit(xs: seq<string>, x: string)
    requires xs != [] && Increasing(xs)
    ensures Increasing(xs[..|xs| - 1])
    ensures x in xs[..|xs| - 1] <==> x in xs && x != xs[|xs| - 1]
  {
    var last := xs[|xs| - 1];
    LessAsymmetric(last, last);
    assert xs == xs[..|xs| - 1] + [last];
  }

  /** Two increasing lists with the same elements are the same list. */
  lemma {:induction false} IncreasingUnique(a: seq<string>, b: seq<string>)
    requires Increasing(a) && Increasing(b) && forall x :: x in a <==> x in b
    ensures a == b
  {
    if a == [] {
      assert forall i :: 0 <= i < |b| ==> b[i] in b;
    } else {
      assert a[0] in b;
      SameLast(a, b);
      var init, init' := a[..|a| - 1], b[..|b| - 1];
      forall x ensures x in init <==> x in init' {
        IncreasingInit(a, x);
        IncreasingInit(b, x);
      }
      IncreasingInit(a, a[0]);
      IncreasingInit(b, b[0]);
      IncreasingUnique(init, init');
      assert a == init + [a[|a| - 1]] && b == init' + [b[|b| - 1]];
    }
  }

  lemma SameLast(a: seq<string>, b: seq<string>)
    requires a != [] && b != [] && Increasing(a) && Increasing(b) && forall x :: x in a <==> x in b
    ensures a[|a| - 1] == b[|b| - 1]
  {
    var x, y := a[|a| - 1], b[|b| - 1];
    assert x in b && y in a;
    var i :| 0 <= i < |b| && b[i] == x;
    var j :| 0 <= j < |a| && a[j] == y;
    LessAsymmetric(x, y);
  }
}
