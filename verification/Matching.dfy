/** internal/sets/match.go: comparing two slices without regard to order.

    `Compare` walks one list and, for each element, claims the first element of the
    other list that is equal to it and not yet claimed.  The claims are never undone,
    so it is not evident that the search finds a complete pairing whenever there is
    one.  It does, on all lists, exactly when the element comparison is difunctional,
    as every equivalence relation is.
 */
module Matching {

  /** A Go slice, which may be nil. */
  datatype Slice<+T> = Nil | Of(items: seq<T>) {
    function Items(): seq<T> { if Nil? then [] else items }
  }

  ghost predicate Equivalence<T(!new)>(eq: (T, T) -> bool) {
    && (forall x :: eq(x, x))
    && (forall x, y :: eq(x, y) ==> eq(y, x))
    && (forall x, y, z :: eq(x, y) && eq(y, z) ==> eq(x, z))
  }

  /** Two elements that match one element in common match all the same elements. */
  ghost predicate Difunctional<T(!new)>(eq: (T, T) -> bool) {
    forall x, x', y, y' :: eq(x, y) && eq(x', y) && eq(x, y') ==> eq(x', y')
  }

  /** p and q are mutually inverse permutations of the first n indices. */
  ghost predicate Inverses(p: seq<nat>, q: seq<nat>, n: nat) {
    && |p| == n && |q| == n
    && (forall i :: 0 <= i < n ==> p[i] < n && q[p[i]] == i)
    && (forall j :: 0 <= j < n ==> q[j] < n && p[q[j]] == j)
  }

  /** The permutation p, with inverse q, pairs every a[i] with an equal b[p[i]]. */
  ghost predicate Pairs<T>(p: seq<nat>, q: seq<nat>, a: seq<T>, b: seq<T>, eq: (T, T) -> bool) {
    && |a| == |b|
    && Inverses(p, q, |a|)
    && forall i :: 0 <= i < |a| ==> eq(a[i], b[p[i]])
  }

  /** Some one-to-one correspondence pairs the elements of a with equal elements of b. */
  ghost predicate SameElements<T>(a: seq<T>, b: seq<T>, eq: (T, T) -> bool) {
    exists p, q :: Pairs(p, q, a, b, eq)
  }

  // ---------------------------------------------------------------- the greedy search

  function FirstMatch<T>(x: T, b: seq<T>, eq: (T, T) -> bool): (j: nat)
    ensures j <= |b|
    ensures j < |b| ==> eq(x, b[j])
    ensures forall k :: 0 <= k < j ==> !eq(x, b[k])
  {
    if b == [] || eq(x, b[0]) then 0 else 1 + FirstMatch(x, b[1..], eq)
  }

  function Without<T>(b: seq<T>, j: nat): seq<T>
    requires j < |b|
  {
    b[..j] + b[j + 1..]
  }

  /** Claim the first match of each element of a in turn, removing it from b. */
  predicate Greedy<T>(a: seq<T>, b: seq<T>, eq: (T, T) -> bool) {
    if a == [] then b == [] else
    var j := FirstMatch(a[0], b, eq);
    j < |b| && Greedy(a[1..], Without(b, j), eq)
  }

  predicate Same<T>(a: Slice<T>, b: Slice<T>, eq: (T, T) -> bool) {
    match (a, b)
    case (Nil, Nil) => true
    case (Of(s), Of(t)) => Greedy(s, t, eq)
    case _ => false
  }

  /** The elements of b that are not yet visited, in order. */
  function Remaining<T>(b: seq<T>, visited: seq<bool>): seq<T>
    requires |b| == |visited|
  {
    if b == [] then [] else
    var tail := Remaining(b[1..], visited[1..]);
    if visited[0] then tail else [b[0]] + tail
  }

  lemma {:induction false} NothingVisited<T>(b: seq<T>, visited: seq<bool>)
    requires |b| == |visited|
    requires forall k :: 0 <= k < |b| ==> !visited[k]
    ensures Remaining(b, visited) == b
  {
    if b == [] {
    } else {
      NothingVisited(b[1..], visited[1..]);
    }
  }

  /** Without a free match for x, the search fails on what remains. */
  lemma {:induction false} NoFreeMatch<T>(x: T, b: seq<T>, visited: seq<bool>, eq: (T, T) -> bool)
    requires |b| == |visited|
    requires forall k :: 0 <= k < |b| && !visited[k] ==> !eq(x, b[k])
    ensures forall y :: y in Remaining(b, visited) ==> !eq(x, y)
  {
    if b == [] {
    } else {
      NoFreeMatch(x, b[1..], visited[1..], eq);
    }
  }

  lemma {:induction false} FirstMatchCons<T>(x: T, y: T, tail: seq<T>, eq: (T, T) -> bool)
    ensures FirstMatch(x, [y] + tail, eq) == if eq(x, y) then 0 else 1 + FirstMatch(x, tail, eq)
  {
    assert ([y] + tail)[1..] == tail;
  }

  lemma WithoutCons<T>(y: T, tail: seq<T>, m: nat)
    requires m < |tail|
    ensures Without([y] + tail, m + 1) == [y] + Without(tail, m)
  {
  }

  /** Marking the first free match of x is removing it from what remains. */
  lemma {:induction false} VisitFirstMatch<T>(x: T, b: seq<T>, visited: seq<bool>, j: nat, eq: (T, T) -> bool)
    requires |b| == |visited| && j < |b| && !visited[j] && eq(x, b[j])
    requires forall k :: 0 <= k < j && !visited[k] ==> !eq(x, b[k])
    ensures
      var rest := Remaining(b, visited);
      var m := FirstMatch(x, rest, eq);
      m < |rest| && Remaining(b, visited[j := true]) == Without(rest, m)
  {
    var tail := Remaining(b[1..], visited[1..]);
    var marked := visited[j := true];
    if j == 0 {
      FirstMatchCons(x, b[0], tail, eq);
      assert marked[1..] == visited[1..];
      assert Without([b[0]] + tail, 0) == tail;
    } else {
      assert marked[1..] == visited[1..][j - 1 := true];
      forall k | 0 <= k < j - 1 && !visited[1..][k] ensures !eq(x, b[1..][k]) {
        assert !visited[k + 1];
      }
      VisitFirstMatch(x, b[1..], visited[1..], j - 1, eq);
      var m := FirstMatch(x, tail, eq);
      if visited[0] {
        assert Remaining(b, visited) == tail;
      } else {
        FirstMatchCons(x, b[0], tail, eq);
        WithoutCons(b[0], tail, m);
        assert Remaining(b, marked) == [b[0]] + Without(tail, m);
      }
    }
  }

  /** sets.Compare: nested index loops over a visited array. */
  method Compare<T>(listA: Slice<T>, listB: Slice<T>, eq: (T, T) -> bool) returns (same: bool)
    ensures same == Same(listA, listB, eq)
  {
    if listA.Nil? && listB.Nil? {
      return true;
    }
    if listA.Nil? != listB.Nil? {
      return false;
    }
    var a, b := listA.items, listB.items;
    if |a| != |b| {
      GreedyLength(a, b, eq);
      return false;
    }
    var visited := new bool[|b|](_ => false);
    NothingVisited(b, visited[..]);
    for i := 0 to |a|
      invariant Greedy(a, b, eq) == Greedy(a[i..], Remaining(b, visited[..]), eq)
      invariant |Remaining(b, visited[..])| == |a| - i
    {
      ghost var before := visited[..];
      var found := false;
      for j := 0 to |b|
        invariant !found && visited[..] == before
        invariant forall k :: 0 <= k < j && !before[k] ==> !eq(a[i], b[k])
      {
        if visited[j] {
          continue;
        }
        if eq(a[i], b[j]) {
          VisitFirstMatch(a[i], b, before, j, eq);
          visited[j] := true;
          found := true;
          assert visited[..] == before[j := true];
          break;
        }
      }
      if !found {
        NoFreeMatch(a[i], b, before, eq);
        return false;
      }
      assert a[i..][1..] == a[i + 1..];
    }
    return true;
  }

  lemma {:induction false} GreedyLength<T>(a: seq<T>, b: seq<T>, eq: (T, T) -> bool)
    ensures Greedy(a, b, eq) ==> |a| == |b|
  {
    if a != [] && FirstMatch(a[0], b, eq) < |b| {
      GreedyLength(a[1..], Without(b, FirstMatch(a[0], b, eq)), eq);
    }
  }

  // ---------------------------------------------------------------- greedy finds a pairing iff there is one

  /** Index k of Without(b, j), as an index of b. */
  function Shift(k: nat, j: nat): nat { if k < j then k else k + 1 }

  /** Index k of b, as an index of Without(b, j). */
  function Unshift(k: nat, j: nat): nat
    requires k != j
  {
    if k < j then k else k - 1
  }

  lemma {:induction false} GreedyPairs<T>(a: seq<T>, b: seq<T>, eq: (T, T) -> bool)
    requires Greedy(a, b, eq)
    ensures SameElements(a, b, eq)
  {
    if a == [] {
      assert Pairs([], [], a, b, eq);
    } else {
      var j := FirstMatch(a[0], b, eq);
      GreedyPairs(a[1..], Without(b, j), eq);
      var p, q :| Pairs(p, q, a[1..], Without(b, j), eq);
      AddPair(p, q, a, b, j, eq);
    }
  }

  lemma AddPair<T>(p: seq<nat>, q: seq<nat>, a: seq<T>, b: seq<T>, j: nat, eq: (T, T) -> bool)
    requires a != [] && j < |b| && eq(a[0], b[j])
    requires Pairs(p, q, a[1..], Without(b, j), eq)
    ensures SameElements(a, b, eq)
  {
    var n := |a|;
    var p' := seq(n, i requires 0 <= i < n => if i == 0 then j else Shift(p[i - 1], j));
    var q' := seq(n, k requires 0 <= k < n => if k == j then 0 else q[Unshift(k, j)] + 1);
    forall i | 0 <= i < n
      ensures p'[i] < n && q'[p'[i]] == i && eq(a[i], b[p'[i]])
    {
      if i > 0 {
        assert eq(a[1..][i - 1], Without(b, j)[p[i - 1]]);
        assert Unshift(Shift(p[i - 1], j), j) == p[i - 1];
      }
    }
    forall k | 0 <= k < n
      ensures q'[k] < n && p'[q'[k]] == k
    {
    }
    assert Pairs(p', q', a, b, eq);
  }

  /** The exchange argument: any pairing can be rearranged to use the match the search claims first. */
  lemma Exchange<T(!new)>(p: seq<nat>, q: seq<nat>, a: seq<T>, b: seq<T>, j: nat, eq: (T, T) -> bool)
    returns (p': seq<nat>, q': seq<nat>)
    requires Difunctional(eq)
    requires a != [] && Pairs(p, q, a, b, eq)
    requires j < |b| && eq(a[0], b[j])
    ensures Pairs(p', q', a, b, eq) && p'[0] == j
  {
    var j0, i := p[0], q[j];
    p' := p[0 := j][i := if i == 0 then j else j0];
    q' := q[j := 0][j0 := if i == 0 then 0 else i];
    assert eq(a[0], b[j]) && eq(a[i], b[j]) && eq(a[0], b[j0]);
    assert eq(a[i], b[j0]);
  }

  lemma RemoveIndex(p: seq<nat>, q: seq<nat>, n: nat) returns (p': seq<nat>, q': seq<nat>)
    requires Inverses(p, q, n + 1)
    ensures Inverses(p', q', n)
    ensures forall i :: 1 <= i <= n ==> p[i] != p[0]
    ensures forall i :: 0 <= i < n ==> p'[i] == Unshift(p[i + 1], p[0])
  {
    var j := p[0];
    forall i | 1 <= i <= n ensures p[i] != j {
      assert q[p[i]] == i;
    }
    forall k | 0 <= k < n ensures q[Shift(k, j)] != 0 {
      assert p[q[Shift(k, j)]] == Shift(k, j);
    }
    p' := seq(n, i requires 0 <= i < n => Unshift(p[i + 1], j));
    q' := seq(n, k requires 0 <= k < n => q[Shift(k, j)] - 1);
    forall i | 0 <= i < n ensures p'[i] < n && q'[p'[i]] == i {
      assert Shift(p'[i], j) == p[i + 1];
    }
    forall k | 0 <= k < n ensures q'[k] < n && p'[q'[k]] == k {
      assert p[q'[k] + 1] == Shift(k, j);
    }
  }

  lemma RemovePair<T>(p: seq<nat>, q: seq<nat>, a: seq<T>, b: seq<T>, eq: (T, T) -> bool)
    requires a != [] && Pairs(p, q, a, b, eq)
    ensures SameElements(a[1..], Without(b, p[0]), eq)
  {
    var p', q' := RemoveIndex(p, q, |a| - 1);
    forall i | 0 <= i < |a| - 1 ensures eq(a[1..][i], Without(b, p[0])[p'[i]]) {
      assert Without(b, p[0])[p'[i]] == b[p[i + 1]];
    }
    assert Pairs(p', q', a[1..], Without(b, p[0]), eq);
  }

  lemma {:induction false} PairsGreedy<T(!new)>(a: seq<T>, b: seq<T>, eq: (T, T) -> bool)
    requires Difunctional(eq)
    requires SameElements(a, b, eq)
    ensures Greedy(a, b, eq)
  {
    if a == [] {
    } else {
      var p, q :| Pairs(p, q, a, b, eq);
      var j := FirstMatch(a[0], b, eq);
      assert eq(a[0], b[p[0]]);
      var p', q' := Exchange(p, q, a, b, j, eq);
      RemovePair(p', q', a, b, eq);
      PairsGreedy(a[1..], Without(b, j), eq);
    }
  }

  /** Compare decides, for all lists, whether a one-to-one correspondence exists. */
  ghost predicate DecidesPairing<T(!new)>(eq: (T, T) -> bool) {
    forall a, b :: Greedy(a, b, eq) <==> SameElements(a, b, eq)
  }

  /** The search is right on all lists exactly when the comparison is difunctional. */
  lemma GreedyDecidesPairingIff<T(!new)>(eq: (T, T) -> bool)
    ensures DecidesPairing(eq) <==> Difunctional(eq)
  {
    if Difunctional(eq) {
      forall a, b ensures Greedy(a, b, eq) <==> SameElements(a, b, eq) {
        if Greedy(a, b, eq) {
          GreedyPairs(a, b, eq);
        }
        if SameElements(a, b, eq) {
          PairsGreedy(a, b, eq);
        }
      }
    } else {
      var x, x', y, y' :| eq(x, y) && eq(x', y) && eq(x, y') && !eq(x', y');
      GreedyMissesPairing(x, x', y, y', eq);
    }
  }

  /** Otherwise the first element claims what the second one needs. */
  lemma GreedyMissesPairing<T>(x: T, x': T, y: T, y': T, eq: (T, T) -> bool)
    requires eq(x, y) && eq(x', y) && eq(x, y') && !eq(x', y')
    ensures SameElements([x, x'], [y, y'], eq) && !Greedy([x, x'], [y, y'], eq)
  {
    assert Pairs([1, 0], [1, 0], [x, x'], [y, y'], eq);
    assert FirstMatch(x, [y, y'], eq) == 0;
    assert Without([y, y'], 0) == [y'] && [x, x'][1..] == [x'];
    assert FirstMatch(x', [y'], eq) == 1;
  }

  lemma EquivalenceIsDifunctional<T(!new)>(eq: (T, T) -> bool)
    requires Equivalence(eq)
    ensures Difunctional(eq)
  {
    forall x, x', y, y' | eq(x, y) && eq(x', y) && eq(x, y') ensures eq(x', y') {
      assert eq(y, x);
      assert eq(x', x);
    }
  }

  /** In particular for an equivalence. */
  lemma {:induction false} GreedyDecidesPairing<T(!new)>(a: seq<T>, b: seq<T>, eq: (T, T) -> bool)
    requires Equivalence(eq)
    ensures Greedy(a, b, eq) <==> SameElements(a, b, eq)
  {
    EquivalenceIsDifunctional(eq);
    GreedyDecidesPairingIff(eq);
  }

  predicate Identical<T(==)>(x: T, y: T) { x == y }

  /** sets.StringElementsMatch: for plain equality the relation decided is multiset equality. */
  lemma {:induction false} GreedyIsMultisetEquality<T>(a: seq<T>, b: seq<T>)
    ensures Greedy(a, b, Identical) <==> multiset(a) == multiset(b)
  {
    if a == [] {
    } else {
      MultisetTail(a);
      var j := FirstMatch(a[0], b, Identical);
      if j < |b| {
        MultisetWithout(b, j);
        GreedyIsMultisetEquality(a[1..], Without(b, j));
      } else {
        assert a[0] in multiset(a) && a[0] !in multiset(b);
      }
    }
  }

  lemma MultisetTail<T>(a: seq<T>)
    requires a != []
    ensures multiset(a) == multiset(a[1..]) + multiset{a[0]}
    ensures multiset(a[1..]) == multiset(a) - multiset{a[0]}
  {
    assert a == [a[0]] + a[1..];
  }

  lemma MultisetWithout<T>(b: seq<T>, j: nat)
    requires j < |b|
    ensures multiset(b) == multiset(Without(b, j)) + multiset{b[j]}
    ensures multiset(Without(b, j)) == multiset(b) - multiset{b[j]}
  {
    assert b == b[..j] + [b[j]] + b[j + 1..];
  }

  // ---------------------------------------------------------------- Same inherits equivalence

  lemma SameReflexive<T(!new)>(a: Slice<T>, eq: (T, T) -> bool)
    requires Equivalence(eq)
    ensures Same(a, a, eq)
  {
    if a.Of? {
      var id := seq(|a.items|, i => i);
      assert Pairs(id, id, a.items, a.items, eq);
      GreedyDecidesPairing(a.items, a.items, eq);
    }
  }

  lemma SameSymmetric<T(!new)>(a: Slice<T>, b: Slice<T>, eq: (T, T) -> bool)
    requires Equivalence(eq)
    ensures Same(a, b, eq) <==> Same(b, a, eq)
  {
    if a.Of? && b.Of? {
      GreedyDecidesPairing(a.items, b.items, eq);
      GreedyDecidesPairing(b.items, a.items, eq);
      if p, q :| Pairs(p, q, a.items, b.items, eq) {
        assert Pairs(q, p, b.items, a.items, eq);
      }
      if p, q :| Pairs(p, q, b.items, a.items, eq) {
        assert Pairs(q, p, a.items, b.items, eq);
      }
    }
  }

  lemma InversesCompose(p1: seq<nat>, q1: seq<nat>, p2: seq<nat>, q2: seq<nat>, n: nat)
    returns (p: seq<nat>, q: seq<nat>)
    requires Inverses(p1, q1, n) && Inverses(p2, q2, n)
    ensures Inverses(p, q, n) && forall i :: 0 <= i < n ==> p[i] == p2[p1[i]]
  {
    p := seq(n, i requires 0 <= i < n => p2[p1[i]]);
    q := seq(n, k requires 0 <= k < n => q1[q2[k]]);
  }

  lemma SameElementsTransitive<T(!new)>(a: seq<T>, b: seq<T>, c: seq<T>, eq: (T, T) -> bool)
    requires Equivalence(eq)
    requires SameElements(a, b, eq) && SameElements(b, c, eq)
    ensures SameElements(a, c, eq)
  {
    var p1, q1 :| Pairs(p1, q1, a, b, eq);
    var p2, q2 :| Pairs(p2, q2, b, c, eq);
    var p, q := InversesCompose(p1, q1, p2, q2, |a|);
    forall i | 0 <= i < |a| ensures eq(a[i], c[p[i]]) {
      assert eq(a[i], b[p1[i]]);
      assert eq(b[p1[i]], c[p2[p1[i]]]);
    }
    assert Pairs(p, q, a, c, eq);
  }

  lemma SameTransitive<T(!new)>(a: Slice<T>, b: Slice<T>, c: Slice<T>, eq: (T, T) -> bool)
    requires Equivalence(eq)
    requires Same(a, b, eq) && Same(b, c, eq)
    ensures Same(a, c, eq)
  {
    if a.Of? {
      GreedyDecidesPairing(a.items, b.items, eq);
      GreedyDecidesPairing(b.items, c.items, eq);
      GreedyDecidesPairing(a.items, c.items, eq);
      SameElementsTransitive(a.items, b.items, c.items, eq);
    }
  }
}
