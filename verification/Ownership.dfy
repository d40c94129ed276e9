/** What the placement loop of getBackendServers (internal/ingress/controller/controller.go) amounts to for
    one server: its locations in closed form, who owns them, when they are distinct, and how they are
    sorted in the end.
 */
module Ownership {
  import opened Strings
  import opened Types
  import opened Sorting
  import opened Upstreams
  import opened Servers
  import opened Placement

  // ---------------------------------------------------------------- one server at a time

  /** A path that counts, with its upstream. */
  datatype Claim = Claim(e: Entry, upstream: Backend)

  function PathOf(c: Claim): string { NginxPath(c.e) }

  function TypeOf(c: Claim): PathType { c.e.path.pathType }

  /** The claims on host h, in ingress order. */
  function ClaimsOn(hosts: set<string>, ups: Table, entries: seq<Entry>, h: string): seq<Claim> {
    if entries == [] then [] else
    var before, e := ClaimsOn(hosts, ups, entries[..|entries| - 1], h), entries[|entries| - 1];
    if Counts(ups, e) && ServerKey(hosts, e.host) == h then before + [Claim(e, ups[NameOf(e)])] else before
  }

  function PlaceClaims(server: Server, claims: seq<Claim>): Server {
    if claims == [] then server else
    var c := claims[|claims| - 1];
    PlaceEntry(PlaceClaims(server, claims[..|claims| - 1]), c.e, c.upstream)
  }

  /** Each server is built from the claims on it alone. */
  lemma {:induction false} PlaceAllByHost(servers: Hosts, ups: Table, entries: seq<Entry>, h: string)
    requires DefServerName in servers && h in servers
    ensures PlaceAll(servers, ups, entries)[h] == PlaceClaims(servers[h], ClaimsOn(servers.Keys, ups, entries, h))
  {
    if entries == [] {
    } else {
      var init, e := entries[..|entries| - 1], entries[|entries| - 1];
      PlaceAllByHost(servers, ups, init, h);
      var before := ClaimsOn(servers.Keys, ups, init, h);
      if Counts(ups, e) && ServerKey(servers.Keys, e.host) == h {
        assert (before + [Claim(e, ups[NameOf(e)])])[..|before|] == before;
      }
    }
  }

  // ---------------------------------------------------------------- the closed form

  /** The type first registered for a path; "/" starts out as a Prefix location. */
  function FirstType(claims: seq<Claim>, path: string): Option<PathType> {
    if claims == [] then (if path == RootLocation then Some(Prefix) else None) else
    var before, c := FirstType(claims[..|claims| - 1], path), claims[|claims| - 1];
    if before.Some? then before else if PathOf(c) == path then Some(TypeOf(c)) else None
  }

  /** A claim gets a location of its own unless it has the type first registered for its path. */
  function Added(claims: seq<Claim>): seq<Location> {
    if claims == [] then [] else
    var init, c := claims[..|claims| - 1], claims[|claims| - 1];
    Added(init) + if FirstType(init, PathOf(c)) == Some(TypeOf(c)) then [] else [NewLocation(c.e, c.upstream)]
  }

  /** The earliest claim with this path and type. */
  function FirstClaim(claims: seq<Claim>, path: string, t: PathType): Option<Claim> {
    if claims == [] then None else
    var before, c := FirstClaim(claims[..|claims| - 1], path, t), claims[|claims| - 1];
    if before.Some? then before else if PathOf(c) == path && TypeOf(c) == t then Some(c) else None
  }

  /** The root location goes to the earliest Prefix claim on "/". */
  function RootAfter(root: Location, claims: seq<Claim>): Location {
    var first := FirstClaim(claims, RootLocation, Prefix);
    if first.Some? then Replaced(root, first.value.e, first.value.upstream) else root
  }

  function Locations(root: Location, claims: seq<Claim>): seq<Location> {
    [RootAfter(root, claims)] + Added(claims)
  }

  predicate IsFreshRoot(root: Location) {
    root.path == RootLocation && root.pathType == Prefix && root.isDefBackend
  }

  lemma {:induction false} FirstAtAppend(locations: seq<Location>, l: Location, path: string)
    ensures FirstAt(locations + [l], path) ==
            if FirstAt(locations, path) < |locations| then FirstAt(locations, path)
            else if l.path == path then |locations| else |locations| + 1
  {
    var j := FirstAt(locations, path);
    var all := locations + [l];
    assert forall k :: 0 <= k < |locations| ==> all[k] == locations[k];
    assert all[|locations|] == l;
    if j < |locations| {
      FirstAtIs(all, path, j);
    } else if l.path == path {
      FirstAtIs(all, path, |locations|);
    }
  }

  /** In the closed form the search finds the location of the first registered type. */
  lemma {:induction false} SearchFinds(root: Location, claims: seq<Claim>, path: string)
    requires IsFreshRoot(root)
    ensures
      var ls := Locations(root, claims);
      var j := FirstAt(ls, path);
      && (j < |ls| <==> FirstType(claims, path).Some?)
      && (j < |ls| ==> ls[j].pathType == FirstType(claims, path).value)
      && (j < |ls| ==> (j == 0 <==> path == RootLocation))
      && (j < |ls| ==> (ls[j].isDefBackend <==> path == RootLocation && FirstClaim(claims, RootLocation, Prefix).None?))
    decreases claims
  {
    var ls := Locations(root, claims);
    if path == RootLocation {
      FirstTypeOfRoot(claims);
    } else if claims == [] {
      assert ls == [root];
    } else {
      var init, c := claims[..|claims| - 1], claims[|claims| - 1];
      SearchFinds(root, init, path);
      var before := [RootAfter(root, claims)] + Added(init);
      SamePathsSameSearch(Locations(root, init), before, path);
      if FirstType(init, PathOf(c)) != Some(TypeOf(c)) {
        assert ls == before + [NewLocation(c.e, c.upstream)];
        FirstAtAppend(before, NewLocation(c.e, c.upstream), path);
      } else {
        assert ls == before;
      }
    }
  }

  lemma {:induction false} FirstTypeOfRoot(claims: seq<Claim>)
    ensures FirstType(claims, RootLocation) == Some(Prefix)
  {
    if claims == [] {
    } else {
      FirstTypeOfRoot(claims[..|claims| - 1]);
    }
  }

  lemma {:induction false} SamePathsSameSearch(a: seq<Location>, b: seq<Location>, path: string)
    requires |a| == |b| && forall k :: 0 <= k < |a| ==> a[k].path == b[k].path
    ensures FirstAt(a, path) == FirstAt(b, path)
  {
    var j := FirstAt(a, path);
    if j < |a| {
      FirstAtIs(b, path, j);
    } else {
      assert forall k :: 0 <= k < |b| ==> b[k].path != path;
    }
  }

  /** The locations of a server after any number of claims. */
  lemma {:induction false} PlacedLocations(server: Server, root: Location, claims: seq<Claim>)
    requires server.locations == [root] && IsFreshRoot(root)
    ensures PlaceClaims(server, claims).locations == Locations(root, claims)
  {
    if claims == [] {
    } else {
      var init, c := claims[..|claims| - 1], claims[|claims| - 1];
      PlacedLocations(server, root, init);
      PlaceInClosedForm(root, init, c);
      assert claims == init + [c];
    }
  }

  lemma PlaceInClosedForm(root: Location, init: seq<Claim>, c: Claim)
    requires IsFreshRoot(root)
    ensures
      var ls := Locations(root, init);
      var j := FirstAt(ls, PathOf(c));
      Locations(root, init + [c]) ==
        if j == |ls| || ls[j].pathType != TypeOf(c) then ls + [NewLocation(c.e, c.upstream)]
        else if !ls[j].isDefBackend then ls
        else ls[j := Replaced(ls[j], c.e, c.upstream)]
  {
    var claims := init + [c];
    assert claims[..|init|] == init;
    SearchFinds(root, init, PathOf(c));
    var first := FirstClaim(init, RootLocation, Prefix);
    assert first.Some? ==> FirstClaim(claims, RootLocation, Prefix) == first;
  }

  // ---------------------------------------------------------------- which locations there are

  ghost predicate Claimed(claims: seq<Claim>, path: string, t: PathType) {
    exists i :: 0 <= i < |claims| && PathOf(claims[i]) == path && TypeOf(claims[i]) == t
  }

  lemma ClaimedAppend(claims: seq<Claim>, c: Claim, path: string, t: PathType)
    ensures Claimed(claims + [c], path, t) <==> Claimed(claims, path, t) || (PathOf(c) == path && TypeOf(c) == t)
  {
    var all := claims + [c];
    assert all[|claims|] == c;
    if k :| 0 <= k < |claims| && PathOf(claims[k]) == path && TypeOf(claims[k]) == t {
      assert all[k] == claims[k];
    }
  }

  /** The first registered type is that of an actual claim, or the root's. */
  lemma {:induction false} FirstTypeClaimed(claims: seq<Claim>, path: string)
    ensures FirstType(claims, path).Some? ==>
              (path == RootLocation && FirstType(claims, path).value == Prefix) ||
              Claimed(claims, path, FirstType(claims, path).value)
    ensures (exists i :: 0 <= i < |claims| && PathOf(claims[i]) == path) ==> FirstType(claims, path).Some?
  {
    if claims == [] {
    } else {
      var init, c := claims[..|claims| - 1], claims[|claims| - 1];
      FirstTypeClaimed(init, path);
      assert claims == init + [c];
      if FirstType(claims, path).Some? {
        ClaimedAppend(init, c, path, FirstType(claims, path).value);
      }
      if i :| 0 <= i < |claims| && PathOf(claims[i]) == path {
        assert i < |init| ==> PathOf(init[i]) == path;
      }
    }
  }

  /** A server has a location for exactly the paths and types that are claimed, and for "/". */
  lemma {:induction false} LocationIffClaimed(root: Location, claims: seq<Claim>, path: string, t: PathType)
    requires IsFreshRoot(root)
    ensures Declares(Locations(root, claims), path, t) <==>
            (path == RootLocation && t == Prefix) || Claimed(claims, path, t)
    decreases claims
  {
    var ls := Locations(root, claims);
    if claims == [] {
      assert ls == [root];
      assert ls[0] == root;
    } else {
      var init, c := claims[..|claims| - 1], claims[|claims| - 1];
      LocationIffClaimed(root, init, path, t);
      assert claims == init + [c];
      ClaimedAppend(init, c, path, t);
      var before := [RootAfter(root, claims)] + Added(init);
      SameKeysSameLocations(Locations(root, init), before, path, t);
      if FirstType(init, PathOf(c)) != Some(TypeOf(c)) {
        assert ls == before + [NewLocation(c.e, c.upstream)];
        DeclaresAppend(before, NewLocation(c.e, c.upstream), path, t);
      } else {
        assert ls == before;
        FirstTypeClaimed(init, PathOf(c));
      }
    }
  }

  lemma SameKeysSameLocations(a: seq<Location>, b: seq<Location>, path: string, t: PathType)
    requires |a| == |b|
    requires forall k :: 0 <= k < |a| ==> a[k].path == b[k].path && a[k].pathType == b[k].pathType
    ensures Declares(a, path, t) <==> Declares(b, path, t)
  {
    if k :| 0 <= k < |a| && a[k].path == path && a[k].pathType == t {
      assert b[k].path == path;
    }
    if k :| 0 <= k < |b| && b[k].path == path && b[k].pathType == t {
      assert a[k].path == path;
    }
  }

  // ---------------------------------------------------------------- when locations are distinct

  /** No two claims share a path and a type other than the one first registered for the path. */
  ghost predicate ClaimsCompatible(claims: seq<Claim>) {
    forall i, j :: 0 <= i < j < |claims|
                   && PathOf(claims[i]) == PathOf(claims[j]) && TypeOf(claims[i]) == TypeOf(claims[j]) ==>
      FirstType(claims, PathOf(claims[i])) == Some(TypeOf(claims[i]))
  }

  lemma {:induction false} CompatibleAppend(init: seq<Claim>, c: Claim)
    ensures ClaimsCompatible(init + [c]) <==>
            ClaimsCompatible(init) &&
            (Claimed(init, PathOf(c), TypeOf(c)) ==> FirstType(init, PathOf(c)) == Some(TypeOf(c)))
  {
    var claims := init + [c];
    assert claims[..|init|] == init && claims[|init|] == c;
    assert forall i :: 0 <= i < |init| ==> claims[i] == init[i];
    forall i | 0 <= i < |init| ensures FirstType(claims, PathOf(init[i])) == FirstType(init, PathOf(init[i])) {
      FirstTypeClaimed(init, PathOf(init[i]));
    }
    if ClaimsCompatible(claims) && Claimed(init, PathOf(c), TypeOf(c)) {
      var i :| 0 <= i < |init| && PathOf(init[i]) == PathOf(c) && TypeOf(init[i]) == TypeOf(c);
      assert PathOf(claims[i]) == PathOf(claims[|init|]);
    }
    if ClaimsCompatible(claims) {
      forall i, j | 0 <= i < j < |init| && PathOf(init[i]) == PathOf(init[j]) && TypeOf(init[i]) == TypeOf(init[j])
        ensures FirstType(init, PathOf(init[i])) == Some(TypeOf(init[i]))
      {
        assert PathOf(claims[i]) == PathOf(claims[j]);
      }
    }
  }

  lemma DistinctAppend(ls: seq<Location>, l: Location)
    ensures DistinctLocations(ls + [l]) <==> DistinctLocations(ls) && !Declares(ls, l.path, l.pathType)
  {
    var all := ls + [l];
    assert all[|ls|] == l;
    assert forall k :: 0 <= k < |ls| ==> all[k] == ls[k];
    if DistinctLocations(all) {
      forall i, j | 0 <= i < j < |ls| ensures ls[i].path != ls[j].path || ls[i].pathType != ls[j].pathType {
        assert all[i].path != all[j].path || all[i].pathType != all[j].pathType;
      }
    }
  }

  lemma SameKeysSameDistinct(a: seq<Location>, b: seq<Location>)
    requires |a| == |b|
    requires forall k :: 0 <= k < |a| ==> a[k].path == b[k].path && a[k].pathType == b[k].pathType
    ensures DistinctLocations(a) <==> DistinctLocations(b)
  {
  }

  /** The search's early stop duplicates a location exactly when two claims share a path and a type that
      was not the first one there. */
  lemma {:induction false} DistinctExactlyWhenCompatible(root: Location, claims: seq<Claim>)
    requires IsFreshRoot(root)
    ensures DistinctLocations(Locations(root, claims)) <==> ClaimsCompatible(claims)
  {
    var ls := Locations(root, claims);
    if claims == [] {
      assert |ls| == 1;
    } else {
      var init, c := claims[..|claims| - 1], claims[|claims| - 1];
      DistinctExactlyWhenCompatible(root, init);
      assert claims == init + [c];
      CompatibleAppend(init, c);
      DistinctStep(root, init, c);
    }
  }

  lemma {:induction false} DistinctStep(root: Location, init: seq<Claim>, c: Claim)
    requires IsFreshRoot(root)
    ensures DistinctLocations(Locations(root, init + [c])) <==>
            DistinctLocations(Locations(root, init))
            && (Claimed(init, PathOf(c), TypeOf(c)) ==> FirstType(init, PathOf(c)) == Some(TypeOf(c)))
  {
    var claims := init + [c];
    assert claims[..|init|] == init;
    var before := [RootAfter(root, claims)] + Added(init);
    SameKeysSameDistinct(Locations(root, init), before);
    if FirstType(init, PathOf(c)) != Some(TypeOf(c)) {
      assert Locations(root, claims) == before + [NewLocation(c.e, c.upstream)];
      DistinctAppend(before, NewLocation(c.e, c.upstream));
      LocationIffClaimed(root, init, PathOf(c), TypeOf(c));
      SameKeysSameLocations(Locations(root, init), before, PathOf(c), TypeOf(c));
      FirstTypeOfRoot(init);
    } else {
      assert Locations(root, claims) == before;
    }
  }

  // ---------------------------------------------------------------- who owns a location

  /** Claim c owns location l. */
  ghost predicate Owns(c: Claim, l: Location) {
    l.path == PathOf(c) && l.pathType == TypeOf(c) && l.backend == c.upstream.name && !l.isDefBackend
  }

  /** A location of the type first registered for its path belongs to the earliest claim on it; only the
      root may be left with the default backend, if nobody claims it. */
  lemma {:induction false} EarliestClaimOwns(root: Location, claims: seq<Claim>, k: nat)
    requires IsFreshRoot(root) && k < |Locations(root, claims)|
    requires
      var l := Locations(root, claims)[k];
      FirstType(claims, l.path) == Some(l.pathType)
    ensures
      var l := Locations(root, claims)[k];
      var first := FirstClaim(claims, l.path, l.pathType);
      if first.Some? then Owns(first.value, l) else k == 0 && l == root
    decreases claims
  {
    var l := Locations(root, claims)[k];
    if k == 0 {
      FirstClaimIs(claims, RootLocation, Prefix);
    } else {
      assert l == Added(claims)[k - 1];
      var init, c := claims[..|claims| - 1], claims[|claims| - 1];
      assert claims == init + [c];
      FirstTypeOfRoot(init);
      if k - 1 < |Added(init)| {
        assert l == Added(init)[k - 1] == Locations(root, init)[k];
        LocationIffClaimed(root, init, l.path, l.pathType);
        assert Declares(Locations(root, init), l.path, l.pathType);
        FirstTypeClaimed(init, l.path);
        assert FirstType(init, l.path).Some?;
        EarliestClaimOwns(root, init, k);
      } else {
        assert l == NewLocation(c.e, c.upstream);
        FirstClaimIs(init, l.path, l.pathType);
        FirstTypeClaimed(init, l.path);
      }
    }
  }

  lemma {:induction false} FirstClaimIs(claims: seq<Claim>, path: string, t: PathType)
    ensures FirstClaim(claims, path, t).Some? <==> Claimed(claims, path, t)
    ensures FirstClaim(claims, path, t).Some? ==>
              PathOf(FirstClaim(claims, path, t).value) == path && TypeOf(FirstClaim(claims, path, t).value) == t
  {
    if claims == [] {
    } else {
      var init, c := claims[..|claims| - 1], claims[|claims| - 1];
      FirstClaimIs(init, path, t);
      assert claims == init + [c];
      ClaimedAppend(init, c, path, t);
    }
  }

  ghost predicate AllPrefix(claims: seq<Claim>) {
    forall i :: 0 <= i < |claims| ==> TypeOf(claims[i]) == Prefix
  }

  /** If all path types are Prefix, a server has exactly one location per path, "/" included, and each is
      owned by the earliest claim on its path. */
  lemma {:induction false} PrefixOwnership(root: Location, claims: seq<Claim>, k: nat)
    requires IsFreshRoot(root) && AllPrefix(claims) && k < |Locations(root, claims)|
    ensures DistinctLocations(Locations(root, claims))
    ensures Locations(root, claims)[k].pathType == Prefix
    ensures
      var l := Locations(root, claims)[k];
      var first := FirstClaim(claims, l.path, Prefix);
      if first.Some? then Owns(first.value, l) else k == 0 && l == root
  {
    var l := Locations(root, claims)[k];
    assert Declares(Locations(root, claims), l.path, l.pathType);
    LocationIffClaimed(root, claims, l.path, l.pathType);
    forall i | 0 <= i < |claims| ensures FirstType(claims, PathOf(claims[i])) == Some(Prefix) {
      FirstTypeClaimed(claims, PathOf(claims[i]));
    }
    FirstTypeOfRoot(claims);
    assert FirstType(claims, l.path) == Some(l.pathType);
    DistinctExactlyWhenCompatible(root, claims);
    EarliestClaimOwns(root, claims, k);
  }

  // ---------------------------------------------------------------- the final order of locations

  predicate LaterPath(l: Location, m: Location) { Less(m.path, l.path) }

  predicate LongerPath(l: Location, m: Location) { |l.path| > |m.path| }

  /** Two stable sorts: by path, descending, then by length, descending. */
  function SortedLocations(ls: seq<Location>): seq<Location> { Sort(Sort(ls, LaterPath), LongerPath) }

  lemma LaterPathOrder()
    ensures WeakOrder(LaterPath)
  {
    forall x: Location, y: Location | LaterPath(x, y) ensures !LaterPath(y, x) {
      LessAsymmetric(y.path, x.path);
    }
    forall x: Location, y: Location, z: Location | !LaterPath(x, y) && !LaterPath(y, z) ensures !LaterPath(x, z) {
      LessNegativelyTransitive(z.path, y.path, x.path);
    }
  }

  /** Longer paths first; among paths of one length the lexically greater first. */
  predicate MayPrecede(l: Location, m: Location) {
    |l.path| > |m.path| || (|l.path| == |m.path| && !Less(l.path, m.path))
  }

  ghost predicate LongestFirst(ls: seq<Location>) {
    forall i, j :: 0 <= i < j < |ls| ==> MayPrecede(ls[i], ls[j])
  }

  lemma {:induction false} InsertLongestFirst(ls: seq<Location>, l: Location)
    requires LongestFirst(ls) && forall k :: 0 <= k < |ls| ==> !Less(ls[k].path, l.path)
    ensures LongestFirst(Insert(ls, l, LongerPath))
    ensures forall x :: x in Insert(ls, l, LongerPath) ==> x in ls || x == l
  {
    if ls == [] {
    } else {
      var init, last := ls[..|ls| - 1], ls[|ls| - 1];
      if LongerPath(l, last) {
        InsertLongestFirst(init, l);
        var r := Insert(init, l, LongerPath);
        forall i | 0 <= i < |r| ensures MayPrecede(r[i], last) {
          assert r[i] in r;
          if r[i] in init {
            var k :| 0 <= k < |init| && init[k] == r[i];
            assert MayPrecede(ls[k], ls[|ls| - 1]);
          }
        }
      } else {
        forall i | 0 <= i < |ls| ensures MayPrecede(ls[i], l) {
          assert i < |ls| - 1 ==> MayPrecede(ls[i], ls[|ls| - 1]);
        }
      }
    }
  }

  lemma {:induction false} SecondSort(ls: seq<Location>)
    requires Sorted(ls, LaterPath)
    ensures LongestFirst(Sort(ls, LongerPath))
  {
    if ls == [] {
    } else {
      var init, last := ls[..|ls| - 1], ls[|ls| - 1];
      SecondSort(init);
      var s := Sort(init, LongerPath);
      SortKeepsMembers(init, LongerPath);
      forall k | 0 <= k < |s| ensures !Less(s[k].path, last.path) {
        assert s[k] in init;
        var i :| 0 <= i < |init| && init[i] == s[k];
        assert !LaterPath(ls[|ls| - 1], ls[i]);
      }
      InsertLongestFirst(s, last);
    }
  }

  lemma SortedLocationsOrder(ls: seq<Location>)
    ensures multiset(SortedLocations(ls)) == multiset(ls) && LongestFirst(SortedLocations(ls))
  {
    LaterPathOrder();
    SortSorts(ls, LaterPath);
    SecondSort(Sort(ls, LaterPath));
    SortPermutes(ls, LaterPath);
    SortPermutes(Sort(ls, LaterPath), LongerPath);
  }

  /** The list nginx gets holds the same locations, longest path first, so that the first literal prefix
      match in list order is a longest one. */
  lemma SortedLocationsFirstMatch(ls: seq<Location>, request: string, k: nat)
    requires k < |ls| && HasPrefix(request, SortedLocations(ls)[k].path)
    requires forall i :: 0 <= i < k ==> !HasPrefix(request, SortedLocations(ls)[i].path)
    ensures multiset(SortedLocations(ls)) == multiset(ls)
    ensures LongestFirst(SortedLocations(ls))
    ensures forall l :: l in ls && HasPrefix(request, l.path) ==> |l.path| <= |SortedLocations(ls)[k].path|
  {
    SortedLocationsOrder(ls);
    var out := SortedLocations(ls);
    forall l | l in ls && HasPrefix(request, l.path) ensures |l.path| <= |out[k].path| {
      assert l in multiset(out);
      var i :| 0 <= i < |out| && out[i] == l;
      assert i >= k;
    }
  }
}
