/** From Ingress rules to the upstream a request reaches, through all the steps of getBackendServers and
    getConfiguration (internal/ingress/controller/controller.go) and updateServerLocations (location.go).

    For a host whose paths are plain, the location nginx selects belongs to the Ingress path that the
    documentation promises: an exact path first, else the longest matching prefix, and among equal paths the
    one of the earliest Ingress.
 */
module EndToEnd {
  import opened Matching
  import opened Strings
  import opened Types
  import opened Sorting
  import opened Upstreams
  import opened Servers
  import opened Placement
  import opened Ownership
  import opened CustomBackends
  import opened Compile
  import opened HostLocations
  import opened Routing

  // ---------------------------------------------------------------- compatible claims

  /** If no location is duplicated, each belongs to the earliest claim on its path and type. */
  lemma {:induction false} CompatibleOwnership(root: Location, claims: seq<Claim>, k: nat)
    requires IsFreshRoot(root) && ClaimsCompatible(claims) && k < |Locations(root, claims)|
    ensures OwnedByFirst(root, claims, Locations(root, claims)[k])
    decreases claims
  {
    var l := Locations(root, claims)[k];
    if k == 0 {
      FirstClaimIs(claims, RootLocation, Prefix);
    } else {
      assert l == Added(claims)[k - 1];
      var init, c := claims[..|claims| - 1], claims[|claims| - 1];
      assert claims == init + [c];
      CompatibleAppend(init, c);
      if k - 1 < |Added(init)| {
        assert l == Added(init)[k - 1] == Locations(root, init)[k];
        CompatibleOwnership(root, init, k);
        AddedAreClaimed(init, k - 1);
        FirstClaimIs(init, l.path, l.pathType);
      } else {
        assert l == NewLocation(c.e, c.upstream);
        FirstClaimIs(init, l.path, l.pathType);
      }
    }
  }

  /** The earliest claim on a location owns it; only a root that nobody claims stays as it was. */
  ghost predicate OwnedByFirst(root: Location, claims: seq<Claim>, l: Location) {
    var first := FirstClaim(claims, l.path, l.pathType);
    if first.Some? then Owns(first.value, l) else l == root
  }

  lemma {:induction false} AddedAreClaimed(claims: seq<Claim>, k: nat)
    requires k < |Added(claims)|
    ensures Claimed(claims, Added(claims)[k].path, Added(claims)[k].pathType)
  {
    var init, c := claims[..|claims| - 1], claims[|claims| - 1];
    var l := Added(claims)[k];
    ClaimedAppend(init, c, l.path, l.pathType);
    assert claims == init + [c];
    if k < |Added(init)| {
      AddedAreClaimed(init, k);
    }
  }

  // ---------------------------------------------------------------- plain lists of locations

  predicate PlainClaim(c: Claim) {
    && HasPrefix(PathOf(c), "/") && (TypeOf(c) == Exact || TypeOf(c) == Prefix)
    && c.e.a.anns.rewriteTarget == "" && !c.e.a.anns.useRegex
  }

  ghost predicate PlainClaims(root: Location, claims: seq<Claim>) {
    && IsFreshRoot(root) && PlainLocation(root)
    && ClaimsCompatible(claims)
    && forall i :: 0 <= i < |claims| ==> PlainClaim(claims[i])
  }

  lemma {:induction false} AddedArePlain(claims: seq<Claim>)
    requires forall i :: 0 <= i < |claims| ==> PlainClaim(claims[i])
    ensures forall k :: 0 <= k < |Added(claims)| ==> PlainLocation(Added(claims)[k])
  {
    if claims == [] {
    } else {
      var init, c := claims[..|claims| - 1], claims[|claims| - 1];
      AddedArePlain(init);
      assert PlainClaim(c);
    }
  }

  lemma RootAfterIsPlain(root: Location, claims: seq<Claim>)
    requires PlainClaims(root, claims)
    ensures PlainLocation(RootAfter(root, claims))
  {
    FirstClaimMember(claims, RootLocation, Prefix);
  }

  lemma LocationsArePlain(root: Location, claims: seq<Claim>)
    requires PlainClaims(root, claims)
    ensures Plain(Locations(root, claims))
  {
    RootAfterIsPlain(root, claims);
    AddedArePlain(claims);
    DistinctExactlyWhenCompatible(root, claims);
  }

  /** Two locations that the routing treats alike. */
  predicate SameShape(a: Location, b: Location) {
    a.path == b.path && a.pathType == b.pathType && a.rewriteTarget == b.rewriteTarget && a.useRegex == b.useRegex
  }

  lemma CustomizingKeepsShape(env: Env, ups: Table, ls: seq<Location>)
    ensures forall k :: 0 <= k < |ls| ==> SameShape(ls[k], CustomLocations(env, ups, ls)[k])
  {
  }

  lemma SameShapesDeclare(a: seq<Location>, b: seq<Location>, path: string, t: PathType)
    requires |a| == |b| && forall k :: 0 <= k < |a| ==> SameShape(a[k], b[k])
    ensures Declares(a, path, t) <==> Declares(b, path, t)
  {
    if Declares(a, path, t) {
      var k :| 0 <= k < |a| && a[k].path == path && a[k].pathType == t;
      assert b[k].path == path;
    }
    if Declares(b, path, t) {
      var k :| 0 <= k < |b| && b[k].path == path && b[k].pathType == t;
      assert a[k].path == path;
    }
  }

  lemma SameShapesRoute(a: seq<Location>, b: seq<Location>)
    requires |a| == |b| && forall k :: 0 <= k < |a| ==> SameShape(a[k], b[k])
    requires Plain(a) && SlashesCovered(a)
    ensures Plain(b) && SlashesCovered(b)
  {
    forall i | 0 <= i < |b| && Slashed(b[i]) ensures SlashCovered(b, Stem(b[i])) {
      assert Slashed(a[i]);
      SameShapesDeclare(a, b, Stem(b[i]), Exact);
      SameShapesDeclare(a, b, Stem(b[i]), Prefix);
    }
    forall i | 0 <= i < |b| ensures PlainLocation(b[i]) {
      assert PlainLocation(a[i]);
    }
  }

  predicate OtherShape(a: Location, b: Location) { a.path != b.path || a.pathType != b.pathType }

  lemma SameMembersDeclare(a: seq<Location>, b: seq<Location>, path: string, t: PathType)
    requires forall l :: l in a ==> l in b
    ensures Declares(a, path, t) ==> Declares(b, path, t)
  {
    if Declares(a, path, t) {
      var k :| 0 <= k < |a| && a[k].path == path && a[k].pathType == t;
      assert a[k] in b;
    }
  }

  lemma SortingKeepsDistinct(ls: seq<Location>)
    ensures Pairwise(SortedLocations(ls), OtherShape) <==> Pairwise(ls, OtherShape)
  {
    SortPairwise(ls, LaterPath, OtherShape);
    SortPairwise(Sort(ls, LaterPath), LongerPath, OtherShape);
  }

  lemma SortingKeepsPlain(ls: seq<Location>)
    requires Plain(ls) && SlashesCovered(ls)
    ensures Plain(SortedLocations(ls)) && SlashesCovered(SortedLocations(ls))
  {
    var out := SortedLocations(ls);
    SortingKeepsDistinct(ls);
    assert Pairwise(ls, OtherShape);
    forall l ensures l in out <==> l in ls {
      SortedMembers(ls, l);
    }
    forall i | 0 <= i < |out| ensures PlainLocation(out[i]) {
      assert out[i] in ls;
    }
    forall i, j | 0 <= i < j < |out| ensures out[i].path != out[j].path || out[i].pathType != out[j].pathType {
      assert OtherShape(out[i], out[j]);
    }
    forall i | 0 <= i < |out| && Slashed(out[i]) ensures SlashCovered(out, Stem(out[i])) {
      assert out[i] in ls;
      var k :| 0 <= k < |ls| && ls[k] == out[i];
      assert Slashed(ls[k]);
      SameMembersDeclare(ls, out, Stem(out[i]), Exact);
      SameMembersDeclare(out, ls, Stem(out[i]), Prefix);
    }
  }

  // ---------------------------------------------------------------- a location is always selected

  lemma {:induction false} LongestMatch(ls: seq<Location>, n: nat, request: string) returns (i: nat)
    requires n <= |ls| && exists k :: 0 <= k < n && PrefixMatches(ls[k], request)
    ensures i < n && PrefixMatches(ls[i], request)
    ensures forall k :: 0 <= k < n && PrefixMatches(ls[k], request) ==> |Elements(ls[k].path)| <= |Elements(ls[i].path)|
  {
    if exists k :: 0 <= k < n - 1 && PrefixMatches(ls[k], request) {
      i := LongestMatch(ls, n - 1, request);
      if PrefixMatches(ls[n - 1], request) && |Elements(ls[n - 1].path)| > |Elements(ls[i].path)| {
        i := n - 1;
      }
    } else {
      i := n - 1;
    }
  }

  lemma RootMatches(l: Location, request: string)
    requires l.path == RootLocation && l.pathType == Prefix && IsRequest(request)
    ensures PrefixMatches(l, request)
  {
    assert TrimSuffix("/", "/") == "";
    SplitPrefix("", request);
    assert "" + "/" == "/";
  }

  lemma SomethingIsPicked(ls: seq<Location>, request: string) returns (i: nat)
    requires Declares(ls, RootLocation, Prefix) && IsRequest(request)
    ensures i < |ls| && IngressPicks(ls, i, request)
  {
    if Declares(ls, request, Exact) {
      i :| 0 <= i < |ls| && ls[i].path == request && ls[i].pathType == Exact;
    } else {
      var k :| 0 <= k < |ls| && ls[k].path == RootLocation && ls[k].pathType == Prefix;
      RootMatches(ls[k], request);
      i := LongestMatch(ls, |ls|, request);
    }
  }

  // ---------------------------------------------------------------- the result

  /** The claim matches the request: by equality if it is exact, by path elements if it is a prefix. */
  predicate ClaimMatches(c: Claim, request: string) {
    if TypeOf(c) == Exact then PathOf(c) == request else ElementPrefix(PathOf(c), request)
  }

  /** No claim on the host is a better match than a location with this path and type. */
  ghost predicate Best(claims: seq<Claim>, path: string, t: PathType, request: string) {
    if t == Exact then path == request
    else
      && t == Prefix && ElementPrefix(path, request)
      && forall i :: 0 <= i < |claims| && ClaimMatches(claims[i], request) ==>
           TypeOf(claims[i]) == Prefix && |Elements(PathOf(claims[i]))| <= |Elements(path)|
  }

  /** The location of a host that is right for a request: none matches better, and the earliest claim on it
      owns it. */
  ghost predicate RightFor(root: Location, claims: seq<Claim>, l: Location, request: string) {
    Best(claims, l.path, l.pathType, request) && OwnedByFirst(root, claims, l)
  }

  /** The locations nginx gets for a host. */
  function FinalLocations(env: Env, ups: Table, root: Location, claims: seq<Claim>): seq<Location> {
    SortedLocations(CustomLocations(env, ups, Locations(root, claims)))
  }

  lemma FinalLocationsArePlain(env: Env, ups: Table, root: Location, claims: seq<Claim>)
    requires PlainClaims(root, claims) && SlashesCovered(Locations(root, claims))
    ensures Plain(FinalLocations(env, ups, root, claims)) && SlashesCovered(FinalLocations(env, ups, root, claims))
  {
    var ls := Locations(root, claims);
    LocationsArePlain(root, claims);
    CustomizingKeepsShape(env, ups, ls);
    SameShapesRoute(ls, CustomLocations(env, ups, ls));
    SortingKeepsPlain(CustomLocations(env, ups, ls));
  }

  lemma FinalDeclares(env: Env, ups: Table, root: Location, claims: seq<Claim>, path: string, t: PathType)
    requires IsFreshRoot(root)
    ensures Declares(FinalLocations(env, ups, root, claims), path, t) <==>
            (path == RootLocation && t == Prefix) || Claimed(claims, path, t)
  {
    var ls := Locations(root, claims);
    var customized := CustomLocations(env, ups, ls);
    CustomizingKeepsShape(env, ups, ls);
    SameShapesDeclare(ls, customized, path, t);
    forall l ensures l in SortedLocations(customized) <==> l in customized {
      SortedMembers(customized, l);
    }
    SameMembersDeclare(customized, SortedLocations(customized), path, t);
    SameMembersDeclare(SortedLocations(customized), customized, path, t);
    LocationIffClaimed(root, claims, path, t);
  }

  lemma PickedIsBest(ls: seq<Location>, claims: seq<Claim>, i: nat, request: string)
    requires i < |ls| && IngressPicks(ls, i, request)
    requires forall k :: 0 <= k < |claims| ==>
               PlainClaim(claims[k]) && Declares(ls, PathOf(claims[k]), TypeOf(claims[k]))
    ensures Best(claims, ls[i].path, ls[i].pathType, request)
  {
    if !Declares(ls, request, Exact) {
      forall k | 0 <= k < |claims| && ClaimMatches(claims[k], request)
        ensures TypeOf(claims[k]) == Prefix && |Elements(PathOf(claims[k]))| <= |Elements(ls[i].path)|
      {
        assert PlainClaim(claims[k]);
        assert Declares(ls, PathOf(claims[k]), TypeOf(claims[k]));
        var j :| 0 <= j < |ls| && ls[j].path == PathOf(claims[k]) && ls[j].pathType == TypeOf(claims[k]);
        assert PrefixMatches(ls[j], request);
      }
    }
  }

  /** For every request to the host nginx selects a location, and its upstream is that of a right one. */
  lemma RequestReachesOwner(env: Env, ups: Table, root: Location, claims: seq<Claim>, request: string)
    requires PlainClaims(root, claims) && SlashesCovered(Locations(root, claims)) && IsRequest(request)
    ensures exists x :: NginxPicks(Updated(FinalLocations(env, ups, root, claims)), x, request)
    ensures forall x :: NginxPicks(Updated(FinalLocations(env, ups, root, claims)), x, request) ==>
              exists l :: l in Locations(root, claims) && RightFor(root, claims, l, request)
                          && x.location.backend == CustomLocation(env, ups, l).backend
  {
    var ls := FinalLocations(env, ups, root, claims);
    FinalLocationsArePlain(env, ups, root, claims);
    FaithfulWhenCovered(ls);
    assert PicksAlike(ls, request);
    FinalDeclares(env, ups, root, claims, RootLocation, Prefix);
    var i := SomethingIsPicked(ls, request);
    forall x | NginxPicks(Updated(ls), x, request)
      ensures exists l :: l in Locations(root, claims) && RightFor(root, claims, l, request)
                          && x.location.backend == CustomLocation(env, ups, l).backend
    {
      assert x.origin == i;
      PickedBackend(ls, x, request);
      var _ := FinalIsRight(env, ups, root, claims, i, request);
    }
  }

  lemma PickedBackend(ls: seq<Location>, x: Placed, request: string)
    requires NginxPicks(Updated(ls), x, request)
    ensures x.origin < |ls| && x.location.backend == ls[x.origin].backend
  {
    Output(ls);
  }

  lemma FinalIsRight(env: Env, ups: Table, root: Location, claims: seq<Claim>, i: nat, request: string)
    returns (l: Location)
    requires PlainClaims(root, claims) && i < |FinalLocations(env, ups, root, claims)|
    requires IngressPicks(FinalLocations(env, ups, root, claims), i, request)
    ensures l in Locations(root, claims) && RightFor(root, claims, l, request)
    ensures FinalLocations(env, ups, root, claims)[i].backend == CustomLocation(env, ups, l).backend
  {
    var ls := FinalLocations(env, ups, root, claims);
    ClaimsAreDeclared(env, ups, root, claims);
    PickedIsBest(ls, claims, i, request);
    l := FinalOwned(env, ups, root, claims, ls[i]);
  }

  lemma ClaimsAreDeclared(env: Env, ups: Table, root: Location, claims: seq<Claim>)
    requires IsFreshRoot(root)
    ensures forall k :: 0 <= k < |claims| ==>
              Declares(FinalLocations(env, ups, root, claims), PathOf(claims[k]), TypeOf(claims[k]))
  {
    forall k | 0 <= k < |claims|
      ensures Declares(FinalLocations(env, ups, root, claims), PathOf(claims[k]), TypeOf(claims[k]))
    {
      FinalDeclares(env, ups, root, claims, PathOf(claims[k]), TypeOf(claims[k]));
    }
  }

  lemma FinalOwned(env: Env, ups: Table, root: Location, claims: seq<Claim>, final: Location) returns (l: Location)
    requires IsFreshRoot(root) && ClaimsCompatible(claims) && final in FinalLocations(env, ups, root, claims)
    ensures l in Locations(root, claims) && OwnedByFirst(root, claims, l)
    ensures final == CustomLocation(env, ups, l) && SameShape(final, l)
  {
    SortedMembers(CustomLocations(env, ups, Locations(root, claims)), final);
    var k := CustomizedFrom(env, ups, Locations(root, claims), final);
    l := Locations(root, claims)[k];
    CompatibleOwnership(root, claims, k);
  }

  // ---------------------------------------------------------------- for the hosts of a configuration

  /** For every host with plain paths whose root is free for claims, and every request to it: among the locations that
      are compiled for the host nginx selects one, and forwards to the upstream of the right path.  Every root is free
      except that of the default server once a catch-all backend took it. */
  lemma HostRequestsReachOwners(env: Env, data: seq<Annotated>, du: Backend, ups: Table, h: string, request: string)
    requires h in PlacedServers(env, data, du) && IsFreshRoot(RootOf(env, data, du, h))
    requires PlainLocation(RootOf(env, data, du, h)) && ClaimsCompatible(ClaimsFor(env, data, du, h))
    requires forall k :: 0 <= k < |ClaimsFor(env, data, du, h)| ==> PlainClaim(ClaimsFor(env, data, du, h)[k])
    requires SlashesCovered(Locations(RootOf(env, data, du, h), ClaimsFor(env, data, du, h)))
    requires IsRequest(request)
    ensures
      var root, claims := RootOf(env, data, du, h), ClaimsFor(env, data, du, h);
      var out := Updated(Finished(env, ups, PlacedServers(env, data, du)[h]).locations);
      && (exists x :: NginxPicks(out, x, request))
      && forall x :: NginxPicks(out, x, request) ==>
           exists l :: l in Locations(root, claims) && RightFor(root, claims, l, request)
                       && x.location.backend == CustomLocation(env, ups, l).backend
  {
    var root, claims := RootOf(env, data, du, h), ClaimsFor(env, data, du, h);
    PlacedAre(env, data, du, h);
    FinishedLocations(env, ups, PlacedServers(env, data, du)[h]);
    RequestReachesOwner(env, ups, root, claims, request);
  }
}
