/** internal/ingress/controller/location.go: turning Ingress path types into nginx locations.

    An Ingress Prefix path matches whole path elements; an nginx prefix location matches any
    string prefix.  updateServerLocations therefore gives a Prefix path a trailing slash and adds
    an exact location for the path itself.  Below: for which lists of locations that rewriting
    preserves, for every request, the location that is selected.
 */
module Routing {
  import opened Strings
  import opened Types

  // ---------------------------------------------------------------- the rewriting

  /** An output location together with the index of the input location it was made from. */
  datatype Placed = Placed(origin: nat, location: Location)

  predicate NeedsRewrite(l: Location) {
    |l.rewriteTarget| > 0 && l.rewriteTarget != l.path
  }

  function NormalizePrefixPath(path: string): string {
    if path == RootLocation then RootLocation
    else if !HasSuffix(path, "/") then path + "/"
    else path
  }

  /** Only a Prefix location other than "/" that uses neither rewrites nor regular expressions changes. */
  predicate IsRewritten(l: Location) {
    l.path != RootLocation && l.pathType == Prefix && !NeedsRewrite(l) && !l.useRegex
  }

  /** The location itself, after the loop has passed it. */
  function Rewritten(l: Location): Location {
    if l.path == RootLocation then l
    else if IsRewritten(l) then l.(ingressPath := l.path, path := NormalizePrefixPath(l.path))
    else l.(ingressPath := l.path)
  }

  predicate GetsExact(locations: seq<Location>, l: Location) {
    IsRewritten(l) && !Declares(locations, l.path, Exact)
  }

  /** The exact location added for l. */
  function ExactCopy(l: Location): Location { l.(ingressPath := l.path, pathType := Exact) }

  /** The output for the first n locations. */
  function UpdatedUpTo(locations: seq<Location>, n: nat): seq<Placed>
    requires n <= |locations|
  {
    if n == 0 then [] else
    var l := locations[n - 1];
    UpdatedUpTo(locations, n - 1) + [Placed(n - 1, Rewritten(l))]
      + if GetsExact(locations, l) then [Placed(n - 1, ExactCopy(l))] else []
  }

  function Updated(locations: seq<Location>): seq<Placed> { UpdatedUpTo(locations, |locations|) }

  /** The output locations alone. */
  function Results(out: seq<Placed>): (r: seq<Location>)
    ensures |r| == |out|
  {
    seq(|out|, k requires 0 <= k < |out| => out[k].location)
  }

  // ---------------------------------------------------------------- the code, on pointers

  class LocationObject {
    var value: Location
    constructor (l: Location)
      ensures value == l
    {
      value := l;
    }
  }

  ghost function Values(objects: seq<LocationObject>): (r: seq<Location>)
    reads objects
    ensures |r| == |objects|
  {
    seq(|objects|, i requires 0 <= i < |objects| reads objects => objects[i].value)
  }

  /** What the loop has produced after n rounds: objects holding the updated values, of which the
      main ones are the caller's own and the copies are new. */
  ghost predicate Produced(before: seq<Location>, objects: seq<LocationObject>, n: nat, result: seq<LocationObject>)
    requires n <= |before| == |objects|
    reads result
  {
    var out := UpdatedUpTo(before, n);
    && |result| == |out|
    && forall k :: 0 <= k < |out| ==>
         && result[k].value == out[k].location
         && out[k].origin < n
         && (if out[k].location == Rewritten(before[out[k].origin]) then result[k] == objects[out[k].origin]
             else result[k] !in objects)
  }

  method UpdateServerLocations(locations: seq<LocationObject>) returns (newLocations: seq<LocationObject>)
    requires forall i, j :: 0 <= i < j < |locations| ==> locations[i] != locations[j]
    requires forall i :: 0 <= i < |locations| ==> locations[i].value.pathType != Unset
    modifies locations
    ensures Produced(old(Values(locations)), locations, |locations|, newLocations)
    ensures forall o :: o in newLocations ==> o in locations || fresh(o)
  {
    ghost var before := Values(locations);
    var exactLocations := ExactPaths(locations);
    newLocations := [];
    for i := 0 to |locations|
      invariant forall k :: i <= k < |locations| ==> locations[k].value == before[k]
      invariant Produced(before, locations, i, newLocations)
      invariant forall o :: o in newLocations ==> o in locations || fresh(o)
    {
      newLocations := RewriteNext(before, locations, i, exactLocations, newLocations);
    }
  }

  /** One turn of the second loop, on the result so far. */
  method RewriteNext(ghost before: seq<Location>, locations: seq<LocationObject>, i: nat, exactLocations: set<string>,
                     done: seq<LocationObject>) returns (result: seq<LocationObject>)
    requires i < |before| == |locations| && locations[i].value == before[i] && before[i].pathType != Unset
    requires forall j, k :: 0 <= j < k < |locations| ==> locations[j] != locations[k]
    requires forall path :: path in exactLocations <==> Declares(before, path, Exact)
    requires Produced(before, locations, i, done)
    modifies locations[i]
    ensures Produced(before, locations, i + 1, result)
    ensures forall o :: o in result ==> o in done || o == locations[i] || fresh(o)
  {
    NotYetProduced(before, locations, i, done);
    var made := RewriteOne(locations[i], exactLocations);
    ProducedStep(before, locations, i, done, made);
    result := done + made;
  }

  lemma NotYetProduced(before: seq<Location>, objects: seq<LocationObject>, n: nat, result: seq<LocationObject>)
    requires n < |before| == |objects| && Produced(before, objects, n, result)
    requires forall i, j :: 0 <= i < j < |objects| ==> objects[i] != objects[j]
    ensures objects[n] !in result
  {
  }

  lemma ProducedStep(before: seq<Location>, objects: seq<LocationObject>, n: nat, result: seq<LocationObject>,
                     made: seq<LocationObject>)
    requires n < |before| == |objects| && Produced(before, objects, n, result)
    requires objects[n].value == Rewritten(before[n])
    requires if GetsExact(before, before[n])
             then |made| == 2 && made[0] == objects[n] && made[1] !in objects && made[1].value == ExactCopy(before[n])
             else made == [objects[n]]
    ensures Produced(before, objects, n + 1, result + made)
  {
    var out, all := UpdatedUpTo(before, n), result + made;
    var out' := UpdatedUpTo(before, n + 1);
    assert forall k :: 0 <= k < |out| ==> out'[k] == out[k] && all[k] == result[k];
    assert out'[|out|] == Placed(n, Rewritten(before[n])) && all[|out|] == made[0];
    if GetsExact(before, before[n]) {
      assert out'[|out| + 1] == Placed(n, ExactCopy(before[n])) && all[|out| + 1] == made[1];
    }
  }

  /** The first loop: the paths declared Exact. */
  method ExactPaths(locations: seq<LocationObject>) returns (exactLocations: set<string>)
    requires forall i :: 0 <= i < |locations| ==> locations[i].value.pathType != Unset
    ensures forall path :: path in exactLocations <==> Declares(Values(locations), path, Exact)
  {
    ghost var before := Values(locations);
    exactLocations := {};
    for i := 0 to |locations|
      invariant forall path :: path in exactLocations <==> Declares(before[..i], path, Exact)
    {
      if locations[i].value.pathType == Exact {
        exactLocations := exactLocations + {locations[i].value.path};
      }
      assert before[..i + 1] == before[..i] + [before[i]];
      forall path {
        DeclaresAppend(before[..i], before[i], path, Exact);
      }
    }
    assert before[..|locations|] == before;
  }

  /** One turn of the second loop: the location itself, and an exact copy of it if there is none. */
  method RewriteOne(location: LocationObject, exactLocations: set<string>) returns (made: seq<LocationObject>)
    requires location.value.pathType != Unset
    modifies location
    ensures location.value == Rewritten(old(location.value))
    ensures if IsRewritten(old(location.value)) && old(location.value).path !in exactLocations
            then |made| == 2 && made[0] == location && fresh(made[1]) && made[1].value == ExactCopy(old(location.value))
            else made == [location]
  {
    if location.value.path == RootLocation {
      return [location];
    }
    location.value := location.value.(ingressPath := location.value.path);
    if location.value.pathType != Prefix {
      return [location];
    }
    if NeedsRewrite(location.value) || location.value.useRegex {
      return [location];
    }
    if location.value.path in exactLocations {
      location.value := location.value.(path := NormalizePrefixPath(location.value.path));
      return [location];
    }
    var exactLocation := new LocationObject(location.value);
    location.value := location.value.(path := NormalizePrefixPath(location.value.path));
    exactLocation.value := exactLocation.value.(pathType := Exact);
    return [location, exactLocation];
  }

  // ---------------------------------------------------------------- which location is selected

  /** The path elements of an Ingress path; a trailing slash adds none. */
  function Elements(path: string): seq<string> { Split(TrimSuffix(path, "/"), '/') }

  /** The Prefix path type: element by element. */
  predicate ElementPrefix(path: string, request: string) {
    Elements(path) <= Split(request, '/')
  }

  predicate PrefixMatches(l: Location, request: string) {
    l.pathType == Prefix && ElementPrefix(l.path, request)
  }

  /** Ingress path types: an exact path wins, else the Prefix path with the most matching elements. */
  ghost predicate IngressPicks(locations: seq<Location>, i: nat, request: string)
    requires i < |locations|
  {
    if Declares(locations, request, Exact) then
      locations[i].pathType == Exact && locations[i].path == request
    else
      && PrefixMatches(locations[i], request)
      && forall j :: 0 <= j < |locations| && PrefixMatches(locations[j], request) ==>
           |Elements(locations[j].path)| <= |Elements(locations[i].path)|
  }

  predicate ExactMatches(x: Placed, request: string) {
    x.location.pathType == Exact && x.location.path == request
  }

  predicate StringMatches(x: Placed, request: string) {
    x.location.pathType != Exact && HasPrefix(request, x.location.path)
  }

  /** nginx: an exact location wins, else the prefix location with the longest string. */
  ghost predicate NginxPicks(out: seq<Placed>, x: Placed, request: string) {
    && x in out
    && if exists y :: y in out && ExactMatches(y, request) then ExactMatches(x, request)
       else StringMatches(x, request)
            && forall y :: y in out && StringMatches(y, request) ==> |y.location.path| <= |x.location.path|
  }

  predicate IsRequest(request: string) { HasPrefix(request, "/") }

  ghost predicate PicksAlike(locations: seq<Location>, request: string) {
    var out := Updated(locations);
    && (forall i, x :: 0 <= i < |locations| && IngressPicks(locations, i, request) && NginxPicks(out, x, request)
          ==> x.origin == i)
    && ((exists i :: 0 <= i < |locations| && IngressPicks(locations, i, request)) <==>
        (exists x :: NginxPicks(out, x, request)))
  }

  /** The rewritten list is a valid nginx server and routes every request as the Ingress says. */
  ghost predicate RoutesFaithfully(locations: seq<Location>) {
    && DistinctLocations(Results(Updated(locations)))
    && forall request :: IsRequest(request) ==> PicksAlike(locations, request)
  }

  /** Locations as the compiler produces them: rooted, distinct, and free of rewrites and regular expressions. */
  ghost predicate Plain(locations: seq<Location>) {
    && (forall i :: 0 <= i < |locations| ==> PlainLocation(locations[i]))
    && DistinctLocations(locations)
  }

  /** A location that needs neither rewrites nor regular expressions, also with the path it will be given. */
  predicate PlainLocation(l: Location) {
    && HasPrefix(l.path, "/") && (l.pathType == Exact || l.pathType == Prefix)
    && !NeedsRewrite(l) && !NeedsRewrite(Rewritten(l)) && !l.useRegex
  }

  /** Every Prefix path that is written with a trailing slash has its unslashed form taken by an
      Exact path and not by a Prefix path that would be given the same slash. */
  ghost predicate SlashesCovered(locations: seq<Location>) {
    forall i :: 0 <= i < |locations| && Slashed(locations[i]) ==> SlashCovered(locations, Stem(locations[i]))
  }

  predicate Slashed(l: Location) {
    l.pathType == Prefix && l.path != RootLocation && HasSuffix(l.path, "/")
  }

  predicate SlashCovered(locations: seq<Location>, stem: string) {
    Declares(locations, stem, Exact) && (HasSuffix(stem, "/") || !Declares(locations, stem, Prefix))
  }

  // ---------------------------------------------------------------- elements and strings

  function Stem(l: Location): string { TrimSuffix(l.path, "/") }

  /** Matching by elements is matching the stem itself or the stem followed by a slash. */
  lemma {:induction false} SplitPrefix(stem: string, request: string)
    ensures Split(stem, '/') <= Split(request, '/') <==> request == stem || HasPrefix(request, stem + "/")
  {
    var s, r := Split(stem, '/'), Split(request, '/');
    if HasPrefix(request, stem + "/") {
      var rest := request[|stem| + 1..];
      assert request == stem + ['/'] + rest;
      SplitAppend(stem, rest, '/');
    }
    if s <= r {
      var tail := r[|s|..];
      assert r == s + tail;
      if tail == [] {
        SplitInjective(stem, request, '/');
      } else {
        var rest := Join(tail, '/');
        SplitJoin(tail, '/');
        SplitAppend(stem, rest, '/');
        SplitInjective(stem + ['/'] + rest, request, '/');
        assert stem + "/" <= stem + ['/'] + rest;
      }
    }
  }

  /** Of two Prefix paths that match, the one with more elements has the longer stem. */
  lemma LongerStem(l: Location, m: Location, request: string)
    requires PrefixMatches(l, request) && PrefixMatches(m, request)
    ensures |Elements(l.path)| <= |Elements(m.path)| <==> |Stem(l)| <= |Stem(m)|
    ensures |Stem(l)| == |Stem(m)| ==> Stem(l) == Stem(m)
  {
    var r := Split(request, '/');
    assert Elements(l.path) == r[..|Elements(l.path)|] && Elements(m.path) == r[..|Elements(m.path)|];
    if |Elements(l.path)| <= |Elements(m.path)| {
      assert Elements(l.path) <= Elements(m.path);
      SplitPrefix(Stem(l), Stem(m));
    }
    if |Elements(m.path)| <= |Elements(l.path)| {
      assert Elements(m.path) <= Elements(l.path);
      SplitPrefix(Stem(m), Stem(l));
    }
  }

  lemma PathFromStem(l: Location)
    ensures l.path == if HasSuffix(l.path, "/") then Stem(l) + "/" else Stem(l)
  {
  }

  /** The rewritten prefix location is the stem with a slash. */
  lemma RewrittenLocation(l: Location)
    requires PlainLocation(l)
    ensures Rewritten(l).pathType == l.pathType
    ensures Rewritten(l).path == if l.pathType == Prefix then Stem(l) + "/" else l.path
  {
    PathFromStem(l);
  }

  // ---------------------------------------------------------------- what is in the output

  lemma {:induction false} OutputUpTo(locations: seq<Location>, n: nat)
    requires n <= |locations|
    ensures forall x :: x in UpdatedUpTo(locations, n) <==>
              && x.origin < n
              && (|| x == Placed(x.origin, Rewritten(locations[x.origin]))
                  || (GetsExact(locations, locations[x.origin])
                      && x == Placed(x.origin, ExactCopy(locations[x.origin]))))
    ensures forall k, l :: 0 <= k < l < |UpdatedUpTo(locations, n)| ==>
              UpdatedUpTo(locations, n)[k] != UpdatedUpTo(locations, n)[l]
  {
    if n == 0 {
    } else {
      OutputUpTo(locations, n - 1);
    }
  }

  ghost predicate IsOutput(locations: seq<Location>, x: Placed) {
    && x.origin < |locations|
    && var l := locations[x.origin];
       x.location == Rewritten(l) || (GetsExact(locations, l) && x.location == ExactCopy(l))
  }

  lemma Output(locations: seq<Location>)
    ensures forall x :: x in Updated(locations) <==> IsOutput(locations, x)
    ensures forall k, l :: 0 <= k < l < |Updated(locations)| ==> Updated(locations)[k] != Updated(locations)[l]
  {
    OutputUpTo(locations, |locations|);
  }

  // ---------------------------------------------------------------- covered slashes route faithfully

  lemma UniqueStem(locations: seq<Location>, i: nat, j: nat)
    requires Plain(locations) && SlashesCovered(locations)
    requires i < |locations| && j < |locations|
    requires locations[i].pathType == Prefix && locations[j].pathType == Prefix
    requires Stem(locations[i]) == Stem(locations[j])
    ensures i == j
  {
    var l, m := locations[i], locations[j];
    PathFromStem(l);
    PathFromStem(m);
    assert Slashed(l) ==> SlashCovered(locations, Stem(l));
    assert Slashed(m) ==> SlashCovered(locations, Stem(m));
  }

  /** The one case where element and string matching differ does not arise. */
  lemma StemIsNotRequest(locations: seq<Location>, j: nat, request: string)
    requires Plain(locations) && SlashesCovered(locations) && IsRequest(request)
    requires j < |locations| && locations[j].pathType == Prefix
    requires !Declares(locations, request, Exact)
    requires locations[j].path != request || HasSuffix(request, "/")
    ensures Stem(locations[j]) != request
  {
    var l := locations[j];
    PathFromStem(l);
    assert Slashed(l) ==> SlashCovered(locations, Stem(l));
  }

  lemma ExactRequest(locations: seq<Location>, request: string)
    requires Plain(locations) && Declares(locations, request, Exact)
    ensures PicksAlike(locations, request)
  {
    var out := Updated(locations);
    Output(locations);
    var e :| 0 <= e < |locations| && locations[e].path == request && locations[e].pathType == Exact;
    var x := Placed(e, Rewritten(locations[e]));
    RewrittenLocation(locations[e]);
    assert x in out && ExactMatches(x, request);
    assert IngressPicks(locations, e, request) && NginxPicks(out, x, request);
    forall y | y in out && ExactMatches(y, request) ensures y.origin == e {
      RewrittenLocation(locations[y.origin]);
    }
  }

  lemma CopiedRequest(locations: seq<Location>, i: nat, request: string)
    requires Plain(locations) && SlashesCovered(locations) && IsRequest(request)
    requires i < |locations| && locations[i].path == request != RootLocation && locations[i].pathType == Prefix
    requires !Declares(locations, request, Exact)
    ensures PicksAlike(locations, request)
  {
    var out, l := Updated(locations), locations[i];
    Output(locations);
    var x := Placed(i, ExactCopy(l));
    assert IsOutput(locations, x) && ExactMatches(x, request);
    assert NginxPicks(out, x, request);
    forall y | y in out && ExactMatches(y, request) ensures y.origin == i {
      RewrittenLocation(locations[y.origin]);
    }
    OwnPathMatches(l, request);
    forall j | 0 <= j < |locations| && PrefixMatches(locations[j], request)
      ensures |Elements(locations[j].path)| <= |Elements(l.path)|
      ensures |Elements(locations[j].path)| == |Elements(l.path)| ==> j == i
    {
      if HasSuffix(request, "/") {
        StemIsNotRequest(locations, j, request);
      }
      OwnPathIsLongest(l, locations[j], request);
      if Stem(locations[j]) == Stem(l) {
        UniqueStem(locations, i, j);
      }
    }
    assert IngressPicks(locations, i, request);
  }

  lemma OwnPathMatches(l: Location, request: string)
    requires l.path == request && l.pathType == Prefix
    ensures PrefixMatches(l, request)
  {
    PathFromStem(l);
    SplitPrefix(Stem(l), request);
  }

  /** No path that matches a location's own path has more elements. */
  lemma OwnPathIsLongest(l: Location, m: Location, request: string)
    requires l.path == request && PrefixMatches(l, request) && PrefixMatches(m, request)
    requires HasSuffix(request, "/") ==> Stem(m) != request
    ensures |Elements(m.path)| <= |Elements(l.path)|
    ensures |Elements(m.path)| == |Elements(l.path)| ==> Stem(m) == Stem(l)
  {
    PathFromStem(l);
    SplitPrefix(Stem(m), request);
    LongerStem(m, l, request);
    LongerStem(l, m, request);
  }

  lemma PrefixRequest(locations: seq<Location>, request: string)
    requires Plain(locations) && SlashesCovered(locations) && IsRequest(request)
    requires !Declares(locations, request, Exact)
    requires request == RootLocation || !Declares(locations, request, Prefix)
    ensures PicksAlike(locations, request)
  {
    var out := Updated(locations);
    Output(locations);
    forall x | x in out
      ensures !ExactMatches(x, request)
      ensures StringMatches(x, request) ==>
                && PrefixMatches(locations[x.origin], request)
                && |x.location.path| == |Stem(locations[x.origin])| + 1
    {
      var l := locations[x.origin];
      RewrittenLocation(l);
      SplitPrefix(Stem(l), request);
    }
    forall i | 0 <= i < |locations| && PrefixMatches(locations[i], request)
      ensures IsOutput(locations, Placed(i, Rewritten(locations[i])))
      ensures StringMatches(Placed(i, Rewritten(locations[i])), request)
    {
      RewrittenLocation(locations[i]);
      SplitPrefix(Stem(locations[i]), request);
      StemIsNotRequest(locations, i, request);
    }
    forall i, j | 0 <= i < |locations| && 0 <= j < |locations|
                  && PrefixMatches(locations[i], request) && PrefixMatches(locations[j], request)
      ensures |Elements(locations[i].path)| <= |Elements(locations[j].path)| <==>
              |Stem(locations[i])| <= |Stem(locations[j])|
      ensures |Stem(locations[i])| == |Stem(locations[j])| ==> i == j
    {
      LongerStem(locations[i], locations[j], request);
      if |Stem(locations[i])| == |Stem(locations[j])| {
        UniqueStem(locations, i, j);
      }
    }
    PicksAlikeFromMatches(locations, request);
  }

  /** If the two notions of matching agree, location by location and in what they prefer, so do the picks. */
  lemma PicksAlikeFromMatches(locations: seq<Location>, request: string)
    requires !Declares(locations, request, Exact)
    requires forall x :: x in Updated(locations) ==> x.origin < |locations| && !ExactMatches(x, request)
    requires forall x :: x in Updated(locations) && StringMatches(x, request) ==>
               PrefixMatches(locations[x.origin], request) && |x.location.path| == |Stem(locations[x.origin])| + 1
    requires forall i :: 0 <= i < |locations| && PrefixMatches(locations[i], request) ==>
               var x := Placed(i, Rewritten(locations[i]));
               x in Updated(locations) && StringMatches(x, request)
    requires forall i, j ::
               (&& 0 <= i < |locations| && 0 <= j < |locations|
                && PrefixMatches(locations[i], request) && PrefixMatches(locations[j], request)) ==>
               && (|Elements(locations[i].path)| <= |Elements(locations[j].path)| <==>
                   |Stem(locations[i])| <= |Stem(locations[j])|)
               && (|Stem(locations[i])| == |Stem(locations[j])| ==> i == j)
    ensures PicksAlike(locations, request)
  {
    var out := Updated(locations);
    forall i, x | 0 <= i < |locations| && IngressPicks(locations, i, request) && NginxPicks(out, x, request)
      ensures x.origin == i
    {
      var y := Placed(i, Rewritten(locations[i]));
      assert y in out && StringMatches(y, request);
      assert |y.location.path| <= |x.location.path|;
      assert PrefixMatches(locations[x.origin], request);
    }
    if i :| 0 <= i < |locations| && IngressPicks(locations, i, request) {
      assert NginxPicks(out, Placed(i, Rewritten(locations[i])), request);
    }
    if x :| NginxPicks(out, x, request) {
      var i := x.origin;
      forall j | 0 <= j < |locations| && PrefixMatches(locations[j], request)
        ensures |Elements(locations[j].path)| <= |Elements(locations[i].path)|
      {
        var y := Placed(j, Rewritten(locations[j]));
        assert y in out && StringMatches(y, request);
      }
      assert IngressPicks(locations, i, request);
    }
  }

  lemma NoDuplicatesWhenCovered(locations: seq<Location>)
    requires Plain(locations) && SlashesCovered(locations)
    ensures DistinctLocations(Results(Updated(locations)))
  {
    var out := Updated(locations);
    Output(locations);
    forall k, l | 0 <= k < l < |out|
      ensures out[k].location.path != out[l].location.path || out[k].location.pathType != out[l].location.pathType
    {
      assert out[k] in out && out[l] in out && out[k] != out[l];
      DifferentOutputs(locations, out[k], out[l]);
    }
  }

  lemma DifferentOutputs(locations: seq<Location>, x: Placed, y: Placed)
    requires Plain(locations) && SlashesCovered(locations)
    requires IsOutput(locations, x) && IsOutput(locations, y) && x != y
    ensures x.location.path != y.location.path || x.location.pathType != y.location.pathType
  {
    OutputShape(locations, x);
    OutputShape(locations, y);
    if x.location.path == y.location.path && x.location.pathType == y.location.pathType {
      var a, b := locations[x.origin], locations[y.origin];
      if x.location.pathType == Prefix {
        assert (Stem(a) + "/")[..|Stem(a)|] == Stem(a) && (Stem(b) + "/")[..|Stem(b)|] == Stem(b);
        UniqueStem(locations, x.origin, y.origin);
      } else {
        assert a.pathType == b.pathType;
        SameLocationSameIndex(locations, x.origin, y.origin);
      }
    }
  }

  lemma SameLocationSameIndex(locations: seq<Location>, i: nat, j: nat)
    requires DistinctLocations(locations) && i < |locations| && j < |locations|
    requires locations[i].path == locations[j].path && locations[i].pathType == locations[j].pathType
    ensures i == j
  {
  }

  /** An output is a Prefix location for a stem with a slash, or an Exact one for a path that was Exact or that no
      Exact location declares. */
  lemma OutputShape(locations: seq<Location>, x: Placed)
    requires Plain(locations) && IsOutput(locations, x)
    ensures
      var l := locations[x.origin];
      if x.location.pathType == Prefix then
        l.pathType == Prefix && x.location == Rewritten(l) && x.location.path == Stem(l) + "/"
      else
        && x.location.pathType == Exact && x.location.path == l.path
        && (if l.pathType == Exact then x.location == Rewritten(l)
            else l.pathType == Prefix && x.location == ExactCopy(l) && !Declares(locations, l.path, Exact))
  {
    var l := locations[x.origin];
    assert PlainLocation(l);
    RewrittenLocation(l);
  }

  lemma FaithfulWhenCovered(locations: seq<Location>)
    requires Plain(locations) && SlashesCovered(locations)
    ensures RoutesFaithfully(locations)
  {
    NoDuplicatesWhenCovered(locations);
    forall request | IsRequest(request) ensures PicksAlike(locations, request) {
      if Declares(locations, request, Exact) {
        ExactRequest(locations, request);
      } else if request != RootLocation && Declares(locations, request, Prefix) {
        var i :| 0 <= i < |locations| && locations[i].path == request && locations[i].pathType == Prefix;
        CopiedRequest(locations, i, request);
      } else {
        PrefixRequest(locations, request);
      }
    }
  }

  // ---------------------------------------------------------------- an uncovered slash does not

  /** A stem declared as a Prefix path too is given the same location twice. */
  lemma DuplicateWhenPrefixStem(locations: seq<Location>, i: nat)
    requires Plain(locations) && i < |locations| && Slashed(locations[i])
    requires !HasSuffix(Stem(locations[i]), "/") && Declares(locations, Stem(locations[i]), Prefix)
    ensures !DistinctLocations(Results(Updated(locations)))
  {
    var stem := Stem(locations[i]);
    var j :| 0 <= j < |locations| && locations[j].path == stem && locations[j].pathType == Prefix;
    Output(locations);
    RewrittenLocation(locations[i]);
    RewrittenLocation(locations[j]);
    var out, x, y := Updated(locations), Placed(i, Rewritten(locations[i])), Placed(j, Rewritten(locations[j]));
    assert x in out && y in out && x != y;
    var k :| 0 <= k < |out| && out[k] == x;
    var l :| 0 <= l < |out| && out[l] == y;
    PathFromStem(locations[i]);
    PathFromStem(locations[j]);
    assert Results(out)[k] == x.location && Results(out)[l] == y.location && k != l;
  }

  /** A request for the stem itself is for location i, and nginx sends it elsewhere. */
  lemma MisroutedStem(locations: seq<Location>, i: nat)
    requires Plain(locations) && i < |locations| && Slashed(locations[i])
    requires !Declares(locations, Stem(locations[i]), Exact)
    ensures IsRequest(Stem(locations[i])) && !PicksAlike(locations, Stem(locations[i]))
  {
    var l := locations[i];
    var request := Stem(l);
    PathFromStem(l);
    var out := Updated(locations);
    Output(locations);
    SplitPrefix(request, request);
    assert PrefixMatches(l, request);
    assert forall j :: 0 <= j < |locations| && PrefixMatches(locations[j], request) ==>
                  |Elements(locations[j].path)| <= |Split(request, '/')|;
    assert IngressPicks(locations, i, request);
    forall x | x in out && (ExactMatches(x, request) || StringMatches(x, request)) ensures x.origin != i {
      RewrittenLocation(locations[x.origin]);
    }
  }

  /** The rewriting routes every request as the Ingress path types do, and yields no duplicate
      location, exactly when every trailing slash is covered. */
  lemma FaithfulExactlyWhenCovered(locations: seq<Location>)
    requires Plain(locations)
    ensures RoutesFaithfully(locations) <==> SlashesCovered(locations)
  {
    if SlashesCovered(locations) {
      FaithfulWhenCovered(locations);
    } else {
      var i :| 0 <= i < |locations| && Slashed(locations[i]) && !SlashCovered(locations, Stem(locations[i]));
      if Declares(locations, Stem(locations[i]), Exact) {
        DuplicateWhenPrefixStem(locations, i);
      } else {
        MisroutedStem(locations, i);
      }
    }
  }

  /** In particular it does for locations without trailing slashes. */
  lemma FaithfulWithoutTrailingSlashes(locations: seq<Location>)
    requires Plain(locations)
    requires forall i :: 0 <= i < |locations|
                         && locations[i].pathType == Prefix && locations[i].path != RootLocation ==>
               !HasSuffix(locations[i].path, "/")
    ensures RoutesFaithfully(locations)
  {
    assert SlashesCovered(locations);
    FaithfulWhenCovered(locations);
  }
}
