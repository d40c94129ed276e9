/** Ingresses at which properties fail that one might expect of getBackendServers
    (internal/ingress/controller/controller.go).  The exact conditions are in the modules named with each.
 */
module Witnesses {
  import opened Matching
  import opened Strings
  import opened Types
  import opened Sorting
  import opened Upstreams
  import opened Servers
  import opened Placement
  import opened Ownership
  import opened Canary
  import opened CanaryOutcome
  import opened CustomBackends
  import opened Compile
  import opened HostLocations
  import opened CanarySafety
  import Store

  // ---------------------------------------------------------------- building Ingresses

  const PlainAnnotations := Annotations(false, [], false, false, "", false, Nil, None, false, "", "", "")

  const CanaryAnnotations := PlainAnnotations.(canary := true)

  function To(service: string): BackendRef { BackendRef(service, Number(80)) }

  function PathTo(path: string, t: PathType, service: string): HTTPPath { HTTPPath(path, t, To(service)) }

  /** An Ingress in namespace n with one rule. */
  function WithRule(name: string, anns: Annotations, backend: Option<BackendRef>, host: string,
                    http: Option<seq<HTTPPath>>): Annotated {
    Annotated(Ingress("n", name, map[], None, backend, [Rule(host, http)], [], ""), anns)
  }

  /** The store holds one Ingress for each namespace and name. */
  ghost predicate DistinctlyNamed(data: seq<Annotated>) {
    forall i, j :: 0 <= i < j < |data| ==> Store.KeyOf(data[i].ing) != Store.KeyOf(data[j].ing)
  }

  /** The upstream of a service. */
  function Up(service: string): string { UpstreamName("n", To(service)) }

  lemma UpsDiffer(s: char, t: char)
    requires s != t
    ensures Up([s]) != Up([t]) && Up([s]) != DefUpstreamName
  {
    assert Up([s])[2] == s && Up([t])[2] == t && Up([s])[0] == 'n';
  }

  /** The paths of an Ingress with one rule, and of a list of Ingresses. */
  lemma EntriesOfOneRule(a: Annotated, host: string, paths: seq<HTTPPath>)
    requires a.ing.rules == [Rule(host, Some(paths))]
    ensures |EntriesOf(a)| == |paths| && forall k :: 0 <= k < |paths| ==> EntriesOf(a)[k] == Entry(a, host, paths[k])
  {
    assert [Rule(host, Some(paths))][..0] == [];
    assert EntriesOfRules(a, []) + EntriesOfRule(a, Rule(host, Some(paths))) ==
           EntriesOfRule(a, Rule(host, Some(paths)));
  }

  lemma EntriesOfOne(a: Annotated)
    ensures Entries([a]) == EntriesOf(a)
  {
    assert [a][..0] == [];
    assert Entries([]) + EntriesOf(a) == EntriesOf(a);
  }

  lemma {:induction false} EntriesAppend(data: seq<Annotated>, a: Annotated)
    ensures Entries(data + [a]) == Entries(data) + EntriesOf(a)
  {
    assert (data + [a])[..|data|] == data;
  }

  /** A host with a rule by the first Ingress has a server. */
  lemma {:induction false} HostIsPlaced(env: Env, data: seq<Annotated>, du: Backend, h: string, i: nat)
    requires h != DefServerName && i < |data| && Mentions(data[i], h)
    requires forall k :: 0 <= k < i ==> !Mentions(data[k], h)
    ensures h in PlacedServers(env, data, du)
    ensures RootOf(env, data, du, h) ==
            NewServer(data[i], h, DefaultFor(data[i], Created(env, data, du), du)).locations[0]
  {
    var ups := Created(env, data, du);
    CreatedServersAreClean(env, data, ups, du);
    FirstIngressMakesServer(env, data, ups, du, h, i);
  }

  /** When all paths count and are for the host, the claims on it are all of them. */
  lemma {:induction false} AllPathsClaim(hosts: set<string>, ups: Table, entries: seq<Entry>, h: string)
    requires forall k :: 0 <= k < |entries| ==> Counts(ups, entries[k]) && ServerKey(hosts, entries[k].host) == h
    ensures
      var claims := ClaimsOn(hosts, ups, entries, h);
      && |claims| == |entries|
      && forall k :: 0 <= k < |entries| ==>
           NameOf(entries[k]) in ups && claims[k] == Claim(entries[k], ups[NameOf(entries[k])])
  {
    if entries == [] {
    } else {
      AllPathsClaim(hosts, ups, entries[..|entries| - 1], h);
    }
  }

  lemma OneIngressHost(env: Env, a: Annotated, du: Backend, h: string)
    requires h != DefServerName && Mentions(a, h)
    ensures h in PlacedServers(env, [a], du) && IsFreshRoot(RootOf(env, [a], du, h))
    ensures PlacedServers(env, [a], du)[h].locations == Locations(RootOf(env, [a], du, h), ClaimsFor(env, [a], du, h))
  {
    HostIsPlaced(env, [a], du, h, 0);
    RootIsFresh(env, [a], du, h);
    PlacedAre(env, [a], du, h);
  }

  lemma {:induction false} OneIngressCounts(env: Env, a: Annotated, du: Backend, e: Entry)
    requires du.name == DefUpstreamName && du.alternativeBackends == Nil
    requires !a.anns.canary && e in EntriesOf(a) && NameOf(e) != DefUpstreamName
    ensures Counts(Created(env, [a], du), e)
  {
    CreatedHoldsUsed(env, [a], du);
    assert Uses([a][0], NameOf(e));
    MakerUses(env, [a], du, NameOf(e));
  }

  /** The claims are those of the paths, with the upstreams of the table. */
  ghost predicate Claiming(claims: seq<Claim>, ups: Table, a: Annotated, h: string, paths: seq<HTTPPath>) {
    && |claims| == |paths|
    && forall k :: 0 <= k < |paths| ==>
         && claims[k].e == Entry(a, h, paths[k])
         && NameOf(claims[k].e) in ups && claims[k].upstream == ups[NameOf(claims[k].e)]
  }

  lemma {:induction false} ClaimsOfOneRule(hosts: set<string>, ups: Table, a: Annotated, h: string,
                                           paths: seq<HTTPPath>)
    requires h != "" && h in hosts && a.ing.rules == [Rule(h, Some(paths))]
    requires forall e :: e in EntriesOf(a) ==> Counts(ups, e)
    ensures Claiming(ClaimsOn(hosts, ups, Entries([a]), h), ups, a, h, paths)
  {
    EntriesOfOneRule(a, h, paths);
    EntriesOfOne(a);
    ClaimsOfEntries(hosts, ups, a, h, paths, EntriesOf(a));
  }

  lemma {:induction false} ClaimsOfEntries(hosts: set<string>, ups: Table, a: Annotated, h: string,
                                           paths: seq<HTTPPath>, entries: seq<Entry>)
    requires h != "" && h in hosts && |entries| == |paths|
    requires forall k :: 0 <= k < |paths| ==> entries[k] == Entry(a, h, paths[k])
    requires forall e :: e in entries ==> Counts(ups, e)
    ensures Claiming(ClaimsOn(hosts, ups, entries, h), ups, a, h, paths)
  {
    forall k | 0 <= k < |entries| ensures Counts(ups, entries[k]) && ServerKey(hosts, entries[k].host) == h {
      assert entries[k] in entries;
    }
    AllPathsClaim(hosts, ups, entries, h);
  }

  /** The claims on a host to which one Ingress sends all its paths. */
  lemma {:induction false} OneIngress(env: Env, a: Annotated, du: Backend, h: string, paths: seq<HTTPPath>)
    requires du.name == DefUpstreamName && du.alternativeBackends == Nil
    requires h != "" && h in PlacedServers(env, [a], du) && !a.anns.canary
    requires a.ing.rules == [Rule(h, Some(paths))]
    requires forall k :: 0 <= k < |paths| ==> UpstreamName(a.ing.namespace, paths[k].backend) != DefUpstreamName
    ensures Claiming(ClaimsFor(env, [a], du, h), Created(env, [a], du), a, h, paths)
  {
    EntriesOfOneRule(a, h, paths);
    var ups := Created(env, [a], du);
    forall e | e in EntriesOf(a) ensures Counts(ups, e) {
      OneIngressCounts(env, a, du, e);
    }
    ClaimsOfOneRule(PlacedServers(env, [a], du).Keys, ups, a, h, paths);
  }

  // ---------------------------------------------------------------- a duplicated location

  const ThreePaths := [PathTo("/a", Exact, "s"), PathTo("/a", Prefix, "s"), PathTo("/a", Prefix, "t")]

  const DuplicatedPaths := WithRule("i", PlainAnnotations, None, "h", Some(ThreePaths))

  lemma {:induction false} FirstTypeIsFirst(claims: seq<Claim>)
    requires claims != [] && PathOf(claims[0]) != RootLocation
    ensures FirstType(claims, PathOf(claims[0])) == Some(TypeOf(claims[0]))
  {
    if |claims| > 1 {
      FirstTypeIsFirst(claims[..|claims| - 1]);
    } else {
      assert claims[..0] == [];
    }
  }

  /** One Ingress declares a path as Exact and twice as Prefix: its server has the Prefix location twice
      (DistinctExactlyWhenCompatible in module Ownership). */
  lemma DuplicatedLocation(env: Env, du: Backend)
    requires du.name == DefUpstreamName && du.alternativeBackends == Nil
    ensures
      var servers := PlacedServers(env, [DuplicatedPaths], du);
      "h" in servers && !DistinctLocations(servers["h"].locations)
  {
    DuplicatedIsSent();
    OneIngressHost(env, DuplicatedPaths, du, "h");
    OneIngress(env, DuplicatedPaths, du, "h", ThreePaths);
    ThreeClaims(RootOf(env, [DuplicatedPaths], du, "h"), ClaimsFor(env, [DuplicatedPaths], du, "h"));
  }

  lemma DuplicatedIsSent()
    ensures Mentions(DuplicatedPaths, "h") && "h" != DefServerName
    ensures forall k :: 0 <= k < |ThreePaths| ==> UpstreamName("n", ThreePaths[k].backend) != DefUpstreamName
  {
    UpsDiffer('s', 't');
    UpsDiffer('t', 's');
    assert HostOf(DuplicatedPaths.ing.rules[0]) == "h" && "h"[0] != "_"[0];
  }

  lemma ThreeClaims(root: Location, claims: seq<Claim>)
    requires IsFreshRoot(root) && |claims| == 3
    requires forall k :: 0 <= k < 3 ==> claims[k].e == Entry(DuplicatedPaths, "h", ThreePaths[k])
    ensures !DistinctLocations(Locations(root, claims))
  {
    assert PathOf(claims[0]) == PathOf(claims[1]) == PathOf(claims[2]) == "/a" && |"/a"| != |"/"|;
    FirstTypeIsFirst(claims);
    assert TypeOf(claims[1]) == TypeOf(claims[2]);
    DistinctExactlyWhenCompatible(root, claims);
  }

  // ---------------------------------------------------------------- custom upstreams that share a name

  const ErrorService := Service("n", "d", 1, "", "")

  const CustomAnnotations := PlainAnnotations.(customHTTPErrors := Of([404]), defaultBackend := Some(ErrorService))

  const TwoPaths := [PathTo("/a", Prefix, "s"), PathTo("/b", Prefix, "s")]

  const CustomErrors := WithRule("i", CustomAnnotations, None, "h", Some(TwoPaths))

  /** The locations of a host with two paths. */
  lemma TwoClaims(root: Location, claims: seq<Claim>)
    requires IsFreshRoot(root) && |claims| == 2
    requires PathOf(claims[0]) != RootLocation && PathOf(claims[1]) != RootLocation
    requires PathOf(claims[0]) != PathOf(claims[1]) || TypeOf(claims[0]) != TypeOf(claims[1])
    ensures Locations(root, claims) ==
            [root, NewLocation(claims[0].e, claims[0].upstream), NewLocation(claims[1].e, claims[1].upstream)]
  {
    var first := claims[..1];
    assert first == [claims[0]] && first[..0] == [];
    assert FirstType([], PathOf(claims[0])) == None;
    assert Added(first) == [NewLocation(claims[0].e, claims[0].upstream)];
    assert FirstType(first, PathOf(claims[1])) != Some(TypeOf(claims[1]));
    assert Added(claims) == Added(first) + [NewLocation(claims[1].e, claims[1].upstream)];
    assert FirstClaim([], RootLocation, Prefix).None? && FirstClaim(first, RootLocation, Prefix).None?;
    assert RootAfter(root, claims) == root;
  }

  lemma {:induction false} NothingToMerge(env: Env, a: Annotated, du: Backend)
    requires !a.anns.canary
    ensures MergedTable(env, [a], du) == Merged(Created(env, [a], du))
  {
    assert [a][..0] == [];
    assert Canaries([a]) == [];
  }

  lemma CustomIsSent()
    ensures Mentions(CustomErrors, "h") && "h" != DefServerName
    ensures forall k :: 0 <= k < |TwoPaths| ==> UpstreamName("n", TwoPaths[k].backend) == Up("s") != DefUpstreamName
  {
    UpsDiffer('s', 't');
    assert HostOf(CustomErrors.ing.rules[0]) == "h" && "h"[0] != "_"[0];
  }

  lemma CustomLocationsPlaced(env: Env, du: Backend) returns (c: Claim, d: Claim)
    requires du.name == DefUpstreamName && du.alternativeBackends == Nil
    ensures c.e.a == CustomErrors && d.e.a == CustomErrors
    ensures NameOf(c.e) == NameOf(d.e) == Up("s")
    ensures
      var ups, servers := Created(env, [CustomErrors], du), PlacedServers(env, [CustomErrors], du);
      && Up("s") in ups && c.upstream == ups[Up("s")] && d.upstream == ups[Up("s")]
      && "h" in servers && |servers["h"].locations| == 3
      && servers["h"].locations[1] == NewLocation(c.e, c.upstream)
      && servers["h"].locations[2] == NewLocation(d.e, d.upstream)
  {
    CustomIsSent();
    OneIngressHost(env, CustomErrors, du, "h");
    OneIngress(env, CustomErrors, du, "h", TwoPaths);
    var claims := ClaimsFor(env, [CustomErrors], du, "h");
    assert PathOf(claims[0]) == "/a" && PathOf(claims[1]) == "/b";
    assert "/a"[1] != "/b"[1] && |"/a"| != |"/"| && |"/b"| != |"/"|;
    TwoClaims(RootOf(env, [CustomErrors], du, "h"), claims);
    c, d := claims[0], claims[1];
  }

  /** One Ingress with a custom default backend for its errors and two paths: two upstreams share a name
      (ReturnedNamesUniqueIff in module Compile). */
  lemma {:induction false} SharedCustomName(env: Env, du: Backend, c: Compiled, list: seq<Backend>,
                                            origins: seq<Origin>)
    requires du.name == DefUpstreamName && du.alternativeBackends == Nil && |env.endpointsOf(ErrorService)| > 0
    requires IsCompiled(env, Created(env, [CustomErrors], du), PlacedServers(env, [CustomErrors], du), c, list, origins)
    ensures MergedTable(env, [CustomErrors], du) == Merged(Created(env, [CustomErrors], du))
    ensures !NamesDistinct(c.upstreams)
  {
    var ups, servers := Created(env, [CustomErrors], du), PlacedServers(env, [CustomErrors], du);
    NothingToMerge(env, CustomErrors, du);
    CreatedHoldsUsed(env, [CustomErrors], du);
    var x, y := CustomLocationsPlaced(env, du);
    CustomIsSent();
    CustomDeserved(env, ups, x);
    CustomDeserved(env, ups, y);
    SpotsShare(env, ups, servers, Spot("h", 1), Spot("h", 2));
    ReturnedNamesUniqueIff(env, ups, servers, c, list, origins);
  }

  lemma SpotsShare(env: Env, ups: Table, servers: Hosts, s: Spot, t: Spot)
    requires s != t && IsSpot(servers, s) && IsSpot(servers, t)
    requires Deserves(env, ups, At(servers, s)) && Deserves(env, ups, At(servers, t))
    requires At(servers, s).defaultBackend == At(servers, t).defaultBackend
    ensures !Unshared(env, ups, servers)
  {
  }

  lemma CustomDeserved(env: Env, ups: Table, c: Claim)
    requires c.e.a == CustomErrors && |env.endpointsOf(ErrorService)| > 0
    requires c.upstream.name in ups && ups[c.upstream.name] == c.upstream && c.upstream.name != DefUpstreamName
    ensures
      var l := NewLocation(c.e, c.upstream);
      Deserves(env, ups, l) && l.defaultBackend == Some(ErrorService)
  {
  }
}
