/** Ingresses at which merging canaries goes wrong (internal/ingress/controller/controller.go, getBackendServers and
    mergeAlternativeBackends).  The exact conditions are MergingIsSafeIff in module Compile and
    MergedAlternativesExistIff in module CanarySafety.
 */
module CanaryWitnesses {
  import opened Matching
  import opened Strings
  import opened Types
  import opened Sorting
  import opened Upstreams
  import opened Servers
  import opened Placement
  import opened Ownership
  import opened Canary
  import opened CanaryOutcome
  import opened Compile
  import opened HostLocations
  import opened CanarySafety
  import opened Witnesses
  import Store

  lemma OnePath(a: Annotated, host: string, path: HTTPPath)
    requires a.ing.rules == [Rule(host, Some([path]))]
    ensures EntriesOf(a) == [Entry(a, host, path)]
  {
    EntriesOfOneRule(a, host, [path]);
  }

  /** An upstream that only canaries or only other Ingresses use has a server accordingly. */
  lemma {:induction false} AllUsersAgree(env: Env, data: seq<Annotated>, du: Backend, name: string, i: nat)
    requires du.name == DefUpstreamName && du.alternativeBackends == Nil && name != DefUpstreamName
    requires i < |data| && Uses(data[i], name)
    requires forall k :: 0 <= k < |data| && Uses(data[k], name) ==> data[k].anns.canary == data[i].anns.canary
    ensures name in Created(env, data, du) && Created(env, data, du)[name].noServer == data[i].anns.canary
  {
    CreatedHoldsUsed(env, data, du);
    assert UsedBy(data, name);
    MakerUses(env, data, du, name);
  }

  // ---------------------------------------------------------------- a shared catch-all backend

  const Owner := WithRule("owner", PlainAnnotations, Some(To("p")), "a", None)

  const Other := WithRule("other", PlainAnnotations, None, "b", Some([PathTo("/", Prefix, "q")]))

  const Sharing := WithRule("sharing", CanaryAnnotations, Some(To("p")), "b", Some([PathTo("/x", Prefix, "p")]))

  const Later := WithRule("later", CanaryAnnotations, None, "a", Some([PathTo("/", Prefix, "c")]))

  const Shared := [Owner, Other, Sharing]

  const SharedLater := Shared + [Later]

  lemma SharedNames()
    ensures Up("p") != Up("q") && Up("p") != Up("c") && Up("q") != Up("c")
    ensures Up("p") != DefUpstreamName && Up("q") != DefUpstreamName && Up("c") != DefUpstreamName
  {
    UpsDiffer('p', 'q');
    UpsDiffer('q', 'c');
    UpsDiffer('c', 'p');
  }

  lemma SharedEntries()
    ensures EntriesOf(Owner) == []
    ensures EntriesOf(Other) == [Entry(Other, "b", PathTo("/", Prefix, "q"))]
    ensures EntriesOf(Sharing) == [Entry(Sharing, "b", PathTo("/x", Prefix, "p"))]
    ensures EntriesOf(Later) == [Entry(Later, "a", PathTo("/", Prefix, "c"))]
  {
    assert Owner.ing.rules[..0] == [];
    OnePath(Other, "b", PathTo("/", Prefix, "q"));
    OnePath(Sharing, "b", PathTo("/x", Prefix, "p"));
    OnePath(Later, "a", PathTo("/", Prefix, "c"));
  }

  lemma SharedUsers()
    ensures !Uses(Owner, Up("q")) && Uses(Other, Up("q")) && !Uses(Sharing, Up("q")) && !Uses(Later, Up("q"))
    ensures !Uses(Owner, Up("c")) && !Uses(Other, Up("c")) && !Uses(Sharing, Up("c")) && Uses(Later, Up("c"))
  {
    SharedNames();
    SharedEntries();
    assert NameOf(EntriesOf(Other)[0]) == Up("q") && NameOf(EntriesOf(Later)[0]) == Up("c");
  }

  /** The upstream of a service, and whether it is a canary's. */
  ghost predicate Has(ups: Table, service: string, canary: bool) {
    Up(service) in ups && ups[Up(service)].name == Up(service) && ups[Up(service)].noServer == canary
  }

  /** The later canary's catch-all backend replaces the owner's. */
  lemma {:induction false} SharedCatchAll(env: Env, data: seq<Annotated>, du: Backend)
    requires data == Shared || data == SharedLater
    ensures Has(Created(env, data, du), "p", true)
  {
    LastCatchAllWins(env, data, du, Up("p"), 2);
  }

  /** The only user of a name among three or four Ingresses. */
  lemma OnlySecondUses(a: Annotated, b: Annotated, c: Annotated, d: Annotated, data: seq<Annotated>, name: string)
    requires !Uses(a, name) && Uses(b, name) && !Uses(c, name) && !Uses(d, name)
    requires data == [a, b, c] || data == [a, b, c] + [d]
    ensures Uses(data[1], name) && forall k :: 0 <= k < |data| && Uses(data[k], name) ==> k == 1
  {
  }

  lemma OnlyFourthUses(a: Annotated, b: Annotated, c: Annotated, d: Annotated, data: seq<Annotated>, name: string)
    requires !Uses(a, name) && !Uses(b, name) && !Uses(c, name) && Uses(d, name) && data == [a, b, c] + [d]
    ensures |data| == 4 && Uses(data[3], name) && forall k :: 0 <= k < |data| && Uses(data[k], name) ==> k == 3
  {
  }

  lemma {:induction false} SharedPath(env: Env, data: seq<Annotated>, du: Backend)
    requires du.name == DefUpstreamName && du.alternativeBackends == Nil && (data == Shared || data == SharedLater)
    ensures Has(Created(env, data, du), "q", false)
  {
    SharedNames();
    SharedUsers();
    OnlySecondUses(Owner, Other, Sharing, Later, data, Up("q"));
    AllUsersAgree(env, data, du, Up("q"), 1);
    CreatedHoldsUsed(env, data, du);
  }

  lemma {:induction false} LaterUpstream(env: Env, du: Backend)
    requires du.name == DefUpstreamName && du.alternativeBackends == Nil
    ensures Has(Created(env, SharedLater, du), "c", true)
  {
    SharedNames();
    SharedUsers();
    OnlyFourthUses(Owner, Other, Sharing, Later, SharedLater, Up("c"));
    AllUsersAgree(env, SharedLater, du, Up("c"), 3);
    CreatedHoldsUsed(env, SharedLater, du);
  }

  lemma EntriesOfThree(a: Annotated, b: Annotated, c: Annotated)
    ensures Entries([a, b, c]) == EntriesOf(a) + EntriesOf(b) + EntriesOf(c)
  {
    EntriesOfOne(a);
    EntriesAppend([a], b);
    EntriesAppend([a, b], c);
    assert [a] + [b] == [a, b] && [a, b] + [c] == [a, b, c];
  }

  /** Of two or three paths only the first counts. */
  lemma {:induction false} FirstCounts(hosts: set<string>, ups: Table, e: Entry, f: Entry, g: Entry, h: string)
    requires Counts(ups, e) && !Counts(ups, f)
    ensures
      var claims := if ServerKey(hosts, e.host) == h then [Claim(e, ups[NameOf(e)])] else [];
      && ClaimsOn(hosts, ups, [e, f], h) == claims
      && (!Counts(ups, g) ==> ClaimsOn(hosts, ups, [e, f, g], h) == claims)
  {
    assert [e, f, g][..2] == [e, f] && [e, f][..1] == [e] && [e][..0] == [];
    assert ClaimsOn(hosts, ups, [e], h) == if ServerKey(hosts, e.host) == h then [Claim(e, ups[NameOf(e)])] else [];
    assert ClaimsOn(hosts, ups, [e, f], h) == ClaimsOn(hosts, ups, [e], h);
  }

  lemma NoClaims(root: Location)
    ensures Locations(root, []) == [root]
  {
  }

  lemma RootClaim(root: Location, c: Claim)
    requires PathOf(c) == RootLocation && TypeOf(c) == Prefix
    ensures Locations(root, [c]) == [Replaced(root, c.e, c.upstream)]
  {
    assert [c][..0] == [];
    assert FirstType([], RootLocation) == Some(Prefix) && FirstClaim([], RootLocation, Prefix) == None;
    assert FirstClaim([c], RootLocation, Prefix) == Some(c);
    assert Added([c]) == [];
  }

  lemma SharedListed()
    ensures
      var e, f := Entry(Other, "b", PathTo("/", Prefix, "q")), Entry(Sharing, "b", PathTo("/x", Prefix, "p"));
      && Entries(Shared) == [e, f]
      && Entries(SharedLater) == [e, f, Entry(Later, "a", PathTo("/", Prefix, "c"))]
  {
    SharedEntries();
    EntriesOfThree(Owner, Other, Sharing);
    EntriesAppend(Shared, Later);
  }

  /** On either host only the path to q can be placed. */
  lemma {:induction false} SharedClaims(hosts: set<string>, ups: Table, data: seq<Annotated>)
    requires "a" in hosts && "b" in hosts && (data == Shared || data == SharedLater)
    requires Has(ups, "p", true) && Has(ups, "q", false) && (data == SharedLater ==> Has(ups, "c", true))
    ensures ClaimsOn(hosts, ups, Entries(data), "a") == []
    ensures ClaimsOn(hosts, ups, Entries(data), "b") ==
            [Claim(Entry(Other, "b", PathTo("/", Prefix, "q")), ups[Up("q")])]
  {
    SharedListed();
    assert "a"[0] != "b"[0];
    var e, f := Entry(Other, "b", PathTo("/", Prefix, "q")), Entry(Sharing, "b", PathTo("/x", Prefix, "p"));
    var g := Entry(Later, "a", PathTo("/", Prefix, "c"));
    FirstCounts(hosts, ups, e, f, g, "a");
    FirstCounts(hosts, ups, e, f, g, "b");
  }

  /** The only location of the server, at "/", leads to the service. */
  predicate LeadsOnlyTo(servers: Hosts, host: string, service: string) {
    && host in servers && |servers[host].locations| == 1
    && servers[host].locations[0].path == RootLocation && servers[host].locations[0].backend == Up(service)
  }

  lemma {:induction false} SharedPlaced(env: Env, data: seq<Annotated>, du: Backend)
    requires data == Shared || data == SharedLater
    ensures "a" in PlacedServers(env, data, du) && "b" in PlacedServers(env, data, du)
    ensures RootOf(env, data, du, "a").backend == DefaultFor(Owner, Created(env, data, du), du)
  {
    SharedRules();
    FirstPlaced(env, data, du, "a");
    SecondPlaced(env, data, du, "b");
  }

  lemma SharedRules()
    ensures "a" != DefServerName && "b" != DefServerName
    ensures Mentions(Owner, "a") && !Mentions(Owner, "b") && Mentions(Other, "b")
  {
    assert "a"[0] != "b"[0] && "_"[0] != "a"[0] && "_"[0] != "b"[0];
    assert HostOf(Owner.ing.rules[0]) == "a" && HostOf(Other.ing.rules[0]) == "b";
  }

  lemma {:induction false} FirstPlaced(env: Env, data: seq<Annotated>, du: Backend, h: string)
    requires h != DefServerName && |data| > 0 && Mentions(data[0], h)
    ensures h in PlacedServers(env, data, du)
    ensures RootOf(env, data, du, h).backend == DefaultFor(data[0], Created(env, data, du), du)
  {
    HostIsPlaced(env, data, du, h, 0);
  }

  lemma SecondPlaced(env: Env, data: seq<Annotated>, du: Backend, h: string)
    requires h != DefServerName && |data| > 1 && !Mentions(data[0], h) && Mentions(data[1], h)
    ensures h in PlacedServers(env, data, du)
  {
    HostIsPlaced(env, data, du, h, 1);
  }

  lemma SharedHosts(env: Env, data: seq<Annotated>, du: Backend)
    requires du.name == DefUpstreamName && du.alternativeBackends == Nil && (data == Shared || data == SharedLater)
    ensures LeadsOnlyTo(PlacedServers(env, data, du), "a", "p") && LeadsOnlyTo(PlacedServers(env, data, du), "b", "q")
  {
    SharedCatchAll(env, data, du);
    SharedPath(env, data, du);
    if data == SharedLater {
      LaterUpstream(env, du);
    }
    SharedPlaced(env, data, du);
    SharedClaims(PlacedServers(env, data, du).Keys, Created(env, data, du), data);
    HostsServe(env, data, du, Claim(Entry(Other, "b", PathTo("/", Prefix, "q")), Created(env, data, du)[Up("q")]));
  }

  lemma HostsServe(env: Env, data: seq<Annotated>, du: Backend, c: Claim)
    requires "a" in PlacedServers(env, data, du) && ClaimsFor(env, data, du, "a") == []
    requires RootOf(env, data, du, "a").backend == Up("p")
    requires "b" in PlacedServers(env, data, du) && ClaimsFor(env, data, du, "b") == [c]
    requires PathOf(c) == RootLocation && TypeOf(c) == Prefix && c.upstream.name == Up("q")
    ensures LeadsOnlyTo(PlacedServers(env, data, du), "a", "p") && LeadsOnlyTo(PlacedServers(env, data, du), "b", "q")
  {
    assert "_"[0] != "a"[0] && "_"[0] != "b"[0];
    RootIsFresh(env, data, du, "a");
    PlacedAre(env, data, du, "a");
    NoClaims(RootOf(env, data, du, "a"));
    RootIsFresh(env, data, du, "b");
    PlacedAre(env, data, du, "b");
    RootClaim(RootOf(env, data, du, "b"), c);
  }

  /** The upstream of two uses, of which the second deletes it. */
  lemma {:induction false} Lost(ups: Table, u: Use, v: Use)
    requires AlternativesSound(ups) && u.name == v.name && Deletes(ups, v)
    requires u.locations.Some? && forall l :: l in u.locations.value ==> l.backend in ups
    requires forall l :: l in v.locations.value ==> l.backend in ups
    ensures
      var m := MergeUses(ups, [u, v]);
      m.Merged? && m.ups.Keys == ups.Keys - {v.name}
  {
    assert [u, v][..1] == [u] && [u][..0] == [];
    UseDeletes(ups, u);
    MergeUseMerges(ups, u);
    var after := MergeUse(ups, u).ups;
    assert MergeUses(ups, [u]) == Merged(after);
    DeletionStays(ups, after, [u], v);
    UseDeletes(after, v);
  }

  /** A third use then panics at a location that leads to the lost upstream. */
  lemma {:induction false} LostThenPanic(ups: Table, u: Use, v: Use, w: Use)
    requires AlternativesSound(ups) && u.name == v.name != w.name && w.name in ups && Deletes(ups, v)
    requires u.locations.Some? && forall l :: l in u.locations.value ==> l.backend in ups
    requires forall l :: l in v.locations.value ==> l.backend in ups
    requires w.locations.Some? && |w.locations.value| == 1 && w.locations.value[0].backend == v.name
    ensures MergeUses(ups, [u, v, w]).Panic?
  {
    Lost(ups, u, v);
    assert [u, v, w][..2] == [u, v] && w.locations.value[..0] == [];
    var rest := MergeUses(ups, [u, v]).ups;
    assert MergeLoop(rest, w.name, w.locations.value, w.site) == LoopPanic;
  }

  /** The use on host b finds nothing there. */
  lemma SharedDeletes(ups: Table, servers: Hosts)
    requires LeadsOnlyTo(servers, "b", "q")
    ensures Deletes(ups, UseOf(Entry(Sharing, "b", PathTo("/x", Prefix, "p")), servers))
  {
    SharedNames();
    assert |"/x"| != |"/"|;
  }

  lemma {:induction false} SharedUses(servers: Hosts)
    requires DefServerName in servers
    ensures
      var u := Use(Up("p"), Some(servers[DefServerName].locations), CatchAllSite);
      var v := UseOf(Entry(Sharing, "b", PathTo("/x", Prefix, "p")), servers);
      var w := UseOf(Entry(Later, "a", PathTo("/", Prefix, "c")), servers);
      AllUses([Sharing], servers) == [u, v] && AllUses([Sharing, Later], servers) == [u, v, w]
  {
    SharedEntries();
    AllUsesAppend([], Sharing, servers);
    AllUsesAppend([Sharing], Later, servers);
    assert [] + [Sharing] == [Sharing] && [Sharing] + [Later] == [Sharing, Later];
    assert UsesOf(Sharing, servers)[1] == UseOf(EntriesOf(Sharing)[0], servers);
    assert UsesOf(Later, servers)[0] == UseOf(EntriesOf(Later)[0], servers);
  }

  lemma SharedCanaries()
    ensures Canaries(Shared) == [Sharing] && Canaries(SharedLater) == [Sharing, Later]
    ensures AllComplete([Sharing]) && AllComplete([Sharing, Later])
  {
    CanariesAppend([], Owner);
    CanariesAppend([Owner], Other);
    CanariesAppend([Owner, Other], Sharing);
    CanariesAppend(Shared, Later);
    assert [] + [Owner] == [Owner] && [Owner] + [Other] == [Owner, Other] && [Owner, Other] + [Sharing] == Shared;
    CompleteOne([], Sharing);
    CompleteOne([Sharing], Later);
    assert [] + [Sharing] == [Sharing] && [Sharing] + [Later] == [Sharing, Later];
  }

  lemma {:induction false} CanariesAppend(data: seq<Annotated>, a: Annotated)
    ensures Canaries(data + [a]) == Canaries(data) + if a.anns.canary then [a] else []
  {
    assert (data + [a])[..|data|] == data;
  }

  lemma {:induction false} CompleteOne(canaries: seq<Annotated>, a: Annotated)
    ensures AllComplete(canaries + [a]) <==> AllComplete(canaries) && RulesComplete(a.ing.rules)
  {
    assert (canaries + [a])[..|canaries|] == canaries;
  }

  lemma {:induction false} AllUsesAppend(canaries: seq<Annotated>, a: Annotated, servers: Hosts)
    requires DefServerName in servers
    ensures AllUses(canaries + [a], servers) == AllUses(canaries, servers) + UsesOf(a, servers)
  {
    assert (canaries + [a])[..|canaries|] == canaries;
  }

  lemma SharedAreNamed()
    ensures DistinctlyNamed(Shared) && DistinctlyNamed(SharedLater)
  {
    var keys := seq(4, i requires 0 <= i < 4 => Store.KeyOf(SharedLater[i].ing));
    assert keys[0][2] == 'o' && keys[1][2] == 'o' && keys[2][2] == 's' && keys[3][2] == 'l';
    assert keys[0][3] == 'w' && keys[1][3] == 't';
    assert forall i :: 0 <= i < 4 ==> keys[i] == Store.KeyOf(SharedLater[i].ing);
    assert forall i :: 0 <= i < 3 ==> Shared[i] == SharedLater[i];
  }

  /** A canary names another Ingress's catch-all backend as its own, and sends a path to it on a host that the
      backend does not serve: the upstream is deleted although it serves host a. */
  lemma SharedCatchAllLost(env: Env, du: Backend)
    requires du.name == DefUpstreamName && du.alternativeBackends == Nil
    ensures
      var m := MergedTable(env, Shared, du);
      m.Merged? && Up("p") !in m.ups && LeadsOnlyTo(PlacedServers(env, Shared, du), "a", "p")
    ensures DistinctlyNamed(Shared)
  {
    var ups, servers := Created(env, Shared, du), PlacedServers(env, Shared, du);
    SharedAreNamed();
    SharedHosts(env, Shared, du);
    SharedDeletes(ups, servers);
    SharedUses(servers);
    SharedCanaries();
    PlacedLocationsLeadToUpstreams(env, Shared, du);
    CreatedAlternativesSound(env, Shared, du);
    MergeAllIsMergeUses(ups, servers, [Sharing]);
    UsesAreWithin(servers, [Sharing]);
    var uses := AllUses([Sharing], servers);
    Lost(ups, uses[0], uses[1]);
  }

  /** A later canary on host a finds the location without its upstream, and the controller panics. */
  lemma SharedCatchAllPanics(env: Env, du: Backend)
    requires du.name == DefUpstreamName && du.alternativeBackends == Nil
    ensures MergedTable(env, SharedLater, du).Panic? && DistinctlyNamed(SharedLater)
  {
    var ups, servers := Created(env, SharedLater, du), PlacedServers(env, SharedLater, du);
    SharedNames();
    SharedAreNamed();
    LaterUpstream(env, du);
    SharedHosts(env, SharedLater, du);
    SharedDeletes(ups, servers);
    SharedUses(servers);
    SharedCanaries();
    PlacedLocationsLeadToUpstreams(env, SharedLater, du);
    CreatedAlternativesSound(env, SharedLater, du);
    MergeAllIsMergeUses(ups, servers, [Sharing, Later]);
    UsesAreWithin(servers, [Sharing, Later]);
    var uses := AllUses([Sharing, Later], servers);
    LostThenPanic(ups, uses[0], uses[1], uses[2]);
  }

  // ---------------------------------------------------------------- an alternative that is gone

  const Served := WithRule("served", PlainAnnotations, None, "h", Some([PathTo("/a", Prefix, "p")]))

  const HalfServed :=
    WithRule("canary", CanaryAnnotations, None, "h", Some([PathTo("/a", Prefix, "c"), PathTo("/b", Prefix, "c")]))

  const Dangling := [Served, HalfServed]

  lemma DanglingEntries()
    ensures EntriesOf(Served) == [Entry(Served, "h", PathTo("/a", Prefix, "p"))]
    ensures EntriesOf(HalfServed) ==
            [Entry(HalfServed, "h", PathTo("/a", Prefix, "c")), Entry(HalfServed, "h", PathTo("/b", Prefix, "c"))]
  {
    OnePath(Served, "h", PathTo("/a", Prefix, "p"));
    EntriesOfOneRule(HalfServed, "h", [PathTo("/a", Prefix, "c"), PathTo("/b", Prefix, "c")]);
  }

  lemma DanglingSeparate()
    ensures forall name :: Uses(Served, name) <==> name == Up("p")
    ensures forall name :: Uses(HalfServed, name) <==> name == Up("c")
    ensures NamesSeparate(Dangling)
  {
    SharedNames();
    DanglingEntries();
    assert NameOf(EntriesOf(Served)[0]) == Up("p");
    assert NameOf(EntriesOf(HalfServed)[0]) == Up("c") && NameOf(EntriesOf(HalfServed)[1]) == Up("c");
  }

  lemma {:induction false} DanglingUpstreams(env: Env, du: Backend)
    requires du.name == DefUpstreamName && du.alternativeBackends == Nil
    ensures Has(Created(env, Dangling, du), "p", false) && Has(Created(env, Dangling, du), "c", true)
  {
    SharedNames();
    DanglingSeparate();
    CreatedHoldsUsed(env, Dangling, du);
    AllUsersAgree(env, Dangling, du, Up("p"), 0);
    AllUsersAgree(env, Dangling, du, Up("c"), 1);
  }

  lemma {:induction false} DanglingClaims(hosts: set<string>, ups: Table)
    requires "h" in hosts && Has(ups, "p", false) && Has(ups, "c", true)
    ensures ClaimsOn(hosts, ups, Entries(Dangling), "h") ==
            [Claim(Entry(Served, "h", PathTo("/a", Prefix, "p")), ups[Up("p")])]
  {
    DanglingEntries();
    EntriesOfOne(Served);
    EntriesAppend([Served], HalfServed);
    var f, g := EntriesOf(HalfServed)[0], EntriesOf(HalfServed)[1];
    assert Dangling == [Served] + [HalfServed];
    assert Entries(Dangling) == [EntriesOf(Served)[0], f, g];
    FirstCounts(hosts, ups, EntriesOf(Served)[0], f, g, "h");
  }

  lemma PathClaim(root: Location, c: Claim)
    requires PathOf(c) != RootLocation
    ensures Locations(root, [c]) == [root, NewLocation(c.e, c.upstream)]
  {
    assert [c][..0] == [];
    assert FirstType([], PathOf(c)) == None && FirstClaim([], RootLocation, Prefix) == None;
    assert FirstClaim([c], RootLocation, Prefix) == None;
    assert Added([c]) == [NewLocation(c.e, c.upstream)];
  }

  /** The server has its root and one location, at "/a", which leads to p. */
  predicate HalfServes(servers: Hosts) {
    && "h" in servers && |servers["h"].locations| == 2
    && servers["h"].locations[0].path == RootLocation && servers["h"].locations[0].backend == DefUpstreamName
    && servers["h"].locations[1].path == "/a" && servers["h"].locations[1].pathType == Prefix
    && servers["h"].locations[1].backend == Up("p")
  }

  lemma DanglingHost(env: Env, du: Backend)
    requires du.name == DefUpstreamName && du.alternativeBackends == Nil
    ensures HalfServes(PlacedServers(env, Dangling, du))
  {
    assert HostOf(Served.ing.rules[0]) == "h" && "h"[0] != "_"[0];
    DanglingUpstreams(env, du);
    FirstPlaced(env, Dangling, du, "h");
    var ups, servers := Created(env, Dangling, du), PlacedServers(env, Dangling, du);
    DanglingClaims(servers.Keys, ups);
    RootIsFresh(env, Dangling, du, "h");
    PlacedAre(env, Dangling, du, "h");
    assert |"/a"| != |"/"|;
    PathClaim(RootOf(env, Dangling, du, "h"), Claim(Entry(Served, "h", PathTo("/a", Prefix, "p")), ups[Up("p")]));
  }

  lemma DanglingCanaries()
    ensures Canaries(Dangling) == [HalfServed] && AllComplete([HalfServed])
  {
    CanariesAppend([], Served);
    CanariesAppend([Served], HalfServed);
    CompleteOne([], HalfServed);
    assert [] + [Served] == [Served] && [Served] + [HalfServed] == Dangling && [] + [HalfServed] == [HalfServed];
  }

  lemma {:induction false} DanglingUses(servers: Hosts)
    requires DefServerName in servers
    ensures AllUses([HalfServed], servers) ==
            [UseOf(Entry(HalfServed, "h", PathTo("/a", Prefix, "c")), servers),
             UseOf(Entry(HalfServed, "h", PathTo("/b", Prefix, "c")), servers)]
  {
    DanglingEntries();
    AllUsesAppend([], HalfServed, servers);
    assert [] + [HalfServed] == [HalfServed];
    assert UsesOf(HalfServed, servers) == PathUses(EntriesOf(HalfServed), servers);
  }

  /** The first use attaches c to p, and the second finds nothing. */
  lemma AttachedAndMissed(ups: Table, servers: Hosts, u: Use, v: Use)
    requires HalfServes(servers) && Has(ups, "p", false) && Has(ups, "c", true)
    requires u == UseOf(Entry(HalfServed, "h", PathTo("/a", Prefix, "c")), servers)
    requires v == UseOf(Entry(HalfServed, "h", PathTo("/b", Prefix, "c")), servers)
    ensures ListedIn(ups, [u, v], Up("c"), Up("p")) && DeletedIn(ups, [u, v], Up("c")) &&
            !DeletedIn(ups, [u, v], Up("p"))
  {
    SharedNames();
    assert "/a"[1] != "/b"[1] && |"/b"| != |"/"|;
    assert u.locations.value[1].backend == Up("p") && SiteMatches(u.site, u.locations.value[1]);
    assert HitsKey(ups, u, Up("p"));
    assert [u, v][..0] == [];
    assert ListsAt(ups, [u, v], 0, Up("c"), Up("p"));
    assert Deletes(ups, v);
    assert [u, v][1] == v;
  }

  lemma DanglingAreNamed()
    ensures DistinctlyNamed(Dangling)
  {
    assert Store.KeyOf(Dangling[0].ing)[2] == 's' && Store.KeyOf(Dangling[1].ing)[2] == 'c';
  }

  /** A canary sends two paths to its service, of which only the first is served: its upstream is deleted, and the
      primary upstream keeps it as an alternative. */
  lemma DanglingAlternative(env: Env, du: Backend)
    requires du.name == DefUpstreamName && du.alternativeBackends == Nil
    ensures
      var m := MergedTable(env, Dangling, du);
      && m.Merged? && Up("p") in m.ups && Up("c") in m.ups[Up("p")].alternativeBackends.Items() && Up("c") !in m.ups
    ensures DistinctlyNamed(Dangling)
  {
    var ups, servers := Created(env, Dangling, du), PlacedServers(env, Dangling, du);
    DanglingAreNamed();
    DanglingSeparate();
    DanglingUpstreams(env, du);
    DanglingHost(env, du);
    DanglingCanaries();
    DanglingUses(servers);
    SeparateNamesAreSafe(env, Dangling, du);
    MergeAllIsMergeUses(ups, servers, [HalfServed]);
    var uses := AllUses([HalfServed], servers);
    SeparatedOutcome(ups, uses);
    AttachedAndMissed(ups, servers, uses[0], uses[1]);
  }
}
