/** An edit of an Ingress that syncIngress (internal/ingress/controller/controller.go) overlooks.  A host has the path
    "/foo/" twice, once Exact and once Prefix, and the two types are swapped.  The exact condition is NilMeansServed in
    module DataPlane.
 */
module TypeWitnesses {
  import opened Matching
  import opened Strings
  import opened Types
  import opened Sorting
  import opened Equality
  import opened Upstreams
  import opened Servers
  import opened Placement
  import opened Ownership
  import opened CustomBackends
  import opened Compile
  import opened HostLocations
  import opened Routing
  import opened Selection
  import opened Witnesses
  import opened MapOrder
  import Assembly
  import Certificates
  import Sync
  import DataPlane

  // ---------------------------------------------------------------- the Ingress

  function FooPaths(t: PathType, u: PathType): seq<HTTPPath> { [PathTo("/foo/", t, "s"), PathTo("/foo/", u, "t")] }

  function Foo(t: PathType, u: PathType): Annotated {
    WithRule("i", PlainAnnotations, None, "h", Some(FooPaths(t, u)))
  }

  /** The locations of the host as they are placed. */
  function PlacedFor(env: Env, a: Annotated, du: Backend): seq<Location>
    requires "h" in PlacedServers(env, [a], du)
  {
    PlacedServers(env, [a], du)["h"].locations
  }

  /** One of each type. */
  predicate Swappable(t: PathType, u: PathType) { (t == Exact && u == Prefix) || (t == Prefix && u == Exact) }

  const FooRoot := ApplyAnnotations(Root(DefUpstreamName, Some(Service("", "", 0, "", ""))), PlainAnnotations)

  /** A location for "/foo/" and an upstream, before and after rewriting. */
  function FooPlaced(t: PathType, upstream: Backend): Location {
    ApplyAnnotations(
      Location("/foo/", t, "", false, upstream.name, upstream.service, upstream.port, "", false, Nil, None, "", "", ""),
      PlainAnnotations)
  }

  function FooFinal(t: PathType, upstream: Backend): Location { FooPlaced(t, upstream).(ingressPath := "/foo/") }

  /** The upstream of a service that the Ingress uses. */
  function FooUpstream(env: Env, service: string): Backend {
    NewUpstream(env, Foo(Exact, Prefix), To(service), Number(80))
  }

  // ---------------------------------------------------------------- what is compiled from it

  lemma FooIsPlaced(env: Env, t: PathType, u: PathType, du: Backend)
    requires du.name == DefUpstreamName
    ensures
      var a := Foo(t, u);
      && "h" in PlacedServers(env, [a], du) && RootOf(env, [a], du, "h") == FooRoot
      && PlacedFor(env, a, du) == Locations(FooRoot, ClaimsFor(env, [a], du, "h"))
  {
    var a := Foo(t, u);
    assert HostOf(a.ing.rules[0]) == "h" && "h"[0] != "_"[0];
    HostIsPlaced(env, [a], du, "h", 0);
    OneIngressHost(env, a, du, "h");
  }

  lemma FooEntries(t: PathType, u: PathType)
    ensures
      var a := Foo(t, u);
      Entries([a]) == [Entry(a, "h", PathTo("/foo/", t, "s")), Entry(a, "h", PathTo("/foo/", u, "t"))]
  {
    EntriesOfOneRule(Foo(t, u), "h", FooPaths(t, u));
    EntriesOfOne(Foo(t, u));
  }

  lemma {:induction false} FooUpstreams(env: Env, t: PathType, u: PathType, du: Backend)
    requires du.name == DefUpstreamName
    ensures
      var ups := Created(env, [Foo(t, u)], du);
      && Up("s") in ups && ups[Up("s")] == FooUpstream(env, "s")
      && Up("t") in ups && ups[Up("t")] == FooUpstream(env, "t")
  {
    UpsDiffer('s', 't');
    UpsDiffer('t', 's');
    FooEntries(t, u);
    FirstUpstream(env, [Foo(t, u)], du, Up("s"));
    SecondUpstream(env, [Foo(t, u)], du, Up("t"));
  }

  lemma {:induction false} FirstUpstream(env: Env, data: seq<Annotated>, du: Backend, name: string)
    requires name != DefUpstreamName && |data| == 1 && data[0].ing.backend.None?
    requires |Entries(data)| > 0 && NameOf(Entries(data)[0]) == name
    ensures
      var ups, e := Created(env, data, du), Entries(data)[0];
      name in ups && ups[name] == NewUpstream(env, e.a, e.path.backend, e.path.backend.port)
  {
    FirstPathWins(env, data, du, name, 0);
  }

  lemma {:induction false} SecondUpstream(env: Env, data: seq<Annotated>, du: Backend, name: string)
    requires name != DefUpstreamName && |data| == 1 && data[0].ing.backend.None?
    requires |Entries(data)| > 1 && NameOf(Entries(data)[0]) != name && NameOf(Entries(data)[1]) == name
    ensures
      var ups, e := Created(env, data, du), Entries(data)[1];
      name in ups && ups[name] == NewUpstream(env, e.a, e.path.backend, e.path.backend.port)
  {
    FirstPathWins(env, data, du, name, 1);
  }

  lemma FooClaims(env: Env, t: PathType, u: PathType, du: Backend)
    requires du.name == DefUpstreamName && du.alternativeBackends == Nil && "h" in PlacedServers(env, [Foo(t, u)], du)
    ensures
      var a := Foo(t, u);
      ClaimsFor(env, [a], du, "h") ==
      [Claim(Entry(a, "h", PathTo("/foo/", t, "s")), FooUpstream(env, "s")),
       Claim(Entry(a, "h", PathTo("/foo/", u, "t")), FooUpstream(env, "t"))]
  {
    UpsDiffer('s', 't');
    UpsDiffer('t', 's');
    FooUpstreams(env, t, u, du);
    OneIngress(env, Foo(t, u), du, "h", FooPaths(t, u));
    TwoClaimed(ClaimsFor(env, [Foo(t, u)], du, "h"), Created(env, [Foo(t, u)], du), Foo(t, u), "h", FooPaths(t, u));
  }

  lemma TwoClaimed(claims: seq<Claim>, ups: Table, a: Annotated, h: string, paths: seq<HTTPPath>)
    requires Claiming(claims, ups, a, h, paths) && |paths| == 2
    ensures
      var e, f := Entry(a, h, paths[0]), Entry(a, h, paths[1]);
      NameOf(e) in ups && NameOf(f) in ups && claims == [Claim(e, ups[NameOf(e)]), Claim(f, ups[NameOf(f)])]
  {
  }

  lemma FooLocations(env: Env, t: PathType, u: PathType, du: Backend)
    requires du.name == DefUpstreamName && du.alternativeBackends == Nil && Swappable(t, u)
    ensures "h" in PlacedServers(env, [Foo(t, u)], du)
    ensures PlacedFor(env, Foo(t, u), du) ==
            [FooRoot, FooPlaced(t, FooUpstream(env, "s")), FooPlaced(u, FooUpstream(env, "t"))]
  {
    FooIsPlaced(env, t, u, du);
    FooClaims(env, t, u, du);
    assert |"/foo/"| != |"/"|;
    TwoClaims(FooRoot, ClaimsFor(env, [Foo(t, u)], du, "h"));
  }

  lemma MovesToTheEnd<T>(x: T, y: T, z: T, before: (T, T) -> bool)
    requires before(y, x) && before(z, x) && !before(z, y)
    ensures Sort([x, y, z], before) == [y, z, x]
  {
    assert [x, y, z][..2] == [x, y] && [x, y][..1] == [x] && [x][..0] == [];
    assert [y, x][..1] == [y];
    assert Sort([x], before) == [x];
    assert Insert([x], y, before) == Insert([], y, before) + [x] == [y, x];
    assert Insert([y, x], z, before) == Insert([y], z, before) + [x] == [y, z, x];
  }

  lemma StaysInOrder<T>(x: T, y: T, z: T, before: (T, T) -> bool)
    requires !before(y, x) && !before(z, y)
    ensures Sort([x, y, z], before) == [x, y, z]
  {
    assert [x, y, z][..2] == [x, y] && [x, y][..1] == [x] && [x][..0] == [];
    assert Sort([x], before) == [x];
    assert Sort([x, y], before) == [x, y];
  }

  lemma ThreeSorted(x: Location, y: Location, z: Location)
    requires x.path == "/" && y.path == z.path == "/foo/"
    ensures SortedLocations([x, y, z]) == [y, z, x]
  {
    assert x.path[0] == y.path[0] && x.path[1..] == "" && y.path[1..] == "foo/";
    LessAsymmetric(y.path, y.path);
    MovesToTheEnd(x, y, z, LaterPath);
    StaysInOrder(y, z, x, LongerPath);
  }

  lemma FooRewritten(t: PathType, p: Backend, u: PathType, q: Backend)
    requires Swappable(t, u)
    ensures Assembly.RewrittenLocations([FooPlaced(t, p), FooPlaced(u, q), FooRoot]) ==
            [FooFinal(t, p), FooFinal(u, q), FooRoot]
  {
    var ls := [FooPlaced(t, p), FooPlaced(u, q), FooRoot];
    assert |"/foo/"| != |"/"| && HasSuffix("/foo/", "/");
    assert Declares(ls, "/foo/", Exact) by {
      assert ls[0].pathType == Exact || ls[1].pathType == Exact;
    }
    assert !GetsExact(ls, ls[0]) && !GetsExact(ls, ls[1]) && !GetsExact(ls, ls[2]);
    assert Rewritten(ls[0]) == FooFinal(t, p) && Rewritten(ls[1]) == FooFinal(u, q) && Rewritten(ls[2]) == FooRoot;
    assert UpdatedUpTo(ls, 1) == [Placed(0, FooFinal(t, p))];
    assert UpdatedUpTo(ls, 2) == [Placed(0, FooFinal(t, p)), Placed(1, FooFinal(u, q))];
    assert Updated(ls) == [Placed(0, FooFinal(t, p)), Placed(1, FooFinal(u, q)), Placed(2, FooRoot)];
  }

  lemma FooFinished(env: Env, ups: Table, server: Server, p: Location, q: Location)
    requires server.locations == [FooRoot, p, q] && p.path == q.path == "/foo/"
    requires p.defaultBackend.None? && q.defaultBackend.None?
    ensures Finished(env, ups, server).locations == [p, q, FooRoot]
  {
    assert CustomLocations(env, ups, [FooRoot, p, q]) == [FooRoot, p, q];
    ThreeSorted(FooRoot, p, q);
  }

  // ---------------------------------------------------------------- the whole result

  function FooTable(env: Env, du: Backend): Table {
    map[DefUpstreamName := du, Up("s") := FooUpstream(env, "s"), Up("t") := FooUpstream(env, "t")]
  }

  lemma FooUses(t: PathType, u: PathType, name: string)
    ensures UsedBy([Foo(t, u)], name) <==> name in {Up("s"), Up("t")}
  {
    var a := Foo(t, u);
    EntriesOfOneRule(a, "h", FooPaths(t, u));
    assert NameOf(EntriesOf(a)[0]) == Up("s") && NameOf(EntriesOf(a)[1]) == Up("t");
    assert Uses(a, name) <==> name in {Up("s"), Up("t")};
    assert [a][0] == a;
  }

  lemma {:induction false} FooTableIs(env: Env, t: PathType, u: PathType, du: Backend)
    requires du.name == DefUpstreamName && du.alternativeBackends == Nil
    ensures Created(env, [Foo(t, u)], du) == FooTable(env, du)
  {
    var ups := Created(env, [Foo(t, u)], du);
    UpsDiffer('s', 't');
    UpsDiffer('t', 's');
    FooUpstreams(env, t, u, du);
    CreatedHoldsUsed(env, [Foo(t, u)], du);
    DefaultUpstreamStays(env, [Foo(t, u)], du);
    forall k ensures k in ups <==> k in {DefUpstreamName, Up("s"), Up("t")} {
      FooUses(t, u, k);
    }
    ThreeUpstreams(ups, Up("s"), Up("t"));
  }

  lemma ThreeUpstreams(ups: Table, s: string, t: string)
    requires ups.Keys == {DefUpstreamName, s, t} && s != DefUpstreamName && t != DefUpstreamName && s != t
    ensures ups == map[DefUpstreamName := ups[DefUpstreamName], s := ups[s], t := ups[t]]
  {
  }

  /** The servers before placement. */
  function FooBase(env: Env, du: Backend): Hosts {
    map[DefServerName := DefaultServer(env, du), "h" := NewServer(Foo(Exact, Prefix), "h", DefUpstreamName)]
  }

  lemma {:induction false} FooFirstPass(env: Env, t: PathType, u: PathType, ups: Table, du: Backend)
    requires du.name == DefUpstreamName
    ensures FirstPass(env, [Foo(t, u)], ups, du) == FooBase(env, du)
  {
    var a := Foo(t, u);
    assert "h"[0] != "_"[0];
    assert [a][..0] == [] && a.ing.rules[..0] == [] && HostOf(a.ing.rules[0]) == "h";
    var start: Hosts := map[DefServerName := DefaultServer(env, du)];
    assert FirstPass(env, [], ups, du) == start;
    assert LendCatchAll(start, a, ups) == start && DefaultFor(a, ups, du) == DefUpstreamName;
    assert AddRuleServers(start, a, DefUpstreamName, []) == start;
    assert AddRuleServers(start, a, DefUpstreamName, a.ing.rules) ==
           start["h" := NewServer(a, "h", DefUpstreamName)];
    assert NewServer(a, "h", DefUpstreamName) == NewServer(Foo(Exact, Prefix), "h", DefUpstreamName);
  }

  lemma {:induction false} FooSecondPass(env: Env, t: PathType, u: PathType, base: Hosts)
    requires "h" in base && base["h"].aliases == []
    ensures SecondPass(Configured(base, map[]), env, [Foo(t, u)]).servers == base
  {
    var a, start := Foo(t, u), Configured(base, map[]);
    assert [a][..0] == [] && a.ing.rules[..0] == [] && HostOf(a.ing.rules[0]) == "h";
    assert SecondPass(start, env, []) == start && ConfigureRules(start, env, a, []) == start;
    assert ConfigureRules(start, env, a, a.ing.rules) == ConfigureRule(start, env, a, a.ing.rules[0]);
    assert base["h"].(aliases := []) == base["h"] && base["h" := base["h"]] == base;
  }

  lemma NothingToCleanUp(base: Hosts)
    requires forall h :: h in base ==> base[h].aliases == []
    ensures ThirdPass(base) == base
  {
    forall h | h in base ensures CleanServer(base[h], h, base.Keys) == base[h] {
      assert KeptAliases([], h, base.Keys) == [] && CleanAliases([], h, base.Keys) == [];
    }
  }

  lemma FooCreated(env: Env, t: PathType, u: PathType, ups: Table, du: Backend)
    requires du.name == DefUpstreamName
    ensures CreatedServers(env, [Foo(t, u)], ups, du) == FooBase(env, du)
  {
    FooFirstPass(env, t, u, ups, du);
    FooSecondPass(env, t, u, FooBase(env, du));
    NothingToCleanUp(FooBase(env, du));
  }

  /** Placing paths that ask for no redirect changes nothing but locations. */
  lemma {:induction false} OnlyLocationsChange(server: Server, claims: seq<Claim>)
    requires forall k :: 0 <= k < |claims| ==> !claims[k].e.a.anns.fromToWWW
    ensures PlaceClaims(server, claims) == server.(locations := PlaceClaims(server, claims).locations)
  {
    if claims == [] {
    } else {
      OnlyLocationsChange(server, claims[..|claims| - 1]);
    }
  }

  lemma {:induction false} FooDefaultClaims(hosts: set<string>, ups: Table, t: PathType, u: PathType)
    requires "h" in hosts
    ensures ClaimsOn(hosts, ups, Entries([Foo(t, u)]), DefServerName) == []
  {
    FooEntries(t, u);
    var entries := Entries([Foo(t, u)]);
    assert "h"[0] != "_"[0];
    assert entries[..1][..0] == [];
    assert ClaimsOn(hosts, ups, entries[..1], DefServerName) == [];
  }

  /** The servers after placement. */
  function FooHosts(env: Env, du: Backend, t: PathType, u: PathType): Hosts {
    var locations := [FooRoot, FooPlaced(t, FooUpstream(env, "s")), FooPlaced(u, FooUpstream(env, "t"))];
    FooBase(env, du)["h" := FooBase(env, du)["h"].(locations := locations)]
  }

  lemma FooHostsAre(env: Env, t: PathType, u: PathType, du: Backend)
    requires du.name == DefUpstreamName && du.alternativeBackends == Nil && Swappable(t, u)
    ensures PlacedServers(env, [Foo(t, u)], du) == FooHosts(env, du, t, u)
  {
    FooCreated(env, t, u, Created(env, [Foo(t, u)], du), du);
    FooLocations(env, t, u, du);
    FooPlacedServers(FooBase(env, du), Created(env, [Foo(t, u)], du), t, u);
  }

  lemma {:induction false} FooPlacedServers(base: Hosts, ups: Table, t: PathType, u: PathType)
    requires base.Keys == {DefServerName, "h"}
    ensures
      var servers := PlaceAll(base, ups, Entries([Foo(t, u)]));
      servers == base["h" := base["h"].(locations := servers["h"].locations)]
  {
    var entries := Entries([Foo(t, u)]);
    assert "h"[0] != "_"[0];
    PlaceAllByHost(base, ups, entries, "h");
    ClaimsCount(base.Keys, ups, entries, "h");
    FooEntries(t, u);
    var claims := ClaimsOn(base.Keys, ups, entries, "h");
    forall k | 0 <= k < |claims| ensures !claims[k].e.a.anns.fromToWWW {
      assert claims[k] in claims;
    }
    OnlyLocationsChange(base["h"], claims);
    PlaceAllByHost(base, ups, entries, DefServerName);
    FooDefaultClaims(base.Keys, ups, t, u);
  }

  /** What is compiled from the Ingress. */
  ghost predicate IsFooCompiled(env: Env, t: PathType, u: PathType, du: Backend, c: Compiled, list: seq<Backend>,
                                origins: seq<Origin>) {
    IsCompiled(env, Created(env, [Foo(t, u)], du), PlacedServers(env, [Foo(t, u)], du), c, list, origins)
  }

  lemma FooHostsAlike(env: Env, du: Backend, t: PathType, u: PathType)
    ensures SameButTypes(FooHosts(env, du, t, u), FooHosts(env, du, u, t))
    ensures NoCollision(env, FooTable(env, du), FooHosts(env, du, t, u))
  {
    var a := FooHosts(env, du, t, u);
    forall s | IsSpot(a, s) ensures At(a, s).defaultBackend.None? {
      assert s.host in {DefServerName, "h"};
    }
  }

  lemma FooFinalIs(env: Env, ups: Table, du: Backend, t: PathType, u: PathType)
    requires Swappable(t, u)
    ensures
      var a := FooHosts(env, du, t, u);
      var locations := [FooFinal(t, FooUpstream(env, "s")), FooFinal(u, FooUpstream(env, "t")), FooRoot];
      Final(env, ups, a["h"]) == a["h"].(locations := locations)
  {
    var server := FooHosts(env, du, t, u)["h"];
    FooFinished(env, ups, server, FooPlaced(t, FooUpstream(env, "s")), FooPlaced(u, FooUpstream(env, "t")));
    FooRewritten(t, FooUpstream(env, "s"), u, FooUpstream(env, "t"));
  }

  lemma FooHostEqual(env: Env, ups: Table, du: Backend, t: PathType, u: PathType, x: Server, y: Server)
    requires Swappable(t, u)
    requires x == FooHosts(env, du, t, u)["h"] && y == FooHosts(env, du, u, t)["h"]
    ensures FinallyEqualServers(env, ups, x, y)
  {
    FooFinalIs(env, ups, du, t, u);
    FooFinalIs(env, ups, du, u, t);
    SwapIsEqual(t, FooUpstream(env, "s"), u, FooUpstream(env, "t"));
    EqualButLocations(Final(env, ups, x), Final(env, ups, y));
  }

  lemma FooHostsFinallyEqual(env: Env, ups: Table, du: Backend, t: PathType, u: PathType)
    requires Swappable(t, u)
    ensures FinallyEqual(env, ups, FooHosts(env, du, t, u), FooHosts(env, du, u, t))
  {
    var a, b := FooHosts(env, du, t, u), FooHosts(env, du, u, t);
    assert "h"[0] != "_"[0];
    FooHostEqual(env, ups, du, t, u, a["h"], b["h"]);
    OneHostDiffers(env, ups, a, b);
  }

  /** Servers that differ at one host, and are finally equal there, are finally equal. */
  lemma OneHostDiffers(env: Env, ups: Table, a: Hosts, b: Hosts)
    requires a.Keys == b.Keys && "h" in a && b == a["h" := b["h"]]
    requires FinallyEqualServers(env, ups, a["h"], b["h"])
    ensures FinallyEqual(env, ups, a, b)
  {
    forall h | h in a ensures FinallyEqualServers(env, ups, a[h], b[h]) {
      if h != "h" {
        SameFinallyEqual(env, ups, a[h]);
      }
    }
  }

  lemma SameFinallyEqual(env: Env, ups: Table, x: Server)
    ensures FinallyEqualServers(env, ups, x, x)
  {
    ServerReflexive(Final(env, ups, x));
  }

  lemma EqualButLocations(a: Server, b: Server)
    requires a == b.(locations := a.locations) && Pointwise(a.locations, b.locations, EqualLocation)
    ensures EqualServer(a, b)
  {
    ServerReflexive(b);
  }

  /** The position of the host, and its locations in the configuration. */
  lemma FooServer(env: Env, du: Backend, t: PathType, u: PathType, c: Compiled, list: seq<Backend>,
                  origins: seq<Origin>,
                  rest: Assembly.Rest)
    returns (k: nat)
    requires Swappable(t, u)
    requires IsCompiled(env, FooTable(env, du), FooHosts(env, du, t, u), c, list, origins)
    ensures k < |c.servers| && c.servers[k].hostname == "h"
    ensures Assembly.Assembled(c, rest).servers[k].locations ==
            [FooFinal(t, FooUpstream(env, "s")), FooFinal(u, FooUpstream(env, "t")), FooRoot]
  {
    var a := FooHosts(env, du, t, u);
    assert Certificates.IsHostname("h", c.servers);
    k :| 0 <= k < |c.servers| && c.servers[k].hostname == "h";
    FooFinalIs(env, FooTable(env, du), du, t, u);
    assert Assembly.Assembled(c, rest).servers[k] == Final(env, FooTable(env, du), a["h"]);
  }

  // ---------------------------------------------------------------- what nginx does with it

  /** Whatever patterns match, nginx sends the request to position i and to no other. */
  ghost predicate SendsTo(ls: seq<Location>, i: nat, request: string) {
    && i < |ls|
    && forall regex: iset<(string, string)>, j ::
         0 <= j < |ls| ==> (Selects(Directives(ls), regex, j, request) <==> j == i)
  }

  ghost predicate Reaches(ls: seq<Location>, i: nat, request: string, backend: string) {
    SendsTo(ls, i, request) && ls[i].backend == backend
  }

  /** A request for the path goes to the Exact location. */
  lemma ExactIsSelected(t: PathType, p: Backend, u: PathType, q: Backend)
    requires Swappable(t, u)
    ensures SendsTo([FooFinal(t, p), FooFinal(u, q), FooRoot], if t == Exact then 0 else 1, "/foo/")
  {
    var ls := [FooFinal(t, p), FooFinal(u, q), FooRoot];
    assert !Enforced(ls);
    var ds, i := Directives(ls), if t == Exact then 0 else 1;
    assert ds[0] == DirectiveOf(ls[0], false) && ds[1] == DirectiveOf(ls[1], false) && ds[2] == StartsWith("/");
    assert forall j :: 0 <= j < 3 ==> (ds[j] == Equals("/foo/") <==> j == i);
    assert ds[i] in ds;
  }

  lemma SwapIsEqual(t: PathType, p: Backend, u: PathType, q: Backend)
    ensures
      var before, after := [FooFinal(t, p), FooFinal(u, q), FooRoot], [FooFinal(u, p), FooFinal(t, q), FooRoot];
      Pointwise(before, after, EqualLocation)
  {
    LocationEquivalence();
  }

  /** When the types are swapped, the sync returns nil and does nothing, and nginx goes on sending "/foo/" to the one
      service, not to the other as asked. */
  lemma SwappedTypesGoUnnoticed(env: Env, du: Backend, c: Compiled, list: seq<Backend>, origins: seq<Origin>,
                                c': Compiled, list': seq<Backend>, origins': seq<Origin>, rest: Assembly.Rest,
                                s: Sync.State, input: Sync.Input)
    returns (k: nat)
    requires du.name == DefUpstreamName && du.alternativeBackends == Nil
    requires IsFooCompiled(env, Exact, Prefix, du, c, list, origins)
    requires IsFooCompiled(env, Prefix, Exact, du, c', list', origins')
    requires DataPlane.InStep(s) && s.running.(configurationChecksum := "") == Assembly.Assembled(c, rest)
    requires input.desired == Assembly.Assembled(c', rest)
    ensures Sync.Step(s, input) == (s, true) && !DataPlane.Serves(s.plane, input.desired)
    ensures k < |s.plane.conf.servers| && Reaches(s.plane.conf.servers[k].locations, 0, "/foo/", Up("s"))
    ensures k < |input.desired.servers| && Reaches(input.desired.servers[k].locations, 1, "/foo/", Up("t"))
  {
    var a, b := FooHosts(env, du, Exact, Prefix), FooHosts(env, du, Prefix, Exact);
    var ups := FooTable(env, du);
    FooTableIs(env, Exact, Prefix, du);
    FooTableIs(env, Prefix, Exact, du);
    FooHostsAre(env, Exact, Prefix, du);
    FooHostsAre(env, Prefix, Exact, du);
    FooHostsAlike(env, du, Exact, Prefix);
    FooHostsFinallyEqual(env, ups, du, Exact, Prefix);
    ResultsEqual(env, ups, a, b, c, list, origins, c', list', origins', rest);
    ServersCorrespond(env, ups, a, b, c.servers, c'.servers);
    k := FooServer(env, du, Exact, Prefix, c, list, origins, rest);
    var k' := FooServer(env, du, Prefix, Exact, c', list', origins', rest);
    assert k == k';
    SwapGoesUnnoticed(s, input, k, FooUpstream(env, "s"), FooUpstream(env, "t"));
  }

  lemma SwapGoesUnnoticed(s: Sync.State, input: Sync.Input, k: nat, p: Backend, q: Backend)
    requires DataPlane.InStep(s) && EqualConfiguration(s.running, input.desired)
    requires k < |s.running.servers| && k < |input.desired.servers|
    requires s.running.servers[k].locations == [FooFinal(Exact, p), FooFinal(Prefix, q), FooRoot]
    requires input.desired.servers[k].locations == [FooFinal(Prefix, p), FooFinal(Exact, q), FooRoot]
    ensures Sync.Step(s, input) == (s, true) && !DataPlane.Serves(s.plane, input.desired)
    ensures k < |s.plane.conf.servers| && Reaches(s.plane.conf.servers[k].locations, 0, "/foo/", p.name)
    ensures Reaches(input.desired.servers[k].locations, 1, "/foo/", q.name)
  {
    LoadedDirectives(s, k);
    ExactIsSelected(Exact, p, Prefix, q);
    ExactIsSelected(Prefix, p, Exact, q);
    SameDirectivesSend(s.running.servers[k].locations, s.plane.conf.servers[k].locations, 0, "/foo/");
    DataPlane.StaticEqualServers(s.plane.conf, s.running, k);
    assert EqualLocation(s.plane.conf.servers[k].locations[0], s.running.servers[k].locations[0]);
    NotServed(s.plane, input.desired, k, "/foo/");
  }

  /** The run of two syncs, from the start: one for the Ingress as it was, which goes through, and one for the Ingress
      as edited, which returns nil with nothing done. */
  lemma SwappedTypesRun(env: Env, du: Backend, c: Compiled, list: seq<Backend>, origins: seq<Origin>,
                        c': Compiled, list': seq<Backend>, origins': seq<Origin>, rest: Assembly.Rest,
                        first: Sync.Input, second: Sync.Input)
    requires du.name == DefUpstreamName && du.alternativeBackends == Nil
    requires IsFooCompiled(env, Exact, Prefix, du, c, list, origins)
    requires IsFooCompiled(env, Prefix, Exact, du, c', list', origins')
    requires first.desired == Assembly.Assembled(c, rest) && second.desired == Assembly.Assembled(c', rest)
    requires !first.shuttingDown && first.reloadOk && Sync.PushesSucceed(first)
    ensures
      var (s, ok) := Sync.Step(Sync.InitialState, first);
      && ok && DataPlane.Serves(s.plane, first.desired)
      && Sync.Step(s, second) == (s, true) && !DataPlane.Serves(s.plane, second.desired)
  {
    FirstSyncServes(env, du, c, list, origins, rest, first);
    var s := Sync.Step(Sync.InitialState, first).0;
    var k := SwappedTypesGoUnnoticed(env, du, c, list, origins, c', list', origins', rest, s, second);
  }

  lemma FirstSyncServes(env: Env, du: Backend, c: Compiled, list: seq<Backend>, origins: seq<Origin>,
                        rest: Assembly.Rest, first: Sync.Input)
    requires du.name == DefUpstreamName && du.alternativeBackends == Nil
    requires IsFooCompiled(env, Exact, Prefix, du, c, list, origins)
    requires first.desired == Assembly.Assembled(c, rest)
    requires !first.shuttingDown && first.reloadOk && Sync.PushesSucceed(first)
    ensures
      var (s, ok) := Sync.Step(Sync.InitialState, first);
      && ok && DataPlane.InStep(s) && DataPlane.Serves(s.plane, first.desired)
      && s.running.(configurationChecksum := "") == first.desired
  {
    var data := [Foo(Exact, Prefix)];
    PlacedAreTidy(env, data, du);
    CompiledIsFit(env, Created(env, data, du), PlacedServers(env, data, du), c, list, origins);
    Assembly.AssembledIsDuplicateFree(c, rest);
    FreshSyncServes(first);
  }

  /** From the start, a sync for a configuration with servers that goes through serves it. */
  lemma FreshSyncServes(first: Sync.Input)
    requires |first.desired.servers| > 0 && DuplicateFree(first.desired) && first.desired.configurationChecksum == ""
    requires !first.shuttingDown && first.reloadOk && Sync.PushesSucceed(first)
    ensures
      var (s, ok) := Sync.Step(Sync.InitialState, first);
      && ok && DataPlane.InStep(s) && DataPlane.Serves(s.plane, first.desired)
      && s.running.(configurationChecksum := "") == first.desired
  {
    var init := Sync.InitialState;
    Sync.InitiallyInSync();
    assert Sync.NeedsReload(init, first) && !Sync.Skips(init, first);
    assert Sync.Step(init, first).1 && !Sync.Torn(init, first);
    DataPlane.StepIsInStep(init, first);
    DataPlane.AppliedIs(init, first);
    DataPlane.AppliedIsServedIff(init, first);
  }

  lemma SameDirectivesSend(a: seq<Location>, b: seq<Location>, i: nat, request: string)
    requires Directives(a) == Directives(b) && SendsTo(a, i, request)
    ensures SendsTo(b, i, request)
  {
    assert |Directives(a)| == |Directives(b)|;
  }

  lemma LoadedDirectives(s: Sync.State, k: nat)
    requires DataPlane.InStep(s) && k < |s.running.servers|
    ensures |s.plane.conf.servers| == |s.running.servers|
    ensures Directives(s.plane.conf.servers[k].locations) == Directives(s.running.servers[k].locations)
  {
    assert |DataPlane.Texts(s.plane.conf)| == |DataPlane.Texts(s.running)|;
    assert DataPlane.Texts(s.plane.conf)[k] == DataPlane.Texts(s.running)[k];
  }

  lemma NotServed(plane: Sync.Plane, desired: Configuration, k: nat, request: string)
    requires IsRequest(request) && k < |desired.servers| && k < |plane.conf.servers|
    requires SendsTo(plane.conf.servers[k].locations, 0, request) && SendsTo(desired.servers[k].locations, 1, request)
    ensures !DataPlane.Serves(plane, desired)
  {
    var loaded, wanted := plane.conf.servers[k].locations, desired.servers[k].locations;
    var none: iset<(string, string)> := iset{};
    assert Selects(Directives(loaded), none, 0, request) && !Selects(Directives(wanted), none, 0, request);
    assert !SelectAlike(loaded, wanted);
    assert !DataPlane.ServesAlike(plane.conf.servers[k], desired.servers[k]);
  }
}
