/** internal/ingress/controller/controller.go (getBackendServers): from Ingresses to upstreams and servers.

    The steps are modelled one by one in Upstreams, Servers, Placement, Canary and CustomBackends.  Here they
    are put together: when the whole computation survives, and what holds of every list of upstreams and
    servers it returns.  A nil upstream met while merging canaries ends the process; this is the outcome None.
 */
module Compile {
  import opened Matching
  import opened Strings
  import opened Types
  import opened Sorting
  import opened Upstreams
  import opened Servers
  import opened Placement
  import opened Canary
  import opened CanaryOutcome
  import opened CustomBackends
  import Ownership
  import Certificates

  // ---------------------------------------------------------------- the stages

  function PlacedServers(env: Env, data: seq<Annotated>, du: Backend): (r: Hosts)
    ensures DefServerName in r
  {
    var ups := Created(env, data, du);
    CreatedServersAreClean(env, data, ups, du);
    PlaceAll(CreatedServers(env, data, ups, du), ups, Entries(data))
  }

  function Canaries(data: seq<Annotated>): seq<Annotated> {
    if data == [] then [] else
    var a := data[|data| - 1];
    Canaries(data[..|data| - 1]) + if a.anns.canary then [a] else []
  }

  /** Canaries are merged only if there are other Ingresses. */
  predicate Merges(data: seq<Annotated>) { |data| - |Canaries(data)| > 0 }

  function MergedTable(env: Env, data: seq<Annotated>, du: Backend): Merge {
    var ups := Created(env, data, du);
    if Merges(data) then MergeAll(ups, PlacedServers(env, data, du), Canaries(data)) else Merged(ups)
  }

  // ---------------------------------------------------------------- what placement keeps

  /** Placement changes locations and the redirect flag only, and adds locations for existing upstreams. */
  lemma {:induction false} PlaceAllKeeps(servers: Hosts, ups: Table, entries: seq<Entry>, h: string)
    requires DefServerName in servers && h in servers
    requires forall k :: k in ups ==> ups[k].name == k
    ensures var r := PlaceAll(servers, ups, entries)[h];
            && r.hostname == servers[h].hostname && r.aliases == servers[h].aliases
            && r.sslPassthrough == servers[h].sslPassthrough && r.sslCert == servers[h].sslCert
            && |r.locations| >= |servers[h].locations|
            && (forall i :: 0 <= i < |servers[h].locations| ==> r.locations[i].path == servers[h].locations[i].path)
            && (forall l :: l in r.locations ==> HasClaim(ups, entries, l.backend) || LedTo(servers[h], l.backend))
  {
    if entries == [] {
    } else {
      var init, e := entries[..|entries| - 1], entries[|entries| - 1];
      PlaceAllKeeps(servers, ups, init, h);
      ClaimAppend(ups, init, e);
      assert entries == init + [e];
      if Counts(ups, e) && ServerKey(servers.Keys, e.host) == h {
        PlaceEntryKeeps(PlaceAll(servers, ups, init)[h], e, ups[NameOf(e)]);
      }
    }
  }

  ghost predicate LedTo(server: Server, k: string) {
    exists l :: l in server.locations && l.backend == k
  }

  /** A path that counts leads to upstream k. */
  ghost predicate HasClaim(ups: Table, entries: seq<Entry>, k: string) {
    exists i :: 0 <= i < |entries| && Counts(ups, entries[i]) && NameOf(entries[i]) == k
  }

  lemma ClaimAppend(ups: Table, init: seq<Entry>, e: Entry)
    ensures forall k :: HasClaim(ups, init + [e], k) <==> HasClaim(ups, init, k) || (Counts(ups, e) && NameOf(e) == k)
  {
    var all := init + [e];
    assert all[|init|] == e;
    forall k | HasClaim(ups, init, k) ensures HasClaim(ups, all, k) {
      var i :| 0 <= i < |init| && Counts(ups, init[i]) && NameOf(init[i]) == k;
      assert all[i] == init[i];
    }
  }

  lemma PlaceEntryKeeps(server: Server, e: Entry, ups: Backend)
    ensures var r := PlaceEntry(server, e, ups);
            && r.hostname == server.hostname && r.aliases == server.aliases
            && r.sslPassthrough == server.sslPassthrough && r.sslCert == server.sslCert
            && |r.locations| >= |server.locations|
            && (forall i :: 0 <= i < |server.locations| ==> r.locations[i].path == server.locations[i].path)
            && (forall l :: l in r.locations ==> l in server.locations || l.backend == ups.name)
  {
  }

  lemma {:induction false} EntryOwner(data: seq<Annotated>, e: Entry)
    requires e in Entries(data)
    ensures exists i :: 0 <= i < |data| && data[i] == e.a && Uses(data[i], NameOf(e))
  {
    var init, a := data[..|data| - 1], data[|data| - 1];
    if e in Entries(init) {
      EntryOwner(init, e);
      var i :| 0 <= i < |init| && init[i] == e.a && Uses(init[i], NameOf(e));
      assert data[i] == init[i];
    } else {
      EntriesBelong(a, a.ing.rules);
      var k :| 0 <= k < |EntriesOf(a)| && EntriesOf(a)[k] == e;
      assert Uses(data[|data| - 1], NameOf(e));
    }
  }

  // ---------------------------------------------------------------- where locations lead

  function Serving(servers: Hosts): set<string> {
    set h, l | h in servers && l in servers[h].locations :: l.backend
  }

  lemma {:induction false} PlacedComeFrom(env: Env, data: seq<Annotated>, du: Backend, h: string, l: Location)
    requires du.name == DefUpstreamName && du.alternativeBackends == Nil
    requires h in PlacedServers(env, data, du) && l in PlacedServers(env, data, du)[h].locations
    ensures h in FirstPass(env, data, Created(env, data, du), du)
    ensures var ups := Created(env, data, du);
            HasClaim(ups, Entries(data), l.backend) || LedTo(FirstPass(env, data, ups, du)[h], l.backend)
  {
    var ups := Created(env, data, du);
    CreatedHoldsUsed(env, data, du);
    CreatedServersAreClean(env, data, ups, du);
    PlaceAllKeeps(CreatedServers(env, data, ups, du), ups, Entries(data), h);
  }

  /** Before merging, every location leads to an upstream in the table. */
  lemma {:induction false} PlacedLocationsLeadToUpstreams(env: Env, data: seq<Annotated>, du: Backend)
    requires du.name == DefUpstreamName && du.alternativeBackends == Nil
    ensures Serving(PlacedServers(env, data, du)) <= Created(env, data, du).Keys
  {
    var ups := Created(env, data, du);
    CreatedHoldsUsed(env, data, du);
    RootsLeadToPrimaries(env, data, ups, du);
    assert data[..|data|] == data;
    forall h, l | h in PlacedServers(env, data, du) && l in PlacedServers(env, data, du)[h].locations
      ensures l.backend in ups
    {
      PlacedComeFrom(env, data, du, h, l);
      if !HasClaim(ups, Entries(data), l.backend) {
        assert Primary(data, l.backend);
      }
    }
  }

  /** If canaries share no upstream name with other Ingresses, locations lead to the others' upstreams. */
  lemma PlacedLeadToPrimaries(env: Env, data: seq<Annotated>, du: Backend)
    requires du.name == DefUpstreamName && du.alternativeBackends == Nil && NamesSeparate(data)
    ensures LeadToPrimaries(data, PlacedServers(env, data, du))
  {
    var ups := Created(env, data, du);
    CreatedHoldsUsed(env, data, du);
    RootsLeadToPrimaries(env, data, ups, du);
    CreatedNoServer(env, data, |data|, du);
    assert data[..|data|] == data;
    forall h, l | h in PlacedServers(env, data, du) && l in PlacedServers(env, data, du)[h].locations
      ensures Primary(data, l.backend)
    {
      PlacedComeFrom(env, data, du, h, l);
      if HasClaim(ups, Entries(data), l.backend) {
        var i :| 0 <= i < |Entries(data)| && Counts(ups, Entries(data)[i]) && NameOf(Entries(data)[i]) == l.backend;
        var e := Entries(data)[i];
        assert e in Entries(data);
        EntryOwner(data, e);
        var j :| 0 <= j < |data| && data[j] == e.a && Uses(data[j], NameOf(e));
        assert ups[NameOf(e)].noServer == data[j].anns.canary;
      }
    }
  }

  // ---------------------------------------------------------------- when merging is safe

  lemma {:induction false} CanariesAre(data: seq<Annotated>, a: Annotated)
    requires a in Canaries(data)
    ensures a.anns.canary && exists i :: 0 <= i < |data| && data[i] == a
  {
    if a in Canaries(data[..|data| - 1]) {
      CanariesAre(data[..|data| - 1], a);
      var i :| 0 <= i < |data| - 1 && data[..|data| - 1][i] == a;
      assert data[i] == a;
    }
  }

  lemma {:induction false} UsesAreWithin(servers: Hosts, canaries: seq<Annotated>)
    requires DefServerName in servers
    ensures Within(AllUses(canaries, servers), Serving(servers))
  {
    var uses := AllUses(canaries, servers);
    UsesComeFromCanaries(canaries, servers);
    forall i, l | 0 <= i < |uses| && uses[i].locations.Some? && l in uses[i].locations.value
      ensures l.backend in Serving(servers)
    {
      assert uses[i] in uses;
      assert ComesFrom(uses[i], canaries, servers);
      var j :| 0 <= j < |canaries| && uses[i] in UsesOf(canaries[j], servers);
      UseIsServed(canaries[j], servers, uses[i], l);
    }
  }

  lemma UseIsServed(a: Annotated, servers: Hosts, use: Use, l: Location)
    requires DefServerName in servers && use in UsesOf(a, servers) && use.locations.Some? && l in use.locations.value
    ensures l.backend in Serving(servers)
  {
    if use in CatchAllUses(a, servers) {
      assert l in servers[DefServerName].locations;
    } else {
      var k :| 0 <= k < |EntriesOf(a)| && UseOf(EntriesOf(a)[k], servers) == use;
      assert l in servers[EntriesOf(a)[k].host].locations;
    }
  }

  lemma UseIsUsed(a: Annotated, servers: Hosts, use: Use)
    requires DefServerName in servers && use in UsesOf(a, servers)
    ensures Uses(a, use.name)
  {
    if use !in CatchAllUses(a, servers) {
      var k :| 0 <= k < |EntriesOf(a)| && UseOf(EntriesOf(a)[k], servers) == use;
    }
  }

  /** What the caller can check before: if canaries are merged, their rules all have paths, and no canary
      backend names an upstream that serves a location while finding no place on its own server. */
  ghost predicate Safe(env: Env, data: seq<Annotated>, du: Backend) {
    var servers := PlacedServers(env, data, du);
    Merges(data) ==>
      && AllComplete(Canaries(data))
      && Spares(Created(env, data, du), AllUses(Canaries(data), servers), Serving(servers))
  }

  lemma {:induction false} CreatedAlternativesSound(env: Env, data: seq<Annotated>, du: Backend)
    requires du.name == DefUpstreamName && du.alternativeBackends == Nil
    ensures AlternativesSound(Created(env, data, du))
  {
    CreatedHoldsUsed(env, data, du);
  }

  /** Merging survives, and every location still has its upstream, exactly when this holds. */
  lemma MergingIsSafeIff(env: Env, data: seq<Annotated>, du: Backend)
    requires du.name == DefUpstreamName && du.alternativeBackends == Nil
    ensures
      var m := MergedTable(env, data, du);
      (m.Merged? && Serving(PlacedServers(env, data, du)) <= m.ups.Keys) <==> Safe(env, data, du)
  {
    var ups, servers := Created(env, data, du), PlacedServers(env, data, du);
    PlacedLocationsLeadToUpstreams(env, data, du);
    CreatedAlternativesSound(env, data, du);
    MergeAllIsMergeUses(ups, servers, Canaries(data));
    UsesAreWithin(servers, Canaries(data));
    ServingUpstreamsKeptIff(ups, AllUses(Canaries(data), servers), Serving(servers));
  }

  /** In particular when canaries share no upstream name with other Ingresses. */
  lemma {:induction false} SeparateNamesAreSafe(env: Env, data: seq<Annotated>, du: Backend)
    requires du.name == DefUpstreamName && du.alternativeBackends == Nil
    requires NamesSeparate(data) && AllComplete(Canaries(data))
    ensures Safe(env, data, du)
    ensures Separated(Created(env, data, du), AllUses(Canaries(data), PlacedServers(env, data, du)))
  {
    var ups, servers := Created(env, data, du), PlacedServers(env, data, du);
    var uses := AllUses(Canaries(data), servers);
    PlacedLeadToPrimaries(env, data, du);
    PlacedLocationsLeadToUpstreams(env, data, du);
    CreatedAlternativesSound(env, data, du);
    UsesAreWithin(servers, Canaries(data));
    forall i | 0 <= i < |uses| ensures uses[i].name !in Serving(servers) {
      CanaryNamesServeNothing(data, servers, uses[i]);
    }
  }

  lemma {:induction false} CanaryNamesServeNothing(data: seq<Annotated>, servers: Hosts, use: Use)
    requires DefServerName in servers && NamesSeparate(data) && LeadToPrimaries(data, servers)
    requires use in AllUses(Canaries(data), servers)
    ensures use.name !in Serving(servers)
  {
    UsesComeFromCanaries(Canaries(data), servers);
    assert ComesFrom(use, Canaries(data), servers);
    var j :| 0 <= j < |Canaries(data)| && use in UsesOf(Canaries(data)[j], servers);
    var a := Canaries(data)[j];
    assert a in Canaries(data);
    CanariesAre(data, a);
    UseIsUsed(a, servers, use);
    var i :| 0 <= i < |data| && data[i] == a;
    assert Uses(data[i], use.name);
    forall h, l | h in servers && l in servers[h].locations ensures l.backend != use.name {
      assert Primary(data, l.backend);
    }
  }

  // ---------------------------------------------------------------- the computation

  predicate NameBefore(a: Backend, b: Backend) { Less(a.name, b.name) }

  predicate HostnameBefore(a: Server, b: Server) { Less(a.hostname, b.hostname) }

  /** A server as it is returned. */
  function Finished(env: Env, ups: Table, server: Server): Server {
    var s := CustomServer(env, ups, server);
    s.(locations := Ownership.SortedLocations(s.locations))
  }

  datatype Compiled = Compiled(upstreams: seq<Backend>, servers: seq<Server>)

  /** The list holds each server of the map once. */
  ghost predicate ServersListed(env: Env, ups: Table, servers: Hosts, done: set<string>, list: seq<Server>) {
    && Certificates.DistinctHostnames(list)
    && (forall i :: 0 <= i < |list| ==>
          && list[i].hostname in servers && list[i].hostname in done
          && list[i] == Finished(env, ups, servers[list[i].hostname]))
    && (forall h :: h in done ==> Certificates.IsHostname(h, list))
  }

  /** What is made of a table of upstreams and a map of servers: a sorted listing of the table and the custom
      upstreams, and a sorted list of the finished servers. */
  ghost predicate IsCompiled(env: Env, ups: Table, servers: Hosts, c: Compiled, list: seq<Backend>,
                             origins: seq<Origin>) {
    && Listing(env, ups, servers, ups.Keys, list, origins)
    && c.upstreams == Sort(list, NameBefore)
    && ServersListed(env, ups, servers, servers.Keys, c.servers)
    && Sorted(c.servers, HostnameBefore)
  }

  method CollectCanaries(data: seq<Annotated>) returns (canaries: seq<Annotated>)
    ensures canaries == Canaries(data)
  {
    canaries := [];
    for i := 0 to |data|
      invariant canaries == Canaries(data[..i])
    {
      assert data[..i + 1][..i] == data[..i];
      if data[i].anns.canary {
        canaries := canaries + [data[i]];
      }
    }
    assert data[..|data|] == data;
  }

  method MergeCanaries(canaries: seq<Annotated>, ups: Table, servers: Hosts) returns (r: Merge)
    requires DefServerName in servers
    ensures r == MergeAll(ups, servers, canaries)
  {
    r := Merged(ups);
    for i := 0 to |canaries|
      invariant r == MergeAll(ups, servers, canaries[..i])
    {
      assert canaries[..i + 1][..i] == canaries[..i];
      if r.Merged? {
        r := MergeAlternativeBackends(canaries[i], r.ups, servers);
      }
    }
    assert canaries[..|canaries|] == canaries;
  }

  lemma ServersListedStep(env: Env, ups: Table, servers: Hosts, done: set<string>, list: seq<Server>, h: string)
    requires ServersListed(env, ups, servers, done, list) && h in servers && h !in done && servers[h].hostname == h
    ensures ServersListed(env, ups, servers, done + {h}, list + [Finished(env, ups, servers[h])])
  {
    var more := list + [Finished(env, ups, servers[h])];
    assert more[|list|].hostname == h;
    forall k | k in done + {h} ensures Certificates.IsHostname(k, more) {
      if k in done {
        var i :| 0 <= i < |list| && list[i].hostname == k;
        assert more[i].hostname == k;
      }
    }
  }

  /** Sorting the locations of each server and listing the servers, in any order. */
  method ListServers(env: Env, ghost ups: Table, ghost placed: Hosts, servers: Hosts) returns (aServers: seq<Server>)
    requires servers.Keys == placed.Keys
    requires forall h :: h in placed ==> placed[h].hostname == h && servers[h] == CustomServer(env, ups, placed[h])
    ensures ServersListed(env, ups, placed, placed.Keys, aServers)
  {
    aServers := [];
    var todo := servers.Keys;
    ghost var done: set<string> := {};
    while todo != {}
      invariant todo !! done && todo + done == servers.Keys
      invariant ServersListed(env, ups, placed, done, aServers)
      decreases todo
    {
      var h :| h in todo;
      todo := todo - {h};
      var server := servers[h];
      ServersListedStep(env, ups, placed, done, aServers, h);
      server := server.(locations := Sort(Sort(server.locations, Ownership.LaterPath), Ownership.LongerPath));
      aServers := aServers + [server];
      done := done + {h};
    }
    assert done == placed.Keys;
  }

  lemma HostnameOrder()
    ensures WeakOrder(HostnameBefore)
  {
    forall x: Server, y: Server | HostnameBefore(x, y) ensures !HostnameBefore(y, x) {
      LessAsymmetric(x.hostname, y.hostname);
    }
    forall x: Server, y: Server, z: Server | !HostnameBefore(x, y) && !HostnameBefore(y, z)
      ensures !HostnameBefore(x, z)
    {
      LessNegativelyTransitive(x.hostname, y.hostname, z.hostname);
    }
  }

  predicate DifferentHostnames(a: Server, b: Server) { a.hostname != b.hostname }

  lemma {:induction false} SortedServersListed(env: Env, ups: Table, servers: Hosts, list: seq<Server>)
    requires ServersListed(env, ups, servers, servers.Keys, list)
    ensures ServersListed(env, ups, servers, servers.Keys, Sort(list, HostnameBefore))
    ensures Sorted(Sort(list, HostnameBefore), HostnameBefore)
  {
    var out := Sort(list, HostnameBefore);
    HostnameOrder();
    SortSorts(list, HostnameBefore);
    SortKeepsMembers(list, HostnameBefore);
    SortPairwise(list, HostnameBefore, DifferentHostnames);
    assert Pairwise(list, DifferentHostnames);
    forall i, j | 0 <= i < j < |out| ensures out[i].hostname != out[j].hostname {
      assert DifferentHostnames(out[i], out[j]);
    }
    forall i | 0 <= i < |out|
      ensures out[i].hostname in servers && out[i] == Finished(env, ups, servers[out[i].hostname])
    {
      assert out[i] in list;
    }
    forall h | h in servers ensures Certificates.IsHostname(h, out) {
      assert Certificates.IsHostname(h, list);
      var i :| 0 <= i < |list| && list[i].hostname == h;
      assert list[i] in out;
    }
  }

  lemma PlacedIsTidy(env: Env, data: seq<Annotated>, du: Backend, h: string)
    requires du.name == DefUpstreamName && du.alternativeBackends == Nil
    requires h in PlacedServers(env, data, du)
    ensures TidyServer(PlacedServers(env, data, du), h)
  {
    var ups := Created(env, data, du);
    CreatedHoldsUsed(env, data, du);
    CreatedServersAreClean(env, data, ups, du);
    PlaceAllKeeps(CreatedServers(env, data, ups, du), ups, Entries(data), h);
    RootPaths(env, data, ups, du);
    assert RootedServer(FirstPass(env, data, ups, du)[h]);
  }

  /** The default server is there; servers are filed under their names and start with a "/" location; aliases
      repeat neither each other nor a server's name. */
  ghost predicate Tidy(servers: Hosts) {
    && DefServerName in servers
    && forall h :: h in servers ==> TidyServer(servers, h)
  }

  ghost predicate TidyServer(servers: Hosts, h: string)
    requires h in servers
  {
    && servers[h].hostname == h && Distinct(servers[h].aliases)
    && (forall alias :: alias in servers[h].aliases ==> alias !in servers)
    && |servers[h].locations| > 0 && servers[h].locations[0].path == RootLocation
  }

  lemma PlacedAreTidy(env: Env, data: seq<Annotated>, du: Backend)
    requires du.name == DefUpstreamName && du.alternativeBackends == Nil
    ensures Tidy(PlacedServers(env, data, du))
  {
    forall h | h in PlacedServers(env, data, du) ensures TidyServer(PlacedServers(env, data, du), h) {
      PlacedIsTidy(env, data, du, h);
    }
  }

  /** The first location of every server is a Prefix location for "/". */
  ghost predicate Rooted(servers: Hosts) {
    forall h :: h in servers ==> RootedServer(servers[h])
  }

  predicate RootedServer(server: Server) {
    |server.locations| > 0 && server.locations[0].path == RootLocation && server.locations[0].pathType == Prefix
  }

  lemma {:induction false} RootPaths(env: Env, data: seq<Annotated>, ups: Table, du: Backend)
    ensures Rooted(FirstPass(env, data, ups, du))
  {
    if data == [] {
    } else {
      var init, a := data[..|data| - 1], data[|data| - 1];
      RootPaths(env, init, ups, du);
      if !a.anns.canary {
        var servers := FirstPass(env, init, ups, du);
        assert RootedServer(servers[DefServerName]);
        var lent := LendCatchAll(servers, a, ups);
        assert forall h :: h in lent && h != DefServerName ==> lent[h] == servers[h];
        assert RootedServer(lent[DefServerName]);
        RuleRootPaths(lent, a, DefaultFor(a, ups, du), a.ing.rules);
      }
    }
  }

  lemma {:induction false} RuleRootPaths(servers: Hosts, a: Annotated, un: string, rules: seq<Rule>)
    requires Rooted(servers)
    ensures Rooted(AddRuleServers(servers, a, un, rules))
  {
    if rules == [] {
    } else {
      RuleRootPaths(servers, a, un, rules[..|rules| - 1]);
      assert RootedServer(NewServer(a, HostOf(rules[|rules| - 1]), un));
    }
  }

  /** The names of the table are its keys, before and after merging. */
  lemma MergedNames(env: Env, data: seq<Annotated>, du: Backend)
    requires du.name == DefUpstreamName && du.alternativeBackends == Nil && MergedTable(env, data, du).Merged?
    ensures AlternativesSound(MergedTable(env, data, du).ups)
  {
    var ups, servers := Created(env, data, du), PlacedServers(env, data, du);
    CreatedAlternativesSound(env, data, du);
    MergeAllIsMergeUses(ups, servers, Canaries(data));
    MergeUsesMerges(ups, AllUses(Canaries(data), servers));
  }

  /** The last stage: custom default backends, and the two lists in order. */
  method Finish(env: Env, ups: Table, placed: Hosts)
    returns (c: Compiled, ghost list: seq<Backend>, ghost origins: seq<Origin>)
    requires Tidy(placed) && forall k :: k in ups ==> ups[k].name == k
    ensures IsCompiled(env, ups, placed, c, list, origins)
  {
    var aUpstreams, servers;
    aUpstreams, servers, origins := CustomizeBackends(env, ups, placed);
    list := aUpstreams;
    forall h | h in placed ensures placed[h].hostname == h {
      assert TidyServer(placed, h);
    }
    var aServers := ListServers(env, ups, placed, servers);
    SortedServersListed(env, ups, placed, aServers);
    c := Compiled(Sort(aUpstreams, NameBefore), Sort(aServers, HostnameBefore));
  }

  method GetBackendServers(env: Env, data: seq<Annotated>, du: Backend)
    returns (r: Option<Compiled>, ghost list: seq<Backend>, ghost origins: seq<Origin>)
    requires du.name == DefUpstreamName && du.alternativeBackends == Nil
    ensures r.None? <==> MergedTable(env, data, du).Panic?
    ensures r.Some? ==>
            IsCompiled(env, MergedTable(env, data, du).ups, PlacedServers(env, data, du), r.value, list, origins)
    ensures r.Some? ==> Fit(r.value.servers)
    ensures Safe(env, data, du) ==> r.Some? && LeadsToUpstreams(r.value)
  {
    list, origins := [], [];
    var upstreams := CreateUpstreams(env, data, du);
    var servers := CreateServers(env, data, upstreams, du);
    CreatedHoldsUsed(env, data, du);
    CreatedServersAreClean(env, data, upstreams, du);
    servers := PlaceIngresses(data, upstreams, servers);
    assert servers == PlacedServers(env, data, du);
    var canaryIngresses := CollectCanaries(data);
    MergingIsSafeIff(env, data, du);
    if |data| - |canaryIngresses| > 0 {
      var m := MergeCanaries(canaryIngresses, upstreams, servers);
      if m.Panic? {
        return None, [], [];
      }
      upstreams := m.ups;
    }
    assert MergedTable(env, data, du) == Merged(upstreams);
    MergedNames(env, data, du);
    PlacedAreTidy(env, data, du);
    var c;
    c, list, origins := Finish(env, upstreams, servers);
    CompiledIsFit(env, upstreams, servers, c, list, origins);
    if Serving(servers) <= upstreams.Keys {
      SpotsAreServed(servers, upstreams.Keys);
      ReturnedLocationsLeadToUpstreams(env, upstreams, servers, c, list, origins);
    }
    return Some(c), list, origins;
  }

  // ---------------------------------------------------------------- what is returned

  ghost predicate Names(upstreams: seq<Backend>, name: string) {
    exists j :: 0 <= j < |upstreams| && upstreams[j].name == name
  }

  /** Every location returned leads to an upstream returned. */
  ghost predicate LeadsToUpstreams(c: Compiled) {
    forall i, l :: 0 <= i < |c.servers| && l in c.servers[i].locations ==> Names(c.upstreams, l.backend)
  }

  /** If every location's upstream was in the table, every location returned leads to an upstream returned. */
  lemma ReturnedLocationsLeadToUpstreams(env: Env, ups: Table, servers: Hosts, c: Compiled, list: seq<Backend>,
                                         origins: seq<Origin>)
    requires IsCompiled(env, ups, servers, c, list, origins)
    requires forall k :: k in ups ==> ups[k].name == k
    requires forall s :: IsSpot(servers, s) ==> At(servers, s).backend in ups
    ensures LeadsToUpstreams(c)
  {
    forall i, l | 0 <= i < |c.servers| && l in c.servers[i].locations ensures Names(c.upstreams, l.backend) {
      var s := FinishedFrom(env, ups, servers, c.servers[i].hostname, l);
      CustomLocationsLeadToListed(env, ups, servers, list, origins, s);
      SortingKeepsNames(list, l.backend);
    }
  }

  lemma SpotsAreServed(servers: Hosts, names: set<string>)
    requires Serving(servers) <= names
    ensures forall s :: IsSpot(servers, s) ==> At(servers, s).backend in names
  {
    forall s | IsSpot(servers, s) ensures At(servers, s).backend in names {
      assert At(servers, s) in servers[s.host].locations;
      assert At(servers, s).backend in Serving(servers);
    }
  }

  lemma {:induction false} SortingKeepsNames(list: seq<Backend>, name: string)
    requires Names(list, name)
    ensures Names(Sort(list, NameBefore), name)
  {
    var j :| 0 <= j < |list| && list[j].name == name;
    SortKeepsMembers(list, NameBefore);
    assert list[j] in Sort(list, NameBefore);
  }

  lemma CustomizedFrom(env: Env, ups: Table, ls: seq<Location>, l: Location) returns (k: nat)
    requires l in CustomLocations(env, ups, ls)
    ensures k < |ls| && l == CustomLocation(env, ups, ls[k])
  {
    k :| k < |ls| && CustomLocations(env, ups, ls)[k] == l;
  }

  lemma FinishedLocations(env: Env, ups: Table, server: Server)
    ensures Finished(env, ups, server).locations ==
            Ownership.SortedLocations(CustomLocations(env, ups, server.locations))
  {
  }

  /** The spot a finished location comes from. */
  lemma FinishedFrom(env: Env, ups: Table, servers: Hosts, h: string, l: Location) returns (s: Spot)
    requires h in servers && l in Finished(env, ups, servers[h]).locations
    ensures s.host == h && IsSpot(servers, s) && l == CustomLocation(env, ups, At(servers, s))
  {
    FinishedLocations(env, ups, servers[h]);
    SortedMembers(CustomLocations(env, ups, servers[h].locations), l);
    var k := CustomizedFrom(env, ups, servers[h].locations, l);
    s := Spot(h, k);
  }

  lemma SortedMembers(ls: seq<Location>, l: Location)
    ensures l in Ownership.SortedLocations(ls) <==> l in ls
  {
    var first := Sort(ls, Ownership.LaterPath);
    SortKeepsMembers(ls, Ownership.LaterPath);
    SortKeepsMembers(first, Ownership.LongerPath);
    assert l in first <==> l in ls;
    assert l in Sort(first, Ownership.LongerPath) <==> l in first;
  }

  predicate DifferentNames(a: Backend, b: Backend) { a.name != b.name }

  lemma {:induction false} SortingKeepsNamesDistinct(list: seq<Backend>)
    ensures NamesDistinct(Sort(list, NameBefore)) <==> NamesDistinct(list)
  {
    SortPairwise(list, NameBefore, DifferentNames);
    PairwiseNames(list);
    PairwiseNames(Sort(list, NameBefore));
  }

  lemma PairwiseNames(list: seq<Backend>)
    ensures NamesDistinct(list) <==> Pairwise(list, DifferentNames)
  {
  }

  /** The upstreams returned have distinct names exactly when no two locations deserve custom upstreams of
      one name and none of these names is taken. */
  lemma ReturnedNamesUniqueIff(env: Env, ups: Table, servers: Hosts, c: Compiled, list: seq<Backend>,
                               origins: seq<Origin>)
    requires IsCompiled(env, ups, servers, c, list, origins)
    requires forall k :: k in ups ==> ups[k].name == k
    ensures NamesDistinct(c.upstreams) <==> Unshared(env, ups, servers)
  {
    NamesUniqueIff(env, ups, servers, list, origins);
    SortingKeepsNamesDistinct(list);
  }

  predicate HasRoot(ls: seq<Location>) { exists k :: 0 <= k < |ls| && ls[k].path == RootLocation }

  /** Distinct hostnames, the default one included; aliases that repeat neither each other nor a hostname; and a
      "/" location each. */
  ghost predicate Fit(servers: seq<Server>) {
    && Certificates.DistinctHostnames(servers) && Certificates.AliasesAvoidHostnames(servers)
    && Certificates.IsHostname(DefServerName, servers)
    && forall i :: 0 <= i < |servers| ==> Distinct(servers[i].aliases) && HasRoot(servers[i].locations)
  }

  /** The servers returned are fit for what comes after. */
  lemma CompiledIsFit(env: Env, ups: Table, servers: Hosts, c: Compiled, list: seq<Backend>, origins: seq<Origin>)
    requires IsCompiled(env, ups, servers, c, list, origins) && Tidy(servers)
    ensures Fit(c.servers)
  {
    forall i | 0 <= i < |c.servers|
      ensures Distinct(c.servers[i].aliases) && HasRoot(c.servers[i].locations)
      ensures forall alias :: alias in c.servers[i].aliases ==> !Certificates.IsHostname(alias, c.servers)
    {
      var h := c.servers[i].hostname;
      assert TidyServer(servers, h);
      FinishedHasRoot(env, ups, servers[h]);
    }
  }

  lemma FinishedHasRoot(env: Env, ups: Table, server: Server)
    requires |server.locations| > 0 && server.locations[0].path == RootLocation
    ensures HasRoot(Finished(env, ups, server).locations)
  {
    var customized := CustomLocations(env, ups, server.locations);
    FinishedLocations(env, ups, server);
    assert customized[0].path == RootLocation && customized[0] in customized;
    SortedMembers(customized, customized[0]);
    var out := Ownership.SortedLocations(customized);
    var k :| 0 <= k < |out| && out[k] == customized[0];
  }
}
