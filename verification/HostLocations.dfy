/** The locations that getBackendServers (internal/ingress/controller/controller.go) places on one host, in terms of the
    Ingresses: the root that the first pass made, and the claims of the paths that count.
 */
module HostLocations {
  import opened Strings
  import opened Types
  import opened Upstreams
  import opened Servers
  import opened Placement
  import opened Ownership
  import opened Compile

  /** The root location of a host before placement. */
  function RootOf(env: Env, data: seq<Annotated>, du: Backend, h: string): Location
    requires h in PlacedServers(env, data, du)
  {
    var ups := Created(env, data, du);
    CreatedServersAreClean(env, data, ups, du);
    FirstPass(env, data, ups, du)[h].locations[0]
  }

  function ClaimsFor(env: Env, data: seq<Annotated>, du: Backend, h: string): seq<Claim> {
    ClaimsOn(PlacedServers(env, data, du).Keys, Created(env, data, du), Entries(data), h)
  }

  predicate FreshServer(server: Server) { |server.locations| > 0 && IsFreshRoot(server.locations[0]) }

  /** The root of every server but the default one is still free for the first claim on it. */
  ghost predicate FreshRoots(servers: Hosts) {
    forall h :: h in servers && h != DefServerName ==> FreshServer(servers[h])
  }

  lemma {:induction false} FirstPassIsFresh(env: Env, data: seq<Annotated>, ups: Table, du: Backend)
    ensures FreshRoots(FirstPass(env, data, ups, du))
  {
    if data == [] {
    } else {
      var init, a := data[..|data| - 1], data[|data| - 1];
      FirstPassIsFresh(env, init, ups, du);
      if !a.anns.canary {
        var servers := FirstPass(env, init, ups, du);
        var lent := LendCatchAll(servers, a, ups);
        assert forall h :: h in lent && h != DefServerName ==> lent[h] == servers[h];
        AddedServersAreFresh(lent, a, DefaultFor(a, ups, du), a.ing.rules);
      }
    }
  }

  lemma {:induction false} AddedServersAreFresh(servers: Hosts, a: Annotated, un: string, rules: seq<Rule>)
    requires FreshRoots(servers)
    ensures FreshRoots(AddRuleServers(servers, a, un, rules))
  {
    if rules == [] {
    } else {
      AddedServersAreFresh(servers, a, un, rules[..|rules| - 1]);
      assert FreshServer(NewServer(a, HostOf(rules[|rules| - 1]), un));
    }
  }

  lemma RootIsFresh(env: Env, data: seq<Annotated>, du: Backend, h: string)
    requires h in PlacedServers(env, data, du) && h != DefServerName
    ensures IsFreshRoot(RootOf(env, data, du, h))
  {
    var ups := Created(env, data, du);
    CreatedServersAreClean(env, data, ups, du);
    FirstPassIsFresh(env, data, ups, du);
    assert FreshServer(FirstPass(env, data, ups, du)[h]);
  }

  /** On a root that is free for claims, the locations placed have the closed form of module Ownership. */
  lemma PlacedAre(env: Env, data: seq<Annotated>, du: Backend, h: string)
    requires h in PlacedServers(env, data, du) && IsFreshRoot(RootOf(env, data, du, h))
    ensures PlacedServers(env, data, du)[h].locations ==
            Locations(RootOf(env, data, du, h), ClaimsFor(env, data, du, h))
  {
    var ups := Created(env, data, du);
    CreatedServersAreClean(env, data, ups, du);
    var servers := CreatedServers(env, data, ups, du);
    var root := RootOf(env, data, du, h);
    assert servers[h].locations == [root];
    PlaceAllByHost(servers, ups, Entries(data), h);
    PlacedLocations(servers[h], root, ClaimsFor(env, data, du, h));
  }

  // ---------------------------------------------------------------- where claimed locations lead

  /** A claim is a path that counts, with its upstream, on its own host. */
  lemma {:induction false} ClaimsCount(hosts: set<string>, ups: Table, entries: seq<Entry>, h: string)
    ensures forall c :: c in ClaimsOn(hosts, ups, entries, h) ==>
              c.e in entries && Counts(ups, c.e) && c.upstream == ups[NameOf(c.e)] && ServerKey(hosts, c.e.host) == h
    ensures forall e :: e in entries && Counts(ups, e) && ServerKey(hosts, e.host) == h ==>
              Claim(e, ups[NameOf(e)]) in ClaimsOn(hosts, ups, entries, h)
  {
    if entries == [] {
    } else {
      ClaimsCount(hosts, ups, entries[..|entries| - 1], h);
    }
  }

  lemma {:induction false} AddedLeadToClaims(claims: seq<Claim>, k: nat)
    requires k < |Added(claims)|
    ensures exists c :: c in claims && Added(claims)[k].backend == c.upstream.name
  {
    var init, c := claims[..|claims| - 1], claims[|claims| - 1];
    if k < |Added(init)| {
      AddedLeadToClaims(init, k);
      var d :| d in init && Added(init)[k].backend == d.upstream.name;
      assert d in claims;
    } else {
      assert c in claims;
    }
  }

  lemma {:induction false} FirstClaimMember(claims: seq<Claim>, path: string, t: PathType)
    ensures FirstClaim(claims, path, t).Some? ==> FirstClaim(claims, path, t).value in claims
  {
    if claims == [] {
    } else {
      FirstClaimMember(claims[..|claims| - 1], path, t);
    }
  }

  /** A claimed path and type has a location that leads to the upstream of a claim. */
  lemma ClaimedLocationLeads(root: Location, claims: seq<Claim>, path: string, t: PathType) returns (k: nat, c: Claim)
    requires IsFreshRoot(root) && Claimed(claims, path, t)
    ensures k < |Locations(root, claims)| && c in claims
    ensures var l := Locations(root, claims)[k]; l.path == path && l.pathType == t && l.backend == c.upstream.name
  {
    LocationIffClaimed(root, claims, path, t);
    var ls := Locations(root, claims);
    k :| 0 <= k < |ls| && ls[k].path == path && ls[k].pathType == t;
    if k == 0 {
      FirstClaimIs(claims, path, t);
      FirstClaimMember(claims, path, t);
      c := FirstClaim(claims, path, t).value;
    } else {
      AddedLeadToClaims(claims, k - 1);
      c :| c in claims && ls[k].backend == c.upstream.name;
    }
  }
}
