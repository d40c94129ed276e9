/** internal/ingress/controller/controller.go (getBackendServers, the loop over rules and paths):
    which path of which Ingress owns a location.

    For every path the loop searches the server's locations for one with the same path.  The search stops at
    the first such location: if its type differs too, a new location is added.  The locations of a server
    built this way have a closed form, from which ownership and the exact condition for duplicates follow.
 */
module Placement {
  import opened Matching
  import opened Strings
  import opened Types
  import opened Upstreams
  import opened Servers

  // ---------------------------------------------------------------- placing one path

  function NginxPath(e: Entry): string { if e.path.path == "" then RootLocation else e.path.path }

  function FirstAt(locations: seq<Location>, path: string): (j: nat)
    ensures j <= |locations|
    ensures j < |locations| ==> locations[j].path == path
    ensures forall k :: 0 <= k < j ==> locations[k].path != path
  {
    if locations == [] || locations[0].path == path then 0 else 1 + FirstAt(locations[1..], path)
  }

  function NewLocation(e: Entry, ups: Backend): Location {
    ApplyAnnotations(
      Location(NginxPath(e), e.path.pathType, "", false, ups.name, ups.service, ups.port,
               "", false, Nil, None, "", "", ""),
      e.a.anns)
  }

  function Replaced(l: Location, e: Entry, ups: Backend): Location {
    ApplyAnnotations(l.(backend := ups.name, isDefBackend := false, port := ups.port, service := ups.service), e.a.anns)
  }

  function PlaceEntry(server: Server, e: Entry, ups: Backend): Server {
    var locations := server.locations;
    var j := FirstAt(locations, NginxPath(e));
    if j == |locations| || locations[j].pathType != e.path.pathType then
      server.(locations := locations + [NewLocation(e, ups)],
              redirectFromToWWW := server.redirectFromToWWW || e.a.anns.fromToWWW)
    else if !locations[j].isDefBackend then server
    else
      server.(locations := locations[j := Replaced(locations[j], e, ups)],
              redirectFromToWWW := server.redirectFromToWWW || e.a.anns.fromToWWW)
  }

  /** The search loop over the locations of a server. */
  method PlaceOne(server: Server, e: Entry, ups: Backend) returns (r: Server)
    ensures r == PlaceEntry(server, e, ups)
  {
    r := server;
    var nginxPath := RootLocation;
    if e.path.path != "" {
      nginxPath := e.path.path;
    }
    var addLoc := true;
    for j := 0 to |r.locations|
      invariant r == server && addLoc
      invariant forall k :: 0 <= k < j ==> server.locations[k].path != nginxPath
    {
      var loc := r.locations[j];
      if loc.path != nginxPath {
        continue;
      }
      FirstAtIs(server.locations, nginxPath, j);
      if loc.pathType != e.path.pathType {
        break;
      }
      addLoc := false;
      if !loc.isDefBackend {
        break;
      }
      loc := loc.(backend := ups.name, isDefBackend := false, port := ups.port, service := ups.service);
      loc := ApplyAnnotations(loc, e.a.anns);
      r := r.(locations := r.locations[j := loc]);
      if e.a.anns.fromToWWW {
        r := r.(redirectFromToWWW := true);
      }
      break;
    }
    if addLoc {
      r := r.(locations := r.locations + [NewLocation(e, ups)]);
      if e.a.anns.fromToWWW {
        r := r.(redirectFromToWWW := true);
      }
    }
  }

  lemma {:induction false} FirstAtIs(locations: seq<Location>, path: string, j: nat)
    requires j < |locations| && locations[j].path == path
    requires forall k :: 0 <= k < j ==> locations[k].path != path
    ensures FirstAt(locations, path) == j
  {
  }

  // ---------------------------------------------------------------- placing all paths

  /** The server a rule's paths go to: the host's own, or else the default server. */
  function ServerKey(hosts: set<string>, host: string): string {
    var h := if host == "" then DefServerName else host;
    if h in hosts then h else DefServerName
  }

  /** A path counts if its upstream has a server. */
  predicate Counts(ups: Table, e: Entry) { NameOf(e) in ups && !ups[NameOf(e)].noServer }

  function Place(servers: Hosts, ups: Table, e: Entry): (r: Hosts)
    requires DefServerName in servers
    ensures r.Keys == servers.Keys
  {
    if !Counts(ups, e) then servers else
    var key := ServerKey(servers.Keys, e.host);
    servers[key := PlaceEntry(servers[key], e, ups[NameOf(e)])]
  }

  function PlaceAll(servers: Hosts, ups: Table, entries: seq<Entry>): (r: Hosts)
    requires DefServerName in servers
    ensures r.Keys == servers.Keys
  {
    if entries == [] then servers else
    Place(PlaceAll(servers, ups, entries[..|entries| - 1]), ups, entries[|entries| - 1])
  }

  lemma {:induction false} PlaceAllAppend(servers: Hosts, ups: Table, done: seq<Entry>, more: seq<Entry>, k: nat)
    requires DefServerName in servers && k < |more|
    ensures PlaceAll(servers, ups, done + more[..k + 1]) ==
            Place(PlaceAll(servers, ups, done + more[..k]), ups, more[k])
  {
    var all := done + more[..k + 1];
    assert all[..|all| - 1] == done + more[..k];
  }

  /** The loops over Ingresses, rules and paths.  No upstream lookup fails. */
  method PlaceIngresses(data: seq<Annotated>, ups: Table, servers0: Hosts) returns (servers: Hosts)
    requires DefServerName in servers0
    requires forall name :: UsedBy(data, name) ==> name in ups
    ensures servers == PlaceAll(servers0, ups, Entries(data))
  {
    servers := servers0;
    for i := 0 to |data|
      invariant servers == PlaceAll(servers0, ups, Entries(data[..i]))
    {
      var a := data[i];
      assert data[..i + 1][..i] == data[..i];
      ghost var done := Entries(data[..i]);
      assert done + EntriesOfRules(a, a.ing.rules[..0]) == done;
      for j := 0 to |a.ing.rules|
        invariant servers == PlaceAll(servers0, ups, done + EntriesOfRules(a, a.ing.rules[..j]))
      {
        EntriesWithin(a, j);
        assert forall e :: e in EntriesOfRule(a, a.ing.rules[j]) ==> e in EntriesOf(a);
        assert forall e :: e in EntriesOf(a) ==> Uses(data[i], NameOf(e));
        RulesAppend(done, a, j);
        servers := PlaceRule(a, a.ing.rules[j], ups, servers, servers0, done + EntriesOfRules(a, a.ing.rules[..j]));
      }
      assert a.ing.rules[..|a.ing.rules|] == a.ing.rules;
    }
    assert data[..|data|] == data;
  }

  lemma {:induction false} RulesAppend(done: seq<Entry>, a: Annotated, j: nat)
    requires j < |a.ing.rules|
    ensures done + EntriesOfRules(a, a.ing.rules[..j + 1]) ==
            done + EntriesOfRules(a, a.ing.rules[..j]) + EntriesOfRule(a, a.ing.rules[j])
  {
    assert a.ing.rules[..j + 1][..j] == a.ing.rules[..j];
  }

  lemma EntriesWithin(a: Annotated, j: nat)
    requires j < |a.ing.rules|
    ensures forall e :: e in EntriesOfRule(a, a.ing.rules[j]) ==> e in EntriesOf(a)
  {
    EntriesPrefix(a, j + 1, |a.ing.rules|);
    assert a.ing.rules[..j + 1][..j] == a.ing.rules[..j];
    assert a.ing.rules[..|a.ing.rules|] == a.ing.rules;
  }

  lemma {:induction false} EntriesPrefix(a: Annotated, m: nat, n: nat)
    requires m <= n <= |a.ing.rules|
    ensures forall e :: e in EntriesOfRules(a, a.ing.rules[..m]) ==> e in EntriesOfRules(a, a.ing.rules[..n])
    decreases n
  {
    if m < n {
      EntriesPrefix(a, m, n - 1);
      assert a.ing.rules[..n][..n - 1] == a.ing.rules[..n - 1];
    }
  }

  /** One turn of the path loop. */
  method PlacePath(e: Entry, ups: Table, key: string, s: Hosts) returns (servers: Hosts)
    requires DefServerName in s && key == ServerKey(s.Keys, e.host) && NameOf(e) in ups
    ensures servers == Place(s, ups, e)
  {
    servers := s;
    var backend := ups[UpstreamName(e.a.ing.namespace, e.path.backend)];
    if backend.noServer {
      return;
    }
    var server := PlaceOne(servers[key], e, backend);
    servers := servers[key := server];
  }

  method PlaceRule(a: Annotated, rule: Rule, ups: Table, s: Hosts, ghost servers0: Hosts, ghost done: seq<Entry>)
    returns (servers: Hosts)
    requires DefServerName in servers0 && s == PlaceAll(servers0, ups, done)
    requires forall e :: e in EntriesOfRule(a, rule) ==> NameOf(e) in ups
    ensures servers == PlaceAll(servers0, ups, done + EntriesOfRule(a, rule))
  {
    servers := s;
    ghost var entries := EntriesOfRule(a, rule);
    assert done + entries[..0] == done;
    var host := rule.host;
    if host == "" {
      host := DefServerName;
    }
    var key := if host in servers then host else DefServerName;
    if rule.http.None? {
      assert entries == [];
      return;
    }
    var paths := rule.http.value;
    for k := 0 to |paths|
      invariant servers.Keys == servers0.Keys
      invariant servers == PlaceAll(servers0, ups, done + entries[..k])
    {
      PlaceAllAppend(servers0, ups, done, entries, k);
      assert entries[k] == Entry(a, rule.host, paths[k]) && entries[k] in entries;
      servers := PlacePath(Entry(a, rule.host, paths[k]), ups, key, servers);
    }
    assert entries[..|paths|] == entries;
  }
}
