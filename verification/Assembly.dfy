/** internal/ingress/controller/controller.go (getConfiguration): the configuration handed to a sync.

    The compiled servers get their nginx locations (module Routing), and servers that pass TLS through are
    listed.  Below: every configuration assembled this way is duplicate-free, so that the results of Equality,
    Certificates and Sync apply to it, and a request reaches the upstream of the path that the Ingresses give.
 */
module Assembly {
  import opened Matching
  import opened Strings
  import opened Types
  import opened Sorting
  import opened Upstreams
  import opened Servers
  import opened Placement
  import opened Ownership
  import opened CustomBackends
  import opened Compile
  import Routing
  import Equality
  import Certificates
  import Hostnames
  import Sync
  import DataPlane

  // ---------------------------------------------------------------- locations

  /** The locations updateServerLocations returns. */
  function RewrittenLocations(ls: seq<Location>): seq<Location> { Routing.Results(Routing.Updated(ls)) }

  function RewrittenServer(server: Server): Server { server.(locations := RewrittenLocations(server.locations)) }

  function RewrittenServers(servers: seq<Server>): (r: seq<Server>)
    ensures |r| == |servers|
  {
    seq(|servers|, i requires 0 <= i < |servers| => RewrittenServer(servers[i]))
  }

  /** A server does not lose its "/" location. */
  lemma RewritingKeepsRoot(ls: seq<Location>)
    requires HasRoot(ls)
    ensures HasRoot(RewrittenLocations(ls))
  {
    var k :| 0 <= k < |ls| && ls[k].path == RootLocation;
    Routing.Output(ls);
    var x := Routing.Placed(k, Routing.Rewritten(ls[k]));
    assert x in Routing.Updated(ls);
    var i :| 0 <= i < |Routing.Updated(ls)| && Routing.Updated(ls)[i] == x;
    assert RewrittenLocations(ls)[i].path == RootLocation;
  }

  // ---------------------------------------------------------------- passing TLS through

  function Passthrough(server: Server, l: Location): PassthroughBackend {
    PassthroughBackend(l.service, l.port, l.backend, server.hostname)
  }

  /** The entry for a server: its first "/" location. */
  function PassthroughOf(server: Server): seq<PassthroughBackend> {
    var j := FirstAt(server.locations, RootLocation);
    if server.sslPassthrough && j < |server.locations| then [Passthrough(server, server.locations[j])] else []
  }

  function Passthroughs(servers: seq<Server>): seq<PassthroughBackend> {
    if servers == [] then [] else
    Passthroughs(servers[..|servers| - 1]) + PassthroughOf(servers[|servers| - 1])
  }

  function HostsOf(servers: seq<Server>): set<string> {
    if servers == [] then {} else
    var server := servers[|servers| - 1];
    HostsOf(servers[..|servers| - 1]) + {server.hostname} + (set alias | alias in server.aliases)
  }

  /** The loop over a server's locations. */
  method FindPassthrough(server: Server) returns (found: seq<PassthroughBackend>)
    requires server.sslPassthrough
    ensures found == PassthroughOf(server)
  {
    for j := 0 to |server.locations|
      invariant forall k :: 0 <= k < j ==> server.locations[k].path != RootLocation
    {
      var loc := server.locations[j];
      if loc.path != RootLocation {
        continue;
      }
      FirstAtIs(server.locations, RootLocation, j);
      return [PassthroughBackend(loc.service, loc.port, loc.backend, server.hostname)];
    }
    return [];
  }

  /** The loop over a server's aliases. */
  method InsertAliases(hosts: set<string>, aliases: seq<string>) returns (r: set<string>)
    ensures r == hosts + (set alias | alias in aliases)
  {
    r := hosts;
    for j := 0 to |aliases|
      invariant r == hosts + (set alias | alias in aliases[..j])
    {
      assert aliases[..j + 1] == aliases[..j] + [aliases[j]];
      if aliases[j] !in r {
        r := r + {aliases[j]};
      }
    }
    assert aliases[..|aliases|] == aliases;
  }

  lemma AppendServer(servers: seq<Server>, i: nat)
    requires i < |servers|
    ensures servers[..i + 1] == servers[..i] + [servers[i]]
    ensures HostsOf(servers[..i + 1]) ==
            HostsOf(servers[..i]) + {servers[i].hostname} + (set alias | alias in servers[i].aliases)
    ensures Passthroughs(servers[..i + 1]) == Passthroughs(servers[..i]) + PassthroughOf(servers[i])
  {
    assert servers[..i + 1][..i] == servers[..i];
  }

  /** One turn of the loop over the servers. */
  method CollectServer(server: Server, hosts: set<string>, passUpstreams: seq<PassthroughBackend>)
    returns (h: set<string>, p: seq<PassthroughBackend>)
    ensures h == hosts + {server.hostname} + (set alias | alias in server.aliases)
    ensures p == passUpstreams + PassthroughOf(server)
  {
    h, p := hosts, passUpstreams;
    if server.hostname !in h {
      h := h + {server.hostname};
    }
    h := InsertAliases(h, server.aliases);
    if !server.sslPassthrough {
      return;
    }
    var found := FindPassthrough(server);
    p := p + found;
  }

  /** Everything the configuration is made of besides upstreams and servers. */
  datatype Rest = Rest(tcp: Slice<L4Service>, udp: Slice<L4Service>, checksum: string, certificate: Option<SSLCert>)

  function Assembled(c: Compiled, rest: Rest): Configuration {
    var servers := RewrittenServers(c.servers);
    Configuration(
      Of(c.upstreams), servers, rest.tcp, rest.udp, Passthroughs(servers), rest.checksum, "", rest.certificate)
  }

  method GetConfiguration(c: Compiled, rest: Rest) returns (hosts: set<string>, config: Configuration)
    ensures config == Assembled(c, rest)
    ensures hosts == HostsOf(config.servers)
  {
    var servers, passUpstreams := [], [];
    hosts := {};
    ghost var all := RewrittenServers(c.servers);
    for i := 0 to |c.servers|
      invariant servers == all[..i]
      invariant hosts == HostsOf(all[..i])
      invariant passUpstreams == Passthroughs(all[..i])
    {
      AppendServer(all, i);
      var server := c.servers[i].(locations := RewrittenLocations(c.servers[i].locations));
      assert server == all[i];
      servers := servers + [server];
      hosts, passUpstreams := CollectServer(server, hosts, passUpstreams);
    }
    assert all[..|c.servers|] == all;
    config := Configuration(
      Of(c.upstreams), servers, rest.tcp, rest.udp, passUpstreams, rest.checksum, "", rest.certificate);
  }

  // ---------------------------------------------------------------- no duplicates

  /** The entry is that of a server below n which passes TLS through. */
  ghost predicate ListedBelow(servers: seq<Server>, n: nat, p: PassthroughBackend)
    requires n <= |servers|
  {
    exists i :: 0 <= i < n && servers[i].sslPassthrough && servers[i].hostname == p.hostname
                && p in PassthroughOf(servers[i])
  }

  /** Each server below n that passes TLS through is listed once, and nothing else. */
  ghost predicate ListsBelow(servers: seq<Server>, n: nat, ps: seq<PassthroughBackend>)
    requires n <= |servers|
  {
    && (forall p :: p in ps ==> ListedBelow(servers, n, p))
    && (forall k, l :: 0 <= k < l < |ps| ==> ps[k].hostname != ps[l].hostname)
    && (forall i, p :: 0 <= i < n && p in PassthroughOf(servers[i]) ==> p in ps)
  }

  lemma ListsBelowStep(servers: seq<Server>, n: nat, ps: seq<PassthroughBackend>)
    requires n < |servers| && Certificates.DistinctHostnames(servers) && ListsBelow(servers, n, ps)
    ensures ListsBelow(servers, n + 1, ps + PassthroughOf(servers[n]))
  {
    var more := PassthroughOf(servers[n]);
    var all := ps + more;
    forall p | p in all ensures ListedBelow(servers, n + 1, p) {
      if p in ps {
        assert ListedBelow(servers, n, p);
      }
    }
    forall k, l | 0 <= k < l < |all| ensures all[k].hostname != all[l].hostname {
      assert all[k] == ps[k] && ps[k] in ps;
      assert ListedBelow(servers, n, ps[k]);
      assert l < |ps| ==> all[l] == ps[l];
    }
  }

  lemma {:induction false} PassthroughsByHost(servers: seq<Server>, n: nat)
    requires n <= |servers| && Certificates.DistinctHostnames(servers)
    ensures ListsBelow(servers, n, Passthroughs(servers[..n]))
  {
    if n == 0 {
    } else {
      PassthroughsByHost(servers, n - 1);
      assert servers[..n][..n - 1] == servers[..n - 1];
      ListsBelowStep(servers, n - 1, Passthroughs(servers[..n - 1]));
    }
  }

  lemma DistinctIsNoDuplicates(xs: seq<string>)
    ensures Distinct(xs) <==> Equality.NoDuplicates(xs, Identical)
  {
  }

  lemma RewritingKeepsHostnames(servers: seq<Server>)
    ensures Certificates.DistinctHostnames(servers) ==> Certificates.DistinctHostnames(RewrittenServers(servers))
    ensures forall h :: Certificates.IsHostname(h, RewrittenServers(servers)) <==> Certificates.IsHostname(h, servers)
    ensures Certificates.AliasesAvoidHostnames(servers) ==>
            Certificates.AliasesAvoidHostnames(RewrittenServers(servers))
  {
    var r := RewrittenServers(servers);
    assert forall i :: 0 <= i < |servers| ==>
             r[i].hostname == servers[i].hostname && r[i].aliases == servers[i].aliases;
    forall h ensures Certificates.IsHostname(h, r) <==> Certificates.IsHostname(h, servers) {
      if Certificates.IsHostname(h, servers) {
        var i :| 0 <= i < |servers| && servers[i].hostname == h;
        assert r[i].hostname == h;
      }
    }
  }

  /** Every configuration assembled from compiled servers is duplicate-free and keeps its hostnames distinct
      and free of aliases. */
  lemma AssembledIsDuplicateFree(c: Compiled, rest: Rest)
    requires Fit(c.servers)
    ensures
      var config := Assembled(c, rest);
      && Equality.DuplicateFree(config)
      && Certificates.DistinctHostnames(config.servers) && Certificates.AliasesAvoidHostnames(config.servers)
  {
    var servers := RewrittenServers(c.servers);
    RewritingKeepsHostnames(c.servers);
    PassthroughsByHost(servers, |servers|);
    assert servers[..|servers|] == servers;
    forall i | 0 <= i < |servers| ensures Equality.NoDuplicates(servers[i].aliases, Identical) {
      assert servers[i].aliases == c.servers[i].aliases;
      DistinctIsNoDuplicates(servers[i].aliases);
    }
  }

  /** In every configuration assembled from compiled servers a hostname has the certificate of its own server, and an
      alias has it exactly if no server writes the alias later, or the last one to do so has a certificate for it with
      the same UID. */
  lemma CompiledNamesKeepCertificates(fold: Hostnames.Fold, c: Compiled, rest: Rest, i: nat)
    requires Fit(c.servers) && i < |c.servers|
    ensures
      var entries := Certificates.Table(fold, Assembled(c, rest).servers).servers;
      && c.servers[i].hostname in entries
      && entries[c.servers[i].hostname] == Certificates.Uid(c.servers[i].sslCert)
    ensures forall alias, w :: alias in c.servers[i].aliases && 0 <= w < |c.servers|
                               && Certificates.WritesLast(Assembled(c, rest).servers, w, alias) ==>
              Certificates.KeepsOwnIff(fold, Assembled(c, rest).servers, i, w, alias)
  {
    var servers := Assembled(c, rest).servers;
    AssembledIsDuplicateFree(c, rest);
    Certificates.HostnamesKeepOwnCertificate(fold, servers, i);
    forall alias, w | alias in c.servers[i].aliases && 0 <= w < |c.servers| &&
      Certificates.WritesLast(servers, w, alias)
      ensures Certificates.KeepsOwnIff(fold, servers, i, w, alias)
    {
      Certificates.AliasKeepsOwnCertificateIff(fold, servers, i, w, alias);
    }
  }

  /** A host is listed for passthrough exactly if its server asks for it. */
  lemma PassthroughIffAsked(c: Compiled, rest: Rest, i: nat)
    requires Fit(c.servers) && i < |c.servers|
    ensures c.servers[i].sslPassthrough <==> HostListed(Assembled(c, rest).passthroughBackends, c.servers[i].hostname)
  {
    RewritingKeepsHostnames(c.servers);
    RewritingKeepsRoot(c.servers[i].locations);
    ListedIffPasses(RewrittenServers(c.servers), i);
  }

  ghost predicate HostListed(ps: seq<PassthroughBackend>, host: string) {
    exists p :: p in ps && p.hostname == host
  }

  lemma RootIsPassed(server: Server)
    requires server.sslPassthrough && HasRoot(server.locations)
    ensures |PassthroughOf(server)| == 1 && PassthroughOf(server)[0].hostname == server.hostname
  {
  }

  lemma ListedIffBelow(servers: seq<Server>, ps: seq<PassthroughBackend>, i: nat)
    requires i < |servers| && Certificates.DistinctHostnames(servers) && HasRoot(servers[i].locations)
    requires ListsBelow(servers, |servers|, ps)
    ensures servers[i].sslPassthrough <==> HostListed(ps, servers[i].hostname)
  {
    if servers[i].sslPassthrough {
      RootIsPassed(servers[i]);
      assert PassthroughOf(servers[i])[0] in ps;
    }
    if HostListed(ps, servers[i].hostname) {
      var p :| p in ps && p.hostname == servers[i].hostname;
      assert ListedBelow(servers, |servers|, p);
    }
  }

  lemma {:induction false} ListedIffPasses(servers: seq<Server>, i: nat)
    requires i < |servers| && Certificates.DistinctHostnames(servers) && HasRoot(servers[i].locations)
    ensures servers[i].sslPassthrough <==> HostListed(Passthroughs(servers), servers[i].hostname)
  {
    PassthroughsByHost(servers, |servers|);
    assert servers[..|servers|] == servers;
    ListedIffBelow(servers, Passthroughs(servers), i);
  }

  // ---------------------------------------------------------------- syncs of compiled configurations

  ghost predicate IsAssembled(config: Configuration) {
    exists c: Compiled, rest: Rest :: Fit(c.servers) && config == Assembled(c, rest)
  }

  ghost predicate AssembledInput(input: Sync.Input) {
    IsAssembled(input.desired) && !input.shuttingDown
  }

  /** Over any run of syncs of compiled configurations, whose reloads and pushes may fail, in which torn syncs are tried
      again until they go through: one that returns nil leaves the data plane agreeing with the configuration it
      compiled in all that is compared, and serving it exactly if nothing stale was left.  Without torn syncs, and with
      nothing overlooked since the last reload, that is exactly if it overlooks nothing. */
  lemma {:induction false} CompiledRunsServe(history: seq<Sync.Input>, input: Sync.Input)
    requires AssembledInput(input) && forall i :: 0 <= i < |history| ==> AssembledInput(history[i])
    ensures Sync.Persists(Sync.InitialState, history + [input], None) ==>
              DataPlane.ServedUnlessStale(Sync.Run(Sync.InitialState, history), input)
    ensures Sync.NeverTorn(Sync.InitialState, history)
            && DataPlane.CleanSinceReload(Sync.InitialState, history, true) ==>
              DataPlane.ServedUnlessOverlooked(Sync.Run(Sync.InitialState, history), input)
  {
    AssembledInputsAsk(history + [input]);
    if Sync.Persists(Sync.InitialState, history + [input], None) {
      DataPlane.NilMeansServed(history, input);
    }
    if Sync.NeverTorn(Sync.InitialState, history) && DataPlane.CleanSinceReload(Sync.InitialState, history, true) {
      DataPlane.CleanNilMeansServed(history, input);
    }
  }

  lemma AssembledInputsAsk(inputs: seq<Sync.Input>)
    requires forall i :: 0 <= i < |inputs| ==> AssembledInput(inputs[i])
    ensures Sync.Asks(inputs)
  {
    forall i | 0 <= i < |inputs| ensures Equality.DuplicateFree(inputs[i].desired) && !inputs[i].shuttingDown {
      AssembledInputIsDuplicateFree(inputs[i]);
    }
  }

  lemma AssembledInputIsDuplicateFree(input: Sync.Input)
    requires AssembledInput(input)
    ensures Equality.DuplicateFree(input.desired)
  {
    var c: Compiled, rest: Rest :| Fit(c.servers) && input.desired == Assembled(c, rest);
    AssembledIsDuplicateFree(c, rest);
  }
}
