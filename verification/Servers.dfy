/** internal/ingress/controller/controller.go (createServers): one server per host name, with its root
    location, certificate and aliases.

    The source keeps pointers to servers in a map; each server is reached through its host name only,
    so the map holds the servers themselves here.
 */
module Servers {
  import opened Matching
  import opened Strings
  import opened Types
  import opened Sorting
  import opened Upstreams

  type Hosts = map<string, Server>

  function HostOf(rule: Rule): string { if rule.host == "" then DefServerName else rule.host }

  // ---------------------------------------------------------------- first pass: servers and root locations

  /** locationApplyAnnotations. */
  function ApplyAnnotations(l: Location, anns: Annotations): Location {
    l.(rewriteTarget := anns.rewriteTarget, useRegex := anns.useRegex,
       customHTTPErrors := anns.customHTTPErrors, defaultBackend := anns.defaultBackend,
       options := anns.locationOptions, defaultBackendUpstreamName := DefUpstreamName)
  }

  function Root(backend: string, service: Option<Service>): Location {
    Location(RootLocation, Prefix, "", true, backend, service, Number(0), "", false, Nil, None, "", "", "")
  }

  function DefaultServer(env: Env, du: Backend): Server {
    Server(DefServerName, false, env.defaultCertificate, [Root(du.name, du.service)], [], false, "", "")
  }

  function NewServer(a: Annotated, host: string, un: string): Server {
    var loc := ApplyAnnotations(Root(un, Some(Service("", "", 0, "", ""))), a.anns);
    Server(host, a.anns.sslPassthrough, None, [loc], [], false, a.anns.serverOptions, "")
  }

  /** The default server is there; every server has one location and no aliases yet. */
  ghost predicate HasRoots(servers: Hosts) {
    && DefServerName in servers
    && forall h :: h in servers ==> servers[h].hostname == h && |servers[h].locations| == 1 && |servers[h].aliases| == 0
  }

  /** An Ingress with a catch-all backend lends it to the default server's root location. */
  function CatchAll(loc: Location, a: Annotated, ups: Backend): Location {
    var lent := loc.(backend := ups.name, service := ups.service);
    if loc.isDefBackend && a.ing.rules == [] then
      var applied := ApplyAnnotations(lent.(isDefBackend := false), a.anns);
      applied.(rewriteTarget := loc.rewriteTarget, useRegex := loc.useRegex)
    else lent
  }

  function LendCatchAll(servers: Hosts, a: Annotated, ups: Table): (r: Hosts)
    requires HasRoots(servers)
    ensures HasRoots(r) && r.Keys == servers.Keys
  {
    if a.ing.backend.Some? && DefaultNameOf(a) in ups then
      var server := servers[DefServerName];
      servers[DefServerName := server.(locations := [CatchAll(server.locations[0], a, ups[DefaultNameOf(a)])])]
    else servers
  }

  function DefaultFor(a: Annotated, ups: Table, du: Backend): string {
    if a.ing.backend.Some? && DefaultNameOf(a) in ups then ups[DefaultNameOf(a)].name else du.name
  }

  function AddRuleServer(servers: Hosts, a: Annotated, un: string, rule: Rule): Hosts {
    if HostOf(rule) in servers then servers else servers[HostOf(rule) := NewServer(a, HostOf(rule), un)]
  }

  function AddRuleServers(servers: Hosts, a: Annotated, un: string, rules: seq<Rule>): (r: Hosts)
    ensures HasRoots(servers) ==> HasRoots(r)
  {
    if rules == [] then servers else
    AddRuleServer(AddRuleServers(servers, a, un, rules[..|rules| - 1]), a, un, rules[|rules| - 1])
  }

  function FirstPass(env: Env, data: seq<Annotated>, ups: Table, du: Backend): (r: Hosts)
    ensures HasRoots(r)
  {
    if data == [] then map[DefServerName := DefaultServer(env, du)] else
    var servers, a := FirstPass(env, data[..|data| - 1], ups, du), data[|data| - 1];
    if a.anns.canary then servers
    else AddRuleServers(LendCatchAll(servers, a, ups), a, DefaultFor(a, ups, du), a.ing.rules)
  }

  method CreateHosts(env: Env, data: seq<Annotated>, ups: Table, du: Backend) returns (servers: Hosts)
    ensures servers == FirstPass(env, data, ups, du)
  {
    servers := map[DefServerName := DefaultServer(env, du)];
    for i := 0 to |data|
      invariant servers == FirstPass(env, data[..i], ups, du)
    {
      var a := data[i];
      assert data[..i + 1][..i] == data[..i];
      if a.anns.canary {
        continue;
      }
      var un;
      servers, un := LendDefault(a, ups, du, servers);
      servers := AddHosts(a, un, servers);
    }
    assert data[..|data|] == data;
  }

  /** The part for an Ingress with a catch-all backend. */
  method LendDefault(a: Annotated, ups: Table, du: Backend, s: Hosts) returns (servers: Hosts, un: string)
    requires HasRoots(s)
    ensures servers == LendCatchAll(s, a, ups) && un == DefaultFor(a, ups, du)
  {
    servers, un := s, du.name;
    if a.ing.backend.Some? {
      var defUpstream := UpstreamName(a.ing.namespace, a.ing.backend.value);
      if defUpstream in ups {
        un := ups[defUpstream].name;
        var server := servers[DefServerName];
        var lent := CatchAll(server.locations[0], a, ups[defUpstream]);
        servers := servers[DefServerName := server.(locations := [lent])];
      }
    }
  }

  /** The loop over the rules of an Ingress. */
  method AddHosts(a: Annotated, un: string, s: Hosts) returns (servers: Hosts)
    ensures servers == AddRuleServers(s, a, un, a.ing.rules)
  {
    servers := s;
    for j := 0 to |a.ing.rules|
      invariant servers == AddRuleServers(s, a, un, a.ing.rules[..j])
    {
      assert a.ing.rules[..j + 1][..j] == a.ing.rules[..j];
      var host := HostOf(a.ing.rules[j]);
      if host in servers {
        continue;
      }
      servers := servers[host := NewServer(a, host, un)];
    }
    assert a.ing.rules[..|a.ing.rules|] == a.ing.rules;
  }

  // ---------------------------------------------------------------- second pass: aliases and certificates

  /** Servers, and the aliases collected for each host. */
  datatype Configured = Configured(servers: Hosts, allAliases: map<string, seq<string>>)

  function ConfigureRule(c: Configured, env: Env, a: Annotated, rule: Rule): Configured {
    var host := HostOf(rule);
    if host !in c.servers then c else
    var server := c.servers[host];
    var unset := |server.aliases| == 0;
    var server1 := if unset then server.(aliases := a.anns.aliases) else server;
    var allAliases :=
      if unset && (host !in c.allAliases || |c.allAliases[host]| == 0)
      then c.allAliases[host := a.anns.aliases] else c.allAliases;
    var server2 :=
      if server1.sslCert.Some? || a.ing.tls == [] then server1
      else server1.(sslCert := Some(env.certificate(host, a.ing)));
    Configured(c.servers[host := server2], allAliases)
  }

  function ConfigureRules(c: Configured, env: Env, a: Annotated, rules: seq<Rule>): Configured {
    if rules == [] then c else
    ConfigureRule(ConfigureRules(c, env, a, rules[..|rules| - 1]), env, a, rules[|rules| - 1])
  }

  function SecondPass(c: Configured, env: Env, data: seq<Annotated>): Configured {
    if data == [] then c else
    var before, a := SecondPass(c, env, data[..|data| - 1]), data[|data| - 1];
    if a.anns.canary then before else ConfigureRules(before, env, a, a.ing.rules)
  }

  /** The pass changes aliases and certificates only, and keeps the two records of aliases alike. */
  ghost predicate Follows(c: Configured, servers: Hosts) {
    && c.servers.Keys == servers.Keys
    && (forall h :: h in servers ==>
          c.servers[h].hostname == servers[h].hostname && c.servers[h].locations == servers[h].locations)
    && (forall h :: h in c.allAliases ==> h in c.servers && c.servers[h].aliases == c.allAliases[h])
    && (forall h :: h in c.servers && h !in c.allAliases ==> |c.servers[h].aliases| == 0)
  }

  lemma {:induction false} ConfigureRulesFollows(c: Configured, env: Env, a: Annotated, rules: seq<Rule>,
                                                 servers: Hosts)
    requires Follows(c, servers)
    ensures Follows(ConfigureRules(c, env, a, rules), servers)
  {
    if rules == [] {
    } else {
      ConfigureRulesFollows(c, env, a, rules[..|rules| - 1], servers);
    }
  }

  lemma {:induction false} ConfigureRulesKeys(c: Configured, env: Env, a: Annotated, rules: seq<Rule>)
    ensures ConfigureRules(c, env, a, rules).servers.Keys == c.servers.Keys
  {
    if rules == [] {
    } else {
      ConfigureRulesKeys(c, env, a, rules[..|rules| - 1]);
    }
  }

  lemma {:induction false} SecondPassFollows(c: Configured, env: Env, data: seq<Annotated>, servers: Hosts)
    requires Follows(c, servers)
    ensures Follows(SecondPass(c, env, data), servers)
  {
    if data == [] {
    } else {
      SecondPassFollows(c, env, data[..|data| - 1], servers);
      var a := data[|data| - 1];
      if !a.anns.canary {
        ConfigureRulesFollows(SecondPass(c, env, data[..|data| - 1]), env, a, a.ing.rules, servers);
      }
    }
  }

  lemma {:induction false} RuleHostsAdded(servers: Hosts, a: Annotated, un: string, rules: seq<Rule>)
    ensures var after := AddRuleServers(servers, a, un, rules);
            && servers.Keys <= after.Keys
            && forall i :: 0 <= i < |rules| ==> HostOf(rules[i]) in after
  {
    if rules == [] {
    } else {
      RuleHostsAdded(servers, a, un, rules[..|rules| - 1]);
    }
  }

  /** Every host named by an Ingress that is not a canary has a server. */
  lemma {:induction false} HostsAdded(env: Env, data: seq<Annotated>, ups: Table, du: Backend)
    ensures var servers := FirstPass(env, data, ups, du);
            forall i, j :: 0 <= i < |data| && !data[i].anns.canary && 0 <= j < |data[i].ing.rules| ==>
              HostOf(data[i].ing.rules[j]) in servers
  {
    if data == [] {
    } else {
      var init, a := data[..|data| - 1], data[|data| - 1];
      HostsAdded(env, init, ups, du);
      if !a.anns.canary {
        RuleHostsAdded(LendCatchAll(FirstPass(env, init, ups, du), a, ups), a, DefaultFor(a, ups, du), a.ing.rules);
      }
      var servers := FirstPass(env, data, ups, du);
      forall i, j | 0 <= i < |data| && !data[i].anns.canary && 0 <= j < |data[i].ing.rules|
        ensures HostOf(data[i].ing.rules[j]) in servers
      {
        if i < |init| {
          assert init[i] == data[i];
          assert HostOf(init[i].ing.rules[j]) in FirstPass(env, init, ups, du);
        }
      }
    }
  }

  // ---------------------------------------------------------------- third pass: cleaning aliases

  /** The aliases that are kept: not the host itself, not another server's name, and each only once. */
  function KeptAliases(aliases: seq<string>, host: string, hosts: set<string>): seq<string> {
    if aliases == [] then [] else
    var kept, alias := KeptAliases(aliases[..|aliases| - 1], host, hosts), aliases[|aliases| - 1];
    if alias == host || alias in hosts || alias in kept then kept else kept + [alias]
  }

  function CleanAliases(aliases: seq<string>, host: string, hosts: set<string>): seq<string> {
    Sort(KeptAliases(aliases, host, hosts), Less)
  }

  function CleanServer(server: Server, host: string, hosts: set<string>): Server {
    server.(aliases := CleanAliases(server.aliases, host, hosts))
  }

  function ThirdPass(servers: Hosts): (r: Hosts)
    ensures r.Keys == servers.Keys
  {
    map h | h in servers :: CleanServer(servers[h], h, servers.Keys)
  }

  /** The servers as createServers returns them. */
  function CreatedServers(env: Env, data: seq<Annotated>, ups: Table, du: Backend): Hosts {
    ThirdPass(SecondPass(Configured(FirstPass(env, data, ups, du), map[]), env, data).servers)
  }

  method CreateServers(env: Env, data: seq<Annotated>, ups: Table, du: Backend) returns (servers: Hosts)
    ensures servers == CreatedServers(env, data, ups, du)
  {
    servers := CreateHosts(env, data, ups, du);
    ghost var base := servers;
    ghost var start := Configured(base, map[]);
    HostsAdded(env, data, ups, du);
    var c := Configured(servers, map[]);
    for i := 0 to |data|
      invariant c == SecondPass(start, env, data[..i])
    {
      assert data[..i + 1][..i] == data[..i];
      if data[i].anns.canary {
        continue;
      }
      SecondPassFollows(start, env, data[..i], base);
      c := ConfigureIngress(env, data[i], c);
    }
    assert data[..|data|] == data;
    SecondPassFollows(start, env, data, base);
    servers := CleanAllAliases(c.servers, c.allAliases, base);
  }

  method ConfigureHost(env: Env, a: Annotated, rule: Rule, c: Configured) returns (r: Configured)
    requires HostOf(rule) in c.servers
    ensures r == ConfigureRule(c, env, a, rule)
  {
    var host := HostOf(rule);
    var server, allAliases := c.servers[host], c.allAliases;
    if |server.aliases| == 0 {
      server := server.(aliases := a.anns.aliases);
      if host !in allAliases || |allAliases[host]| == 0 {
        allAliases := allAliases[host := a.anns.aliases];
      }
    }
    if server.sslCert.None? && a.ing.tls != [] {
      server := server.(sslCert := Some(env.certificate(host, a.ing)));
    }
    return Configured(c.servers[host := server], allAliases);
  }

  /** The rule loop of the second pass. */
  method ConfigureIngress(env: Env, a: Annotated, c: Configured) returns (r: Configured)
    requires forall j :: 0 <= j < |a.ing.rules| ==> HostOf(a.ing.rules[j]) in c.servers
    ensures r == ConfigureRules(c, env, a, a.ing.rules)
  {
    r := c;
    var rules := a.ing.rules;
    for j := 0 to |rules|
      invariant r == ConfigureRules(c, env, a, rules[..j])
    {
      assert rules[..j + 1][..j] == rules[..j];
      ConfigureRulesKeys(c, env, a, rules[..j]);
      r := ConfigureHost(env, a, rules[j], r);
    }
    assert rules[..|rules|] == rules;
  }

  method UniqueAliases(aliases: seq<string>, host: string, hosts: set<string>) returns (uniqAliases: seq<string>)
    ensures uniqAliases == KeptAliases(aliases, host, hosts)
  {
    uniqAliases := [];
    for j := 0 to |aliases|
      invariant uniqAliases == KeptAliases(aliases[..j], host, hosts)
    {
      assert aliases[..j + 1][..j] == aliases[..j];
      if aliases[j] == host {
        continue;
      }
      if aliases[j] in hosts {
        continue;
      }
      if aliases[j] in uniqAliases {
        continue;
      }
      uniqAliases := uniqAliases + [aliases[j]];
    }
    assert aliases[..|aliases|] == aliases;
  }

  method CleanHost(server: Server, host: string, hosts: set<string>, aliases: seq<string>) returns (r: Server)
    requires aliases == server.aliases
    ensures r == CleanServer(server, host, hosts)
  {
    var uniqAliases := UniqueAliases(aliases, host, hosts);
    r := server.(aliases := Sort(uniqAliases, Less));
  }

  lemma NothingToClean(server: Server, host: string, hosts: set<string>)
    requires |server.aliases| == 0
    ensures CleanServer(server, host, hosts) == server
  {
    assert server.aliases == [];
  }

  /** The last loop, over the hosts with aliases in any order. */
  method CleanAllAliases(s: Hosts, allAliases: map<string, seq<string>>, ghost base: Hosts) returns (servers: Hosts)
    requires Follows(Configured(s, allAliases), base)
    ensures servers == ThirdPass(s)
  {
    servers := s;
    var todo := allAliases.Keys;
    CleanedAtFirst(s, allAliases);
    while todo != {}
      invariant todo <= allAliases.Keys
      invariant CleanedBut(s, todo, servers)
      decreases todo
    {
      var host :| host in todo;
      todo := todo - {host};
      if host in servers {
        var server := CleanHost(servers[host], host, servers.Keys, allAliases[host]);
        servers := servers[host := server];
      }
    }
  }

  /** All servers are clean but those of the hosts that are still to do. */
  ghost predicate CleanedBut(s: Hosts, todo: set<string>, servers: Hosts) {
    && servers.Keys == s.Keys
    && forall h :: h in s ==> servers[h] == if h in todo then s[h] else CleanServer(s[h], h, s.Keys)
  }

  /** Hosts without aliases need no cleaning. */
  lemma CleanedAtFirst(s: Hosts, allAliases: map<string, seq<string>>)
    requires forall h :: h in s && h !in allAliases ==> |s[h].aliases| == 0
    ensures CleanedBut(s, allAliases.Keys, s)
  {
    forall h | h in s && h !in allAliases ensures s[h] == CleanServer(s[h], h, s.Keys) {
      NothingToClean(s[h], h, s.Keys);
    }
  }

  // ---------------------------------------------------------------- what the servers are like

  lemma {:induction false} KeptAliasesAre(aliases: seq<string>, host: string, hosts: set<string>)
    ensures Distinct(KeptAliases(aliases, host, hosts))
    ensures forall x :: x in KeptAliases(aliases, host, hosts) <==> x in aliases && x != host && x !in hosts
  {
    if aliases == [] {
    } else {
      KeptAliasesAre(aliases[..|aliases| - 1], host, hosts);
      assert aliases == aliases[..|aliases| - 1] + [aliases[|aliases| - 1]];
    }
  }

  /** Of the aliases asked for, exactly those that are no server's name, in a list without repetitions. */
  lemma CleanAliasesAre(aliases: seq<string>, host: string, hosts: set<string>)
    ensures Distinct(CleanAliases(aliases, host, hosts))
    ensures forall x :: x in CleanAliases(aliases, host, hosts) <==> x in aliases && x != host && x !in hosts
  {
    KeptAliasesAre(aliases, host, hosts);
    SortKeepsDistinct(KeptAliases(aliases, host, hosts), Less);
    SortKeepsMembers(KeptAliases(aliases, host, hosts), Less);
  }

  /** What later steps rely on: servers are filed under their names, aliases clash with no server. */
  ghost predicate CleanHosts(servers: Hosts) {
    && DefServerName in servers
    && forall h :: h in servers ==>
         && servers[h].hostname == h
         && Distinct(servers[h].aliases)
         && forall alias :: alias in servers[h].aliases ==> alias !in servers
  }

  lemma {:induction false} CreatedServersAreClean(env: Env, data: seq<Annotated>, ups: Table, du: Backend)
    ensures CleanHosts(CreatedServers(env, data, ups, du))
    ensures CreatedServers(env, data, ups, du).Keys == FirstPass(env, data, ups, du).Keys
    ensures forall h :: h in FirstPass(env, data, ups, du) ==>
              CreatedServers(env, data, ups, du)[h].locations == FirstPass(env, data, ups, du)[h].locations
  {
    var base := FirstPass(env, data, ups, du);
    var c := SecondPass(Configured(base, map[]), env, data);
    SecondPassFollows(Configured(base, map[]), env, data, base);
    var servers := CreatedServers(env, data, ups, du);
    forall h | h in servers
      ensures servers[h].hostname == h && Distinct(servers[h].aliases)
      ensures forall alias :: alias in servers[h].aliases ==> alias !in servers
    {
      CleanAliasesAre(c.servers[h].aliases, h, c.servers.Keys);
    }
  }

  // ---------------------------------------------------------------- which Ingress a server goes back to

  predicate HasRuleOn(rules: seq<Rule>, h: string) { exists j :: 0 <= j < |rules| && HostOf(rules[j]) == h }

  lemma HasRuleAppend(rules: seq<Rule>, h: string)
    requires rules != []
    ensures HasRuleOn(rules, h) <==> HasRuleOn(rules[..|rules| - 1], h) || HostOf(rules[|rules| - 1]) == h
  {
    var init := rules[..|rules| - 1];
    if HasRuleOn(init, h) {
      var j :| 0 <= j < |init| && HostOf(init[j]) == h;
      assert rules[j] == init[j];
    }
    if HasRuleOn(rules, h) {
      var j :| 0 <= j < |rules| && HostOf(rules[j]) == h;
      assert j < |init| ==> init[j] == rules[j];
    }
  }

  /** A rule of an Ingress that is not a canary. */
  predicate Mentions(a: Annotated, h: string) { !a.anns.canary && HasRuleOn(a.ing.rules, h) }

  lemma {:induction false} RuleServersAre(servers: Hosts, a: Annotated, un: string, rules: seq<Rule>, h: string)
    ensures
      var after := AddRuleServers(servers, a, un, rules);
      if h in servers then h in after && after[h] == servers[h]
      else if HasRuleOn(rules, h) then h in after && after[h] == NewServer(a, h, un)
      else h !in after
  {
    if rules == [] {
    } else {
      RuleServersAre(servers, a, un, rules[..|rules| - 1], h);
      HasRuleAppend(rules, h);
    }
  }

  /** The server of a host is made by the earliest Ingress, canaries aside, with a rule for it. */
  lemma {:induction false} FirstIngressMakesServer(env: Env, data: seq<Annotated>, ups: Table, du: Backend, h: string,
                                                   i: nat)
    requires h != DefServerName && i <= |data|
    requires forall k :: 0 <= k < i ==> !Mentions(data[k], h)
    requires i < |data| ==> Mentions(data[i], h)
    ensures
      var servers := FirstPass(env, data, ups, du);
      if i == |data| then h !in servers
      else h in servers && servers[h] == NewServer(data[i], h, DefaultFor(data[i], ups, du))
    decreases data
  {
    if data == [] {
    } else {
      var init, a := data[..|data| - 1], data[|data| - 1];
      FirstIngressMakesServer(env, init, ups, du, h, if i < |init| then i else |init|);
      if !a.anns.canary {
        var lent := LendCatchAll(FirstPass(env, init, ups, du), a, ups);
        assert forall k :: k in lent && k != DefServerName ==> lent[k] == FirstPass(env, init, ups, du)[k];
        RuleServersAre(lent, a, DefaultFor(a, ups, du), a.ing.rules, h);
      }
    }
  }

  /** A rule of an Ingress with a TLS section that is not a canary. */
  predicate Certifies(a: Annotated, h: string) { Mentions(a, h) && a.ing.tls != [] }

  predicate GivesAliases(a: Annotated, h: string) { Mentions(a, h) && |a.anns.aliases| > 0 }

  lemma {:induction false} ConfigureRulesGives(c: Configured, env: Env, a: Annotated, rules: seq<Rule>, h: string)
    requires h in c.servers
    ensures
      var after := ConfigureRules(c, env, a, rules);
      && h in after.servers
      && after.servers[h].sslCert ==
         (if c.servers[h].sslCert.None? && a.ing.tls != [] && HasRuleOn(rules, h) then Some(env.certificate(h, a.ing))
          else c.servers[h].sslCert)
      && after.servers[h].aliases ==
         (if |c.servers[h].aliases| == 0 && |a.anns.aliases| > 0 && HasRuleOn(rules, h) then a.anns.aliases
          else c.servers[h].aliases)
  {
    if rules == [] {
    } else {
      ConfigureRulesGives(c, env, a, rules[..|rules| - 1], h);
      HasRuleAppend(rules, h);
      var before := ConfigureRules(c, env, a, rules[..|rules| - 1]);
      assert |before.servers[h].aliases| == 0 && |a.anns.aliases| == 0 ==> before.servers[h].aliases == a.anns.aliases;
    }
  }

  lemma {:induction false} SecondPassCertificate(c: Configured, env: Env, data: seq<Annotated>, h: string, i: nat)
    requires h in c.servers && i <= |data|
    requires forall k :: 0 <= k < i ==> !Certifies(data[k], h)
    requires i < |data| ==> Certifies(data[i], h)
    ensures
      var after := SecondPass(c, env, data);
      && h in after.servers
      && after.servers[h].sslCert ==
         (if c.servers[h].sslCert.None? && i < |data| then Some(env.certificate(h, data[i].ing))
          else c.servers[h].sslCert)
    decreases data
  {
    if data == [] {
    } else {
      var init, a := data[..|data| - 1], data[|data| - 1];
      SecondPassCertificate(c, env, init, h, if i < |init| then i else |init|);
      if !a.anns.canary {
        ConfigureRulesGives(SecondPass(c, env, init), env, a, a.ing.rules, h);
      }
    }
  }

  lemma {:induction false} SecondPassAliases(c: Configured, env: Env, data: seq<Annotated>, h: string, i: nat)
    requires h in c.servers && |c.servers[h].aliases| == 0 && i <= |data|
    requires forall k :: 0 <= k < i ==> !GivesAliases(data[k], h)
    requires i < |data| ==> GivesAliases(data[i], h)
    ensures
      var after := SecondPass(c, env, data);
      && h in after.servers
      && after.servers[h].aliases == (if i < |data| then data[i].anns.aliases else c.servers[h].aliases)
    decreases data
  {
    if data == [] {
    } else {
      var init, a := data[..|data| - 1], data[|data| - 1];
      SecondPassAliases(c, env, init, h, if i < |init| then i else |init|);
      if !a.anns.canary {
        ConfigureRulesGives(SecondPass(c, env, init), env, a, a.ing.rules, h);
      }
    }
  }

  /** A server has the certificate that the earliest Ingress with a TLS section and a rule for its host brings.  The
      default server keeps the default certificate if there is one, and without such an Ingress there is none. */
  lemma FirstTLSGivesCertificate(env: Env, data: seq<Annotated>, ups: Table, du: Backend, h: string, i: nat)
    requires h in CreatedServers(env, data, ups, du) && i <= |data|
    requires forall k :: 0 <= k < i ==> !Certifies(data[k], h)
    requires i < |data| ==> Certifies(data[i], h)
    ensures
      CreatedServers(env, data, ups, du)[h].sslCert ==
      if h == DefServerName && env.defaultCertificate.Some? then env.defaultCertificate
      else if i < |data| then Some(env.certificate(h, data[i].ing)) else None
  {
    var base := FirstPass(env, data, ups, du);
    CreatedServersAreClean(env, data, ups, du);
    FirstPassCertificates(env, data, ups, du, h);
    SecondPassCertificate(Configured(base, map[]), env, data, h, i);
  }

  lemma {:induction false} FirstPassCertificates(env: Env, data: seq<Annotated>, ups: Table, du: Backend, h: string)
    requires h in FirstPass(env, data, ups, du)
    ensures FirstPass(env, data, ups, du)[h].sslCert == if h == DefServerName then env.defaultCertificate else None
  {
    if data == [] {
    } else {
      var init, a := data[..|data| - 1], data[|data| - 1];
      var before := FirstPass(env, init, ups, du);
      if h in before {
        FirstPassCertificates(env, init, ups, du, h);
      }
      if !a.anns.canary {
        RuleServersAre(LendCatchAll(before, a, ups), a, DefaultFor(a, ups, du), a.ing.rules, h);
      }
    }
  }

  /** A server has the aliases of the earliest Ingress that gives any with a rule for its host, without those that are
      hostnames. */
  lemma FirstAliasesWin(env: Env, data: seq<Annotated>, ups: Table, du: Backend, h: string, i: nat)
    requires h in CreatedServers(env, data, ups, du) && i <= |data|
    requires forall k :: 0 <= k < i ==> !GivesAliases(data[k], h)
    requires i < |data| ==> GivesAliases(data[i], h)
    ensures
      var servers := CreatedServers(env, data, ups, du);
      forall x :: x in servers[h].aliases <==> i < |data| && x in data[i].anns.aliases && x !in servers
  {
    var base := FirstPass(env, data, ups, du);
    CreatedServersAreClean(env, data, ups, du);
    SecondPassFollows(Configured(base, map[]), env, data, base);
    SecondPassAliases(Configured(base, map[]), env, data, h, i);
    var asked := SecondPass(Configured(base, map[]), env, data).servers[h].aliases;
    CleanAliasesAre(asked, h, base.Keys);
  }

  // ---------------------------------------------------------------- where root locations lead

  /** The name is the default upstream's or one that an Ingress other than a canary uses. */
  ghost predicate Primary(data: seq<Annotated>, name: string) {
    name == DefUpstreamName || exists i :: 0 <= i < |data| && !data[i].anns.canary && Uses(data[i], name)
  }

  ghost predicate LeadToPrimaries(data: seq<Annotated>, servers: Hosts) {
    forall h, l :: h in servers && l in servers[h].locations ==> Primary(data, l.backend)
  }

  /** The name is the default upstream's or the catch-all backend of an Ingress other than a canary. */
  ghost predicate CatchAllOf(data: seq<Annotated>, name: string) {
    name == DefUpstreamName || exists i :: 0 <= i < |data| && !data[i].anns.canary && NamesCatchAll(data[i], name)
  }

  ghost predicate LeadToCatchAlls(data: seq<Annotated>, servers: Hosts) {
    forall h, l :: h in servers && l in servers[h].locations ==> CatchAllOf(data, l.backend)
  }

  lemma {:induction false} AddRuleServersLead(data: seq<Annotated>, servers: Hosts, a: Annotated, un: string,
                                              rules: seq<Rule>)
    requires LeadToCatchAlls(data, servers) && CatchAllOf(data, un)
    ensures LeadToCatchAlls(data, AddRuleServers(servers, a, un, rules))
  {
    if rules == [] {
    } else {
      AddRuleServersLead(data, servers, a, un, rules[..|rules| - 1]);
    }
  }

  /** Root locations lead to catch-all backends, or to the default upstream. */
  lemma {:induction false} RootsLeadToCatchAlls(env: Env, data: seq<Annotated>, n: nat, ups: Table, du: Backend)
    requires n <= |data| && du.name == DefUpstreamName
    requires forall k :: k in ups ==> ups[k].name == k
    ensures LeadToCatchAlls(data, FirstPass(env, data[..n], ups, du))
  {
    if n == 0 {
    } else {
      RootsLeadToCatchAlls(env, data, n - 1, ups, du);
      assert data[..n][..n - 1] == data[..n - 1];
      var servers, a := FirstPass(env, data[..n - 1], ups, du), data[n - 1];
      if !a.anns.canary {
        if a.ing.backend.Some? {
          assert NamesCatchAll(data[n - 1], DefaultNameOf(a));
        }
        AddRuleServersLead(data, LendCatchAll(servers, a, ups), a, DefaultFor(a, ups, du), a.ing.rules);
      }
    }
  }

  lemma {:induction false} RootsLeadToPrimaries(env: Env, data: seq<Annotated>, ups: Table, du: Backend)
    requires du.name == DefUpstreamName && forall k :: k in ups ==> ups[k].name == k
    ensures LeadToPrimaries(data, FirstPass(env, data, ups, du))
  {
    RootsLeadToCatchAlls(env, data, |data|, ups, du);
    assert data[..|data|] == data;
    forall name | CatchAllOf(data, name) ensures Primary(data, name) {
      if name != DefUpstreamName {
        var i :| 0 <= i < |data| && !data[i].anns.canary && NamesCatchAll(data[i], name);
        assert Uses(data[i], name);
      }
    }
  }
}
