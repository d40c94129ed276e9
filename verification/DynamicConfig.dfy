/** internal/ingress/controller/nginx.go (clearCertificates, clearL4serviceEndpoints,
    IsDynamicConfigurationEnough): the part of a configuration that only a reload can change.

    Configurations and servers are reached through pointers here, because the point of the
    copying in the source is that the two configurations being compared stay as they are.
 */
module DynamicConfig {
  import opened Matching
  import opened Types
  import opened Equality

  // ---------------------------------------------------------------- erasing the dynamic part

  function ClearL4Service(s: L4Service): L4Service {
    s.(endpoints := Of([]), service := None)
  }

  function ClearedL4(services: seq<L4Service>): (r: seq<L4Service>)
    ensures |r| == |services|
  {
    seq(|services|, i requires 0 <= i < |services| => ClearL4Service(services[i]))
  }

  /** The cleared list is built by appending to a nil slice, so an empty list becomes nil. */
  function ClearL4(services: Slice<L4Service>): Slice<L4Service> {
    if services.Items() == [] then Nil else Of(ClearedL4(services.Items()))
  }

  function ClearedServers(servers: seq<Server>): (r: seq<Server>)
    ensures |r| == |servers|
  {
    seq(|servers|, i requires 0 <= i < |servers| => servers[i].(sslCert := None))
  }

  /** What is left once backends, L4 endpoints and server certificates are erased. */
  function Static(c: Configuration): Configuration {
    c.(backends := Of([]),
       tcpEndpoints := ClearL4(c.tcpEndpoints),
       udpEndpoints := ClearL4(c.udpEndpoints),
       servers := ClearedServers(c.servers))
  }

  predicate DynamicEnough(running: Configuration, desired: Configuration) {
    EqualConfiguration(Static(running), Static(desired))
  }

  // ---------------------------------------------------------------- the code, on pointers

  class ServerObject {
    var value: Server
    constructor (s: Server)
      ensures value == s
    {
      value := s;
    }
  }

  class ConfigurationObject {
    var servers: seq<ServerObject>
    var rest: Configuration  // every field but the servers

    constructor Copy(from: ConfigurationObject)
      ensures servers == from.servers && rest == from.rest
    {
      servers, rest := from.servers, from.rest;
    }

    ghost function ServerValues(): (r: seq<Server>)
      reads this, servers
      ensures |r| == |servers|
    {
      seq(|servers|, i requires 0 <= i < |servers| reads this, servers => servers[i].value)
    }

    ghost function Value(): Configuration
      reads this, servers
    {
      rest.(servers := ServerValues())
    }
  }

  /** clearCertificates: copies of the servers, without certificates, replace them in config. */
  method ClearCertificates(config: ConfigurationObject)
    modifies config`servers
    ensures fresh(config.servers)
    ensures config.ServerValues() == ClearedServers(old(config.ServerValues()))
  {
    var clearedServers: seq<ServerObject> := [];
    for i := 0 to |config.servers|
      invariant |clearedServers| == i && fresh(clearedServers)
      invariant config.servers == old(config.servers)
      invariant forall k :: 0 <= k < i ==> clearedServers[k].value == old(config.servers[k].value).(sslCert := None)
    {
      var copyOfServer := new ServerObject(config.servers[i].value.(sslCert := None));
      clearedServers := clearedServers + [copyOfServer];
    }
    config.servers := clearedServers;
  }

  method ClearServices(services: Slice<L4Service>) returns (cleared: Slice<L4Service>)
    ensures cleared == ClearL4(services)
  {
    cleared := Nil;
    var items := services.Items();
    for i := 0 to |items|
      invariant cleared == if i == 0 then Nil else Of(ClearedL4(items[..i]))
    {
      var copyOfService := L4Service(items[i].port, items[i].backend, Of([]), None);
      cleared := Of(cleared.Items() + [copyOfService]);
      assert cleared.items == ClearedL4(items[..i + 1]);
    }
    assert items[..|items|] == items;
  }

  /** clearL4serviceEndpoints. */
  method ClearL4serviceEndpoints(config: ConfigurationObject)
    modifies config`rest
    ensures config.rest == old(config.rest).(tcpEndpoints := ClearL4(old(config.rest).tcpEndpoints),
                                             udpEndpoints := ClearL4(old(config.rest).udpEndpoints))
  {
    var tcp := ClearServices(config.rest.tcpEndpoints);
    var udp := ClearServices(config.rest.udpEndpoints);
    config.rest := config.rest.(tcpEndpoints := tcp, udpEndpoints := udp);
  }

  /** A copy of a configuration with its dynamic part erased; the original is not in any frame. */
  method StaticCopy(config: ConfigurationObject) returns (copy: ConfigurationObject)
    ensures fresh(copy) && fresh(copy.servers)
    ensures copy.Value() == Static(config.Value())
  {
    copy := new ConfigurationObject.Copy(config);
    copy.rest := copy.rest.(backends := Of([]));
    ClearL4serviceEndpoints(copy);
    ClearCertificates(copy);
  }

  /** Nothing is modified: neither configuration, nor any server they point to. */
  method IsDynamicConfigurationEnough(running: ConfigurationObject, pcfg: ConfigurationObject) returns (enough: bool)
    ensures enough == DynamicEnough(running.Value(), pcfg.Value())
  {
    var copyOfRunningConfig := StaticCopy(running);
    var copyOfPcfg := StaticCopy(pcfg);
    var a, b := [], [];
    for i := 0 to |copyOfRunningConfig.servers|
      invariant |a| == i && forall k :: 0 <= k < i ==> a[k] == copyOfRunningConfig.servers[k].value
    {
      a := a + [copyOfRunningConfig.servers[i].value];
    }
    for i := 0 to |copyOfPcfg.servers|
      invariant |b| == i && forall k :: 0 <= k < i ==> b[k] == copyOfPcfg.servers[k].value
    {
      b := b + [copyOfPcfg.servers[i].value];
    }
    assert a == copyOfRunningConfig.ServerValues() && b == copyOfPcfg.ServerValues();
    enough := ConfigurationEqual(copyOfRunningConfig.rest.(servers := a), copyOfPcfg.rest.(servers := b));
  }

  // ---------------------------------------------------------------- erasing respects Equal

  lemma ClearL4RespectsSame(a: Slice<L4Service>, b: Slice<L4Service>)
    requires Same(a, b, EqualL4Service)
    ensures Same(ClearL4(a), ClearL4(b), EqualL4Service)
  {
    L4ServiceEquivalence();
    if a.Of? {
      GreedyDecidesPairing(a.items, b.items, EqualL4Service);
      var p, q :| Pairs(p, q, a.items, b.items, EqualL4Service);
      var x, y := ClearedL4(a.items), ClearedL4(b.items);
      forall i | 0 <= i < |x| ensures EqualL4Service(x[i], y[p[i]]) {
        assert EqualL4Service(a.items[i], b.items[p[i]]);
      }
      assert Pairs(p, q, x, y, EqualL4Service);
      GreedyDecidesPairing(x, y, EqualL4Service);
    }
  }

  /** A configuration that counts as equal never asks for a reload. */
  lemma EqualIsDynamicEnough(a: Configuration, b: Configuration)
    requires EqualConfiguration(a, b)
    ensures DynamicEnough(a, b)
  {
    ClearL4RespectsSame(a.tcpEndpoints, b.tcpEndpoints);
    ClearL4RespectsSame(a.udpEndpoints, b.udpEndpoints);
    var s, t := ClearedServers(a.servers), ClearedServers(b.servers);
    forall i | 0 <= i < |s| ensures EqualServer(s[i], t[i]) {
      assert EqualServer(a.servers[i], b.servers[i]);
    }
  }

  /** Erasing keeps what symmetry of Equal depends on. */
  lemma StaticDuplicateFree(c: Configuration)
    ensures DuplicateFree(Static(c)) <==> DuplicateFree(c)
  {
    var d := Static(c);
    assert |d.servers| == |c.servers|;
    assert forall i :: 0 <= i < |c.servers| ==> d.servers[i].aliases == c.servers[i].aliases;
  }
}
