/** internal/ingress/controller/endpoints.go: the endpoints of a service port.

    Addresses are de-duplicated under the key net.JoinHostPort(ip, port).  The key is injective, so
    nothing is dropped but true repetitions.
 */
module Endpoints {
  import opened Strings
  import opened Types

  datatype EndpointPort = EndpointPort(name: string, port: int, protocol: string)

  datatype EndpointAddress = EndpointAddress(ip: string, target: Option<ObjectReference>)

  datatype Subset = Subset(ports: seq<EndpointPort>, addresses: seq<EndpointAddress>)

  // ---------------------------------------------------------------- the selected addresses

  /** An address and port that the service port selects. */
  datatype Candidate = Candidate(ip: string, port: nat, target: Option<ObjectReference>)

  predicate SameSocket(c: Candidate, d: Candidate) { c.ip == d.ip && c.port == d.port }

  function ToEndpoint(c: Candidate): Endpoint { Endpoint(c.ip, Itoa(c.port), c.target) }

  /** The port number to use, or 0 if the endpoint port is not the one asked for. */
  function TargetPort(p: EndpointPort, proto: string, portName: string): nat {
    if p.protocol == proto && (portName == "" || portName == p.name) && p.port > 0 then p.port else 0
  }

  function AtPort(addresses: seq<EndpointAddress>, port: nat): (r: seq<Candidate>)
    ensures |r| == |addresses|
  {
    seq(|addresses|, i requires 0 <= i < |addresses| => Candidate(addresses[i].ip, port, addresses[i].target))
  }

  function OfPorts(ports: seq<EndpointPort>, addresses: seq<EndpointAddress>, proto: string,
                   portName: string): seq<Candidate> {
    if ports == [] then [] else
    var port := TargetPort(ports[|ports| - 1], proto, portName);
    OfPorts(ports[..|ports| - 1], addresses, proto, portName) + if port == 0 then [] else AtPort(addresses, port)
  }

  /** Everything selected, in the order of the loops. */
  function Selected(subsets: seq<Subset>, proto: string, portName: string): seq<Candidate> {
    if subsets == [] then [] else
    var last := subsets[|subsets| - 1];
    Selected(subsets[..|subsets| - 1], proto, portName) + OfPorts(last.ports, last.addresses, proto, portName)
  }

  predicate Seen(c: Candidate, candidates: seq<Candidate>) {
    exists i :: 0 <= i < |candidates| && SameSocket(candidates[i], c)
  }

  /** The candidates whose socket has not come up before. */
  function FirstSeen(candidates: seq<Candidate>): seq<Endpoint> {
    if candidates == [] then [] else
    var init, c := candidates[..|candidates| - 1], candidates[|candidates| - 1];
    FirstSeen(init) + if Seen(c, init) then [] else [ToEndpoint(c)]
  }

  lemma AtPortAppend(done: seq<Candidate>, addresses: seq<EndpointAddress>, k: nat, port: nat)
    requires k < |addresses|
    ensures done + AtPort(addresses[..k + 1], port) ==
            done + AtPort(addresses[..k], port) + [Candidate(addresses[k].ip, port, addresses[k].target)]
  {
  }

  lemma {:induction false} OfPortsAppend(done: seq<Candidate>, ss: Subset, j: nat, proto: string, portName: string)
    requires j < |ss.ports|
    ensures
      var port := TargetPort(ss.ports[j], proto, portName);
      done + OfPorts(ss.ports[..j + 1], ss.addresses, proto, portName) ==
      var more := if port == 0 then [] else AtPort(ss.addresses, port);
      done + OfPorts(ss.ports[..j], ss.addresses, proto, portName) + more
  {
    assert ss.ports[..j + 1][..j] == ss.ports[..j];
  }

  lemma {:induction false} FirstSeenAppend(init: seq<Candidate>, c: Candidate)
    ensures FirstSeen(init + [c]) == FirstSeen(init) + if Seen(c, init) then [] else [ToEndpoint(c)]
  {
    assert (init + [c])[..|init|] == init;
  }

  // ---------------------------------------------------------------- the de-duplication key

  function JoinHostPort(host: string, port: string): string {
    if ':' in host then "[" + host + "]:" + port else host + ":" + port
  }

  function Key(c: Candidate): string { JoinHostPort(c.ip, Itoa(c.port)) }

  lemma JoinHostPortInjective(h: string, p: string, k: string, q: string)
    requires ':' !in p && ':' !in q
    requires JoinHostPort(h, p) == JoinHostPort(k, q)
    ensures h == k && p == q
  {
    var a, b := if ':' in h then "[" + h + "]" else h, if ':' in k then "[" + k + "]" else k;
    assert JoinHostPort(h, p) == a + [':'] + p;
    assert JoinHostPort(k, q) == b + [':'] + q;
    LastSeparator(a, p, b, q, ':');
    assert ':' in h <==> ':' in a;
    assert ':' in k <==> ':' in b;
    if ':' in h {
      assert h == a[1..|a| - 1] && k == b[1..|b| - 1];
    }
  }

  lemma KeyIdentifiesSocket(c: Candidate, d: Candidate)
    ensures Key(c) == Key(d) <==> SameSocket(c, d)
  {
    if Key(c) == Key(d) {
      assert ':' !in Decimal(c.port) && ':' !in Decimal(d.port) by {
        assert !IsDigit(':');
      }
      JoinHostPortInjective(c.ip, Itoa(c.port), d.ip, Itoa(d.port));
      DecimalInjective(c.port, d.port);
    }
  }

  // ---------------------------------------------------------------- the code

  /** The address loop, for one selected port. */
  method AddAddresses(addresses: seq<EndpointAddress>, targetPort: nat, ups: seq<Endpoint>, seen: set<string>,
                      ghost done: seq<Candidate>)
    returns (upsServers: seq<Endpoint>, processed: set<string>)
    requires ups == FirstSeen(done) && Processed(seen, done)
    ensures upsServers == FirstSeen(done + AtPort(addresses, targetPort))
    ensures Processed(processed, done + AtPort(addresses, targetPort))
  {
    upsServers, processed := ups, seen;
    assert done + AtPort(addresses[..0], targetPort) == done;
    for k := 0 to |addresses|
      invariant upsServers == FirstSeen(done + AtPort(addresses[..k], targetPort))
      invariant Processed(processed, done + AtPort(addresses[..k], targetPort))
    {
      ghost var now := done + AtPort(addresses[..k], targetPort);
      ghost var c := Candidate(addresses[k].ip, targetPort, addresses[k].target);
      AtPortAppend(done, addresses, k, targetPort);
      ProcessedStep(processed, now, c);
      FirstSeenAppend(now, c);
      var ep := JoinHostPort(addresses[k].ip, Itoa(targetPort));
      if ep in processed {
        continue;
      }
      upsServers := upsServers + [Endpoint(addresses[k].ip, Itoa(targetPort), addresses[k].target)];
      processed := processed + {ep};
    }
    assert addresses[..|addresses|] == addresses;
  }

  /** The port loop, for one subset. */
  method AddSubset(ss: Subset, proto: string, portName: string, ups: seq<Endpoint>, seen: set<string>,
                   ghost done: seq<Candidate>)
    returns (upsServers: seq<Endpoint>, processed: set<string>)
    requires ups == FirstSeen(done) && Processed(seen, done)
    ensures upsServers == FirstSeen(done + OfPorts(ss.ports, ss.addresses, proto, portName))
    ensures Processed(processed, done + OfPorts(ss.ports, ss.addresses, proto, portName))
  {
    upsServers, processed := ups, seen;
    assert done + [] == done;
    for j := 0 to |ss.ports|
      invariant upsServers == FirstSeen(done + OfPorts(ss.ports[..j], ss.addresses, proto, portName))
      invariant Processed(processed, done + OfPorts(ss.ports[..j], ss.addresses, proto, portName))
    {
      OfPortsAppend(done, ss, j, proto, portName);
      ghost var now := done + OfPorts(ss.ports[..j], ss.addresses, proto, portName);
      assert now + [] == now;
      var epPort := ss.ports[j];
      if epPort.protocol != proto {
        continue;
      }
      var targetPort := 0;
      if portName == "" {
        targetPort := epPort.port;
      } else if portName == epPort.name {
        targetPort := epPort.port;
      }
      if targetPort <= 0 {
        continue;
      }
      upsServers, processed := AddAddresses(ss.addresses, targetPort, upsServers, processed, now);
    }
    assert ss.ports[..|ss.ports|] == ss.ports;
  }

  /** What a service is, as far as its endpoints go. */
  datatype ServiceKind = Selector | ExternalName(name: string)

  /** The name and the numeric target port of a service port. */
  datatype ServicePort = ServicePort(name: string, targetPort: int)

  /** The library functions used on external names: for an IP address, whether it is a loopback one, and the test
      for DNS subdomains. */
  datatype NameRules = NameRules(parseIP: string -> Option<bool>, isSubdomain: string -> bool)

  /** An external name may be used unless it is a loopback address or no valid name. */
  predicate Allowed(names: NameRules, externalName: string) {
    && externalName != "localhost"
    && match names.parseIP(externalName)
       case Some(loopback) => !loopback
       case None => names.isSubdomain(TrimSuffix(externalName, "."))
  }

  function ExternalEndpoints(names: NameRules, externalName: string, targetPort: int): seq<Endpoint> {
    if Allowed(names, externalName) then [Endpoint(externalName, Itoa(targetPort), None)] else []
  }

  /** getEndpoints; no endpoints are a failed lookup. */
  method GetEndpoints(names: NameRules, service: Option<ServiceKind>, port: Option<ServicePort>, proto: string,
                      endpoints: Option<seq<Subset>>) returns (upsServers: seq<Endpoint>)
    ensures service.None? || port.None? ==> upsServers == []
    ensures service.Some? && port.Some? ==>
              match service.value
              case ExternalName(name) => upsServers == ExternalEndpoints(names, name, port.value.targetPort)
              case Selector =>
                upsServers ==
                if endpoints.None? then [] else FirstSeen(Selected(endpoints.value, proto, port.value.name))
  {
    upsServers := [];
    if service.None? || port.None? {
      return;
    }
    if service.value.ExternalName? {
      var externalName := service.value.name;
      var ip := names.parseIP(externalName);
      if externalName == "localhost" || (ip.Some? && ip.value) {
        return;
      }
      if ip.None? {
        var trimmed := TrimSuffix(externalName, ".");
        if !names.isSubdomain(trimmed) {
          return;
        }
      }
      return [Endpoint(externalName, Itoa(port.value.targetPort), None)];
    }
    if endpoints.Some? {
      upsServers := CollectEndpoints(endpoints.value, proto, port.value.name);
    }
  }

  /** The loop over the subsets. */
  method CollectEndpoints(subsets: seq<Subset>, proto: string, portName: string) returns (upsServers: seq<Endpoint>)
    ensures upsServers == FirstSeen(Selected(subsets, proto, portName))
  {
    upsServers := [];
    var processed: set<string> := {};
    for i := 0 to |subsets|
      invariant upsServers == FirstSeen(Selected(subsets[..i], proto, portName))
      invariant Processed(processed, Selected(subsets[..i], proto, portName))
    {
      assert subsets[..i + 1][..i] == subsets[..i];
      upsServers, processed :=
        AddSubset(subsets[i], proto, portName, upsServers, processed, Selected(subsets[..i], proto, portName));
    }
    assert subsets[..|subsets|] == subsets;
  }

  ghost predicate HasKey(done: seq<Candidate>, key: string) {
    exists i :: 0 <= i < |done| && Key(done[i]) == key
  }

  /** The map of processed servers holds the keys of the candidates so far. */
  ghost predicate Processed(processed: set<string>, done: seq<Candidate>) {
    forall key :: key in processed <==> HasKey(done, key)
  }

  lemma HasKeyAppend(done: seq<Candidate>, c: Candidate, key: string)
    ensures HasKey(done + [c], key) <==> HasKey(done, key) || key == Key(c)
  {
    var after := done + [c];
    assert after[|done|] == c;
    if i :| 0 <= i < |done| && Key(done[i]) == key {
      assert after[i] == done[i];
    }
  }

  lemma SeenByKey(done: seq<Candidate>, c: Candidate)
    ensures HasKey(done, Key(c)) <==> Seen(c, done)
  {
    forall i | 0 <= i < |done| ensures Key(done[i]) == Key(c) <==> SameSocket(done[i], c) {
      KeyIdentifiesSocket(done[i], c);
    }
  }

  lemma ProcessedStep(processed: set<string>, done: seq<Candidate>, c: Candidate)
    requires Processed(processed, done)
    ensures Key(c) in processed <==> Seen(c, done)
    ensures Processed(processed + {Key(c)}, done + [c])
    ensures Key(c) in processed ==> Processed(processed, done + [c])
  {
    SeenByKey(done, c);
    forall key ensures HasKey(done + [c], key) <==> HasKey(done, key) || key == Key(c) {
      HasKeyAppend(done, c, key);
    }
  }

  // ---------------------------------------------------------------- what the result holds

  ghost predicate IsFirst(candidates: seq<Candidate>, i: nat)
    requires i < |candidates|
  {
    forall j :: 0 <= j < i ==> !SameSocket(candidates[j], candidates[i])
  }

  /** positions lists, in order, where each socket first comes up. */
  ghost predicate FirstPositions(positions: seq<nat>, candidates: seq<Candidate>) {
    && (forall k :: 0 <= k < |positions| ==> positions[k] < |candidates|)
    && (forall k, l :: 0 <= k < l < |positions| ==> positions[k] < positions[l])
    && (forall i :: 0 <= i < |candidates| ==> (IsFirst(candidates, i) <==> i in positions))
  }

  lemma AppendPosition(positions: seq<nat>, init: seq<Candidate>, c: Candidate)
    requires FirstPositions(positions, init)
    ensures FirstPositions(positions + if Seen(c, init) then [] else [|init|], init + [c])
  {
    var all, n := init + [c], |init|;
    assert forall i :: 0 <= i < n ==> all[i] == init[i];
    assert all[n] == c;
    assert IsFirst(all, n) <==> !Seen(c, init);
    forall i | 0 <= i < n ensures IsFirst(all, i) <==> IsFirst(init, i) {
    }
  }

  /** The result is the first occurrence of every selected socket, in first-seen order, and nothing else. */
  lemma {:induction false} FirstSeenIsFirstOccurrences(candidates: seq<Candidate>) returns (positions: seq<nat>)
    ensures FirstPositions(positions, candidates)
    ensures |FirstSeen(candidates)| == |positions|
    ensures forall k :: 0 <= k < |positions| ==> FirstSeen(candidates)[k] == ToEndpoint(candidates[positions[k]])
  {
    if candidates == [] {
      positions := [];
    } else {
      var n := |candidates| - 1;
      var init, c := candidates[..n], candidates[n];
      var before := FirstSeenIsFirstOccurrences(init);
      AppendPosition(before, init, c);
      assert candidates == init + [c];
      positions := before + if Seen(c, init) then [] else [n];
    }
  }

  /** A subset holds the socket at an endpoint port of this protocol and, if a name is given, of this name. */
  ghost predicate Offers(ss: Subset, proto: string, portName: string, ip: string, port: nat) {
    exists j, k :: 0 <= j < |ss.ports| && 0 <= k < |ss.addresses| && OffersAt(ss, j, k, proto, portName, ip, port)
  }

  predicate OffersAt(ss: Subset, j: nat, k: nat, proto: string, portName: string, ip: string, port: nat)
    requires j < |ss.ports| && k < |ss.addresses|
  {
    && ss.ports[j].protocol == proto && (portName == "" || portName == ss.ports[j].name)
    && ss.ports[j].port == port > 0 && ss.addresses[k].ip == ip
  }

  ghost predicate Offered(subsets: seq<Subset>, proto: string, portName: string, ip: string, port: nat) {
    exists i :: 0 <= i < |subsets| && Offers(subsets[i], proto, portName, ip, port)
  }

  ghost predicate Holds(candidates: seq<Candidate>, ip: string, port: nat) {
    exists i :: 0 <= i < |candidates| && candidates[i].ip == ip && candidates[i].port == port
  }

  lemma HoldsConcat(a: seq<Candidate>, b: seq<Candidate>, ip: string, port: nat)
    ensures Holds(a + b, ip, port) <==> Holds(a, ip, port) || Holds(b, ip, port)
  {
    var all := a + b;
    if i :| 0 <= i < |a| && a[i].ip == ip && a[i].port == port {
      assert all[i] == a[i];
    }
    if i :| 0 <= i < |b| && b[i].ip == ip && b[i].port == port {
      assert all[|a| + i] == b[i];
    }
  }

  lemma AtPortHolds(addresses: seq<EndpointAddress>, p: nat, ip: string, port: nat)
    ensures Holds(AtPort(addresses, p), ip, port) <==>
            p == port && exists k :: 0 <= k < |addresses| && addresses[k].ip == ip
  {
    if p == port && exists k :: 0 <= k < |addresses| && addresses[k].ip == ip {
      var k :| 0 <= k < |addresses| && addresses[k].ip == ip;
      assert AtPort(addresses, p)[k].ip == ip;
    }
  }

  lemma {:induction false} OfPortsHolds(ss: Subset, n: nat, proto: string, portName: string, ip: string, port: nat)
    requires n <= |ss.ports|
    ensures Holds(OfPorts(ss.ports[..n], ss.addresses, proto, portName), ip, port) <==>
            exists j, k :: 0 <= j < n && 0 <= k < |ss.addresses| && OffersAt(ss, j, k, proto, portName, ip, port)
  {
    if n == 0 {
    } else {
      OfPortsHolds(ss, n - 1, proto, portName, ip, port);
      assert ss.ports[..n][..n - 1] == ss.ports[..n - 1];
      var p := TargetPort(ss.ports[n - 1], proto, portName);
      var more := if p == 0 then [] else AtPort(ss.addresses, p);
      HoldsConcat(OfPorts(ss.ports[..n - 1], ss.addresses, proto, portName), more, ip, port);
      AtPortHolds(ss.addresses, p, ip, port);
      forall k | 0 <= k < |ss.addresses|
        ensures OffersAt(ss, n - 1, k, proto, portName, ip, port) <==> p != 0 && p == port && ss.addresses[k].ip == ip
      {
      }
    }
  }

  /** Exactly the sockets that some subset holds for the protocol and port name are selected. */
  lemma {:induction false} SelectedIff(subsets: seq<Subset>, proto: string, portName: string, ip: string, port: nat)
    ensures Holds(Selected(subsets, proto, portName), ip, port) <==> Offered(subsets, proto, portName, ip, port)
  {
    if subsets == [] {
    } else {
      var init, last := subsets[..|subsets| - 1], subsets[|subsets| - 1];
      SelectedIff(init, proto, portName, ip, port);
      HoldsConcat(Selected(init, proto, portName), OfPorts(last.ports, last.addresses, proto, portName), ip, port);
      OfPortsHolds(last, |last.ports|, proto, portName, ip, port);
      assert last.ports[..|last.ports|] == last.ports;
      assert Offered(subsets, proto, portName, ip, port) <==>
             Offered(init, proto, portName, ip, port) || Offers(last, proto, portName, ip, port) by {
        assert forall i :: 0 <= i < |init| ==> subsets[i] == init[i];
        if Offered(init, proto, portName, ip, port) {
          var i :| 0 <= i < |init| && Offers(init[i], proto, portName, ip, port);
          assert Offers(subsets[i], proto, portName, ip, port);
        }
      }
    }
  }

  ghost predicate Returned(out: seq<Endpoint>, ip: string, port: nat) {
    exists k :: 0 <= k < |out| && out[k].address == ip && out[k].port == Itoa(port)
  }

  /** Every (address, port) that the subsets offer for the protocol and port name is returned exactly once, and
      nothing else. */
  lemma {:induction false} EachSocketOnce(subsets: seq<Subset>, proto: string, portName: string)
    ensures
      var out := FirstSeen(Selected(subsets, proto, portName));
      && (forall k, l :: 0 <= k < l < |out| ==> out[k].address != out[l].address || out[k].port != out[l].port)
      && (forall ip, port: nat :: Returned(out, ip, port) <==> Offered(subsets, proto, portName, ip, port))
      && (forall k :: 0 <= k < |out| ==> exists port: nat :: out[k].port == Itoa(port))
  {
    var candidates := Selected(subsets, proto, portName);
    var out := FirstSeen(candidates);
    var positions := FirstSeenIsFirstOccurrences(candidates);
    SocketsDiffer(candidates, positions);
    forall ip, port: nat ensures Returned(out, ip, port) <==> Offered(subsets, proto, portName, ip, port) {
      SelectedIff(subsets, proto, portName, ip, port);
      ReturnedIff(candidates, positions, ip, port);
    }
    forall k | 0 <= k < |out| ensures exists port: nat :: out[k].port == Itoa(port) {
      assert out[k].port == Itoa(candidates[positions[k]].port);
    }
  }

  lemma {:induction false} SocketsDiffer(candidates: seq<Candidate>, positions: seq<nat>)
    requires FirstPositions(positions, candidates) && |FirstSeen(candidates)| == |positions|
    requires forall k :: 0 <= k < |positions| ==> FirstSeen(candidates)[k] == ToEndpoint(candidates[positions[k]])
    ensures var out := FirstSeen(candidates);
            forall k, l :: 0 <= k < l < |out| ==> out[k].address != out[l].address || out[k].port != out[l].port
  {
    var out := FirstSeen(candidates);
    forall k, l | 0 <= k < l < |out| ensures out[k].address != out[l].address || out[k].port != out[l].port {
      var c, d := candidates[positions[k]], candidates[positions[l]];
      assert positions[l] in positions && IsFirst(candidates, positions[l]);
      assert !SameSocket(c, d);
      if Itoa(c.port) == Itoa(d.port) {
        DecimalInjective(c.port, d.port);
      }
    }
  }

  lemma {:induction false} ReturnedIff(candidates: seq<Candidate>, positions: seq<nat>, ip: string, port: nat)
    requires FirstPositions(positions, candidates) && |FirstSeen(candidates)| == |positions|
    requires forall k :: 0 <= k < |positions| ==> FirstSeen(candidates)[k] == ToEndpoint(candidates[positions[k]])
    ensures Returned(FirstSeen(candidates), ip, port) <==> Holds(candidates, ip, port)
  {
    var out := FirstSeen(candidates);
    if Holds(candidates, ip, port) {
      var i :| 0 <= i < |candidates| && candidates[i].ip == ip && candidates[i].port == port;
      var f := FirstOf(candidates, i);
      assert f in positions;
      var k :| 0 <= k < |positions| && positions[k] == f;
      assert out[k] == ToEndpoint(candidates[f]);
    }
    if Returned(out, ip, port) {
      var k :| 0 <= k < |out| && out[k].address == ip && out[k].port == Itoa(port);
      DecimalInjective(candidates[positions[k]].port, port);
    }
  }

  lemma {:induction false} FirstOf(candidates: seq<Candidate>, i: nat) returns (f: nat)
    requires i < |candidates|
    ensures f <= i && SameSocket(candidates[f], candidates[i]) && IsFirst(candidates, f)
    decreases i
  {
    if IsFirst(candidates, i) {
      f := i;
    } else {
      var j :| 0 <= j < i && SameSocket(candidates[j], candidates[i]);
      f := FirstOf(candidates, j);
    }
  }
}
