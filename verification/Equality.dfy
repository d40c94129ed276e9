/** internal/ingress/types_equals.go: when two configurations count as the same.

    The sync loop skips a reload, or all work, on the word of these comparisons, so they
    have to be an equivalence relation.  They are reflexive and transitive on all
    configurations; they are symmetric exactly on the configurations whose server aliases
    and passthrough backends are duplicate-free.
 */
module Equality {
  import opened Matching
  import opened Strings
  import opened Types

  // ---------------------------------------------------------------- the comparisons

  predicate EqualService(a: Option<Service>, b: Option<Service>) {
    match (a, b)
    case (None, None) => true
    case (Some(s), Some(t)) => s.namespace == t.namespace && s.name == t.name
    case _ => false
  }

  predicate EqualEndpoint(a: Endpoint, b: Endpoint) {
    && a.address == b.address
    && a.port == b.port
    && match (a.target, b.target)
       case (None, None) => true
       case (Some(s), Some(t)) => s.uid == t.uid && s.resourceVersion == t.resourceVersion
       case _ => false
  }

  predicate EqualCert(a: Option<SSLCert>, b: Option<SSLCert>) {
    match (a, b)
    case (None, None) => true
    case (Some(s), Some(t)) =>
      && s.caSHA == t.caSHA
      && s.crlSHA == t.crlSHA
      && s.pemSHA == t.pemSHA
      && s.expireTime == t.expireTime
      && s.pemCertKey == t.pemCertKey
      && s.uid == t.uid
      && Same(s.cn, t.cn, Identical)
    case _ => false
  }

  predicate EqualBackend(a: Backend, b: Backend) {
    && a.name == b.name
    && a.noServer == b.noServer
    && EqualService(a.service, b.service)
    && a.port == b.port
    && a.sslPassthrough == b.sslPassthrough
    && a.options == b.options
    && Same(a.endpoints, b.endpoints, EqualEndpoint)
    && Same(a.alternativeBackends, b.alternativeBackends, Identical)
  }

  predicate EqualL4Service(a: L4Service, b: L4Service) {
    && a.port == b.port
    && a.backend == b.backend
    && Same(a.endpoints, b.endpoints, EqualEndpoint)
  }

  /** The path type, the original path and the proxy SSL settings are not compared. */
  predicate EqualLocation(a: Location, b: Location) {
    && a.path == b.path
    && a.isDefBackend == b.isDefBackend
    && a.backend == b.backend
    && EqualService(a.service, b.service)
    && a.port.String() == b.port.String()
    && a.rewriteTarget == b.rewriteTarget
    && a.useRegex == b.useRegex
    && Same(a.customHTTPErrors, b.customHTTPErrors, Identical)
    && a.defaultBackendUpstreamName == b.defaultBackendUpstreamName
    && a.options == b.options
  }

  predicate EqualPassthrough(a: PassthroughBackend, b: PassthroughBackend) {
    && a.backend == b.backend
    && a.hostname == b.hostname
    && a.port == b.port
    && EqualService(a.service, b.service)
  }

  predicate Found<T>(x: T, ys: seq<T>, eq: (T, T) -> bool) {
    exists j :: 0 <= j < |ys| && eq(x, ys[j])
  }

  /** The one-directional comparison: as many elements, and each of the first list's found. */
  predicate EachFound<T>(xs: seq<T>, ys: seq<T>, eq: (T, T) -> bool) {
    |xs| == |ys| && forall i :: 0 <= i < |xs| ==> Found(xs[i], ys, eq)
  }

  predicate Pointwise<T>(xs: seq<T>, ys: seq<T>, eq: (T, T) -> bool) {
    |xs| == |ys| && forall i :: 0 <= i < |xs| ==> eq(xs[i], ys[i])
  }

  predicate EqualServer(a: Server, b: Server) {
    && a.hostname == b.hostname
    && a.sslPassthrough == b.sslPassthrough
    && EqualCert(a.sslCert, b.sslCert)
    && EachFound(a.aliases, b.aliases, Identical)
    && a.redirectFromToWWW == b.redirectFromToWWW
    && a.options == b.options
    && Pointwise(a.locations, b.locations, EqualLocation)
  }

  predicate EqualConfiguration(a: Configuration, b: Configuration) {
    && EqualCert(a.defaultSSLCertificate, b.defaultSSLCertificate)
    && Same(a.backends, b.backends, EqualBackend)
    && Pointwise(a.servers, b.servers, EqualServer)
    && Same(a.tcpEndpoints, b.tcpEndpoints, EqualL4Service)
    && Same(a.udpEndpoints, b.udpEndpoints, EqualL4Service)
    && EachFound(a.passthroughBackends, b.passthroughBackends, EqualPassthrough)
    && a.backendConfigChecksum == b.backendConfigChecksum
  }

  /** The nested loop with a found flag, shared by Server.Equal and Configuration.Equal. */
  method CompareEachFound<T>(xs: seq<T>, ys: seq<T>, eq: (T, T) -> bool) returns (r: bool)
    ensures r == EachFound(xs, ys, eq)
  {
    if |xs| != |ys| {
      return false;
    }
    for i := 0 to |xs|
      invariant forall k :: 0 <= k < i ==> Found(xs[k], ys, eq)
    {
      var found := false;
      for j := 0 to |ys|
        invariant !found
        invariant forall k :: 0 <= k < j ==> !eq(xs[i], ys[k])
      {
        if eq(xs[i], ys[j]) {
          found := true;
          break;
        }
      }
      if !found {
        assert !Found(xs[i], ys, eq);
        return false;
      }
    }
    return true;
  }

  /** Server.Equal. */
  method ServerEqual(s1: Server, s2: Server) returns (r: bool)
    ensures r == EqualServer(s1, s2)
  {
    if s1.hostname != s2.hostname || s1.sslPassthrough != s2.sslPassthrough {
      return false;
    }
    if !EqualCert(s1.sslCert, s2.sslCert) {
      return false;
    }
    var same := CompareEachFound(s1.aliases, s2.aliases, Identical);
    if !same {
      return false;
    }
    if s1.redirectFromToWWW != s2.redirectFromToWWW || s1.options != s2.options {
      return false;
    }
    if |s1.locations| != |s2.locations| {
      return false;
    }
    for i := 0 to |s1.locations|
      invariant forall k :: 0 <= k < i ==> EqualLocation(s1.locations[k], s2.locations[k])
    {
      if !EqualLocation(s1.locations[i], s2.locations[i]) {
        return false;
      }
    }
    return true;
  }

  /** Configuration.Equal, early returns and all. */
  method ConfigurationEqual(c1: Configuration, c2: Configuration) returns (r: bool)
    ensures r == EqualConfiguration(c1, c2)
  {
    if !EqualCert(c1.defaultSSLCertificate, c2.defaultSSLCertificate) {
      return false;
    }
    var same := Compare(c1.backends, c2.backends, EqualBackend);
    if !same {
      return false;
    }
    if |c1.servers| != |c2.servers| {
      return false;
    }
    for i := 0 to |c1.servers|
      invariant forall k :: 0 <= k < i ==> EqualServer(c1.servers[k], c2.servers[k])
    {
      var equal := ServerEqual(c1.servers[i], c2.servers[i]);
      if !equal {
        return false;
      }
    }
    same := Compare(c1.tcpEndpoints, c2.tcpEndpoints, EqualL4Service);
    if !same {
      return false;
    }
    same := Compare(c1.udpEndpoints, c2.udpEndpoints, EqualL4Service);
    if !same {
      return false;
    }
    same := CompareEachFound(c1.passthroughBackends, c2.passthroughBackends, EqualPassthrough);
    if !same {
      return false;
    }
    return c1.backendConfigChecksum == c2.backendConfigChecksum;
  }

  // ---------------------------------------------------------------- element comparisons are equivalences

  lemma EndpointEquivalence()
    ensures Equivalence(EqualEndpoint)
  {
  }

  lemma PassthroughEquivalence()
    ensures Equivalence(EqualPassthrough)
  {
  }

  lemma CertEquivalence()
    ensures Equivalence(EqualCert)
  {
    forall a: Option<SSLCert> ensures EqualCert(a, a) {
      if a.Some? {
        SameReflexive(a.value.cn, Identical);
      }
    }
    forall a, b | EqualCert(a, b) ensures EqualCert(b, a) {
      if a.Some? {
        SameSymmetric(a.value.cn, b.value.cn, Identical);
      }
    }
    forall a, b, c | EqualCert(a, b) && EqualCert(b, c) ensures EqualCert(a, c) {
      if a.Some? {
        SameTransitive(a.value.cn, b.value.cn, c.value.cn, Identical);
      }
    }
  }

  lemma BackendEquivalence()
    ensures Equivalence(EqualBackend)
  {
    EndpointEquivalence();
    forall a: Backend ensures EqualBackend(a, a) {
      SameReflexive(a.endpoints, EqualEndpoint);
      SameReflexive(a.alternativeBackends, Identical);
    }
    forall a, b | EqualBackend(a, b) ensures EqualBackend(b, a) {
      SameSymmetric(a.endpoints, b.endpoints, EqualEndpoint);
      SameSymmetric(a.alternativeBackends, b.alternativeBackends, Identical);
    }
    forall a, b, c | EqualBackend(a, b) && EqualBackend(b, c) ensures EqualBackend(a, c) {
      SameTransitive(a.endpoints, b.endpoints, c.endpoints, EqualEndpoint);
      SameTransitive(a.alternativeBackends, b.alternativeBackends, c.alternativeBackends, Identical);
    }
  }

  lemma L4ServiceEquivalence()
    ensures Equivalence(EqualL4Service)
  {
    EndpointEquivalence();
    forall a: L4Service ensures EqualL4Service(a, a) {
      SameReflexive(a.endpoints, EqualEndpoint);
    }
    forall a, b | EqualL4Service(a, b) ensures EqualL4Service(b, a) {
      SameSymmetric(a.endpoints, b.endpoints, EqualEndpoint);
    }
    forall a, b, c | EqualL4Service(a, b) && EqualL4Service(b, c) ensures EqualL4Service(a, c) {
      SameTransitive(a.endpoints, b.endpoints, c.endpoints, EqualEndpoint);
    }
  }

  lemma LocationEquivalence()
    ensures Equivalence(EqualLocation)
  {
    forall a: Location ensures EqualLocation(a, a) {
      SameReflexive(a.customHTTPErrors, Identical);
    }
    forall a, b | EqualLocation(a, b) ensures EqualLocation(b, a) {
      SameSymmetric(a.customHTTPErrors, b.customHTTPErrors, Identical);
    }
    forall a, b, c | EqualLocation(a, b) && EqualLocation(b, c) ensures EqualLocation(a, c) {
      SameTransitive(a.customHTTPErrors, b.customHTTPErrors, c.customHTTPErrors, Identical);
    }
  }

  // ---------------------------------------------------------------- the one-directional loops

  ghost predicate NoDuplicates<T>(xs: seq<T>, eq: (T, T) -> bool) {
    forall i, j :: 0 <= i < j < |xs| ==> !eq(xs[i], xs[j])
  }

  /** The pigeonhole step: from a duplicate-free list, finding each element pairs up all of them. */
  lemma {:induction false} EachFoundPairs<T(!new)>(xs: seq<T>, ys: seq<T>, eq: (T, T) -> bool)
    requires Equivalence(eq)
    requires NoDuplicates(xs, eq) && EachFound(xs, ys, eq)
    ensures SameElements(xs, ys, eq)
  {
    if xs == [] {
      assert Pairs([], [], xs, ys, eq);
    } else {
      assert Found(xs[0], ys, eq);
      var j :| 0 <= j < |ys| && eq(xs[0], ys[j]);
      forall i | 0 <= i < |xs[1..]|
        ensures Found(xs[1..][i], Without(ys, j), eq)
      {
        assert Found(xs[i + 1], ys, eq);
        var k :| 0 <= k < |ys| && eq(xs[i + 1], ys[k]);
        assert !eq(xs[0], xs[i + 1]);
        assert eq(ys[k], xs[i + 1]);
        assert Without(ys, j)[Unshift(k, j)] == ys[k];
      }
      EachFoundPairs(xs[1..], Without(ys, j), eq);
      var p, q :| Pairs(p, q, xs[1..], Without(ys, j), eq);
      AddPair(p, q, xs, ys, j, eq);
    }
  }

  lemma EachFoundReversed<T(!new)>(xs: seq<T>, ys: seq<T>, eq: (T, T) -> bool)
    requires Equivalence(eq)
    requires NoDuplicates(xs, eq) && EachFound(xs, ys, eq)
    ensures NoDuplicates(ys, eq) && EachFound(ys, xs, eq)
  {
    EachFoundPairs(xs, ys, eq);
    var p, q :| Pairs(p, q, xs, ys, eq);
    forall j | 0 <= j < |ys| ensures eq(ys[j], xs[q[j]]) {
      assert eq(xs[q[j]], ys[p[q[j]]]);
    }
    forall j, k | 0 <= j < k < |ys| ensures !eq(ys[j], ys[k]) {
      assert p[q[j]] == j && p[q[k]] == k;
    }
  }

  lemma EachFoundTransitive<T(!new)>(xs: seq<T>, ys: seq<T>, zs: seq<T>, eq: (T, T) -> bool)
    requires Equivalence(eq)
    requires EachFound(xs, ys, eq) && EachFound(ys, zs, eq)
    ensures EachFound(xs, zs, eq)
  {
    forall i | 0 <= i < |xs| ensures Found(xs[i], zs, eq) {
      var j :| 0 <= j < |ys| && eq(xs[i], ys[j]);
      assert Found(ys[j], zs, eq);
      var k :| 0 <= k < |zs| && eq(ys[j], zs[k]);
      assert eq(xs[i], zs[k]);
    }
  }

  /** On duplicate-free alias lists the loop decides whether the two sets are the same. */
  lemma EachFoundIsSetEquality(xs: seq<string>, ys: seq<string>)
    requires NoDuplicates(xs, Identical) && NoDuplicates(ys, Identical)
    ensures EachFound(xs, ys, Identical) <==> (set x | x in xs) == (set y | y in ys)
  {
    var s, t := (set x | x in xs), (set y | y in ys);
    if EachFound(xs, ys, Identical) {
      EachFoundReversed(xs, ys, Identical);
      forall x | x in xs ensures x in ys {
        var i :| 0 <= i < |xs| && xs[i] == x;
        assert Found(xs[i], ys, Identical);
      }
      forall y | y in ys ensures y in xs {
        var j :| 0 <= j < |ys| && ys[j] == y;
        assert Found(ys[j], xs, Identical);
      }
    }
    if s == t {
      DistinctLength(xs);
      DistinctLength(ys);
      forall i | 0 <= i < |xs| ensures Found(xs[i], ys, Identical) {
        assert xs[i] in s;
      }
    }
  }

  lemma {:induction false} DistinctLength(xs: seq<string>)
    requires NoDuplicates(xs, Identical)
    ensures |set x | x in xs| == |xs|
  {
    var s := set x | x in xs;
    if xs == [] {
      assert s == {};
    } else {
      var t := set x | x in xs[1..];
      DistinctLength(xs[1..]);
      assert xs[0] !in t;
      assert s == t + {xs[0]};
    }
  }

  // ---------------------------------------------------------------- Server and Configuration

  ghost predicate DuplicateFree(c: Configuration) {
    && (forall i :: 0 <= i < |c.servers| ==> NoDuplicates(c.servers[i].aliases, Identical))
    && NoDuplicates(c.passthroughBackends, EqualPassthrough)
  }

  lemma ServerReflexive(a: Server)
    ensures EqualServer(a, a)
  {
    CertEquivalence();
    LocationEquivalence();
    forall i | 0 <= i < |a.aliases| ensures Found(a.aliases[i], a.aliases, Identical) {
      assert Identical(a.aliases[i], a.aliases[i]);
    }
  }

  lemma ServerTransitive(a: Server, b: Server, c: Server)
    requires EqualServer(a, b) && EqualServer(b, c)
    ensures EqualServer(a, c)
  {
    CertEquivalence();
    LocationEquivalence();
    EachFoundTransitive(a.aliases, b.aliases, c.aliases, Identical);
    forall i | 0 <= i < |a.locations| ensures EqualLocation(a.locations[i], c.locations[i]) {
      assert EqualLocation(a.locations[i], b.locations[i]) && EqualLocation(b.locations[i], c.locations[i]);
    }
  }

  lemma ServerSymmetric(a: Server, b: Server)
    requires NoDuplicates(a.aliases, Identical)
    requires EqualServer(a, b)
    ensures EqualServer(b, a) && NoDuplicates(b.aliases, Identical)
  {
    CertEquivalence();
    LocationEquivalence();
    EachFoundReversed(a.aliases, b.aliases, Identical);
  }

  lemma ConfigurationReflexive(a: Configuration)
    ensures EqualConfiguration(a, a)
  {
    CertEquivalence();
    BackendEquivalence();
    L4ServiceEquivalence();
    SameReflexive(a.backends, EqualBackend);
    SameReflexive(a.tcpEndpoints, EqualL4Service);
    SameReflexive(a.udpEndpoints, EqualL4Service);
    forall i | 0 <= i < |a.servers| ensures EqualServer(a.servers[i], a.servers[i]) {
      ServerReflexive(a.servers[i]);
    }
    forall i | 0 <= i < |a.passthroughBackends|
      ensures Found(a.passthroughBackends[i], a.passthroughBackends, EqualPassthrough)
    {
      assert EqualPassthrough(a.passthroughBackends[i], a.passthroughBackends[i]);
    }
  }

  lemma ConfigurationTransitive(a: Configuration, b: Configuration, c: Configuration)
    requires EqualConfiguration(a, b) && EqualConfiguration(b, c)
    ensures EqualConfiguration(a, c)
  {
    CertEquivalence();
    BackendEquivalence();
    L4ServiceEquivalence();
    PassthroughEquivalence();
    SameTransitive(a.backends, b.backends, c.backends, EqualBackend);
    SameTransitive(a.tcpEndpoints, b.tcpEndpoints, c.tcpEndpoints, EqualL4Service);
    SameTransitive(a.udpEndpoints, b.udpEndpoints, c.udpEndpoints, EqualL4Service);
    EachFoundTransitive(a.passthroughBackends, b.passthroughBackends, c.passthroughBackends, EqualPassthrough);
    forall i | 0 <= i < |a.servers| ensures EqualServer(a.servers[i], c.servers[i]) {
      ServerTransitive(a.servers[i], b.servers[i], c.servers[i]);
    }
  }

  /** The comparison can be turned round when its left side is duplicate-free; the right side then is, too. */
  lemma ConfigurationSymmetric(a: Configuration, b: Configuration)
    requires DuplicateFree(a)
    requires EqualConfiguration(a, b)
    ensures EqualConfiguration(b, a) && DuplicateFree(b)
  {
    CertEquivalence();
    BackendEquivalence();
    L4ServiceEquivalence();
    PassthroughEquivalence();
    SameSymmetric(a.backends, b.backends, EqualBackend);
    SameSymmetric(a.tcpEndpoints, b.tcpEndpoints, EqualL4Service);
    SameSymmetric(a.udpEndpoints, b.udpEndpoints, EqualL4Service);
    EachFoundReversed(a.passthroughBackends, b.passthroughBackends, EqualPassthrough);
    forall i | 0 <= i < |a.servers|
      ensures EqualServer(b.servers[i], a.servers[i]) && NoDuplicates(b.servers[i].aliases, Identical)
    {
      ServerSymmetric(a.servers[i], b.servers[i]);
    }
  }

  /** A duplicate can be replaced by something new without the left-to-right loop noticing. */
  lemma ReplaceDuplicate<T(!new)>(xs: seq<T>, i: nat, j: nat, novel: T, eq: (T, T) -> bool)
    requires Equivalence(eq)
    requires i < j < |xs| && eq(xs[i], xs[j])
    requires forall k :: 0 <= k < |xs| ==> !eq(novel, xs[k])
    ensures EachFound(xs, xs[j := novel], eq) && !EachFound(xs[j := novel], xs, eq)
  {
    var ys := xs[j := novel];
    forall k | 0 <= k < |xs| ensures Found(xs[k], ys, eq) {
      assert k != j ==> eq(xs[k], ys[k]);
      assert k == j ==> eq(xs[j], ys[i]);
    }
    assert !Found(ys[j], xs, eq);
  }

  lemma AsymmetricAliases(c: Configuration, s: nat, i: nat, j: nat) returns (d: Configuration)
    requires s < |c.servers| && i < j < |c.servers[s].aliases|
    requires c.servers[s].aliases[i] == c.servers[s].aliases[j]
    ensures EqualConfiguration(c, d) && !EqualConfiguration(d, c)
  {
    var changed := AsymmetricServer(c.servers[s], i, j);
    d := c.(servers := c.servers[s := changed]);
    ConfigurationReflexive(c);
    assert Pointwise(c.servers, d.servers, EqualServer);
    assert !EqualServer(d.servers[s], c.servers[s]);
  }

  lemma AsymmetricServer(server: Server, i: nat, j: nat) returns (changed: Server)
    requires i < j < |server.aliases| && server.aliases[i] == server.aliases[j]
    ensures EqualServer(server, changed) && !EqualServer(changed, server)
  {
    var novel := Fresh(server.aliases);
    changed := server.(aliases := server.aliases[j := novel]);
    ReplaceDuplicate(server.aliases, i, j, novel, Identical);
    ServerReflexive(server);
  }

  lemma AsymmetricPassthrough(c: Configuration, i: nat, j: nat) returns (d: Configuration)
    requires i < j < |c.passthroughBackends|
    requires EqualPassthrough(c.passthroughBackends[i], c.passthroughBackends[j])
    ensures EqualConfiguration(c, d) && !EqualConfiguration(d, c)
  {
    var xs := c.passthroughBackends;
    var hosts := seq(|xs|, k requires 0 <= k < |xs| => xs[k].hostname);
    var novel := xs[j].(hostname := Fresh(hosts));
    forall k | 0 <= k < |xs| ensures !EqualPassthrough(novel, xs[k]) {
      assert hosts[k] in hosts;
    }
    PassthroughEquivalence();
    ReplaceDuplicate(xs, i, j, novel, EqualPassthrough);
    d := c.(passthroughBackends := xs[j := novel]);
    ConfigurationReflexive(c);
  }

  /** Equal is symmetric from c exactly when c is duplicate-free. */
  lemma SymmetricExactlyWhenDuplicateFree(c: Configuration)
    ensures DuplicateFree(c) <==> (forall d :: EqualConfiguration(c, d) ==> EqualConfiguration(d, c))
  {
    if DuplicateFree(c) {
      forall d | EqualConfiguration(c, d) ensures EqualConfiguration(d, c) {
        ConfigurationSymmetric(c, d);
      }
    } else if !NoDuplicates(c.passthroughBackends, EqualPassthrough) {
      var i, j :| 0 <= i < j < |c.passthroughBackends|
        && EqualPassthrough(c.passthroughBackends[i], c.passthroughBackends[j]);
      var _ := AsymmetricPassthrough(c, i, j);
    } else {
      var s :| 0 <= s < |c.servers| && !NoDuplicates(c.servers[s].aliases, Identical);
      var i, j :| 0 <= i < j < |c.servers[s].aliases|
        && Identical(c.servers[s].aliases[i], c.servers[s].aliases[j]);
      var _ := AsymmetricAliases(c, s, i, j);
    }
  }
}
