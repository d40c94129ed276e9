/** getBackendServers (internal/ingress/controller/controller.go) walks its maps of upstreams and of servers in whatever
    order Go picks.  Below: as long as no custom upstream takes the name of another upstream, two results for the same
    Ingresses assemble to configurations that compare equal, so that the order alone never causes a sync.
 */
module MapOrder {
  import opened Matching
  import opened Strings
  import opened Types
  import opened Sorting
  import opened Equality
  import opened Upstreams
  import opened Servers
  import opened CustomBackends
  import opened Compile
  import opened Assembly
  import Certificates
  import Sync

  // ---------------------------------------------------------------- upstreams

  /** The locations differ in their path types at most. */
  predicate SameButType(l: Location, m: Location) { l == m.(pathType := l.pathType) }

  /** The servers differ in the path types of their locations at most. */
  ghost predicate SameButTypes(a: Hosts, b: Hosts) {
    && a.Keys == b.Keys
    && forall h :: h in a ==>
         && a[h] == b[h].(locations := a[h].locations)
         && Pointwise(a[h].locations, b[h].locations, SameButType)
  }

  lemma SameSpot(env: Env, ups: Table, a: Hosts, b: Hosts, s: Spot)
    requires SameButTypes(a, b) && IsSpot(a, s)
    ensures IsSpot(b, s) && SameButType(At(a, s), At(b, s))
    ensures Deserves(env, ups, At(a, s)) <==> Deserves(env, ups, At(b, s))
  {
  }

  lemma NoCollisionAlike(env: Env, ups: Table, a: Hosts, b: Hosts)
    requires SameButTypes(a, b) && NoCollision(env, ups, a)
    ensures NoCollision(env, ups, b) && SameButTypes(b, a)
  {
    forall s | IsSpot(b, s) && Deserves(env, ups, At(b, s))
      ensures CustomName(At(b, s).defaultBackend.value) !in ups
    {
      assert IsSpot(a, s);
      SameSpot(env, ups, a, b, s);
    }
  }

  lemma PassedThroughAlike(env: Env, ups: Table, a: Hosts, b: Hosts, k: string)
    requires SameButTypes(a, b) && k in ups && PassedThrough(env, ups, a, k)
    ensures PassedThrough(env, ups, b, k)
  {
    var h :| PassesOn(env, ups[k], a, h);
    var i :| 0 <= i < |a[h].locations| && PassesThrough(env, ups[k], a[h], a[h].locations[i]);
    assert SameButType(a[h].locations[i], b[h].locations[i]);
    assert PassesThrough(env, ups[k], b[h], b[h].locations[i]);
    assert PassesOn(env, ups[k], b, h);
  }

  /** Without a collision, where a listed upstream comes from determines it. */
  lemma SameOriginSameUpstream(env: Env, ups: Table, a: Hosts, b: Hosts, x: Backend, y: Backend, o: Origin)
    requires SameButTypes(a, b) && NoCollision(env, ups, a)
    requires Listed(env, ups, a, ups.Keys, x, o) && Listed(env, ups, b, ups.Keys, y, o)
    ensures x == y
  {
    NoCollisionAlike(env, ups, a, b);
    match o
    case FromTable(k) =>
      if PassedThrough(env, ups, a, k) {
        PassedThroughAlike(env, ups, a, b, k);
      }
      if PassedThrough(env, ups, b, k) {
        PassedThroughAlike(env, ups, b, a, k);
      }
    case FromSpot(s, m) =>
      SameSpot(env, ups, a, b, s);
  }

  /** And every origin occurs in every listing. */
  lemma OriginIsListed(env: Env, ups: Table, a: Hosts, b: Hosts, x: Backend, o: Origin, origins: seq<Origin>)
    requires SameButTypes(a, b) && NoCollision(env, ups, a)
    requires Listed(env, ups, a, ups.Keys, x, o) && Complete(env, ups, b, ups.Keys, origins)
    ensures o in origins
  {
    if o.FromSpot? {
      SameSpot(env, ups, a, b, o.spot);
    }
  }

  function IndexOf<T(==)>(x: T, xs: seq<T>): (j: nat)
    requires x in xs
    ensures j < |xs| && xs[j] == x
  {
    if xs[0] == x then 0 else 1 + IndexOf(x, xs[1..])
  }

  /** The two listings hold the same upstreams, each as often. */
  lemma ListingsPair(env: Env, ups: Table, a: Hosts, b: Hosts, list: seq<Backend>, origins: seq<Origin>,
                     list': seq<Backend>, origins': seq<Origin>)
    requires SameButTypes(a, b) && NoCollision(env, ups, a)
    requires Listing(env, ups, a, ups.Keys, list, origins) && Listing(env, ups, b, ups.Keys, list', origins')
    ensures SameElements(list, list', Identical)
  {
    NoCollisionAlike(env, ups, a, b);
    forall i | 0 <= i < |list| ensures origins[i] in origins' {
      OriginIsListed(env, ups, a, b, list[i], origins[i], origins');
    }
    forall i | 0 <= i < |list'| ensures origins'[i] in origins {
      OriginIsListed(env, ups, b, a, list'[i], origins'[i], origins);
    }
    SameLength(origins, origins');
    var p := seq(|list|, i requires 0 <= i < |list| => IndexOf(origins[i], origins'));
    var q := seq(|list'|, i requires 0 <= i < |list'| => IndexOf(origins'[i], origins));
    forall i | 0 <= i < |list| ensures Identical(list[i], list'[p[i]]) {
      SameOriginSameUpstream(env, ups, a, b, list[i], list'[p[i]], origins[i]);
    }
    assert Pairs(p, q, list, list', Identical);
  }

  lemma SamePairsSame(a: seq<Backend>, b: seq<Backend>)
    requires SameElements(a, b, Identical)
    ensures multiset(a) == multiset(b)
  {
    assert Equivalence<Backend>(Identical);
    GreedyDecidesPairing(a, b, Identical);
    GreedyIsMultisetEquality(a, b);
  }

  lemma SameMultisetsEqual(a: seq<Backend>, b: seq<Backend>)
    requires multiset(a) == multiset(b)
    ensures Same(Of(a), Of(b), EqualBackend)
  {
    assert Equivalence<Backend>(Identical);
    GreedyIsMultisetEquality(a, b);
    GreedyDecidesPairing(a, b, Identical);
    var p, q :| Pairs(p, q, a, b, Identical);
    BackendEquivalence();
    forall i | 0 <= i < |a| ensures EqualBackend(a[i], b[p[i]]) {
      assert Identical(a[i], b[p[i]]);
    }
    assert Pairs(p, q, a, b, EqualBackend);
    GreedyDecidesPairing(a, b, EqualBackend);
  }

  /** The upstreams returned are the same up to the order of equal names. */
  lemma UpstreamsEqual(env: Env, ups: Table, a: Hosts, b: Hosts, c: Compiled, list: seq<Backend>, origins: seq<Origin>,
                       c': Compiled, list': seq<Backend>, origins': seq<Origin>)
    requires SameButTypes(a, b) && NoCollision(env, ups, a)
    requires IsCompiled(env, ups, a, c, list, origins) && IsCompiled(env, ups, b, c', list', origins')
    ensures Same(Of(c.upstreams), Of(c'.upstreams), EqualBackend)
  {
    ListingsPair(env, ups, a, b, list, origins, list', origins');
    SamePairsSame(list, list');
    SortPermutes(list, NameBefore);
    SortPermutes(list', NameBefore);
    SameMultisetsEqual(c.upstreams, c'.upstreams);
  }

  // ---------------------------------------------------------------- servers

  function HostnamesIn(servers: seq<Server>): (r: seq<string>)
    ensures |r| == |servers|
  {
    seq(|servers|, i requires 0 <= i < |servers| => servers[i].hostname)
  }

  lemma HostnamesIncrease(servers: seq<Server>)
    requires Certificates.DistinctHostnames(servers) && Sorted(servers, HostnameBefore)
    ensures Increasing(HostnamesIn(servers))
  {
    forall i, j | 0 <= i < j < |servers| ensures Less(HostnamesIn(servers)[i], HostnamesIn(servers)[j]) {
      assert !HostnameBefore(servers[j], servers[i]);
      LessTotal(servers[i].hostname, servers[j].hostname);
    }
  }

  lemma HostnamesAre(env: Env, ups: Table, a: Hosts, list: seq<Server>, h: string)
    requires ServersListed(env, ups, a, a.Keys, list)
    ensures h in HostnamesIn(list) <==> h in a
  {
    if h in a {
      assert Certificates.IsHostname(h, list);
      var i :| 0 <= i < |list| && list[i].hostname == h;
      assert HostnamesIn(list)[i] == h;
    }
  }

  /** The servers come in the same order. */
  lemma ServersCorrespond(env: Env, ups: Table, a: Hosts, b: Hosts, list: seq<Server>, list': seq<Server>)
    requires a.Keys == b.Keys
    requires ServersListed(env, ups, a, a.Keys, list) && Sorted(list, HostnameBefore)
    requires ServersListed(env, ups, b, b.Keys, list') && Sorted(list', HostnameBefore)
    ensures |list| == |list'|
    ensures forall i :: 0 <= i < |list| ==>
              && list[i].hostname == list'[i].hostname && list[i].hostname in a
              && list[i] == Finished(env, ups, a[list[i].hostname])
              && list'[i] == Finished(env, ups, b[list[i].hostname])
  {
    HostnamesIncrease(list);
    HostnamesIncrease(list');
    var hs, hs' := HostnamesIn(list), HostnamesIn(list');
    forall h ensures h in hs <==> h in hs' {
      HostnamesAre(env, ups, a, list, h);
      HostnamesAre(env, ups, b, list', h);
    }
    IncreasingUnique(hs, hs');
    forall i | 0 <= i < |list| ensures list[i].hostname == list'[i].hostname {
      assert hs[i] == hs'[i];
    }
  }

  // ---------------------------------------------------------------- configurations

  /** A server as it is part of the configuration. */
  function Final(env: Env, ups: Table, server: Server): Server { RewrittenServer(Finished(env, ups, server)) }

  /** The servers are made into ones that compare equal and pass TLS through alike. */
  predicate FinallyEqualServers(env: Env, ups: Table, x: Server, y: Server) {
    && EqualServer(Final(env, ups, x), Final(env, ups, y))
    && PassthroughOf(Final(env, ups, x)) == PassthroughOf(Final(env, ups, y))
  }

  ghost predicate FinallyEqual(env: Env, ups: Table, a: Hosts, b: Hosts) {
    a.Keys == b.Keys && forall h :: h in a ==> FinallyEqualServers(env, ups, a[h], b[h])
  }

  lemma {:induction false} PassthroughsAlike(a: seq<Server>, b: seq<Server>)
    requires |a| == |b| && forall i :: 0 <= i < |a| ==> PassthroughOf(a[i]) == PassthroughOf(b[i])
    ensures Passthroughs(a) == Passthroughs(b)
  {
    if a == [] {
    } else {
      PassthroughsAlike(a[..|a| - 1], b[..|b| - 1]);
    }
  }

  /** Two results, from servers that differ in path types at most and are finally equal, assemble to equal
      configurations, whatever the order of the maps. */
  lemma ResultsEqual(env: Env, ups: Table, a: Hosts, b: Hosts, c: Compiled, list: seq<Backend>, origins: seq<Origin>,
                     c': Compiled, list': seq<Backend>, origins': seq<Origin>, rest: Rest)
    requires SameButTypes(a, b) && NoCollision(env, ups, a) && FinallyEqual(env, ups, a, b)
    requires IsCompiled(env, ups, a, c, list, origins) && IsCompiled(env, ups, b, c', list', origins')
    ensures EqualConfiguration(Assembled(c, rest), Assembled(c', rest))
  {
    UpstreamsEqual(env, ups, a, b, c, list, origins, c', list', origins');
    ServersCorrespond(env, ups, a, b, c.servers, c'.servers);
    var x, y := RewrittenServers(c.servers), RewrittenServers(c'.servers);
    forall i | 0 <= i < |x| ensures EqualServer(x[i], y[i]) && PassthroughOf(x[i]) == PassthroughOf(y[i]) {
      var h := c.servers[i].hostname;
      assert x[i] == Final(env, ups, a[h]) && y[i] == Final(env, ups, b[h]);
      assert FinallyEqualServers(env, ups, a[h], b[h]);
    }
    PassthroughsAlike(x, y);
    ConfigurationReflexive(Assembled(c, rest));
  }

  lemma SameIsFinallyEqual(env: Env, ups: Table, a: Hosts)
    ensures SameButTypes(a, a) && FinallyEqual(env, ups, a, a)
  {
    forall h | h in a ensures FinallyEqualServers(env, ups, a[h], a[h]) {
      ServerReflexive(Final(env, ups, a[h]));
    }
  }

  /** The order of the maps never causes a sync: a controller that runs one result skips any other for the same
      upstreams and servers, unless a custom upstream takes the name of an upstream. */
  lemma MapOrderIsUnseen(env: Env, ups: Table, servers: Hosts, c: Compiled, list: seq<Backend>, origins: seq<Origin>,
                         c': Compiled, list': seq<Backend>, origins': seq<Origin>, rest: Rest,
                         s: Sync.State, input: Sync.Input)
    requires NoCollision(env, ups, servers)
    requires IsCompiled(env, ups, servers, c, list, origins) && IsCompiled(env, ups, servers, c', list', origins')
    requires s.running.(configurationChecksum := "") == Assembled(c, rest) && input.desired == Assembled(c', rest)
    ensures EqualConfiguration(s.running, input.desired) && Sync.Step(s, input) == (s, true)
  {
    SameIsFinallyEqual(env, ups, servers);
    ResultsEqual(env, ups, servers, servers, c, list, origins, c', list', origins', rest);
  }

  // ---------------------------------------------------------------- a collision

  /** What a location gets from two upstreams in turn.  The second makes another copy exactly if the first had no
      endpoints, the custom name is that of the second, and the second has no endpoints either or the location asks for
      custom errors.  In the other order there is one copy. */
  lemma CollisionDependsOnOrder(env: Env, n: Backend, m: Backend, l: Location)
    requires n.name != m.name && Gets(env, n, l)
    ensures !Gets(env, m, l) && Switched(env, m, l) == l
    ensures Gets(env, m, Switched(env, n, l)) <==>
            && |n.endpoints.Items()| == 0 && CustomName(l.defaultBackend.value) == m.name
            && (|m.endpoints.Items()| == 0 || |l.customHTTPErrors.Items()| != 0)
  {
  }
}
