/** internal/ingress/controller/controller.go (getBackendServers, the loop that lists the upstreams, and
    shouldCreateUpstreamForLocationDefaultBackend): custom default backends.

    The source walks two maps, of upstreams and of servers, in no particular order, and changes locations on
    the way.  Below: the locations come out the same whatever the order, every location still leads to a
    listed upstream, and exactly when two listed upstreams share a name.
 */
module CustomBackends {
  import opened Matching
  import opened Strings
  import opened Types
  import opened Sorting
  import opened Upstreams
  import opened Servers

  // ---------------------------------------------------------------- one upstream and one location

  predicate ShouldCreateUpstream(upstream: Backend, l: Location) {
    && upstream.name == l.backend
    && (|upstream.endpoints.Items()| == 0 || |l.customHTTPErrors.Items()| != 0)
    && l.defaultBackend.Some?
  }

  function CustomName(service: Service): string { "custom-default-backend-" + service.name }

  /** The location asks for a custom default backend that has a port. */
  predicate Asks(upstream: Backend, l: Location) {
    ShouldCreateUpstream(upstream, l) && l.defaultBackend.value.ports != 0
  }

  predicate Gets(env: Env, upstream: Backend, l: Location) {
    Asks(upstream, l) && |env.endpointsOf(l.defaultBackend.value)| > 0
  }

  function Custom(env: Env, upstream: Backend, service: Service): Backend {
    upstream.(name := CustomName(service), endpoints := Of(env.endpointsOf(service)))
  }

  function Switched(env: Env, upstream: Backend, l: Location): Location {
    if !Gets(env, upstream, l) then l else
    var name := CustomName(l.defaultBackend.value);
    l.(defaultBackendUpstreamName := name, backend := if |upstream.endpoints.Items()| == 0 then name else l.backend)
  }

  function SwitchedAll(env: Env, upstream: Backend, ls: seq<Location>): (r: seq<Location>)
    ensures |r| == |ls|
  {
    seq(|ls|, i requires 0 <= i < |ls| => Switched(env, upstream, ls[i]))
  }

  function SwitchedServer(env: Env, upstream: Backend, server: Server): Server {
    server.(locations := SwitchedAll(env, upstream, server.locations))
  }

  // ---------------------------------------------------------------- one upstream, all locations

  /** A location of a server. */
  datatype Spot = Spot(host: string, index: nat)

  predicate IsSpot(servers: Hosts, s: Spot) { s.host in servers && s.index < |servers[s.host].locations| }

  function At(servers: Hosts, s: Spot): Location
    requires IsSpot(servers, s)
  {
    servers[s.host].locations[s.index]
  }

  /** The spots below index n on a host that get a custom upstream. */
  ghost predicate Marks(env: Env, upstream: Backend, servers: Hosts, h: string, n: nat, s: Spot) {
    s.host == h && s.index < n && IsSpot(servers, s) && Gets(env, upstream, At(servers, s))
  }

  /** The copies of the upstream made for the spots. */
  ghost predicate Copies(env: Env, upstream: Backend, servers: Hosts, added: seq<Backend>, spots: seq<Spot>) {
    && |added| == |spots| && Distinct(spots)
    && forall j :: 0 <= j < |spots| ==>
         && IsSpot(servers, spots[j]) && Gets(env, upstream, At(servers, spots[j]))
         && added[j] == Custom(env, upstream, At(servers, spots[j]).defaultBackend.value)
  }

  lemma CopiesAppend(env: Env, upstream: Backend, servers: Hosts, added: seq<Backend>, spots: seq<Spot>, s: Spot)
    requires Copies(env, upstream, servers, added, spots) && s !in spots
    requires IsSpot(servers, s) && Gets(env, upstream, At(servers, s))
    ensures
      var copy := Custom(env, upstream, At(servers, s).defaultBackend.value);
      Copies(env, upstream, servers, added + [copy], spots + [s])
  {
    var more := spots + [s];
    assert forall i :: 0 <= i < |spots| ==> more[i] == spots[i] && spots[i] in spots;
  }

  /** A root location behind which TLS is passed through. */
  predicate PassesThrough(env: Env, upstream: Backend, server: Server, l: Location) {
    && server.sslPassthrough && Asks(upstream, l) && l.path == RootLocation
    && Switched(env, upstream, l).backend != DefUpstreamName
  }

  ghost predicate PassesBelow(env: Env, upstream: Backend, server: Server, n: nat)
    requires n <= |server.locations|
  {
    exists i :: 0 <= i < n && PassesThrough(env, upstream, server, server.locations[i])
  }

  /** One turn of the innermost loop. */
  method CustomizeLocation(env: Env, upstream: Backend, server: Server, l: Location)
    returns (location: Location, nb: Option<Backend>, https: bool)
    ensures location == Switched(env, upstream, l)
    ensures nb == if Gets(env, upstream, l) then Some(Custom(env, upstream, l.defaultBackend.value)) else None
    ensures https == PassesThrough(env, upstream, server, l)
  {
    location, nb, https := l, None, false;
    if !ShouldCreateUpstream(upstream, location) {
      return;
    }
    if location.defaultBackend.value.ports == 0 {
      return;
    }
    var endps := env.endpointsOf(location.defaultBackend.value);
    if |endps| > 0 {
      var name := "custom-default-backend-" + location.defaultBackend.value.name;
      nb := Some(upstream.(name := name, endpoints := Of(endps)));
      location := location.(defaultBackendUpstreamName := name);
      if |upstream.endpoints.Items()| == 0 {
        location := location.(backend := name);
      }
    }
    if server.sslPassthrough {
      if location.path == RootLocation {
        if location.backend == DefUpstreamName {
          return;
        }
        https := true;
      }
    }
  }

  /** What the loop over the locations of one server has done after n turns. */
  ghost predicate Customized(env: Env, upstream: Backend, servers: Hosts, h: string, n: nat,
                             locations: seq<Location>, added: seq<Backend>, https: bool, spots: seq<Spot>) {
    && h in servers && n <= |servers[h].locations|
    && locations == SwitchedAll(env, upstream, servers[h].locations)[..n] + servers[h].locations[n..]
    && Copies(env, upstream, servers, added, spots)
    && Marked(env, upstream, servers, h, n, spots)
    && https == PassesBelow(env, upstream, servers[h], n)
  }

  lemma CustomizedStep(env: Env, upstream: Backend, servers: Hosts, h: string, n: nat,
                       locations: seq<Location>, added: seq<Backend>, https: bool, spots: seq<Spot>)
    requires Customized(env, upstream, servers, h, n, locations, added, https, spots) && n < |servers[h].locations|
    ensures
      var l := servers[h].locations[n];
      && n < |locations| && locations[n] == l
      && var switched := locations[n := Switched(env, upstream, l)];
         var passes := PassesThrough(env, upstream, servers[h], l);
         if Gets(env, upstream, l)
         then Customized(env, upstream, servers, h, n + 1, switched,
                         added + [Custom(env, upstream, l.defaultBackend.value)], https || passes, spots + [Spot(h, n)])
         else Customized(env, upstream, servers, h, n + 1, switched, added, https || passes, spots)
  {
    var l := servers[h].locations[n];
    SwitchStep(env, upstream, servers[h].locations, n);
    MarkedStep(env, upstream, servers, h, n, spots);
    if Gets(env, upstream, l) {
      CopiesAppend(env, upstream, servers, added, spots, Spot(h, n));
    }
  }

  /** The loop over the locations of one server. */
  method CustomizeServer(env: Env, upstream: Backend, ghost servers: Hosts, h: string, server: Server)
    returns (r: Server, added: seq<Backend>, https: bool, ghost spots: seq<Spot>)
    requires h in servers && servers[h] == server
    ensures r == SwitchedServer(env, upstream, server)
    ensures Copies(env, upstream, servers, added, spots)
    ensures Marked(env, upstream, servers, h, |server.locations|, spots)
    ensures https == PassesBelow(env, upstream, server, |server.locations|)
  {
    added, https, spots := [], false, [];
    var locations := server.locations;
    for i := 0 to |server.locations|
      invariant |locations| == |server.locations|
      invariant Customized(env, upstream, servers, h, i, locations, added, https, spots)
    {
      CustomizedStep(env, upstream, servers, h, i, locations, added, https, spots);
      var location, nb, passes := CustomizeLocation(env, upstream, server, locations[i]);
      locations := locations[i := location];
      https := https || passes;
      if nb.Some? {
        added, spots := added + [nb.value], spots + [Spot(h, i)];
      }
    }
    r := server.(locations := locations);
  }

  lemma SwitchStep(env: Env, upstream: Backend, ls: seq<Location>, i: nat)
    requires i < |ls|
    ensures
      var out := SwitchedAll(env, upstream, ls);
      && (out[..i] + ls[i..])[i] == ls[i]
      && out[..i + 1] + ls[i + 1..] == (out[..i] + ls[i..])[i := Switched(env, upstream, ls[i])]
  {
  }

  ghost predicate Marked(env: Env, upstream: Backend, servers: Hosts, h: string, n: nat, spots: seq<Spot>) {
    forall s :: s in spots <==> Marks(env, upstream, servers, h, n, s)
  }

  lemma MarkedStep(env: Env, upstream: Backend, servers: Hosts, h: string, i: nat, spots: seq<Spot>)
    requires h in servers && i < |servers[h].locations| && Marked(env, upstream, servers, h, i, spots)
    ensures Spot(h, i) !in spots
    ensures
      var marked := if Gets(env, upstream, servers[h].locations[i]) then spots + [Spot(h, i)] else spots;
      Marked(env, upstream, servers, h, i + 1, marked)
  {
    forall s ensures Marks(env, upstream, servers, h, i + 1, s) <==>
      Marks(env, upstream, servers, h, i, s) || (s == Spot(h, i) && Gets(env, upstream, servers[h].locations[i]))
    {
      assert s.host == h && s.index == i ==> s == Spot(h, i);
    }
  }

  lemma CopiesConcat(env: Env, upstream: Backend, servers: Hosts,
                     a: seq<Backend>, s: seq<Spot>, b: seq<Backend>, t: seq<Spot>)
    requires Copies(env, upstream, servers, a, s) && Copies(env, upstream, servers, b, t)
    requires forall x :: x in s ==> x !in t
    ensures Copies(env, upstream, servers, a + b, s + t)
  {
    var all := s + t;
    forall i, j | 0 <= i < j < |all| ensures all[i] != all[j] {
      assert all[i] == if i < |s| then s[i] else t[i - |s|];
      assert all[j] == if j < |s| then s[j] else t[j - |s|];
      if i < |s| <= j {
        assert s[i] in s && t[j - |s|] in t;
      }
    }
  }

  ghost predicate PassesOn(env: Env, upstream: Backend, servers: Hosts, h: string) {
    h in servers && PassesBelow(env, upstream, servers[h], |servers[h].locations|)
  }

  /** The loop over the servers, in any order. */
  method CustomizeServers(env: Env, upstream: Backend, servers: Hosts)
    returns (r: Hosts, added: seq<Backend>, https: bool, ghost spots: seq<Spot>)
    ensures r.Keys == servers.Keys
    ensures forall h :: h in servers ==> r[h] == SwitchedServer(env, upstream, servers[h])
    ensures Copies(env, upstream, servers, added, spots)
    ensures forall s :: s in spots <==> IsSpot(servers, s) && Gets(env, upstream, At(servers, s))
    ensures https <==> exists h :: PassesOn(env, upstream, servers, h)
  {
    r, added, https, spots := servers, [], false, [];
    var todo := servers.Keys;
    while todo != {}
      invariant todo <= servers.Keys == r.Keys
      invariant forall h :: h in servers ==>
                  r[h] == if h in todo then servers[h] else SwitchedServer(env, upstream, servers[h])
      invariant Copies(env, upstream, servers, added, spots)
      invariant forall s :: s in spots <==> s.host !in todo && IsSpot(servers, s) && Gets(env, upstream, At(servers, s))
      invariant https <==> exists h :: h !in todo && PassesOn(env, upstream, servers, h)
      decreases todo
    {
      var h :| h in todo;
      todo := todo - {h};
      var server, more, passes, here := CustomizeServer(env, upstream, servers, h, r[h]);
      CopiesConcat(env, upstream, servers, added, spots, more, here);
      r := r[h := server];
      added, https, spots := added + more, https || passes, spots + here;
    }
  }

  // ---------------------------------------------------------------- all upstreams

  predicate Deserves(env: Env, ups: Table, l: Location) {
    l.backend in ups && l.backend != DefUpstreamName && Gets(env, ups[l.backend], l)
  }

  /** What becomes of a location. */
  function CustomLocation(env: Env, ups: Table, l: Location): Location {
    if l.backend in ups && l.backend != DefUpstreamName then Switched(env, ups[l.backend], l) else l
  }

  function CustomLocations(env: Env, ups: Table, ls: seq<Location>): (r: seq<Location>)
    ensures |r| == |ls|
  {
    seq(|ls|, i requires 0 <= i < |ls| => CustomLocation(env, ups, ls[i]))
  }

  function CustomServer(env: Env, ups: Table, server: Server): Server {
    server.(locations := CustomLocations(env, ups, server.locations))
  }

  /** The location once the upstreams of these names have had their turn. */
  function Progress(env: Env, ups: Table, done: set<string>, l: Location): Location {
    if l.backend in done then CustomLocation(env, ups, l) else l
  }

  function ProgressServer(env: Env, ups: Table, done: set<string>, server: Server): Server {
    server.(locations := seq(|server.locations|, i requires 0 <= i < |server.locations| =>
                           Progress(env, ups, done, server.locations[i])))
  }

  /** The order does not matter: a location that has switched meets its new name without further effect. */
  lemma ProgressStep(env: Env, ups: Table, done: set<string>, n: string, l: Location)
    requires n in ups && ups[n].name == n && n != DefUpstreamName && n !in done
    ensures Switched(env, ups[n], Progress(env, ups, done, l)) == Progress(env, ups, done + {n}, l)
  {
  }

  lemma ProgressServerStep(env: Env, ups: Table, done: set<string>, n: string, server: Server)
    requires n in ups && ups[n].name == n && n !in done
    ensures n != DefUpstreamName ==>
              SwitchedServer(env, ups[n], ProgressServer(env, ups, done, server)) ==
              ProgressServer(env, ups, done + {n}, server)
    ensures n == DefUpstreamName ==>
            ProgressServer(env, ups, done, server) == ProgressServer(env, ups, done + {n}, server)
  {
    if n != DefUpstreamName {
      forall i | 0 <= i < |server.locations|
        ensures Switched(env, ups[n], Progress(env, ups, done, server.locations[i])) ==
                Progress(env, ups, done + {n}, server.locations[i])
      {
        ProgressStep(env, ups, done, n, server.locations[i]);
      }
    }
  }

  /** Where a listed upstream comes from: the table, or a spot that got a copy of an upstream. */
  datatype Origin = FromTable(name: string) | FromSpot(spot: Spot, copied: string)

  /** No custom upstream takes the name of an upstream in the table. */
  ghost predicate NoCollision(env: Env, ups: Table, servers: Hosts) {
    forall s :: IsSpot(servers, s) && Deserves(env, ups, At(servers, s)) ==>
      CustomName(At(servers, s).defaultBackend.value) !in ups
  }

  ghost predicate PassedThrough(env: Env, ups: Table, servers: Hosts, k: string)
    requires k in ups
  {
    k != DefUpstreamName && exists h :: PassesOn(env, ups[k], servers, h)
  }

  ghost predicate Listed(env: Env, ups: Table, servers: Hosts, done: set<string>, b: Backend, o: Origin)
    requires done <= ups.Keys
  {
    match o
    case FromTable(k) =>
      && k in done && (b == ups[k] || b == ups[k].(sslPassthrough := true))
      && (NoCollision(env, ups, servers) ==>
          b.sslPassthrough == (ups[k].sslPassthrough || PassedThrough(env, ups, servers, k)))
    case FromSpot(s, m) =>
      && IsSpot(servers, s) && Deserves(env, ups, At(servers, s)) && m in done
      && b == Custom(env, ups[m], At(servers, s).defaultBackend.value)
      && (NoCollision(env, ups, servers) ==> m == At(servers, s).backend)
  }

  ghost predicate AllListed(env: Env, ups: Table, servers: Hosts, done: set<string>, list: seq<Backend>,
                            origins: seq<Origin>)
    requires done <= ups.Keys
  {
    && |list| == |origins|
    && forall j :: 0 <= j < |list| ==> Listed(env, ups, servers, done, list[j], origins[j])
  }

  /** Nothing is missing: an upstream that had its turn, or a spot that deserves an upstream of its own. */
  ghost predicate Complete(env: Env, ups: Table, servers: Hosts, done: set<string>, origins: seq<Origin>) {
    && (forall k :: k in done ==> FromTable(k) in origins)
    && (forall s :: IsSpot(servers, s) && Deserves(env, ups, At(servers, s)) && At(servers, s).backend in done ==>
          FromSpot(s, At(servers, s).backend) in origins)
  }

  /** The list so far: all upstreams that had their turn, and one custom upstream for each spot that
      deserves one. */
  ghost predicate Listing(env: Env, ups: Table, servers: Hosts, done: set<string>, list: seq<Backend>,
                          origins: seq<Origin>)
    requires done <= ups.Keys
  {
    && AllListed(env, ups, servers, done, list, origins)
    && Distinct(origins)
    && Complete(env, ups, servers, done, origins)
  }

  function SpotOrigins(spots: seq<Spot>, n: string): (r: seq<Origin>)
    ensures |r| == |spots|
  {
    seq(|spots|, j requires 0 <= j < |spots| => FromSpot(spots[j], n))
  }

  ghost predicate Progressed(env: Env, ups: Table, done: set<string>, servers: Hosts, cur: Hosts) {
    cur.Keys == servers.Keys && forall h :: h in servers ==> cur[h] == ProgressServer(env, ups, done, servers[h])
  }

  /** A spot that gets a copy when upstream n has its turn deserved one from the start. */
  lemma SpotStep(env: Env, ups: Table, done: set<string>, n: string, servers: Hosts, cur: Hosts, s: Spot)
    requires n in ups && ups[n].name == n && n != DefUpstreamName && n !in done && done <= ups.Keys
    requires Progressed(env, ups, done, servers, cur) && IsSpot(servers, s)
    ensures IsSpot(cur, s) && At(cur, s) == Progress(env, ups, done, At(servers, s))
    ensures Gets(env, ups[n], At(cur, s)) ==>
              Deserves(env, ups, At(servers, s)) && At(cur, s).defaultBackend == At(servers, s).defaultBackend
    ensures Gets(env, ups[n], At(cur, s)) && NoCollision(env, ups, servers) ==> At(servers, s).backend == n
    ensures Deserves(env, ups, At(servers, s)) && At(servers, s).backend == n ==> Gets(env, ups[n], At(cur, s))
  {
  }

  lemma PassesStep(env: Env, ups: Table, done: set<string>, n: string, servers: Hosts, cur: Hosts, h: string)
    requires n in ups && ups[n].name == n && n != DefUpstreamName && n !in done && done <= ups.Keys
    requires Progressed(env, ups, done, servers, cur) && NoCollision(env, ups, servers)
    ensures PassesOn(env, ups[n], cur, h) <==> PassesOn(env, ups[n], servers, h)
  {
    if h in servers {
      forall i | 0 <= i < |servers[h].locations|
        ensures PassesThrough(env, ups[n], cur[h], cur[h].locations[i]) <==>
                PassesThrough(env, ups[n], servers[h], servers[h].locations[i])
      {
        var l := servers[h].locations[i];
        assert At(servers, Spot(h, i)) == l;
        if Deserves(env, ups, l) {
          assert IsSpot(servers, Spot(h, i));
          assert CustomName(l.defaultBackend.value) !in ups;
        }
      }
    }
  }

  lemma OriginsGrow(origins: seq<Origin>, spots: seq<Spot>, n: string)
    requires Distinct(origins) && Distinct(spots)
    requires forall o :: o in origins ==> (o.FromTable? ==> o.name != n) && (o.FromSpot? ==> o.copied != n)
    ensures Distinct(origins + [FromTable(n)] + SpotOrigins(spots, n))
  {
    var more := SpotOrigins(spots, n);
    var all := origins + [FromTable(n)] + more;
    forall i, j | 0 <= i < j < |all| ensures all[i] != all[j] {
      var m := |origins|;
      assert all[i] == if i < m then origins[i] else if i == m then FromTable(n) else more[i - m - 1];
      assert all[j] == if j < m then origins[j] else if j == m then FromTable(n) else more[j - m - 1];
      if i < m {
        assert origins[i] in origins;
      }
    }
  }

  lemma ListedLater(env: Env, ups: Table, servers: Hosts, done: set<string>, n: string, b: Backend, o: Origin)
    requires n in ups && done <= ups.Keys && Listed(env, ups, servers, done, b, o)
    ensures Listed(env, ups, servers, done + {n}, b, o)
  {
  }

  lemma OriginsEarlier(env: Env, ups: Table, servers: Hosts, done: set<string>, list: seq<Backend>,
                       origins: seq<Origin>, n: string)
    requires n !in done && done <= ups.Keys && AllListed(env, ups, servers, done, list, origins)
    ensures forall o :: o in origins ==> (o.FromTable? ==> o.name != n) && (o.FromSpot? ==> o.copied != n)
  {
    forall o | o in origins ensures (o.FromTable? ==> o.name != n) && (o.FromSpot? ==> o.copied != n) {
      var j :| 0 <= j < |origins| && origins[j] == o;
      assert Listed(env, ups, servers, done, list[j], o);
    }
  }

  lemma AllListedStep(env: Env, ups: Table, servers: Hosts, done: set<string>, list: seq<Backend>, origins: seq<Origin>,
                      n: string, b: Backend, added: seq<Backend>, spots: seq<Spot>)
    requires n in ups && done <= ups.Keys && AllListed(env, ups, servers, done, list, origins)
    requires Listed(env, ups, servers, done + {n}, b, FromTable(n)) && |added| == |spots|
    requires forall j :: 0 <= j < |spots| ==> Listed(env, ups, servers, done + {n}, added[j], FromSpot(spots[j], n))
    ensures AllListed(env, ups, servers, done + {n}, list + [b] + added,
                      origins + [FromTable(n)] + SpotOrigins(spots, n))
  {
    var list', origins' := list + [b] + added, origins + [FromTable(n)] + SpotOrigins(spots, n);
    forall j | 0 <= j < |list'| ensures Listed(env, ups, servers, done + {n}, list'[j], origins'[j]) {
      var m := |list|;
      if j < m {
        ListedLater(env, ups, servers, done, n, list[j], origins[j]);
      } else if j > m {
        assert list'[j] == added[j - m - 1] && origins'[j] == FromSpot(spots[j - m - 1], n);
      }
    }
  }

  lemma CompleteStep(env: Env, ups: Table, servers: Hosts, done: set<string>, origins: seq<Origin>, n: string,
                     spots: seq<Spot>)
    requires Complete(env, ups, servers, done, origins)
    requires forall s :: IsSpot(servers, s) && Deserves(env, ups, At(servers, s)) && At(servers, s).backend == n ==>
               s in spots
    ensures Complete(env, ups, servers, done + {n}, origins + [FromTable(n)] + SpotOrigins(spots, n))
  {
    var origins' := origins + [FromTable(n)] + SpotOrigins(spots, n);
    assert origins'[|origins|] == FromTable(n);
    forall s | IsSpot(servers, s) && Deserves(env, ups, At(servers, s)) && At(servers, s).backend in done + {n}
      ensures FromSpot(s, At(servers, s).backend) in origins'
    {
      if At(servers, s).backend == n {
        var j :| 0 <= j < |spots| && spots[j] == s;
        assert origins'[|origins| + 1 + j] == FromSpot(s, n);
      } else {
        assert FromSpot(s, At(servers, s).backend) in origins;
      }
    }
  }

  /** The turn of upstream n. */
  lemma ListingStep(env: Env, ups: Table, servers: Hosts, done: set<string>, list: seq<Backend>, origins: seq<Origin>,
                    n: string, b: Backend, cur: Hosts, added: seq<Backend>, spots: seq<Spot>)
    requires n in ups && ups[n].name == n && n != DefUpstreamName && n !in done && done <= ups.Keys
    requires Listing(env, ups, servers, done, list, origins)
    requires Progressed(env, ups, done, servers, cur)
    requires Copies(env, ups[n], cur, added, spots)
    requires forall s :: s in spots <==> IsSpot(cur, s) && Gets(env, ups[n], At(cur, s))
    requires b == if exists h :: PassesOn(env, ups[n], cur, h) then ups[n].(sslPassthrough := true) else ups[n]
    ensures Listing(env, ups, servers, done + {n}, list + [b] + added, origins + [FromTable(n)] + SpotOrigins(spots, n))
  {
    OriginsEarlier(env, ups, servers, done, list, origins, n);
    OriginsGrow(origins, spots, n);
    NewTableEntry(env, ups, servers, done, n, b, cur);
    forall j | 0 <= j < |spots| ensures Listed(env, ups, servers, done + {n}, added[j], FromSpot(spots[j], n)) {
      NewCopy(env, ups, servers, done, n, cur, added, spots, j);
    }
    AllListedStep(env, ups, servers, done, list, origins, n, b, added, spots);
    forall s | IsSpot(servers, s) && Deserves(env, ups, At(servers, s)) && At(servers, s).backend == n
      ensures s in spots
    {
      SpotStep(env, ups, done, n, servers, cur, s);
    }
    CompleteStep(env, ups, servers, done, origins, n, spots);
  }

  lemma NewTableEntry(env: Env, ups: Table, servers: Hosts, done: set<string>, n: string, b: Backend, cur: Hosts)
    requires n in ups && ups[n].name == n && n != DefUpstreamName && n !in done && done <= ups.Keys
    requires Progressed(env, ups, done, servers, cur)
    requires b == if exists h :: PassesOn(env, ups[n], cur, h) then ups[n].(sslPassthrough := true) else ups[n]
    ensures Listed(env, ups, servers, done + {n}, b, FromTable(n))
  {
    if NoCollision(env, ups, servers) {
      forall h ensures PassesOn(env, ups[n], cur, h) <==> PassesOn(env, ups[n], servers, h) {
        PassesStep(env, ups, done, n, servers, cur, h);
      }
    }
  }

  lemma NewCopy(env: Env, ups: Table, servers: Hosts, done: set<string>, n: string, cur: Hosts,
                added: seq<Backend>, spots: seq<Spot>, j: nat)
    requires n in ups && ups[n].name == n && n != DefUpstreamName && n !in done && done <= ups.Keys
    requires Progressed(env, ups, done, servers, cur)
    requires Copies(env, ups[n], cur, added, spots) && j < |spots|
    ensures Listed(env, ups, servers, done + {n}, added[j], FromSpot(spots[j], n))
  {
    SpotStep(env, ups, done, n, servers, cur, spots[j]);
  }

  /** The default upstream is listed as it is. */
  lemma ListingDefault(env: Env, ups: Table, servers: Hosts, done: set<string>, list: seq<Backend>,
                       origins: seq<Origin>)
    requires DefUpstreamName in ups && DefUpstreamName !in done && done <= ups.Keys
    requires Listing(env, ups, servers, done, list, origins)
    ensures Listing(env, ups, servers, done + {DefUpstreamName}, list + [ups[DefUpstreamName]],
                    origins + [FromTable(DefUpstreamName)])
  {
    var n := DefUpstreamName;
    var list', origins' := list + [ups[n]], origins + [FromTable(n)];
    forall j | 0 <= j < |list'| ensures Listed(env, ups, servers, done + {n}, list'[j], origins'[j]) {
      if j < |list| {
        ListedLater(env, ups, servers, done, n, list[j], origins[j]);
      }
    }
    forall j | 0 <= j < |origins| ensures origins[j] != FromTable(n) {
      assert Listed(env, ups, servers, done, list[j], origins[j]);
    }
    assert origins'[|origins|] == FromTable(n);
    assert forall o :: o in origins ==> o in origins';
  }

  /** The loop over the upstreams, in any order. */
  method CustomizeBackends(env: Env, ups: Table, servers0: Hosts)
    returns (aUpstreams: seq<Backend>, servers: Hosts, ghost origins: seq<Origin>)
    requires forall k :: k in ups ==> ups[k].name == k
    ensures servers.Keys == servers0.Keys
    ensures forall h :: h in servers0 ==> servers[h] == CustomServer(env, ups, servers0[h])
    ensures Listing(env, ups, servers0, ups.Keys, aUpstreams, origins)
  {
    aUpstreams, servers, origins := [], servers0, [];
    var todo := ups.Keys;
    ghost var done: set<string> := {};
    assert Progressed(env, ups, done, servers0, servers) by {
      forall h | h in servers0 ensures servers0[h] == ProgressServer(env, ups, {}, servers0[h]) {
        NoProgress(env, ups, servers0[h]);
      }
    }
    while todo != {}
      invariant todo !! done && todo + done == ups.Keys
      invariant Progressed(env, ups, done, servers0, servers)
      invariant Listing(env, ups, servers0, done, aUpstreams, origins)
      decreases todo
    {
      var name :| name in todo;
      todo := todo - {name};
      var upstream := ups[name];
      forall h | h in servers0 {
        ProgressServerStep(env, ups, done, name, servers0[h]);
      }
      if upstream.name == DefUpstreamName {
        ListingDefault(env, ups, servers0, done, aUpstreams, origins);
        aUpstreams, origins, done := aUpstreams + [upstream], origins + [FromTable(name)], done + {name};
        continue;
      }
      var r, added, https, spots := CustomizeServers(env, upstream, servers);
      if https {
        upstream := upstream.(sslPassthrough := true);
      }
      ListingStep(env, ups, servers0, done, aUpstreams, origins, name, upstream, servers, added, spots);
      servers := r;
      aUpstreams, origins := aUpstreams + [upstream] + added, origins + [FromTable(name)] + SpotOrigins(spots, name);
      done := done + {name};
    }
    assert done == ups.Keys;
    forall h | h in servers0 ensures servers[h] == CustomServer(env, ups, servers0[h]) {
      AllProgress(env, ups, servers0[h]);
    }
  }

  lemma NoProgress(env: Env, ups: Table, server: Server)
    ensures ProgressServer(env, ups, {}, server) == server
  {
    assert ProgressServer(env, ups, {}, server).locations == server.locations;
  }

  lemma AllProgress(env: Env, ups: Table, server: Server)
    ensures ProgressServer(env, ups, ups.Keys, server) == CustomServer(env, ups, server)
  {
    assert ProgressServer(env, ups, ups.Keys, server).locations == CustomServer(env, ups, server).locations;
  }

  // ---------------------------------------------------------------- what is listed

  /** Every location whose upstream is in the table leads to a listed upstream, and so does its custom
      default backend. */
  lemma CustomLocationsLeadToListed(env: Env, ups: Table, servers: Hosts, list: seq<Backend>, origins: seq<Origin>,
                                    s: Spot)
    requires forall k :: k in ups ==> ups[k].name == k
    requires Listing(env, ups, servers, ups.Keys, list, origins)
    requires IsSpot(servers, s) && At(servers, s).backend in ups
    ensures
      var l := CustomLocation(env, ups, At(servers, s));
      && (exists j :: 0 <= j < |list| && list[j].name == l.backend)
      && (l.defaultBackendUpstreamName in ups.Keys ||
          l.defaultBackendUpstreamName != At(servers, s).defaultBackendUpstreamName ==>
            exists j :: 0 <= j < |list| && list[j].name == l.defaultBackendUpstreamName)
  {
    var l0 := At(servers, s);
    var l := CustomLocation(env, ups, l0);
    forall k | k in ups ensures exists j :: 0 <= j < |list| && list[j].name == k {
      var j := ListedName(env, ups, servers, list, origins, FromTable(k), k);
    }
    if Deserves(env, ups, l0) {
      var o, name := FromSpot(s, l0.backend), CustomName(l0.defaultBackend.value);
      var j := ListedName(env, ups, servers, list, origins, o, name);
    }
  }

  /** No two spots deserve custom upstreams of the same name, and no such name is in the table.  The name
      leaves out the namespace, and one service named by two locations is enough to break this. */
  ghost predicate Unshared(env: Env, ups: Table, servers: Hosts) {
    && NoCollision(env, ups, servers)
    && forall s, t :: IsSpot(servers, s) && IsSpot(servers, t) && s != t
                      && Deserves(env, ups, At(servers, s)) && Deserves(env, ups, At(servers, t)) ==>
         CustomName(At(servers, s).defaultBackend.value) != CustomName(At(servers, t).defaultBackend.value)
  }

  ghost predicate NamesDistinct(list: seq<Backend>) {
    forall i, j :: 0 <= i < j < |list| ==> list[i].name != list[j].name
  }

  lemma SameNameSameOrigin(env: Env, ups: Table, servers: Hosts, a: Backend, o: Origin, b: Backend, p: Origin)
    requires forall k :: k in ups ==> ups[k].name == k
    requires Listed(env, ups, servers, ups.Keys, a, o) && Listed(env, ups, servers, ups.Keys, b, p)
    requires Unshared(env, ups, servers) && a.name == b.name
    ensures o == p
  {
  }

  lemma NamesUniqueIff(env: Env, ups: Table, servers: Hosts, list: seq<Backend>, origins: seq<Origin>)
    requires forall k :: k in ups ==> ups[k].name == k
    requires Listing(env, ups, servers, ups.Keys, list, origins)
    ensures NamesDistinct(list) <==> Unshared(env, ups, servers)
  {
    if Unshared(env, ups, servers) {
      forall i, j | 0 <= i < j < |list| ensures list[i].name != list[j].name {
        if list[i].name == list[j].name {
          SameNameSameOrigin(env, ups, servers, list[i], origins[i], list[j], origins[j]);
          assert false;
        }
      }
    } else if !NoCollision(env, ups, servers) {
      var s :| IsSpot(servers, s) && Deserves(env, ups, At(servers, s))
               && CustomName(At(servers, s).defaultBackend.value) in ups;
      var name := CustomName(At(servers, s).defaultBackend.value);
      SharedName(env, ups, servers, list, origins, FromTable(name), FromSpot(s, At(servers, s).backend), name);
    } else {
      var s, t :| IsSpot(servers, s) && IsSpot(servers, t) && s != t
        && Deserves(env, ups, At(servers, s)) && Deserves(env, ups, At(servers, t))
        && CustomName(At(servers, s).defaultBackend.value) == CustomName(At(servers, t).defaultBackend.value);
      var o, p := FromSpot(s, At(servers, s).backend), FromSpot(t, At(servers, t).backend);
      SharedName(env, ups, servers, list, origins, o, p, CustomName(At(servers, s).defaultBackend.value));
    }
  }

  /** The name under which an upstream of this origin is listed. */
  ghost predicate IsOriginName(servers: Hosts, o: Origin, name: string) {
    match o
    case FromTable(k) => name == k
    case FromSpot(s, _) =>
      && IsSpot(servers, s) && At(servers, s).defaultBackend.Some?
      && name == CustomName(At(servers, s).defaultBackend.value)
  }

  lemma ListedName(env: Env, ups: Table, servers: Hosts, list: seq<Backend>, origins: seq<Origin>, o: Origin,
                   name: string)
    returns (j: nat)
    requires forall k :: k in ups ==> ups[k].name == k
    requires AllListed(env, ups, servers, ups.Keys, list, origins)
    requires o in origins && IsOriginName(servers, o, name)
    ensures j < |list| && origins[j] == o && list[j].name == name
  {
    j :| 0 <= j < |origins| && origins[j] == o;
    assert Listed(env, ups, servers, ups.Keys, list[j], origins[j]);
  }

  lemma SharedName(env: Env, ups: Table, servers: Hosts, list: seq<Backend>, origins: seq<Origin>, o: Origin, p: Origin,
                   name: string)
    requires forall k :: k in ups ==> ups[k].name == k
    requires AllListed(env, ups, servers, ups.Keys, list, origins)
    requires o in origins && p in origins && o != p
    requires IsOriginName(servers, o, name) && IsOriginName(servers, p, name)
    ensures !NamesDistinct(list)
  {
    var i := ListedName(env, ups, servers, list, origins, o, name);
    var j := ListedName(env, ups, servers, list, origins, p, name);
    assert list[i].name == list[j].name && i != j;
  }
}
