/** What the data plane does after a sync (internal/ingress/controller/controller.go, syncIngress): which Lua
    tables it holds, and what the nginx.conf it has loaded selects for a request.

    A sync returns nil without doing anything when runningConfig equals the new configuration.  The comparison
    (internal/ingress/types_equals.go) leaves out some of what Lua reads and some of what nginx.conf says, path
    types above all.  Below: the exact condition under which nil means that the new configuration is served.
 */
module DataPlane {
  import opened Matching
  import opened Strings
  import opened Types
  import opened Equality
  import opened DynamicConfig
  import opened Hostnames
  import opened Certificates
  import opened Sync
  import opened Selection

  // ---------------------------------------------------------------- what Lua reads

  /** balancer.lua routes to the first alternative only. */
  function FirstAlternative(b: LuaBackend): Option<string> {
    var items := b.alternativeBackends.Items();
    if items == [] then None else Some(items[0])
  }

  /** Of the service it reads whether it is external. */
  predicate IsExternal(b: LuaBackend) { b.service.Some? && b.service.value.kind == "ExternalName" }

  /** What Lua reads and the comparison leaves out: the kind of the service, which alternative comes first, and
      the settings that Backend.Equal does not compare. */
  datatype Unseen = Unseen(external: bool, alternative: Option<string>, settings: string)

  function UnseenOf(b: LuaBackend): Unseen { Unseen(IsExternal(b), FirstAlternative(b), b.uncompared) }

  /** Two backends are the same in the rest of it, with the endpoints in whatever order. */
  predicate SeenAlike(a: LuaBackend, b: LuaBackend) {
    && a.name == b.name && a.port == b.port && a.sslPassthrough == b.sslPassthrough
    && a.noServer == b.noServer && a.options == b.options
    && Same(Of(a.endpoints), Of(b.endpoints), EqualEndpoint)
  }

  /** Lua treats two backends alike: the same in all it reads. */
  predicate SameLua(a: LuaBackend, b: LuaBackend) { SeenAlike(a, b) && UnseenOf(a) == UnseenOf(b) }

  predicate Corresponds(a: LuaBackend, b: LuaBackend) { a.name == b.name && a.port == b.port }

  ghost predicate UnseenAgree(p: seq<LuaBackend>, q: seq<LuaBackend>) {
    forall i, j :: 0 <= i < |p| && 0 <= j < |q| && Corresponds(p[i], q[j]) ==> UnseenOf(p[i]) == UnseenOf(q[j])
  }

  ghost predicate DistinctKeys(q: seq<LuaBackend>) {
    forall i, j :: 0 <= i < j < |q| ==> !Corresponds(q[i], q[j])
  }

  lemma UnseenSuffices(p: seq<LuaBackend>, q: seq<LuaBackend>)
    requires SameElements(p, q, SeenAlike) && UnseenAgree(p, q)
    ensures SameElements(p, q, SameLua)
  {
    var f, g :| Pairs(f, g, p, q, SeenAlike);
    forall i | 0 <= i < |p| ensures SameLua(p[i], q[f[i]]) {
      assert SeenAlike(p[i], q[f[i]]);
      assert Corresponds(p[i], q[f[i]]);
    }
    assert Pairs(f, g, p, q, SameLua);
  }

  lemma UnseenIsNeeded(p: seq<LuaBackend>, q: seq<LuaBackend>)
    requires SameElements(p, q, SameLua) && DistinctKeys(q)
    ensures UnseenAgree(p, q)
  {
    var f, g :| Pairs(f, g, p, q, SameLua);
    forall i, j | 0 <= i < |p| && 0 <= j < |q| && Corresponds(p[i], q[j]) ensures UnseenOf(p[i]) == UnseenOf(q[j]) {
      assert SameLua(p[i], q[f[i]]);
      assert Corresponds(q[f[i]], q[j]) && Corresponds(q[j], q[f[i]]);
      assert f[i] == j;
    }
  }

  // ---------------------------------------------------------------- equal configurations, payloads alike so far

  lemma {:induction false} LuaEndpointsRespectEqual(a: seq<Endpoint>, b: seq<Endpoint>)
    requires Greedy(a, b, EqualEndpoint)
    ensures Greedy(LuaEndpoints(a), LuaEndpoints(b), EqualEndpoint)
  {
    EndpointEquivalence();
    GreedyDecidesPairing(a, b, EqualEndpoint);
    var p, q :| Pairs(p, q, a, b, EqualEndpoint);
    forall i | 0 <= i < |a| ensures EqualEndpoint(LuaEndpoints(a)[i], LuaEndpoints(b)[p[i]]) {
      assert EqualEndpoint(a[i], b[p[i]]);
    }
    assert Pairs(p, q, LuaEndpoints(a), LuaEndpoints(b), EqualEndpoint);
    GreedyDecidesPairing(LuaEndpoints(a), LuaEndpoints(b), EqualEndpoint);
  }

  lemma ToLuaRespectsEqual(x: Backend, y: Backend)
    requires EqualBackend(x, y)
    ensures SeenAlike(ToLua(x), ToLua(y))
  {
    if x.endpoints.Of? {
      LuaEndpointsRespectEqual(x.endpoints.items, y.endpoints.items);
    } else {
      assert LuaEndpoints([]) == [];
    }
  }

  lemma BackendsPayloadRespectsEqual(a: Slice<Backend>, b: Slice<Backend>)
    requires Same(a, b, EqualBackend)
    ensures SameElements(BackendsPayload(a), BackendsPayload(b), SeenAlike)
  {
    if a.Nil? {
      assert Pairs([], [], BackendsPayload(a), BackendsPayload(b), SeenAlike);
    } else {
      BackendEquivalence();
      GreedyDecidesPairing(a.items, b.items, EqualBackend);
      var p, q :| Pairs(p, q, a.items, b.items, EqualBackend);
      forall i | 0 <= i < |a.items| ensures SeenAlike(BackendsPayload(a)[i], BackendsPayload(b)[p[i]]) {
        assert EqualBackend(a.items[i], b.items[p[i]]);
        ToLuaRespectsEqual(a.items[i], b.items[p[i]]);
      }
      assert Pairs(p, q, BackendsPayload(a), BackendsPayload(b), SeenAlike);
    }
  }

  lemma StreamToLuaRespectsEqual(protocol: string, x: L4Service, y: L4Service)
    requires EqualL4Service(x, y)
    ensures SeenAlike(StreamToLua(protocol, x), StreamToLua(protocol, y))
  {
  }

  lemma StreamPayloadRespectsEqual(protocol: string, a: Slice<L4Service>, b: Slice<L4Service>)
    requires Same(a, b, EqualL4Service)
    ensures SameElements(StreamPayload(protocol, a), StreamPayload(protocol, b), SeenAlike)
  {
    var x, y := StreamPayload(protocol, a), StreamPayload(protocol, b);
    if a.Nil? {
      assert Pairs([], [], x, y, SeenAlike);
    } else {
      L4ServiceEquivalence();
      GreedyDecidesPairing(a.items, b.items, EqualL4Service);
      var p, q :| Pairs(p, q, a.items, b.items, EqualL4Service);
      forall i | 0 <= i < |a.items| ensures SeenAlike(x[i], y[p[i]]) {
        assert EqualL4Service(a.items[i], b.items[p[i]]);
        StreamToLuaRespectsEqual(protocol, a.items[i], b.items[p[i]]);
      }
      assert Pairs(p, q, x, y, SeenAlike);
    }
  }

  lemma SameElementsConcat<T>(a: seq<T>, b: seq<T>, c: seq<T>, d: seq<T>, eq: (T, T) -> bool)
    requires SameElements(a, b, eq) && SameElements(c, d, eq)
    ensures SameElements(a + c, b + d, eq)
  {
    var p1, q1 :| Pairs(p1, q1, a, b, eq);
    var p2, q2 :| Pairs(p2, q2, c, d, eq);
    var m, n := |a|, |c|;
    var p, q := InversesConcat(p1, q1, m, p2, q2, n);
    forall i | 0 <= i < m + n ensures eq((a + c)[i], (b + d)[p[i]]) {
      assert i < m ==> eq(a[i], b[p1[i]]);
      assert i >= m ==> eq(c[i - m], d[p2[i - m]]);
    }
    assert Pairs(p, q, a + c, b + d, eq);
  }

  lemma InversesConcat(p1: seq<nat>, q1: seq<nat>, m: nat, p2: seq<nat>, q2: seq<nat>, n: nat)
    returns (p: seq<nat>, q: seq<nat>)
    requires Inverses(p1, q1, m) && Inverses(p2, q2, n)
    ensures Inverses(p, q, m + n)
    ensures forall i :: 0 <= i < m + n ==> p[i] == if i < m then p1[i] else p2[i - m] + m
  {
    p := seq(m + n, i requires 0 <= i < m + n => if i < m then p1[i] else p2[i - m] + m);
    q := seq(m + n, i requires 0 <= i < m + n => if i < m then q1[i] else q2[i - m] + m);
  }

  lemma PayloadsRespectEqual(a: Configuration, b: Configuration)
    requires EqualConfiguration(a, b)
    ensures SameElements(BackendsPayload(a.backends), BackendsPayload(b.backends), SeenAlike)
    ensures SameElements(StreamsPayload(a), StreamsPayload(b), SeenAlike)
  {
    BackendsPayloadRespectsEqual(a.backends, b.backends);
    StreamPayloadRespectsEqual("tcp", a.tcpEndpoints, b.tcpEndpoints);
    StreamPayloadRespectsEqual("udp", a.udpEndpoints, b.udpEndpoints);
    SameElementsConcat(StreamPayload("tcp", a.tcpEndpoints), StreamPayload("tcp", b.tcpEndpoints),
                       StreamPayload("udp", a.udpEndpoints), StreamPayload("udp", b.udpEndpoints), SeenAlike);
  }

  lemma SamePayload(p: seq<LuaBackend>)
    ensures SameElements(p, p, SameLua)
  {
    var id := seq(|p|, i requires 0 <= i < |p| => i);
    forall i | 0 <= i < |p| ensures SameLua(p[i], p[i]) {
      EndpointEquivalence();
      SameReflexive(Of(p[i].endpoints), EqualEndpoint);
    }
    assert Pairs(id, id, p, p, SameLua);
  }

  // ---------------------------------------------------------------- what nginx.conf says

  /** The settings of a location that are not compared. */
  function Settings(ls: seq<Location>): (r: seq<(string, string)>)
    ensures |r| == |ls|
  {
    seq(|ls|, i requires 0 <= i < |ls| => (ls[i].ingressPath, ls[i].uncompared))
  }

  /** What nginx.conf says of a server beyond what is compared. */
  datatype Text = Text(directives: seq<Directive>, settings: seq<(string, string)>, uncompared: string)

  function TextOf(s: Server): Text { Text(Directives(s.locations), Settings(s.locations), s.uncompared) }

  function Texts(c: Configuration): (r: seq<Text>)
    ensures |r| == |c.servers|
  {
    seq(|c.servers|, i requires 0 <= i < |c.servers| => TextOf(c.servers[i]))
  }

  /** The loaded server does what the desired one says: every request goes to the same position, with the same
      settings there. */
  ghost predicate ServesAlike(loaded: Server, desired: Server) {
    && SelectAlike(loaded.locations, desired.locations)
    && Settings(loaded.locations) == Settings(desired.locations)
    && loaded.uncompared == desired.uncompared
  }

  ghost predicate Renders(conf: Configuration, desired: Configuration) {
    && DynamicEnough(conf, desired)
    && forall k :: 0 <= k < |desired.servers| ==>
         |conf.servers| == |desired.servers| && ServesAlike(conf.servers[k], desired.servers[k])
  }

  /** The data plane does what the desired configuration says. */
  ghost predicate Serves(plane: Plane, desired: Configuration) {
    && SameElements(plane.backends, BackendsPayload(desired.backends), SameLua)
    && SameElements(plane.streams, StreamsPayload(desired), SameLua)
    && plane.certificates == Table(SimpleFold, desired.servers)
    && Renders(plane.conf, desired)
  }

  lemma StaticEqualServers(a: Configuration, b: Configuration, k: nat)
    requires DynamicEnough(a, b) && k < |b.servers|
    ensures |a.servers| == |b.servers| && Pointwise(a.servers[k].locations, b.servers[k].locations, EqualLocation)
  {
    assert EqualServer(Static(a).servers[k], Static(b).servers[k]);
  }

  lemma SameTextServesAlike(a: Server, b: Server)
    requires TextOf(a) == TextOf(b)
    ensures ServesAlike(a, b)
  {
    assert Directives(a.locations) == Directives(b.locations);
  }

  lemma ServesAlikeSameText(a: Server, b: Server)
    requires Pointwise(a.locations, b.locations, EqualLocation) && HasSpareCharacter(b.locations) && ServesAlike(a, b)
    ensures TextOf(a) == TextOf(b)
  {
    var c :| Unused(c, b.locations);
    forall i | 0 <= i < |a.locations| ensures c !in a.locations[i].path {
      assert EqualLocation(a.locations[i], b.locations[i]);
    }
    forall i | 0 <= i < |a.locations| ensures HasPrefix(a.locations[i].path, "/") {
      assert EqualLocation(a.locations[i], b.locations[i]);
    }
    assert Unused(c, a.locations);
    SelectAlikeIff(a.locations, b.locations);
    SameDirectivesIff(a.locations, b.locations);
  }

  ghost predicate SpareCharacters(c: Configuration) {
    forall k :: 0 <= k < |c.servers| ==> HasSpareCharacter(c.servers[k].locations)
  }

  /** Configurations with the same static part render alike exactly if they agree on the directives and on the
      settings that are not compared. */
  lemma RendersIff(conf: Configuration, desired: Configuration)
    requires DynamicEnough(conf, desired)
    ensures Texts(conf) == Texts(desired) ==> Renders(conf, desired)
    ensures SpareCharacters(desired) && Renders(conf, desired) ==> Texts(conf) == Texts(desired)
  {
    assert |conf.servers| == |desired.servers| by {
      assert |Static(conf).servers| == |Static(desired).servers|;
    }
    if Texts(conf) == Texts(desired) {
      forall k | 0 <= k < |desired.servers| ensures ServesAlike(conf.servers[k], desired.servers[k]) {
        assert Texts(conf)[k] == Texts(desired)[k];
        SameTextServesAlike(conf.servers[k], desired.servers[k]);
      }
    }
    if SpareCharacters(desired) && Renders(conf, desired) {
      forall k | 0 <= k < |desired.servers| ensures Texts(conf)[k] == Texts(desired)[k] {
        StaticEqualServers(conf, desired, k);
        ServesAlikeSameText(conf.servers[k], desired.servers[k]);
      }
    }
  }

  // ---------------------------------------------------------------- what a nil return means

  /** In all that the comparison looks at, the data plane is as the configuration says. */
  ghost predicate AgreesWith(plane: Plane, desired: Configuration) {
    && SameElements(plane.backends, BackendsPayload(desired.backends), SeenAlike)
    && SameElements(plane.streams, StreamsPayload(desired), SeenAlike)
    && plane.certificates == Table(SimpleFold, desired.servers)
    && DynamicEnough(plane.conf, desired)
  }

  /** The payloads agree on what the comparison leaves out. */
  ghost predicate PayloadsUnseenAgree(a: Configuration, b: Configuration) {
    && UnseenAgree(BackendsPayload(a.backends), BackendsPayload(b.backends))
    && UnseenAgree(StreamsPayload(a), StreamsPayload(b))
  }

  /** The sync leaves something as it is that differs from what is asked for: the tables, if it is skipped, or the
      nginx.conf that is loaded. */
  ghost predicate LeavesStale(s: State, input: Input) {
    if EqualConfiguration(s.running, input.desired)
    then !PayloadsUnseenAgree(s.running, input.desired) || Texts(s.plane.conf) != Texts(input.desired)
    else !NeedsReload(s, input) && Texts(s.plane.conf) != Texts(input.desired)
  }

  /** The parts of the configuration can be told apart: by the names of backends, and by requests. */
  ghost predicate Distinguishable(c: Configuration) {
    && DistinctKeys(BackendsPayload(c.backends)) && DistinctKeys(StreamsPayload(c))
    && SpareCharacters(c)
  }

  /** The data plane serves the configuration exactly if the condition holds, as far as requests can tell. */
  ghost predicate ServesIff(plane: Plane, desired: Configuration, condition: bool) {
    && (condition ==> Serves(plane, desired))
    && (Distinguishable(desired) && Serves(plane, desired) ==> condition)
  }

  lemma SkippedIsServedIff(s: State, desired: Configuration)
    requires InSync(s) && DuplicateFree(s.running) && EqualConfiguration(s.running, desired)
    ensures AgreesWith(s.plane, desired)
    ensures ServesIff(s.plane, desired,
                      PayloadsUnseenAgree(s.running, desired) && Texts(s.plane.conf) == Texts(desired))
  {
    PayloadsRespectEqual(s.running, desired);
    EqualServersSameTable(SimpleFold, s.running.servers, desired.servers);
    EqualIsDynamicEnough(s.running, desired);
    ConfigurationTransitive(Static(s.plane.conf), Static(s.running), Static(desired));
    RendersIff(s.plane.conf, desired);
    if PayloadsUnseenAgree(s.running, desired) {
      UnseenSuffices(BackendsPayload(s.running.backends), BackendsPayload(desired.backends));
      UnseenSuffices(StreamsPayload(s.running), StreamsPayload(desired));
    }
    if Distinguishable(desired) && Serves(s.plane, desired) {
      UnseenIsNeeded(BackendsPayload(s.running.backends), BackendsPayload(desired.backends));
      UnseenIsNeeded(StreamsPayload(s.running), StreamsPayload(desired));
    }
  }

  lemma SameIsSeenAlike(p: seq<LuaBackend>, q: seq<LuaBackend>)
    requires SameElements(p, q, SameLua)
    ensures SameElements(p, q, SeenAlike)
  {
    var f, g :| Pairs(f, g, p, q, SameLua);
    forall i | 0 <= i < |p| ensures SeenAlike(p[i], q[f[i]]) {
      assert SameLua(p[i], q[f[i]]);
    }
    assert Pairs(f, g, p, q, SeenAlike);
  }

  /** After a sync that does something, all depends on nginx.conf. */
  lemma TablesServeIff(plane: Plane, c: Configuration)
    requires TablesOf(plane, c) && DynamicEnough(plane.conf, c)
    ensures AgreesWith(plane, c) && ServesIff(plane, c, Texts(plane.conf) == Texts(c))
  {
    RendersIff(plane.conf, c);
    SamePayload(plane.backends);
    SamePayload(plane.streams);
    SameIsSeenAlike(plane.backends, plane.backends);
    SameIsSeenAlike(plane.streams, plane.streams);
  }

  /** A sync that does something and returns nil remembers the configuration it was asked for, up to the checksum,
      and loads it if it reloads. */
  lemma AppliedIs(s: State, input: Input)
    requires !Skips(s, input) && Step(s, input).1
    ensures
      var after := Step(s, input).0;
      && after.running == (if NeedsReload(s, input) then Checksummed(input) else input.desired)
      && after.plane.conf == (if NeedsReload(s, input) then Checksummed(input) else s.plane.conf)
  {
  }

  /** The checksum is in neither the tables nor what nginx.conf says. */
  lemma ChecksumIsUnread(plane: Plane, input: Input)
    ensures TablesOf(plane, Checksummed(input)) <==> TablesOf(plane, input.desired)
    ensures Texts(Checksummed(input)) == Texts(input.desired)
  {
  }

  lemma AppliedIsServedIff(s: State, input: Input)
    requires !Skips(s, input) && Step(s, input).1 && InSync(Step(s, input).0)
    ensures
      var after := Step(s, input).0;
      && AgreesWith(after.plane, input.desired)
      && ServesIff(after.plane, input.desired, !LeavesStale(s, input))
  {
    var after := Step(s, input).0;
    AppliedIs(s, input);
    ChecksumIsUnread(after.plane, input);
    if NeedsReload(s, input) {
      SameStatic(input);
    }
    TablesServeIff(after.plane, input.desired);
  }

  /** If the sync returns nil, the data plane agrees with what was asked for in all that is compared, and serves it
      exactly if nothing stale was left. */
  ghost predicate ServedUnlessStale(s: State, input: Input) {
    var (after, ok) := Step(s, input);
    ok ==> AgreesWith(after.plane, input.desired) && ServesIff(after.plane, input.desired, !LeavesStale(s, input))
  }

  /** After any history in which torn syncs are tried again until they go through, whatever else failed or was
      overlooked: a sync that returns nil leaves the data plane agreeing with the configuration it computed in all that
      is compared, and serving it exactly if nothing stale was left. */
  lemma {:induction false} NilMeansServed(history: seq<Input>, input: Input)
    requires Asks(history + [input]) && Persists(InitialState, history + [input], None)
    ensures ServedUnlessStale(Run(InitialState, history), input)
  {
    var s, pending := Run(InitialState, history), PendingAfter(InitialState, history, None);
    AsksSplit(history, input);
    InitiallyInSync();
    PersistsSplit(InitialState, history, input, None);
    PersistentRunsStayConsistent(InitialState, history, None);
    RunningDuplicateFree(InitialState, history);
    ConsistentNilIsServed(s, input, pending);
  }

  lemma ConsistentNilIsServed(s: State, input: Input, pending: Option<Configuration>)
    requires Consistent(s, pending) && DuplicateFree(s.running) && DuplicateFree(input.desired) && !input.shuttingDown
    requires pending.Some? ==> input.desired == pending.value
    ensures ServedUnlessStale(s, input)
  {
    StepStaysConsistent(s, input, pending);
    if EqualConfiguration(s.running, input.desired) {
      SkippedIsServedIff(s, input.desired);
    } else if Step(s, input).1 {
      AppliedIsServedIff(s, input);
    }
  }

  lemma AsksSplit(history: seq<Input>, input: Input)
    requires Asks(history + [input])
    ensures Asks(history) && !input.shuttingDown && DuplicateFree(input.desired)
  {
    assert forall i :: 0 <= i < |history| ==> history[i] == (history + [input])[i];
    assert input == (history + [input])[|history|];
  }

  /** In particular after any history without a torn sync. */
  lemma {:induction false} UntornNilMeansServed(history: seq<Input>, input: Input)
    requires Asks(history + [input]) && NeverTorn(InitialState, history)
    ensures ServedUnlessStale(Run(InitialState, history), input)
  {
    UntornRunsPersist(InitialState, history, input);
    NilMeansServed(history, input);
  }

  // ---------------------------------------------------------------- differences overlooked since the last reload

  /** In sync, and nginx.conf agrees with runningConfig also in what is not compared. */
  ghost predicate InStep(s: State) {
    InSync(s) && Texts(s.plane.conf) == Texts(s.running)
  }

  /** A difference is overlooked: the sync is skipped although there is one that the comparison leaves out, or
      the reload is although nginx.conf would differ. */
  ghost predicate Overlooked(s: State, input: Input) {
    if EqualConfiguration(s.running, input.desired)
    then !PayloadsUnseenAgree(s.running, input.desired) || Texts(s.running) != Texts(input.desired)
    else !NeedsReload(s, input) && Texts(s.running) != Texts(input.desired)
  }

  /** If the sync returns nil, the data plane serves what was asked for exactly if no difference was overlooked. */
  ghost predicate ServedUnlessOverlooked(s: State, input: Input) {
    Step(s, input).1 ==> ServesIff(Step(s, input).0.plane, input.desired, !Overlooked(s, input))
  }

  predicate Reloads(s: State, input: Input) { !Skips(s, input) && NeedsReload(s, input) && input.reloadOk }

  /** A reload puts the state in step again, and a sync that overlooks nothing keeps it so, whether or not it
      succeeds. */
  lemma StepIsInStep(s: State, input: Input)
    requires InSync(s) && DuplicateFree(input.desired) && !input.shuttingDown && !Torn(s, input)
    requires Reloads(s, input) || (InStep(s) && !Overlooked(s, input))
    ensures InStep(Step(s, input).0)
  {
    StepKeepsSyncIffNotTorn(s, input);
    if !Skips(s, input) {
      if Step(s, input).1 {
        AppliedIs(s, input);
        ChecksumIsUnread(s.plane, input);
      } else {
        FailureChangesNothing(s, input);
      }
    }
  }

  /** A sync that fails without being torn has not reloaded, and changes neither nginx.conf nor runningConfig. */
  lemma FailureChangesNothing(s: State, input: Input)
    requires InSync(s) && !Skips(s, input) && !Torn(s, input) && !Step(s, input).1
    ensures !Reloads(s, input)
    ensures var after := Step(s, input).0; after.running == s.running && after.plane.conf == s.plane.conf
  {
    if NeedsReload(s, input) {
      var pcfg := Checksummed(input);
      PushOutcome(s.running, s.plane.(conf := pcfg), pcfg, input);
      assert PushFails(s.running, pcfg, input) <==> PushFails(s.running, input.desired, input);
    } else {
      PushOutcome(s.running, s.plane, input.desired, input);
    }
  }

  /** No difference has been overlooked since the last reload. */
  ghost predicate CleanSinceReload(s: State, inputs: seq<Input>, clean: bool)
    decreases inputs
  {
    if inputs == [] then clean
    else
      var input := inputs[0];
      CleanSinceReload(Step(s, input).0, inputs[1..], Reloads(s, input) || (clean && !Overlooked(s, input)))
  }

  lemma {:induction false} CleanRunsAreInStep(s: State, inputs: seq<Input>, clean: bool)
    requires InSync(s) && (clean ==> InStep(s)) && Asks(inputs) && NeverTorn(s, inputs)
    requires CleanSinceReload(s, inputs, clean)
    ensures InStep(Run(s, inputs))
    decreases inputs
  {
    if inputs == [] {
    } else {
      var input := inputs[0];
      var next := Reloads(s, input) || (clean && !Overlooked(s, input));
      StepKeepsSyncIffNotTorn(s, input);
      if next {
        StepIsInStep(s, input);
      }
      CleanRunsAreInStep(Step(s, input).0, inputs[1..], next);
    }
  }

  /** After any history without a torn sync that overlooked nothing since the last reload: a sync that returns nil
      leaves the data plane serving the configuration it computed exactly if it overlooks nothing itself. */
  lemma {:induction false} CleanNilMeansServed(history: seq<Input>, input: Input)
    requires Asks(history + [input]) && NeverTorn(InitialState, history)
    requires CleanSinceReload(InitialState, history, true)
    ensures ServedUnlessOverlooked(Run(InitialState, history), input)
  {
    AsksSplit(history, input);
    InitiallyInSync();
    CleanRunsAreInStep(InitialState, history, true);
    UntornNilMeansServed(history, input);
  }

  // ---------------------------------------------------------------- a torn sync

  /** A torn sync is not noticed later.  A push failed after the reload or another push; a later sync that asks for
      runningConfig skips and returns nil, while nginx.conf or a table is that of the failed sync. */
  lemma TornSyncGoesUnnoticed(s: State, torn: Input, back: Input)
    requires InSync(s) && DuplicateFree(torn.desired) && Torn(s, torn) && back.desired == s.running
    ensures
      var (after, ok) := Step(s, torn);
      && !ok && Step(after, back) == (after, true)
      && (if NeedsReload(s, torn) then !Serves(after.plane, s.running) else !TablesOf(after.plane, s.running))
  {
    ConfigurationReflexive(s.running);
    if NeedsReload(s, torn) {
      PushOutcome(s.running, s.plane.(conf := Checksummed(torn)), Checksummed(torn), torn);
      assert PushFails(s.running, Checksummed(torn), torn) <==> PushFails(s.running, torn.desired, torn);
      ReloadCannotBeForgotten(s, torn);
    } else {
      PushOutcome(s.running, s.plane, torn.desired, torn);
    }
  }
}
