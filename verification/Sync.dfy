/** internal/ingress/controller/controller.go (syncIngress) and nginx.go (configureDynamically):
    the loop that keeps the data plane in step with the desired configuration.

    Each sync skips, pushes the parts that changed to Lua, or reloads first and then pushes.
    What it compares against is only its own memory of the last success, `runningConfig`; the
    results below say when that memory can be trusted.
 */
module Sync {
  import opened Matching
  import opened Strings
  import opened Types
  import opened Equality
  import opened DynamicConfig
  import opened Hostnames
  import opened Certificates

  // ---------------------------------------------------------------- what is pushed

  /** A backend as the Lua side receives it. */
  datatype LuaBackend = LuaBackend(
    name: string, port: IntOrString, sslPassthrough: bool, noServer: bool,
    alternativeBackends: Slice<string>, endpoints: seq<Endpoint>, options: string,
    service: Option<Service>, uncompared: string)

  /** Of a service only the specification is sent. */
  function Spec(service: Option<Service>): Option<Service> {
    if service.Some? then Some(service.value.(namespace := "", name := "")) else None
  }

  /** Endpoints are sent without their target references. */
  function LuaEndpoints(endpoints: seq<Endpoint>): (r: seq<Endpoint>)
    ensures |r| == |endpoints|
  {
    seq(|endpoints|, i requires 0 <= i < |endpoints| => endpoints[i].(target := None))
  }

  function ToLua(b: Backend): LuaBackend {
    LuaBackend(b.name, b.port, b.sslPassthrough, b.noServer, b.alternativeBackends,
               LuaEndpoints(b.endpoints.Items()), b.options, Spec(b.service), b.uncompared)
  }

  /** configureBackends. */
  function BackendsPayload(backends: Slice<Backend>): (r: seq<LuaBackend>)
    ensures |r| == |backends.Items()|
  {
    var items := backends.Items();
    seq(|items|, i requires 0 <= i < |items| => ToLua(items[i]))
  }

  function StreamToLua(protocol: string, s: L4Service): LuaBackend {
    var key := protocol + "-" + s.backend.namespace + "-" + s.backend.name + "-" + s.backend.port.String();
    LuaBackend(key, Number(s.port), false, false, Nil, s.endpoints.Items(), "", Spec(s.service), "")
  }

  function StreamPayload(protocol: string, services: Slice<L4Service>): (r: seq<LuaBackend>)
    ensures |r| == |services.Items()|
  {
    var items := services.Items();
    seq(|items|, i requires 0 <= i < |items| => StreamToLua(protocol, items[i]))
  }

  /** updateStreamConfiguration. */
  function StreamsPayload(c: Configuration): seq<LuaBackend> {
    StreamPayload("tcp", c.tcpEndpoints) + StreamPayload("udp", c.udpEndpoints)
  }

  // ---------------------------------------------------------------- the state machine

  /** The data plane: the configuration nginx.conf was rendered from, and the three Lua tables. */
  datatype Plane = Plane(
    conf: Configuration, backends: seq<LuaBackend>, streams: seq<LuaBackend>, certificates: CertificateTable)

  datatype State = State(running: Configuration, plane: Plane)

  /** One call of syncIngress: the configuration it computes and how its effects turn out. */
  datatype Input = Input(
    desired: Configuration, shuttingDown: bool, checksum: string,
    reloadOk: bool, backendsOk: bool, streamsOk: bool, certificatesOk: bool)

  const EmptyConfiguration := Configuration(Nil, [], Nil, Nil, [], "", "", None)

  const InitialState := State(
    EmptyConfiguration, Plane(EmptyConfiguration, [], [], CertificateTable(map[], map[])))

  predicate StreamsChanged(running: Configuration, pcfg: Configuration) {
    running.tcpEndpoints != pcfg.tcpEndpoints || running.udpEndpoints != pcfg.udpEndpoints
  }

  function Push(running: Configuration, plane: Plane, pcfg: Configuration, input: Input): (Plane, bool) {
    var backendsChanged := running.backends != pcfg.backends;
    if backendsChanged && !input.backendsOk then (plane, false) else
    var plane1 := if backendsChanged then plane.(backends := BackendsPayload(pcfg.backends)) else plane;
    var streamsChanged := StreamsChanged(running, pcfg);
    if streamsChanged && !input.streamsOk then (plane1, false) else
    var plane2 := if streamsChanged then plane1.(streams := StreamsPayload(pcfg)) else plane1;
    var serversChanged := running.servers != pcfg.servers;
    if serversChanged && !input.certificatesOk then (plane2, false) else
    (if serversChanged then plane2.(certificates := Table(SimpleFold, pcfg.servers)) else plane2, true)
  }

  predicate NeedsReload(s: State, input: Input) { !DynamicEnough(s.running, input.desired) }

  function Checksummed(input: Input): Configuration {
    input.desired.(configurationChecksum := input.checksum)
  }

  /** The rest of a sync that has not been skipped. */
  function Apply(s: State, input: Input, reload: bool): (State, bool) {
    if reload && !input.reloadOk then (s, false) else
    var pcfg := if reload then Checksummed(input) else input.desired;
    var (plane, ok) := Push(s.running, if reload then s.plane.(conf := pcfg) else s.plane, pcfg, input);
    (State(if ok then pcfg else s.running, plane), ok)
  }

  /** The effect of one syncIngress call, and whether it returns nil. */
  function Step(s: State, input: Input): (State, bool) {
    if input.shuttingDown || EqualConfiguration(s.running, input.desired) then (s, true)
    else Apply(s, input, NeedsReload(s, input))
  }

  function Run(s: State, inputs: seq<Input>): State
    decreases inputs
  {
    if inputs == [] then s else Run(Step(s, inputs[0]).0, inputs[1..])
  }

  class NGINXController {
    var runningConfig: Configuration
    var plane: Plane

    ghost function Current(): State
      reads this
    {
      State(runningConfig, plane)
    }

    constructor ()
      ensures Current() == InitialState
    {
      runningConfig := EmptyConfiguration;
      plane := InitialState.plane;
    }

    method ConfigureDynamically(pcfg: Configuration, input: Input) returns (ok: bool)
      modifies this`plane
      ensures (plane, ok) == Push(runningConfig, old(plane), pcfg, input)
    {
      if runningConfig.backends != pcfg.backends {
        if !input.backendsOk {
          return false;
        }
        plane := plane.(backends := BackendsPayload(pcfg.backends));
      }
      if runningConfig.tcpEndpoints != pcfg.tcpEndpoints || runningConfig.udpEndpoints != pcfg.udpEndpoints {
        if !input.streamsOk {
          return false;
        }
        plane := plane.(streams := StreamsPayload(pcfg));
      }
      if runningConfig.servers != pcfg.servers {
        if !input.certificatesOk {
          return false;
        }
        var table := ConfigureCertificates(SimpleFold, pcfg.servers);
        plane := plane.(certificates := table);
      }
      return true;
    }

    method SyncIngress(input: Input) returns (ok: bool)
      modifies this
      ensures (Current(), ok) == Step(old(Current()), input)
    {
      if input.shuttingDown {
        return true;
      }
      var pcfg := input.desired;
      var equal := ConfigurationEqual(runningConfig, pcfg);
      if equal {
        return true;
      }
      if !DynamicEnough(runningConfig, pcfg) {
        pcfg := pcfg.(configurationChecksum := input.checksum);
        if !input.reloadOk {
          return false;
        }
        plane := plane.(conf := pcfg);
      }
      ok := ConfigureDynamically(pcfg, input);
      if !ok {
        return false;
      }
      runningConfig := pcfg;
    }
  }

  // ---------------------------------------------------------------- the invariant

  ghost predicate TablesOf(plane: Plane, c: Configuration) {
    && plane.backends == BackendsPayload(c.backends)
    && plane.streams == StreamsPayload(c)
    && plane.certificates == Table(SimpleFold, c.servers)
  }

  /** The Lua tables hold exactly what runningConfig pushes, and nginx.conf came from a configuration
      with the same static part. */
  ghost predicate InSync(s: State) {
    TablesOf(s.plane, s.running) && DynamicEnough(s.plane.conf, s.running)
  }

  predicate PushesSucceed(input: Input) { input.backendsOk && input.streamsOk && input.certificatesOk }

  /** Every configuration asked for is duplicate-free, as the compiled ones are. */
  ghost predicate Asks(inputs: seq<Input>) {
    forall i :: 0 <= i < |inputs| ==> DuplicateFree(inputs[i].desired) && !inputs[i].shuttingDown
  }

  lemma InitiallyInSync()
    ensures InSync(InitialState)
  {
    ConfigurationReflexive(Static(EmptyConfiguration));
  }

  lemma SameStatic(input: Input)
    ensures Static(Checksummed(input)) == Static(input.desired).(configurationChecksum := input.checksum)
    ensures DynamicEnough(Checksummed(input), input.desired)
    ensures DynamicEnough(input.desired, Checksummed(input))
  {
    ConfigurationReflexive(Static(input.desired));
  }

  lemma ApplyKeepsSync(s: State, input: Input)
    requires InSync(s) && PushesSucceed(input)
    ensures InSync(Apply(s, input, NeedsReload(s, input)).0)
  {
    if NeedsReload(s, input) {
      var pcfg := Checksummed(input);
      PushOutcome(s.running, s.plane.(conf := pcfg), pcfg, input);
      ConfigurationReflexive(Static(pcfg));
    } else {
      PushOutcome(s.running, s.plane, input.desired, input);
      ConfigurationTransitive(Static(s.plane.conf), Static(s.running), Static(input.desired));
    }
  }

  /** A sync whose pushes go through keeps the plane in sync, whether or not its reload does. */
  lemma StepKeepsSync(s: State, input: Input)
    requires InSync(s) && PushesSucceed(input)
    ensures InSync(Step(s, input).0)
  {
    ApplyKeepsSync(s, input);
  }

  lemma {:induction false} RunKeepsSync(s: State, inputs: seq<Input>)
    requires InSync(s)
    requires forall i :: 0 <= i < |inputs| ==> PushesSucceed(inputs[i])
    ensures InSync(Run(s, inputs))
    decreases inputs
  {
    if inputs == [] {
    } else {
      StepKeepsSync(s, inputs[0]);
      RunKeepsSync(Step(s, inputs[0]).0, inputs[1..]);
    }
  }

  lemma {:induction false} RunningDuplicateFree(s: State, inputs: seq<Input>)
    requires DuplicateFree(s.running) && Asks(inputs)
    ensures DuplicateFree(Run(s, inputs).running)
    decreases inputs
  {
    if inputs == [] {
    } else {
      NilKeepsOrAdopts(s, inputs[0]);
      RunningDuplicateFree(Step(s, inputs[0]).0, inputs[1..]);
    }
  }

  lemma NilKeepsOrAdopts(s: State, input: Input)
    requires !input.shuttingDown
    ensures
      var (after, ok) := Step(s, input);
      && (ok ==> EqualConfiguration(after.running, input.desired))
      && (after.running == s.running || after.running in {input.desired, Checksummed(input)})
  {
    ConfigurationReflexive(input.desired);
  }

  // ---------------------------------------------------------------- failed pushes

  predicate BackendsFail(running: Configuration, d: Configuration, input: Input) {
    running.backends != d.backends && !input.backendsOk
  }

  predicate StreamsFail(running: Configuration, d: Configuration, input: Input) {
    !BackendsFail(running, d, input) && StreamsChanged(running, d) && !input.streamsOk
  }

  predicate CertificatesFail(running: Configuration, d: Configuration, input: Input) {
    && !BackendsFail(running, d, input) && !StreamsFail(running, d, input)
    && running.servers != d.servers && !input.certificatesOk
  }

  predicate PushFails(running: Configuration, d: Configuration, input: Input) {
    BackendsFail(running, d, input) || StreamsFail(running, d, input) || CertificatesFail(running, d, input)
  }

  /** A table with a different content was pushed before the push that failed. */
  predicate PartlyPushed(running: Configuration, d: Configuration, input: Input) {
    || (!BackendsFail(running, d, input) && BackendsPayload(running.backends) != BackendsPayload(d.backends))
    || (CertificatesFail(running, d, input) && StreamsPayload(running) != StreamsPayload(d))
  }

  /** A push fails after an effect that runningConfig will not remember: the reload or an earlier push. */
  predicate Torn(s: State, input: Input) {
    && !input.shuttingDown
    && !EqualConfiguration(s.running, input.desired)
    && (NeedsReload(s, input) ==> input.reloadOk)
    && PushFails(s.running, input.desired, input)
    && (NeedsReload(s, input) || PartlyPushed(s.running, input.desired, input))
  }

  lemma PushOutcome(running: Configuration, plane: Plane, pcfg: Configuration, input: Input)
    requires TablesOf(plane, running)
    ensures
      var (after, ok) := Push(running, plane, pcfg, input);
      && after.conf == plane.conf
      && (ok <==> !PushFails(running, pcfg, input))
      && (ok ==> TablesOf(after, pcfg))
      && (!ok ==> (TablesOf(after, running) <==> !PartlyPushed(running, pcfg, input)))
  {
  }

  lemma ReloadCannotBeForgotten(s: State, input: Input)
    requires DuplicateFree(input.desired) && NeedsReload(s, input)
    ensures !DynamicEnough(Checksummed(input), s.running)
  {
    if DynamicEnough(Checksummed(input), s.running) {
      StaticDuplicateFree(Checksummed(input));
      ConfigurationSymmetric(Static(Checksummed(input)), Static(s.running));
      SameStatic(input);
      ConfigurationTransitive(Static(s.running), Static(Checksummed(input)), Static(input.desired));
    }
  }

  lemma ApplyKeepsSyncIff(s: State, input: Input)
    requires InSync(s) && DuplicateFree(input.desired)
    ensures InSync(Apply(s, input, NeedsReload(s, input)).0) <==>
            !(&& (NeedsReload(s, input) ==> input.reloadOk)
              && PushFails(s.running, input.desired, input)
              && (NeedsReload(s, input) || PartlyPushed(s.running, input.desired, input)))
  {
    if NeedsReload(s, input) {
      var pcfg := Checksummed(input);
      PushOutcome(s.running, s.plane.(conf := pcfg), pcfg, input);
      ReloadCannotBeForgotten(s, input);
      ConfigurationReflexive(Static(pcfg));
      assert PushFails(s.running, pcfg, input) <==> PushFails(s.running, input.desired, input);
    } else {
      PushOutcome(s.running, s.plane, input.desired, input);
      ConfigurationTransitive(Static(s.plane.conf), Static(s.running), Static(input.desired));
    }
  }

  /** A sync keeps the plane in sync exactly when it is not torn. */
  lemma StepKeepsSyncIffNotTorn(s: State, input: Input)
    requires InSync(s) && DuplicateFree(input.desired)
    ensures InSync(Step(s, input).0) <==> !Torn(s, input)
  {
    ApplyKeepsSyncIff(s, input);
  }

  ghost predicate NeverTorn(s: State, inputs: seq<Input>)
    decreases inputs
  {
    inputs == [] || (!Torn(s, inputs[0]) && NeverTorn(Step(s, inputs[0]).0, inputs[1..]))
  }

  /** So the invariant holds over every run without a torn sync, failed pushes or not. */
  lemma {:induction false} RunWithoutTearing(s: State, inputs: seq<Input>)
    requires InSync(s) && Asks(inputs) && NeverTorn(s, inputs)
    ensures InSync(Run(s, inputs))
    decreases inputs
  {
    if inputs == [] {
    } else {
      StepKeepsSyncIffNotTorn(s, inputs[0]);
      RunWithoutTearing(Step(s, inputs[0]).0, inputs[1..]);
    }
  }

  // ---------------------------------------------------------------- how a torn sync heals

  predicate Skips(s: State, input: Input) { input.shuttingDown || EqualConfiguration(s.running, input.desired) }

  /** The tables that are not pushed are already as asked for. */
  ghost predicate TablesRight(running: Configuration, plane: Plane, d: Configuration) {
    && (running.backends == d.backends ==> plane.backends == BackendsPayload(d.backends))
    && (!StreamsChanged(running, d) ==> plane.streams == StreamsPayload(d))
    && (running.servers == d.servers ==> plane.certificates == Table(SimpleFold, d.servers))
  }

  /** So is everything that the sync leaves alone. */
  ghost predicate RestRight(s: State, input: Input) {
    && TablesRight(s.running, s.plane, input.desired)
    && (!NeedsReload(s, input) ==> DynamicEnough(s.plane.conf, input.desired))
  }

  lemma PushedTables(running: Configuration, plane: Plane, pcfg: Configuration, input: Input)
    requires Push(running, plane, pcfg, input).1
    ensures var after := Push(running, plane, pcfg, input).0;
            after.conf == plane.conf && (TablesOf(after, pcfg) <==> TablesRight(running, plane, pcfg))
  {
  }

  /** From any state whatever: a sync that does something and returns nil leaves the plane in sync exactly if what it
      left alone was right. */
  lemma SuccessSyncsIff(s: State, input: Input)
    requires !Skips(s, input) && Step(s, input).1
    ensures InSync(Step(s, input).0) <==> RestRight(s, input)
  {
    if NeedsReload(s, input) {
      var pcfg := Checksummed(input);
      PushedTables(s.running, s.plane.(conf := pcfg), pcfg, input);
      ConfigurationReflexive(Static(pcfg));
    } else {
      PushedTables(s.running, s.plane, input.desired, input);
    }
  }

  ghost predicate TableOfEither(plane: Plane, c: Configuration, d: Configuration) {
    && plane.backends in {BackendsPayload(c.backends), BackendsPayload(d.backends)}
    && plane.streams in {StreamsPayload(c), StreamsPayload(d)}
    && plane.certificates in {Table(SimpleFold, c.servers), Table(SimpleFold, d.servers)}
  }

  /** A sync for d has not gone through: each table is still that of runningConfig or already that of d. */
  ghost predicate Underway(s: State, d: Configuration) {
    && !EqualConfiguration(s.running, d) && TableOfEither(s.plane, s.running, d)
    && (DynamicEnough(s.plane.conf, s.running) || !DynamicEnough(s.running, d))
  }

  lemma PushTouchesEither(running: Configuration, plane: Plane, pcfg: Configuration, input: Input)
    requires TableOfEither(plane, running, pcfg)
    ensures TableOfEither(Push(running, plane, pcfg, input).0, running, pcfg)
    ensures Push(running, plane, pcfg, input).0.conf == plane.conf
  {
  }

  lemma EitherChecksummed(plane: Plane, c: Configuration, input: Input)
    ensures TableOfEither(plane, c, Checksummed(input)) <==> TableOfEither(plane, c, input.desired)
  {
  }

  lemma UnderwayIsRight(s: State, input: Input)
    requires Underway(s, input.desired)
    ensures RestRight(s, input)
  {
    if !NeedsReload(s, input) {
      ConfigurationTransitive(Static(s.plane.conf), Static(s.running), Static(input.desired));
    }
  }

  lemma FailureStaysUnderway(s: State, input: Input)
    requires Underway(s, input.desired) && !Apply(s, input, NeedsReload(s, input)).1
    ensures Underway(Apply(s, input, NeedsReload(s, input)).0, input.desired)
  {
    if NeedsReload(s, input) {
      var pcfg := Checksummed(input);
      EitherChecksummed(s.plane.(conf := pcfg), s.running, input);
      PushTouchesEither(s.running, s.plane.(conf := pcfg), pcfg, input);
      EitherChecksummed(Apply(s, input, true).0.plane, s.running, input);
    } else {
      PushTouchesEither(s.running, s.plane, input.desired, input);
    }
  }

  /** Another attempt for the same configuration brings the plane in sync or leaves it where it was. */
  lemma AttemptSyncsOrStays(s: State, input: Input)
    requires Underway(s, input.desired) && !input.shuttingDown
    ensures
      var (after, ok) := Step(s, input);
      if ok then InSync(after) else Underway(after, input.desired)
  {
    if Step(s, input).1 {
      UnderwayIsRight(s, input);
      SuccessSyncsIff(s, input);
    } else {
      FailureStaysUnderway(s, input);
    }
  }

  /** The configuration whose sync has not gone through yet, if any. */
  function Pending(s: State, input: Input, pending: Option<Configuration>): Option<Configuration> {
    if Step(s, input).1 then None
    else if pending.None? && Torn(s, input) then Some(input.desired) else pending
  }

  /** After a torn sync the same configuration is asked for until a sync goes through. */
  ghost predicate Persists(s: State, inputs: seq<Input>, pending: Option<Configuration>)
    decreases inputs
  {
    inputs == [] ||
    (&& (pending.Some? ==> inputs[0].desired == pending.value)
     && Persists(Step(s, inputs[0]).0, inputs[1..], Pending(s, inputs[0], pending)))
  }

  ghost predicate Consistent(s: State, pending: Option<Configuration>) {
    if pending.None? then InSync(s) else Underway(s, pending.value)
  }

  lemma StepStaysConsistent(s: State, input: Input, pending: Option<Configuration>)
    requires Consistent(s, pending) && DuplicateFree(input.desired) && !input.shuttingDown
    requires pending.Some? ==> input.desired == pending.value
    ensures Consistent(Step(s, input).0, Pending(s, input, pending))
    ensures Step(s, input).1 ==> InSync(Step(s, input).0)
  {
    if pending.Some? {
      AttemptSyncsOrStays(s, input);
    } else {
      StepKeepsSyncIffNotTorn(s, input);
      if Torn(s, input) {
        AttemptSyncsOrStays(s, input);
      }
    }
  }

  /** The configuration pending after a run. */
  function PendingAfter(s: State, inputs: seq<Input>, pending: Option<Configuration>): Option<Configuration>
    decreases inputs
  {
    if inputs == [] then pending
    else PendingAfter(Step(s, inputs[0]).0, inputs[1..], Pending(s, inputs[0], pending))
  }

  /** So over every run that persists, whatever fails, the plane is in sync or on its way to one configuration. */
  lemma {:induction false} PersistentRunsStayConsistent(s: State, inputs: seq<Input>, pending: Option<Configuration>)
    requires Consistent(s, pending) && Asks(inputs) && Persists(s, inputs, pending)
    ensures Consistent(Run(s, inputs), PendingAfter(s, inputs, pending))
    decreases inputs
  {
    if inputs == [] {
    } else {
      StepStaysConsistent(s, inputs[0], pending);
      PersistentRunsStayConsistent(Step(s, inputs[0]).0, inputs[1..], Pending(s, inputs[0], pending));
    }
  }

  lemma {:induction false} PersistsSplit(s: State, inputs: seq<Input>, input: Input, pending: Option<Configuration>)
    requires Persists(s, inputs + [input], pending)
    ensures Persists(s, inputs, pending)
    ensures PendingAfter(s, inputs, pending).Some? ==> input.desired == PendingAfter(s, inputs, pending).value
    decreases inputs
  {
    if inputs == [] {
      assert (inputs + [input])[0] == input;
    } else {
      assert (inputs + [input])[1..] == inputs[1..] + [input];
      PersistsSplit(Step(s, inputs[0]).0, inputs[1..], input, Pending(s, inputs[0], pending));
    }
  }

  /** Runs without a torn sync persist, and can be followed by any sync. */
  lemma {:induction false} UntornRunsPersist(s: State, inputs: seq<Input>, input: Input)
    requires NeverTorn(s, inputs)
    ensures Persists(s, inputs + [input], None)
    decreases inputs
  {
    if inputs == [] {
      assert (inputs + [input])[1..] == [];
    } else {
      assert (inputs + [input])[1..] == inputs[1..] + [input];
      UntornRunsPersist(Step(s, inputs[0]).0, inputs[1..], input);
    }
  }
}
