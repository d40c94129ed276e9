/** internal/ingress/controller/controller.go (createUpstreams) and util.go (upstreamName, newUpstream):
    the upstreams referenced by a list of Ingresses.
 */
module Upstreams {
  import opened Matching
  import opened Strings
  import opened Types

  // ---------------------------------------------------------------- input

  /** The parsed annotations the compiler looks at; the rest are bundled. */
  datatype Annotations = Annotations(
    canary: bool, aliases: seq<string>, sslPassthrough: bool, fromToWWW: bool, rewriteTarget: string,
    useRegex: bool, customHTTPErrors: Slice<int>, defaultBackend: Option<Service>, serviceUpstream: bool,
    upstreamOptions: string, locationOptions: string, serverOptions: string)

  datatype Annotated = Annotated(ing: Ingress, anns: Annotations)

  datatype Resolved = Resolved(endpoints: Slice<Endpoint>, service: Option<Service>)

  /** The store lookups: endpoints and service of a backend, the certificate for a host of an Ingress with
      a TLS section, the default certificate, and the endpoints of a custom default backend. */
  datatype Env = Env(
    resolve: (string, BackendRef, bool) -> Resolved,
    certificate: (string, Ingress) -> SSLCert,
    defaultCertificate: Option<SSLCert>,
    endpointsOf: Service -> seq<Endpoint>)

  /** One path of one rule of one Ingress. */
  datatype Entry = Entry(a: Annotated, host: string, path: HTTPPath)

  function EntriesOfRule(a: Annotated, rule: Rule): seq<Entry> {
    if rule.http.None? then [] else
    var paths := rule.http.value;
    seq(|paths|, i requires 0 <= i < |paths| => Entry(a, rule.host, paths[i]))
  }

  function EntriesOfRules(a: Annotated, rules: seq<Rule>): seq<Entry> {
    if rules == [] then [] else
    EntriesOfRules(a, rules[..|rules| - 1]) + EntriesOfRule(a, rules[|rules| - 1])
  }

  function EntriesOf(a: Annotated): seq<Entry> { EntriesOfRules(a, a.ing.rules) }

  /** All paths, in the order in which the nested loops meet them. */
  function Entries(data: seq<Annotated>): seq<Entry> {
    if data == [] then [] else Entries(data[..|data| - 1]) + EntriesOf(data[|data| - 1])
  }

  // ---------------------------------------------------------------- upstream names

  function UpstreamName(namespace: string, ref: BackendRef): string {
    namespace + "-" + ref.service + "-" + ref.port.String()
  }

  function NameOf(e: Entry): string { UpstreamName(e.a.ing.namespace, e.path.backend) }

  function DefaultNameOf(a: Annotated): string
    requires a.ing.backend.Some?
  {
    UpstreamName(a.ing.namespace, a.ing.backend.value)
  }

  /** The Ingress refers to the upstream by its catch-all backend or by a path. */
  predicate Uses(a: Annotated, name: string) {
    || (a.ing.backend.Some? && DefaultNameOf(a) == name)
    || (exists i :: 0 <= i < |EntriesOf(a)| && NameOf(EntriesOf(a)[i]) == name)
  }

  // ---------------------------------------------------------------- createUpstreams

  type Table = map<string, Backend>

  function NewUpstream(env: Env, a: Annotated, ref: BackendRef, port: IntOrString): Backend {
    var found := env.resolve(a.ing.namespace, ref, a.anns.serviceUpstream);
    Backend(UpstreamName(a.ing.namespace, ref), found.service, port, false, found.endpoints, a.anns.canary, Nil,
            a.anns.upstreamOptions, "")
  }

  /** A catch-all backend always gets a new upstream, even in the place of another. */
  function AddDefault(ups: Table, env: Env, a: Annotated): Table {
    if a.ing.backend.None? then ups
    else ups[DefaultNameOf(a) := NewUpstream(env, a, a.ing.backend.value, Number(0))]
  }

  /** A path gets an upstream only if there is none of that name. */
  function AddEntry(ups: Table, env: Env, e: Entry): Table {
    if NameOf(e) in ups then ups
    else ups[NameOf(e) := NewUpstream(env, e.a, e.path.backend, e.path.backend.port)]
  }

  function AddEntries(ups: Table, env: Env, entries: seq<Entry>): Table {
    if entries == [] then ups else
    AddEntry(AddEntries(ups, env, entries[..|entries| - 1]), env, entries[|entries| - 1])
  }

  function Created(env: Env, data: seq<Annotated>, du: Backend): Table {
    if data == [] then map[DefUpstreamName := du] else
    var a := data[|data| - 1];
    AddEntries(AddDefault(Created(env, data[..|data| - 1], du), env, a), env, EntriesOf(a))
  }

  method CreateUpstreams(env: Env, data: seq<Annotated>, du: Backend) returns (upstreams: Table)
    ensures upstreams == Created(env, data, du)
  {
    upstreams := map[DefUpstreamName := du];
    for i := 0 to |data|
      invariant upstreams == Created(env, data[..i], du)
    {
      var a := data[i];
      assert data[..i + 1][..i] == data[..i];
      if a.ing.backend.Some? {
        var defBackend := UpstreamName(a.ing.namespace, a.ing.backend.value);
        upstreams := upstreams[defBackend := NewUpstream(env, a, a.ing.backend.value, Number(0))];
      }
      ghost var base := upstreams;
      for j := 0 to |a.ing.rules|
        invariant upstreams == AddEntries(base, env, EntriesOfRules(a, a.ing.rules[..j]))
      {
        upstreams := CreateRuleUpstreams(env, a, j, base, upstreams);
      }
      assert a.ing.rules[..|a.ing.rules|] == a.ing.rules;
    }
    assert data[..|data|] == data;
  }

  /** The path loop for rule j. */
  method CreateRuleUpstreams(env: Env, a: Annotated, j: nat, ghost base: Table, before: Table)
    returns (upstreams: Table)
    requires j < |a.ing.rules|
    requires before == AddEntries(base, env, EntriesOfRules(a, a.ing.rules[..j]))
    ensures upstreams == AddEntries(base, env, EntriesOfRules(a, a.ing.rules[..j + 1]))
  {
    var rule := a.ing.rules[j];
    assert a.ing.rules[..j + 1][..j] == a.ing.rules[..j];
    upstreams := CreatePathUpstreams(env, a, rule, base, EntriesOfRules(a, a.ing.rules[..j]), before);
  }

  method CreatePathUpstreams(env: Env, a: Annotated, rule: Rule, ghost base: Table, ghost done: seq<Entry>,
                             before: Table)
    returns (upstreams: Table)
    requires before == AddEntries(base, env, done)
    ensures upstreams == AddEntries(base, env, done + EntriesOfRule(a, rule))
  {
    upstreams := before;
    if rule.http.None? {
      assert done + [] == done;
      return;
    }
    var paths := rule.http.value;
    ghost var entries := EntriesOfRule(a, rule);
    assert done + entries[..0] == done;
    for k := 0 to |paths|
      invariant upstreams == AddEntries(base, env, done + entries[..k])
    {
      AddEntriesAppend(base, env, done, entries, k);
      upstreams := CreatePathUpstream(env, Entry(a, rule.host, paths[k]), upstreams);
    }
    assert entries[..|paths|] == entries;
  }

  method CreatePathUpstream(env: Env, e: Entry, before: Table) returns (upstreams: Table)
    ensures upstreams == AddEntry(before, env, e)
  {
    upstreams := before;
    var backend := e.path.backend;
    var name := UpstreamName(e.a.ing.namespace, backend);
    if name in upstreams {
      return;
    }
    upstreams := upstreams[name := NewUpstream(env, e.a, backend, backend.port)];
  }

  lemma {:induction false} AddEntriesAppend(ups: Table, env: Env, done: seq<Entry>, entries: seq<Entry>, k: nat)
    requires k < |entries|
    ensures AddEntries(ups, env, done + entries[..k + 1]) ==
            AddEntry(AddEntries(ups, env, done + entries[..k]), env, entries[k])
  {
    var all := done + entries[..k + 1];
    assert all[..|all| - 1] == done + entries[..k];
  }

  // ---------------------------------------------------------------- what the table holds

  /** Every upstream is filed under its own name and none has alternatives yet. */
  ghost predicate WellFiled(ups: Table) {
    forall k :: k in ups ==> ups[k].name == k && ups[k].alternativeBackends == Nil
  }

  ghost predicate Introduces(entries: seq<Entry>, name: string, noServer: bool) {
    exists i :: 0 <= i < |entries| && NameOf(entries[i]) == name && noServer == entries[i].a.anns.canary
  }

  lemma AddEntryKeeps(ups: Table, env: Env, e: Entry)
    ensures var after := AddEntry(ups, env, e);
            && (forall k :: k in ups ==> k in after && after[k] == ups[k])
            && NameOf(e) in after
            && (WellFiled(ups) ==> WellFiled(after))
  {
  }

  lemma {:induction false} AddEntriesKeeps(ups: Table, env: Env, entries: seq<Entry>)
    ensures var after := AddEntries(ups, env, entries);
            && (forall k :: k in ups ==> k in after && after[k] == ups[k])
            && (forall i :: 0 <= i < |entries| ==> NameOf(entries[i]) in after)
            && (WellFiled(ups) ==> WellFiled(after))
  {
    if entries == [] {
    } else {
      var init, e := entries[..|entries| - 1], entries[|entries| - 1];
      AddEntriesKeeps(ups, env, init);
      AddEntryKeeps(AddEntries(ups, env, init), env, e);
      assert forall i :: 0 <= i < |init| ==> entries[i] == init[i];
    }
  }

  lemma {:induction false} AddEntriesIntroduces(ups: Table, env: Env, entries: seq<Entry>)
    ensures var after := AddEntries(ups, env, entries);
            forall k :: k in after && k !in ups ==> Introduces(entries, k, after[k].noServer)
  {
    if entries == [] {
    } else {
      var init, e := entries[..|entries| - 1], entries[|entries| - 1];
      AddEntriesIntroduces(ups, env, init);
      var before, after := AddEntries(ups, env, init), AddEntries(ups, env, entries);
      assert entries == init + [e];
      forall k | k in after && k !in ups ensures Introduces(entries, k, after[k].noServer) {
        IntroducesAppend(init, e, k, after[k].noServer);
      }
    }
  }

  lemma IntroducesAppend(init: seq<Entry>, e: Entry, k: string, noServer: bool)
    ensures Introduces(init + [e], k, noServer) <==>
            Introduces(init, k, noServer) || (NameOf(e) == k && noServer == e.a.anns.canary)
  {
    var all := init + [e];
    assert all[|init|] == e;
    if Introduces(init, k, noServer) {
      var i :| 0 <= i < |init| && NameOf(init[i]) == k && noServer == init[i].a.anns.canary;
      assert all[i] == init[i];
    }
  }

  lemma {:induction false} EntriesBelong(a: Annotated, rules: seq<Rule>)
    ensures forall e :: e in EntriesOfRules(a, rules) ==> e.a == a
  {
    if rules == [] {
    } else {
      EntriesBelong(a, rules[..|rules| - 1]);
    }
  }

  ghost predicate UsedBy(data: seq<Annotated>, name: string) {
    exists i :: 0 <= i < |data| && Uses(data[i], name)
  }

  /** Besides the default upstream the table holds exactly the upstreams the Ingresses use. */
  lemma {:induction false} CreatedHoldsUsed(env: Env, data: seq<Annotated>, du: Backend)
    requires du.name == DefUpstreamName && du.alternativeBackends == Nil
    ensures var ups := Created(env, data, du);
            && WellFiled(ups)
            && forall name :: name in ups <==> name == DefUpstreamName || UsedBy(data, name)
  {
    if data == [] {
    } else {
      var init, a := data[..|data| - 1], data[|data| - 1];
      CreatedHoldsUsed(env, init, du);
      AddedHoldUsed(Created(env, init, du), env, a);
      UsedByAppend(init, a);
      assert data == init + [a];
    }
  }

  /** One Ingress adds exactly the upstreams it uses. */
  lemma {:induction false} AddedHoldUsed(ups: Table, env: Env, a: Annotated)
    ensures var after := AddEntries(AddDefault(ups, env, a), env, EntriesOf(a));
            && (WellFiled(ups) ==> WellFiled(after))
            && forall name :: name in after <==> name in ups || Uses(a, name)
  {
    var base := AddDefault(ups, env, a);
    AddEntriesKeeps(base, env, EntriesOf(a));
    AddEntriesIntroduces(base, env, EntriesOf(a));
    var after := AddEntries(base, env, EntriesOf(a));
    forall name ensures name in after <==> name in ups || Uses(a, name) {
      if name in after && name !in base {
        assert Introduces(EntriesOf(a), name, after[name].noServer);
      }
    }
  }

  lemma UsedByAppend(init: seq<Annotated>, a: Annotated)
    ensures forall name :: UsedBy(init + [a], name) <==> UsedBy(init, name) || Uses(a, name)
  {
    var data := init + [a];
    assert data[|init|] == a;
    forall name | UsedBy(init, name) ensures UsedBy(data, name) {
      var i :| 0 <= i < |init| && Uses(init[i], name);
      assert data[i] == init[i];
    }
  }

  // ---------------------------------------------------------------- who made an upstream

  predicate NamesCatchAll(a: Annotated, name: string) { a.ing.backend.Some? && DefaultNameOf(a) == name }

  /** The last catch-all backend that names an upstream made it. */
  lemma {:induction false} LastCatchAllWins(env: Env, data: seq<Annotated>, du: Backend, name: string, i: nat)
    requires i < |data| && NamesCatchAll(data[i], name)
    requires forall j :: i < j < |data| ==> !NamesCatchAll(data[j], name)
    ensures
      var ups := Created(env, data, du);
      name in ups && ups[name] == NewUpstream(env, data[i], data[i].ing.backend.value, Number(0))
  {
    var init, a := data[..|data| - 1], data[|data| - 1];
    if i < |init| {
      LastCatchAllWins(env, init, du, name, i);
      assert !NamesCatchAll(a, name);
    }
    AddEntriesKeeps(AddDefault(Created(env, init, du), env, a), env, EntriesOf(a));
  }

  lemma {:induction false} FirstEntryAdds(ups: Table, env: Env, entries: seq<Entry>, name: string, j: nat)
    requires name !in ups && j <= |entries|
    requires forall k :: 0 <= k < j ==> NameOf(entries[k]) != name
    requires j < |entries| ==> NameOf(entries[j]) == name
    ensures
      var after := AddEntries(ups, env, entries);
      if j == |entries| then name !in after
      else name in after &&
           after[name] == NewUpstream(env, entries[j].a, entries[j].path.backend, entries[j].path.backend.port)
    decreases entries
  {
    if entries == [] {
    } else {
      var init := entries[..|entries| - 1];
      FirstEntryAdds(ups, env, init, name, if j < |entries| then j else |init|);
    }
  }

  /** The first path that names the upstream is number j, or there is none and j is their number. */
  ghost predicate FirstNamed(entries: seq<Entry>, name: string, j: nat) {
    && j <= |entries| && (forall k :: 0 <= k < j ==> NameOf(entries[k]) != name)
    && (j < |entries| ==> NameOf(entries[j]) == name)
  }

  lemma FirstNamedSplit(before: seq<Entry>, here: seq<Entry>, name: string, j: nat)
    requires FirstNamed(before + here, name, j)
    ensures j < |before| ==> FirstNamed(before, name, j)
    ensures j >= |before| ==> FirstNamed(before, name, |before|) && FirstNamed(here, name, j - |before|)
  {
    var all := before + here;
    assert forall k :: 0 <= k < |before| ==> all[k] == before[k];
    assert forall k :: 0 <= k < |here| ==> all[|before| + k] == here[k];
  }

  /** Otherwise the first path that names it did. */
  lemma {:induction false} FirstPathWins(env: Env, data: seq<Annotated>, du: Backend, name: string, j: nat)
    requires name != DefUpstreamName && forall i :: 0 <= i < |data| ==> !NamesCatchAll(data[i], name)
    requires FirstNamed(Entries(data), name, j)
    ensures
      var ups := Created(env, data, du);
      if j == |Entries(data)| then name !in ups
      else
        var e := Entries(data)[j];
        name in ups && ups[name] == NewUpstream(env, e.a, e.path.backend, e.path.backend.port)
    decreases data
  {
    if data == [] {
    } else {
      var init, a := data[..|data| - 1], data[|data| - 1];
      var before, here := Entries(init), EntriesOf(a);
      FirstNamedSplit(before, here, name, j);
      assert !NamesCatchAll(a, name);
      var base := AddDefault(Created(env, init, du), env, a);
      if j < |before| {
        FirstPathWins(env, init, du, name, j);
        AddEntriesKeeps(base, env, here);
      } else {
        FirstPathWins(env, init, du, name, |before|);
        FirstEntryAdds(base, env, here, name, j - |before|);
      }
    }
  }

  /** Nothing else makes or changes the default upstream. */
  lemma {:induction false} DefaultUpstreamStays(env: Env, data: seq<Annotated>, du: Backend)
    requires forall i :: 0 <= i < |data| ==> !NamesCatchAll(data[i], DefUpstreamName)
    ensures var ups := Created(env, data, du); DefUpstreamName in ups && ups[DefUpstreamName] == du
  {
    if data == [] {
    } else {
      var init, a := data[..|data| - 1], data[|data| - 1];
      DefaultUpstreamStays(env, init, du);
      assert !NamesCatchAll(a, DefUpstreamName);
      AddEntriesKeeps(AddDefault(Created(env, init, du), env, a), env, EntriesOf(a));
    }
  }

  // ---------------------------------------------------------------- canary and other names kept apart

  /** No upstream name is used by both a canary and another Ingress, and none is the default upstream's. */
  ghost predicate NamesSeparate(data: seq<Annotated>) {
    && (forall i, j, name :: 0 <= i < |data| && 0 <= j < |data| && Uses(data[i], name) && Uses(data[j], name) ==>
          data[i].anns.canary == data[j].anns.canary)
    && (forall i, name :: 0 <= i < |data| && Uses(data[i], name) ==> name != DefUpstreamName)
  }

  /** Then an upstream lacks a server exactly if canaries use it, and the default upstream is untouched. */
  lemma {:induction false} CreatedNoServer(env: Env, data: seq<Annotated>, n: nat, du: Backend)
    requires NamesSeparate(data) && n <= |data|
    requires du.name == DefUpstreamName && du.alternativeBackends == Nil
    ensures var ups := Created(env, data[..n], du);
            && DefUpstreamName in ups && ups[DefUpstreamName] == du
            && (forall i, name :: 0 <= i < |data| && Uses(data[i], name) && name in ups ==>
                  ups[name].noServer == data[i].anns.canary)
  {
    if n == 0 {
    } else {
      CreatedNoServer(env, data, n - 1, du);
      var a := data[n - 1];
      assert data[..n][..n - 1] == data[..n - 1];
      var before := Created(env, data[..n - 1], du);
      var base := AddDefault(before, env, a);
      var ups := Created(env, data[..n], du);
      AddEntriesKeeps(base, env, EntriesOf(a));
      AddEntriesIntroduces(base, env, EntriesOf(a));
      EntriesBelong(a, a.ing.rules);
      assert a.ing.backend.Some? ==> Uses(a, DefaultNameOf(a));
      forall i, name | 0 <= i < |data| && Uses(data[i], name) && name in ups
        ensures ups[name].noServer == data[i].anns.canary
      {
        if name !in base {
          assert Introduces(EntriesOf(a), name, ups[name].noServer);
          var k :| 0 <= k < |EntriesOf(a)| && NameOf(EntriesOf(a)[k]) == name
                   && ups[name].noServer == EntriesOf(a)[k].a.anns.canary;
          assert EntriesOf(a)[k] in EntriesOf(a);
          assert Uses(data[n - 1], name);
        }
      }
    }
  }
}
