/** internal/ingress/controller/controller.go (canMergeBackend, mergeAlternativeBackend(s)): attaching
    canary upstreams to the upstreams whose traffic they share.

    A canary's catch-all backend and each of its paths are tried against the locations of one server.
    Matching upstreams get the canary as an alternative; a canary that finds no match is deleted by name.
    Looking up a location's upstream is unchecked in the source: a missing one, like a rule without HTTP
    paths, ends the process, which is the outcome Panic here.
 */
module Canary {
  import opened Matching
  import opened Strings
  import opened Types
  import opened Sorting
  import opened Upstreams
  import opened Servers

  // ---------------------------------------------------------------- one canary backend

  /** Where a canary backend applies: on the whole default server, or on one path of a host. */
  datatype Site = CatchAllSite | PathSite(path: string, pathType: PathType)

  /** One canary backend, with the locations of the server it is tried against, if there is one. */
  datatype Use = Use(name: string, locations: Option<seq<Location>>, site: Site)

  predicate SiteMatches(site: Site, l: Location) {
    site.CatchAllSite? || (l.path == site.path && l.pathType == site.pathType)
  }

  predicate CanMergeBackend(primary: Backend, alternative: Backend) {
    primary.name != alternative.name && primary.name != DefUpstreamName && !primary.noServer
  }

  function AddAlternative(primary: Backend, alt: string): Backend {
    var items := primary.alternativeBackends.Items();
    if alt in items then primary else primary.(alternativeBackends := Of(items + [alt]))
  }

  method MergeAlternativeBackend(priUps: Backend, altUps: Backend) returns (primary: Backend, merged: bool)
    ensures merged == !priUps.noServer
    ensures primary == if merged then AddAlternative(priUps, altUps.name) else priUps
  {
    primary := priUps;
    if priUps.noServer {
      return priUps, false;
    }
    var items := priUps.alternativeBackends.Items();
    for i := 0 to |items|
      invariant forall k :: 0 <= k < i ==> items[k] != altUps.name
    {
      if items[i] == altUps.name {
        return priUps, true;
      }
    }
    primary := priUps.(alternativeBackends := Of(items + [altUps.name]));
    return primary, true;
  }

  datatype Loop = LoopPanic | Loop(ups: Table, merged: bool, altEqualsPri: bool)

  /** One more location; the loop has stopped if an earlier one is served by the canary's own upstream. */
  function LoopOnce(before: Loop, alt: string, loc: Location, site: Site): Loop
    requires before.Loop? ==> alt in before.ups
  {
    if before.LoopPanic? || before.altEqualsPri then before
    else if loc.backend !in before.ups then LoopPanic
    else
      var pri, altUps := before.ups[loc.backend], before.ups[alt];
      if altUps.name == pri.name then before.(altEqualsPri := true)
      else if CanMergeBackend(pri, altUps) && SiteMatches(site, loc) then
        Loop(before.ups[loc.backend := AddAlternative(pri, altUps.name)], true, false)
      else before
  }

  /** The location loop. */
  function MergeLoop(ups: Table, alt: string, locations: seq<Location>, site: Site): Loop
    requires alt in ups
    ensures MergeLoop(ups, alt, locations, site).Loop? ==> alt in MergeLoop(ups, alt, locations, site).ups
  {
    if locations == [] then Loop(ups, false, false) else
    LoopOnce(MergeLoop(ups, alt, locations[..|locations| - 1], site), alt, locations[|locations| - 1], site)
  }

  lemma {:induction false} LoopAppend(ups: Table, alt: string, locations: seq<Location>, site: Site, i: nat)
    requires alt in ups && i < |locations|
    ensures MergeLoop(ups, alt, locations[..i + 1], site) ==
            LoopOnce(MergeLoop(ups, alt, locations[..i], site), alt, locations[i], site)
  {
    assert locations[..i + 1][..i] == locations[..i];
  }

  datatype Merge = Panic | Merged(ups: Table)

  function MergeUse(ups: Table, use: Use): Merge {
    if use.name !in ups || use.locations.None? then Merged(ups) else
    match MergeLoop(ups, use.name, use.locations.value, use.site)
    case LoopPanic => Panic
    case Loop(ups', merged, altEqualsPri) =>
      Merged(if !altEqualsPri && !merged then ups' - {ups'[use.name].name} else ups')
  }

  function MergeUses(ups: Table, uses: seq<Use>): Merge {
    if uses == [] then Merged(ups) else
    var before := MergeUses(ups, uses[..|uses| - 1]);
    if before.Panic? then Panic else MergeUse(before.ups, uses[|uses| - 1])
  }

  // ---------------------------------------------------------------- one canary Ingress

  function UseOf(e: Entry, servers: Hosts): Use {
    Use(NameOf(e), if e.host in servers then Some(servers[e.host].locations) else None,
        PathSite(e.path.path, e.path.pathType))
  }

  function PathUses(entries: seq<Entry>, servers: Hosts): (r: seq<Use>)
    ensures |r| == |entries|
  {
    seq(|entries|, i requires 0 <= i < |entries| => UseOf(entries[i], servers))
  }

  function CatchAllUses(a: Annotated, servers: Hosts): seq<Use>
    requires DefServerName in servers
  {
    if a.ing.backend.None? then [] else [Use(DefaultNameOf(a), Some(servers[DefServerName].locations), CatchAllSite)]
  }

  function UsesOf(a: Annotated, servers: Hosts): seq<Use>
    requires DefServerName in servers
  {
    CatchAllUses(a, servers) + PathUses(EntriesOf(a), servers)
  }

  predicate RulesComplete(rules: seq<Rule>) {
    forall i :: 0 <= i < |rules| ==> rules[i].http.Some?
  }

  function MergeRules(ups: Table, servers: Hosts, a: Annotated, rules: seq<Rule>): Merge
    requires DefServerName in servers
  {
    if rules == [] then MergeUses(ups, CatchAllUses(a, servers)) else
    var before, rule := MergeRules(ups, servers, a, rules[..|rules| - 1]), rules[|rules| - 1];
    if before.Panic? || rule.http.None? then Panic
    else MergeUses(before.ups, PathUses(EntriesOfRule(a, rule), servers))
  }

  /** mergeAlternativeBackends. */
  function MergeIngress(ups: Table, servers: Hosts, a: Annotated): Merge
    requires DefServerName in servers
  {
    MergeRules(ups, servers, a, a.ing.rules)
  }

  function AllUses(canaries: seq<Annotated>, servers: Hosts): seq<Use>
    requires DefServerName in servers
  {
    if canaries == [] then [] else
    AllUses(canaries[..|canaries| - 1], servers) + UsesOf(canaries[|canaries| - 1], servers)
  }

  function MergeAll(ups: Table, servers: Hosts, canaries: seq<Annotated>): Merge
    requires DefServerName in servers
  {
    if canaries == [] then Merged(ups) else
    var before := MergeAll(ups, servers, canaries[..|canaries| - 1]);
    if before.Panic? then Panic else MergeIngress(before.ups, servers, canaries[|canaries| - 1])
  }

  // ---------------------------------------------------------------- the code

  /** The loop over one server's locations, with its break, and what follows it. */
  method MergeInto(ups: Table, alt: string, locations: seq<Location>, site: Site) returns (r: Merge)
    requires alt in ups
    ensures r == MergeUse(ups, Use(alt, Some(locations), site))
  {
    var upstreams, merged, altEqualsPri := ups, false, false;
    for i := 0 to |locations|
      invariant alt in upstreams && !altEqualsPri
      invariant MergeLoop(ups, alt, locations[..i], site) == Loop(upstreams, merged, altEqualsPri)
    {
      LoopAppend(ups, alt, locations, site, i);
      var loc := locations[i];
      if loc.backend !in upstreams {
        LoopStays(ups, alt, locations, site, i + 1, |locations|);
        assert locations[..|locations|] == locations;
        return Panic;
      }
      var priUps := upstreams[loc.backend];
      altEqualsPri := upstreams[alt].name == priUps.name;
      if altEqualsPri {
        LoopStays(ups, alt, locations, site, i + 1, |locations|);
        break;
      }
      if CanMergeBackend(priUps, upstreams[alt]) && SiteMatches(site, loc) {
        var primary;
        primary, merged := MergeAlternativeBackend(priUps, upstreams[alt]);
        upstreams := upstreams[loc.backend := primary];
      }
    }
    assert locations[..|locations|] == locations;
    if !altEqualsPri && !merged {
      upstreams := upstreams - {upstreams[alt].name};
    }
    return Merged(upstreams);
  }

  lemma {:induction false} LoopStays(ups: Table, alt: string, locations: seq<Location>, site: Site, m: nat, n: nat)
    requires alt in ups && m <= n <= |locations|
    requires
      var l := MergeLoop(ups, alt, locations[..m], site);
      l.LoopPanic? || l.altEqualsPri
    ensures MergeLoop(ups, alt, locations[..n], site) == MergeLoop(ups, alt, locations[..m], site)
    decreases n
  {
    if m < n {
      LoopStays(ups, alt, locations, site, m, n - 1);
      assert locations[..n][..n - 1] == locations[..n - 1];
    }
  }

  method MergePath(a: Annotated, host: string, path: HTTPPath, upstreams: Table, servers: Hosts) returns (m: Merge)
    ensures m == MergeUse(upstreams, UseOf(Entry(a, host, path), servers))
  {
    var upsName := UpstreamName(a.ing.namespace, path.backend);
    if upsName !in upstreams {
      return Merged(upstreams);
    }
    if host !in servers {
      return Merged(upstreams);
    }
    m := MergeInto(upstreams, upsName, servers[host].locations, PathSite(path.path, path.pathType));
  }

  /** The path loop for one rule. */
  method MergeRule(a: Annotated, rule: Rule, ups: Table, servers: Hosts) returns (r: Merge)
    requires rule.http.Some?
    ensures r == MergeUses(ups, PathUses(EntriesOfRule(a, rule), servers))
  {
    r := Merged(ups);
    var paths := rule.http.value;
    ghost var uses := PathUses(EntriesOfRule(a, rule), servers);
    for k := 0 to |paths|
      invariant r.Merged? && r == MergeUses(ups, uses[..k])
    {
      assert uses[..k + 1][..k] == uses[..k];
      assert uses[k] == UseOf(Entry(a, rule.host, paths[k]), servers);
      r := MergePath(a, rule.host, paths[k], r.ups, servers);
      if r.Panic? {
        PanicStays(ups, uses, k + 1);
        return Panic;
      }
    }
    assert uses[..|paths|] == uses;
  }

  method MergeCatchAll(a: Annotated, ups: Table, servers: Hosts) returns (r: Merge)
    requires DefServerName in servers
    ensures r == MergeUses(ups, CatchAllUses(a, servers))
  {
    r := Merged(ups);
    if a.ing.backend.Some? {
      assert CatchAllUses(a, servers)[..0] == [];
      var upsName := UpstreamName(a.ing.namespace, a.ing.backend.value);
      if upsName in ups {
        r := MergeInto(ups, upsName, servers[DefServerName].locations, CatchAllSite);
      }
    }
  }

  method MergeAlternativeBackends(a: Annotated, ups: Table, servers: Hosts) returns (r: Merge)
    requires DefServerName in servers
    ensures r == MergeIngress(ups, servers, a)
  {
    r := MergeCatchAll(a, ups, servers);
    var rules := a.ing.rules;
    for i := 0 to |rules|
      invariant r == MergeRules(ups, servers, a, rules[..i])
    {
      assert rules[..i + 1][..i] == rules[..i];
      if r.Merged? {
        if rules[i].http.None? {
          r := Panic;
        } else {
          r := MergeRule(a, rules[i], r.ups, servers);
        }
      }
    }
    assert rules[..|rules|] == rules;
  }

  // ---------------------------------------------------------------- all uses in a row

  lemma {:induction false} PanicStays(ups: Table, uses: seq<Use>, m: nat)
    requires m <= |uses| && MergeUses(ups, uses[..m]).Panic?
    ensures MergeUses(ups, uses).Panic?
    decreases |uses|
  {
    if m < |uses| {
      assert uses[..|uses| - 1][..m] == uses[..m];
      PanicStays(ups, uses[..|uses| - 1], m);
    } else {
      assert uses[..m] == uses;
    }
  }

  lemma {:induction false} MergeUsesConcat(ups: Table, u: seq<Use>, v: seq<Use>)
    ensures MergeUses(ups, u + v) ==
            var before := MergeUses(ups, u); if before.Panic? then Panic else MergeUses(before.ups, v)
    decreases v
  {
    if v == [] {
      assert u + v == u;
    } else {
      MergeUsesConcat(ups, u, v[..|v| - 1]);
      assert (u + v)[..|u + v| - 1] == u + v[..|v| - 1];
    }
  }

  lemma {:induction false} MergeRulesIsMergeUses(ups: Table, servers: Hosts, a: Annotated, rules: seq<Rule>)
    requires DefServerName in servers
    ensures MergeRules(ups, servers, a, rules) ==
            if !RulesComplete(rules) then Panic
            else MergeUses(ups, CatchAllUses(a, servers) + PathUses(EntriesOfRules(a, rules), servers))
  {
    var start := CatchAllUses(a, servers);
    if rules == [] {
      assert start + PathUses([], servers) == start;
    } else {
      var init, rule := rules[..|rules| - 1], rules[|rules| - 1];
      MergeRulesIsMergeUses(ups, servers, a, init);
      var done, more := start + PathUses(EntriesOfRules(a, init), servers), PathUses(EntriesOfRule(a, rule), servers);
      PathUsesConcat(start, EntriesOfRules(a, init), EntriesOfRule(a, rule), servers);
      MergeUsesConcat(ups, done, more);
      CompleteAppend(rules);
    }
  }

  lemma PathUsesConcat(start: seq<Use>, x: seq<Entry>, y: seq<Entry>, servers: Hosts)
    ensures start + PathUses(x + y, servers) == start + PathUses(x, servers) + PathUses(y, servers)
  {
  }

  lemma CompleteAppend(rules: seq<Rule>)
    requires rules != []
    ensures RulesComplete(rules) <==> RulesComplete(rules[..|rules| - 1]) && rules[|rules| - 1].http.Some?
  {
  }

  predicate AllComplete(canaries: seq<Annotated>) {
    canaries == [] || (AllComplete(canaries[..|canaries| - 1]) && RulesComplete(canaries[|canaries| - 1].ing.rules))
  }

  /** Merging all canaries is trying their backends one after the other. */
  lemma {:induction false} MergeAllIsMergeUses(ups: Table, servers: Hosts, canaries: seq<Annotated>)
    requires DefServerName in servers
    ensures MergeAll(ups, servers, canaries) ==
            if AllComplete(canaries) then MergeUses(ups, AllUses(canaries, servers)) else Panic
  {
    if canaries == [] {
    } else {
      var init, a := canaries[..|canaries| - 1], canaries[|canaries| - 1];
      MergeAllIsMergeUses(ups, servers, init);
      MergeUsesConcat(ups, AllUses(init, servers), UsesOf(a, servers));
      var before := MergeAll(ups, servers, init);
      if before.Merged? {
        MergeRulesIsMergeUses(before.ups, servers, a, a.ing.rules);
      }
    }
  }

  // ---------------------------------------------------------------- what merging may change, on any input

  /** Every upstream is filed under its name, and its alternatives are distinct and do not include it. */
  ghost predicate AlternativesSound(ups: Table) {
    forall k :: k in ups ==>
      ups[k].name == k && Distinct(ups[k].alternativeBackends.Items()) && k !in ups[k].alternativeBackends.Items()
  }

  /** A canary backend of this name applies to a location that upstream k serves. */
  ghost predicate Traces(use: Use, alt: string, k: string) {
    use.name == alt && use.locations.Some? &&
    exists i :: 0 <= i < |use.locations.value| && use.locations.value[i].backend == k
                && SiteMatches(use.site, use.locations.value[i])
  }

  ghost predicate Traced(uses: seq<Use>, alt: string, k: string) {
    exists i :: 0 <= i < |uses| && Traces(uses[i], alt, k)
  }

  ghost predicate Named(uses: seq<Use>, k: string) {
    exists i :: 0 <= i < |uses| && uses[i].name == k
  }

  /** Upstream k gained alternatives only, only if it has a server and is not the default upstream, and
      only such as trace to a use. */
  ghost predicate KeyMerged(before: Backend, after: Backend, uses: seq<Use>, k: string) {
    && after == before.(alternativeBackends := after.alternativeBackends)
    && (after != before ==> k != DefUpstreamName && !before.noServer)
    && (forall alt :: alt in before.alternativeBackends.Items() ==> alt in after.alternativeBackends.Items())
    && (forall alt :: alt in after.alternativeBackends.Items() ==>
          alt in before.alternativeBackends.Items() || Traced(uses, alt, k))
  }

  /** No upstream appears, and only upstreams that a use names disappear. */
  ghost predicate MergedFrom(before: Table, after: Table, uses: seq<Use>) {
    && after.Keys <= before.Keys
    && (forall k :: k in before && k !in after ==> Named(uses, k))
    && (forall k :: k in after ==> KeyMerged(before[k], after[k], uses, k))
  }

  lemma UsesGrow(u: seq<Use>, v: seq<Use>)
    ensures forall k :: Named(u, k) || Named(v, k) ==> Named(u + v, k)
    ensures forall alt, k :: Traced(u, alt, k) || Traced(v, alt, k) ==> Traced(u + v, alt, k)
  {
    var w := u + v;
    forall k | Named(u, k) || Named(v, k) ensures Named(w, k) {
      if Named(u, k) {
        var i :| 0 <= i < |u| && u[i].name == k;
        assert w[i].name == k;
      } else {
        var i :| 0 <= i < |v| && v[i].name == k;
        assert w[|u| + i].name == k;
      }
    }
    forall alt, k | Traced(u, alt, k) || Traced(v, alt, k) ensures Traced(w, alt, k) {
      if Traced(u, alt, k) {
        var i :| 0 <= i < |u| && Traces(u[i], alt, k);
        assert Traces(w[i], alt, k);
      } else {
        var i :| 0 <= i < |v| && Traces(v[i], alt, k);
        assert Traces(w[|u| + i], alt, k);
      }
    }
  }

  lemma KeyMergedTransitive(a: Backend, b: Backend, c: Backend, u: seq<Use>, v: seq<Use>, k: string)
    requires KeyMerged(a, b, u, k) && KeyMerged(b, c, v, k)
    ensures KeyMerged(a, c, u + v, k)
  {
    UsesGrow(u, v);
  }

  lemma MergedFromTransitive(a: Table, b: Table, c: Table, u: seq<Use>, v: seq<Use>)
    requires MergedFrom(a, b, u) && MergedFrom(b, c, v)
    ensures MergedFrom(a, c, u + v)
  {
    UsesGrow(u, v);
    forall k | k in c ensures KeyMerged(a[k], c[k], u + v, k) {
      KeyMergedTransitive(a[k], b[k], c[k], u, v, k);
    }
  }

  lemma AddAlternativeMerges(pri: Backend, alt: string, use: Use)
    requires pri.name != DefUpstreamName && !pri.noServer && pri.name != alt
    requires Distinct(pri.alternativeBackends.Items()) && pri.name !in pri.alternativeBackends.Items()
    requires Traces(use, alt, pri.name)
    ensures KeyMerged(pri, AddAlternative(pri, alt), [use], pri.name)
    ensures var items := AddAlternative(pri, alt).alternativeBackends.Items();
            Distinct(items) && pri.name !in items
  {
    assert Traces([use][0], alt, pri.name);
  }

  lemma MergedFromUpdate(ups: Table, mid: Table, use: Use, loc: Location)
    requires AlternativesSound(mid) && MergedFrom(ups, mid, [use]) && mid.Keys == ups.Keys
    requires loc.backend in mid && use.name in mid
    requires CanMergeBackend(mid[loc.backend], mid[use.name])
    requires Traces(use, use.name, loc.backend)
    ensures var after := mid[loc.backend := AddAlternative(mid[loc.backend], use.name)];
            AlternativesSound(after) && after.Keys == ups.Keys && MergedFrom(ups, after, [use])
  {
    var k := loc.backend;
    var primary := AddAlternative(mid[k], use.name);
    AddAlternativeMerges(mid[k], use.name, use);
    KeyMergedTwice(ups[k], mid[k], primary, use, k);
  }

  ghost predicate LoopMerged(ups: Table, use: Use, loop: Loop) {
    loop.Loop? ==> AlternativesSound(loop.ups) && loop.ups.Keys == ups.Keys && MergedFrom(ups, loop.ups, [use])
  }

  lemma LoopOnceMerges(ups: Table, use: Use, before: Loop, loc: Location)
    requires use.name in ups && LoopMerged(ups, use, before) && use.locations.Some?
    requires loc in use.locations.value
    ensures LoopMerged(ups, use, LoopOnce(before, use.name, loc, use.site))
  {
    if before.Loop? && !before.altEqualsPri && loc.backend in before.ups {
      if CanMergeBackend(before.ups[loc.backend], before.ups[use.name]) && SiteMatches(use.site, loc) {
        assert Traces(use, use.name, loc.backend);
        MergedFromUpdate(ups, before.ups, use, loc);
      }
    }
  }

  lemma {:induction false} MergeLoopMerges(ups: Table, use: Use, n: nat)
    requires AlternativesSound(ups) && use.name in ups && use.locations.Some? && n <= |use.locations.value|
    ensures LoopMerged(ups, use, MergeLoop(ups, use.name, use.locations.value[..n], use.site))
  {
    var locations := use.locations.value;
    if n == 0 {
    } else {
      MergeLoopMerges(ups, use, n - 1);
      LoopAppend(ups, use.name, locations, use.site, n - 1);
      assert locations[n - 1] in locations;
      LoopOnceMerges(ups, use, MergeLoop(ups, use.name, locations[..n - 1], use.site), locations[n - 1]);
    }
  }

  lemma KeyMergedTwice(a: Backend, b: Backend, c: Backend, use: Use, k: string)
    requires KeyMerged(a, b, [use], k) && KeyMerged(b, c, [use], k)
    ensures KeyMerged(a, c, [use], k)
  {
  }

  lemma MergeUseMerges(ups: Table, use: Use)
    requires AlternativesSound(ups)
    ensures var m := MergeUse(ups, use);
            m.Merged? ==> AlternativesSound(m.ups) && MergedFrom(ups, m.ups, [use])
  {
    if use.name in ups && use.locations.Some? {
      var locations := use.locations.value;
      assert locations[..|locations|] == locations;
      MergeLoopMerges(ups, use, |locations|);
      assert [use][0].name == use.name;
    }
  }

  /** Through any sequence of merges, on any input: alternatives stay distinct and never include their own
      upstream, and the table changes only as described. */
  lemma {:induction false} MergeUsesMerges(ups: Table, uses: seq<Use>)
    requires AlternativesSound(ups)
    ensures var m := MergeUses(ups, uses);
            m.Merged? ==> AlternativesSound(m.ups) && MergedFrom(ups, m.ups, uses)
  {
    if uses == [] {
    } else {
      var init, use := uses[..|uses| - 1], uses[|uses| - 1];
      MergeUsesMerges(ups, init);
      var before := MergeUses(ups, init);
      if before.Merged? {
        MergeUseMerges(before.ups, use);
        var m := MergeUse(before.ups, use);
        if m.Merged? {
          MergedFromTransitive(ups, before.ups, m.ups, init, [use]);
          assert uses == init + [use];
        }
      }
    }
  }

  /** A use of an upstream name is a canary's catch-all backend, tried against the default server, or a
      canary's path, tried against the server of its host. */
  ghost predicate ComesFrom(use: Use, canaries: seq<Annotated>, servers: Hosts)
    requires DefServerName in servers
  {
    exists i :: 0 <= i < |canaries| && use in UsesOf(canaries[i], servers)
  }

  lemma {:induction false} UsesComeFromCanaries(canaries: seq<Annotated>, servers: Hosts)
    requires DefServerName in servers
    ensures forall use :: use in AllUses(canaries, servers) ==> ComesFrom(use, canaries, servers)
  {
    if canaries == [] {
    } else {
      var init, a := canaries[..|canaries| - 1], canaries[|canaries| - 1];
      UsesComeFromCanaries(init, servers);
      assert canaries == init + [a];
      forall use | use in AllUses(canaries, servers) ensures ComesFrom(use, canaries, servers) {
        ComesFromAppend(use, init, a, servers);
      }
    }
  }

  lemma ComesFromAppend(use: Use, init: seq<Annotated>, a: Annotated, servers: Hosts)
    requires DefServerName in servers && (ComesFrom(use, init, servers) || use in UsesOf(a, servers))
    ensures ComesFrom(use, init + [a], servers)
  {
    var canaries := init + [a];
    assert canaries[|init|] == a;
    if i :| 0 <= i < |init| && use in UsesOf(init[i], servers) {
      assert canaries[i] == init[i];
    }
  }

  /** Every alternative that merging gives to an upstream was asked for by a canary, at a place that this
      upstream serves. */
  lemma {:induction false} AlternativesTraceToCanaries(ups: Table, servers: Hosts, canaries: seq<Annotated>, k: string,
                                                       alt: string)
    requires AlternativesSound(ups) && DefServerName in servers
    requires
      var m := MergeAll(ups, servers, canaries);
      && m.Merged? && k in m.ups && k in ups
      && alt in m.ups[k].alternativeBackends.Items() && alt !in ups[k].alternativeBackends.Items()
    ensures k != DefUpstreamName && !ups[k].noServer && alt != k
    ensures exists i, use ::
              0 <= i < |canaries| && use in UsesOf(canaries[i], servers) && Traces(use, alt, k)
  {
    MergeAllIsMergeUses(ups, servers, canaries);
    var uses := AllUses(canaries, servers);
    MergeUsesMerges(ups, uses);
    var after := MergeAll(ups, servers, canaries).ups;
    assert KeyMerged(ups[k], after[k], uses, k);
    var j :| 0 <= j < |uses| && Traces(uses[j], alt, k);
    UsesComeFromCanaries(canaries, servers);
    assert uses[j] in uses;
    assert ComesFrom(uses[j], canaries, servers);
  }
}
