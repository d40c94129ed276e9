/** When merging canaries is safe, in terms of the Ingresses alone (internal/ingress/controller/controller.go,
    getBackendServers and mergeAlternativeBackends).

    A canary may share the service of another Ingress.  As long as it does so by paths, the path is placed like any
    other, and the search for it finds that location.  A catch-all backend that is shared is another matter: it makes
    the upstream a canary's.
 */
module CanarySafety {
  import opened Matching
  import opened Strings
  import opened Types
  import opened Sorting
  import opened Upstreams
  import opened Servers
  import opened Placement
  import opened Ownership
  import opened Canary
  import opened CanaryOutcome
  import opened Compile
  import opened HostLocations

  // ---------------------------------------------------------------- paths with a server

  /** No Ingress uses the name of the default upstream. */
  ghost predicate DefaultUnused(data: seq<Annotated>) {
    forall i :: 0 <= i < |data| ==> !Uses(data[i], DefUpstreamName)
  }

  /** A path on a named host whose upstream has a server never deletes it. */
  lemma {:induction false} PathWithServerStays(env: Env, data: seq<Annotated>, du: Backend, e: Entry)
    requires du.name == DefUpstreamName && du.alternativeBackends == Nil && DefaultUnused(data)
    requires e in Entries(data) && Counts(Created(env, data, du), e)
    requires e.host != "" && e.host != DefServerName && e.path.path != ""
    ensures !Deletes(Created(env, data, du), UseOf(e, PlacedServers(env, data, du)))
  {
    var ups, servers := Created(env, data, du), PlacedServers(env, data, du);
    var h := e.host;
    if h in servers {
      CreatedHoldsUsed(env, data, du);
      RootIsFresh(env, data, du, h);
      PlacedAre(env, data, du, h);
      var root, claims := RootOf(env, data, du, h), ClaimsFor(env, data, du, h);
      ClaimsCount(servers.Keys, ups, Entries(data), h);
      var own := Claim(e, ups[NameOf(e)]);
      assert own in claims;
      var j :| 0 <= j < |claims| && claims[j] == own;
      assert PathOf(claims[j]) == e.path.path && TypeOf(claims[j]) == e.path.pathType;
      var k, c := ClaimedLocationLeads(root, claims, e.path.path, e.path.pathType);
      EntryOwner(data, c.e);
      PlacedPathHits(ups, UseOf(e, servers), k, c.upstream.name);
    }
  }

  /** A location at the canary's place leads to the canary's own upstream or is a hit. */
  lemma PlacedPathHits(ups: Table, use: Use, k: nat, name: string)
    requires use.locations.Some? && k < |use.locations.value|
    requires use.locations.value[k].backend == name && SiteMatches(use.site, use.locations.value[k])
    requires name in ups && name != DefUpstreamName && !ups[name].noServer
    ensures !Deletes(ups, use)
  {
    assert use.locations.value[k] in use.locations.value;
    assert Traces(use, use.name, name);
    assert HitsKey(ups, use, name);
  }

  // ---------------------------------------------------------------- who makes an upstream a canary's

  ghost predicate MadeBy(data: seq<Annotated>, name: string, noServer: bool) {
    exists i :: 0 <= i < |data| && Uses(data[i], name) && noServer == data[i].anns.canary
  }

  lemma MadeByAppend(init: seq<Annotated>, a: Annotated, name: string, noServer: bool)
    requires MadeBy(init, name, noServer) || (Uses(a, name) && noServer == a.anns.canary)
    ensures MadeBy(init + [a], name, noServer)
  {
    var data := init + [a];
    assert data[|init|] == a;
    if i :| 0 <= i < |init| && Uses(init[i], name) && noServer == init[i].anns.canary {
      assert data[i] == init[i];
    }
  }

  /** An upstream is made by an Ingress that uses it, and is without a server if that is a canary. */
  lemma {:induction false} MakerUses(env: Env, data: seq<Annotated>, du: Backend, name: string)
    requires name in Created(env, data, du) && name != DefUpstreamName
    ensures MadeBy(data, name, Created(env, data, du)[name].noServer)
  {
    var init, a := data[..|data| - 1], data[|data| - 1];
    var before, ups := Created(env, init, du), Created(env, data, du);
    if name in before && !NamesCatchAll(a, name) {
      MakerUses(env, init, du, name);
    }
    LastMakes(before, env, a, name);
    assert data == init + [a];
    MadeByAppend(init, a, name, ups[name].noServer);
  }

  /** What one Ingress adds or replaces is its own; the rest stays. */
  lemma {:induction false} LastMakes(before: Table, env: Env, a: Annotated, name: string)
    requires name in AddEntries(AddDefault(before, env, a), env, EntriesOf(a))
    ensures
      var ups := AddEntries(AddDefault(before, env, a), env, EntriesOf(a));
      if name in before && !NamesCatchAll(a, name) then ups[name] == before[name]
      else Uses(a, name) && ups[name].noServer == a.anns.canary
  {
    var base := AddDefault(before, env, a);
    var ups := AddEntries(base, env, EntriesOf(a));
    AddEntriesKeeps(base, env, EntriesOf(a));
    AddEntriesIntroduces(base, env, EntriesOf(a));
    EntriesBelong(a, a.ing.rules);
    if name !in base {
      assert Introduces(EntriesOf(a), name, ups[name].noServer);
    }
  }

  lemma {:induction false} LastNamed(data: seq<Annotated>, name: string, n: nat) returns (i: nat)
    requires n <= |data| && exists k :: 0 <= k < n && NamesCatchAll(data[k], name)
    ensures i < n && NamesCatchAll(data[i], name) && forall j :: i < j < n ==> !NamesCatchAll(data[j], name)
  {
    if NamesCatchAll(data[n - 1], name) {
      i := n - 1;
    } else {
      i := LastNamed(data, name, n - 1);
    }
  }

  // ---------------------------------------------------------------- the condition

  /** No upstream is the catch-all backend of a canary and used by another Ingress. */
  ghost predicate CatchAllsApart(data: seq<Annotated>) {
    forall i, j, name :: 0 <= i < |data| && 0 <= j < |data| && data[i].anns.canary && !data[j].anns.canary ==>
      !(NamesCatchAll(data[i], name) && Uses(data[j], name))
  }

  /** Paths are not empty, as the store makes them, and no rule is for the default server's name. */
  predicate PathsNormal(data: seq<Annotated>) {
    forall e :: e in Entries(data) ==> e.path.path != "" && e.host != DefServerName
  }

  /** A canary's catch-all upstream serves no location. */
  lemma CatchAllServesNothing(env: Env, data: seq<Annotated>, du: Backend, i: nat, name: string)
    requires du.name == DefUpstreamName && du.alternativeBackends == Nil && DefaultUnused(data) && CatchAllsApart(data)
    requires i < |data| && data[i].anns.canary && NamesCatchAll(data[i], name)
    ensures name !in Serving(PlacedServers(env, data, du))
  {
    var ups, servers := Created(env, data, du), PlacedServers(env, data, du);
    assert Uses(data[i], name);
    CreatedHoldsUsed(env, data, du);
    RootsLeadToPrimaries(env, data, ups, du);
    forall h, l | h in servers && l in servers[h].locations ensures l.backend != name {
      PlacedComeFrom(env, data, du, h, l);
      if HasClaim(ups, Entries(data), l.backend) {
        EntryUses(ups, data, l.backend);
        MakerUses(env, data, du, l.backend);
      } else {
        assert Primary(data, l.backend);
      }
    }
  }

  lemma {:induction false} EntryUses(ups: Table, data: seq<Annotated>, name: string)
    requires HasClaim(ups, Entries(data), name)
    ensures name in ups && !ups[name].noServer && UsedBy(data, name)
  {
    var k :| 0 <= k < |Entries(data)| && Counts(ups, Entries(data)[k]) && NameOf(Entries(data)[k]) == name;
    assert Entries(data)[k] in Entries(data);
    EntryOwner(data, Entries(data)[k]);
  }

  /** An upstream without a server serves no location. */
  lemma {:induction false} NoServerServesNothing(env: Env, data: seq<Annotated>, du: Backend, name: string)
    requires du.name == DefUpstreamName && du.alternativeBackends == Nil && CatchAllsApart(data)
    requires name != DefUpstreamName && name in Created(env, data, du) && Created(env, data, du)[name].noServer
    ensures name !in Serving(PlacedServers(env, data, du))
  {
    var ups, servers := Created(env, data, du), PlacedServers(env, data, du);
    CreatedHoldsUsed(env, data, du);
    RootsLeadToCatchAlls(env, data, |data|, ups, du);
    assert data[..|data|] == data;
    assert !CatchAllOf(data, name) by {
      if i :| 0 <= i < |data| && !data[i].anns.canary && NamesCatchAll(data[i], name) {
        var last := LastNamed(data, name, |data|);
        LastCatchAllWins(env, data, du, name, last);
        assert Uses(data[i], name);
      }
    }
    forall h, l | h in servers && l in servers[h].locations ensures l.backend != name {
      PlacedComeFrom(env, data, du, h, l);
      if HasClaim(ups, Entries(data), l.backend) {
        EntryUses(ups, data, l.backend);
      }
    }
  }

  lemma {:induction false} EntriesAreListed(data: seq<Annotated>, i: nat, e: Entry)
    requires i < |data| && e in EntriesOf(data[i])
    ensures e in Entries(data)
  {
    if i < |data| - 1 {
      EntriesAreListed(data[..|data| - 1], i, e);
    }
  }

  lemma {:induction false} CanaryUseSpares(env: Env, data: seq<Annotated>, du: Backend, i: nat, use: Use)
    requires du.name == DefUpstreamName && du.alternativeBackends == Nil
    requires DefaultUnused(data) && CatchAllsApart(data) && PathsNormal(data)
    requires i < |data| && data[i].anns.canary && use in UsesOf(data[i], PlacedServers(env, data, du))
    requires use.name in Serving(PlacedServers(env, data, du))
    ensures !Deletes(Created(env, data, du), use)
  {
    var ups, servers := Created(env, data, du), PlacedServers(env, data, du);
    UseIsUsed(data[i], servers, use);
    if use in CatchAllUses(data[i], servers) {
      CatchAllServesNothing(env, data, du, i, use.name);
    } else {
      var k :| 0 <= k < |EntriesOf(data[i])| && UseOf(EntriesOf(data[i])[k], servers) == use;
      var e := EntriesOf(data[i])[k];
      assert e in EntriesOf(data[i]);
      EntriesAreListed(data, i, e);
      CreatedHoldsUsed(env, data, du);
      assert UsedBy(data, use.name);
      if !Counts(ups, e) {
        NoServerServesNothing(env, data, du, use.name);
      } else if e.host != "" {
        PathWithServerStays(env, data, du, e);
      } else {
        EmptyHostIsNoServer(env, data, du);
      }
    }
  }

  lemma EmptyHostIsNoServer(env: Env, data: seq<Annotated>, du: Backend)
    ensures "" !in PlacedServers(env, data, du)
  {
    var ups := Created(env, data, du);
    CreatedServersAreClean(env, data, ups, du);
    forall k | 0 <= k < |data| ensures !Mentions(data[k], "") {
    }
    FirstIngressMakesServer(env, data, ups, du, "", |data|);
  }

  /** Merging is safe if canaries share no catch-all backend with other Ingresses, however they share paths. */
  lemma {:induction false} SharedPathsAreSafe(env: Env, data: seq<Annotated>, du: Backend)
    requires du.name == DefUpstreamName && du.alternativeBackends == Nil
    requires DefaultUnused(data) && CatchAllsApart(data) && PathsNormal(data) && AllComplete(Canaries(data))
    ensures Safe(env, data, du)
  {
    var ups, servers := Created(env, data, du), PlacedServers(env, data, du);
    var canaries := Canaries(data);
    var uses := AllUses(canaries, servers);
    UsesComeFromCanaries(canaries, servers);
    forall k | 0 <= k < |uses| && uses[k].name in Serving(servers) ensures !Deletes(ups, uses[k]) {
      assert uses[k] in uses;
      assert ComesFrom(uses[k], canaries, servers);
      var j :| 0 <= j < |canaries| && uses[k] in UsesOf(canaries[j], servers);
      assert canaries[j] in canaries;
      CanariesAre(data, canaries[j]);
      var i :| 0 <= i < |data| && data[i] == canaries[j];
      CanaryUseSpares(env, data, du, i, uses[k]);
    }
  }

  // ---------------------------------------------------------------- alternatives in the merged table

  /** Whenever merging is safe: afterwards every alternative exists, exactly if no canary was attached by one of its
      backends and deleted by another. */
  lemma {:induction false} MergedAlternativesExistIff(env: Env, data: seq<Annotated>, du: Backend)
    requires du.name == DefUpstreamName && du.alternativeBackends == Nil && Safe(env, data, du)
    ensures
      var m := MergedTable(env, data, du);
      m.Merged? &&
      ((forall k, alt :: k in m.ups && alt in m.ups[k].alternativeBackends.Items() ==> alt in m.ups) <==>
       !(Merges(data) &&
         AttachedThenDeleted(Created(env, data, du), AllUses(Canaries(data), PlacedServers(env, data, du)))))
  {
    var ups, servers := Created(env, data, du), PlacedServers(env, data, du);
    CreatedHoldsUsed(env, data, du);
    CreatedAlternativesSound(env, data, du);
    if Merges(data) {
      PlacedLocationsLeadToUpstreams(env, data, du);
      UsesAreWithin(servers, Canaries(data));
      MergeAllIsMergeUses(ups, servers, Canaries(data));
      AlternativesExistIff(ups, AllUses(Canaries(data), servers), Serving(servers));
    }
  }
}
