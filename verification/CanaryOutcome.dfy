/** What mergeAlternativeBackends (internal/ingress/controller/controller.go) achieves: when it neither panics nor loses
    an upstream that serves a location, exactly which canaries survive then, which upstreams list them, and when an
    upstream is left with an alternative that no longer exists.
 */
module CanaryOutcome {
  import opened Matching
  import opened Types
  import opened Sorting
  import opened Upstreams
  import opened Canary

  /** The use attaches its canary to upstream k. */
  ghost predicate HitsKey(ups: Table, use: Use, k: string) {
    k in ups && k != DefUpstreamName && !ups[k].noServer && Traces(use, use.name, k)
  }

  ghost predicate Hits(ups: Table, use: Use) { exists k :: HitsKey(ups, use, k) }

  /** The use has a server to try and finds nothing there. */
  ghost predicate Misses(ups: Table, use: Use) { use.locations.Some? && !Hits(ups, use) }

  /** Every location a use is tried against has an upstream, and not one that a use names. */
  ghost predicate Separated(ups: Table, uses: seq<Use>) {
    && AlternativesSound(ups)
    && forall i, l :: 0 <= i < |uses| && uses[i].locations.Some? && l in uses[i].locations.value ==>
         l.backend in ups && !Named(uses, l.backend)
  }

  // ---------------------------------------------------------------- one use

  ghost predicate TracesWithin(use: Use, n: nat, k: string)
    requires use.locations.Some? && n <= |use.locations.value|
  {
    exists i :: 0 <= i < n && use.locations.value[i].backend == k && SiteMatches(use.site, use.locations.value[i])
  }

  ghost predicate HitsWithin(ups: Table, use: Use, n: nat, k: string)
    requires use.locations.Some? && n <= |use.locations.value|
  {
    k in ups && k != DefUpstreamName && !ups[k].noServer && TracesWithin(use, n, k)
  }

  ghost predicate SomeHit(ups: Table, use: Use, n: nat)
    requires use.locations.Some? && n <= |use.locations.value|
  {
    exists k :: HitsWithin(ups, use, n, k)
  }

  /** The table in which every upstream hit within the first n locations lists the canary. */
  ghost predicate ListsHits(ups: Table, after: Table, use: Use, n: nat)
    requires use.locations.Some? && n <= |use.locations.value|
  {
    && after.Keys == ups.Keys
    && forall k :: k in ups ==>
         after[k] == if HitsWithin(ups, use, n, k) then AddAlternative(ups[k], use.name) else ups[k]
  }

  lemma WithinStep(ups: Table, use: Use, n: nat, k: string)
    requires use.locations.Some? && 0 < n <= |use.locations.value|
    ensures
      var l := use.locations.value[n - 1];
      HitsWithin(ups, use, n, k) <==>
      HitsWithin(ups, use, n - 1, k) ||
      (k in ups && l.backend == k && k != DefUpstreamName && !ups[k].noServer && SiteMatches(use.site, l))
  {
  }

  lemma ListsHitsStep(ups: Table, mid: Table, use: Use, n: nat)
    requires use.locations.Some? && 0 < n <= |use.locations.value|
    requires AlternativesSound(ups) && ListsHits(ups, mid, use, n - 1)
    requires var l := use.locations.value[n - 1]; l.backend in ups && l.backend != use.name
    ensures
      var l := use.locations.value[n - 1];
      var hit := l.backend != DefUpstreamName && !ups[l.backend].noServer && SiteMatches(use.site, l);
      ListsHits(ups, if hit then mid[l.backend := AddAlternative(mid[l.backend], use.name)] else mid, use, n)
  {
    forall k | k in ups
      ensures
        var l := use.locations.value[n - 1];
        HitsWithin(ups, use, n, k) <==>
        HitsWithin(ups, use, n - 1, k) ||
        (l.backend == k && k != DefUpstreamName && !ups[k].noServer && SiteMatches(use.site, l))
    {
      WithinStep(ups, use, n, k);
    }
  }

  ghost predicate LoopDone(ups: Table, use: Use, n: nat, loop: Loop)
    requires use.locations.Some? && n <= |use.locations.value|
  {
    && loop.Loop? && !loop.altEqualsPri
    && ListsHits(ups, loop.ups, use, n)
    && (loop.merged <==> SomeHit(ups, use, n))
  }

  lemma ListingKeepsNames(ups: Table, after: Table, use: Use, n: nat, k: string)
    requires use.locations.Some? && n <= |use.locations.value| && ListsHits(ups, after, use, n) && k in ups
    ensures k in after && after[k].name == ups[k].name && after[k].noServer == ups[k].noServer
  {
  }

  /** One more location, when neither panic nor the canary's own upstream stops the loop. */
  lemma LoopOnceHits(before: Loop, alt: string, l: Location, site: Site)
    requires before.Loop? && !before.altEqualsPri && alt in before.ups && l.backend in before.ups
    requires before.ups[l.backend].name == l.backend && before.ups[alt].name == alt != l.backend
    ensures
      var hit := l.backend != DefUpstreamName && !before.ups[l.backend].noServer && SiteMatches(site, l);
      LoopOnce(before, alt, l, site) ==
      if hit then Loop(before.ups[l.backend := AddAlternative(before.ups[l.backend], alt)], true, false) else before
  {
  }

  lemma HitsStep(ups: Table, use: Use, n: nat)
    requires use.locations.Some? && 0 < n <= |use.locations.value| && use.locations.value[n - 1].backend in ups
    ensures
      var l := use.locations.value[n - 1];
      SomeHit(ups, use, n) <==>
      SomeHit(ups, use, n - 1) || (l.backend != DefUpstreamName && !ups[l.backend].noServer && SiteMatches(use.site, l))
  {
    WithinStep(ups, use, n, use.locations.value[n - 1].backend);
    var m := n - 1;
    if k :| HitsWithin(ups, use, m, k) {
      WithinStep(ups, use, n, k);
    }
    if k :| HitsWithin(ups, use, n, k) {
      WithinStep(ups, use, n, k);
    }
  }

  lemma LoopStep(ups: Table, use: Use, n: nat, before: Loop)
    requires AlternativesSound(ups) && use.name in ups && use.locations.Some? && 0 < n <= |use.locations.value|
    requires LoopDone(ups, use, n - 1, before)
    requires var l := use.locations.value[n - 1]; l.backend in ups && l.backend != use.name
    ensures LoopDone(ups, use, n, LoopOnce(before, use.name, use.locations.value[n - 1], use.site))
  {
    var l := use.locations.value[n - 1];
    ListingKeepsNames(ups, before.ups, use, n - 1, l.backend);
    ListingKeepsNames(ups, before.ups, use, n - 1, use.name);
    LoopOnceHits(before, use.name, l, use.site);
    ListsHitsStep(ups, before.ups, use, n);
    HitsStep(ups, use, n);
  }

  lemma {:induction false} LoopNext(ups: Table, use: Use, n: nat)
    requires AlternativesSound(ups) && use.name in ups && use.locations.Some? && 0 < n <= |use.locations.value|
    requires var l := use.locations.value[n - 1]; l.backend in ups && l.backend != use.name
    requires LoopDone(ups, use, n - 1, MergeLoop(ups, use.name, use.locations.value[..n - 1], use.site))
    ensures LoopDone(ups, use, n, MergeLoop(ups, use.name, use.locations.value[..n], use.site))
  {
    LoopAppend(ups, use.name, use.locations.value, use.site, n - 1);
    LoopStep(ups, use, n, MergeLoop(ups, use.name, use.locations.value[..n - 1], use.site));
  }

  lemma {:induction false} LoopOutcome(ups: Table, use: Use, n: nat)
    requires AlternativesSound(ups) && use.name in ups && use.locations.Some? && n <= |use.locations.value|
    requires forall l :: l in use.locations.value ==> l.backend in ups && l.backend != use.name
    ensures LoopDone(ups, use, n, MergeLoop(ups, use.name, use.locations.value[..n], use.site))
  {
    if n > 0 {
      LoopOutcome(ups, use, n - 1);
      assert use.locations.value[n - 1] in use.locations.value;
      LoopNext(ups, use, n);
    } else {
      LoopEmpty(ups, use);
    }
  }

  lemma {:induction false} LoopEmpty(ups: Table, use: Use)
    requires use.name in ups && use.locations.Some?
    ensures LoopDone(ups, use, 0, MergeLoop(ups, use.name, use.locations.value[..0], use.site))
  {
  }

  /** One use attaches the canary wherever it hits, or deletes it if it hits nowhere. */
  lemma UseOutcome(ups: Table, use: Use)
    requires AlternativesSound(ups)
    requires use.locations.Some? ==> forall l :: l in use.locations.value ==> l.backend in ups && l.backend != use.name
    ensures
      var m := MergeUse(ups, use);
      && m.Merged?
      && (forall k :: k in m.ups <==> k in ups && !(k == use.name && Misses(ups, use)))
      && (forall k, alt :: k in m.ups ==>
            (alt in m.ups[k].alternativeBackends.Items() <==>
             alt in ups[k].alternativeBackends.Items() || (alt == use.name && use.name in ups && HitsKey(ups, use, k))))
  {
    if use.name in ups && use.locations.Some? {
      var n := |use.locations.value|;
      assert use.locations.value[..n] == use.locations.value;
      LoopOutcome(ups, use, n);
      forall k ensures HitsWithin(ups, use, n, k) <==> HitsKey(ups, use, k) {
      }
    }
  }

  // ---------------------------------------------------------------- canaries that share an upstream

  /** The use is tried against locations of its own upstream, which ends the search. */
  ghost predicate MeetsItself(use: Use) {
    use.locations.Some? && exists l :: l in use.locations.value && l.backend == use.name
  }

  ghost predicate Deletes(ups: Table, use: Use) { Misses(ups, use) && !MeetsItself(use) }

  lemma {:induction false} LoopKeepsNames(ups: Table, use: Use, n: nat, k: string)
    requires AlternativesSound(ups) && use.name in ups && use.locations.Some? && n <= |use.locations.value|
    requires MergeLoop(ups, use.name, use.locations.value[..n], use.site).Loop? && k in ups
    ensures
      var after := MergeLoop(ups, use.name, use.locations.value[..n], use.site).ups;
      k in after && after[k].name == k
  {
    MergeLoopMerges(ups, use, n);
  }

  lemma LoopOnceKeys(before: Loop, alt: string, l: Location, site: Site)
    requires before.Loop? && alt in before.ups && l.backend in before.ups
    requires before.ups[l.backend].name == l.backend && before.ups[alt].name == alt
    ensures
      var loop := LoopOnce(before, alt, l, site);
      && loop.Loop? && loop.ups.Keys == before.ups.Keys
      && loop.altEqualsPri == (before.altEqualsPri || l.backend == alt)
  {
  }

  ghost predicate MeetsItselfWithin(use: Use, n: nat)
    requires use.locations.Some? && n <= |use.locations.value|
  {
    exists i :: 0 <= i < n && use.locations.value[i].backend == use.name
  }

  ghost predicate OwnDone(ups: Table, use: Use, n: nat, loop: Loop)
    requires use.locations.Some? && n <= |use.locations.value|
  {
    loop.Loop? && loop.ups.Keys == ups.Keys && loop.altEqualsPri == MeetsItselfWithin(use, n)
  }

  lemma OwnStep(ups: Table, use: Use, n: nat, before: Loop)
    requires use.name in ups && use.locations.Some? && 0 < n <= |use.locations.value|
    requires OwnDone(ups, use, n - 1, before)
    requires
      var l := use.locations.value[n - 1];
      l.backend in ups && before.ups[l.backend].name == l.backend && before.ups[use.name].name == use.name
    ensures OwnDone(ups, use, n, LoopOnce(before, use.name, use.locations.value[n - 1], use.site))
  {
    LoopOnceKeys(before, use.name, use.locations.value[n - 1], use.site);
    assert MeetsItselfWithin(use, n) <==>
           MeetsItselfWithin(use, n - 1) || use.locations.value[n - 1].backend == use.name;
  }

  lemma {:induction false} OwnLocationStops(ups: Table, use: Use, n: nat)
    requires AlternativesSound(ups) && use.name in ups && use.locations.Some? && n <= |use.locations.value|
    requires forall l :: l in use.locations.value ==> l.backend in ups
    ensures OwnDone(ups, use, n, MergeLoop(ups, use.name, use.locations.value[..n], use.site))
  {
    var locations := use.locations.value;
    if n == 0 {
    } else {
      OwnLocationStops(ups, use, n - 1);
      LoopAppend(ups, use.name, locations, use.site, n - 1);
      assert locations[n - 1] in locations;
      LoopKeepsNames(ups, use, n - 1, locations[n - 1].backend);
      LoopKeepsNames(ups, use, n - 1, use.name);
      OwnStep(ups, use, n, MergeLoop(ups, use.name, locations[..n - 1], use.site));
    }
  }

  /** A use deletes its upstream, or changes no key. */
  lemma UseDeletes(ups: Table, use: Use)
    requires AlternativesSound(ups)
    requires use.locations.Some? ==> forall l :: l in use.locations.value ==> l.backend in ups
    ensures
      var m := MergeUse(ups, use);
      m.Merged? && m.ups.Keys == if use.name in ups && Deletes(ups, use) then ups.Keys - {use.name} else ups.Keys
  {
    if use.name in ups && use.locations.Some? {
      if MeetsItself(use) {
        var n := |use.locations.value|;
        assert use.locations.value[..n] == use.locations.value;
        OwnLocationStops(ups, use, n);
        assert MeetsItselfWithin(use, n);
      } else {
        UseOutcome(ups, use);
      }
    }
  }

  /** Every location that a use is tried against has one of these upstreams. */
  ghost predicate Within(uses: seq<Use>, serving: set<string>) {
    forall i, l :: 0 <= i < |uses| && uses[i].locations.Some? && l in uses[i].locations.value ==> l.backend in serving
  }

  ghost predicate Spares(ups: Table, uses: seq<Use>, serving: set<string>) {
    forall i :: 0 <= i < |uses| && uses[i].name in serving ==> !Deletes(ups, uses[i])
  }

  lemma SparesAppend(ups: Table, init: seq<Use>, use: Use, serving: set<string>)
    ensures Spares(ups, init + [use], serving) <==>
            Spares(ups, init, serving) && (use.name in serving ==> !Deletes(ups, use))
  {
    var uses := init + [use];
    assert uses[|init|] == use;
    assert forall i :: 0 <= i < |init| ==> uses[i] == init[i];
    if Spares(ups, uses, serving) {
      forall i | 0 <= i < |init| && init[i].name in serving ensures !Deletes(ups, init[i]) {
        assert uses[i].name in serving;
      }
    }
  }

  /** On any input: merging does not panic and no upstream that serves a location is lost, exactly if no
      canary backend names such an upstream and is then found neither to match nor to own a location of the
      server it is tried against. */
  lemma {:induction false} ServingUpstreamsKeptIff(ups: Table, uses: seq<Use>, serving: set<string>)
    requires AlternativesSound(ups) && serving <= ups.Keys && Within(uses, serving)
    ensures
      var m := MergeUses(ups, uses);
      (m.Merged? && serving <= m.ups.Keys) <==> Spares(ups, uses, serving)
  {
    if uses == [] {
    } else {
      var init, use := uses[..|uses| - 1], uses[|uses| - 1];
      assert uses == init + [use];
      WithinInit(uses, serving);
      SparesAppend(ups, init, use, serving);
      ServingUpstreamsKeptIff(ups, init, serving);
      var before := MergeUses(ups, init);
      MergeUsesMerges(ups, init);
      if before.Merged? && serving <= before.ups.Keys {
        DeletionStays(ups, before.ups, init, use);
        UseDeletes(before.ups, use);
      } else if before.Merged? {
        MergeUseMerges(before.ups, use);
      }
    }
  }

  /** Merging does not change which uses hit what. */
  lemma HitsStay(ups: Table, after: Table, uses: seq<Use>, use: Use, k: string)
    requires MergedFrom(ups, after, uses)
    requires use.locations.Some? ==> forall l :: l in use.locations.value ==> l.backend in after
    ensures HitsKey(after, use, k) <==> HitsKey(ups, use, k)
  {
    if k in after {
      assert KeyMerged(ups[k], after[k], uses, k);
    }
    if Traces(use, use.name, k) {
      var i :| 0 <= i < |use.locations.value| && use.locations.value[i].backend == k
               && SiteMatches(use.site, use.locations.value[i]);
      assert use.locations.value[i] in use.locations.value;
    }
  }

  lemma DeletionStays(ups: Table, after: Table, uses: seq<Use>, use: Use)
    requires MergedFrom(ups, after, uses)
    requires use.locations.Some? ==> forall l :: l in use.locations.value ==> l.backend in after
    ensures Deletes(after, use) <==> Deletes(ups, use)
  {
    forall k ensures HitsKey(after, use, k) <==> HitsKey(ups, use, k) {
      HitsStay(ups, after, uses, use, k);
    }
  }

  lemma WithinInit(uses: seq<Use>, serving: set<string>)
    requires uses != [] && Within(uses, serving)
    ensures Within(uses[..|uses| - 1], serving)
    ensures
      var use := uses[|uses| - 1];
      use.locations.Some? ==> forall l :: l in use.locations.value ==> l.backend in serving
  {
    var init := uses[..|uses| - 1];
    assert forall i :: 0 <= i < |init| ==> uses[i] == init[i];
  }

  // ---------------------------------------------------------------- the outcome of a sequence of uses

  /** A canary of this name is deleted somewhere along the sequence. */
  ghost predicate DeletedIn(ups: Table, uses: seq<Use>, name: string) {
    exists i :: 0 <= i < |uses| && uses[i].name == name && Deletes(ups, uses[i])
  }

  /** Use i attaches its canary to k, not having been deleted before. */
  ghost predicate ListsAt(ups: Table, uses: seq<Use>, i: nat, alt: string, k: string)
    requires i < |uses|
  {
    uses[i].name == alt && alt in ups && HitsKey(ups, uses[i], k) && !DeletedIn(ups, uses[..i], alt)
  }

  ghost predicate ListedIn(ups: Table, uses: seq<Use>, alt: string, k: string) {
    exists i :: 0 <= i < |uses| && ListsAt(ups, uses, i, alt, k)
  }

  lemma DeletedAppend(ups: Table, init: seq<Use>, use: Use, name: string)
    ensures DeletedIn(ups, init + [use], name) <==>
            DeletedIn(ups, init, name) || (use.name == name && Deletes(ups, use))
  {
    var uses := init + [use];
    assert uses[|init|] == use;
    if i :| 0 <= i < |init| && init[i].name == name && Deletes(ups, init[i]) {
      assert uses[i] == init[i];
    }
  }

  lemma ListedAppend(ups: Table, init: seq<Use>, use: Use, alt: string, k: string)
    ensures ListedIn(ups, init + [use], alt, k) <==>
            ListedIn(ups, init, alt, k) ||
            (use.name == alt && alt in ups && HitsKey(ups, use, k) && !DeletedIn(ups, init, alt))
  {
    var uses := init + [use];
    assert uses[|init|] == use && uses[..|init|] == init;
    forall i | 0 <= i < |init| ensures ListsAt(ups, uses, i, alt, k) <==> ListsAt(ups, init, i, alt, k) {
      assert uses[i] == init[i] && uses[..i] == init[..i];
    }
    if ListedIn(ups, uses, alt, k) {
      var i :| 0 <= i < |uses| && ListsAt(ups, uses, i, alt, k);
      if i < |init| {
        assert ListsAt(ups, init, i, alt, k);
      }
    }
    if ListedIn(ups, init, alt, k) {
      var i :| 0 <= i < |init| && ListsAt(ups, init, i, alt, k);
      assert ListsAt(ups, uses, i, alt, k);
    }
    if use.name == alt && alt in ups && HitsKey(ups, use, k) && !DeletedIn(ups, init, alt) {
      assert ListsAt(ups, uses, |init|, alt, k);
    }
  }

  /** The table after the uses: what is left of it, and where a name that serves nothing is listed. */
  ghost predicate Outcome(ups: Table, uses: seq<Use>, serving: set<string>, after: Table) {
    && (forall k :: k in after <==> k in ups && !DeletedIn(ups, uses, k))
    && (forall k, alt :: k in after && alt !in serving ==>
          (alt in after[k].alternativeBackends.Items() <==>
           alt in ups[k].alternativeBackends.Items() || ListedIn(ups, uses, alt, k)))
  }

  /** What one use makes of the table, in terms of the table at the start. */
  ghost predicate UseStep(ups: Table, use: Use, serving: set<string>, mid: Table, after: Table) {
    && (forall k :: k in after <==> k in mid && !(k == use.name && Deletes(ups, use)))
    && (forall k, alt :: k in after && alt !in serving ==>
          (alt in after[k].alternativeBackends.Items() <==>
           alt in mid[k].alternativeBackends.Items() || (alt == use.name && use.name in mid && HitsKey(ups, use, k))))
  }

  lemma OutcomeStep(ups: Table, init: seq<Use>, use: Use, serving: set<string>, mid: Table, after: Table)
    requires Outcome(ups, init, serving, mid) && UseStep(ups, use, serving, mid, after)
    ensures Outcome(ups, init + [use], serving, after)
  {
    forall k ensures k in after <==> k in ups && !DeletedIn(ups, init + [use], k) {
      DeletedAppend(ups, init, use, k);
    }
    forall k, alt | k in after && alt !in serving
      ensures alt in after[k].alternativeBackends.Items() <==>
              alt in ups[k].alternativeBackends.Items() || ListedIn(ups, init + [use], alt, k)
    {
      ListedAppend(ups, init, use, alt, k);
    }
  }

  /** A name that serves nothing is never tried against itself. */
  lemma IdleUseStep(ups: Table, init: seq<Use>, use: Use, serving: set<string>, mid: Table)
    requires MergedFrom(ups, mid, init) && AlternativesSound(mid) && serving <= mid.Keys && use.name !in serving
    requires use.locations.Some? ==> forall l :: l in use.locations.value ==> l.backend in serving
    ensures MergeUse(mid, use).Merged? && UseStep(ups, use, serving, mid, MergeUse(mid, use).ups)
  {
    UseOutcome(mid, use);
    forall k ensures HitsKey(mid, use, k) <==> HitsKey(ups, use, k) {
      HitsStay(ups, mid, init, use, k);
    }
    DeletionStays(ups, mid, init, use);
    assert Misses(mid, use) <==> Deletes(mid, use);
  }

  /** A name that serves is not deleted, and merging it lists no other. */
  lemma ServingUseStep(ups: Table, init: seq<Use>, use: Use, serving: set<string>, mid: Table)
    requires MergedFrom(ups, mid, init) && AlternativesSound(mid) && serving <= mid.Keys
    requires use.name in serving && !Deletes(ups, use)
    requires use.locations.Some? ==> forall l :: l in use.locations.value ==> l.backend in serving
    ensures MergeUse(mid, use).Merged? && UseStep(ups, use, serving, mid, MergeUse(mid, use).ups)
  {
    DeletionStays(ups, mid, init, use);
    UseDeletes(mid, use);
    MergeUseMerges(mid, use);
    var after := MergeUse(mid, use).ups;
    assert after.Keys == mid.Keys;
    forall k, alt | k in after && alt !in serving
      ensures alt in after[k].alternativeBackends.Items() <==> alt in mid[k].alternativeBackends.Items()
    {
      assert KeyMerged(mid[k], after[k], [use], k);
    }
  }

  /** Merging that spares the serving upstreams does not panic, keeps them, and has exactly this outcome. */
  lemma {:induction false} SparingOutcome(ups: Table, uses: seq<Use>, serving: set<string>)
    requires AlternativesSound(ups) && serving <= ups.Keys && Within(uses, serving) && Spares(ups, uses, serving)
    ensures
      var m := MergeUses(ups, uses);
      m.Merged? && serving <= m.ups.Keys && Outcome(ups, uses, serving, m.ups)
  {
    ServingUpstreamsKeptIff(ups, uses, serving);
    if uses == [] {
    } else {
      var init, use := uses[..|uses| - 1], uses[|uses| - 1];
      assert uses == init + [use];
      WithinInit(uses, serving);
      SparesAppend(ups, init, use, serving);
      SparingOutcome(ups, init, serving);
      MergeUsesMerges(ups, init);
      var mid := MergeUses(ups, init).ups;
      if use.name in serving {
        ServingUseStep(ups, init, use, serving, mid);
      } else {
        IdleUseStep(ups, init, use, serving, mid);
      }
      OutcomeStep(ups, init, use, serving, mid, MergeUse(mid, use).ups);
    }
  }

  /** The upstreams of all locations that uses are tried against. */
  function Tried(uses: seq<Use>): set<string> {
    set i, l | 0 <= i < |uses| && uses[i].locations.Some? && l in uses[i].locations.value :: l.backend
  }

  /** If no use names an upstream that is tried: no panic, exactly the canaries that never miss are left, and each is
      listed exactly where it hit before being deleted. */
  lemma {:induction false} SeparatedOutcome(ups: Table, uses: seq<Use>)
    requires Separated(ups, uses)
    ensures
      var m := MergeUses(ups, uses);
      && m.Merged?
      && (forall k :: k in m.ups <==> k in ups && !DeletedIn(ups, uses, k))
      && (forall k, alt :: k in m.ups ==>
            (alt in m.ups[k].alternativeBackends.Items() <==>
             alt in ups[k].alternativeBackends.Items() || ListedIn(ups, uses, alt, k)))
    ensures forall i :: 0 <= i < |uses| ==> (Deletes(ups, uses[i]) <==> Misses(ups, uses[i]))
  {
    var serving := Tried(uses);
    forall i | 0 <= i < |uses| ensures uses[i].name !in serving {
      assert Named(uses, uses[i].name);
    }
    SparingOutcome(ups, uses, serving);
    MergeUsesMerges(ups, uses);
    var after := MergeUses(ups, uses).ups;
    forall k, alt | k in after && alt in serving
      ensures alt in after[k].alternativeBackends.Items() <==>
              alt in ups[k].alternativeBackends.Items() || ListedIn(ups, uses, alt, k)
    {
      assert !Named(uses, alt);
      assert KeyMerged(ups[k], after[k], uses, k);
    }
  }

  // ---------------------------------------------------------------- dangling alternatives

  /** A canary is attached somewhere and deleted by another use. */
  ghost predicate AttachedThenDeleted(ups: Table, uses: seq<Use>) {
    exists i, j, k :: 0 <= i < |uses| && 0 <= j < |uses| && ListsAt(ups, uses, i, uses[i].name, k)
                      && uses[j].name == uses[i].name && Deletes(ups, uses[j])
  }

  /** After merging into upstreams without alternatives that spares the serving ones, every alternative exists, unless
      a canary was attached by one of its uses and deleted by another. */
  lemma {:induction false} AlternativesExistIff(ups: Table, uses: seq<Use>, serving: set<string>)
    requires AlternativesSound(ups) && serving <= ups.Keys && Within(uses, serving) && Spares(ups, uses, serving)
    requires forall k :: k in ups ==> ups[k].alternativeBackends.Items() == []
    ensures
      var m := MergeUses(ups, uses);
      m.Merged? &&
      ((forall k, alt :: k in m.ups && alt in m.ups[k].alternativeBackends.Items() ==> alt in m.ups) <==>
       !AttachedThenDeleted(ups, uses))
  {
    SparingOutcome(ups, uses, serving);
    var after := MergeUses(ups, uses).ups;
    if AttachedThenDeleted(ups, uses) {
      var i, j, k :| 0 <= i < |uses| && 0 <= j < |uses| && ListsAt(ups, uses, i, uses[i].name, k)
                     && uses[j].name == uses[i].name && Deletes(ups, uses[j]);
      var alt := uses[i].name;
      assert ListedIn(ups, uses, alt, k);
      assert DeletedIn(ups, uses, alt);
      HitKeysServe(ups, uses, i, k, serving);
      assert alt in after[k].alternativeBackends.Items() && alt !in after;
    } else {
      forall k, alt | k in after && alt in after[k].alternativeBackends.Items() ensures alt in after {
        if alt !in serving {
          assert ListedIn(ups, uses, alt, k);
          var i :| 0 <= i < |uses| && ListsAt(ups, uses, i, alt, k);
        }
      }
    }
  }

  lemma HitKeysServe(ups: Table, uses: seq<Use>, i: nat, k: string, serving: set<string>)
    requires i < |uses| && HitsKey(ups, uses[i], k) && Within(uses, serving)
    ensures k in serving
  {
    var locations := uses[i].locations.value;
    var n :| 0 <= n < |locations| && locations[n].backend == k && SiteMatches(uses[i].site, locations[n]);
    assert locations[n] in locations;
  }
}
