/** internal/ingress/controller/template/template.go (enforceRegexModifier, buildLocation): the location
    directives that nginx.conf gets, and which of them nginx selects for a request.

    Configurations are compared without the path types of their locations (types_equals.go), although the
    directives depend on them.  Below: two location lists that compare equal send every request to the same
    position exactly if they agree on which of their directives are exact.
 */
module Selection {
  import opened Strings
  import opened Types
  import opened Equality
  import opened Routing

  // ---------------------------------------------------------------- the directives

  /** `~* "^path"`, `= path` and `path`. */
  datatype Directive = Pattern(path: string) | Equals(path: string) | StartsWith(path: string)

  predicate UsesPatterns(l: Location) { NeedsRewrite(l) || l.useRegex }

  /** One location with a rewrite target or a regular expression makes all of the server's patterns. */
  predicate Enforced(ls: seq<Location>) { exists i :: 0 <= i < |ls| && UsesPatterns(ls[i]) }

  method EnforceRegexModifier(ls: seq<Location>) returns (r: bool)
    ensures r == Enforced(ls)
  {
    for i := 0 to |ls|
      invariant forall k :: 0 <= k < i ==> !UsesPatterns(ls[k])
    {
      if NeedsRewrite(ls[i]) || ls[i].useRegex {
        assert UsesPatterns(ls[i]);
        return true;
      }
    }
    return false;
  }

  function DirectiveOf(l: Location, enforceRegex: bool): Directive {
    if enforceRegex then Pattern(l.path) else if l.pathType == Exact then Equals(l.path) else StartsWith(l.path)
  }

  function Directives(ls: seq<Location>): (r: seq<Directive>)
    ensures |r| == |ls|
  {
    seq(|ls|, i requires 0 <= i < |ls| => DirectiveOf(ls[i], Enforced(ls)))
  }

  /** buildLocation. */
  function BuildLocation(l: Location, enforceRegex: bool): string {
    match DirectiveOf(l, enforceRegex)
    case Pattern(path) => "~* \"^" + path + "\""
    case Equals(path) => "= " + path
    case StartsWith(path) => path
  }

  /** The text of a directive determines the directive. */
  lemma BuildLocationInjective(x: Location, e: bool, y: Location, f: bool)
    requires HasPrefix(x.path, "/") && HasPrefix(y.path, "/")
    ensures BuildLocation(x, e) == BuildLocation(y, f) <==> DirectiveOf(x, e) == DirectiveOf(y, f)
  {
    BuildLocationText(x, e);
    BuildLocationText(y, f);
  }

  /** The first character tells the three forms apart, and each form holds the path. */
  lemma BuildLocationText(l: Location, e: bool)
    requires HasPrefix(l.path, "/")
    ensures
      var s := BuildLocation(l, e);
      |s| > 0 &&
      match DirectiveOf(l, e)
      case Pattern(path) => s[0] == '~' && |s| == |path| + 6 && s[5..|s| - 1] == path
      case Equals(path) => s[0] == '=' && |s| == |path| + 2 && s[2..] == path
      case StartsWith(path) => s[0] == '/' && s == path
  {
    if e {
      assert "~* \"^" + l.path + "\"" == ("~* \"^" + l.path) + "\"";
      assert ("~* \"^" + l.path)[5..] == l.path;
    }
  }

  // ---------------------------------------------------------------- what nginx selects

  predicate PatternMatches(d: Directive, regex: iset<(string, string)>, request: string) {
    d.Pattern? && (d.path, request) in regex
  }

  predicate PrefixApplies(d: Directive, request: string) { d.StartsWith? && HasPrefix(request, d.path) }

  ghost predicate SomePatternMatches(ds: seq<Directive>, regex: iset<(string, string)>, request: string) {
    exists j :: 0 <= j < |ds| && PatternMatches(ds[j], regex, request)
  }

  /** nginx selects directive i: an exact one for the request, else the first pattern that matches, else a
      longest prefix.  The set regex says which patterns match which requests. */
  ghost predicate Selects(ds: seq<Directive>, regex: iset<(string, string)>, i: nat, request: string)
    requires i < |ds|
  {
    if Equals(request) in ds then ds[i] == Equals(request)
    else if SomePatternMatches(ds, regex, request) then
      && PatternMatches(ds[i], regex, request)
      && forall j :: 0 <= j < i ==> !PatternMatches(ds[j], regex, request)
    else
      && PrefixApplies(ds[i], request)
      && forall j :: 0 <= j < |ds| && PrefixApplies(ds[j], request) ==> |ds[j].path| <= |ds[i].path|
  }

  /** For every request, and whatever patterns match, nginx selects the same positions. */
  ghost predicate SelectAlike(a: seq<Location>, b: seq<Location>) {
    && |a| == |b|
    && forall regex: iset<(string, string)>, i, request ::
         0 <= i < |a| && IsRequest(request) ==>
           (Selects(Directives(a), regex, i, request) <==> Selects(Directives(b), regex, i, request))
  }

  /** Without patterns this is the selection of module Routing. */
  lemma SelectsIsNginxPicks(out: seq<Placed>, regex: iset<(string, string)>, k: nat, request: string)
    requires k < |out| && !Enforced(Results(out))
    ensures Selects(Directives(Results(out)), regex, k, request) <==> NginxPicks(out, out[k], request)
  {
    var ls := Results(out);
    var ds := Directives(ls);
    forall j | 0 <= j < |out|
      ensures ds[j] == Equals(request) <==> ExactMatches(out[j], request)
      ensures PrefixApplies(ds[j], request) <==> StringMatches(out[j], request)
      ensures !ds[j].Pattern? && ds[j].path == out[j].location.path
    {
      assert ls[j] == out[j].location;
    }
    if Equals(request) in ds {
      var j :| 0 <= j < |ds| && ds[j] == Equals(request);
      assert out[j] in out && ExactMatches(out[j], request);
    }
    if y :| y in out && ExactMatches(y, request) {
      var j :| 0 <= j < |out| && out[j] == y;
      assert ds[j] == Equals(request);
    }
    assert !SomePatternMatches(ds, regex, request);
    assert out[k] in out;
    if NginxPicks(out, out[k], request) && Equals(request) !in ds {
      forall j | 0 <= j < |ds| && PrefixApplies(ds[j], request) ensures |ds[j].path| <= |ds[k].path| {
        assert out[j] in out;
      }
    }
    if Selects(ds, regex, k, request) && Equals(request) !in ds {
      forall y | y in out && StringMatches(y, request) ensures |y.location.path| <= |out[k].location.path| {
        var j :| 0 <= j < |out| && out[j] == y;
        assert PrefixApplies(ds[j], request);
      }
    }
  }

  /** The rewrite target is the path itself, which will get a trailing slash. */
  predicate OwnTarget(l: Location) {
    IsRewritten(l) && !HasSuffix(l.path, "/") && l.path != "" && l.rewriteTarget == l.path
  }

  /** What becomes of one location uses patterns exactly if the location does or has such a target. */
  lemma OutputUsesPatternsIff(locations: seq<Location>, i: nat)
    requires i < |locations|
    ensures UsesPatterns(Rewritten(locations[i])) <==> UsesPatterns(locations[i]) || OwnTarget(locations[i])
    ensures UsesPatterns(ExactCopy(locations[i])) <==> UsesPatterns(locations[i])
  {
    var l := locations[i];
    if IsRewritten(l) && !HasSuffix(l.path, "/") {
      assert |NormalizePrefixPath(l.path)| == |l.path| + 1;
    }
  }

  /** A server's locations all become patterns exactly if one of them needs a rewrite or uses regular expressions, or
      if one is rewritten to its own path and is given a trailing slash. */
  lemma EnforcedIff(locations: seq<Location>)
    ensures Enforced(Results(Updated(locations))) <==>
            Enforced(locations) || exists i :: 0 <= i < |locations| && OwnTarget(locations[i])
  {
    var out := Updated(locations);
    Output(locations);
    if Enforced(Results(out)) {
      var k :| 0 <= k < |out| && UsesPatterns(Results(out)[k]);
      assert out[k] in out;
      OutputUsesPatternsIff(locations, out[k].origin);
    }
    forall i | 0 <= i < |locations| && (UsesPatterns(locations[i]) || OwnTarget(locations[i]))
      ensures Enforced(Results(out))
    {
      OutputUsesPatternsIff(locations, i);
      var x := Placed(i, Rewritten(locations[i]));
      assert IsOutput(locations, x) && x in out;
      var k :| 0 <= k < |out| && out[k] == x;
      assert UsesPatterns(Results(out)[k]);
    }
  }

  /** One location in a list that uses no patterns is enough. */
  lemma OwnTargetEnforces(l: Location)
    requires OwnTarget(l)
    ensures !Enforced([l]) && Enforced(Results(Updated([l])))
  {
    EnforcedIff([l]);
    assert OwnTarget([l][0]);
  }

  /** The locations of a plain list stay free of patterns. */
  lemma PlainIsNotEnforced(locations: seq<Location>)
    requires Plain(locations)
    ensures !Enforced(Results(Updated(locations)))
  {
    EnforcedIff(locations);
    forall i | 0 <= i < |locations| ensures !OwnTarget(locations[i]) {
      OutputUsesPatternsIff(locations, i);
      assert PlainLocation(locations[i]);
    }
  }

  // ---------------------------------------------------------------- equal lists

  /** The two lists agree, position by position, on which locations are exact. */
  predicate ExactAlike(a: seq<Location>, b: seq<Location>)
    requires |a| == |b|
  {
    Enforced(a) || forall i :: 0 <= i < |a| ==> (a[i].pathType == Exact <==> b[i].pathType == Exact)
  }

  lemma EqualListsEnforceAlike(a: seq<Location>, b: seq<Location>)
    requires Pointwise(a, b, EqualLocation)
    ensures Enforced(a) <==> Enforced(b)
  {
    forall i | 0 <= i < |a| ensures UsesPatterns(a[i]) <==> UsesPatterns(b[i]) {
      assert EqualLocation(a[i], b[i]);
    }
    if Enforced(a) {
      var i :| 0 <= i < |a| && UsesPatterns(a[i]);
      assert UsesPatterns(b[i]);
    }
    if Enforced(b) {
      var i :| 0 <= i < |b| && UsesPatterns(b[i]);
      assert UsesPatterns(a[i]);
    }
  }

  lemma SameDirectivesIff(a: seq<Location>, b: seq<Location>)
    requires Pointwise(a, b, EqualLocation)
    ensures Directives(a) == Directives(b) <==> ExactAlike(a, b)
  {
    EqualListsEnforceAlike(a, b);
    forall i | 0 <= i < |a|
      ensures Directives(a)[i] == Directives(b)[i] <==>
              Enforced(a) || (a[i].pathType == Exact <==> b[i].pathType == Exact)
    {
      assert EqualLocation(a[i], b[i]);
    }
  }

  predicate Unused(c: char, ls: seq<Location>) {
    forall i :: 0 <= i < |ls| ==> c !in ls[i].path
  }

  /** The paths are rooted, and some character occurs in none of them. */
  ghost predicate HasSpareCharacter(ls: seq<Location>) {
    (forall i :: 0 <= i < |ls| ==> HasPrefix(ls[i].path, "/")) && exists c :: Unused(c, ls)
  }

  /** Two lists that compare equal send every request to the same position exactly if they agree on which
      locations are exact. */
  lemma SelectAlikeIff(a: seq<Location>, b: seq<Location>)
    requires Pointwise(a, b, EqualLocation) && HasSpareCharacter(a)
    ensures SelectAlike(a, b) <==> ExactAlike(a, b)
  {
    SameDirectivesIff(a, b);
    if !ExactAlike(a, b) {
      var i :| 0 <= i < |a| && !(a[i].pathType == Exact <==> b[i].pathType == Exact);
      EqualListsEnforceAlike(a, b);
      assert EqualLocation(a[i], b[i]);
      var c :| Unused(c, a);
      forall k | 0 <= k < |b| ensures c !in b[k].path {
        assert EqualLocation(a[k], b[k]);
      }
      if a[i].pathType == Exact {
        ExactIsSeen(a, b, i, c);
      } else {
        ExactIsSeen(b, a, i, c);
      }
    }
  }

  /** A path that is exact in one list and a prefix in the other is told apart by a request for it, or for an
      extension that no list mentions. */
  lemma ExactIsSeen(a: seq<Location>, b: seq<Location>, i: nat, c: char)
    requires i < |a| == |b| && !Enforced(a) && !Enforced(b)
    requires a[i].path == b[i].path && a[i].pathType == Exact && b[i].pathType != Exact && HasPrefix(a[i].path, "/")
    requires Unused(c, a) && Unused(c, b)
    ensures exists regex: iset<(string, string)>, request ::
              IsRequest(request) &&
                !(Selects(Directives(a), regex, i, request) <==> Selects(Directives(b), regex, i, request))
  {
    var p, none := a[i].path, iset{};
    var da, db := Directives(a), Directives(b);
    assert da[i] == Equals(p) && db[i] == StartsWith(p);
    if Equals(p) in db {
      assert Selects(da, none, i, p) && !Selects(db, none, i, p);
    } else {
      var request := p + [c];
      assert request[|p|] == c;
      SpareRequest(a, c, request);
      SpareRequest(b, c, request);
      forall j | 0 <= j < |db| && PrefixApplies(db[j], request) ensures |db[j].path| <= |p| {
        assert b[j].path <= request && c !in b[j].path;
        assert b[j].path != request;
      }
      assert Selects(db, none, i, request) && !Selects(da, none, i, request);
    }
  }

  lemma SpareRequest(ls: seq<Location>, c: char, request: string)
    requires Unused(c, ls) && c in request
    ensures Equals(request) !in Directives(ls)
    ensures !SomePatternMatches(Directives(ls), iset{}, request)
  {
    forall j | 0 <= j < |ls| ensures Directives(ls)[j] != Equals(request) {
      assert c !in ls[j].path;
    }
  }
}
