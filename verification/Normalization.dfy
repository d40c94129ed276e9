/** internal/k8s/main.go (SetDefaultNGINXPathType), the copy made by syncIngress in
    internal/ingress/controller/store/store.go, and class.IsValid: which Ingress objects the
    controller takes and the form it keeps them in.
 */
module Normalization {
  import opened Types
  import opened Strings

  // ---------------------------------------------------------------- path types and paths

  function DefaultType(p: HTTPPath): HTTPPath {
    if p.pathType == Unset || p.pathType == ImplementationSpecific then p.(pathType := Prefix) else p
  }

  function RootedPath(p: HTTPPath): HTTPPath {
    if p.path == "" then p.(path := RootLocation) else p
  }

  function MapPaths(f: HTTPPath -> HTTPPath, rules: seq<Rule>): (r: seq<Rule>)
    ensures |r| == |rules|
  {
    seq(|rules|, i requires 0 <= i < |rules| => MapRule(f, rules[i]))
  }

  function MapRule(f: HTTPPath -> HTTPPath, rule: Rule): Rule {
    if rule.http.None? then rule else
    var paths := rule.http.value;
    rule.(http := Some(seq(|paths|, i requires 0 <= i < |paths| => f(paths[i]))))
  }

  function WithDefaultTypes(ing: Ingress): Ingress { ing.(rules := MapPaths(DefaultType, ing.rules)) }

  function WithRootedPaths(ing: Ingress): Ingress { ing.(rules := MapPaths(RootedPath, ing.rules)) }

  /** The form in which the store keeps an Ingress. */
  function Normalize(ing: Ingress): Ingress { WithDefaultTypes(WithRootedPaths(ing)) }

  /** SetDefaultNGINXPathType: nested loops that overwrite path types. */
  method SetDefaultNGINXPathType(ing: Ingress) returns (r: Ingress)
    ensures r == WithDefaultTypes(ing)
  {
    r := ing;
    for i := 0 to |r.rules|
      invariant r == ing.(rules := r.rules) && |r.rules| == |ing.rules|
      invariant forall k :: 0 <= k < i ==> r.rules[k] == MapRule(DefaultType, ing.rules[k])
      invariant forall k :: i <= k < |r.rules| ==> r.rules[k] == ing.rules[k]
    {
      if r.rules[i].http.None? {
        continue;
      }
      var paths := r.rules[i].http.value;
      for j := 0 to |paths|
        invariant |paths| == |ing.rules[i].http.value|
        invariant forall k :: 0 <= k < j ==> paths[k] == DefaultType(ing.rules[i].http.value[k])
        invariant forall k :: j <= k < |paths| ==> paths[k] == ing.rules[i].http.value[k]
      {
        if paths[j].pathType == Unset {
          paths := paths[j := paths[j].(pathType := Prefix)];
        }
        if paths[j].pathType == ImplementationSpecific {
          paths := paths[j := paths[j].(pathType := Prefix)];
        }
      }
      assert paths == MapRule(DefaultType, ing.rules[i]).http.value;
      r := r.(rules := r.rules[i := r.rules[i].(http := Some(paths))]);
      assert r.rules[i] == MapRule(DefaultType, ing.rules[i]);
    }
    assert r.rules == MapPaths(DefaultType, ing.rules);
  }

  /** Every path of a kept Ingress is non-empty and is Exact or Prefix. */
  ghost predicate Normal(ing: Ingress) {
    forall i, j :: 0 <= i < |ing.rules| && ing.rules[i].http.Some? && 0 <= j < |ing.rules[i].http.value| ==>
      var p := ing.rules[i].http.value[j];
      p.path != "" && (p.pathType == Exact || p.pathType == Prefix)
  }

  lemma NormalizeIsNormal(ing: Ingress)
    ensures Normal(Normalize(ing))
  {
    var out := Normalize(ing);
    forall i, j | 0 <= i < |out.rules| && out.rules[i].http.Some? && 0 <= j < |out.rules[i].http.value|
      ensures var p := out.rules[i].http.value[j]; p.path != "" && (p.pathType == Exact || p.pathType == Prefix)
    {
      assert out.rules[i].http.value[j] == DefaultType(RootedPath(ing.rules[i].http.value[j]));
    }
  }

  lemma MapIdentity(f: HTTPPath -> HTTPPath, rules: seq<Rule>)
    requires forall i, j :: 0 <= i < |rules| && rules[i].http.Some? && 0 <= j < |rules[i].http.value| ==>
               f(rules[i].http.value[j]) == rules[i].http.value[j]
    ensures MapPaths(f, rules) == rules
  {
    forall i | 0 <= i < |rules| ensures MapRule(f, rules[i]) == rules[i] {
      if rules[i].http.Some? {
        assert MapRule(f, rules[i]).http.value == rules[i].http.value;
      }
    }
  }

  /** An Ingress that is already kept is kept as it is: re-syncing it from the cache changes nothing. */
  lemma NormalizeNormal(ing: Ingress)
    requires Normal(ing)
    ensures Normalize(ing) == ing
  {
    MapIdentity(RootedPath, ing.rules);
    MapIdentity(DefaultType, ing.rules);
  }

  lemma NormalizeTwice(ing: Ingress)
    ensures Normalize(Normalize(ing)) == Normalize(ing)
  {
    NormalizeIsNormal(ing);
    NormalizeNormal(Normalize(ing));
  }

  /** Defaulting the types first, as every event handler does, makes no difference. */
  lemma NormalizeAfterDefaults(ing: Ingress)
    ensures Normalize(WithDefaultTypes(ing)) == Normalize(ing)
  {
    var a, b := Normalize(WithDefaultTypes(ing)).rules, Normalize(ing).rules;
    forall i | 0 <= i < |a| ensures a[i] == b[i] {
      if ing.rules[i].http.Some? {
        var paths := ing.rules[i].http.value;
        assert a[i].http.value ==
               seq(|paths|, j requires 0 <= j < |paths| => DefaultType(RootedPath(DefaultType(paths[j]))));
        assert b[i].http.value == seq(|paths|, j requires 0 <= j < |paths| => DefaultType(RootedPath(paths[j])));
        assert a[i].http.value == b[i].http.value;
      }
    }
  }

  // ---------------------------------------------------------------- admission

  const DefaultClass: string := "nginx"
  const ClassKey: string := "kubernetes.io/ingress.class"

  datatype ClassConfig = ClassConfig(ingressClass: string, resource: Option<string>, disableCatchAll: bool)

  function ClassOf(ing: Ingress): string {
    if ClassKey in ing.annotations then ing.annotations[ClassKey]
    else if ing.className.Some? then ing.className.value
    else ""
  }

  /** class.IsValid. */
  predicate IsValid(c: ClassConfig, ing: Ingress) {
    var class_ := ClassOf(ing);
    if class_ == "" && c.ingressClass == DefaultClass then true
    else if c.resource.Some? then class_ == c.resource.value
    else class_ == c.ingressClass
  }

  predicate HasCatchAll(ing: Ingress) { ing.backend.Some? }

  predicate Admissible(c: ClassConfig, ing: Ingress) {
    IsValid(c, ing) && !(HasCatchAll(ing) && c.disableCatchAll)
  }
}
