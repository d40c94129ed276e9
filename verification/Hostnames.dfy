/** internal/net/ssl/ssl.go (IsValidHostname) and internal/ingress/controller/certificate.go
    (toLowerCaseASCII, matchHostnames): two ways of matching a host name against the names of
    a certificate.

    One rewrites the host's first label to "*" and compares whole strings, the other compares
    label by label.  One folds case as Unicode does, the other for ASCII letters only.  On ASCII
    names, and up to the trailing dot and empty names, which only the second one treats specially,
    they accept the same pairs: the left-most-label wildcard rule of section 6.4.3 of RFC 6125,
    with the case folding of section 6.4.1.
 */
module Hostnames {
  import opened Strings

  // ---------------------------------------------------------------- case folding

  const RuneError: char := '\U{FFFD}'

  predicate IsUpper(c: char) { 'A' <= c <= 'Z' }

  function LowerChar(c: char): char {
    if IsUpper(c) then c + ('a' - 'A') else c
  }

  function Lower(s: string): (t: string)
    ensures |t| == |s|
  {
    seq(|s|, i requires 0 <= i < |s| => LowerChar(s[i]))
  }

  /** toLowerCaseASCII: a scan that may return the string unchanged, then a byte buffer rewritten in place. */
  method ToLowerCaseASCII(input: string) returns (result: string)
    ensures result == Lower(input)
  {
    var isAlreadyLowerCase := true;
    for i := 0 to |input|
      invariant isAlreadyLowerCase ==> forall k :: 0 <= k < i ==> !IsUpper(input[k])
    {
      if input[i] == RuneError || IsUpper(input[i]) {
        isAlreadyLowerCase := false;
        break;
      }
    }
    if isAlreadyLowerCase {
      return input;
    }
    var out := new char[|input|](i requires 0 <= i < |input| => input[i]);
    for i := 0 to out.Length
      invariant forall k :: 0 <= k < i ==> out[k] == LowerChar(input[k])
      invariant forall k :: i <= k < out.Length ==> out[k] == input[k]
    {
      if IsUpper(out[i]) {
        out[i] := out[i] + ('a' - 'A');
      }
    }
    return out[..];
  }

  predicate IsASCII(s: string) { forall i :: 0 <= i < |s| ==> s[i] < '\U{0080}' }

  /** What a character counts as when case does not matter. */
  type Fold = char -> char

  /** What is used of Unicode case folding, as a function to one character of each class: ASCII characters
      fold together exactly if they are the same up to the case of a letter. */
  ghost predicate FoldsASCII(fold: Fold) {
    forall c, d :: c < '\U{0080}' && d < '\U{0080}' ==> (fold(c) == fold(d) <==> LowerChar(c) == LowerChar(d))
  }

  /** Case folding on ASCII and on the two other characters that fold to an ASCII letter: the Kelvin sign and the
      long s. */
  function SimpleFold(c: char): char {
    if c == '\U{212A}' then 'k' else if c == '\U{017F}' then 's' else LowerChar(c)
  }

  /** strings.EqualFold. */
  predicate EqualFold(fold: Fold, s: string, t: string) {
    |s| == |t| && forall i :: 0 <= i < |s| ==> fold(s[i]) == fold(t[i])
  }

  function LowerAll(parts: seq<string>): (r: seq<string>)
    ensures |r| == |parts|
  {
    seq(|parts|, i requires 0 <= i < |parts| => Lower(parts[i]))
  }

  lemma {:induction false} LowerSplit(s: string)
    ensures Split(Lower(s), '.') == LowerAll(Split(s, '.'))
  {
    if s == [] {
    } else {
      LowerSplit(s[1..]);
      assert Lower(s)[1..] == Lower(s[1..]);
      LowerFirst(s[0], Split(s[1..], '.'));
    }
  }

  lemma LowerFirst(c: char, rest: seq<string>)
    requires rest != []
    ensures LowerAll([[]] + rest) == [[]] + LowerAll(rest)
    ensures LowerAll([[c] + rest[0]] + rest[1..]) == [[LowerChar(c)] + LowerAll(rest)[0]] + LowerAll(rest)[1..]
  {
    assert Lower([c] + rest[0]) == [LowerChar(c)] + Lower(rest[0]);
  }

  // ---------------------------------------------------------------- ssl.IsValidHostname

  function Wildcard(host: string): string {
    Join(["*"] + Split(host, '.')[1..], '.')
  }

  predicate ValidFor(fold: Fold, host: string, cn: string) {
    EqualFold(fold, host, cn) || EqualFold(fold, Wildcard(host), cn)
  }

  predicate ValidHostname(fold: Fold, host: string, commonNames: seq<string>) {
    exists cn :: cn in commonNames && ValidFor(fold, host, cn)
  }

  method IsValidHostname(fold: Fold, hostname: string, commonNames: seq<string>) returns (valid: bool)
    ensures valid == ValidHostname(fold, hostname, commonNames)
  {
    for i := 0 to |commonNames|
      invariant forall k :: 0 <= k < i ==> !ValidFor(fold, hostname, commonNames[k])
    {
      var cn := commonNames[i];
      if EqualFold(fold, hostname, cn) {
        assert ValidFor(fold, hostname, cn);
        return true;
      }
      var labels := Split(hostname, '.');
      labels := labels[0 := "*"];
      assert labels == ["*"] + Split(hostname, '.')[1..];
      var candidate := Join(labels, '.');
      if EqualFold(fold, candidate, cn) {
        assert ValidFor(fold, hostname, cn);
        return true;
      }
    }
    return false;
  }

  // ---------------------------------------------------------------- matchHostnames

  predicate LabelsMatch(pattern: seq<string>, host: seq<string>) {
    && |pattern| == |host|
    && forall i :: 0 <= i < |pattern| ==> (i == 0 && pattern[0] == "*") || pattern[i] == host[i]
  }

  predicate Matches(pattern: string, host: string) {
    var h, p := TrimSuffix(host, "."), TrimSuffix(pattern, ".");
    p != [] && h != [] && LabelsMatch(Split(p, '.'), Split(h, '.'))
  }

  method MatchHostnames(pattern: string, host: string) returns (r: bool)
    ensures r == Matches(pattern, host)
  {
    var h := TrimSuffix(host, ".");
    var p := TrimSuffix(pattern, ".");
    if |p| == 0 || |h| == 0 {
      return false;
    }
    var patternParts := Split(p, '.');
    var hostParts := Split(h, '.');
    if |patternParts| != |hostParts| {
      return false;
    }
    for i := 0 to |patternParts|
      invariant forall k :: 0 <= k < i ==> (k == 0 && patternParts[0] == "*") || patternParts[k] == hostParts[k]
    {
      if i == 0 && patternParts[i] == "*" {
        continue;
      }
      if patternParts[i] != hostParts[i] {
        return false;
      }
    }
    return true;
  }

  // ---------------------------------------------------------------- the two agree

  lemma {:induction false} SplitWildcard(host: string)
    ensures Split(Wildcard(host), '.') == ["*"] + Split(host, '.')[1..]
  {
    SplitJoin(["*"] + Split(host, '.')[1..], '.');
  }

  lemma EqualFoldIsLower(fold: Fold, s: string, t: string)
    requires FoldsASCII(fold) && IsASCII(s) && IsASCII(t)
    ensures EqualFold(fold, s, t) <==> Lower(s) == Lower(t)
  {
    if Lower(s) == Lower(t) {
      forall i | 0 <= i < |s| ensures fold(s[i]) == fold(t[i]) {
        assert Lower(s)[i] == Lower(t)[i];
      }
    }
    if EqualFold(fold, s, t) {
      forall i | 0 <= i < |s| ensures Lower(s)[i] == Lower(t)[i] {
      }
    }
  }

  lemma {:induction false} SplitChars(s: string, sep: char)
    ensures forall p, c :: p in Split(s, sep) && c in p ==> c in s
  {
    if s == [] {
    } else {
      SplitChars(s[1..], sep);
      var rest := Split(s[1..], sep);
      forall p, c | p in Split(s, sep) && c in p ensures c in s {
        if p == [s[0]] + rest[0] {
          assert c == s[0] || c in rest[0];
        }
      }
    }
  }

  lemma {:induction false} JoinASCII(parts: seq<string>)
    requires forall p :: p in parts ==> IsASCII(p)
    ensures IsASCII(Join(parts, '.'))
  {
    if |parts| > 1 {
      JoinASCII(parts[1..]);
      var head, rest := parts[0], Join(parts[1..], '.');
      assert IsASCII(head) && IsASCII(rest);
      forall i | 0 <= i < |head| + 1 + |rest| ensures (head + ['.'] + rest)[i] < '\U{0080}' {
        assert i > |head| ==> (head + ['.'] + rest)[i] == rest[i - |head| - 1];
      }
    }
  }

  lemma WildcardASCII(host: string)
    requires IsASCII(host)
    ensures IsASCII(Wildcard(host))
  {
    SplitChars(host, '.');
    var parts := ["*"] + Split(host, '.')[1..];
    forall p | p in parts ensures IsASCII(p) {
      if p != "*" {
        assert p in Split(host, '.');
        forall i | 0 <= i < |p| ensures p[i] < '\U{0080}' {
          assert p[i] in p;
        }
      }
    }
    JoinASCII(parts);
  }

  lemma {:induction false} SameLowerByLabels(s: string, t: string)
    ensures Lower(s) == Lower(t) <==> LowerAll(Split(s, '.')) == LowerAll(Split(t, '.'))
  {
    LowerSplit(s);
    LowerSplit(t);
    if Split(Lower(s), '.') == Split(Lower(t), '.') {
      SplitInjective(Lower(s), Lower(t), '.');
    }
  }

  lemma LabelsMatchMeans(ps: seq<string>, hs: seq<string>)
    requires |ps| > 0 && |hs| > 0
    ensures LabelsMatch(ps, hs) <==> ps == hs || ps == ["*"] + hs[1..]
  {
    if LabelsMatch(ps, hs) {
      if ps[0] == "*" {
        assert ps == ["*"] + hs[1..];
      } else {
        assert ps == hs;
      }
    }
  }

  lemma LowerWildcard(parts: seq<string>)
    requires |parts| > 0
    ensures LowerAll(["*"] + parts[1..]) == ["*"] + LowerAll(parts)[1..]
  {
    assert Lower("*") == "*";
  }

  lemma ValidForByLabels(fold: Fold, host: string, cn: string)
    requires FoldsASCII(fold) && IsASCII(host) && IsASCII(cn)
    ensures ValidFor(fold, host, cn) <==> LabelsMatch(Split(Lower(cn), '.'), Split(Lower(host), '.'))
  {
    WildcardASCII(host);
    EqualFoldIsLower(fold, host, cn);
    EqualFoldIsLower(fold, Wildcard(host), cn);
    LowerSplit(host);
    LowerSplit(cn);
    SameLowerByLabels(host, cn);
    SameLowerByLabels(Wildcard(host), cn);
    SplitWildcard(host);
    LowerWildcard(Split(host, '.'));
    LabelsMatchMeans(LowerAll(Split(cn, '.')), LowerAll(Split(host, '.')));
  }

  lemma LowerTrim(s: string)
    ensures TrimSuffix(Lower(s), ".") == Lower(TrimSuffix(s, "."))
  {
    if s != [] {
      assert Lower(s)[|s| - 1..] == [LowerChar(s[|s| - 1])];
      assert s[|s| - 1..] == [s[|s| - 1]];
    }
  }

  /** For all ASCII names, and whatever the fold does to other characters. */
  lemma MatchersAgree(fold: Fold, host: string, cn: string)
    requires FoldsASCII(fold) && IsASCII(host) && IsASCII(cn)
    ensures
      var h, p := TrimSuffix(host, "."), TrimSuffix(cn, ".");
      Matches(Lower(cn), Lower(host)) <==> h != [] && p != [] && ValidFor(fold, h, p)
  {
    LowerTrim(host);
    LowerTrim(cn);
    ValidForByLabels(fold, TrimSuffix(host, "."), TrimSuffix(cn, "."));
  }

  /** On non-empty ASCII names without a trailing dot the two functions are interchangeable. */
  lemma MatchersAgreeOnPlainNames(fold: Fold, host: string, cn: string)
    requires FoldsASCII(fold) && IsASCII(host) && IsASCII(cn)
    requires host != [] && cn != [] && !HasSuffix(host, ".") && !HasSuffix(cn, ".")
    ensures ValidHostname(fold, host, [cn]) <==> Matches(Lower(cn), Lower(host))
  {
    MatchersAgree(fold, host, cn);
    assert cn in [cn];
  }

  /** Outside ASCII they are not: the Kelvin sign folds to a k, but is not lowered to one. */
  lemma MatchersDisagree()
    ensures FoldsASCII(SimpleFold)
    ensures ValidHostname(SimpleFold, "\U{212A}", ["k"]) && !Matches(Lower("k"), Lower("\U{212A}"))
  {
    var host := "\U{212A}";
    assert "k" in ["k"] && EqualFold(SimpleFold, host, "k");
    assert Lower(host) == host && Lower("k") == "k";
    SplitAtom(host, '.');
    SplitAtom("k", '.');
    assert Split("k", '.')[0] == "k" && "k"[0] != '*';
  }
}
