/** internal/ingress/controller/template/template.go (buildLocation, buildAuthLocation): the names
    under which locations appear in nginx.conf.

    Paths are Go strings, that is, bytes; here a byte is a character below 256.  Every location of a
    server needs its own names.  The internal auth location encodes the path in base64url (section 5
    of RFC 4648) with the padding removed, then the path type; both can be read back.
 */
module AuthLocation {
  import opened Strings
  import opened Types
  import opened Routing
  import opened Selection

  // ---------------------------------------------------------------- base64url

  predicate IsBytes(s: string) { forall i :: 0 <= i < |s| ==> s[i] as int < 256 }

  function Sextet(d: nat): (c: char)
    requires d < 64
    ensures c != '='
  {
    if d < 26 then 'A' + (d as char)
    else if d < 52 then 'a' + ((d - 26) as char)
    else if d < 62 then '0' + ((d - 52) as char)
    else if d == 62 then '-' else '_'
  }

  lemma SextetInjective(d: nat, e: nat)
    requires d < 64 && e < 64 && Sextet(d) == Sextet(e)
    ensures d == e
  {
  }

  /** The two to four characters for a group of one to three bytes. */
  function Group(s: string): (r: string)
    requires IsBytes(s) && 1 <= |s| <= 3
    ensures |r| == |s| + 1 && '=' !in r
  {
    var a, b, c := s[0] as int, if |s| < 2 then 0 else s[1] as int, if |s| < 3 then 0 else s[2] as int;
    [Sextet(a / 4), Sextet(a % 4 * 16 + b / 16), Sextet(b % 16 * 4 + c / 64), Sextet(c % 64)][..|s| + 1]
  }

  function Unpadded(s: string): (r: string)
    requires IsBytes(s)
    ensures '=' !in r
    ensures |s| == 0 ==> |r| == 0
    ensures 1 <= |s| <= 3 ==> |r| == |s| + 1
    ensures |s| > 3 ==> |r| > 4
  {
    if s == [] then [] else if |s| <= 3 then Group(s) else Group(s[..3]) + Unpadded(s[3..])
  }

  function Padding(n: nat): string {
    if n % 3 == 0 then "" else if n % 3 == 1 then "==" else "="
  }

  /** base64.URLEncoding: three bytes to four characters, the last group filled up with "=". */
  function Encode(s: string): string
    requires IsBytes(s)
  {
    Unpadded(s) + Padding(|s|)
  }

  /** strings.Replace(s, "=", "", -1). */
  function RemovePadding(s: string): (r: string)
    ensures '=' !in r
  {
    if s == [] then [] else if s[0] == '=' then RemovePadding(s[1..]) else [s[0]] + RemovePadding(s[1..])
  }

  lemma {:induction false} RemovePaddingAppend(s: string, t: string)
    ensures RemovePadding(s + t) == RemovePadding(s) + RemovePadding(t)
  {
    if s == [] {
      assert s + t == t;
    } else {
      RemovePaddingAppend(s[1..], t);
      assert (s + t)[1..] == s[1..] + t && (s + t)[0] == s[0];
      var x, y := RemovePadding(s[1..]), RemovePadding(t);
      assert [s[0]] + (x + y) == [s[0]] + x + y;
    }
  }

  lemma {:induction false} RemovePaddingKeeps(s: string)
    requires '=' !in s
    ensures RemovePadding(s) == s
  {
    if s == [] {
    } else {
      RemovePaddingKeeps(s[1..]);
      assert s == [s[0]] + s[1..];
    }
  }

  lemma {:induction false} EncodeWithoutPadding(s: string)
    requires IsBytes(s)
    ensures RemovePadding(Encode(s)) == Unpadded(s)
  {
    RemovePaddingAppend(Unpadded(s), Padding(|s|));
    RemovePaddingKeeps(Unpadded(s));
    assert "=="[1..] == "=" && "="[1..] == "";
  }

  /** Two bytes, from the first and the upper part of the second. */
  lemma UpperBits(a: nat, b: nat, x: nat, y: nat)
    requires b < 256 && y < 256 && a / 4 == x / 4 && a % 4 * 16 + b / 16 == x % 4 * 16 + y / 16
    ensures a == x && b / 16 == y / 16
  {
  }

  lemma LowerBits(b: nat, c: nat, y: nat, z: nat)
    requires c < 256 && z < 256 && b / 16 == y / 16 && b % 16 * 4 + c / 64 == y % 16 * 4 + z / 64
    ensures b == y && c / 64 == z / 64
  {
  }

  /** The characters of a group determine its bytes. */
  lemma GroupInjective(s: string, t: string)
    requires IsBytes(s) && IsBytes(t) && 1 <= |s| <= 3 && 1 <= |t| <= 3
    requires Group(s) == Group(t)
    ensures s == t
  {
    var g, h := Group(s), Group(t);
    assert g[0] == h[0] && g[1] == h[1];
    var a, b, c := s[0] as int, if |s| < 2 then 0 else s[1] as int, if |s| < 3 then 0 else s[2] as int;
    var x, y, z := t[0] as int, if |t| < 2 then 0 else t[1] as int, if |t| < 3 then 0 else t[2] as int;
    SextetInjective(a / 4, x / 4);
    SextetInjective(a % 4 * 16 + b / 16, x % 4 * 16 + y / 16);
    UpperBits(a, b, x, y);
    if |s| >= 2 {
      assert g[2] == h[2];
      SextetInjective(b % 16 * 4 + c / 64, y % 16 * 4 + z / 64);
      LowerBits(b, c, y, z);
    }
    if |s| == 3 {
      assert g[3] == h[3];
      SextetInjective(c % 64, z % 64);
    }
  }

  lemma {:induction false} UnpaddedInjective(s: string, t: string)
    requires IsBytes(s) && IsBytes(t) && Unpadded(s) == Unpadded(t)
    ensures s == t
  {
    if |s| > 3 {
      var u, v := Unpadded(s), Unpadded(t);
      assert u[..4] == Group(s[..3]) && v[..4] == Group(t[..3]);
      assert u[4..] == Unpadded(s[3..]) && v[4..] == Unpadded(t[3..]);
      GroupInjective(s[..3], t[..3]);
      UnpaddedInjective(s[3..], t[3..]);
      assert s == s[..3] + s[3..] && t == t[..3] + t[3..];
    } else if s != [] {
      GroupInjective(s, t);
    }
  }

  // ---------------------------------------------------------------- the location names

  function PathTypeName(t: PathType): (s: string)
    ensures '-' !in s
  {
    match t
    case Unset => "default"
    case Exact => "Exact"
    case Prefix => "Prefix"
    case ImplementationSpecific => "ImplementationSpecific"
  }

  /** The auth settings of a location. */
  datatype Auth = Auth(url: string, enableGlobalAuth: bool)

  predicate ShouldApplyGlobalAuth(auth: Auth, globalURL: string) {
    auth.url == "" && globalURL != "" && auth.enableGlobalAuth
  }

  function BuildAuthLocation(path: string, pathType: PathType, auth: Auth, globalURL: string): string
    requires IsBytes(path)
  {
    if auth.url == "" && !ShouldApplyGlobalAuth(auth, globalURL) then "" else
    "/_external-auth-" + RemovePadding(Encode(path)) + "-" + PathTypeName(pathType)
  }

  /** Two locations with auth share an internal auth location only if they have the same path and type. */
  lemma BuildAuthLocationInjective(p: string, t: PathType, a: Auth, q: string, u: PathType, b: Auth, globalURL: string)
    requires IsBytes(p) && IsBytes(q)
    requires BuildAuthLocation(p, t, a, globalURL) == BuildAuthLocation(q, u, b, globalURL) != ""
    ensures p == q && t == u
  {
    EncodeWithoutPadding(p);
    EncodeWithoutPadding(q);
    var head := "/_external-auth-";
    var x, y := head + Unpadded(p), head + Unpadded(q);
    LastSeparator(x, PathTypeName(t), y, PathTypeName(u), '-');
    assert x[|head|..] == Unpadded(p) && y[|head|..] == Unpadded(q);
    UnpaddedInjective(p, q);
    PathTypeNameInjective(t, u);
  }

  lemma PathTypeNameInjective(t: PathType, u: PathType)
    requires PathTypeName(t) == PathTypeName(u)
    ensures t == u
  {
    assert PathTypeName(t)[0] == PathTypeName(u)[0];
  }

  /** The rewritten locations of a server have pairwise different location directives and pairwise
      different internal auth locations. */
  lemma LocationNamesAreDistinct(locations: seq<Location>, k: nat, l: nat, a: Auth, b: Auth, globalURL: string)
    requires Plain(locations) && SlashesCovered(locations)
    requires forall i :: 0 <= i < |locations| ==> IsBytes(locations[i].path)
    requires k < l < |Updated(locations)|
    ensures
      var out := Results(Updated(locations));
      var x, y := out[k], out[l];
      && BuildLocation(x, Enforced(out)) != BuildLocation(y, Enforced(out))
      && IsBytes(x.path) && IsBytes(y.path)
      && (BuildAuthLocation(x.path, x.pathType, a, globalURL) == BuildAuthLocation(y.path, y.pathType, b, globalURL)
          ==> BuildAuthLocation(x.path, x.pathType, a, globalURL) == "")
  {
    var out := Updated(locations);
    var x, y := out[k].location, out[l].location;
    NoDuplicatesWhenCovered(locations);
    assert Results(out)[k] == x && Results(out)[l] == y;
    Output(locations);
    assert out[k] in out && out[l] in out;
    OutputPath(locations, out[k]);
    OutputPath(locations, out[l]);
    PlainIsNotEnforced(locations);
    BuildLocationInjective(x, false, y, false);
    if BuildAuthLocation(x.path, x.pathType, a, globalURL) ==
       BuildAuthLocation(y.path, y.pathType, b, globalURL) != "" {
      BuildAuthLocationInjective(x.path, x.pathType, a, y.path, y.pathType, b, globalURL);
    }
  }

  lemma OutputPath(locations: seq<Location>, x: Placed)
    requires Plain(locations) && IsOutput(locations, x)
    requires IsBytes(locations[x.origin].path)
    ensures IsBytes(x.location.path) && HasPrefix(x.location.path, "/")
    ensures x.location.pathType == Exact || x.location.pathType == Prefix
  {
    RewrittenLocation(locations[x.origin]);
    PathFromStem(locations[x.origin]);
  }
}
