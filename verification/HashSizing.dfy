/** internal/ingress/controller/nginx.go (nextPowerOf2, nginxHashBucketSize and the size computation
    in generateTemplate): sizing nginx's hash tables of server names.

    nextPowerOf2 smears the highest bit of v-1 over the bits below it and adds one.  The shifts
    add up to 31, so beyond 2^32 the smear can leave gaps; exactly when is part of the result.
 */
module HashSizing {
  import opened Strings
  import opened Types
  import opened Hostnames
  import opened Certificates

  // ---------------------------------------------------------------- two's complement bits

  function Pow2(n: nat): (p: nat)
    ensures p >= 1
  {
    if n == 0 then 1 else 2 * Pow2(n - 1)
  }

  /** x >> k, the arithmetic shift. */
  function Shr(x: int, k: nat): int
    decreases k
  {
    if k == 0 then x else Shr(x / 2, k - 1)
  }

  /** x | y. */
  function Or(x: int, y: int): int
    decreases if x < 0 then -x else x
  {
    if x == 0 then y
    else if y == 0 then x
    else if x == -1 || y == -1 then -1
    else (if x % 2 == 1 || y % 2 == 1 then 1 else 0) + 2 * Or(x / 2, y / 2)
  }

  predicate Bit(x: nat, i: nat)
    decreases i
  {
    if i == 0 then x % 2 == 1 else Bit(x / 2, i - 1)
  }

  // ---------------------------------------------------------------- nextPowerOf2

  function Smear(x: int, k: nat): int { Or(x, Shr(x, k)) }

  function NextPowerOf2(v: int): int {
    Smear(Smear(Smear(Smear(Smear(v - 1, 1), 2), 4), 8), 16) + 1
  }

  method ComputeNextPowerOf2(input: int) returns (v: int)
    ensures v == NextPowerOf2(input)
  {
    v := input;
    v := v - 1;
    v := Or(v, Shr(v, 1));
    v := Or(v, Shr(v, 2));
    v := Or(v, Shr(v, 4));
    v := Or(v, Shr(v, 8));
    v := Or(v, Shr(v, 16));
    v := v + 1;
  }

  /** r is the smallest power of two that is at least v. */
  ghost predicate LeastPowerOf2(r: int, v: int) {
    exists k: nat :: LeastAt(r, v, k)
  }

  ghost predicate LeastAt(r: int, v: int, k: nat) {
    r == Pow2(k) && v <= r && (k == 0 || Pow2(k - 1) < v)
  }

  /** Some bit of x among the w bits from i upwards is set. */
  ghost predicate Window(x: nat, i: nat, w: nat) {
    exists j: nat :: i <= j < i + w && Bit(x, j)
  }

  /** No run of 32 zero bits below a set bit. */
  ghost predicate Dense(x: nat) {
    forall i: nat, j: nat :: i <= j && Bit(x, j) ==> Window(x, i, 32)
  }

  // ---------------------------------------------------------------- bit lemmas

  lemma {:induction false} BitOfZero(i: nat)
    ensures !Bit(0, i)
    decreases i
  {
    if i == 0 {
    } else {
      BitOfZero(i - 1);
    }
  }

  lemma {:induction false} BitOr(x: nat, y: nat, i: nat)
    ensures Or(x, y) >= 0 && (Bit(Or(x, y), i) <==> Bit(x, i) || Bit(y, i))
    decreases i, x
  {
    OrNonNegative(x, y);
    if x == 0 {
      BitOfZero(i);
    } else if y == 0 {
      BitOfZero(i);
    } else if i > 0 {
      BitOr(x / 2, y / 2, i - 1);
      assert Or(x, y) / 2 == Or(x / 2, y / 2);
    }
  }

  lemma {:induction false} OrNonNegative(x: nat, y: nat)
    ensures Or(x, y) >= 0
    decreases x
  {
    if x != 0 && y != 0 {
      OrNonNegative(x / 2, y / 2);
    }
  }

  lemma {:induction false} BitShr(x: nat, k: nat, i: nat)
    ensures Shr(x, k) >= 0 && (Bit(Shr(x, k), i) <==> Bit(x, i + k))
    decreases k
  {
    if k == 0 {
    } else {
      BitShr(x / 2, k - 1, i);
    }
  }

  lemma {:induction false} BitSmear(x: nat, k: nat, i: nat)
    ensures Smear(x, k) >= 0 && (Bit(Smear(x, k), i) <==> Bit(x, i) || Bit(x, i + k))
  {
    BitShr(x, k, i);
    BitOr(x, Shr(x, k), i);
  }

  /** Smearing by w doubles a window of width w. */
  lemma {:induction false} SmearDoubles(x: nat, y: nat, w: nat)
    requires forall i: nat :: Bit(y, i) <==> Window(x, i, w)
    ensures Smear(y, w) >= 0
    ensures forall i: nat :: Bit(Smear(y, w), i) <==> Window(x, i, 2 * w)
  {
    BitSmear(y, w, 0);
    forall i: nat ensures Bit(Smear(y, w), i) <==> Window(x, i, 2 * w) {
      BitSmear(y, w, i);
      assert Window(x, i, 2 * w) <==> Window(x, i, w) || Window(x, i + w, w);
    }
  }

  /** The predecessor of the result for a positive number, by its bits. */
  lemma SmearedBits(v: nat) returns (s: nat)
    requires v >= 1
    ensures s + 1 == NextPowerOf2(v)
    ensures forall i: nat :: Bit(s, i) <==> Window(v - 1, i, 32)
  {
    var x := v - 1;
    forall i: nat ensures Bit(x, i) <==> Window(x, i, 1) {
    }
    SmearDoubles(x, x, 1);
    var a := Smear(x, 1);
    SmearDoubles(x, a, 2);
    var b := Smear(a, 2);
    SmearDoubles(x, b, 4);
    var c := Smear(b, 4);
    SmearDoubles(x, c, 8);
    var d := Smear(c, 8);
    SmearDoubles(x, d, 16);
    s := Smear(d, 16);
  }

  ghost predicate OnesBelow(s: nat, n: nat) {
    forall i: nat :: Bit(s, i) <==> i < n
  }

  lemma {:induction false} AllOnes(s: nat, n: nat)
    ensures OnesBelow(s, n) <==> s == Pow2(n) - 1
    decreases n
  {
    if n == 0 {
      if s == 0 {
        forall i: nat ensures !Bit(s, i) {
          BitOfZero(i);
        }
      } else {
        var k := TopBit(s);
      }
    } else {
      AllOnes(s / 2, n - 1);
      assert OnesBelow(s, n) <==> s % 2 == 1 && OnesBelow(s / 2, n - 1) by {
        if OnesBelow(s, n) {
          assert Bit(s, 0);
          forall i: nat ensures Bit(s / 2, i) <==> i < n - 1 {
            assert Bit(s, i + 1) <==> i + 1 < n;
          }
        }
        if s % 2 == 1 && OnesBelow(s / 2, n - 1) {
          forall i: nat ensures Bit(s, i) <==> i < n {
            if i > 0 {
              assert Bit(s / 2, i - 1) <==> i - 1 < n - 1;
            }
          }
        }
      }
    }
  }

  /** The highest set bit of a positive number. */
  lemma {:induction false} TopBit(x: nat) returns (k: nat)
    requires x > 0
    ensures Pow2(k) <= x < Pow2(k + 1)
    ensures Bit(x, k) && forall i: nat :: i > k ==> !Bit(x, i)
  {
    if x == 1 {
      k := 0;
      forall i: nat | i > 0 ensures !Bit(x, i) {
        BitOfZero(i - 1);
      }
    } else {
      var h := TopBit(x / 2);
      k := h + 1;
      forall i: nat | i > k ensures !Bit(x, i) {
        assert !Bit(x / 2, i - 1);
      }
    }
  }

  lemma {:induction false} Pow2Monotone(m: nat, n: nat)
    requires m <= n
    ensures Pow2(m) <= Pow2(n)
    decreases n
  {
    if m < n {
      Pow2Monotone(m, n - 1);
    }
  }

  lemma LeastPowerAbove(x: nat, k: nat, r: int)
    requires Pow2(k) <= x < Pow2(k + 1)
    ensures LeastPowerOf2(r, x + 1) <==> r == Pow2(k + 1)
  {
    var v := x + 1;
    if m: nat :| LeastAt(r, v, m) {
      if m <= k {
        Pow2Monotone(m, k);
      } else if m > k + 1 {
        Pow2Monotone(k + 1, m - 1);
      }
    }
    assert r == Pow2(k + 1) ==> LeastAt(r, x + 1, k + 1);
  }

  // ---------------------------------------------------------------- the results

  /** nextPowerOf2 is right exactly for the positive numbers v with no 32-bit gap in v-1. */
  lemma NextPowerOf2RightIff(v: nat)
    ensures LeastPowerOf2(NextPowerOf2(v), v) <==> v >= 1 && Dense(v - 1)
  {
    if v == 0 {
      WrongForZero(v);
    } else {
      PositiveRightIff(v);
    }
  }

  lemma PositiveRightIff(v: nat)
    requires v >= 1
    ensures LeastPowerOf2(NextPowerOf2(v), v) <==> Dense(v - 1)
  {
    var s := SmearedBits(v);
    RightIffFor(v, NextPowerOf2(v), s);
  }

  lemma RightIffFor(v: nat, r: int, s: nat)
    requires v >= 1 && r == s + 1
    requires forall i: nat :: Bit(s, i) <==> Window(v - 1, i, 32)
    ensures LeastPowerOf2(r, v) <==> Dense(v - 1)
  {
    SmearedIsRightIff(v - 1, s);
  }

  lemma WrongForZero(v: nat)
    requires v == 0
    ensures !LeastPowerOf2(NextPowerOf2(v), v)
  {
    NextPowerOf2OfZero();
    assert forall k: nat :: !LeastAt(0, 0, k);
  }

  lemma SmearedIsRightIff(x: nat, s: nat)
    requires forall i: nat :: Bit(s, i) <==> Window(x, i, 32)
    ensures LeastPowerOf2(s + 1, x + 1) <==> Dense(x)
  {
    if x == 0 {
      SmearedZero(s);
    } else {
      var k := TopBit(x);
      LeastPowerAbove(x, k, s + 1);
      AllOnes(s, k + 1);
      DenseFills(x, s, k);
    }
  }

  lemma SmearedZero(s: nat)
    requires forall i: nat :: Bit(s, i) <==> Window(0, i, 32)
    ensures LeastPowerOf2(s + 1, 1) && Dense(0)
  {
    forall i: nat ensures !Bit(0, i) {
      BitOfZero(i);
    }
    AllOnes(s, 0);
    assert LeastAt(s + 1, 1, 0);
  }

  lemma DenseFills(x: nat, s: nat, k: nat)
    requires Bit(x, k) && forall i: nat :: i > k ==> !Bit(x, i)
    requires forall i: nat :: Bit(s, i) <==> Window(x, i, 32)
    ensures Dense(x) <==> OnesBelow(s, k + 1)
  {
    if Dense(x) {
      forall i: nat ensures Bit(s, i) <==> i < k + 1 {
        assert i <= k ==> Window(x, i, 32);
      }
    }
    if OnesBelow(s, k + 1) {
      forall i: nat, j: nat | i <= j && Bit(x, j) ensures Window(x, i, 32) {
        assert Bit(s, i);
      }
    }
  }

  lemma NextPowerOf2OfZero()
    ensures NextPowerOf2(0) == 0
  {
    assert Shr(-1, 1) == -1;
    ShrMinusOne(2);
    ShrMinusOne(4);
    ShrMinusOne(8);
    ShrMinusOne(16);
  }

  lemma {:induction false} ShrMinusOne(k: nat)
    ensures Shr(-1, k) == -1
  {
    if k == 0 {
    } else {
      ShrMinusOne(k - 1);
    }
  }

  /** All sizes that occur are well within range. */
  lemma NextPowerOf2UpTo32Bits(v: nat)
    requires 1 <= v <= Pow2(32)
    ensures LeastPowerOf2(NextPowerOf2(v), v)
  {
    var x := v - 1;
    forall i: nat, j: nat | i <= j && Bit(x, j) ensures Window(x, i, 32) {
      if x == 0 {
        BitOfZero(j);
      } else {
        var k := TopBit(x);
        if k >= 32 {
          Pow2Monotone(32, k);
        }
      }
    }
    NextPowerOf2RightIff(v);
  }

  /** Past 32 bits it fails on every 2^n + 1: the predecessor is a lone bit, smeared over 32 places only. */
  lemma {:induction false} NextPowerOf2FailsPast32Bits(n: nat)
    requires n >= 32
    ensures !LeastPowerOf2(NextPowerOf2(Pow2(n) + 1), Pow2(n) + 1)
  {
    LoneBit(n);
    LoneBitIsNotDense(Pow2(n), n);
    GapIsWrong(Pow2(n));
  }

  lemma GapIsWrong(x: nat)
    requires !Dense(x)
    ensures !LeastPowerOf2(NextPowerOf2(x + 1), x + 1)
  {
    NextPowerOf2RightIff(x + 1);
  }

  lemma {:induction false} LoneBitIsNotDense(x: nat, n: nat)
    requires n >= 32 && forall i: nat :: Bit(x, i) <==> i == n
    ensures !Dense(x)
  {
    assert Bit(x, n) && !Window(x, 0, 32);
  }

  lemma {:induction false} LoneBit(n: nat)
    ensures forall i: nat :: Bit(Pow2(n), i) <==> i == n
  {
    if n == 0 {
      forall i: nat | i > 0 ensures !Bit(1, i) {
        BitOfZero(i - 1);
      }
    } else {
      LoneBit(n - 1);
      forall i: nat ensures Bit(Pow2(n), i) <==> i == n {
        assert Pow2(n) / 2 == Pow2(n - 1);
        if i > 0 {
          assert Bit(Pow2(n - 1), i - 1) <==> i - 1 == n - 1;
        }
      }
    }
  }

  // ---------------------------------------------------------------- the hash tables

  /** (n + 7) &^ 7. */
  function Align8(n: nat): nat { (n + 7) / 8 * 8 }

  function BucketBytes(length: nat): nat { 8 + 8 + Align8(length + 2) }

  function NginxHashBucketSize(longest: nat): int { NextPowerOf2(BucketBytes(longest)) }

  function Max(a: int, b: int): int { if a < b then b else a }

  /** The length reserved for a server's host name: room for "www." if it is redirected. */
  function HostnameLength(s: Server): nat { |s.hostname| + if s.redirectFromToWWW then 4 else 0 }

  function LongestAlias(aliases: seq<string>): nat {
    if aliases == [] then 0 else Max(LongestAlias(aliases[..|aliases| - 1]), |aliases[|aliases| - 1]|)
  }

  function LongestName(servers: seq<Server>): nat {
    if servers == [] then 0 else
    var s := servers[|servers| - 1];
    Max(Max(LongestName(servers[..|servers| - 1]), HostnameLength(s)), LongestAlias(s.aliases))
  }

  function NameBytes(servers: seq<Server>): nat {
    if servers == [] then 0 else NameBytes(servers[..|servers| - 1]) + HostnameLength(servers[|servers| - 1])
  }

  method ServerNameHashSizes(servers: seq<Server>, configuredBucket: int, configuredMax: int)
    returns (bucketSize: int, maxSize: int)
    ensures bucketSize == Max(configuredBucket, NginxHashBucketSize(LongestName(servers)))
    ensures maxSize == Max(configuredMax, NextPowerOf2(NameBytes(servers)))
  {
    var longestName, serverNameBytes := 0, 0;
    for i := 0 to |servers|
      invariant longestName == LongestName(servers[..i])
      invariant serverNameBytes == NameBytes(servers[..i])
    {
      var srv := servers[i];
      var hostnameLength := |srv.hostname|;
      if srv.redirectFromToWWW {
        hostnameLength := hostnameLength + 4;
      }
      if longestName < hostnameLength {
        longestName := hostnameLength;
      }
      ghost var before := longestName;
      for j := 0 to |srv.aliases|
        invariant longestName == Max(before, LongestAlias(srv.aliases[..j]))
      {
        if longestName < |srv.aliases[j]| {
          longestName := |srv.aliases[j]|;
        }
        assert srv.aliases[..j + 1][..j] == srv.aliases[..j];
      }
      assert srv.aliases[..|srv.aliases|] == srv.aliases;
      serverNameBytes := serverNameBytes + hostnameLength;
      assert servers[..i + 1][..i] == servers[..i];
    }
    assert servers[..|servers|] == servers;
    bucketSize := configuredBucket;
    var nameHashBucketSize := NginxHashBucketSize(longestName);
    if bucketSize < nameHashBucketSize {
      bucketSize := nameHashBucketSize;
    }
    maxSize := configuredMax;
    var serverNameHashMaxSize := NextPowerOf2(serverNameBytes);
    if maxSize < serverNameHashMaxSize {
      maxSize := serverNameHashMaxSize;
    }
  }

  /** A name nginx puts into the hash table: a host name, an alias or the source of a redirect. */
  ghost predicate IsServerName(fold: Fold, name: string, servers: seq<Server>) {
    || IsHostname(name, servers)
    || (exists i :: 0 <= i < |servers| && name in servers[i].aliases)
    || (exists k :: 0 <= k < |Redirects(fold, servers)| && Redirects(fold, servers)[k].from == name)
  }

  lemma {:induction false} AliasFits(aliases: seq<string>, name: string)
    requires name in aliases
    ensures |name| <= LongestAlias(aliases)
  {
    if name != aliases[|aliases| - 1] {
      AliasFits(aliases[..|aliases| - 1], name);
    }
  }

  lemma {:induction false} ServerFits(servers: seq<Server>, i: nat)
    requires i < |servers|
    ensures HostnameLength(servers[i]) <= LongestName(servers)
    ensures LongestAlias(servers[i].aliases) <= LongestName(servers)
  {
    if i < |servers| - 1 {
      ServerFits(servers[..|servers| - 1], i);
    }
  }

  lemma {:induction false} EveryNameFits(fold: Fold, servers: seq<Server>, name: string)
    requires IsServerName(fold, name, servers)
    ensures |name| <= LongestName(servers)
  {
    if IsHostname(name, servers) {
      var i :| 0 <= i < |servers| && servers[i].hostname == name;
      ServerFits(servers, i);
    } else if i :| 0 <= i < |servers| && name in servers[i].aliases {
      ServerFits(servers, i);
      AliasFits(servers[i].aliases, name);
    } else {
      RedirectsSoundUpTo(fold, servers, |servers|);
      var k :| 0 <= k < |Redirects(fold, servers)| && Redirects(fold, servers)[k].from == name;
      var i :| 0 <= i < |servers| && RedirectOf(fold, Redirects(fold, servers)[k], i, servers);
      ServerFits(servers, i);
    }
  }

  lemma BucketBytesMonotone(a: nat, b: nat)
    requires a <= b
    ensures BucketBytes(a) <= BucketBytes(b)
  {
  }

  /** The bucket size chosen is a power of two, or a larger configured value, and every name fits a bucket. */
  lemma {:induction false} BucketHoldsEveryName(fold: Fold, servers: seq<Server>, configured: int, name: string)
    requires IsServerName(fold, name, servers)
    requires BucketBytes(LongestName(servers)) <= Pow2(32)
    ensures
      var size := Max(configured, NginxHashBucketSize(LongestName(servers)));
      && BucketBytes(|name|) <= size
      && (size == configured || LeastPowerOf2(size, BucketBytes(LongestName(servers))))
  {
    var longest := LongestName(servers);
    EveryNameFits(fold, servers, name);
    BucketBytesMonotone(|name|, longest);
    NextPowerOf2UpTo32Bits(BucketBytes(longest));
    var k: nat :| LeastAt(NginxHashBucketSize(longest), BucketBytes(longest), k);
  }
}
