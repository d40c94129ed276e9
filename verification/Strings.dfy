/** The parts of Go's strings, strconv and fmt packages that the controller relies on. */
module Strings {

  // ---------------------------------------------------------------- decimal numbers

  function Digit(d: nat): char
    requires d < 10
  {
    "0123456789"[d]
  }

  predicate IsDigit(c: char) { '0' <= c <= '9' }

  function Decimal(n: nat): (s: string)
    ensures s != [] && forall c :: c in s ==> IsDigit(c)
  {
    if n < 10 then [Digit(n)] else Decimal(n / 10) + [Digit(n % 10)]
  }

  /** strconv.Itoa. */
  function Itoa(n: int): string {
    if n < 0 then "-" + Decimal(-n) else Decimal(n)
  }

  lemma {:induction false} DecimalInjective(m: nat, n: nat)
    requires Decimal(m) == Decimal(n)
    ensures m == n
  {
    var s, t := Decimal(m), Decimal(n);
    assert s[|s| - 1] == t[|t| - 1];
    assert m % 10 == n % 10;
    if m >= 10 && n >= 10 {
      assert s[..|s| - 1] == Decimal(m / 10) && t[..|t| - 1] == Decimal(n / 10);
      DecimalInjective(m / 10, n / 10);
    }
  }

  // ---------------------------------------------------------------- prefixes and suffixes

  predicate HasPrefix(s: string, prefix: string) { prefix <= s }

  predicate HasSuffix(s: string, suffix: string) {
    |suffix| <= |s| && s[|s| - |suffix|..] == suffix
  }

  function TrimSuffix(s: string, suffix: string): string {
    if HasSuffix(s, suffix) then s[..|s| - |suffix|] else s
  }

  // ---------------------------------------------------------------- splitting and joining

  /** Puts the character c in front of a split string. */
  function Cons(c: char, parts: seq<string>, sep: char): seq<string>
    requires parts != []
  {
    if c == sep then [[]] + parts else [[c] + parts[0]] + parts[1..]
  }

  /** strings.Split for a one-character separator: the pieces between separators. */
  function Split(s: string, sep: char): (parts: seq<string>)
    ensures parts != []
    ensures forall p :: p in parts ==> sep !in p
  {
    if s == [] then [[]] else Cons(s[0], Split(s[1..], sep), sep)
  }

  /** strings.Join. */
  function Join(parts: seq<string>, sep: char): string {
    if parts == [] then []
    else if |parts| == 1 then parts[0]
    else parts[0] + [sep] + Join(parts[1..], sep)
  }

  lemma {:induction false} JoinSplit(s: string, sep: char)
    ensures Join(Split(s, sep), sep) == s
  {
    if s == [] {
    } else {
      JoinSplit(s[1..], sep);
      var rest := Split(s[1..], sep);
      assert s[0] == sep ==> Cons(s[0], rest, sep)[1..] == rest;
      assert s[0] != sep ==> Cons(s[0], rest, sep)[1..] == rest[1..];
      assert s == [s[0]] + s[1..];
    }
  }

  lemma {:induction false} SplitAtom(p: string, sep: char)
    requires sep !in p
    ensures Split(p, sep) == [p]
  {
    if p == [] {
    } else {
      SplitAtom(p[1..], sep);
      assert p == [p[0]] + p[1..];
    }
  }

  lemma ConsAppend(c: char, left: seq<string>, right: seq<string>, sep: char)
    requires left != []
    ensures Cons(c, left + right, sep) == Cons(c, left, sep) + right
  {
    assert (left + right)[1..] == left[1..] + right;
  }

  /** Splitting a string at one of its separators splits the two sides. */
  lemma {:induction false} SplitAppend(a: string, b: string, sep: char)
    ensures Split(a + [sep] + b, sep) == Split(a, sep) + Split(b, sep)
  {
    var s := a + [sep] + b;
    if a == [] {
      assert s[1..] == b;
    } else {
      assert s[1..] == a[1..] + [sep] + b;
      SplitAppend(a[1..], b, sep);
      ConsAppend(a[0], Split(a[1..], sep), Split(b, sep), sep);
    }
  }

  lemma {:induction false} SplitInjective(s: string, t: string, sep: char)
    requires Split(s, sep) == Split(t, sep)
    ensures s == t
  {
    JoinSplit(s, sep);
    JoinSplit(t, sep);
  }

  lemma {:induction false} SplitJoin(parts: seq<string>, sep: char)
    requires parts != []
    requires forall p :: p in parts ==> sep !in p
    ensures Split(Join(parts, sep), sep) == parts
  {
    SplitAtom(parts[0], sep);
    if |parts| > 1 {
      SplitJoin(parts[1..], sep);
      SplitAppend(parts[0], Join(parts[1..], sep), sep);
      assert parts == [parts[0]] + parts[1..];
    }
  }

  /** A separator that the last piece does not contain splits a string in one way only. */
  lemma LastSeparator(a: string, p: string, b: string, q: string, sep: char)
    requires a + [sep] + p == b + [sep] + q
    requires sep !in p && sep !in q
    ensures a == b && p == q
  {
    var s, t := a + [sep] + p, b + [sep] + q;
    assert s[|a|] == sep && t[|b|] == sep;
    assert forall i :: |a| < i < |s| ==> s[i] == p[i - |a| - 1];
    assert forall i :: |b| < i < |t| ==> t[i] == q[i - |b| - 1];
    assert a == s[..|a|] && b == t[..|b|];
    assert p == s[|a| + 1..] && q == t[|b| + 1..];
  }

  // ---------------------------------------------------------------- order

  /** Go's < on strings. */
  predicate Less(s: string, t: string) {
    if t == [] then false
    else if s == [] then true
    else s[0] < t[0] || (s[0] == t[0] && Less(s[1..], t[1..]))
  }

  // ---------------------------------------------------------------- fresh names

  /** A string that is in none of the lists' positions, being longer than every member. */
  function Fresh(xs: seq<string>): (s: string)
    ensures forall x :: x in xs ==> |x| < |s|
    ensures s !in xs
  {
    if xs == [] then "x" else Fresh(xs[1..]) + xs[0]
  }
}
