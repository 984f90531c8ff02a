/** Versions of message patches: strings compared by length first (common.shared/patch_version.h). */
module PatchVersions {

  /** `std::lexicographical_compare` over the characters. */
  predicate LexLess(a: string, b: string) {
    if b == "" then false
    else if a == "" then true
    else a[0] < b[0] || (a[0] == b[0] && LexLess(a[1..], b[1..]))
  }

  predicate LessThan(a: string, b: string) {
    if |a| == |b| then LexLess(a, b) else |a| < |b|
  }

  class PatchVersion {
    var version: string
    var offline: int

    constructor (version: string)
      ensures this.version == version && offline == 0
    {
      this.version, offline := version, 0;
    }

    method SetVersion(v: string)
      modifies `version
      ensures version == v
    {
      version := v;
    }

    /** `++offline_version_`, a 32-bit counter. */
    method IncrementOffline()
      requires offline < 0x7FFF_FFFF
      modifies `offline
      ensures offline == old(offline) + 1
    {
      offline := offline + 1;
    }

    predicate Less(that: PatchVersion)
      reads this, that
    {
      LessThan(version, that.version)
    }

    predicate Greater(that: PatchVersion)
      reads this, that
    {
      that.Less(this)
    }

    predicate AtLeast(that: PatchVersion)
      reads this, that
      ensures AtLeast(that) <==> Greater(that) || version == that.version
    {
      Trichotomy(version, that.version);
      !Less(that)
    }
  }

  // ----- A strict total order that agrees with equality -----

  lemma {:induction false} LexTrichotomy(a: string, b: string)
    ensures !(LexLess(a, b) && LexLess(b, a))
    ensures !LexLess(a, b) && !LexLess(b, a) <==> a == b
  {
    if a != "" && b != "" && a[0] == b[0] {
      LexTrichotomy(a[1..], b[1..]);
      assert a == [a[0]] + a[1..] && b == [b[0]] + b[1..];
    }
  }

  lemma {:induction false} LexTransitive(a: string, b: string, c: string)
    requires LexLess(a, b) && LexLess(b, c)
    ensures LexLess(a, c)
  {
    if a != "" && a[0] == b[0] && b[0] == c[0] {
      LexTransitive(a[1..], b[1..], c[1..]);
    }
  }

  /** Of two versions exactly one is less, or they are the same version. */
  lemma Trichotomy(a: string, b: string)
    ensures !(LessThan(a, b) && LessThan(b, a))
    ensures !LessThan(a, b) && !LessThan(b, a) <==> a == b
  {
    LexTrichotomy(a, b);
  }

  lemma Transitive(a: string, b: string, c: string)
    requires LessThan(a, b) && LessThan(b, c)
    ensures LessThan(a, c)
  {
    if |a| == |c| {
      LexTransitive(a, b, c);
    }
  }

  // ----- Numeric order -----

  predicate Digits(s: string) { forall i :: 0 <= i < |s| ==> '0' <= s[i] <= '9' }

  /** A decimal number written without leading zeros. */
  predicate Decimal(s: string) { s != "" && Digits(s) && (|s| > 1 ==> s[0] != '0') }

  function Pow10(n: nat): (p: nat)
    ensures p > 0
  {
    if n == 0 then 1 else 10 * Pow10(n - 1)
  }

  function Digit(c: char): nat
    requires '0' <= c <= '9'
  {
    c as int - '0' as int
  }

  function Number(s: string): nat
    requires Digits(s)
  {
    if s == "" then 0 else 10 * Number(s[..|s| - 1]) + Digit(s[|s| - 1])
  }

  lemma {:induction false} NumberBelow(s: string)
    requires Digits(s)
    ensures Number(s) < Pow10(|s|)
  {
    if s == "" {
    } else {
      NumberBelow(s[..|s| - 1]);
    }
  }

  lemma {:induction false} NumberAtLeast(s: string)
    requires Digits(s) && s != "" && s[0] != '0'
    ensures Number(s) >= Pow10(|s| - 1)
  {
    if |s| > 1 {
      NumberAtLeast(s[..|s| - 1]);
    } else {
      assert Number(s) == Digit(s[0]);
    }
  }

  lemma {:induction false} Pow10Monotone(m: nat, n: nat)
    requires m <= n
    ensures Pow10(m) <= Pow10(n)
  {
    if m < n {
      Pow10Monotone(m, n - 1);
    }
  }

  /** The last characters decide only between equal beginnings. */
  lemma {:induction false} LexSnoc(a: string, b: string, x: char, y: char)
    requires |a| == |b|
    ensures LexLess(a + [x], b + [y]) <==> LexLess(a, b) || (a == b && x < y)
  {
    var u, v := a + [x], b + [y];
    if a == "" {
      assert !LexLess(u[1..], v[1..]);
    } else {
      assert u[1..] == a[1..] + [x] && v[1..] == b[1..] + [y];
      assert a == [a[0]] + a[1..] && b == [b[0]] + b[1..];
      LexSnoc(a[1..], b[1..], x, y);
    }
  }

  lemma {:induction false} LexIsNumeric(a: string, b: string)
    requires |a| == |b| && Digits(a) && Digits(b)
    ensures LexLess(a, b) <==> Number(a) < Number(b)
    decreases |a|
  {
    if a == "" {
    } else {
      var n := |a| - 1;
      var u, v := a[..n], b[..n];
      assert a == u + [a[n]] && b == v + [b[n]];
      LexSnoc(u, v, a[n], b[n]);
      LexIsNumeric(u, v);
      LexIsNumeric(v, u);
      LexTrichotomy(u, v);
    }
  }

  lemma ShorterIsSmaller(a: string, b: string)
    requires Decimal(a) && Decimal(b) && |a| < |b|
    ensures Number(a) < Number(b)
  {
    NumberBelow(a);
    NumberAtLeast(b);
    Pow10Monotone(|a|, |b| - 1);
  }

  /** On decimal numbers of any length the comparison is the numeric one. */
  lemma LessThanIsNumeric(a: string, b: string)
    requires Decimal(a) && Decimal(b)
    ensures LessThan(a, b) <==> Number(a) < Number(b)
  {
    if |a| == |b| {
      LexIsNumeric(a, b);
    } else if |a| < |b| {
      ShorterIsSmaller(a, b);
    } else {
      ShorterIsSmaller(b, a);
    }
  }
}
