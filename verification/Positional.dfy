/** Positional number systems: big-endian values, canonical digits and powers.
    Shared by the Base58 codec and the decimal rendering of signed records. */
module Positional {
  import opened Wrappers

  function Pow(b: nat, e: nat): (r: nat)
    ensures b > 0 ==> r > 0
  {
    if e == 0 then 1 else b * Pow(b, e - 1)
  }

  lemma MulMonotone(a: nat, b: nat, x: nat, y: nat)
    requires a <= b && x <= y
    ensures a * x <= b * y
  {
    assert b * y == a * x + a * (y - x) + (b - a) * y;
  }

  lemma {:induction false} PowAdd(b: nat, m: nat, n: nat)
    ensures Pow(b, m + n) == Pow(b, m) * Pow(b, n)
  {
    if m > 0 {
      PowAdd(b, m - 1, n);
      MulAssociates(b, Pow(b, m - 1), Pow(b, n));
    }
  }

  lemma MulAssociates(a: nat, b: nat, c: nat)
    ensures a * (b * c) == (a * b) * c
  {
  }

  lemma {:induction false} PowMul(b: nat, m: nat, n: nat)
    ensures Pow(b, m * n) == Pow(Pow(b, m), n)
  {
    if n > 0 {
      PowMul(b, m, n - 1);
      assert m * n == m + m * (n - 1);
      PowAdd(b, m, m * (n - 1));
    } else {
      assert m * n == 0;
    }
  }

  lemma {:induction false} PowMonotone(b: nat, m: nat, n: nat)
    requires b > 0 && m <= n
    ensures Pow(b, m) <= Pow(b, n)
  {
    PowAdd(b, m, n - m);
    var x, y := Pow(b, m), Pow(b, n - m);
    assert x <= x * y;
  }

  lemma {:induction false} PowBaseMonotone(a: nat, b: nat, e: nat)
    requires a <= b
    ensures Pow(a, e) <= Pow(b, e)
  {
    if e > 0 {
      PowBaseMonotone(a, b, e - 1);
      MulMonotone(a, b, Pow(a, e - 1), Pow(b, e - 1));
    }
  }

  lemma {:induction false} PowBaseStrict(a: nat, b: nat, e: nat)
    requires a < b && e > 0
    ensures Pow(a, e) < Pow(b, e)
  {
    PowBaseMonotone(a, b, e - 1);
    var x, y := Pow(a, e - 1), Pow(b, e - 1);
    MulMonotone(a, a, x, y);
    MulMonotone(a + 1, b, y, y);
    assert (a + 1) * y == a * y + y;
  }

  /** If c^p <= d^q and q/p < m/n (that is p*m >= q*n), then c^n <= d^m. */
  lemma {:induction false} PowRatio(c: nat, d: nat, p: nat, q: nat, n: nat, m: nat)
    requires c > 0 && d > 0 && p > 0
    requires Pow(c, p) <= Pow(d, q)
    requires q * n <= p * m
    ensures Pow(c, n) <= Pow(d, m)
  {
    var x, y := Pow(c, n), Pow(d, m);
    if y < x {
      PowBaseStrict(y, x, p);
      calc {
        Pow(x, p);
        { PowMul(c, n, p); assert n * p == p * n; PowMul(c, p, n); }
        Pow(Pow(c, p), n);
        <= { PowBaseMonotone(Pow(c, p), Pow(d, q), n); }
        Pow(Pow(d, q), n);
        { PowMul(d, q, n); }
        Pow(d, q * n);
        <= { PowMonotone(d, q * n, p * m); }
        Pow(d, p * m);
        { assert p * m == m * p; PowMul(d, m, p); }
        Pow(y, p);
      }
      assert false;
    }
  }

  /** Every element is a digit of the base. */
  predicate AreDigits(s: seq<nat>, base: nat) {
    forall i :: 0 <= i < |s| ==> s[i] < base
  }

  /** The number a big-endian digit string denotes. */
  function Value(s: seq<nat>, base: nat): nat {
    if s == [] then 0 else Value(s[..|s| - 1], base) * base + s[|s| - 1]
  }

  /** The canonical digit string of n: no leading zero, empty for zero. */
  function Digits(n: nat, base: nat): (s: seq<nat>)
    requires base >= 2
    ensures AreDigits(s, base)
    ensures s != [] ==> s[0] != 0
    decreases n
  {
    if n == 0 then [] else
      assert n / base < n by { DivShrinks(n, base); }
      Digits(n / base, base) + [n % base]
  }

  lemma DivShrinks(n: nat, base: nat)
    requires n > 0 && base >= 2
    ensures n / base < n
  {
    var d := n / base;
    assert n == d * base + n % base;
    MulMonotone(d, d, 2, base);
  }

  lemma QuotientUnique(q: nat, r: nat, d: nat, m: nat, base: nat)
    requires r < base && m < base
    requires q * base + r == d * base + m
    ensures q == d && r == m
  {
    assert (d + 1) * base == d * base + base;
    assert (q + 1) * base == q * base + base;
    if d < q {
      MulMonotone(d + 1, q, base, base);
    } else if q < d {
      MulMonotone(q + 1, d, base, base);
    }
  }

  lemma {:induction false} DivModOf(q: nat, r: nat, base: nat)
    requires r < base
    ensures (q * base + r) / base == q && (q * base + r) % base == r
  {
    var n := q * base + r;
    var d, m := n / base, n % base;
    assert n == d * base + m;
    QuotientUnique(q, r, d, m, base);
  }

  /** How many zeros a string starts with. */
  function LeadingZeros(s: seq<nat>): (k: nat)
    ensures k <= |s| && (forall i :: 0 <= i < k ==> s[i] == 0)
    ensures k < |s| ==> s[k] != 0
  {
    if s != [] && s[0] == 0 then 1 + LeadingZeros(s[1..]) else 0
  }

  function DropZeros(s: seq<nat>): (r: seq<nat>)
    ensures r != [] ==> r[0] != 0
  {
    s[LeadingZeros(s)..]
  }

  lemma {:induction false} ValueOfDigits(n: nat, base: nat)
    requires base >= 2
    ensures Value(Digits(n, base), base) == n
    decreases n
  {
    if n > 0 {
      var q, r := QuotientOf(n, base);
      ValueOfDigits(q, base);
      ValueSnoc(Digits(q, base), r, base);
    }
  }

  lemma QuotientOf(n: nat, base: nat) returns (q: nat, r: nat)
    requires n > 0 && base >= 2
    ensures q == n / base && r == n % base && n == q * base + r && q < n
  {
    DivShrinks(n, base);
    q, r := n / base, n % base;
  }

  lemma ValueSnoc(s: seq<nat>, d: nat, base: nat)
    ensures Value(s + [d], base) == Value(s, base) * base + d
  {
    assert (s + [d])[..|s|] == s;
  }

  lemma {:induction false} ValueOfZeroPrefix(s: seq<nat>, base: nat)
    requires s != [] && s[0] == 0
    ensures Value(s, base) == Value(s[1..], base)
    decreases |s|
  {
    if |s| == 1 {
      assert s[..0] == [] && s[1..] == [];
      assert Value(s, base) == Value([], base) * base + 0;
    } else {
      var t := s[..|s| - 1];
      ValueOfZeroPrefix(t, base);
      assert t[1..] == s[1..][..|s[1..]| - 1];
    }
  }

  lemma {:induction false} ValueOfZeroRun(s: seq<nat>, k: nat, base: nat)
    requires k <= |s| && forall i :: 0 <= i < k ==> s[i] == 0
    ensures Value(s[k..], base) == Value(s, base)
    decreases k
  {
    if k == 0 {
      assert s[0..] == s;
    } else {
      ValueOfZeroPrefix(s, base);
      ValueOfZeroRun(s[1..], k - 1, base);
      assert s[1..][k - 1..] == s[k..];
    }
  }

  lemma ValueOfDropZeros(s: seq<nat>, base: nat)
    ensures Value(DropZeros(s), base) == Value(s, base)
  {
    ValueOfZeroRun(s, LeadingZeros(s), base);
  }

  lemma DigitsAppend(v: nat, d: nat, base: nat)
    requires base >= 2 && d < base && (v > 0 || d > 0)
    ensures v * base + d > 0
    ensures Digits(v * base + d, base) == Digits(v, base) + [d]
  {
    DivModOf(v, d, base);
    if v > 0 { MulMonotone(1, v, base, base); }
  }

  /** A digit string without leading zeros is the canonical one of its value. */
  lemma {:induction false} DigitsOfTrimmed(s: seq<nat>, base: nat)
    requires base >= 2 && AreDigits(s, base)
    requires s != [] ==> s[0] != 0
    ensures Digits(Value(s, base), base) == s
    ensures s != [] ==> Value(s, base) > 0
    decreases |s|
  {
    if s != [] {
      var t, d := s[..|s| - 1], s[|s| - 1];
      DigitsOfTrimmed(t, base);
      DigitsAppend(Value(t, base), d, base);
      assert s == t + [d];
    }
  }

  /** Canonical digits of any digit string's value are the string without its leading zeros. */
  lemma {:induction false} DigitsOfValue(s: seq<nat>, base: nat)
    requires base >= 2 && AreDigits(s, base)
    ensures Digits(Value(s, base), base) == DropZeros(s)
  {
    ValueOfDropZeros(s, base);
    DigitsOfTrimmed(DropZeros(s), base);
  }

  lemma AppendBound(v: nat, d: nat, p: nat, base: nat)
    requires v < p && d < base
    ensures v * base + d < base * p
  {
    MulMonotone(v + 1, p, base, base);
    assert (v + 1) * base == v * base + base;
  }

  lemma {:induction false} ValueBound(s: seq<nat>, base: nat)
    requires AreDigits(s, base) && base > 0
    ensures Value(s, base) < Pow(base, |s|)
    decreases |s|
  {
    if s != [] {
      var t := s[..|s| - 1];
      ValueBound(t, base);
      AppendBound(Value(t, base), s[|s| - 1], Pow(base, |t|), base);
    }
  }

  lemma Distribute(a: nat, p: nat, v: nat, base: nat)
    ensures (a * p + v) * base == a * (base * p) + v * base
  {
    assert (a * p) * base == a * (base * p);
  }

  /** Splitting off the most significant digit. */
  lemma {:induction false} ValueFront(s: seq<nat>, base: nat)
    requires s != []
    ensures Value(s, base) == s[0] * Pow(base, |s| - 1) + Value(s[1..], base)
    decreases |s|
  {
    if |s| == 1 {
      assert s[..0] == [] && s[1..] == [];
      assert Value(s, base) == Value([], base) * base + s[0];
    } else {
      var t, d := s[..|s| - 1], s[|s| - 1];
      ValueFront(t, base);
      assert t[1..] == s[1..][..|s[1..]| - 1];
      var p, v := Pow(base, |s| - 2), Value(t[1..], base);
      Distribute(s[0], p, v, base);
    }
  }

  lemma AreBytes(b: seq<Byte>)
    ensures AreDigits(b, 256)
  {
  }
}
