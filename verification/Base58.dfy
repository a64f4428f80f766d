/** The Bitcoin/Solana base58 codec (go/internal/base58/base58.go): in-place base
    conversion in a buffer sized in advance, proved against a positional
    specification that is a bijection. */
module Base58 {
  import opened Wrappers
  import opened Positional

  datatype DecodeResult = Decoded(bytes: seq<Byte>) | InvalidCharacter(at: nat)

  const CAPITALS: string := "123456789" + "ABCDEFGH" + "JKLMN" + "PQRSTUVWXYZ"
  const SMALLS: string := "abcdefghijk" + "mnopqrstuvwxyz"
  const ALPHABET: string := CAPITALS + SMALLS

  // ---- Specification: change of base that keeps leading zeros ----

  function Zeros(k: nat): (s: seq<nat>)
    ensures |s| == k && forall i :: 0 <= i < k ==> s[i] == 0
  {
    if k == 0 then [] else [0] + Zeros(k - 1)
  }

  /** The same leading zeros, then the same number, in another base. */
  function Rebase(s: seq<nat>, from: nat, to: nat): (r: seq<nat>)
    requires to >= 2
    ensures AreDigits(r, to)
  {
    Zeros(LeadingZeros(s)) + Digits(Value(s, from), to)
  }

  lemma LeadingZerosOfPadded(k: nat, t: seq<nat>)
    requires t != [] ==> t[0] != 0
    ensures LeadingZeros(Zeros(k) + t) == k
    ensures DropZeros(Zeros(k) + t) == t
  {
    var s := Zeros(k) + t;
    assert forall i :: 0 <= i < k ==> s[i] == 0;
    assert t != [] ==> s[k] != 0;
  }

  lemma {:induction false} PaddedSplit(s: seq<nat>)
    ensures s == Zeros(LeadingZeros(s)) + DropZeros(s)
  {
    var k := LeadingZeros(s);
    assert s == s[..k] + s[k..];
    assert s[..k] == Zeros(k);
  }

  /** Changing base and back is the identity on every digit string. */
  lemma {:induction false} RebaseInverse(s: seq<nat>, from: nat, to: nat)
    requires from >= 2 && to >= 2 && AreDigits(s, from)
    ensures Rebase(Rebase(s, from, to), to, from) == s
  {
    var k, n := LeadingZeros(s), Value(s, from);
    var d := Digits(n, to);
    var r := Zeros(k) + d;
    LeadingZerosOfPadded(k, d);
    ValueOfDropZeros(r, to);
    ValueOfDigits(n, to);
    DigitsOfValue(s, from);
    PaddedSplit(s);
  }

  // ---- The alphabet and its inverse ----

  /** The reverse table: a character's index in the alphabet, or -1. */
  function Reverse(c: char): (i: int)
    ensures -1 <= i < |ALPHABET|
    ensures i >= 0 ==> ALPHABET[i] == c
    ensures i == -1 ==> c !in ALPHABET
  {
    ReverseFrom(c, 0)
  }

  function ReverseFrom(c: char, k: nat): (i: int)
    requires k <= |ALPHABET|
    ensures i == -1 || k <= i < |ALPHABET|
    ensures i >= 0 ==> ALPHABET[i] == c
    ensures i == -1 ==> c !in ALPHABET[k..]
    decreases |ALPHABET| - k
  {
    if k == |ALPHABET| then -1
    else if ALPHABET[k] == c then k
    else
      assert ALPHABET[k..] == [ALPHABET[k]] + ALPHABET[k + 1..];
      ReverseFrom(c, k + 1)
  }

  lemma AlphabetIncreasing(i: nat, j: nat)
    requires i < j < |ALPHABET|
    ensures ALPHABET[i] < ALPHABET[j]
    decreases j - i
  {
    AlphabetStep(j - 1);
    if i < j - 1 { AlphabetIncreasing(i, j - 1); }
  }

  lemma AlphabetStep(i: nat)
    requires i + 1 < |ALPHABET|
    ensures ALPHABET[i] < ALPHABET[i + 1]
  {
    if i < 33 {
      FrontStep(i);
    } else {
      TailStep(i - 33);
    }
  }

  lemma FrontStep(i: nat)
    requires i < 33
    ensures |CAPITALS| == 33 && |SMALLS| == 25 && ALPHABET[i] < ALPHABET[i + 1]
  {
    if i < 32 {
      assert CAPITALS[i] < CAPITALS[i + 1];
    }
  }

  lemma TailStep(i: nat)
    requires i < 24
    ensures ALPHABET[i + 33] < ALPHABET[i + 34]
  {
    assert |CAPITALS| == 33;
    assert SMALLS[i] < SMALLS[i + 1];
  }

  lemma ReverseOfSymbol(i: nat)
    requires i < |ALPHABET|
    ensures Reverse(ALPHABET[i]) == i
  {
    var r := Reverse(ALPHABET[i]);
    if r < i && r >= 0 { AlphabetIncreasing(r, i); }
    if i < r { AlphabetIncreasing(i, r); }
  }

  predicate InAlphabet(s: string) {
    forall i :: 0 <= i < |s| ==> Reverse(s[i]) >= 0
  }

  function Symbols(ds: seq<nat>): (s: string)
    requires AreDigits(ds, 58)
    ensures |s| == |ds| && forall i :: 0 <= i < |s| ==> s[i] == ALPHABET[ds[i]]
  {
    seq(|ds|, i requires 0 <= i < |ds| => ALPHABET[ds[i]])
  }

  function Indices(s: string): (ds: seq<nat>)
    requires InAlphabet(s)
    ensures |ds| == |s| && AreDigits(ds, 58)
    ensures forall i :: 0 <= i < |s| ==> ds[i] == Reverse(s[i])
  {
    seq(|s|, i requires 0 <= i < |s| => Reverse(s[i]))
  }

  lemma SymbolsOfIndices(s: string)
    requires InAlphabet(s)
    ensures Symbols(Indices(s)) == s
  {
  }

  lemma IndicesOfSymbols(ds: seq<nat>)
    requires AreDigits(ds, 58)
    ensures InAlphabet(Symbols(ds)) && Indices(Symbols(ds)) == ds
  {
    forall i | 0 <= i < |ds| ensures Reverse(ALPHABET[ds[i]]) == ds[i] {
      ReverseOfSymbol(ds[i]);
    }
  }

  /** The first position holding a character outside the alphabet, or |s|. */
  function FirstInvalid(s: string): (k: nat)
    ensures k <= |s| && InAlphabet(s[..k])
    ensures k < |s| ==> Reverse(s[k]) == -1
  {
    if s == [] then 0
    else if Reverse(s[0]) < 0 then 0
    else
      var k := FirstInvalid(s[1..]);
      InAlphabetCons(s, k + 1);
      k + 1
  }

  lemma {:induction false} InAlphabetCons(s: string, k: nat)
    requires 0 < k <= |s|
    ensures InAlphabet(s[..k]) <==> Reverse(s[0]) >= 0 && InAlphabet(s[1..][..k - 1])
  {
    var t := s[1..][..k - 1];
    assert s[..k] == [s[0]] + t;
    assert forall i :: 0 <= i < |t| ==> t[i] == s[..k][i + 1];
  }

  /** What Encode must return. */
  function Encoding(b: seq<Byte>): string {
    Symbols(Rebase(b, 256, 58))
  }

  /** What Decode must return. */
  function Decoding(s: string): DecodeResult {
    if InAlphabet(s) then Decoded(Rebase(Indices(s), 58, 256)) else InvalidCharacter(FirstInvalid(s))
  }

  // ---- Which characters those are ----

  /** An ASCII digit or letter, but not 0, O, I or l. */
  predicate Allowed(c: char) {
    || '1' <= c <= '9'
    || ('A' <= c <= 'Z' && c != 'I' && c != 'O')
    || ('a' <= c <= 'z' && c != 'l')
  }

  /** The symbol of every digit, by its code. */
  lemma SymbolCode(i: nat)
    requires i < 58
    ensures |ALPHABET| == 58
    ensures ALPHABET[i] as int ==
            if i < 9 then '1' as int + i
            else if i < 17 then 'A' as int + (i - 9)
            else if i < 22 then 'J' as int + (i - 17)
            else if i < 33 then 'P' as int + (i - 22)
            else if i < 44 then 'a' as int + (i - 33)
            else 'm' as int + (i - 44)
  {
    assert |CAPITALS| == 33 && |SMALLS| == 25;
    if i < 33 {
      CapitalCode(i);
      assert ALPHABET[i] == CAPITALS[i];
    } else {
      SmallCode(i - 33);
      assert ALPHABET[i] == SMALLS[i - 33];
    }
  }

  lemma CapitalCode(i: nat)
    requires i < 33
    ensures CAPITALS[i] as int ==
            if i < 9 then '1' as int + i
            else if i < 17 then 'A' as int + (i - 9)
            else if i < 22 then 'J' as int + (i - 17)
            else 'P' as int + (i - 22)
  {
  }

  lemma SmallCode(i: nat)
    requires i < 25
    ensures SMALLS[i] as int == if i < 11 then 'a' as int + i else 'm' as int + (i - 11)
  {
  }

  /** The alphabet is exactly the allowed characters; AlphabetIncreasing gives their order. */
  lemma AlphabetIs(c: char)
    ensures c in ALPHABET <==> Allowed(c)
    ensures Reverse(c) >= 0 <==> Allowed(c)
  {
    if c in ALPHABET {
      var i :| 0 <= i < |ALPHABET| && ALPHABET[i] == c;
      SymbolCode(i);
    }
    if Allowed(c) {
      var i := PlaceOf(c);
      assert c in ALPHABET;
    }
  }

  lemma PlaceOf(c: char) returns (i: nat)
    requires Allowed(c)
    ensures i < |ALPHABET| == 58 && ALPHABET[i] == c
  {
    var n := c as int;
    i := if c <= '9' then n - '1' as int
         else if c < 'I' then n - 'A' as int + 9
         else if c < 'O' then n - 'J' as int + 17
         else if c <= 'Z' then n - 'P' as int + 22
         else if c < 'l' then n - 'a' as int + 33
         else n - 'm' as int + 44;
    SymbolCode(i);
  }

  predicate AllAllowed(s: string) { forall i :: 0 <= i < |s| ==> Allowed(s[i]) }

  lemma InAlphabetIs(s: string)
    ensures InAlphabet(s) <==> AllAllowed(s)
  {
    forall i | 0 <= i < |s|
      ensures Reverse(s[i]) >= 0 <==> Allowed(s[i])
    {
      AlphabetIs(s[i]);
    }
  }

  /** An encoding has only allowed characters, as many leading '1' as there are leading zero
      bytes, and read in base 58 the value of the bytes in base 256. */
  lemma EncodingMeaning(b: seq<Byte>)
    ensures var s := Encoding(b);
            && AllAllowed(s) && InAlphabet(s)
            && LeadingZeros(Indices(s)) == LeadingZeros(b)
            && Value(Indices(s), 58) == Value(b, 256)
  {
    AreBytes(b);
    var r := Rebase(b, 256, 58);
    IndicesOfSymbols(r);
    InAlphabetIs(Symbols(r));
    LeadingZerosOfPadded(LeadingZeros(b), Digits(Value(b, 256), 58));
    ValueOfDropZeros(r, 58);
    ValueOfDigits(Value(b, 256), 58);
  }

  lemma EncodingAllowed(b: seq<Byte>)
    ensures AllAllowed(Encoding(b))
  {
    EncodingMeaning(b);
  }

  /** Decoding succeeds exactly on strings of allowed characters, and otherwise names the
      first that is not. */
  lemma DecodingMeaning(s: string)
    ensures Decoding(s).Decoded? <==> AllAllowed(s)
    ensures Decoding(s).InvalidCharacter? ==>
              Decoding(s).at < |s| && !Allowed(s[Decoding(s).at]) && AllAllowed(s[..Decoding(s).at])
  {
    InAlphabetIs(s);
    if !InAlphabet(s) {
      var k := FirstInvalid(s);
      InAlphabetIs(s[..k]);
      assert s[..|s|] == s;
      AlphabetIs(s[k]);
    }
  }

  /** Decode inverts Encode on every byte string. */
  lemma DecodeAfterEncode(b: seq<Byte>)
    ensures Decoding(Encoding(b)) == Decoded(b)
  {
    AreBytes(b);
    IndicesOfSymbols(Rebase(b, 256, 58));
    RebaseInverse(b, 256, 58);
  }

  /** Encode inverts Decode on every string over the alphabet; every other
      string is rejected at its first foreign character. */
  lemma EncodeAfterDecode(s: string)
    ensures Decoding(s).Decoded? <==> InAlphabet(s)
    ensures InAlphabet(s) ==> Encoding(Decoding(s).bytes) == s
    ensures !InAlphabet(s) ==> Decoding(s).at == FirstInvalid(s)
  {
    if InAlphabet(s) {
      RebaseInverse(Indices(s), 58, 256);
      SymbolsOfIndices(s);
    }
  }

  // ---- The buffer sizes always suffice ----

  lemma PowDouble(b: nat, e: nat, p: nat)
    requires Pow(b, e) == p
    ensures Pow(b, 2 * e) == p * p
  {
    PowAdd(b, e, e);
  }

  lemma SmallPowers()
    ensures Pow(256, 8) < Pow(58, 11)
    ensures Pow(58, 71) < Pow(256, 52)
  {
    assert Pow(58, 8) == 128063081718016;
    assert Pow(58, 11) == 24986644000165537792;
    PowDouble(58, 8, 128063081718016);
    assert Pow(58, 17) == 951208868148684143308060622848;
    PowDouble(58, 17, 951208868148684143308060622848);
    assert Pow(58, 35) == 52478302028992644968172978478148648556151605660894866578604032;
    PowDouble(58, 35, 52478302028992644968172978478148648556151605660894866578604032);
    assert Pow(58, 71) == 159730386663078066345306447337161584696769904898410078913243029577507397293846405390982563136983769384625594118558891106107392;
    assert Pow(256, 8) == 18446744073709551616;
    assert Pow(256, 13) == 20282409603651670423947251286016;
    PowDouble(256, 13, 20282409603651670423947251286016);
    PowDouble(256, 26, 411376139330301510538742295639337626245683966408394965837152256);
  }

  function EncodedSize(n: nat): nat { n * 138 / 100 + 1 }

  function DecodedSize(n: nat): nat { n * 733 / 1000 + 1 }

  /** n base-256 digits fit in floor(1.38 n) + 1 base-58 digits, for every n. */
  lemma {:induction false} EncodeBufferSuffices(n: nat)
    ensures Pow(256, n) <= Pow(58, EncodedSize(n))
  {
    SmallPowers();
    EncodedSizeBound(n);
    PowRatio(256, 58, 8, 11, n, EncodedSize(n));
  }

  lemma EncodedSizeBound(n: nat)
    ensures 11 * n <= 8 * EncodedSize(n)
  {
  }

  lemma DecodedSizeBound(n: nat)
    ensures 52 * n <= 71 * DecodedSize(n)
  {
  }

  /** n base-58 digits fit in floor(0.733 n) + 1 bytes, for every n. */
  lemma {:induction false} DecodeBufferSuffices(n: nat)
    ensures Pow(58, n) <= Pow(256, DecodedSize(n))
  {
    SmallPowers();
    DecodedSizeBound(n);
    PowRatio(58, 256, 71, 52, n, DecodedSize(n));
  }

  // ---- The in-place conversion ----

  lemma CarryStep(carry: nat, digit: nat, from: nat, to: nat, p: nat)
    requires to > 0
    ensures var c := carry + from * digit;
            (c / to) * (to * p) + (c % to) * p == carry * p + from * (digit * p)
  {
    var c := carry + from * digit;
    var q, r := c / to, c % to;
    assert c == q * to + r;
    assert (q * to + r) * p == q * (to * p) + r * p;
    assert (carry + from * digit) * p == carry * p + from * (digit * p);
  }

  function Quotient(n: nat, d: nat): nat
    requires d > 0
  {
    n / d
  }

  lemma CarryBound(carry: nat, p: nat, v: nat)
    requires carry * p + v < p
    ensures carry == 0
  {
    if carry > 0 { MulMonotone(1, carry, p, p); }
  }

  lemma FrontOfSuffix(s: seq<nat>, j: nat, base: nat)
    requires j < |s|
    ensures Value(s[j..], base) == s[j] * Pow(base, |s| - 1 - j) + Value(s[j + 1..], base)
  {
    var t := s[j..];
    assert t[1..] == s[j + 1..];
    ValueFront(t, base);
  }

  lemma CarryKept(was: seq<nat>, now: seq<nat>, next: seq<nat>, j: nat, carry: nat, digit: nat, from: nat, to: nat)
    requires to > 0 && j < |was| == |now| == |next|
    requires now[j] == was[j] && next[j + 1..] == now[j + 1..]
    requires next[j] == (carry + from * was[j]) % to
    requires carry * Pow(to, |was| - 1 - j) + Value(now[j + 1..], to) == from * Value(was[j + 1..], to) + digit
    ensures ((carry + from * was[j]) / to) * Pow(to, |was| - j) + Value(next[j..], to)
         == from * Value(was[j..], to) + digit
  {
    FrontOfSuffix(next, j, to);
    FrontOfSuffix(was, j, to);
    CarryBalance(carry, was[j], from, to, Pow(to, |was| - 1 - j), Value(now[j + 1..], to), Value(was[j + 1..], to),
                 digit);
  }

  /** The books of one carry step: w and v are the values of the suffixes behind the digit d. */
  lemma CarryBalance(carry: nat, d: nat, from: nat, to: nat, p: nat, w: nat, v: nat, digit: nat)
    requires to > 0 && carry * p + w == from * v + digit
    ensures ((carry + from * d) / to) * (to * p) + (((carry + from * d) % to) * p + w) == from * (d * p + v) + digit
  {
    CarryStep(carry, d, from, to, p);
    var a := d * p;
    assert from * (a + v) == from * a + from * v;
  }

  /** Mid-loop state: positions up to j are untouched, and the carry together with
      the finished positions accounts for `from` times the old suffix plus `digit`. */
  ghost predicate Carrying(was: seq<nat>, now: seq<nat>, j: int, carry: nat, digit: nat, from: nat, to: nat) {
    && -1 <= j < |was| == |now|
    && now[..j + 1] == was[..j + 1]
    && AreDigits(now, to)
    && carry * Pow(to, |was| - 1 - j) + Value(now[j + 1..], to) == from * Value(was[j + 1..], to) + digit
  }

  /** The carry has left the buffer only if the result did not fit it. */
  lemma CarryStaysInside(was: seq<nat>, now: seq<nat>, carry: nat, digit: nat, from: nat, to: nat)
    requires Carrying(was, now, -1, carry, digit, from, to)
    requires from * Value(was, to) + digit < Pow(to, |was|)
    ensures carry == 0
  {
    assert was[0..] == was;
    CarryBound(carry, Pow(to, |was|), Value(now[0..], to));
  }

  lemma CarryingDone(was: seq<nat>, now: seq<nat>, j: int, high: int, digit: nat, from: nat, to: nat)
    requires Carrying(was, now, j, 0, digit, from, to) && j <= high < |was|
    requires forall i :: 0 <= i <= high ==> was[i] == 0
    ensures forall i :: 0 <= i <= j ==> now[i] == 0
    ensures Value(now, to) == from * Value(was, to) + digit
  {
    assert forall i :: 0 <= i <= j ==> now[i] == now[..j + 1][i];
    ValueOfZeroRun(now, j + 1, to);
    ValueOfZeroRun(was, j + 1, to);
  }

  /** One iteration of the inner carry loop. */
  method CarryOne(buf: array<nat>, j: nat, carry: nat, from: nat, to: nat, ghost was: seq<nat>, ghost digit: nat)
    returns (next: nat)
    requires to >= 2 && j < buf.Length
    requires Carrying(was, buf[..], j, carry, digit, from, to)
    modifies buf
    ensures Carrying(was, buf[..], j - 1, next, digit, from, to)
  {
    ghost var now := buf[..];
    assert now[j] == now[..j + 1][j] == was[j];
    var sum: nat := carry + from * buf[j];
    buf[j] := sum % to;
    next := Quotient(sum, to);
    assert buf[..][j + 1..] == now[j + 1..];
    assert buf[..][..j] == now[..j + 1][..j];
    CarryKept(was, now, buf[..], j, carry, digit, from, to);
  }

  /** The inner carry loop: multiply the buffer's number by `from`, add `digit`,
      and report the new watermark. It never steps below index 0, because the
      result fits the buffer. */
  method Absorb(buf: array<nat>, high: int, digit: nat, from: nat, to: nat) returns (watermark: int)
    requires to >= 2
    requires -1 <= high < buf.Length
    requires AreDigits(buf[..], to)
    requires forall i :: 0 <= i <= high ==> buf[i] == 0
    requires from * Value(buf[..], to) + digit < Pow(to, buf.Length)
    modifies buf
    ensures AreDigits(buf[..], to)
    ensures Value(buf[..], to) == from * Value(old(buf[..]), to) + digit
    ensures -1 <= watermark < buf.Length
    ensures forall i :: 0 <= i <= watermark ==> buf[i] == 0
  {
    ghost var was := buf[..];
    var carry := digit;
    var j := buf.Length - 1;
    StartCarrying(was, digit, from, to);
    while j > high || carry != 0
      invariant Carrying(was, buf[..], j, carry, digit, from, to)
      decreases j
    {
      if j == -1 {
        CarryStaysInside(was, buf[..], carry, digit, from, to);
        assert false;
      }
      carry := CarryOne(buf, j, carry, from, to, was, digit);
      j := j - 1;
    }
    CarryingDone(was, buf[..], j, high, digit, from, to);
    watermark := j;
  }

  lemma StartCarrying(was: seq<nat>, digit: nat, from: nat, to: nat)
    requires AreDigits(was, to)
    ensures Carrying(was, was, |was| - 1, digit, digit, from, to)
  {
    assert was[|was|..] == [];
    assert digit * Pow(to, 0) == digit;
  }

  /** The first position that holds something else than zero. */
  method SkipZeros(buf: array<nat>) returns (j: nat)
    ensures j == LeadingZeros(buf[..])
  {
    j := 0;
    while j < buf.Length && buf[j] == 0
      invariant j <= buf.Length
      invariant forall i :: 0 <= i < j ==> buf[i] == 0
    {
      j := j + 1;
    }
  }

  lemma PrefixFits(b: seq<nat>, lo: nat, i: nat, from: nat, to: nat, size: nat)
    requires from >= 2 && to >= 2 && AreDigits(b, from)
    requires lo <= i < |b|
    requires Pow(from, |b| - lo) <= Pow(to, size)
    ensures Value(b[lo..i + 1], from) == from * Value(b[lo..i], from) + b[i]
    ensures Value(b[lo..i + 1], from) < Pow(to, size)
  {
    var t := b[lo..i + 1];
    assert t == b[lo..i] + [b[i]];
    ValueSnoc(b[lo..i], b[i], from);
    BoundedBy(t, from, |b| - lo, Pow(to, size));
  }

  lemma BoundedBy(t: seq<nat>, from: nat, n: nat, bound: nat)
    requires from >= 2 && AreDigits(t, from) && |t| <= n && Pow(from, n) <= bound
    ensures Value(t, from) < bound
  {
    ValueBound(t, from);
    PowMonotone(from, |t|, n);
  }

  lemma ConversionDone(b: seq<nat>, zeros: nat, buf: seq<nat>, from: nat, to: nat)
    requires from >= 2 && to >= 2 && zeros == LeadingZeros(b)
    requires AreDigits(buf, to)
    requires Value(buf, to) == Value(b[zeros..], from)
    ensures Rebase(b, from, to) == Zeros(zeros) + buf[LeadingZeros(buf)..]
  {
    ValueOfZeroRun(b, zeros, from);
    DigitsOfValue(buf, to);
  }

  /** The buffer holds the number of the bytes read so far. */
  ghost predicate Absorbed(b: seq<nat>, zeros: nat, i: nat, buf: seq<nat>)
    requires zeros <= i <= |b|
  {
    AreDigits(buf, 58) && Value(buf, 58) == Value(b[zeros..i], 256)
  }

  /** Encode's conversion loop over the bytes after the leading zeros. */
  method FillSymbols(b: seq<Byte>, zeros: nat) returns (buf: array<nat>)
    requires zeros <= |b|
    ensures fresh(buf) && Absorbed(b, zeros, |b|, buf[..])
  {
    var size := (|b| - zeros) * 138 / 100 + 1;
    buf := new nat[size](_ => 0);
    ValueOfZeroRun(buf[..], size, 58);
    assert buf[..][size..] == [] && b[zeros..zeros] == [];
    EncodeBufferSuffices(|b| - zeros);
    AbsorbBytes(buf, b, zeros);
  }

  method AbsorbBytes(buf: array<nat>, b: seq<Byte>, zeros: nat)
    requires zeros <= |b| && Absorbed(b, zeros, zeros, buf[..]) && forall k :: 0 <= k < buf.Length ==> buf[k] == 0
    requires Pow(256, |b| - zeros) <= Pow(58, buf.Length)
    modifies buf
    ensures Absorbed(b, zeros, |b|, buf[..])
  {
    AreBytes(b);
    var high := buf.Length - 1;
    for i := zeros to |b|
      invariant -1 <= high < buf.Length
      invariant forall k :: 0 <= k <= high ==> buf[k] == 0
      invariant Absorbed(b, zeros, i, buf[..])
    {
      PrefixFits(b, zeros, i, 256, 58, buf.Length);
      high := Absorb(buf, high, b[i], 256, 58);
    }
  }

  method CountZeros(b: seq<Byte>) returns (zeros: nat)
    ensures zeros == LeadingZeros(b)
  {
    zeros := 0;
    while zeros < |b| && b[zeros] == 0
      invariant zeros <= |b| && forall i :: 0 <= i < zeros ==> b[i] == 0
    {
      zeros := zeros + 1;
    }
  }

  method Encode(b: seq<Byte>) returns (s: string)
    ensures s == Encoding(b)
    ensures AllAllowed(s)
  {
    var zeros := CountZeros(b);
    var buf := FillSymbols(b, zeros);
    AreBytes(b);
    assert b[zeros..|b|] == b[zeros..];
    ConversionDone(b, zeros, buf[..], 256, 58);
    var j := SkipZeros(buf);
    s := EmitSymbols(buf, j, zeros);
    EncodingAllowed(b);
  }

  /** `zeros` ones followed by the symbols of the buffer from j on. */
  method EmitSymbols(buf: array<nat>, j: nat, zeros: nat) returns (s: string)
    requires j <= buf.Length && AreDigits(buf[..], 58)
    ensures AreDigits(Zeros(zeros) + buf[..][j..], 58)
    ensures s == Symbols(Zeros(zeros) + buf[..][j..])
  {
    assert forall i :: 0 <= i < buf.Length ==> buf[..][i] < 58;
    ghost var r := Zeros(zeros) + buf[..][j..];
    var out := new char[zeros + (buf.Length - j)];
    for i := 0 to zeros
      invariant forall k :: 0 <= k < i ==> out[k] == ALPHABET[r[k]]
    {
      out[i] := '1';
    }
    for i := zeros to out.Length
      invariant forall k :: 0 <= k < i ==> out[k] == ALPHABET[r[k]]
    {
      assert r[i] == buf[j + (i - zeros)];
      out[i] := ALPHABET[buf[j + (i - zeros)]];
    }
    s := out[..];
  }

  lemma FirstInvalidAt(s: string, i: nat)
    requires i < |s| && InAlphabet(s[..i]) && Reverse(s[i]) < 0
    ensures Decoding(s) == InvalidCharacter(i)
  {
    var k := FirstInvalid(s);
    assert forall n :: 0 <= n < i ==> Reverse(s[n]) == Reverse(s[..i][n]);
    assert forall n :: 0 <= n < k ==> Reverse(s[n]) == Reverse(s[..k][n]);
  }

  lemma ExtendIndices(s: string, zeros: nat, i: nat)
    requires zeros <= i < |s| && InAlphabet(s[..i]) && Reverse(s[i]) >= 0
    requires Pow(58, |s| - zeros) <= Pow(256, DecodedSize(|s| - zeros))
    ensures InAlphabet(s[..i + 1])
    ensures Value(Indices(s[..i + 1])[zeros..], 58) == 58 * Value(Indices(s[..i])[zeros..], 58) + Reverse(s[i])
    ensures Value(Indices(s[..i + 1])[zeros..], 58) < Pow(256, DecodedSize(|s| - zeros))
  {
    IndicesNext(s, zeros, i);
    PowMonotone(58, i + 1 - zeros, |s| - zeros);
    PrefixFits(Indices(s[..i + 1]), zeros, i, 58, 256, DecodedSize(|s| - zeros));
  }

  lemma IndicesNext(s: string, zeros: nat, i: nat)
    requires zeros <= i < |s| && InAlphabet(s[..i]) && Reverse(s[i]) >= 0
    ensures InAlphabet(s[..i + 1])
    ensures var ds := Indices(s[..i + 1]);
            ds[zeros..i] == Indices(s[..i])[zeros..] && ds[zeros..i + 1] == ds[zeros..] && ds[i] == Reverse(s[i])
  {
    assert s[..i + 1] == s[..i] + [s[i]];
  }

  /** The buffer holds the number of the symbols read so far. */
  ghost predicate Converted(s: string, zeros: nat, i: nat, buf: seq<nat>)
    requires zeros <= i <= |s|
  {
    && InAlphabet(s[..i]) && AreDigits(buf, 256)
    && Value(buf, 256) == Value(Indices(s[..i])[zeros..], 58)
  }

  method AbsorbSymbol(buf: array<nat>, high: int, s: string, zeros: nat, i: nat) returns (watermark: int)
    requires zeros <= i < |s| && Reverse(s[i]) >= 0 && Converted(s, zeros, i, buf[..])
    requires buf.Length == DecodedSize(|s| - zeros) && Pow(58, |s| - zeros) <= Pow(256, buf.Length)
    requires -1 <= high < buf.Length && forall k :: 0 <= k <= high ==> buf[k] == 0
    modifies buf
    ensures Converted(s, zeros, i + 1, buf[..])
    ensures -1 <= watermark < buf.Length && forall k :: 0 <= k <= watermark ==> buf[k] == 0
  {
    ExtendIndices(s, zeros, i);
    watermark := Absorb(buf, high, Reverse(s[i]), 58, 256);
  }

  /** Decode's conversion loop; reports the first character outside the alphabet. */
  method FillBytes(s: string, zeros: nat) returns (buf: array<nat>, bad: int)
    requires zeros <= |s| && InAlphabet(s[..zeros])
    ensures fresh(buf)
    ensures bad == -1 ==> Converted(s, zeros, |s|, buf[..])
    ensures bad != -1 ==> 0 <= bad && Decoding(s) == InvalidCharacter(bad)
  {
    var size := (|s| - zeros) * 733 / 1000 + 1;
    buf := new nat[size](_ => 0);
    NothingConverted(s, zeros, buf[..]);
    DecodeBufferSuffices(|s| - zeros);
    bad := AbsorbSymbols(buf, s, zeros);
  }

  lemma NothingConverted(s: string, zeros: nat, buf: seq<nat>)
    requires zeros <= |s| && InAlphabet(s[..zeros]) && forall k :: 0 <= k < |buf| ==> buf[k] == 0
    ensures Converted(s, zeros, zeros, buf)
  {
    assert Indices(s[..zeros])[zeros..] == [] && buf[|buf|..] == [];
    ValueOfZeroRun(buf, |buf|, 256);
  }

  method AbsorbSymbols(buf: array<nat>, s: string, zeros: nat) returns (bad: int)
    requires zeros <= |s| && Converted(s, zeros, zeros, buf[..]) && forall k :: 0 <= k < buf.Length ==> buf[k] == 0
    requires buf.Length == DecodedSize(|s| - zeros) && Pow(58, |s| - zeros) <= Pow(256, buf.Length)
    modifies buf
    ensures bad == -1 ==> Converted(s, zeros, |s|, buf[..])
    ensures bad != -1 ==> 0 <= bad && Decoding(s) == InvalidCharacter(bad)
  {
    var high := buf.Length - 1;
    for i := zeros to |s|
      invariant -1 <= high < buf.Length
      invariant forall k :: 0 <= k <= high ==> buf[k] == 0
      invariant Converted(s, zeros, i, buf[..])
    {
      if Reverse(s[i]) < 0 {
        FirstInvalidAt(s, i);
        return i;
      }
      high := AbsorbSymbol(buf, high, s, zeros, i);
    }
    return -1;
  }

  method CountOnes(s: string) returns (ones: nat)
    ensures ones <= |s| && (forall i :: 0 <= i < ones ==> s[i] == '1') && (ones < |s| ==> s[ones] != '1')
  {
    ones := 0;
    while ones < |s| && s[ones] == '1'
      invariant ones <= |s| && forall i :: 0 <= i < ones ==> s[i] == '1'
    {
      ones := ones + 1;
    }
  }

  method Decode(s: string) returns (d: DecodeResult)
    ensures d == Decoding(s)
    ensures d.Decoded? <==> AllAllowed(s)
  {
    DecodingMeaning(s);
    ReverseOfSymbol(0);
    var zeros := CountOnes(s);
    var buf, bad := FillBytes(s, zeros);
    if bad != -1 {
      return InvalidCharacter(bad);
    }
    assert s[..|s|] == s;
    LeadingOnes(s, zeros);
    ConversionDone(Indices(s), zeros, buf[..], 58, 256);
    var j := SkipZeros(buf);
    var out := CopyTail(buf, j, zeros);
    d := Decoded(out);
  }

  /** `zeros` zero bytes followed by the buffer from j on. */
  method CopyTail(buf: array<nat>, j: nat, zeros: nat) returns (bytes: seq<Byte>)
    requires j <= buf.Length && AreDigits(buf[..], 256)
    ensures bytes == Zeros(zeros) + buf[..][j..]
  {
    assert forall i :: 0 <= i < buf.Length ==> buf[..][i] < 256;
    var out := new Byte[zeros + (buf.Length - j)](_ => 0);
    for i := zeros to out.Length
      invariant forall k :: 0 <= k < zeros ==> out[k] == 0
      invariant forall k :: zeros <= k < i ==> out[k] == buf[j + (k - zeros)]
    {
      out[i] := buf[j + (i - zeros)];
    }
    bytes := out[..];
  }

  lemma LeadingOnes(s: string, zeros: nat)
    requires InAlphabet(s) && zeros <= |s|
    requires forall i :: 0 <= i < zeros ==> s[i] == '1'
    requires zeros < |s| ==> s[zeros] != '1'
    ensures LeadingZeros(Indices(s)) == zeros
  {
    ReverseOfSymbol(0);
    var ds := Indices(s);
    assert forall i :: 0 <= i < zeros ==> ds[i] == 0;
    assert zeros < |s| ==> ds[zeros] != 0;
  }
}
