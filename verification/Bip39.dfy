/** BIP39 recovery phrases (go/internal/bip39/bip39.go), for an arbitrary hash. */
module Bip39 {
  import opened Wrappers
  import opened Positional

  datatype PhraseError = BadLength | BadWordCount | UnknownWord(word: string) | ChecksumMismatch

  // ---- Fixed-width bit strings ----

  /** The w low bits of x, most significant first. */
  function ToBits(x: nat, w: nat): (b: seq<nat>)
    ensures |b| == w && AreDigits(b, 2)
  {
    if w == 0 then [] else ToBits(x / 2, w - 1) + [x % 2]
  }

  lemma {:induction false} ValueOfToBits(x: nat, w: nat)
    requires x < Pow(2, w)
    ensures Value(ToBits(x, w), 2) == x
  {
    if w > 0 {
      ValueOfToBits(x / 2, w - 1);
      var b := ToBits(x, w);
      assert b[..w - 1] == ToBits(x / 2, w - 1);
    }
  }

  lemma {:induction false} ToBitsOfValue(b: seq<nat>)
    requires AreDigits(b, 2)
    ensures ToBits(Value(b, 2), |b|) == b
    decreases |b|
  {
    if b != [] {
      var t := b[..|b| - 1];
      ToBitsOfValue(t);
      assert b == t + [b[|b| - 1]];
    }
  }

  /** x >> p & 1. */
  function Bit(x: nat, p: nat): nat { (x / Pow(2, p)) % 2 }

  lemma {:induction false} ToBitsAt(x: nat, w: nat, i: nat)
    requires i < w
    ensures ToBits(x, w)[i] == Bit(x, w - 1 - i)
    decreases w
  {
    if i < w - 1 {
      ToBitsAt(x / 2, w - 1, i);
      HalvingShifts(x, w - 2 - i);
    } else {
      assert x / Pow(2, 0) == x;
    }
  }

  lemma HalvingShifts(x: nat, p: nat)
    ensures (x / 2) / Pow(2, p) == x / Pow(2, p + 1)
  {
    HalvingDivides(x, Pow(2, p), Pow(2, p + 1));
  }

  lemma HalvingDivides(x: nat, q: nat, d: nat)
    requires q > 0 && d == 2 * q
    ensures (x / 2) / q == x / d
  {
    var n, r := Euclid(x, d);
    HalvingFrom(x, q, d, n, r);
  }

  lemma Euclid(x: nat, d: nat) returns (n: nat, r: nat)
    requires d > 0
    ensures n == x / d && x == n * d + r && r < d
  {
    n, r := x / d, x % d;
  }

  lemma HalvingFrom(x: nat, q: nat, d: nat, n: nat, r: nat)
    requires q > 0 && d == 2 * q && x == n * d + r && r < d
    ensures (x / 2) / q == n
  {
    TwiceProduct(n, q, d);
    HalfOfSum(n * q, r);
    DivModOf(n, r / 2, q);
  }

  lemma TwiceProduct(n: nat, q: nat, d: nat)
    requires d == 2 * q
    ensures n * d == 2 * (n * q)
  {
  }

  lemma HalfOfSum(a: nat, r: nat)
    ensures (2 * a + r) / 2 == a + r / 2
  {
  }

  // ---- Packing ----

  /** The length of n codes of w bits; the program's widths are 8 and 11. */
  function Span(w: nat, n: nat): (r: nat)
    ensures w == 8 ==> r == 8 * n
    ensures w == 11 ==> r == 11 * n
  {
    if n == 0 then 0 else Span(w, n - 1) + w
  }

  lemma {:induction false} SpanMonotone(w: nat, k: nat, n: nat)
    requires k <= n
    ensures Span(w, k) <= Span(w, n)
    decreases n
  {
    if k < n {
      SpanMonotone(w, k, n - 1);
    }
  }

  /** Concatenated w-bit big-endian codes. */
  function Unpack(xs: seq<nat>, w: nat): (b: seq<nat>)
    ensures |b| == Span(w, |xs|) && AreDigits(b, 2)
  {
    if xs == [] then [] else
      Unpack(xs[..|xs| - 1], w) + ToBits(xs[|xs| - 1], w)
  }

  /** The n numbers whose w-bit codes make up the bit string. */
  function Pack(b: seq<nat>, w: nat, n: nat): (xs: seq<nat>)
    requires |b| == Span(w, n)
    ensures |xs| == n
    decreases n
  {
    if n == 0 then [] else
      Pack(b[..Span(w, n - 1)], w, n - 1) + [Value(b[Span(w, n - 1)..], 2)]
  }

  lemma PackAppend(t: seq<nat>, c: seq<nat>, w: nat, n: nat)
    requires |t| == Span(w, n) && |c| == w
    ensures |t + c| == Span(w, n + 1) && Pack(t + c, w, n + 1) == Pack(t, w, n) + [Value(c, 2)]
  {
    assert (t + c)[..Span(w, n)] == t && (t + c)[Span(w, n)..] == c;
  }

  lemma UnpackAppend(xs: seq<nat>, x: nat, w: nat)
    ensures Unpack(xs + [x], w) == Unpack(xs, w) + ToBits(x, w)
  {
    var ys := xs + [x];
    assert ys[..|ys| - 1] == xs;
  }

  lemma {:induction false} PackOfUnpack(xs: seq<nat>, w: nat)
    requires AreDigits(xs, Pow(2, w))
    ensures Pack(Unpack(xs, w), w, |xs|) == xs
    decreases |xs|
  {
    if xs != [] {
      var t, x := xs[..|xs| - 1], xs[|xs| - 1];
      assert xs == t + [x];
      PackOfUnpack(t, w);
      PackOfUnpackStep(t, x, w);
    }
  }

  lemma {:induction false} PackOfUnpackStep(t: seq<nat>, x: nat, w: nat)
    requires x < Pow(2, w) && Pack(Unpack(t, w), w, |t|) == t
    ensures Pack(Unpack(t + [x], w), w, |t| + 1) == t + [x]
  {
    ValueOfToBits(x, w);
    UnpackAppend(t, x, w);
    PackAppend(Unpack(t, w), ToBits(x, w), w, |t|);
  }

  lemma {:induction false} UnpackOfPack(b: seq<nat>, w: nat, n: nat)
    requires |b| == Span(w, n) && AreDigits(b, 2)
    ensures Unpack(Pack(b, w, n), w) == b && AreDigits(Pack(b, w, n), Pow(2, w))
    decreases n, 0
  {
    if n > 0 {
      UnpackOfPackStep(b[..Span(w, n - 1)], b[Span(w, n - 1)..], w, n - 1);
      assert b == b[..Span(w, n - 1)] + b[Span(w, n - 1)..];
    }
  }

  lemma {:induction false} UnpackOfPackStep(t: seq<nat>, c: seq<nat>, w: nat, n: nat)
    requires |t| == Span(w, n) && |c| == w && AreDigits(t, 2) && AreDigits(c, 2)
    ensures |t + c| == Span(w, n + 1)
    ensures Unpack(Pack(t + c, w, n + 1), w) == t + c && AreDigits(Pack(t + c, w, n + 1), Pow(2, w))
    decreases n, 1
  {
    UnpackOfPack(t, w, n);
    PackAppend(t, c, w, n);
    UnpackAppend(Pack(t, w, n), Value(c, 2), w);
    ToBitsOfValue(c);
    ValueBound(c, 2);
  }

  lemma {:induction false} UnpackAt(xs: seq<nat>, w: nat, k: nat, i: nat)
    requires k < |xs| && i < w
    ensures 0 <= Span(w, k) + i < |Unpack(xs, w)| && Unpack(xs, w)[Span(w, k) + i] == Bit(xs[k], w - 1 - i)
    decreases |xs|
  {
    var n := |xs| - 1;
    var t := Unpack(xs[..n], w);
    assert |t| == Span(w, n);
    if k == n {
      ToBitsAt(xs[n], w, i);
      assert Unpack(xs, w)[Span(w, n) + i] == ToBits(xs[n], w)[i];
    } else {
      UnpackAt(xs[..n], w, k, i);
      assert Unpack(xs, w)[Span(w, k) + i] == t[Span(w, k) + i];
    }
  }

  // ---- Word lists and phrases ----

  predicate IsSpace(c: char) {
    var u := c as int;
    9 <= u <= 13 || u == 0x20 || u == 0x85 || u == 0xA0 || u == 0x1680 || 0x2000 <= u <= 0x200A
    || u == 0x2028 || u == 0x2029 || u == 0x202F || u == 0x205F || u == 0x3000
  }

  predicate IsWord(s: string) { s != "" && forall i :: 0 <= i < |s| ==> !IsSpace(s[i]) }

  /** 2048 distinct words. */
  ghost predicate GoodList(list: seq<string>) {
    && |list| == 2048
    && (forall i :: 0 <= i < |list| ==> IsWord(list[i]))
    && (forall i, j :: 0 <= i < |list| && 0 <= j < |list| && list[i] == list[j] ==> i == j)
  }

  /** strings.Join(words, " "). */
  function Join(words: seq<string>): string {
    if words == [] then "" else if |words| == 1 then words[0] else words[0] + ([' '] + Join(words[1..]))
  }

  function WordLength(s: string): (n: nat)
    ensures n <= |s| && (forall i :: 0 <= i < n ==> !IsSpace(s[i])) && (n < |s| ==> IsSpace(s[n]))
  {
    if s == "" || IsSpace(s[0]) then 0 else 1 + WordLength(s[1..])
  }

  /** strings.Fields. */
  function Fields(s: string): (ws: seq<string>)
    ensures forall i :: 0 <= i < |ws| ==> IsWord(ws[i])
    decreases |s|
  {
    if s == "" then []
    else if IsSpace(s[0]) then Fields(s[1..])
    else var n := WordLength(s); [s[..n]] + Fields(s[n..])
  }

  lemma WordLengthOf(w: string, rest: string)
    requires IsWord(w) && (rest != "" ==> IsSpace(rest[0]))
    ensures WordLength(w + rest) == |w|
  {
    var s := w + rest;
    var n := WordLength(s);
    assert forall i :: 0 <= i < |w| ==> s[i] == w[i];
    assert rest != "" ==> s[|w|] == rest[0];
  }

  lemma {:induction false} FieldsOfJoin(words: seq<string>)
    requires forall i :: 0 <= i < |words| ==> IsWord(words[i])
    ensures Fields(Join(words)) == words
  {
    if |words| == 1 {
      WordLengthOf(words[0], "");
      assert words[0] + "" == words[0];
      assert Fields(words[0]) == [words[0][..|words[0]|]] + Fields(words[0][|words[0]|..]);
    } else if |words| > 1 {
      var rest := [' '] + Join(words[1..]);
      var s := words[0] + rest;
      FieldsOfJoin(words[1..]);
      WordLengthOf(words[0], rest);
      assert s[..|words[0]|] == words[0] && s[|words[0]|..] == rest;
      assert rest[1..] == Join(words[1..]);
      assert words == [words[0]] + words[1..];
    }
  }

  // ---- Specification ----

  predicate LegalEntropy(n: nat) { 16 <= n <= 32 && n % 4 == 0 }

  predicate LegalWordCount(n: nat) { 12 <= n <= 24 && n % 3 == 0 }

  /** entropy || first n/4 bits of its hash. */
  function CodeBits(entropy: seq<Byte>, hash: seq<Byte> -> Digest): (b: seq<nat>)
    requires LegalEntropy(|entropy|)
    ensures |b| == 33 * (|entropy| / 4) && AreDigits(b, 2)
  {
    Unpack(entropy, 8) + Unpack(hash(entropy), 8)[..|entropy| / 4]
  }

  function WordIndices(entropy: seq<Byte>, hash: seq<Byte> -> Digest): (xs: seq<nat>)
    requires LegalEntropy(|entropy|)
    ensures |xs| == 3 * (|entropy| / 4) && LegalWordCount(|xs|)
  {
    WordCountOf(|entropy|);
    Pack(CodeBits(entropy, hash), 11, 3 * (|entropy| / 4))
  }

  lemma IndicesInRange(entropy: seq<Byte>, hash: seq<Byte> -> Digest)
    requires LegalEntropy(|entropy|)
    ensures AreDigits(WordIndices(entropy, hash), 2048)
  {
    UnpackOfPack(CodeBits(entropy, hash), 11, 3 * (|entropy| / 4));
    assert Pow(2, 11) == 2048;
  }

  function WordsAt(list: seq<string>, xs: seq<nat>): (ws: seq<string>)
    requires AreDigits(xs, |list|)
    ensures |ws| == |xs| && forall i :: 0 <= i < |ws| ==> ws[i] == list[xs[i]]
  {
    seq(|xs|, i requires 0 <= i < |xs| => list[xs[i]])
  }

  /** What EntropyToMnemonic must return. */
  ghost function Mnemonic(list: seq<string>, entropy: seq<Byte>, hash: seq<Byte> -> Digest): Result<string, PhraseError>
    requires GoodList(list)
  {
    if !LegalEntropy(|entropy|) then Err(BadLength) else
      IndicesInRange(entropy, hash);
      Ok(Join(WordsAt(list, WordIndices(entropy, hash))))
  }

  /** The word's index in the list, or -1. */
  ghost function IndexOf(list: seq<string>, w: string): (i: int)
    ensures -1 <= i < |list| && (i >= 0 ==> list[i] == w) && (i == -1 ==> w !in list)
  {
    if w in list then var i :| 0 <= i < |list| && list[i] == w; i else -1
  }

  ghost function FirstUnknown(list: seq<string>, ws: seq<string>): (k: nat)
    ensures k <= |ws| && (forall i :: 0 <= i < k ==> ws[i] in list) && (k < |ws| ==> ws[k] !in list)
  {
    if ws == [] || ws[0] !in list then 0 else 1 + FirstUnknown(list, ws[1..])
  }

  ghost function IndicesOf(list: seq<string>, ws: seq<string>): (xs: seq<nat>)
    requires forall i :: 0 <= i < |ws| ==> ws[i] in list
    ensures |xs| == |ws| && AreDigits(xs, |list|) && forall i :: 0 <= i < |ws| ==> list[xs[i]] == ws[i]
  {
    seq(|ws|, i requires 0 <= i < |ws| => IndexOf(list, ws[i]))
  }

  /** Eight bits are a byte. */
  lemma PackedAreBytes(b: seq<nat>, n: nat)
    requires |b| == 8 * n && AreDigits(b, 2)
    ensures forall i :: 0 <= i < n ==> Pack(b, 8, n)[i] < 256
  {
    UnpackOfPack(b, 8, n);
    assert Pow(2, 8) == 256;
  }

  /** The entropy in 33 m code bits, if its checksum matches. */
  function EntropyFrom(b: seq<nat>, m: nat, hash: seq<Byte> -> Digest): (r: Result<seq<Byte>, PhraseError>)
    requires 4 <= m <= 8 && |b| == 33 * m && AreDigits(b, 2)
    ensures r.Ok? ==> |r.value| == 4 * m && LegalEntropy(|r.value|) && |r.value| / 4 == m
  {
    FourBytesPerStep(m);
    PackedAreBytes(b[..32 * m], 4 * m);
    var e: seq<Byte> := Pack(b[..32 * m], 8, 4 * m);
    if b[32 * m..] == Unpack(hash(e), 8)[..m] then Ok(e) else Err(ChecksumMismatch)
  }

  function EntropyOf(xs: seq<nat>, hash: seq<Byte> -> Digest): (r: Result<seq<Byte>, PhraseError>)
    requires LegalWordCount(|xs|)
    ensures r.Ok? ==> LegalEntropy(|r.value|) && |r.value| == 4 * (|xs| / 3)
  {
    EntropyFrom(Unpack(xs, 11), |xs| / 3, hash)
  }

  /** What MnemonicToEntropy must return. */
  ghost function Entropy(list: seq<string>, mnemonic: string, hash: seq<Byte> -> Digest)
    : Result<seq<Byte>, PhraseError>
  {
    var ws := Fields(mnemonic);
    if !LegalWordCount(|ws|) then Err(BadWordCount)
    else if FirstUnknown(list, ws) < |ws| then Err(UnknownWord(ws[FirstUnknown(list, ws)]))
    else EntropyOf(IndicesOf(list, ws), hash)
  }

  // ---- The two are inverse to each other ----

  lemma SplitCode(e: seq<Byte>, hash: seq<Byte> -> Digest, b: seq<nat>)
    requires LegalEntropy(|e|) && b == CodeBits(e, hash)
    ensures b[..32 * (|e| / 4)] == Unpack(e, 8)
    ensures b[32 * (|e| / 4)..] == Unpack(hash(e), 8)[..|e| / 4]
  {
  }

  lemma BytesRepack(e: seq<Byte>)
    ensures Pack(Unpack(e, 8), 8, |e|) == e
  {
    assert Pow(2, 8) == 256;
    AreBytes(e);
    PackOfUnpack(e, 8);
  }

  lemma {:induction false} EntropyFromCode(entropy: seq<Byte>, hash: seq<Byte> -> Digest, m: nat)
    requires LegalEntropy(|entropy|) && m == |entropy| / 4
    ensures EntropyFrom(CodeBits(entropy, hash), m, hash) == Ok(entropy)
  {
    SplitCode(entropy, hash, CodeBits(entropy, hash));
    BytesRepack(entropy);
    EntropyFromParts(CodeBits(entropy, hash), m, hash, entropy);
  }

  lemma {:induction false} EntropyFromParts(b: seq<nat>, m: nat, hash: seq<Byte> -> Digest, e: seq<Byte>)
    requires 4 <= m <= 8 && |b| == 33 * m && AreDigits(b, 2)
    requires Pack(b[..32 * m], 8, 4 * m) == e && b[32 * m..] == Unpack(hash(e), 8)[..m]
    ensures EntropyFrom(b, m, hash) == Ok(e)
  {
  }

  lemma WordCountOf(n: nat)
    requires LegalEntropy(n)
    ensures 4 <= n / 4 <= 8 && LegalWordCount(3 * (n / 4)) && 3 * (n / 4) / 3 == n / 4
  {
  }

  lemma {:induction false} EntropyOfIndices(entropy: seq<Byte>, hash: seq<Byte> -> Digest)
    requires LegalEntropy(|entropy|)
    ensures EntropyOf(WordIndices(entropy, hash), hash) == Ok(entropy)
  {
    var m := |entropy| / 4;
    WordCountOf(|entropy|);
    EntropyFromCode(entropy, hash, m);
    PackedDecodes(WordIndices(entropy, hash), CodeBits(entropy, hash), m, hash, entropy);
  }

  lemma {:induction false} PackedDecodes(xs: seq<nat>, b: seq<nat>, m: nat, hash: seq<Byte> -> Digest, e: seq<Byte>)
    requires 4 <= m <= 8 && |b| == 33 * m && AreDigits(b, 2) && EntropyFrom(b, m, hash) == Ok(e)
    requires xs == Pack(b, 11, 3 * m) && LegalWordCount(3 * m) && 3 * m / 3 == m
    ensures EntropyOf(xs, hash) == Ok(e)
  {
    UnpackOfPack(b, 11, 3 * m);
    EntropyOfCode(xs, b, m, hash, e);
  }

  lemma EntropyOfCode(xs: seq<nat>, b: seq<nat>, m: nat, hash: seq<Byte> -> Digest, e: seq<Byte>)
    requires LegalWordCount(|xs|) && |xs| / 3 == m && Unpack(xs, 11) == b
    requires 4 <= m <= 8 && |b| == 33 * m && AreDigits(b, 2) && EntropyFrom(b, m, hash) == Ok(e)
    ensures EntropyOf(xs, hash) == Ok(e)
  {
  }

  lemma CodeSplits(b: seq<nat>, k: nat, x: seq<nat>, y: seq<nat>)
    requires k <= |b| && x == b[..k] && y == b[k..]
    ensures x + y == b
  {
  }

  lemma CodeOfEntropy(b: seq<nat>, m: nat, hash: seq<Byte> -> Digest)
    requires 4 <= m <= 8 && |b| == 33 * m && AreDigits(b, 2) && EntropyFrom(b, m, hash).Ok?
    ensures CodeBits(EntropyFrom(b, m, hash).value, hash) == b
  {
    var e := EntropyFrom(b, m, hash).value;
    UnpackOfPack(b[..32 * m], 8, 4 * m);
    CodeSplits(b, 32 * m, Unpack(e, 8), Unpack(hash(e), 8)[..m]);
  }

  lemma FourBytesPerStep(m: nat)
    requires 4 <= m <= 8
    ensures LegalEntropy(4 * m) && 4 * m / 4 == m
  {
  }

  lemma IndicesOfEntropy(xs: seq<nat>, hash: seq<Byte> -> Digest)
    requires LegalWordCount(|xs|) && AreDigits(xs, 2048) && EntropyOf(xs, hash).Ok?
    ensures WordIndices(EntropyOf(xs, hash).value, hash) == xs
  {
    CodeOfEntropy(Unpack(xs, 11), |xs| / 3, hash);
    assert Pow(2, 11) == 2048;
    PackOfUnpack(xs, 11);
  }

  lemma IndicesOfWordsAt(list: seq<string>, xs: seq<nat>)
    requires GoodList(list) && AreDigits(xs, 2048)
    ensures FirstUnknown(list, WordsAt(list, xs)) == |xs|
    ensures IndicesOf(list, WordsAt(list, xs)) == xs
  {
    var ws := WordsAt(list, xs);
    forall i | 0 <= i < |ws| ensures ws[i] in list && IndexOf(list, ws[i]) == xs[i] { assert list[xs[i]] == ws[i]; }
  }

  /** For every legal entropy and every hash, the phrase decodes to the entropy. */
  lemma {:induction false} EntropyAfterMnemonic(list: seq<string>, entropy: seq<Byte>, hash: seq<Byte> -> Digest)
    requires GoodList(list) && LegalEntropy(|entropy|)
    ensures Mnemonic(list, entropy, hash).Ok?
    ensures Entropy(list, Mnemonic(list, entropy, hash).value, hash) == Ok(entropy)
  {
    IndicesInRange(entropy, hash);
    WordCountOf(|entropy|);
    EntropyOfIndices(entropy, hash);
    PhraseReadsBack(list, WordIndices(entropy, hash), hash, entropy);
  }

  lemma {:induction false} PhraseReadsBack(list: seq<string>, xs: seq<nat>, hash: seq<Byte> -> Digest, e: seq<Byte>)
    requires GoodList(list) && AreDigits(xs, 2048) && LegalWordCount(|xs|) && EntropyOf(xs, hash) == Ok(e)
    ensures Entropy(list, Join(WordsAt(list, xs)), hash) == Ok(e)
  {
    FieldsOfJoin(WordsAt(list, xs));
    IndicesOfWordsAt(list, xs);
  }

  /** Conversely, an accepted phrase is, up to its white space, exactly what is
      rendered for the entropy it decodes to. */
  lemma {:induction false} MnemonicAfterEntropy(list: seq<string>, mnemonic: string, hash: seq<Byte> -> Digest)
    requires GoodList(list) && Entropy(list, mnemonic, hash).Ok?
    ensures Mnemonic(list, Entropy(list, mnemonic, hash).value, hash) == Ok(Join(Fields(mnemonic)))
  {
    var ws := Fields(mnemonic);
    var xs := IndicesOf(list, ws);
    assert WordsAt(list, xs) == ws;
    RenderedAgain(list, xs, hash);
  }

  lemma {:induction false} RenderedAgain(list: seq<string>, xs: seq<nat>, hash: seq<Byte> -> Digest)
    requires GoodList(list) && AreDigits(xs, 2048) && LegalWordCount(|xs|) && EntropyOf(xs, hash).Ok?
    ensures Mnemonic(list, EntropyOf(xs, hash).value, hash) == Ok(Join(WordsAt(list, xs)))
  {
    IndicesOfEntropy(xs, hash);
  }

  // ---- The loops ----

  lemma EntropyLength(n: nat)
    requires LegalEntropy(n)
    ensures n * 8 == 32 * (n / 4)
  {
  }

  lemma {:induction false} EntropyBitAt(entropy: seq<Byte>, hash: seq<Byte> -> Digest, i: nat)
    requires LegalEntropy(|entropy|) && i < |entropy| * 8
    ensures i < |CodeBits(entropy, hash)| && CodeBits(entropy, hash)[i] == Bit(entropy[i / 8], 7 - i % 8)
  {
    UnpackBit(entropy, i);
    var a, b := Unpack(entropy, 8), Unpack(hash(entropy), 8)[..|entropy| / 4];
    assert CodeBits(entropy, hash) == a + b;
  }

  /** Bit i of a byte string, read as the program does. */
  lemma {:induction false} UnpackBit(bytes: seq<Byte>, i: nat)
    requires i < 8 * |bytes|
    ensures |Unpack(bytes, 8)| == 8 * |bytes| && i / 8 < |bytes|
    ensures Unpack(bytes, 8)[i] == Bit(bytes[i / 8], 7 - i % 8)
  {
    var k, r := ByteAndBit(i);
    UnpackAt(bytes, 8, k, r);
  }

  lemma ByteAndBit(i: nat) returns (k: nat, r: nat)
    ensures k == i / 8 && r == i % 8 && i == 8 * k + r && r < 8
  {
    k, r := i / 8, i % 8;
  }

  lemma {:induction false} DigestBitAt(digest: Digest, j: nat)
    requires j < 256
    ensures |Unpack(digest, 8)| == 256 && j / 8 < 32 && Unpack(digest, 8)[j] == Bit(digest[j / 8], 7 - j % 8)
  {
    UnpackBit(digest, j);
  }

  lemma {:induction false} ChecksumBitAt(entropy: seq<Byte>, hash: seq<Byte> -> Digest, j: nat)
    requires LegalEntropy(|entropy|) && j < |entropy| / 4
    ensures j / 8 < 32 && |entropy| * 8 + j < |CodeBits(entropy, hash)|
    ensures CodeBits(entropy, hash)[|entropy| * 8 + j] == Bit(hash(entropy)[j / 8], 7 - j % 8)
  {
    DigestBitAt(hash(entropy), j);
    var a, b := Unpack(entropy, 8), Unpack(hash(entropy), 8)[..|entropy| / 4];
    assert CodeBits(entropy, hash) == a + b && |a| == |entropy| * 8;
    assert (a + b)[|a| + j] == b[j];
  }

  lemma GroupValue(b: seq<nat>, w: nat, n: nat, k: nat)
    requires |b| == Span(w, n) && k < n
    ensures 0 <= Span(w, k) <= Span(w, k + 1) <= |b|
    ensures Pack(b, w, n)[k] == Value(b[Span(w, k)..Span(w, k + 1)], 2)
    decreases n
  {
    SpanMonotone(w, k + 1, n);
    if k < n - 1 {
      GroupValue(b[..Span(w, n - 1)], w, n - 1, k);
      assert b[..Span(w, n - 1)][Span(w, k)..Span(w, k + 1)] == b[Span(w, k)..Span(w, k + 1)];
    } else {
      assert b[Span(w, n - 1)..] == b[Span(w, k)..Span(w, k + 1)];
    }
  }

  /** Bit i of entropy followed by checksum, read out of the two byte strings. */
  method ReadBit(entropy: seq<Byte>, digest: Digest, i: nat, ghost hash: seq<Byte> -> Digest) returns (bit: nat)
    requires LegalEntropy(|entropy|) && digest == hash(entropy) && i < |CodeBits(entropy, hash)|
    ensures bit == CodeBits(entropy, hash)[i]
  {
    EntropyLength(|entropy|);
    if i < |entropy| * 8 {
      EntropyBitAt(entropy, hash, i);
      bit := Bit(entropy[i / 8], 7 - i % 8);
    } else {
      var j := i - |entropy| * 8;
      ChecksumBitAt(entropy, hash, j);
      bit := Bit(digest[j / 8], 7 - j % 8);
    }
  }

  /** idx = idx << 1 | bit, eleven times. */
  lemma OneBitMore(bits: seq<nat>, at: nat, b: nat)
    requires at + b < |bits|
    ensures Value(bits[at..at + b + 1], 2) == Value(bits[at..at + b], 2) * 2 + bits[at + b]
  {
    assert bits[at..at + b + 1] == bits[at..at + b] + [bits[at + b]];
    ValueSnoc(bits[at..at + b], bits[at + b], 2);
  }

  /** Bit i of the entropy followed by its checksum, most significant bit of each byte first. */
  function CodeBit(entropy: seq<Byte>, digest: Digest, i: nat): nat
    requires i < 8 * |entropy| + 256
  {
    if i < 8 * |entropy| then (entropy[i / 8] / Pow(2, 7 - i % 8)) % 2
    else (digest[(i - 8 * |entropy|) / 8] / Pow(2, 7 - (i - 8 * |entropy|) % 8)) % 2
  }

  lemma {:induction false} CodeBitsAre(entropy: seq<Byte>, hash: seq<Byte> -> Digest, i: nat)
    requires LegalEntropy(|entropy|) && i < 33 * (|entropy| / 4)
    ensures CodeBits(entropy, hash)[i] == CodeBit(entropy, hash(entropy), i)
  {
    EntropyLength(|entropy|);
    if i < |entropy| * 8 {
      EntropyBitAt(entropy, hash, i);
    } else {
      ChecksumBitAt(entropy, hash, i - |entropy| * 8);
    }
  }

  /** Bit b, counted from the top, of the number that w bits denote. */
  lemma BitOfValue(bits: seq<nat>, b: nat)
    requires AreDigits(bits, 2) && b < |bits|
    ensures (Value(bits, 2) / Pow(2, |bits| - 1 - b)) % 2 == bits[b]
  {
    ToBitsOfValue(bits);
    ToBitsAt(Value(bits, 2), |bits|, b);
  }

  lemma {:induction false} IndexBit(entropy: seq<Byte>, hash: seq<Byte> -> Digest, w: nat, b: nat)
    requires LegalEntropy(|entropy|) && w < 3 * (|entropy| / 4) && b < 11
    ensures 11 * w + b < 33 * (|entropy| / 4) <= 8 * |entropy| + 256
    ensures (WordIndices(entropy, hash)[w] / Pow(2, 10 - b)) % 2 == CodeBit(entropy, hash(entropy), 11 * w + b)
  {
    IndexIsGroup(entropy, hash, w);
    var group := CodeBits(entropy, hash)[11 * w..11 * w + 11];
    EntropyLength(|entropy|);
    BitOfValue(group, b);
    CodeBitsAre(entropy, hash, 11 * w + b);
  }

  /**
    The phrase of a legal entropy, word by word and bit by bit: it has three words for every
    four bytes, and bit b of the number of word w is bit 11 w + b of entropy and checksum.
  */
  lemma {:induction false} PhraseMeaning(list: seq<string>, entropy: seq<Byte>, hash: seq<Byte> -> Digest,
                                         w: nat, b: nat) returns (idx: nat)
    requires GoodList(list) && LegalEntropy(|entropy|) && w < 3 * (|entropy| / 4) && b < 11
    ensures Mnemonic(list, entropy, hash).Ok?
    ensures var words := Fields(Mnemonic(list, entropy, hash).value);
            |words| == 3 * (|entropy| / 4) && idx < 2048 && words[w] == list[idx]
    ensures 11 * w + b < 8 * |entropy| + 256
    ensures (idx / Pow(2, 10 - b)) % 2 == CodeBit(entropy, hash(entropy), 11 * w + b)
  {
    IndicesInRange(entropy, hash);
    var xs := WordIndices(entropy, hash);
    idx := xs[w];
    FieldsOfJoin(WordsAt(list, xs));
    IndexBit(entropy, hash, w, b);
  }

  /** Why a phrase is refused: its number of words, else its first unknown word, else its checksum. */
  lemma {:induction false} RefusalReasons(list: seq<string>, mnemonic: string, hash: seq<Byte> -> Digest, k: nat)
    ensures var r, ws := Entropy(list, mnemonic, hash), Fields(mnemonic);
            && (r == Err(BadWordCount) <==> |ws| !in {12, 15, 18, 21, 24})
            && (r != Err(BadWordCount) && k < |ws| && ws[k] !in list && (forall i :: 0 <= i < k ==> ws[i] in list) ==>
                  r == Err(UnknownWord(ws[k])))
            && (r != Err(BadWordCount) && (forall i :: 0 <= i < |ws| ==> ws[i] in list) ==>
                  r.Ok? || r == Err(ChecksumMismatch))
  {
    var ws := Fields(mnemonic);
    LegalCounts(|ws|);
    var u := FirstUnknown(list, ws);
    assert k < |ws| && ws[k] !in list && (forall i :: 0 <= i < k ==> ws[i] in list) ==> u == k;
  }

  lemma LegalCounts(n: nat)
    ensures LegalWordCount(n) <==> n in {12, 15, 18, 21, 24}
  {
  }

  lemma {:induction false} IndexIsGroup(entropy: seq<Byte>, hash: seq<Byte> -> Digest, w: nat)
    requires LegalEntropy(|entropy|) && w < 3 * (|entropy| / 4)
    ensures 11 * w + 11 <= |CodeBits(entropy, hash)| == 33 * (|entropy| / 4)
    ensures WordIndices(entropy, hash)[w] == Value(CodeBits(entropy, hash)[11 * w..11 * w + 11], 2)
  {
    GroupValue(CodeBits(entropy, hash), 11, 3 * (|entropy| / 4), w);
  }

  method ReadIndex(entropy: seq<Byte>, digest: Digest, w: nat, ghost hash: seq<Byte> -> Digest) returns (idx: nat)
    requires LegalEntropy(|entropy|) && digest == hash(entropy) && w < 3 * (|entropy| / 4)
    ensures idx == WordIndices(entropy, hash)[w]
  {
    IndexIsGroup(entropy, hash, w);
    idx := ReadGroup(entropy, digest, w * 11, hash);
  }

  /** The eleven bits from `at` on, as a number. */
  method ReadGroup(entropy: seq<Byte>, digest: Digest, at: nat, ghost hash: seq<Byte> -> Digest) returns (idx: nat)
    requires LegalEntropy(|entropy|) && digest == hash(entropy) && at + 11 <= |CodeBits(entropy, hash)|
    ensures idx == Value(CodeBits(entropy, hash)[at..at + 11], 2)
  {
    ghost var bits := CodeBits(entropy, hash);
    idx := 0;
    assert bits[at..at] == [];
    for b := 0 to 11
      invariant idx == Value(bits[at..at + b], 2)
    {
      var bit := ReadBit(entropy, digest, at + b, hash);
      OneBitMore(bits, at, b);
      idx := idx * 2 + bit;
    }
  }

  method EntropyToMnemonic(list: seq<string>, entropy: seq<Byte>, hash: seq<Byte> -> Digest)
      returns (r: Result<string, PhraseError>)
    requires GoodList(list)
    ensures r == Mnemonic(list, entropy, hash)
  {
    var n := |entropy|;
    if n < 16 || n > 32 || n % 4 != 0 {
      return Err(BadLength);
    }
    IndicesInRange(entropy, hash);
    ghost var xs := WordIndices(entropy, hash);
    var count := (n * 8 + n * 8 / 32) / 11;
    assert count == |xs|;
    var words: seq<string> := [];
    for w := 0 to count
      invariant |words| == w && forall i :: 0 <= i < w ==> words[i] == list[xs[i]]
    {
      var idx := ReadIndex(entropy, hash(entropy), w, hash);
      words := words + [list[idx]];
    }
    assert words == WordsAt(list, xs);
    r := Ok(Join(words));
  }

  /** The index of a word, as the reverse map gives it. */
  method LookUp(list: seq<string>, w: string) returns (i: int)
    requires GoodList(list)
    ensures i == IndexOf(list, w)
  {
    for k := 0 to |list|
      invariant forall j :: 0 <= j < k ==> list[j] != w
    {
      if list[k] == w {
        assert list[IndexOf(list, w)] == w;
        return k;
      }
    }
    i := -1;
  }

  lemma LowBits(idx: nat, b: nat)
    requires b <= 10
    ensures ToBits(idx, 11)[10 - b] == Bit(idx, b)
  {
    ToBitsAt(idx, 11, 10 - b);
  }

  /** The eleven appends of one word's bits, high to low. */
  method AppendBits(bits: seq<nat>, idx: nat) returns (r: seq<nat>)
    ensures r == bits + ToBits(idx, 11)
  {
    r := bits;
    ghost var all := ToBits(idx, 11);
    for k := 0 to 11
      invariant r == bits + all[..k]
    {
      LowBits(idx, 10 - k);
      assert all[..k + 1] == all[..k] + [all[k]];
      r := r + [Bit(idx, 10 - k)];
    }
    assert all[..11] == all;
  }

  lemma FirstUnknownIs(list: seq<string>, ws: seq<string>, i: nat)
    requires i < |ws| && ws[i] !in list && forall k :: 0 <= k < i ==> ws[k] in list
    ensures FirstUnknown(list, ws) == i
  {
  }

  lemma AllKnown(list: seq<string>, ws: seq<string>, xs: seq<nat>)
    requires |xs| == |ws| && forall k :: 0 <= k < |ws| ==> ws[k] in list && xs[k] == IndexOf(list, ws[k])
    ensures FirstUnknown(list, ws) == |ws| && xs == IndicesOf(list, ws)
  {
  }

  method ReadWords(list: seq<string>, ws: seq<string>) returns (bits: seq<nat>, unknown: int)
    requires GoodList(list)
    ensures unknown == -1 ==> FirstUnknown(list, ws) == |ws| && bits == Unpack(IndicesOf(list, ws), 11)
    ensures unknown != -1 ==> 0 <= unknown < |ws| && FirstUnknown(list, ws) == unknown
  {
    bits, unknown := [], -1;
    ghost var xs: seq<nat> := [];
    for i := 0 to |ws|
      invariant WordsRead(list, ws, xs, i) && bits == Unpack(xs, 11)
    {
      var idx := LookUp(list, ws[i]);
      if idx < 0 {
        FirstUnknownIs(list, ws, i);
        unknown := i;
        return;
      }
      bits := AppendBits(bits, idx);
      UnpackAppend(xs, idx, 11);
      WordsReadNext(list, ws, xs, i, idx);
      xs := xs + [idx];
    }
    AllKnown(list, ws, xs);
  }

  lemma WordsReadNext(list: seq<string>, ws: seq<string>, xs: seq<nat>, i: nat, idx: nat)
    requires WordsRead(list, ws, xs, i) && i < |ws| && idx == IndexOf(list, ws[i])
    ensures WordsRead(list, ws, xs + [idx], i + 1)
  {
  }

  ghost predicate WordsRead(list: seq<string>, ws: seq<string>, xs: seq<nat>, i: nat) {
    |xs| == i <= |ws| && forall k :: 0 <= k < i ==> ws[k] in list && xs[k] == IndexOf(list, ws[k])
  }

  /** x |= 1 << p, for a bit that may or may not be set already. */
  function SetBit(x: nat, p: nat): nat { if Bit(x, p) == 1 then x else x + Pow(2, p) }

  /** A byte filled with its first k bits, the rest still zero. */
  function Filled(b: seq<nat>, k: nat): nat
    requires k <= 8 && |b| == 8
  {
    Value(b[..k], 2) * Pow(2, 8 - k)
  }

  lemma FillOne(b: seq<nat>, k: nat)
    requires k < 8 && |b| == 8 && AreDigits(b, 2)
    ensures Filled(b, k + 1) == if b[k] == 1 then SetBit(Filled(b, k), 7 - k) else Filled(b, k)
  {
    var v, p := Value(b[..k], 2), Pow(2, 7 - k);
    assert b[..k + 1][..k] == b[..k];
    assert Pow(2, 8 - k) == 2 * p;
    FillArithmetic(v, p, b[k]);
  }

  lemma FillArithmetic(v: nat, p: nat, bit: nat)
    requires p > 0 && bit < 2
    ensures (v * (2 * p) / p) % 2 == 0
    ensures (v * 2 + bit) * p == v * (2 * p) + bit * p
  {
    assert v * (2 * p) == (2 * v) * p + 0;
    DivModOf(2 * v, 0, p);
  }

  method PackByte(bits: seq<nat>) returns (x: nat)
    requires |bits| == 8 && AreDigits(bits, 2)
    ensures x == Value(bits, 2) && x < 256
  {
    x := 0;
    assert bits[..0] == [];
    for k := 0 to 8
      invariant x == Filled(bits, k)
    {
      FillOne(bits, k);
      if bits[k] == 1 {
        x := SetBit(x, 7 - k);
      }
    }
    assert bits[..8] == bits;
    ValueBound(bits, 2);
    assert Pow(2, 8) == 256;
  }

  method MnemonicToEntropy(list: seq<string>, mnemonic: string, hash: seq<Byte> -> Digest)
      returns (r: Result<seq<Byte>, PhraseError>)
    requires GoodList(list)
    ensures r == Entropy(list, mnemonic, hash)
  {
    var ws := Fields(mnemonic);
    var n := |ws|;
    if n < 12 || n > 24 || n % 3 != 0 {
      return Err(BadWordCount);
    }
    var bits, unknown := ReadWords(list, ws);
    if unknown != -1 {
      return Err(UnknownWord(ws[unknown]));
    }
    r := CheckedEntropy(bits, n / 3, hash);
  }

  /** The entropy bytes, filled bit by bit from the first 32 m bits. */
  method PackBytes(bits: seq<nat>, m: nat) returns (entropy: seq<Byte>)
    requires |bits| == 33 * m && AreDigits(bits, 2)
    ensures entropy == Pack(bits[..32 * m], 8, 4 * m)
  {
    entropy := [];
    ghost var head := bits[..32 * m];
    ghost var e := Pack(head, 8, 4 * m);
    for k := 0 to 4 * m
      invariant |entropy| == k && forall i :: 0 <= i < k ==> entropy[i] == e[i]
    {
      var x := PackByte(bits[8 * k..8 * k + 8]);
      GroupValue(head, 8, 4 * m, k);
      assert head[8 * k..8 * (k + 1)] == bits[8 * k..8 * k + 8];
      entropy := entropy + [x];
    }
  }

  method DigestBit(digest: Digest, i: nat) returns (bit: nat)
    requires i < 256
    ensures |Unpack(digest, 8)| == 256 && bit == Unpack(digest, 8)[i]
  {
    DigestBitAt(digest, i);
    bit := Bit(digest[i / 8], 7 - i % 8);
  }

  /** The checksum loop: the last m bits against the first m bits of the digest. */
  method ChecksumMatches(bits: seq<nat>, m: nat, digest: Digest) returns (ok: bool)
    requires m <= 8 && |bits| == 33 * m
    ensures ok <==> bits[32 * m..] == Unpack(digest, 8)[..m]
  {
    ghost var have, want := bits[32 * m..], Unpack(digest, 8)[..m];
    for i := 0 to m
      invariant have[..i] == want[..i]
    {
      var expected := DigestBit(digest, i);
      assert have[i] == bits[32 * m + i] && want[i] == expected;
      if bits[32 * m + i] != expected {
        return false;
      }
      assert have[..i + 1] == have[..i] + [have[i]] && want[..i + 1] == want[..i] + [want[i]];
    }
    ok := true;
  }

  method CheckedEntropy(bits: seq<nat>, m: nat, hash: seq<Byte> -> Digest) returns (r: Result<seq<Byte>, PhraseError>)
    requires 4 <= m <= 8 && |bits| == 33 * m && AreDigits(bits, 2)
    ensures r == EntropyFrom(bits, m, hash)
  {
    var entropy := PackBytes(bits, m);
    AreBytes(entropy);
    var ok := ChecksumMatches(bits, m, hash(entropy));
    r := if ok then Ok(entropy) else Err(ChecksumMismatch);
  }
}
