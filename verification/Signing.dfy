/** The canonical strings an owner key signs (go/internal/identity): grants,
    bindings, and the auth challenges for attach, agent registration and
    revocation. The results say that a signature covers exactly one record. */
module Signing {
  import opened Wrappers
  import opened Positional
  import opened Base58

  // ---- Taking a concatenation apart ----

  /** A separator that occurs in neither field fixes where the field ends. */
  lemma PeelField(a: string, b: string, sep: string, x: string, y: string)
    requires sep != "" && sep[0] !in a && sep[0] !in b
    requires a + (sep + x) == b + (sep + y)
    ensures a == b && x == y
  {
    var l, r := a + (sep + x), b + (sep + y);
    assert l[|a|] == sep[0] && r[|b|] == sep[0];
    PeelSameLength(a, b, sep + x, sep + y);
    PeelSameLength(sep, sep, x, y);
  }

  lemma PeelSameLength(a: string, b: string, x: string, y: string)
    requires |a| == |b| && a + x == b + y
    ensures a == b && x == y
  {
    assert a == (a + x)[..|a|] && b == (b + y)[..|a|];
    assert x == (a + x)[|a|..] && y == (b + y)[|a|..];
  }

  /** A separator absent from both tails fixes the last split point. */
  lemma PeelTail(a: string, b: string, c: char, x: string, y: string)
    requires c !in x && c !in y
    requires a + ([c] + x) == b + ([c] + y)
    ensures a == b && x == y
  {
    var l, r := a + ([c] + x), b + ([c] + y);
    assert l[|a|] == c && r[|b|] == c;
    PeelSameLength(a, b, [c] + x, [c] + y);
    PeelSameLength([c], [c], x, y);
  }

  // ---- Decimal and hexadecimal rendering ----

  const DECIMAL: string := "0123456789"
  const HEX: string := "0123456789abcdef"

  function DigitText(ds: seq<nat>): (s: string)
    requires AreDigits(ds, 10)
    ensures |s| == |ds| && forall i :: 0 <= i < |s| ==> s[i] == DECIMAL[ds[i]]
  {
    seq(|ds|, i requires 0 <= i < |ds| => DECIMAL[ds[i]])
  }

  /** strconv.FormatInt(n, 10). */
  function Decimal(n: int): string {
    if n < 0 then "-" + DigitText(Digits(-n, 10))
    else if n == 0 then "0"
    else DigitText(Digits(n, 10))
  }

  predicate DecimalChar(c: char) { c == '-' || '0' <= c <= '9' }

  lemma DigitTextChars(ds: seq<nat>, i: nat)
    requires AreDigits(ds, 10) && i < |ds|
    ensures '0' <= DigitText(ds)[i] <= '9'
    ensures DigitText(ds)[i] == '0' <==> ds[i] == 0
    ensures DigitText(ds)[i] as int == '0' as int + ds[i]
  {
  }

  lemma DecimalChars(n: int, i: nat)
    requires i < |Decimal(n)|
    ensures DecimalChar(Decimal(n)[i])
  {
    if n < 0 && i > 0 { DigitTextChars(Digits(-n, 10), i - 1); }
    if n > 0 { DigitTextChars(Digits(n, 10), i); }
  }

  lemma DecimalAvoids(n: int, c: char)
    requires !DecimalChar(c)
    ensures c !in Decimal(n)
  {
    forall i | 0 <= i < |Decimal(n)| ensures Decimal(n)[i] != c { DecimalChars(n, i); }
  }

  lemma DigitTextInjective(a: seq<nat>, b: seq<nat>)
    requires AreDigits(a, 10) && AreDigits(b, 10) && DigitText(a) == DigitText(b)
    ensures a == b
  {
    forall i | 0 <= i < |a| ensures a[i] == b[i] { DigitTextChars(a, i); DigitTextChars(b, i); }
  }

  lemma PositiveDecimal(n: int)
    requires n > 0
    ensures Digits(n, 10) != [] && Decimal(n) != "" && Decimal(n)[0] != '0' && Decimal(n)[0] != '-'
  {
    ValueOfDigits(n, 10);
    DigitTextChars(Digits(n, 10), 0);
  }

  /** Different integers are written differently. */
  lemma DecimalInjective(m: int, n: int)
    requires Decimal(m) == Decimal(n)
    ensures m == n
  {
    DecimalSign(m);
    DecimalSign(n);
    if m > 0 && n > 0 {
      MagnitudeInjective(m, n);
    }
    if m < 0 && n < 0 {
      PeelSameLength("-", "-", DigitText(Digits(-m, 10)), DigitText(Digits(-n, 10)));
      MagnitudeInjective(-m, -n);
    }
  }

  /** The first character of a decimal text tells the sign. */
  lemma DecimalSign(n: int)
    ensures Decimal(n) != ""
    ensures n < 0 <==> Decimal(n)[0] == '-'
    ensures n == 0 <==> Decimal(n)[0] == '0'
  {
    if n > 0 { PositiveDecimal(n); }
  }

  lemma MagnitudeInjective(m: nat, n: nat)
    requires DigitText(Digits(m, 10)) == DigitText(Digits(n, 10))
    ensures m == n
  {
    DigitTextInjective(Digits(m, 10), Digits(n, 10));
    ValueOfDigits(m, 10);
    ValueOfDigits(n, 10);
  }

  predicate AllDigits(s: string) { forall i :: 0 <= i < |s| ==> '0' <= s[i] <= '9' }

  /** The number a text of digits writes in base ten. */
  function TextValue(s: string): nat
    requires AllDigits(s)
  {
    if s == "" then 0 else 10 * TextValue(s[..|s| - 1]) + (s[|s| - 1] as int - '0' as int)
  }

  lemma {:induction false} DigitTextMeaning(ds: seq<nat>)
    requires AreDigits(ds, 10)
    ensures AllDigits(DigitText(ds)) && TextValue(DigitText(ds)) == Value(ds, 10)
    decreases |ds|
  {
    forall i | 0 <= i < |ds| ensures '0' <= DigitText(ds)[i] <= '9' { DigitTextChars(ds, i); }
    if ds != [] {
      var n := |ds| - 1;
      DigitTextMeaning(ds[..n]);
      DigitTextChars(ds, n);
      assert DigitText(ds)[..n] == DigitText(ds[..n]);
      assert ds == ds[..n] + [ds[n]];
      ValueSnoc(ds[..n], ds[n], 10);
    }
  }

  /** The decimal text of a number: digits that write it, without a leading zero,
      after a minus sign when it is negative. */
  lemma DecimalMeaning(n: int)
    requires n >= 0
    ensures AllDigits(Decimal(n)) && TextValue(Decimal(n)) == n
    ensures n > 0 ==> Decimal(n)[0] != '0' && Decimal(-n) == "-" + Decimal(n)
    ensures Decimal(0) == "0"
  {
    assert "0"[..0] == "";
    if n > 0 {
      PositiveDecimal(n);
      ValueOfDigits(n, 10);
      DigitTextMeaning(Digits(n, 10));
    }
  }

  /** fmt's %x of a byte string. */
  function Hex(b: seq<Byte>): (s: string)
    ensures |s| == 2 * |b|
  {
    if b == [] then "" else [HEX[b[0] / 16], HEX[b[0] % 16]] + Hex(b[1..])
  }

  function HexValue(c: char): int {
    if '0' <= c <= '9' then c as int - '0' as int else if 'a' <= c <= 'f' then c as int - 'a' as int + 10 else -1
  }

  lemma HexDigitMeaning(i: nat)
    requires i < 16
    ensures HexValue(HEX[i]) == i
  {
  }

  /** Two lower-case digits per byte, the high half first. */
  lemma {:induction false} HexMeaning(b: seq<Byte>, k: nat)
    requires k < |b|
    ensures HexValue(Hex(b)[2 * k]) >= 0 && HexValue(Hex(b)[2 * k + 1]) >= 0
    ensures 16 * HexValue(Hex(b)[2 * k]) + HexValue(Hex(b)[2 * k + 1]) == b[k] as int
  {
    if k == 0 {
      HexDigitMeaning(b[0] / 16);
      HexDigitMeaning(b[0] % 16);
    } else {
      HexMeaning(b[1..], k - 1);
      assert Hex(b)[2 * k] == Hex(b[1..])[2 * (k - 1)] && Hex(b)[2 * k + 1] == Hex(b[1..])[2 * (k - 1) + 1];
    }
  }

  lemma HexDigitInjective(i: nat, j: nat)
    requires i < 16 && j < 16 && HEX[i] == HEX[j]
    ensures i == j
  {
  }

  lemma {:induction false} HexInjective(a: seq<Byte>, b: seq<Byte>)
    requires Hex(a) == Hex(b)
    ensures a == b
  {
    if a != [] {
      var x, y := [HEX[a[0] / 16], HEX[a[0] % 16]], [HEX[b[0] / 16], HEX[b[0] % 16]];
      PeelSameLength(x, y, Hex(a[1..]), Hex(b[1..]));
      assert x[0] == y[0] && x[1] == y[1];
      HexDigitInjective(a[0] / 16, b[0] / 16);
      HexDigitInjective(a[0] % 16, b[0] % 16);
      HexInjective(a[1..], b[1..]);
      assert a == [a[0]] + a[1..] && b == [b[0]] + b[1..];
    }
  }

  // ---- Field rules ----

  predicate NameChar(c: char) {
    '0' <= c <= '9' || 'A' <= c <= 'Z' || 'a' <= c <= 'z' || c == '.' || c == '_' || c == '-'
  }

  predicate IsName(s: string) { forall i :: 0 <= i < |s| ==> NameChar(s[i]) }

  predicate IsLowerHex(s: string) {
    forall i :: 0 <= i < |s| ==> '0' <= s[i] <= '9' || 'a' <= s[i] <= 'f'
  }

  predicate ValidMachineId(s: string) { 1 <= |s| <= 128 && IsName(s) }

  /** Decodes from base58 to a 32-byte Ed25519 public key. */
  predicate IsKey(s: string) { Decoding(s).Decoded? && |Decoding(s).bytes| == 32 }

  lemma KeyHasNoQuote(s: string)
    requires IsKey(s)
    ensures '"' !in s
  {
    EncodeAfterDecode(s);
    forall i | 0 <= i < |s| ensures s[i] != '"' { SymbolIsAlphanumeric(Reverse(s[i])); }
  }

  lemma SymbolIsAlphanumeric(i: nat)
    requires i < |ALPHABET|
    ensures ALPHABET[i] != '"'
  {
  }

  lemma NameHasNoQuote(s: string)
    requires IsName(s) || IsLowerHex(s)
    ensures '"' !in s
  {
  }

  // ---- Grants (grant.go) ----

  datatype Grant = Grant(v: int, owner: string, machine: string, guest: string, scope: string,
                         mode: string, nb: int, na: int, gid: string)

  datatype GrantError = BadVersion | BadOwner | BadMachine | BadGuest | BadScope | BadMode
                      | BadNotBefore | EmptyWindow | WindowTooLong | BadGid

  const GRANT_SKEW := 5 * 60
  const GRANT_MAX_TTL := 24 * 60 * 60

  function ValidateGrant(g: Grant): Result<(), GrantError> {
    if g.v != 1 then Err(BadVersion)
    else if !IsKey(g.owner) then Err(BadOwner)
    else if !ValidMachineId(g.machine) then Err(BadMachine)
    else if !IsKey(g.guest) then Err(BadGuest)
    else if !(1 <= |g.scope| <= 64 && IsName(g.scope)) then Err(BadScope)
    else if g.mode != "ro" && g.mode != "rw" then Err(BadMode)
    else if g.nb <= 0 then Err(BadNotBefore)
    else if g.na <= g.nb then Err(EmptyWindow)
    else if g.na - g.nb > GRANT_MAX_TTL + GRANT_SKEW then Err(WindowTooLong)
    else if !(|g.gid| == 16 && IsLowerHex(g.gid)) then Err(BadGid)
    else Ok(())
  }

  /** Fields and the fixed text that follows each of them, in order. */
  function Render(fields: seq<string>, seps: seq<string>): string
    requires |fields| == |seps|
  {
    if fields == [] then "" else fields[0] + (seps[0] + Render(fields[1..], seps[1..]))
  }

  /** No field contains the first character of the text that ends it. */
  ghost predicate Delimited(fields: seq<string>, seps: seq<string>) {
    && |fields| == |seps|
    && forall i :: 0 <= i < |fields| ==> seps[i] != "" && seps[i][0] !in fields[i]
  }

  lemma {:induction false} RenderInjective(a: seq<string>, b: seq<string>, seps: seq<string>)
    requires Delimited(a, seps) && Delimited(b, seps)
    requires Render(a, seps) == Render(b, seps)
    ensures a == b
  {
    if a != [] {
      PeelField(a[0], b[0], seps[0], Render(a[1..], seps[1..]), Render(b[1..], seps[1..]));
      RenderInjective(a[1..], b[1..], seps[1..]);
      assert a == [a[0]] + a[1..] && b == [b[0]] + b[1..];
    }
  }

  const GRANT_SEPS: seq<string> :=
    [",\"owner\":\"", "\",\"machine\":\"", "\",\"guest\":\"", "\",\"scope\":\"",
     "\",\"mode\":\"", "\",\"nb\":", ",\"na\":", ",\"gid\":\"", "\"}"]

  function GrantFields(g: Grant): seq<string> {
    [Decimal(g.v), g.owner, g.machine, g.guest, g.scope, g.mode, Decimal(g.nb), Decimal(g.na), g.gid]
  }

  /** The signing text of a grant; only accepted grants have one. */
  function GrantCanonical(g: Grant): Result<string, GrantError> {
    match ValidateGrant(g)
    case Ok(_) => Ok("{\"v\":" + Render(GrantFields(g), GRANT_SEPS))
    case Err(e) => Err(e)
  }

  lemma RenderFrom(fields: seq<string>, seps: seq<string>, i: nat)
    requires |fields| == |seps| && i < |fields|
    ensures Render(fields[i..], seps[i..]) == fields[i] + (seps[i] + Render(fields[i + 1..], seps[i + 1..]))
  {
    assert fields[i..][1..] == fields[i + 1..] && seps[i..][1..] == seps[i + 1..];
  }

  lemma RenderFour(f: seq<string>, p: seq<string>, i: nat)
    requires |f| == |p| && i + 4 <= |f|
    ensures Render(f[i..], p[i..])
         == f[i] + (p[i] + (f[i + 1] + (p[i + 1] + (f[i + 2] + (p[i + 2] + (f[i + 3] + (p[i + 3]
            + Render(f[i + 4..], p[i + 4..]))))))))
  {
    RenderFrom(f, p, i); RenderFrom(f, p, i + 1); RenderFrom(f, p, i + 2); RenderFrom(f, p, i + 3);
  }

  lemma RenderNine(f: seq<string>, p: seq<string>)
    requires |f| == |p| == 9
    ensures Render(f, p)
         == f[0] + (p[0] + (f[1] + (p[1] + (f[2] + (p[2] + (f[3] + (p[3] + (f[4] + (p[4] + (f[5] + (p[5]
            + (f[6] + (p[6] + (f[7] + (p[7] + (f[8] + p[8]))))))))))))))))
  {
    RenderFour(f, p, 0);
    RenderFour(f, p, 4);
    RenderFrom(f, p, 8);
    assert f[0..] == f && p[0..] == p;
    assert f[8] + (p[8] + Render(f[9..], p[9..])) == f[8] + p[8];
  }

  /** The signing text of a grant, field by field: fixed order, no white space. */
  lemma GrantCanonicalText(g: Grant)
    requires ValidateGrant(g).Ok?
    ensures GrantCanonical(g)
         == Ok("{\"v\":" + (Decimal(g.v) + (",\"owner\":\"" + (g.owner + ("\",\"machine\":\"" + (g.machine
               + ("\",\"guest\":\"" + (g.guest + ("\",\"scope\":\"" + (g.scope + ("\",\"mode\":\"" + (g.mode
               + ("\",\"nb\":" + (Decimal(g.nb) + (",\"na\":" + (Decimal(g.na) + (",\"gid\":\"" + (g.gid
               + "\"}"))))))))))))))))))
  {
    var f, p := GrantFields(g), GRANT_SEPS;
    RenderNine(f, p);
  }

  lemma {:induction false} GrantDelimited(g: Grant)
    requires ValidateGrant(g).Ok?
    ensures Delimited(GrantFields(g), GRANT_SEPS)
  {
    GrantKeys(g);
    GrantNames(g);
    GrantFieldsDelimited(g);
  }

  lemma {:induction false} GrantKeys(g: Grant)
    requires ValidateGrant(g).Ok?
    ensures '"' !in g.owner && '"' !in g.guest
  {
    KeyHasNoQuote(g.owner); KeyHasNoQuote(g.guest);
  }

  lemma {:induction false} GrantFieldsDelimited(g: Grant)
    requires '"' !in g.owner && '"' !in g.guest
    requires '"' !in g.machine && '"' !in g.scope && '"' !in g.gid && '"' !in g.mode
    ensures Delimited(GrantFields(g), GRANT_SEPS)
  {
    DecimalAvoids(g.v, ','); DecimalAvoids(g.nb, ','); DecimalAvoids(g.na, ',');
    GrantSeparators();
    SeparatorsDelimit(GrantFields(g), GRANT_SEPS);
  }

  /** Commas end the numbers and quotes the texts. */
  lemma SeparatorsDelimit(f: seq<string>, seps: seq<string>)
    requires |f| == 9 == |seps| && forall i :: 0 <= i < 9 ==> seps[i] != ""
    requires seps[0][0] == ',' == seps[6][0] == seps[7][0]
    requires forall i :: i in {1, 2, 3, 4, 5, 8} ==> seps[i][0] == '"'
    requires ',' !in f[0] && '"' !in f[1] && '"' !in f[2] && '"' !in f[3] && '"' !in f[4]
    requires '"' !in f[5] && ',' !in f[6] && ',' !in f[7] && '"' !in f[8]
    ensures Delimited(f, seps)
  {
  }

  lemma GrantSeparators()
    ensures |GRANT_SEPS| == 9 && forall i :: 0 <= i < 9 ==> GRANT_SEPS[i] != ""
    ensures GRANT_SEPS[0][0] == ',' == GRANT_SEPS[6][0] == GRANT_SEPS[7][0]
    ensures forall i :: i in {1, 2, 3, 4, 5, 8} ==> GRANT_SEPS[i][0] == '"'
  {
  }

  lemma {:induction false} GrantNames(g: Grant)
    requires ValidateGrant(g).Ok?
    ensures '"' !in g.machine && '"' !in g.scope && '"' !in g.gid && '"' !in g.mode
  {
    NameHasNoQuote(g.machine); NameHasNoQuote(g.scope); NameHasNoQuote(g.gid);
  }

  /** Two accepted grants with the same canonical bytes are the same grant. */
  lemma GrantCanonicalInjective(a: Grant, b: Grant)
    ensures GrantCanonical(a).Ok? && GrantCanonical(a) == GrantCanonical(b) ==> a == b
  {
    if GrantCanonical(a).Ok? && GrantCanonical(a) == GrantCanonical(b) {
      GrantDelimited(a);
      GrantDelimited(b);
      var fa, fb := GrantFields(a), GrantFields(b);
      PeelSameLength("{\"v\":", "{\"v\":", Render(fa, GRANT_SEPS), Render(fb, GRANT_SEPS));
      RenderInjective(fa, fb, GRANT_SEPS);
      assert fa[0] == fb[0] && fa[1] == fb[1] && fa[2] == fb[2] && fa[3] == fb[3] && fa[4] == fb[4];
      assert fa[5] == fb[5] && fa[6] == fb[6] && fa[7] == fb[7] && fa[8] == fb[8];
      DecimalInjective(a.nb, b.nb);
      DecimalInjective(a.na, b.na);
    }
  }

  // ---- Minting and the validity window ----

  datatype MintError = NonPositiveTtl | TtlTooLong | Rejected(error: GrantError)

  const NANOS := 1_000_000_000

  /** time.Time.Unix of an instant counted in nanoseconds: floor division. */
  function Unix(nanos: int): int { nanos / NANOS }

  /** MintGrant; ttl and now are in nanoseconds, gid is the random draw. */
  function MintGrant(owner: string, machine: string, guest: string, scope: string, mode: string,
                     ttl: int, now: int, gid: string): Result<Grant, MintError>
  {
    if ttl <= 0 then Err(NonPositiveTtl)
    else if ttl > GRANT_MAX_TTL * NANOS then Err(TtlTooLong)
    else
      var g := Grant(1, owner, machine, guest, if scope == "" then "main" else scope,
                     if mode == "" then "ro" else mode,
                     Unix(now - GRANT_SKEW * NANOS), Unix(now + ttl), gid);
      match ValidateGrant(g)
      case Ok(_) => Ok(g)
      case Err(e) => Err(Rejected(e))
  }

  /** Grant.ValidAt at unix second t. */
  predicate ValidAt(g: Grant, t: int) { g.nb <= t <= g.na }

  /** Whatever the sub-second parts of the clock and the ttl, minting never fails
      because of the window, and the minted window is exactly the promised one:
      from five minutes before the mint second to the second the ttl runs out. */
  lemma {:induction false} MintedWindow(owner: string, machine: string, guest: string, scope: string, mode: string,
                     ttl: int, now: int, gid: string)
    requires 0 < ttl <= GRANT_MAX_TTL * NANOS && now >= (GRANT_SKEW + 1) * NANOS
    ensures var r := MintGrant(owner, machine, guest, scope, mode, ttl, now, gid);
            match r
            case Ok(g) =>
              forall t :: ValidAt(g, t) <==> now / 1_000_000_000 - 300 <= t <= (now + ttl) / 1_000_000_000
            case Err(e) => e.Rejected? && e.error !in {BadVersion, BadNotBefore, EmptyWindow, WindowTooLong}
  {
    MintedInstants(ttl, now);
    WindowAccepted(Grant(1, owner, machine, guest, if scope == "" then "main" else scope,
                         if mode == "" then "ro" else mode,
                         Unix(now - GRANT_SKEW * NANOS), Unix(now + ttl), gid));
  }

  /** What a request to mint gives, field by field and error by error: this owner's
      grant to this guest for this machine, for scope "main" and mode "ro" unless
      others were asked for, or the first thing that is wrong with the request. */
  lemma {:induction false} MintExact(owner: string, machine: string, guest: string, scope: string, mode: string,
                                     ttl: int, now: int, gid: string)
    ensures var r := MintGrant(owner, machine, guest, scope, mode, ttl, now, gid);
            && (r == Err(NonPositiveTtl) <==> ttl <= 0)
            && (r == Err(TtlTooLong) <==> ttl > 86_400_000_000_000)
            && (r.Ok? <==>
                  && 0 < ttl <= 86_400_000_000_000 && now >= 301_000_000_000
                  && IsKey(owner) && IsKey(guest) && ValidMachineId(machine)
                  && |scope| <= 64 && IsName(scope) && mode in {"", "ro", "rw"} && |gid| == 16 && IsLowerHex(gid))
    ensures match MintGrant(owner, machine, guest, scope, mode, ttl, now, gid)
            case Ok(g) =>
              && ValidateGrant(g).Ok? && g.v == 1
              && g.owner == owner && g.machine == machine && g.guest == guest && g.gid == gid
              && (if scope == "" then g.scope == "main" else g.scope == scope)
              && (if mode == "" then g.mode == "ro" else g.mode == mode)
              && g.nb == now / 1_000_000_000 - 300 && g.na == (now + ttl) / 1_000_000_000
            case Err(e) => true
  {
    if 0 < ttl <= GRANT_MAX_TTL * NANOS {
      var g := Grant(1, owner, machine, guest, if scope == "" then "main" else scope,
                     if mode == "" then "ro" else mode,
                     Unix(now - GRANT_SKEW * NANOS), Unix(now + ttl), gid);
      assert IsName("main");
      assert g.mode in {"ro", "rw"} <==> mode in {"", "ro", "rw"};
      MintedNotBefore(now);
      if now >= 301_000_000_000 {
        MintedInstants(ttl, now);
        Acceptance(g);
      }
    }
  }

  lemma MintedNotBefore(now: int)
    ensures Unix(now - GRANT_SKEW * NANOS) == Unix(now) - 300
    ensures Unix(now - GRANT_SKEW * NANOS) > 0 <==> now >= 301_000_000_000
  {
  }

  /** A grant is accepted exactly when it is of version 1, its window is open for at most a day
      and five minutes, and each of its texts is well formed. */
  lemma Acceptance(g: Grant)
    ensures ValidateGrant(g).Ok? <==>
              && g.v == 1 && 0 < g.nb < g.na <= g.nb + 86_700
              && IsKey(g.owner) && IsKey(g.guest) && ValidMachineId(g.machine)
              && 1 <= |g.scope| <= 64 && IsName(g.scope) && g.mode in {"ro", "rw"} && |g.gid| == 16 && IsLowerHex(g.gid)
  {
  }

  /** Validation has nothing to say against a version 1 grant with such a window. */
  lemma WindowAccepted(g: Grant)
    requires g.v == 1 && 0 < g.nb < g.na <= g.nb + GRANT_SKEW + GRANT_MAX_TTL
    ensures var r := ValidateGrant(g); r.Err? ==> r.error !in {BadVersion, BadNotBefore, EmptyWindow, WindowTooLong}
  {
  }

  lemma MintedInstants(ttl: int, now: int)
    requires 0 < ttl <= GRANT_MAX_TTL * NANOS && now >= (GRANT_SKEW + 1) * NANOS
    ensures Unix(now - GRANT_SKEW * NANOS) == Unix(now) - GRANT_SKEW > 0
    ensures Unix(now) <= Unix(now + ttl) <= Unix(now) + GRANT_MAX_TTL
  {
  }

  // ---- Bindings (binding.go) ----

  datatype Binding = Binding(v: int, wallet: string, device: string, x25519: string, ts: int)

  datatype BindingError = BadBindingVersion | BadWallet | BadDevice | BadTransportKey | BadTimestamp

  function ValidateBinding(b: Binding): Result<(), BindingError> {
    if b.v != 1 then Err(BadBindingVersion)
    else if !IsKey(b.wallet) then Err(BadWallet)
    else if !(|b.device| >= 1 && IsName(b.device)) then Err(BadDevice)
    else if !(|b.x25519| == 64 && IsLowerHex(b.x25519)) then Err(BadTransportKey)
    else if b.ts <= 0 then Err(BadTimestamp)
    else Ok(())
  }

  const BINDING_SEPS: seq<string> :=
    [",\"wallet\":\"", "\",\"device\":\"", "\",\"x25519\":\"", "\",\"ts\":", "}"]

  function BindingFields(b: Binding): seq<string> {
    [Decimal(b.v), b.wallet, b.device, b.x25519, Decimal(b.ts)]
  }

  function BindingCanonical(b: Binding): Result<string, BindingError> {
    match ValidateBinding(b)
    case Ok(_) => Ok("{\"v\":" + Render(BindingFields(b), BINDING_SEPS))
    case Err(e) => Err(e)
  }

  /** The signing text of a binding, field by field. */
  lemma BindingCanonicalText(b: Binding)
    requires ValidateBinding(b).Ok?
    ensures BindingCanonical(b)
         == Ok("{\"v\":" + (Decimal(b.v) + (",\"wallet\":\"" + (b.wallet + ("\",\"device\":\"" + (b.device
               + ("\",\"x25519\":\"" + (b.x25519 + ("\",\"ts\":" + (Decimal(b.ts) + "}"))))))))))
  {
    var f, p := BindingFields(b), BINDING_SEPS;
    RenderFour(f, p, 0);
    RenderFrom(f, p, 4);
    assert f[0..] == f && p[0..] == p;
    assert Render(f[5..], p[5..]) == "";
    assert f[4] + (p[4] + "") == f[4] + p[4];
  }

  lemma BindingDelimited(b: Binding)
    requires ValidateBinding(b).Ok?
    ensures Delimited(BindingFields(b), BINDING_SEPS)
  {
    KeyHasNoQuote(b.wallet);
    NameHasNoQuote(b.device); NameHasNoQuote(b.x25519);
    DecimalAvoids(b.v, ','); DecimalAvoids(b.ts, '}');
  }

  /** Two accepted bindings with the same canonical bytes are the same binding. */
  lemma BindingCanonicalInjective(a: Binding, b: Binding)
    ensures BindingCanonical(a).Ok? && BindingCanonical(a) == BindingCanonical(b) ==> a == b
  {
    if BindingCanonical(a).Ok? && BindingCanonical(a) == BindingCanonical(b) {
      BindingDelimited(a);
      BindingDelimited(b);
      var fa, fb := BindingFields(a), BindingFields(b);
      PeelSameLength("{\"v\":", "{\"v\":", Render(fa, BINDING_SEPS), Render(fb, BINDING_SEPS));
      RenderInjective(fa, fb, BINDING_SEPS);
      assert fa[0] == fb[0] && fa[1] == fb[1] && fa[2] == fb[2] && fa[3] == fb[3] && fa[4] == fb[4];
      DecimalInjective(a.ts, b.ts);
    }
  }

  // ---- Domain-separated messages ----

  const GRANT_DOMAIN := "miranda/grant/v1"
  const BINDING_DOMAIN := "miranda/binding/v1"
  const AUTH_DOMAIN := "miranda/auth/v1"
  const ATTACH_DOMAIN := "miranda/attach/v1"
  const REGISTRATION_DOMAIN := "miranda/agent-registration/v1"
  const REVOCATION_DOMAIN := "miranda/revocation/v1"

  function GrantMessage(canonical: string): string { GRANT_DOMAIN + canonical }
  function BindingMessage(canonical: string): string { BINDING_DOMAIN + canonical }
  function AuthMessage(challenge: string): string { AUTH_DOMAIN + challenge }

  /** No signed message of one kind is a signed message of another, whatever the payloads. */
  lemma MessagesSeparate(grant: string, binding: string, challenge: string)
    ensures GrantMessage(grant) != BindingMessage(binding)
    ensures GrantMessage(grant) != AuthMessage(challenge)
    ensures BindingMessage(binding) != AuthMessage(challenge)
  {
    assert GrantMessage(grant)[8] == 'g';
    assert BindingMessage(binding)[8] == 'b';
    assert AuthMessage(challenge)[8] == 'a';
  }

  // ---- Challenges (auth.go, revocation.go) ----

  function AttachChallenge(session: string, machine: string, digest: Digest): string {
    ATTACH_DOMAIN + ("\n" + ((session + ("\n" + machine)) + ("\n" + Hex(digest))))
  }

  function RegistrationChallenge(machine: string, commitment: string): string {
    REGISTRATION_DOMAIN + ("\n" + (machine + ("\n" + commitment)))
  }

  function RevocationChallenge(machine: string, ts: int): string {
    REVOCATION_DOMAIN + ("\n" + (machine + ("\n" + Decimal(ts))))
  }

  /** The exact texts that are signed. */
  lemma SignedTexts(canonical: string, session: string, machine: string, digest: Digest, commitment: string, ts: int)
    ensures GrantMessage(canonical) == "miranda/grant/v1" + canonical
    ensures BindingMessage(canonical) == "miranda/binding/v1" + canonical
    ensures AuthMessage(canonical) == "miranda/auth/v1" + canonical
    ensures AttachChallenge(session, machine, digest)
         == "miranda/attach/v1\n" + session + "\n" + machine + "\n" + Hex(digest)
    ensures RegistrationChallenge(machine, commitment)
         == "miranda/agent-registration/v1\n" + machine + "\n" + commitment
    ensures RevocationChallenge(machine, ts) == "miranda/revocation/v1\n" + machine + "\n" + Decimal(ts)
  {
    var names := session + ("\n" + machine);
    LinesJoin(ATTACH_DOMAIN, names, Hex(digest));
    assert "miranda/attach/v1\n" + session + "\n" + machine == "miranda/attach/v1" + "\n" + names;
    LinesJoin(REGISTRATION_DOMAIN, machine, commitment);
    LinesJoin(REVOCATION_DOMAIN, machine, Decimal(ts));
  }

  lemma LinesJoin(a: string, b: string, c: string)
    ensures a + ("\n" + (b + ("\n" + c))) == a + "\n" + b + "\n" + c
  {
  }

  /** The three challenge kinds never coincide, whatever their fields. */
  lemma ChallengesSeparate(session: string, m1: string, digest: Digest, m2: string, commitment: string, m3: string,
                           ts: int)
    ensures AttachChallenge(session, m1, digest) != RegistrationChallenge(m2, commitment)
    ensures AttachChallenge(session, m1, digest) != RevocationChallenge(m3, ts)
    ensures RegistrationChallenge(m2, commitment) != RevocationChallenge(m3, ts)
  {
    assert AttachChallenge(session, m1, digest)[9] == 't';
    assert RegistrationChallenge(m2, commitment)[9] == 'g';
    assert RevocationChallenge(m3, ts)[9] == 'e';
  }

  /** What an attach challenge determines: the SDP digest always, and session and
      machine up to where the newline between them falls. */
  lemma AttachChallengeExact(s1: string, m1: string, d1: Digest, s2: string, m2: string, d2: Digest)
    ensures AttachChallenge(s1, m1, d1) == AttachChallenge(s2, m2, d2)
       <==> d1 == d2 && s1 + ("\n" + m1) == s2 + ("\n" + m2)
  {
    if AttachChallenge(s1, m1, d1) == AttachChallenge(s2, m2, d2) {
      var a1, a2 := s1 + ("\n" + m1), s2 + ("\n" + m2);
      var t1, t2 := a1 + ("\n" + Hex(d1)), a2 + ("\n" + Hex(d2));
      PeelSameLength(ATTACH_DOMAIN, ATTACH_DOMAIN, "\n" + t1, "\n" + t2);
      PeelSameLength("\n", "\n", t1, t2);
      PeelSameLength(a1, a2, "\n" + Hex(d1), "\n" + Hex(d2));
      PeelSameLength("\n", "\n", Hex(d1), Hex(d2));
      HexInjective(d1, d2);
    }
  }

  /** With newline-free machine ids an attach challenge names one session, one
      machine and one SDP digest, whatever characters the session id holds. */
  lemma AttachChallengeInjective(s1: string, m1: string, d1: Digest, s2: string, m2: string, d2: Digest)
    requires '\n' !in m1 && '\n' !in m2
    requires AttachChallenge(s1, m1, d1) == AttachChallenge(s2, m2, d2)
    ensures s1 == s2 && m1 == m2 && d1 == d2
  {
    AttachChallengeExact(s1, m1, d1, s2, m2, d2);
    PeelTail(s1, s2, '\n', m1, m2);
  }

  /** Every newline in a machine id makes another session and machine look the same. */
  lemma AttachChallengeShifts(s: string, m: string, d: Digest, i: nat)
    requires i < |m| && m[i] == '\n'
    ensures AttachChallenge(s, m, d) == AttachChallenge(s + "\n" + m[..i], m[i + 1..], d)
    ensures s + "\n" + m[..i] != s && m[i + 1..] != m
  {
    assert m == m[..i] + ("\n" + m[i + 1..]);
    assert s + ("\n" + m) == (s + "\n" + m[..i]) + ("\n" + m[i + 1..]);
    assert |s + "\n" + m[..i]| > |s|;
  }

  lemma {:induction false} LastNewline(m: string) returns (i: nat)
    requires '\n' in m
    ensures i < |m| && m[i] == '\n' && '\n' !in m[i + 1..]
    decreases |m|
  {
    if '\n' in m[1..] {
      var k := LastNewline(m[1..]);
      assert m[1..][k + 1..] == m[k + 2..];
      i := k + 1;
    } else {
      i := 0;
      assert m == [m[0]] + m[1..];
    }
  }

  /** Some other attach, with a clean machine id, has the same challenge. */
  ghost predicate Confusable(s: string, m: string, d: Digest) {
    exists s', m' :: '\n' !in m' && (s' != s || m' != m) && AttachChallenge(s', m', d) == AttachChallenge(s, m, d)
  }

  /** An attach can be taken for another one with a clean machine id exactly when its own
      machine id holds a newline. */
  lemma AttachChallengeNeedsCleanMachine(s: string, m: string, d: Digest)
    ensures Confusable(s, m, d) <==> '\n' in m
  {
    if '\n' in m {
      var i := LastNewline(m);
      AttachChallengeShifts(s, m, d, i);
      var s', m' := s + "\n" + m[..i], m[i + 1..];
      assert '\n' !in m' && s' != s && AttachChallenge(s', m', d) == AttachChallenge(s, m, d);
    } else if Confusable(s, m, d) {
      var s', m' :| '\n' !in m' && (s' != s || m' != m) && AttachChallenge(s', m', d) == AttachChallenge(s, m, d);
      AttachChallengeInjective(s, m, d, s', m', d);
      assert false;
    }
  }

  /** Commitments of one length make a registration challenge injective. */
  lemma RegistrationChallengeInjective(m1: string, c1: string, m2: string, c2: string)
    requires |c1| == |c2|
    requires RegistrationChallenge(m1, c1) == RegistrationChallenge(m2, c2)
    ensures m1 == m2 && c1 == c2
  {
    var t1, t2 := m1 + ("\n" + c1), m2 + ("\n" + c2);
    PeelSameLength(REGISTRATION_DOMAIN, REGISTRATION_DOMAIN, "\n" + t1, "\n" + t2);
    PeelSameLength("\n", "\n", t1, t2);
    PeelSameLength(m1, m2, "\n" + c1, "\n" + c2);
    PeelSameLength("\n", "\n", c1, c2);
  }

  /** A revocation challenge names one machine and one timestamp, always. */
  lemma RevocationChallengeInjective(m1: string, t1: int, m2: string, t2: int)
    requires RevocationChallenge(m1, t1) == RevocationChallenge(m2, t2)
    ensures m1 == m2 && t1 == t2
  {
    DecimalAvoids(t1, '\n'); DecimalAvoids(t2, '\n');
    var x, y := m1 + ("\n" + Decimal(t1)), m2 + ("\n" + Decimal(t2));
    PeelSameLength(REVOCATION_DOMAIN, REVOCATION_DOMAIN, "\n" + x, "\n" + y);
    PeelSameLength("\n", "\n", x, y);
    PeelTail(m1, m2, '\n', Decimal(t1), Decimal(t2));
    DecimalInjective(t1, t2);
  }
}
