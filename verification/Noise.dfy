/** The Noise objects shared by web/src/noise/noise-kk.js and
    web/src/pairing/nnpsk0.js, over symbolic terms: Diffie-Hellman commutes, and
    HASH, HKDF and AEAD are injective constructors. */
module Noise {
  import opened Wrappers
  import opened Positional

  datatype Term =
    | Text(chars: string)
    | Plain(bytes: seq<nat>)
    | Public(priv: nat)
    | Shared(low: nat, high: nat)
    | SharedWith(priv: nat, point: Term)
    | HashOf(data: Term)
    | HashPair(h: Term, data: Term)
    | Kdf(ck: Term, ikm: Term, output: nat)
    | Aead(key: Term, nonce: seq<nat>, ad: Term, plain: Term)

  const EMPTY := Plain([])

  /** x25519.getSharedSecret: symmetric in two honest key pairs. */
  function Dh(priv: nat, point: Term): Term {
    match point
    case Public(q) => if priv <= q then Shared(priv, q) else Shared(q, priv)
    case _ => SharedWith(priv, point)
  }

  lemma DhCommutes(a: nat, b: nat)
    ensures Dh(a, Public(b)) == Dh(b, Public(a))
  {
  }

  // ---- Nonces ----

  /** Above this value a JavaScript number no longer changes under n++. */
  const COUNTER_LIMIT := 0x20_0000_0000_0000

  function Bump(n: nat): nat { if n < COUNTER_LIMIT then n + 1 else n }

  function LittleEndian(n: nat, width: nat): (s: seq<nat>)
    ensures |s| == width
  {
    if width == 0 then [] else [n % 256] + LittleEndian(n / 256, width - 1)
  }

  /** Four zero bytes, then the counter as eight little-endian bytes. */
  function NonceBytes(n: nat): seq<nat> { [0, 0, 0, 0] + LittleEndian(n, 8) }

  lemma {:induction false} LittleEndianInjective(m: nat, n: nat, width: nat)
    requires m < Pow(256, width) && n < Pow(256, width)
    requires LittleEndian(m, width) == LittleEndian(n, width)
    ensures m == n
  {
    if width > 0 {
      var a, b := LittleEndian(m, width), LittleEndian(n, width);
      assert a[0] == b[0];
      assert a[1..] == LittleEndian(m / 256, width - 1) && b[1..] == LittleEndian(n / 256, width - 1);
      LittleEndianInjective(m / 256, n / 256, width - 1);
    }
  }

  lemma Euclid(n: nat, d: nat) returns (q: nat, r: nat)
    requires d > 0
    ensures q == n / d && n == q * d + r && r < d
  {
    q, r := n / d, n % d;
  }

  lemma DivideTwice(n: nat, p: nat, d: nat)
    requires p > 0 && d == 256 * p
    ensures n / 256 / p == n / d
  {
    var m, r := Euclid(n, 256);
    var q, t := Euclid(m, p);
    assert q * d == 256 * (q * p);
    DivModOf(q, 256 * t + r, d);
  }

  lemma {:induction false} LittleEndianAt(n: nat, width: nat, i: nat)
    requires i < width
    ensures Pow(256, i) > 0 && LittleEndian(n, width)[i] == n / Pow(256, i) % 256
    decreases width
  {
    if i > 0 {
      LittleEndianAt(n / 256, width - 1, i - 1);
      DivideTwice(n, Pow(256, i - 1), Pow(256, i));
    }
  }

  /** Section 12.3: four zero bytes, then byte i of the counter, the least significant first. */
  lemma NonceLayout(n: nat, i: nat)
    requires i < 12
    ensures |NonceBytes(n)| == 12
    ensures i < 4 ==> NonceBytes(n)[i] == 0
    ensures i >= 4 ==> Pow(256, i - 4) > 0 && NonceBytes(n)[i] == n / Pow(256, i - 4) % 256
  {
    if i >= 4 {
      LittleEndianAt(n, 8, i - 4);
    }
  }

  /** Counters the implementation can reach are told apart by their nonces. */
  lemma NonceInjective(m: nat, n: nat)
    requires m <= COUNTER_LIMIT && n <= COUNTER_LIMIT
    requires NonceBytes(m) == NonceBytes(n)
    ensures m == n
  {
    assert NonceBytes(m)[4..] == LittleEndian(m, 8) && NonceBytes(n)[4..] == LittleEndian(n, 8);
    assert Pow(256, 8) == 0x1_0000_0000_0000_0000;
    LittleEndianInjective(m, n, 8);
  }

  // ---- CipherState ----

  datatype Cipher = Cipher(k: Option<Term>, n: nat)

  function Seal(c: Cipher, ad: Term, plain: Term): (Cipher, Term) {
    match c.k
    case None => (c, plain)
    case Some(key) => (c.(n := Bump(c.n)), Aead(key, NonceBytes(c.n), ad, plain))
  }

  /** Decryption; None is the exception thrown on a failed tag, which leaves n alone. */
  function Open(c: Cipher, ad: Term, ciphertext: Term): (Cipher, Option<Term>) {
    match c.k
    case None => (c, Some(ciphertext))
    case Some(key) =>
      match ciphertext
      case Aead(key', nonce', ad', plain) =>
        if key' == key && nonce' == NonceBytes(c.n) && ad' == ad then (c.(n := Bump(c.n)), Some(plain)) else (c, None)
      case _ => (c, None)
  }

  class CipherState {
    var k: Option<Term>
    var n: nat

    constructor ()
      ensures Abs() == Cipher(None, 0)
    {
      k, n := None, 0;
    }

    ghost function Abs(): Cipher
      reads this
    {
      Cipher(k, n)
    }

    method InitializeKey(key: Term)
      modifies this
      ensures Abs() == Cipher(Some(key), 0)
    {
      k, n := Some(key), 0;
    }

    method EncryptWithAd(ad: Term, plain: Term) returns (ciphertext: Term)
      modifies this
      ensures (Abs(), ciphertext) == Seal(old(Abs()), ad, plain)
    {
      if k == None {
        return plain;
      }
      ciphertext := Aead(k.value, NonceBytes(n), ad, plain);
      n := Bump(n);
    }

    method DecryptWithAd(ad: Term, ciphertext: Term) returns (plain: Option<Term>)
      modifies this
      ensures (Abs(), plain) == Open(old(Abs()), ad, ciphertext)
    {
      if k == None {
        return Some(ciphertext);
      }
      if !(ciphertext.Aead? && ciphertext.key == k.value && ciphertext.nonce == NonceBytes(n) && ciphertext.ad == ad) {
        return None;
      }
      plain := Some(ciphertext.plain);
      n := Bump(n);
    }
  }

  /** A sealed message opens, at the same counter, to what was sealed, and both
      sides move to the same next counter. */
  lemma OpenAfterSeal(c: Cipher, ad: Term, plain: Term)
    ensures var (c', ct) := Seal(c, ad, plain); Open(c, ad, ct) == (c', Some(plain))
  {
  }

  /** A rejected ciphertext leaves the receiver exactly as it was. */
  lemma RejectionKeepsState(c: Cipher, ad: Term, ct: Term)
    ensures Open(c, ad, ct).1 == None ==> Open(c, ad, ct).0 == c
  {
  }

  // ---- SymmetricState ----

  datatype Symmetric = Symmetric(h: Term, ck: Term, cipher: Cipher) {
    function MixKey(ikm: Term): Symmetric {
      Symmetric(h, Kdf(ck, ikm, 1), Cipher(Some(Kdf(ck, ikm, 2)), 0))
    }

    function MixHash(data: Term): Symmetric { this.(h := HashPair(h, data)) }

    function MixKeyAndHash(ikm: Term): Symmetric {
      Symmetric(HashPair(h, Kdf(ck, ikm, 2)), Kdf(ck, ikm, 1), Cipher(Some(Kdf(ck, ikm, 3)), 0))
    }

    function EncryptAndHash(plain: Term): (Symmetric, Term) {
      var (c, ct) := Seal(cipher, h, plain);
      (Symmetric(HashPair(h, ct), ck, c), ct)
    }

    /** On a failed tag nothing is mixed: the exception leaves before mixHash. */
    function DecryptAndHash(ciphertext: Term): (Symmetric, Option<Term>) {
      var (c, plain) := Open(cipher, h, ciphertext);
      if plain == None then (this.(cipher := c), None)
      else (Symmetric(HashPair(h, ciphertext), ck, c), plain)
    }

    function Split(): (Cipher, Cipher) {
      (Cipher(Some(Kdf(ck, EMPTY, 1)), 0), Cipher(Some(Kdf(ck, EMPTY, 2)), 0))
    }
  }

  /** How often something was mixed into a transcript hash. */
  function Depth(h: Term): nat {
    match h
    case HashPair(g, _) => Depth(g) + 1
    case _ => 0
  }

  /** The initial object for a protocol name: padded if it fits the hash size, hashed otherwise. */
  function InitialHash(name: string): Term {
    if |name| <= 32 then Text(name) else HashOf(Text(name))
  }

  class SymmetricState {
    var h: Term
    var ck: Term
    const cs: CipherState

    constructor (name: string)
      ensures Abs() == Symmetric(InitialHash(name), InitialHash(name), Cipher(None, 0))
      ensures fresh(cs)
    {
      h, ck := InitialHash(name), InitialHash(name);
      cs := new CipherState();
    }

    ghost function Abs(): Symmetric
      reads this, cs
    {
      Symmetric(h, ck, cs.Abs())
    }

    method MixKey(ikm: Term)
      modifies this, cs
      ensures Abs() == old(Abs()).MixKey(ikm)
    {
      var tempK := Kdf(ck, ikm, 2);
      ck := Kdf(ck, ikm, 1);
      cs.InitializeKey(tempK);
    }

    method MixHash(data: Term)
      modifies this
      ensures Abs() == old(Abs()).MixHash(data)
    {
      h := HashPair(h, data);
    }

    method MixKeyAndHash(ikm: Term)
      modifies this, cs
      ensures Abs() == old(Abs()).MixKeyAndHash(ikm)
    {
      var temp, tempK := Kdf(ck, ikm, 2), Kdf(ck, ikm, 3);
      ck := Kdf(ck, ikm, 1);
      MixHash(temp);
      cs.InitializeKey(tempK);
    }

    method EncryptAndHash(plain: Term) returns (ciphertext: Term)
      modifies this, cs
      ensures (Abs(), ciphertext) == old(Abs()).EncryptAndHash(plain)
    {
      ciphertext := cs.EncryptWithAd(h, plain);
      MixHash(ciphertext);
    }

    method DecryptAndHash(ciphertext: Term) returns (plain: Option<Term>)
      modifies this, cs
      ensures (Abs(), plain) == old(Abs()).DecryptAndHash(ciphertext)
    {
      plain := cs.DecryptWithAd(h, ciphertext);
      if plain != None {
        MixHash(ciphertext);
      }
    }

    method Split() returns (c1: CipherState, c2: CipherState)
      ensures fresh(c1) && fresh(c2) && c1 != c2
      ensures (c1.Abs(), c2.Abs()) == Abs().Split()
    {
      c1 := new CipherState();
      c1.InitializeKey(Kdf(ck, EMPTY, 1));
      c2 := new CipherState();
      c2.InitializeKey(Kdf(ck, EMPTY, 2));
    }
  }

  // ---- Transport: two directions, any interleaving ----

  datatype Side = Initiator | Responder

  function Other(s: Side): Side { if s == Initiator then Responder else Initiator }

  /** One endpoint after Split. */
  datatype Endpoint = Endpoint(send: Cipher, recv: Cipher)

  /** One value for each side. */
  datatype Both<T> = Both(initiator: T, responder: T) {
    function At(s: Side): T { if s == Initiator then initiator else responder }

    function With(s: Side, v: T): Both<T> {
      if s == Initiator then Both(v, responder) else Both(initiator, v)
    }
  }

  /** Both endpoints, the ciphertexts in flight towards each side, and the
      plaintexts each side has sent and received so far. */
  datatype Link = Link(ends: Both<Endpoint>, flight: Both<seq<Term>>,
                       sent: Both<seq<Term>>, received: Both<seq<Term>>)

  datatype LinkEvent =
    | Send(from: Side, plain: Term)       // encrypt and hand to the network
    | Deliver(to: Side)                   // the oldest ciphertext in flight arrives
    | Garbage(to: Side, ciphertext: Term) // something the receiver rejects arrives first

  function LinkStep(l: Link, e: LinkEvent): Link {
    match e
    case Send(from, plain) =>
      var (c, ct) := Seal(l.ends.At(from).send, EMPTY, plain);
      var to := Other(from);
      l.(ends := l.ends.With(from, l.ends.At(from).(send := c)),
         flight := l.flight.With(to, l.flight.At(to) + [ct]),
         sent := l.sent.With(from, l.sent.At(from) + [plain]))
    case Deliver(to) =>
      if l.flight.At(to) == [] then l else
        var (c, plain) := Open(l.ends.At(to).recv, EMPTY, l.flight.At(to)[0]);
        l.(ends := l.ends.With(to, l.ends.At(to).(recv := c)),
           flight := l.flight.With(to, l.flight.At(to)[1..]),
           received := if plain == None then l.received
                       else l.received.With(to, l.received.At(to) + [plain.value]))
    case Garbage(to, ct) =>
      var (c, plain) := Open(l.ends.At(to).recv, EMPTY, ct);
      if plain != None then l else l.(ends := l.ends.With(to, l.ends.At(to).(recv := c)))
  }

  function LinkRun(l: Link, events: seq<LinkEvent>): Link
    decreases |events|
  {
    if events == [] then l else LinkRun(LinkStep(l, events[0]), events[1..])
  }

  /** The counter after k more messages. */
  function Advance(n: nat, k: nat): nat
    decreases k
  {
    if k == 0 then n else Advance(Bump(n), k - 1)
  }

  lemma {:induction false} AdvanceLast(n: nat, k: nat)
    ensures Advance(n, k + 1) == Bump(Advance(n, k))
    decreases k
  {
    if k > 0 { AdvanceLast(Bump(n), k - 1); }
  }

  /** What is in flight towards `to`: the i-th ciphertext seals the i-th plaintext
      that was sent but not yet received, under the counter the receiver will
      have when it gets there. */
  ghost predicate DirectionOk(l: Link, to: Side)
  {
    var from := Other(to);
    var r, s := l.ends.At(to).recv, l.ends.At(from).send;
    && r.k != None && s.k == r.k
    && s.n == Advance(r.n, |l.flight.At(to)|)
    && |l.received.At(to)| + |l.flight.At(to)| == |l.sent.At(from)|
    && l.received.At(to) == l.sent.At(from)[..|l.received.At(to)|]
    && forall i :: 0 <= i < |l.flight.At(to)| ==>
         l.flight.At(to)[i] == Aead(r.k.value, NonceBytes(Advance(r.n, i)), EMPTY,
                                    l.sent.At(from)[|l.received.At(to)| + i])
  }

  ghost predicate LinkOk(l: Link) { DirectionOk(l, Initiator) && DirectionOk(l, Responder) }

  lemma SendKeeps(l: Link, from: Side, plain: Term)
    requires LinkOk(l)
    ensures DirectionOk(LinkStep(l, Send(from, plain)), Other(from))
  {
    var to := Other(from);
    var l' := LinkStep(l, Send(from, plain));
    AdvanceLast(l.ends.At(to).recv.n, |l.flight.At(to)|);
    assert l'.received == l.received;
    assert l'.sent.At(from)[..|l.received.At(to)|] == l.sent.At(from)[..|l.received.At(to)|];
    forall i | 0 <= i < |l'.flight.At(to)|
      ensures l'.flight.At(to)[i] ==
          Aead(l.ends.At(to).recv.k.value, NonceBytes(Advance(l.ends.At(to).recv.n, i)), EMPTY,
                                       l'.sent.At(from)[|l.received.At(to)| + i])
    {
      if i < |l.flight.At(to)| { assert l'.flight.At(to)[i] == l.flight.At(to)[i]; }
    }
  }

  /** The oldest ciphertext in flight opens to the next plaintext. */
  lemma HeadOpens(l: Link, to: Side)
    requires DirectionOk(l, to) && l.flight.At(to) != []
    ensures var r := l.ends.At(to).recv;
            && |l.received.At(to)| < |l.sent.At(Other(to))|
            && Open(r, EMPTY, l.flight.At(to)[0])
               == (r.(n := Bump(r.n)), Some(l.sent.At(Other(to))[|l.received.At(to)|]))
  {
    var r, n := l.ends.At(to).recv, |l.received.At(to)|;
    assert l.flight.At(to)[0] ==
        Aead(r.k.value, NonceBytes(Advance(r.n, 0)), EMPTY, l.sent.At(Other(to))[n + 0]);
  }

  lemma DeliverKeeps(l: Link, to: Side)
    requires LinkOk(l) && l.flight.At(to) != []
    ensures DirectionOk(LinkStep(l, Deliver(to)), to)
    ensures LinkStep(l, Deliver(to)).received.At(to) == l.received.At(to) + [l.sent.At(Other(to))[|l.received.At(to)|]]
  {
    var from := Other(to);
    var l' := LinkStep(l, Deliver(to));
    var r := l.ends.At(to).recv;
    HeadOpens(l, to);
    assert l'.received.At(to) == l.received.At(to) + [l.sent.At(from)[|l.received.At(to)|]];
    forall i | 0 <= i < |l'.flight.At(to)|
      ensures l'.flight.At(to)[i] ==
          Aead(r.k.value, NonceBytes(Advance(Bump(r.n), i)), EMPTY, l.sent.At(from)[|l'.received.At(to)| + i])
    {
      assert l'.flight.At(to)[i] == l.flight.At(to)[i + 1];
    }
  }

  lemma LinkStepOk(l: Link, e: LinkEvent)
    requires LinkOk(l)
    ensures LinkOk(LinkStep(l, e))
  {
    match e
    case Send(from, plain) =>
      SendKeeps(l, from, plain);
      DirectionFrame(l, LinkStep(l, e), from);
    case Deliver(to) =>
      if l.flight.At(to) != [] {
        DeliverKeeps(l, to);
        DirectionFrame(l, LinkStep(l, e), Other(to));
      }
    case Garbage(to, ct) =>
      GarbageChangesNothing(l, to, ct);
  }

  lemma GarbageChangesNothing(l: Link, to: Side, ct: Term)
    ensures LinkStep(l, Garbage(to, ct)) == l
  {
    RejectionKeepsState(l.ends.At(to).recv, EMPTY, ct);
  }

  /** A direction none of whose parts changed is still in order. */
  lemma DirectionFrame(l: Link, l': Link, to: Side)
    requires DirectionOk(l, to)
    requires l'.ends.At(to).recv == l.ends.At(to).recv && l'.ends.At(Other(to)).send == l.ends.At(Other(to)).send
    requires l'.flight.At(to) == l.flight.At(to) && l'.received.At(to) == l.received.At(to)
    requires l'.sent.At(Other(to)) == l.sent.At(Other(to))
    ensures DirectionOk(l', to)
  {
  }

  /** The link right after a handshake that gave both parties these ciphers. */
  function FreshLink(i: Endpoint, r: Endpoint): Link {
    Link(Both(i, r), Both([], []), Both([], []), Both([], []))
  }

  lemma {:induction false} LinkRunOk(l: Link, events: seq<LinkEvent>)
    requires LinkOk(l)
    ensures LinkOk(LinkRun(l, events))
    decreases |events|
  {
    if events != [] {
      LinkStepOk(l, events[0]);
      LinkRunOk(LinkStep(l, events[0]), events[1..]);
    }
  }

  /** After any interleaving of sends, in-order deliveries and rejected garbage in
      both directions: each side has received exactly a prefix of what the other
      sent, what is missing is exactly what is still in flight, and the next
      genuine ciphertext opens to the next plaintext. */
  lemma TransportDelivers(i: Endpoint, r: Endpoint, events: seq<LinkEvent>, to: Side)
    requires i.send == r.recv && r.send == i.recv && i.send.k != None && r.send.k != None
    ensures var l := LinkRun(FreshLink(i, r), events);
            && l.received.At(to) <= l.sent.At(Other(to))
            && |l.sent.At(Other(to))| == |l.received.At(to)| + |l.flight.At(to)|
            && (l.flight.At(to) != [] ==>
                  Open(l.ends.At(to).recv, EMPTY, l.flight.At(to)[0]).1 ==
                      Some(l.sent.At(Other(to))[|l.received.At(to)|]))
  {
    LinkRunOk(FreshLink(i, r), events);
    var l := LinkRun(FreshLink(i, r), events);
    assert DirectionOk(l, to);
    if l.flight.At(to) != [] {
      var c := l.ends.At(to).recv;
      assert l.flight.At(to)[0] ==
          Aead(c.k.value, NonceBytes(Advance(c.n, 0)), EMPTY, l.sent.At(Other(to))[|l.received.At(to)| + 0]);
    }
  }

  // ---- Nonce reuse ----

  lemma {:induction false} AdvanceIs(n: nat, k: nat)
    requires n <= COUNTER_LIMIT
    ensures Advance(n, k) == if n + k <= COUNTER_LIMIT then n + k else COUNTER_LIMIT
    decreases k
  {
    if k > 0 { AdvanceIs(Bump(n), k - 1); }
  }

  /** Messages number i < j of one direction share a nonce exactly when i has
      already reached the largest exact JavaScript integer step. */
  lemma NonceReuseExact(i: nat, j: nat)
    requires i < j
    ensures NonceBytes(Advance(0, i)) == NonceBytes(Advance(0, j)) <==> i >= COUNTER_LIMIT
  {
    AdvanceIs(0, i);
    AdvanceIs(0, j);
    if NonceBytes(Advance(0, i)) == NonceBytes(Advance(0, j)) {
      NonceInjective(Advance(0, i), Advance(0, j));
    }
  }

  // ---- A network that replays and reorders ----

  /** One direction of a session: everything ever sealed stays on the wire, and any of it may
      arrive at any time, any number of times. */
  datatype Channel = Channel(send: Cipher, recv: Cipher, wire: seq<Term>, sent: seq<Term>, received: seq<Term>)

  datatype ChannelEvent = Emit(plain: Term) | Arrive(j: nat)

  function FreshChannel(key: Term): Channel { Channel(Cipher(Some(key), 0), Cipher(Some(key), 0), [], [], []) }

  function ChannelStep(c: Channel, e: ChannelEvent): (c': Channel)
    ensures c.sent <= c'.sent
  {
    match e
    case Emit(plain) =>
      var (next, ct) := Seal(c.send, EMPTY, plain);
      c.(send := next, wire := c.wire + [ct], sent := c.sent + [plain])
    case Arrive(j) =>
      if j >= |c.wire| then c else
        var (next, plain) := Open(c.recv, EMPTY, c.wire[j]);
        c.(recv := next, received := if plain == None then c.received else c.received + [plain.value])
  }

  function ChannelRun(c: Channel, events: seq<ChannelEvent>): Channel {
    if events == [] then c else ChannelStep(ChannelRun(c, events[..|events| - 1]), events[|events| - 1])
  }

  /** The counters count, and the wire holds message j sealed under nonce j. */
  ghost predicate ChannelOk(c: Channel, key: Term) {
    && c.send == Cipher(Some(key), |c.sent|) && c.recv == Cipher(Some(key), |c.received|)
    && |c.wire| == |c.sent| && c.received <= c.sent
    && forall j :: 0 <= j < |c.wire| ==> c.wire[j] == Aead(key, NonceBytes(j), EMPTY, c.sent[j])
  }

  /** Among everything on the wire exactly the next message opens. */
  lemma NextOpens(c: Channel, key: Term, j: nat)
    requires ChannelOk(c, key) && |c.sent| <= COUNTER_LIMIT && j < |c.wire|
    ensures Open(c.recv, EMPTY, c.wire[j]).1 == if j == |c.received| then Some(c.sent[j]) else None
  {
    if NonceBytes(j) == NonceBytes(|c.received|) {
      NonceInjective(j, |c.received|);
    }
  }

  lemma ChannelStepOk(c: Channel, e: ChannelEvent, key: Term)
    requires ChannelOk(c, key) && |ChannelStep(c, e).sent| <= COUNTER_LIMIT
    ensures ChannelOk(ChannelStep(c, e), key)
  {
    if e.Arrive? && e.j < |c.wire| {
      NextOpens(c, key, e.j);
    }
  }

  /** Up to 2^53 messages, whatever order and however often they arrive: what was received
      is a prefix of what was sent, and of everything ever sent exactly the next message
      opens. A replayed, skipped or reordered one is rejected. */
  lemma {:induction false} ReplayIsRejected(key: Term, events: seq<ChannelEvent>, j: nat)
    requires |ChannelRun(FreshChannel(key), events).sent| <= COUNTER_LIMIT
    ensures var c := ChannelRun(FreshChannel(key), events);
            && ChannelOk(c, key) && c.received <= c.sent
            && (j < |c.wire| ==>
                  Open(c.recv, EMPTY, c.wire[j]).1 == if j == |c.received| then Some(c.sent[j]) else None)
    decreases |events|
  {
    var c := ChannelRun(FreshChannel(key), events);
    if events != [] {
      ReplayIsRejected(key, events[..|events| - 1], 0);
      ChannelStepOk(ChannelRun(FreshChannel(key), events[..|events| - 1]), events[|events| - 1], key);
    }
    if j < |c.wire| {
      NextOpens(c, key, j);
    }
  }
}
