/** Noise_KK as written in web/src/noise/noise-kk.js. */
module NoiseKK {
  import opened Wrappers
  import opened Noise

  const PROTOCOL_NAME := "Noise_KK_25519_ChaChaPoly_SHA256"
  const PROLOGUE := Text("terminal-relay/v1")

  datatype Token = E | ES | SS | EE | SE

  /** A handshake message: the 32-byte ephemeral, then the sealed payload. */
  datatype Message = Message(e: Term, body: Term)

  /** Everything a HandshakeKK object holds. */
  datatype Party = Party(initiator: bool, s: nat, rs: Term, e: Option<nat>, re: Option<Term>,
                         msgIndex: nat, ss: Symmetric, send: Option<Cipher>, recv: Option<Cipher>)

  function Start(initiator: bool, s: nat, rs: Term): Party {
    var h0 := InitialHash(PROTOCOL_NAME);
    var ss := Symmetric(h0, h0, Cipher(None, 0)).MixHash(PROLOGUE)
              .MixHash(if initiator then Public(s) else rs)
              .MixHash(if initiator then rs else Public(s));
    Party(initiator, s, rs, None, None, 0, ss, None, None)
  }

  function Tokens(msgIndex: nat): seq<Token> {
    if msgIndex == 0 then [E, ES, SS] else [E, EE, SE]
  }

  function DhOf(priv: Option<nat>, point: Option<Term>): Option<Term> {
    if priv == None || point == None then None else Some(Dh(priv.value, point.value))
  }

  /** The shared secret of a token as this party computes it; None when the object
      does not have the key it needs yet (an exception in the source). */
  function DhToken(p: Party, t: Token): Option<Term>
    requires t != E
  {
    match t
    case EE => DhOf(p.e, p.re)
    case SS => DhOf(Some(p.s), Some(p.rs))
    case ES => if p.initiator then DhOf(p.e, Some(p.rs)) else DhOf(Some(p.s), p.re)
    case SE => if p.initiator then DhOf(Some(p.s), p.re) else DhOf(p.e, Some(p.rs))
  }

  /** The effect of one token; `own` is set by the writer, `peer` by the reader. */
  function ApplyToken(p: Party, t: Token, own: Option<nat>, peer: Option<Term>): (Party, bool) {
    match t
    case E =>
      if own != None then (p.(e := own, ss := p.ss.MixHash(Public(own.value))), true)
      else if peer != None then (p.(re := peer, ss := p.ss.MixHash(peer.value)), true)
      else (p, false)
    case _ =>
      match DhToken(p, t)
      case None => (p, false)
      case Some(secret) => (p.(ss := p.ss.MixKey(secret)), true)
  }

  function ApplyTokens(p: Party, ts: seq<Token>, own: Option<nat>, peer: Option<Term>): (Party, bool)
    decreases |ts|
  {
    if ts == [] then (p, true) else
      var (p', ok) := ApplyToken(p, ts[0], own, peer);
      if !ok then (p', false) else ApplyTokens(p', ts[1..], own, peer)
  }

  function AfterMessage(p: Party): Party {
    var q := p.(msgIndex := p.msgIndex + 1);
    if q.msgIndex == 2 then
      var (c1, c2) := q.ss.Split();
      if q.initiator then q.(send := Some(c1), recv := Some(c2)) else q.(send := Some(c2), recv := Some(c1))
    else q
  }

  function Write(p: Party, payload: Term, ephemeral: nat): (Party, Option<Message>) {
    var (q, ok) := ApplyTokens(p, Tokens(p.msgIndex), Some(ephemeral), None);
    if !ok then (q, None) else
      var (ss, body) := q.ss.EncryptAndHash(payload);
      (AfterMessage(q.(ss := ss)), Some(Message(Public(ephemeral), body)))
  }

  function Read(p: Party, m: Message): (Party, Option<Term>) {
    var (q, ok) := ApplyTokens(p, Tokens(p.msgIndex), None, Some(m.e));
    if !ok then (q, None) else
      var (ss, payload) := q.ss.DecryptAndHash(m.body);
      if payload == None then (q.(ss := ss), None) else (AfterMessage(q.(ss := ss)), payload)
  }

  // ---- The object ----

  class HandshakeKK {
    const initiator: bool
    const s: nat
    const rs: Term
    const ss: SymmetricState
    var e: Option<nat>
    var re: Option<Term>
    var msgIndex: nat
    var done: bool
    var sendCs: CipherState?
    var recvCs: CipherState?

    ghost predicate Valid()
      reads this
    {
      && (sendCs != null ==> sendCs != ss.cs)
      && (recvCs != null ==> recvCs != ss.cs)
      && (sendCs != null && recvCs != null ==> sendCs != recvCs)
      && (done <==> sendCs != null) && (done <==> recvCs != null)
    }

    ghost function Abs(): Party
      reads this, ss, ss.cs, sendCs, recvCs
    {
      Party(initiator, s, rs, e, re, msgIndex, ss.Abs(),
            if sendCs == null then None else Some(sendCs.Abs()),
            if recvCs == null then None else Some(recvCs.Abs()))
    }

    constructor (initiator: bool, s: nat, rs: Term)
      ensures Valid() && Abs() == Start(initiator, s, rs)
      ensures fresh(ss) && fresh(ss.cs) && !done
    {
      this.initiator, this.s, this.rs := initiator, s, rs;
      e, re, msgIndex, done, sendCs, recvCs := None, None, 0, false, null, null;
      ss := new SymmetricState(PROTOCOL_NAME);
      new;
      ss.MixHash(PROLOGUE);
      ss.MixHash(if initiator then Public(s) else rs);
      ss.MixHash(if initiator then rs else Public(s));
    }

    method DhTokenSecret(t: Token) returns (secret: Option<Term>)
      requires t != E
      ensures secret == DhToken(Abs(), t)
    {
      match t
      case EE => secret := DhOf(e, re);
      case SS => secret := DhOf(Some(s), Some(rs));
      case ES => secret := if initiator then DhOf(e, Some(rs)) else DhOf(Some(s), re);
      case SE => secret := if initiator then DhOf(Some(s), re) else DhOf(e, Some(rs));
    }

    /** The token loop shared by both directions. */
    method RunTokens(own: Option<nat>, peer: Option<Term>) returns (ok: bool)
      requires Valid() && (own != None || peer != None)
      modifies this`e, this`re, ss, ss.cs
      ensures Valid()
      ensures (Abs(), ok) == ApplyTokens(old(Abs()), Tokens(old(msgIndex)), own, peer)
    {
      var ts := if msgIndex == 0 then [E, ES, SS] else [E, EE, SE];
      ghost var goal := ApplyTokens(Abs(), ts, own, peer);
      while ts != []
        invariant Valid() && msgIndex == old(msgIndex)
        invariant sendCs == old(sendCs) && recvCs == old(recvCs)
        invariant ApplyTokens(Abs(), ts, own, peer) == goal
        decreases |ts|
      {
        if ts[0] == E {
          if own != None {
            e := own;
            ss.MixHash(Public(own.value));
          } else {
            re := peer;
            ss.MixHash(peer.value);
          }
        } else {
          var secret := DhTokenSecret(ts[0]);
          if secret == None {
            return false;
          }
          ss.MixKey(secret.value);
        }
        ts := ts[1..];
      }
      ok := true;
    }

    method Finish()
      requires Valid()
      modifies this`msgIndex, this`done, this`sendCs, this`recvCs
      ensures Valid()
      ensures Abs() == AfterMessage(old(Abs()))
    {
      msgIndex := msgIndex + 1;
      if msgIndex == 2 {
        var c1, c2 := ss.Split();
        if initiator {
          sendCs, recvCs := c1, c2;
        } else {
          sendCs, recvCs := c2, c1;
        }
        done := true;
      }
    }

    method WriteMessage(payload: Term, ephemeral: nat) returns (m: Option<Message>)
      requires Valid()
      modifies this, ss, ss.cs
      ensures Valid()
      ensures (Abs(), m) == Write(old(Abs()), payload, ephemeral)
    {
      var ok := RunTokens(Some(ephemeral), None);
      if !ok {
        return None;
      }
      var body := ss.EncryptAndHash(payload);
      m := Some(Message(Public(ephemeral), body));
      Finish();
    }

    method ReadMessage(m: Message) returns (payload: Option<Term>)
      requires Valid()
      modifies this, ss, ss.cs
      ensures Valid()
      ensures (Abs(), payload) == Read(old(Abs()), m)
    {
      var ok := RunTokens(None, Some(m.e));
      if !ok {
        return None;
      }
      payload := ss.DecryptAndHash(m.body);
      if payload == None {
        return;
      }
      Finish();
    }

    /** Transport encryption; None is the exception before the handshake is done. */
    method Encrypt(plain: Term) returns (ciphertext: Option<Term>)
      requires Valid()
      modifies sendCs
      ensures Valid()
      ensures Abs() ==
              if done then old(Abs()).(send := Some(Seal(old(Abs()).send.value, EMPTY, plain).0)) else old(Abs())
      ensures ciphertext == if done then Some(Seal(old(Abs()).send.value, EMPTY, plain).1) else None
    {
      if sendCs == null {
        return None;
      }
      var ct := sendCs.EncryptWithAd(EMPTY, plain);
      ciphertext := Some(ct);
    }

    /** Transport decryption; None is a thrown exception. */
    method Decrypt(ciphertext: Term) returns (plain: Option<Term>)
      requires Valid()
      modifies recvCs
      ensures Valid()
      ensures Abs() ==
              if done then old(Abs()).(recv := Some(Open(old(Abs()).recv.value, EMPTY, ciphertext).0)) else old(Abs())
      ensures plain == if done then Open(old(Abs()).recv.value, EMPTY, ciphertext).1 else None
    {
      if recvCs == null {
        return None;
      }
      plain := recvCs.DecryptWithAd(EMPTY, ciphertext);
    }
  }

  // ---- What the two parties agree on ----

  lemma ThreeTokens(p: Party, ts: seq<Token>, own: Option<nat>, peer: Option<Term>)
    requires |ts| == 3
    ensures ApplyTokens(p, ts, own, peer) ==
      var (p1, ok1) := ApplyToken(p, ts[0], own, peer);
      if !ok1 then (p1, false) else
      var (p2, ok2) := ApplyToken(p1, ts[1], own, peer);
      if !ok2 then (p2, false) else ApplyToken(p2, ts[2], own, peer)
  {
    var (p1, ok1) := ApplyToken(p, ts[0], own, peer);
    if ok1 {
      var (p2, ok2) := ApplyToken(p1, ts[1], own, peer);
      assert ts[1..][0] == ts[1];
      if ok2 {
        var t := ts[1..][1..];
        assert t == [ts[2]] && t[1..] == [];
        var (p3, ok3) := ApplyToken(p2, ts[2], own, peer);
        assert ApplyTokens(p2, t, own, peer) == (p3, ok3);
        assert ApplyTokens(p1, ts[1..], own, peer) == (p3, ok3);
      }
    }
  }

  function FirstSecrets(p: Party, e: Term, es: Term, ss: Term): Symmetric {
    p.ss.MixHash(e).MixKey(es).MixKey(ss)
  }

  lemma WriteFirst(p: Party, payload: Term, e: nat)
    requires p.msgIndex == 0 && p.initiator
    ensures var sym := FirstSecrets(p, Public(e), Dh(e, p.rs), Dh(p.s, p.rs));
            Write(p, payload, e) ==
              (p.(e := Some(e), msgIndex := 1, ss := sym.EncryptAndHash(payload).0),
               Some(Message(Public(e), sym.EncryptAndHash(payload).1)))
  {
    ThreeTokens(p, Tokens(0), Some(e), None);
  }

  lemma ReadFirst(p: Party, m: Message)
    requires p.msgIndex == 0 && !p.initiator
    ensures var sym := FirstSecrets(p, m.e, Dh(p.s, m.e), Dh(p.s, p.rs));
            Read(p, m) ==
              if sym.DecryptAndHash(m.body).1 == None
              then (p.(re := Some(m.e), ss := sym), None)
              else (p.(re := Some(m.e), msgIndex := 1, ss := sym.DecryptAndHash(m.body).0),
                    sym.DecryptAndHash(m.body).1)
  {
    ThreeTokens(p, Tokens(0), None, Some(m.e));
  }

  lemma WriteSecond(p: Party, payload: Term, e: nat)
    requires p.msgIndex == 1 && !p.initiator && p.re != None
    ensures var sym := FirstSecrets(p, Public(e), Dh(e, p.re.value), Dh(e, p.rs));
            var (ss, body) := sym.EncryptAndHash(payload);
            Write(p, payload, e) ==
              (p.(e := Some(e), msgIndex := 2, ss := ss, send := Some(ss.Split().1), recv := Some(ss.Split().0)),
               Some(Message(Public(e), body)))
  {
    ThreeTokens(p, Tokens(1), Some(e), None);
  }

  lemma ReadSecond(p: Party, m: Message)
    requires p.msgIndex == 1 && p.initiator && p.e != None
    ensures var sym := FirstSecrets(p, m.e, Dh(p.e.value, m.e), Dh(p.s, m.e));
            var (ss, payload) := sym.DecryptAndHash(m.body);
            Read(p, m) ==
              if payload == None then (p.(re := Some(m.e), ss := sym), None)
              else (p.(re := Some(m.e), msgIndex := 2, ss := ss, send := Some(ss.Split().0),
                       recv := Some(ss.Split().1)), payload)
  {
    ThreeTokens(p, Tokens(1), None, Some(m.e));
  }

  // ---- The messages as terms ----

  /** The transcript hash before the first message: name, prologue, initiator and responder static keys. */
  function StartHash(i: Term, r: Term): Term {
    HashPair(HashPair(HashPair(Text("Noise_KK_25519_ChaChaPoly_SHA256"), Text("terminal-relay/v1")), i), r)
  }

  /** The chaining key after es, and after es and ss. */
  function FirstChain(es: Term): Term { Kdf(Text("Noise_KK_25519_ChaChaPoly_SHA256"), es, 1) }

  lemma InitialName()
    ensures InitialHash(PROTOCOL_NAME) == Text("Noise_KK_25519_ChaChaPoly_SHA256")
    ensures PROLOGUE == Text("terminal-relay/v1")
  {
  }

  /** The first message: the ephemeral, and the payload sealed at nonce 0 under the second
      output of the derivation from es, then ss, with the transcript up to e as its data. */
  lemma FirstMessageIs(si: nat, sr: nat, e: nat, payload: Term)
    ensures var es, ss := Dh(e, Public(sr)), Dh(si, Public(sr));
            var h := HashPair(StartHash(Public(si), Public(sr)), Public(e));
            var body := Aead(Kdf(FirstChain(es), ss, 2), NonceBytes(0), h, payload);
            var (i1, m) := Write(Start(true, si, Public(sr)), payload, e);
            && m == Some(Message(Public(e), body))
            && i1.ss.h == HashPair(h, body) && i1.ss.ck == Kdf(FirstChain(es), ss, 1)
  {
    InitialName();
    WriteFirst(Start(true, si, Public(sr)), payload, e);
  }

  /** The second message: sealed likewise after ee and se, over the first ciphertext and both
      ephemerals. The transport keys are the two outputs of the last chaining key, the
      initiator sending under the first, both from nonce 0. */
  lemma SecondMessageIs(si: nat, sr: nat, ei: nat, er: nat, p1: Term, p2: Term)
    ensures var (i1, m1) := Write(Start(true, si, Public(sr)), p1, ei);
            && m1 != None
            && var (r2, m2) := Write(Read(Start(false, sr, Public(si)), m1.value).0, p2, er);
            var ee, se := Dh(er, Public(ei)), Dh(er, Public(si));
            var ck := Kdf(i1.ss.ck, ee, 1);
            && m2 == Some(Message(Public(er), Aead(Kdf(ck, se, 2), NonceBytes(0), HashPair(i1.ss.h, Public(er)), p2)))
            && r2.recv == Some(Cipher(Some(Kdf(Kdf(ck, se, 1), EMPTY, 1)), 0))
            && r2.send == Some(Cipher(Some(Kdf(Kdf(ck, se, 1), EMPTY, 2)), 0))
  {
    var i0, r0 := Start(true, si, Public(sr)), Start(false, sr, Public(si));
    WriteFirst(i0, p1, ei);
    var (i1, m1) := Write(i0, p1, ei);
    ReadFirst(r0, m1.value);
    DhCommutes(ei, sr);
    DhCommutes(si, sr);
    WriteSecond(Read(r0, m1.value).0, p2, er);
  }

  /** Parties that finished with the same hash and chaining key and crossed keys. */
  ghost predicate Agreed(i: Party, r: Party) {
    && i.msgIndex == r.msgIndex == 2
    && i.ss.h == r.ss.h && i.ss.ck == r.ss.ck
    && i.send != None && i.recv != None
    && i.send == r.recv && r.send == i.recv
    && i.send.value.k != None && i.recv.value.k != None && i.send != i.recv
  }

  /** Two honest parties, any keys and any payloads: both messages open to what was
      written and both sides finish in agreement. */
  lemma HonestRunAgrees(si: nat, sr: nat, ei: nat, er: nat, p1: Term, p2: Term)
    ensures var (i1, m1) := Write(Start(true, si, Public(sr)), p1, ei);
            && m1 != None
            && var (r1, got1) := Read(Start(false, sr, Public(si)), m1.value);
            && got1 == Some(p1)
            && var (r2, m2) := Write(r1, p2, er);
            && m2 != None
            && var (i2, got2) := Read(i1, m2.value);
            && got2 == Some(p2)
            && Agreed(i2, r2)
  {
    var i0, r0 := Start(true, si, Public(sr)), Start(false, sr, Public(si));
    WriteFirst(i0, p1, ei);
    var (i1, m1) := Write(i0, p1, ei);
    ReadFirst(r0, m1.value);
    DhCommutes(ei, sr); DhCommutes(si, sr);
    var (r1, got1) := Read(r0, m1.value);
    WriteSecond(r1, p2, er);
    var (r2, m2) := Write(r1, p2, er);
    ReadSecond(i1, m2.value);
    DhCommutes(ei, er); DhCommutes(si, er);
  }

  /** The first message is accepted exactly by the responder it was written for,
      and only if that responder expects this initiator. */
  lemma FirstMessageAuthenticates(si: nat, rsI: Term, sr: nat, rsR: Term, e: nat, payload: Term)
    ensures var m := Write(Start(true, si, rsI), payload, e).1;
            && m != None
            && (Read(Start(false, sr, rsR), m.value).1 != None <==> rsI == Public(sr) && rsR == Public(si))
            && (Read(Start(false, sr, rsR), m.value).1 != None ==>
                Read(Start(false, sr, rsR), m.value).1 == Some(payload))
  {
    var i0, r0 := Start(true, si, rsI), Start(false, sr, rsR);
    WriteFirst(i0, payload, e);
    ReadFirst(r0, Write(i0, payload, e).1.value);
    DhCommutes(e, sr); DhCommutes(si, sr);
    var a := FirstSecrets(i0, Public(e), Dh(e, rsI), Dh(si, rsI));
    var b := FirstSecrets(r0, Public(e), Dh(sr, Public(e)), Dh(sr, rsR));
    assert a.h == b.h <==> rsI == Public(sr) && rsR == Public(si);
  }

  /** Whatever happened on the network before: an initiator that accepts a second
      message written by some responder session is in full agreement with exactly
      that session, and has read its payload. */
  lemma AcceptanceMeansAgreement(si: nat, rsI: Term, ei: nat, p1: Term, sr: nat, rsR: Term, seen: Message, er: nat,
                                 p2: Term)
    requires Read(Start(false, sr, rsR), seen).1 != None
    ensures var i1 := Write(Start(true, si, rsI), p1, ei).0;
            var r1 := Read(Start(false, sr, rsR), seen).0;
            var (r2, m2) := Write(r1, p2, er);
            && m2 != None
            && var (i2, got) := Read(i1, m2.value);
            && (got != None ==>
                  && got == Some(p2)
                  && Agreed(i2, r2)
                  && rsI == Public(sr) && rsR == Public(si)
                  && Write(Start(true, si, rsI), p1, ei).1 == Some(seen))
  {
    var i0, r0 := Start(true, si, rsI), Start(false, sr, rsR);
    WriteFirst(i0, p1, ei);
    ReadFirst(r0, seen);
    var (i1, m1) := Write(i0, p1, ei);
    var r1 := Read(r0, seen).0;
    WriteSecond(r1, p2, er);
    var (r2, m2) := Write(r1, p2, er);
    ReadSecond(i1, m2.value);
    var got := Read(i1, m2.value).1;
    if got != None {
      var a := FirstSecrets(i1, Public(er), Dh(ei, Public(er)), Dh(si, Public(er)));
      var b := FirstSecrets(r1, Public(er), Dh(er, seen.e), Dh(er, rsR));
      assert a.cipher == b.cipher && a.h == b.h;
      assert i1.ss.h == r1.ss.h;
      assert m1.value.body == seen.body;
    }
  }

  /** The whole session: after an honest handshake every interleaving of transport
      traffic delivers, in each direction, a prefix of exactly what was sent. */
  lemma SessionDelivers(si: nat, sr: nat, ei: nat, er: nat, p1: Term, p2: Term, events: seq<LinkEvent>, to: Side)
    ensures var (i1, m1) := Write(Start(true, si, Public(sr)), p1, ei);
            && m1 != None
            && var (r2, m2) := Write(Read(Start(false, sr, Public(si)), m1.value).0, p2, er);
            && m2 != None
            && var i2 := Read(i1, m2.value).0;
            && i2.send != None && i2.recv != None && r2.send != None && r2.recv != None
            && var l := LinkRun(FreshLink(Endpoint(i2.send.value, i2.recv.value),
                                          Endpoint(r2.send.value, r2.recv.value)), events);
            && l.received.At(to) <= l.sent.At(Other(to))
            && |l.sent.At(Other(to))| == |l.received.At(to)| + |l.flight.At(to)|
  {
    HonestRunAgrees(si, sr, ei, er, p1, p2);
    var (i1, m1) := Write(Start(true, si, Public(sr)), p1, ei);
    var (r2, m2) := Write(Read(Start(false, sr, Public(si)), m1.value).0, p2, er);
    var i2 := Read(i1, m2.value).0;
    TransportDelivers(Endpoint(i2.send.value, i2.recv.value), Endpoint(r2.send.value, r2.recv.value), events, to);
  }

  // ---- After a rejected message ----

  /** The object after reading these messages one after the other. */
  function After(p: Party, ms: seq<Message>): Party
    decreases |ms|
  {
    if ms == [] then p else After(Read(p, ms[0]).0, ms[1..])
  }

  ghost predicate AllRejected(p: Party, ms: seq<Message>)
    decreases |ms|
  {
    ms != [] ==> Read(p, ms[0]).1 == None && AllRejected(Read(p, ms[0]).0, ms[1..])
  }

  predicate Expects(p: Party) {
    (p.msgIndex == 0 && !p.initiator) || (p.msgIndex == 1 && p.initiator && p.e != None)
  }

  /** A rejected message leaves its tokens mixed in and nothing else. */
  lemma RejectedOnce(p: Party, m: Message)
    requires Expects(p) && Read(p, m).1 == None
    ensures var q := Read(p, m).0;
            q == p.(re := q.re, ss := q.ss) && Depth(q.ss.h) > Depth(p.ss.h)
  {
    if p.initiator {
      ReadSecond(p, m);
    } else {
      ReadFirst(p, m);
    }
  }

  lemma {:induction false} Rejected(p: Party, ms: seq<Message>)
    requires Expects(p) && AllRejected(p, ms)
    ensures var q := After(p, ms);
            q == p.(re := q.re, ss := q.ss) && Depth(q.ss.h) >= Depth(p.ss.h) + |ms|
    decreases |ms|
  {
    if ms != [] {
      RejectedOnce(p, ms[0]);
      Rejected(Read(p, ms[0]).0, ms[1..]);
    }
  }

  /** A responder that rejected anything before refuses the genuine first message. */
  lemma RejectionSpoilsResponder(si: nat, sr: nat, e: nat, payload: Term, bad: seq<Message>)
    requires bad != [] && AllRejected(Start(false, sr, Public(si)), bad)
    ensures var m := Write(Start(true, si, Public(sr)), payload, e).1;
            m != None && Read(After(Start(false, sr, Public(si)), bad), m.value).1 == None
  {
    var i0, r0 := Start(true, si, Public(sr)), Start(false, sr, Public(si));
    Rejected(r0, bad);
    WriteFirst(i0, payload, e);
    ReadFirst(After(r0, bad), Write(i0, payload, e).1.value);
    assert i0.ss.h == r0.ss.h;
  }

  /** And an initiator that did refuses the genuine second one. */
  lemma RejectionSpoilsInitiator(si: nat, sr: nat, ei: nat, er: nat, p1: Term, p2: Term, bad: seq<Message>)
    requires bad != [] && AllRejected(Write(Start(true, si, Public(sr)), p1, ei).0, bad)
    ensures var (i1, m1) := Write(Start(true, si, Public(sr)), p1, ei);
            && m1 != None
            && var m2 := Write(Read(Start(false, sr, Public(si)), m1.value).0, p2, er).1;
            m2 != None && Read(After(i1, bad), m2.value).1 == None
  {
    var i0, r0 := Start(true, si, Public(sr)), Start(false, sr, Public(si));
    WriteFirst(i0, p1, ei);
    var (i1, m1) := Write(i0, p1, ei);
    ReadFirst(r0, m1.value);
    DhCommutes(ei, sr);
    DhCommutes(si, sr);
    var r1 := Read(r0, m1.value).0;
    WriteSecond(r1, p2, er);
    Rejected(i1, bad);
    ReadSecond(After(i1, bad), Write(r1, p2, er).1.value);
    assert i1.ss.h == r1.ss.h;
  }
}
