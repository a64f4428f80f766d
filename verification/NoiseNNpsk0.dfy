/** Noise_NNpsk0 as written in web/src/pairing/nnpsk0.js: the pairing handshake. */
module NoiseNNpsk0 {
  import opened Wrappers
  import opened Noise

  const PROTOCOL_NAME := "Noise_NNpsk0_25519_ChaChaPoly_SHA256"
  const PROLOGUE := Text("terminal-relay/pair/v1")

  datatype Token = PSK | E | EE

  datatype Message = Message(e: Term, body: Term)

  datatype Party = Party(initiator: bool, psk: Term, e: Option<nat>, re: Option<Term>,
                         msgIndex: nat, ss: Symmetric, send: Option<Cipher>, recv: Option<Cipher>)

  function Start(initiator: bool, psk: Term): Party {
    var h0 := InitialHash(PROTOCOL_NAME);
    Party(initiator, psk, None, None, 0, Symmetric(h0, h0, Cipher(None, 0)).MixHash(PROLOGUE), None, None)
  }

  function Tokens(msgIndex: nat): seq<Token> {
    if msgIndex == 0 then [PSK, E] else [E, EE]
  }

  /** In PSK mode the e token mixes the key as well as the hash. */
  function MixEphemeral(ss: Symmetric, e: Term): Symmetric { ss.MixHash(e).MixKey(e) }

  function ApplyToken(p: Party, t: Token, own: Option<nat>, peer: Option<Term>): (Party, bool) {
    match t
    case PSK => (p.(ss := p.ss.MixKeyAndHash(p.psk)), true)
    case E =>
      if own != None then (p.(e := own, ss := MixEphemeral(p.ss, Public(own.value))), true)
      else if peer != None then (p.(re := peer, ss := MixEphemeral(p.ss, peer.value)), true)
      else (p, false)
    case EE =>
      if p.e == None || p.re == None then (p, false)
      else (p.(ss := p.ss.MixKey(Dh(p.e.value, p.re.value))), true)
  }

  function ApplyTokens(p: Party, ts: seq<Token>, own: Option<nat>, peer: Option<Term>): (Party, bool)
    decreases |ts|
  {
    if ts == [] then (p, true) else
      var (p', ok) := ApplyToken(p, ts[0], own, peer);
      if !ok then (p', false) else ApplyTokens(p', ts[1..], own, peer)
  }

  function AfterMessage(p: Party): Party {
    var q := p.(msgIndex := p.msgIndex + 1);
    if q.msgIndex == 2 then
      var (c1, c2) := q.ss.Split();
      if q.initiator then q.(send := Some(c1), recv := Some(c2)) else q.(send := Some(c2), recv := Some(c1))
    else q
  }

  function Write(p: Party, payload: Term, ephemeral: nat): (Party, Option<Message>) {
    var (q, ok) := ApplyTokens(p, Tokens(p.msgIndex), Some(ephemeral), None);
    if !ok then (q, None) else
      var (ss, body) := q.ss.EncryptAndHash(payload);
      (AfterMessage(q.(ss := ss)), Some(Message(Public(ephemeral), body)))
  }

  function Read(p: Party, m: Message): (Party, Option<Term>) {
    var (q, ok) := ApplyTokens(p, Tokens(p.msgIndex), None, Some(m.e));
    if !ok then (q, None) else
      var (ss, payload) := q.ss.DecryptAndHash(m.body);
      if payload == None then (q.(ss := ss), None) else (AfterMessage(q.(ss := ss)), payload)
  }

  /** The channel binding: the symmetric-state hash. */
  function Binding(p: Party): Term { p.ss.h }

  // ---- The object ----

  class HandshakeNNpsk0 {
    const initiator: bool
    const psk: Term
    const ss: SymmetricState
    var e: Option<nat>
    var re: Option<Term>
    var msgIndex: nat
    var done: bool
    var sendCs: CipherState?
    var recvCs: CipherState?

    ghost predicate Valid()
      reads this
    {
      && (sendCs != null ==> sendCs != ss.cs)
      && (recvCs != null ==> recvCs != ss.cs)
      && (sendCs != null && recvCs != null ==> sendCs != recvCs)
      && (done <==> sendCs != null) && (done <==> recvCs != null)
    }

    ghost function Abs(): Party
      reads this, ss, ss.cs, sendCs, recvCs
    {
      Party(initiator, psk, e, re, msgIndex, ss.Abs(),
            if sendCs == null then None else Some(sendCs.Abs()),
            if recvCs == null then None else Some(recvCs.Abs()))
    }

    constructor (initiator: bool, psk: Term)
      ensures Valid() && Abs() == Start(initiator, psk)
      ensures fresh(ss) && fresh(ss.cs) && !done
    {
      this.initiator, this.psk := initiator, psk;
      e, re, msgIndex, done, sendCs, recvCs := None, None, 0, false, null, null;
      ss := new SymmetricState(PROTOCOL_NAME);
      new;
      ss.MixHash(PROLOGUE);
    }

    method RunTokens(own: Option<nat>, peer: Option<Term>) returns (ok: bool)
      requires Valid() && (own != None || peer != None)
      modifies this`e, this`re, ss, ss.cs
      ensures Valid()
      ensures (Abs(), ok) == ApplyTokens(old(Abs()), Tokens(old(msgIndex)), own, peer)
    {
      var ts := if msgIndex == 0 then [PSK, E] else [E, EE];
      ghost var goal := ApplyTokens(Abs(), ts, own, peer);
      while ts != []
        invariant Valid() && msgIndex == old(msgIndex)
        invariant sendCs == old(sendCs) && recvCs == old(recvCs)
        invariant ApplyTokens(Abs(), ts, own, peer) == goal
        decreases |ts|
      {
        match ts[0] {
          case PSK =>
            ss.MixKeyAndHash(psk);
          case E =>
            var point: Term;
            if own != None {
              e := own;
              point := Public(own.value);
            } else {
              re := peer;
              point := peer.value;
            }
            ss.MixHash(point);
            ss.MixKey(point);
          case EE =>
            if e == None || re == None {
              return false;
            }
            ss.MixKey(Dh(e.value, re.value));
        }
        ts := ts[1..];
      }
      ok := true;
    }

    method Finish()
      requires Valid()
      modifies this`msgIndex, this`done, this`sendCs, this`recvCs
      ensures Valid()
      ensures Abs() == AfterMessage(old(Abs()))
    {
      msgIndex := msgIndex + 1;
      if msgIndex == 2 {
        var c1, c2 := ss.Split();
        if initiator {
          sendCs, recvCs := c1, c2;
        } else {
          sendCs, recvCs := c2, c1;
        }
        done := true;
      }
    }

    method WriteMessage(payload: Term, ephemeral: nat) returns (m: Option<Message>)
      requires Valid()
      modifies this, ss, ss.cs
      ensures Valid()
      ensures (Abs(), m) == Write(old(Abs()), payload, ephemeral)
    {
      var ok := RunTokens(Some(ephemeral), None);
      if !ok {
        return None;
      }
      var body := ss.EncryptAndHash(payload);
      m := Some(Message(Public(ephemeral), body));
      Finish();
    }

    method ReadMessage(m: Message) returns (payload: Option<Term>)
      requires Valid()
      modifies this, ss, ss.cs
      ensures Valid()
      ensures (Abs(), payload) == Read(old(Abs()), m)
    {
      var ok := RunTokens(None, Some(m.e));
      if !ok {
        return None;
      }
      payload := ss.DecryptAndHash(m.body);
      if payload == None {
        return;
      }
      Finish();
    }
  }

  // ---- Closed forms of the four calls ----

  lemma TwoTokens(p: Party, ts: seq<Token>, own: Option<nat>, peer: Option<Term>)
    requires |ts| == 2
    ensures ApplyTokens(p, ts, own, peer) ==
      var (p1, ok1) := ApplyToken(p, ts[0], own, peer);
      if !ok1 then (p1, false) else ApplyToken(p1, ts[1], own, peer)
  {
    var (p1, ok1) := ApplyToken(p, ts[0], own, peer);
    if ok1 {
      var t := ts[1..];
      assert t == [ts[1]] && t[1..] == [];
      var (p2, ok2) := ApplyToken(p1, ts[1], own, peer);
      assert ApplyTokens(p1, t, own, peer) == (p2, ok2);
    }
  }

  function FirstKeys(p: Party, e: Term): Symmetric { MixEphemeral(p.ss.MixKeyAndHash(p.psk), e) }

  function SecondKeys(p: Party, e: Term, ee: Term): Symmetric { MixEphemeral(p.ss, e).MixKey(ee) }

  lemma WriteFirst(p: Party, payload: Term, e: nat)
    requires p.msgIndex == 0
    ensures var (ss, body) := FirstKeys(p, Public(e)).EncryptAndHash(payload);
            Write(p, payload, e) == (p.(e := Some(e), msgIndex := 1, ss := ss), Some(Message(Public(e), body)))
  {
    TwoTokens(p, Tokens(0), Some(e), None);
  }

  lemma ReadFirst(p: Party, m: Message)
    requires p.msgIndex == 0
    ensures var (ss, payload) := FirstKeys(p, m.e).DecryptAndHash(m.body);
            Read(p, m) == if payload == None then (p.(re := Some(m.e), ss := ss), None)
                          else (p.(re := Some(m.e), msgIndex := 1, ss := ss), payload)
  {
    TwoTokens(p, Tokens(0), None, Some(m.e));
  }

  lemma WriteSecond(p: Party, payload: Term, e: nat)
    requires p.msgIndex == 1 && p.re != None && !p.initiator
    ensures var (ss, body) := SecondKeys(p, Public(e), Dh(e, p.re.value)).EncryptAndHash(payload);
            Write(p, payload, e) ==
              (p.(e := Some(e), msgIndex := 2, ss := ss, send := Some(ss.Split().1), recv := Some(ss.Split().0)),
               Some(Message(Public(e), body)))
  {
    TwoTokens(p, Tokens(1), Some(e), None);
  }

  lemma ReadSecond(p: Party, m: Message)
    requires p.msgIndex == 1 && p.e != None && p.initiator
    ensures var (ss, payload) := SecondKeys(p, m.e, Dh(p.e.value, m.e)).DecryptAndHash(m.body);
            Read(p, m) ==
              if payload == None then (p.(re := Some(m.e), ss := ss), None)
              else (p.(re := Some(m.e), msgIndex := 2, ss := ss, send := Some(ss.Split().0),
                       recv := Some(ss.Split().1)), payload)
  {
    TwoTokens(p, Tokens(1), None, Some(m.e));
  }

  // ---- The messages as terms ----

  /** The transcript hash before the first message: the hash of the long name, then the prologue. */
  function StartHash(): Term {
    HashPair(StartChain(), Text("terminal-relay/pair/v1"))
  }

  function StartChain(): Term { HashOf(Text("Noise_NNpsk0_25519_ChaChaPoly_SHA256")) }

  /** The first message: psk gives chaining key, hash input and key, then e is hashed and
      mixed, and the payload is sealed at nonce 0 under the key that gives. */
  lemma FirstMessageIs(psk: Term, e: nat, payload: Term)
    ensures var h := HashPair(HashPair(StartHash(), Kdf(StartChain(), psk, 2)), Public(e));
            var ck := Kdf(StartChain(), psk, 1);
            var body := Aead(Kdf(ck, Public(e), 2), NonceBytes(0), h, payload);
            var (i1, m) := Write(Start(true, psk), payload, e);
            && m == Some(Message(Public(e), body))
            && i1.ss.h == HashPair(h, body) && i1.ss.ck == Kdf(ck, Public(e), 1)
  {
    WriteFirst(Start(true, psk), payload, e);
  }

  /** The second message: e hashed and mixed, then ee; the transport keys are the two outputs
      of the last chaining key, the initiator sending under the first, both from nonce 0. */
  lemma SecondMessageIs(psk: Term, ei: nat, er: nat, p1: Term, p2: Term)
    ensures var (i1, m1) := Write(Start(true, psk), p1, ei);
            && m1 != None
            && var (r2, m2) := Write(Read(Start(false, psk), m1.value).0, p2, er);
            var ck, ee := Kdf(i1.ss.ck, Public(er), 1), Dh(er, Public(ei));
            && m2 == Some(Message(Public(er), Aead(Kdf(ck, ee, 2), NonceBytes(0), HashPair(i1.ss.h, Public(er)), p2)))
            && r2.recv == Some(Cipher(Some(Kdf(Kdf(ck, ee, 1), EMPTY, 1)), 0))
            && r2.send == Some(Cipher(Some(Kdf(Kdf(ck, ee, 1), EMPTY, 2)), 0))
  {
    var i0, r0 := Start(true, psk), Start(false, psk);
    WriteFirst(i0, p1, ei);
    var (i1, m1) := Write(i0, p1, ei);
    ReadFirst(r0, m1.value);
    WriteSecond(Read(r0, m1.value).0, p2, er);
  }

  // ---- Results ----

  /** With one psk on both sides, each party reads the other's payload, both end
      with the same channel binding, and their transport keys cross. */
  lemma HonestRunAgrees(psk: Term, ei: nat, er: nat, p1: Term, p2: Term)
    ensures var (i1, m1) := Write(Start(true, psk), p1, ei);
            && m1 != None
            && var (r1, got1) := Read(Start(false, psk), m1.value);
            && got1 == Some(p1)
            && var (r2, m2) := Write(r1, p2, er);
            && m2 != None
            && var (i2, got2) := Read(i1, m2.value);
            && got2 == Some(p2)
            && Binding(i2) == Binding(r2)
            && i2.send == r2.recv && i2.recv == r2.send && i2.send != None && i2.send != i2.recv
  {
    var i0, r0 := Start(true, psk), Start(false, psk);
    WriteFirst(i0, p1, ei);
    var (i1, m1) := Write(i0, p1, ei);
    ReadFirst(r0, m1.value);
    var r1 := Read(r0, m1.value).0;
    WriteSecond(r1, p2, er);
    var (r2, m2) := Write(r1, p2, er);
    ReadSecond(i1, m2.value);
    DhCommutes(ei, er);
  }

  /** The first message opens exactly for the psk it was written under. */
  lemma FirstReadNeedsSamePsk(pskI: Term, pskR: Term, e: nat, payload: Term)
    ensures var m := Write(Start(true, pskI), payload, e).1;
            && m != None
            && Read(Start(false, pskR), m.value).1 == (if pskI == pskR then Some(payload) else None)
  {
    WriteFirst(Start(true, pskI), payload, e);
    ReadFirst(Start(false, pskR), Write(Start(true, pskI), payload, e).1.value);
  }

  /** A responder that answered: it accepted `seen` and wrote payload p2 under er. */
  ghost predicate Answered(psk: Term, seen: Message, er: nat, p2: Term, final: Party) {
    && Read(Start(false, psk), seen).1 != None
    && Write(Read(Start(false, psk), seen).0, p2, er).0 == final
  }

  lemma ResponderTranscript(psk: Term, seen: Message, er: nat, p2: Term, final: Party)
    requires Answered(psk, seen, er, p2, final)
    ensures var first := FirstKeys(Start(false, psk), seen.e);
            && Read(Start(false, psk), seen).1 != None
            && seen.body == Aead(first.cipher.k.value, NonceBytes(0), first.h, Read(Start(false, psk), seen).1.value)
            && var r1 := Symmetric(HashPair(first.h, seen.body), first.ck, Cipher(first.cipher.k, 1));
            && var keys := MixEphemeral(r1, Public(er)).MixKey(Dh(er, seen.e));
            && Binding(final) == HashPair(keys.h, Aead(keys.cipher.k.value, NonceBytes(0), keys.h, p2))
  {
    var r0 := Start(false, psk);
    ReadFirst(r0, seen);
    var r1 := Read(r0, seen).0;
    WriteSecond(r1, p2, er);
  }

  /** Equal channel bindings identify the whole session: the same psk, the same
      ephemerals on both sides and the same two payloads. */
  lemma BindingIdentifiesSession(psk: Term, seen: Message, er: nat, p2: Term, a: Party,
                                 psk': Term, seen': Message, er': nat, p2': Term, b: Party)
    requires Answered(psk, seen, er, p2, a) && Answered(psk', seen', er', p2', b)
    requires Binding(a) == Binding(b)
    ensures psk == psk' && seen == seen' && er == er' && p2 == p2'
    ensures Read(Start(false, psk), seen).1 == Read(Start(false, psk'), seen').1
  {
    ResponderTranscript(psk, seen, er, p2, a);
    ResponderTranscript(psk', seen', er', p2', b);
    var f, f' := FirstKeys(Start(false, psk), seen.e), FirstKeys(Start(false, psk'), seen'.e);
    assert f.h == f'.h;
  }

  /** An initiator that finished: it wrote p1 under ei and accepted `m`, from whomever, as `got`. */
  ghost predicate Completed(psk: Term, ei: nat, p1: Term, m: Message, got: Term, final: Party) {
    Read(Write(Start(true, psk), p1, ei).0, m) == (final, Some(got))
  }

  lemma InitiatorTranscript(psk: Term, ei: nat, p1: Term, m: Message, got: Term, final: Party)
    requires Completed(psk, ei, p1, m, got, final)
    ensures var first := FirstKeys(Start(true, psk), Public(ei));
            var body := Aead(first.cipher.k.value, NonceBytes(0), first.h, p1);
            && Write(Start(true, psk), p1, ei).1 == Some(Message(Public(ei), body))
            && var i1 := Symmetric(HashPair(first.h, body), first.ck, Cipher(first.cipher.k, 1));
            && var keys := MixEphemeral(i1, m.e).MixKey(Dh(ei, m.e));
            && m.body == Aead(keys.cipher.k.value, NonceBytes(0), keys.h, got)
            && Binding(final) == HashPair(keys.h, m.body)
  {
    var i0 := Start(true, psk);
    WriteFirst(i0, p1, ei);
    ReadSecond(Write(i0, p1, ei).0, m);
  }

  /** What the pairing compares: an initiator and a responder with equal channel bindings,
      whatever each of them was sent, share the psk, both ephemerals and both payloads. */
  lemma BindingTiesInitiatorToResponder(pskI: Term, ei: nat, p1: Term, m: Message, got: Term, i2: Party,
                                        psk: Term, seen: Message, er: nat, p2: Term, r2: Party)
    requires Completed(pskI, ei, p1, m, got, i2) && Answered(psk, seen, er, p2, r2)
    requires Binding(i2) == Binding(r2)
    ensures pskI == psk && seen.e == Public(ei) && m.e == Public(er)
    ensures Read(Start(false, psk), seen).1 == Some(p1) && got == p2
    ensures Write(Start(true, pskI), p1, ei).1 == Some(seen)
  {
    InitiatorTranscript(pskI, ei, p1, m, got, i2);
    ResponderTranscript(psk, seen, er, p2, r2);
    var f, f' := FirstKeys(Start(true, pskI), Public(ei)), FirstKeys(Start(false, psk), seen.e);
    assert f.h == f'.h;
  }

  /** Two initiators with equal bindings had the same session. */
  lemma BindingIdentifiesInitiator(psk: Term, ei: nat, p1: Term, m: Message, got: Term, a: Party,
                                   psk': Term, ei': nat, p1': Term, m': Message, got': Term, b: Party)
    requires Completed(psk, ei, p1, m, got, a) && Completed(psk', ei', p1', m', got', b)
    requires Binding(a) == Binding(b)
    ensures psk == psk' && ei == ei' && p1 == p1' && m == m' && got == got'
  {
    InitiatorTranscript(psk, ei, p1, m, got, a);
    InitiatorTranscript(psk', ei', p1', m', got', b);
    var f, f' := FirstKeys(Start(true, psk), Public(ei)), FirstKeys(Start(true, psk'), Public(ei'));
    assert f.h == f'.h;
  }

  /** An initiator that accepts a responder's message holds that responder's
      binding, psk and payload, whatever the network did in between. */
  lemma AcceptanceMeansAgreement(pskI: Term, ei: nat, p1: Term, psk: Term, seen: Message, er: nat, p2: Term, r2: Party)
    requires Answered(psk, seen, er, p2, r2)
    ensures var (i1, m1) := Write(Start(true, pskI), p1, ei);
            var m2 := Write(Read(Start(false, psk), seen).0, p2, er).1;
            && m2 != None
            && var (i2, got) := Read(i1, m2.value);
            && (got != None ==>
                  && got == Some(p2) && Binding(i2) == Binding(r2) && pskI == psk && m1 == Some(seen)
                  && i2.send == r2.recv && i2.recv == r2.send)
  {
    var i0, r0 := Start(true, pskI), Start(false, psk);
    WriteFirst(i0, p1, ei);
    ReadFirst(r0, seen);
    var (i1, m1) := Write(i0, p1, ei);
    var r1 := Read(r0, seen).0;
    WriteSecond(r1, p2, er);
    var m2 := Write(r1, p2, er).1;
    ReadSecond(i1, m2.value);
    var got := Read(i1, m2.value).1;
    if got != None {
      var a, b := SecondKeys(i1, Public(er), Dh(ei, Public(er))), SecondKeys(r1, Public(er), Dh(er, seen.e));
      assert a.cipher == b.cipher && a.h == b.h;
      assert i1.ss.h == r1.ss.h;
    }
  }

  // ---- After a rejected message ----

  /** The object after reading these messages one after the other. */
  function After(p: Party, ms: seq<Message>): Party
    decreases |ms|
  {
    if ms == [] then p else After(Read(p, ms[0]).0, ms[1..])
  }

  ghost predicate AllRejected(p: Party, ms: seq<Message>)
    decreases |ms|
  {
    ms != [] ==> Read(p, ms[0]).1 == None && AllRejected(Read(p, ms[0]).0, ms[1..])
  }

  predicate Expects(p: Party) {
    (p.msgIndex == 0 && !p.initiator) || (p.msgIndex == 1 && p.initiator && p.e != None)
  }

  /** A rejected message leaves its tokens mixed in and nothing else. */
  lemma RejectedOnce(p: Party, m: Message)
    requires Expects(p) && Read(p, m).1 == None
    ensures var q := Read(p, m).0;
            q == p.(re := q.re, ss := q.ss) && Depth(q.ss.h) > Depth(p.ss.h)
  {
    if p.initiator {
      ReadSecond(p, m);
    } else {
      ReadFirst(p, m);
    }
  }

  lemma {:induction false} Rejected(p: Party, ms: seq<Message>)
    requires Expects(p) && AllRejected(p, ms)
    ensures var q := After(p, ms);
            q == p.(re := q.re, ss := q.ss) && Depth(q.ss.h) >= Depth(p.ss.h) + |ms|
    decreases |ms|
  {
    if ms != [] {
      RejectedOnce(p, ms[0]);
      Rejected(Read(p, ms[0]).0, ms[1..]);
    }
  }

  /** A responder that rejected anything before refuses the genuine first message. */
  lemma RejectionSpoilsResponder(psk: Term, e: nat, payload: Term, bad: seq<Message>)
    requires bad != [] && AllRejected(Start(false, psk), bad)
    ensures var m := Write(Start(true, psk), payload, e).1;
            m != None && Read(After(Start(false, psk), bad), m.value).1 == None
  {
    var i0, r0 := Start(true, psk), Start(false, psk);
    Rejected(r0, bad);
    WriteFirst(i0, payload, e);
    ReadFirst(After(r0, bad), Write(i0, payload, e).1.value);
  }

  /** And an initiator that did refuses the genuine second one. */
  lemma RejectionSpoilsInitiator(psk: Term, ei: nat, er: nat, p1: Term, p2: Term, bad: seq<Message>)
    requires bad != [] && AllRejected(Write(Start(true, psk), p1, ei).0, bad)
    ensures var (i1, m1) := Write(Start(true, psk), p1, ei);
            && m1 != None
            && var m2 := Write(Read(Start(false, psk), m1.value).0, p2, er).1;
            m2 != None && Read(After(i1, bad), m2.value).1 == None
  {
    var i0, r0 := Start(true, psk), Start(false, psk);
    WriteFirst(i0, p1, ei);
    var (i1, m1) := Write(i0, p1, ei);
    ReadFirst(r0, m1.value);
    var r1 := Read(r0, m1.value).0;
    WriteSecond(r1, p2, er);
    Rejected(i1, bad);
    ReadSecond(After(i1, bad), Write(r1, p2, er).1.value);
    assert i1.ss.h == r1.ss.h;
  }
}
