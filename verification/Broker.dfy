/** The relay's agent broker (go/internal/signal/server.go, and the broker-lock
    region of revocations.go): registrations, replacements, exits, revocations,
    browser sessions and answers. Each lock region is one step; teardown is two. */
module Broker {
  import opened Wrappers

  type Slot = nat     // owner|machine, compared for equality only
  type AgentId = nat  // one agent control socket
  type Browser = nat  // one attach socket
  type Session = nat

  /** One agent connection: its slot, its bound sessions, how far its teardown got. */
  datatype Agent = Agent(slot: Slot, sessions: map<Session, Browser>, clearing: bool, done: bool)

  /** One attach handler: the agent connection it captured, and its session once bound. */
  datatype Attach = Attach(slot: Slot, agent: AgentId, session: Option<Session>, gone: bool)

  datatype Relay = Relay(
    maxAgents: nat, maxSessions: nat,
    agents: map<Slot, AgentId>,
    revoked: set<Slot>,
    conns: map<AgentId, Agent>,
    attaches: map<Browser, Attach>,
    lastRegistered: map<Slot, AgentId>,   // history: the last connection registered for a slot
    answered: set<(AgentId, Browser)>,    // history: who sent an answer that reached whom
    offered: set<(Browser, AgentId)>)     // history: whose offer went to which agent

  datatype Event =
    | Register(id: AgentId, slot: Slot, proofOk: bool)
    | Exit(id: AgentId)
    | Clear(id: AgentId)        // teardown under ac.mu
    | CloseDone(id: AgentId)    // teardown after ac.mu
    | Revoke(slot: Slot)
    | Unrevoke(slot: Slot)      // rollback of an unsaved revocation
    | Lookup(b: Browser, slot: Slot)
    | Bind(b: Browser, session: Session)
    | Unbind(b: Browser)
    | Answer(id: AgentId, session: Session)
    | Offer(b: Browser)

  function Init(maxAgents: nat, maxSessions: nat): Relay {
    Relay(maxAgents, maxSessions, map[], {}, map[], map[], map[], {}, {})
  }

  function RegisterStep(s: Relay, id: AgentId, slot: Slot, proofOk: bool): Relay {
    if slot in s.revoked || !proofOk then s
    else if slot !in s.agents && s.maxAgents > 0 && |s.agents| >= s.maxAgents then s
    else s.(agents := s.agents[slot := id], conns := s.conns[id := Agent(slot, map[], false, false)],
            lastRegistered := s.lastRegistered[slot := id])
  }

  function ExitStep(s: Relay, id: AgentId): Relay
    requires id in s.conns
  {
    var slot := s.conns[id].slot;
    if slot in s.agents && s.agents[slot] == id then s.(agents := s.agents - {slot}) else s
  }

  function SetAgent(s: Relay, id: AgentId, a: Agent): Relay { s.(conns := s.conns[id := a]) }

  function BindStep(s: Relay, b: Browser, session: Session): Relay
    requires b in s.attaches && s.attaches[b].agent in s.conns
  {
    var id := s.attaches[b].agent;
    var a := s.conns[id];
    if a.done || (s.maxSessions > 0 && |a.sessions| >= s.maxSessions) then s
    else SetAgent(s, id, a.(sessions := a.sessions[session := b]))
         .(attaches := s.attaches[b := s.attaches[b].(session := Some(session))])
  }

  function UnbindStep(s: Relay, b: Browser): Relay
    requires b in s.attaches && s.attaches[b].session.Some? && s.attaches[b].agent in s.conns
  {
    var a := s.conns[s.attaches[b].agent];
    SetAgent(s, s.attaches[b].agent, a.(sessions := a.sessions - {s.attaches[b].session.value}))
    .(attaches := s.attaches[b := s.attaches[b].(gone := true)])
  }

  function Step(s: Relay, e: Event): Relay {
    match e
    case Register(id, slot, proofOk) => if id in s.conns then s else RegisterStep(s, id, slot, proofOk)
    case Exit(id) => if id in s.conns then ExitStep(s, id) else s
    case Clear(id) =>
      if id in s.conns && !s.conns[id].clearing
      then SetAgent(s, id, s.conns[id].(sessions := map[], clearing := true)) else s
    case CloseDone(id) =>
      if id in s.conns && s.conns[id].clearing then SetAgent(s, id, s.conns[id].(done := true)) else s
    case Revoke(slot) => s.(revoked := s.revoked + {slot}, agents := s.agents - {slot})
    case Unrevoke(slot) => s.(revoked := s.revoked - {slot})
    case Lookup(b, slot) =>
      if b in s.attaches || slot in s.revoked || slot !in s.agents then s
      else s.(attaches := s.attaches[b := Attach(slot, s.agents[slot], None, false)])
    case Bind(b, session) =>
      if b in s.attaches && s.attaches[b].session == None && !s.attaches[b].gone && s.attaches[b].agent in s.conns
      then BindStep(s, b, session) else s
    case Unbind(b) =>
      if b in s.attaches && s.attaches[b].session.Some? && !s.attaches[b].gone && s.attaches[b].agent in s.conns
      then UnbindStep(s, b) else s
    case Answer(id, session) =>
      if id in s.conns && session in s.conns[id].sessions
      then s.(answered := s.answered + {(id, s.conns[id].sessions[session])}) else s
    case Offer(b) =>
      if b in s.attaches && s.attaches[b].slot in s.agents
      then s.(offered := s.offered + {(b, s.agents[s.attaches[b].slot])}) else s
  }

  function Run(s: Relay, es: seq<Event>): Relay
    decreases |es|
  {
    if es == [] then s else Run(Step(s, es[0]), es[1..])
  }

  // ---- Invariant ----

  ghost predicate MapOk(s: Relay) {
    && s.agents.Keys !! s.revoked
    && (s.maxAgents > 0 ==> |s.agents| <= s.maxAgents)
    && forall k :: k in s.agents ==>
         && s.agents[k] in s.conns && s.conns[s.agents[k]].slot == k
         && k in s.lastRegistered && s.lastRegistered[k] == s.agents[k]
  }

  /** Everything bound on an agent connection was bound there by its own attach handler. */
  ghost predicate AgentOk(s: Relay, id: AgentId)
    requires id in s.conns
  {
    && (s.maxSessions > 0 ==> |s.conns[id].sessions| <= s.maxSessions)
    && (s.conns[id].done ==> s.conns[id].clearing)
    && forall x :: x in s.conns[id].sessions ==> BoundHere(s, id, s.conns[id].sessions[x])
  }

  /** b's attach handler is bound, and bound on this very connection. */
  ghost predicate BoundHere(s: Relay, id: AgentId, b: Browser) {
    && b in s.attaches && s.attaches[b].agent == id && s.attaches[b].session.Some?
    && id in s.conns && s.conns[id].slot == s.attaches[b].slot
  }

  ghost predicate AttachOk(s: Relay, b: Browser)
    requires b in s.attaches
  {
    s.attaches[b].agent in s.conns && s.conns[s.attaches[b].agent].slot == s.attaches[b].slot
  }

  ghost predicate SessionsOk(s: Relay) {
    && (forall id :: id in s.conns ==> AgentOk(s, id))
    && (forall b :: b in s.attaches ==> AttachOk(s, b))
    && (forall id, b :: (id, b) in s.answered ==> BoundHere(s, id, b))
  }

  /** Offers went to connections registered for the machine the browser asked for. */
  ghost predicate OfferOk(s: Relay, b: Browser, id: AgentId) {
    b in s.attaches && id in s.conns && s.conns[id].slot == s.attaches[b].slot
  }

  ghost predicate Inv(s: Relay) {
    MapOk(s) && SessionsOk(s) && forall b, id :: (b, id) in s.offered ==> OfferOk(s, b, id)
  }

  ghost predicate SameAttach(a: Attach, a': Attach) {
    a'.agent == a.agent && a'.slot == a.slot && (a.session.Some? ==> a'.session.Some?)
  }

  /** A step never rebinds a bound browser or forgets a connection's slot. */
  ghost predicate Grows(s: Relay, s': Relay) {
    && (forall id :: id in s.conns ==> id in s'.conns && s'.conns[id].slot == s.conns[id].slot)
    && (forall b :: b in s.attaches ==> b in s'.attaches && SameAttach(s.attaches[b], s'.attaches[b]))
  }

  lemma ConnsGrow(s: Relay, e: Event)
    ensures forall id :: id in s.conns ==> id in Step(s, e).conns && Step(s, e).conns[id].slot == s.conns[id].slot
  {
  }

  lemma AttachesGrow(s: Relay, e: Event)
    ensures forall b :: b in s.attaches ==>
        b in Step(s, e).attaches && SameAttach(s.attaches[b], Step(s, e).attaches[b])
  {
  }

  lemma StepGrows(s: Relay, e: Event)
    ensures Grows(s, Step(s, e))
  {
    ConnsGrow(s, e);
    AttachesGrow(s, e);
  }

  lemma BoundStays(s: Relay, s': Relay, id: AgentId, b: Browser)
    requires Grows(s, s') && BoundHere(s, id, b)
    ensures BoundHere(s', id, b)
  {
  }

  lemma MapFrame(s: Relay, s': Relay)
    requires MapOk(s) && s'.agents == s.agents && s'.revoked <= s.revoked && s'.lastRegistered == s.lastRegistered
    requires s'.maxAgents == s.maxAgents && Grows(s, s')
    ensures MapOk(s')
  {
  }

  lemma RegisterMap(s: Relay, id: AgentId, slot: Slot, proofOk: bool)
    requires MapOk(s) && id !in s.conns
    ensures MapOk(RegisterStep(s, id, slot, proofOk))
  {
    var s' := RegisterStep(s, id, slot, proofOk);
    if s' != s {
      SizeAfterPut(s.agents, slot, id);
      RegisteredEntries(s, s', id, slot);
    }
  }

  lemma RegisteredEntries(s: Relay, s': Relay, id: AgentId, slot: Slot)
    requires MapOk(s) && id !in s.conns && slot !in s.revoked && s'.revoked == s.revoked
    requires s'.agents == s.agents[slot := id] && s'.maxAgents == s.maxAgents
    requires s'.maxAgents > 0 ==> |s'.agents| <= s'.maxAgents
    requires s'.conns == s.conns[id := Agent(slot, map[], false, false)]
    requires s'.lastRegistered == s.lastRegistered[slot := id]
    ensures MapOk(s')
  {
  }

  lemma RemoveMap(s: Relay, slot: Slot, revoked: set<Slot>)
    requires MapOk(s) && revoked <= s.revoked + {slot}
    ensures MapOk(s.(agents := s.agents - {slot}, revoked := revoked))
  {
    assert (s.agents - {slot}).Keys == s.agents.Keys - {slot};
  }

  lemma StepMap(s: Relay, e: Event)
    requires MapOk(s)
    ensures MapOk(Step(s, e))
  {
    match e
    case Register(id, slot, proofOk) => if id !in s.conns { RegisterMap(s, id, slot, proofOk); }
    case Exit(id) => if id in s.conns { RemoveMap(s, s.conns[id].slot, s.revoked); }
    case Revoke(slot) => RemoveMap(s, slot, s.revoked + {slot});
    case _ =>
      MapUntouched(s, e);
      StepGrows(s, e);
      MapFrame(s, Step(s, e));
  }

  lemma MapUntouched(s: Relay, e: Event)
    requires !e.Register? && !e.Exit? && !e.Revoke?
    ensures var s' := Step(s, e);
            && s'.agents == s.agents && s'.revoked <= s.revoked
            && s'.lastRegistered == s.lastRegistered && s'.maxAgents == s.maxAgents
  {
  }

  /** An agent connection whose sessions only shrank keeps its invariant. */
  lemma AgentShrinks(s: Relay, s': Relay, id: AgentId)
    requires id in s.conns && AgentOk(s, id) && Grows(s, s') && s'.maxSessions == s.maxSessions
    requires (s'.conns[id].done ==> s'.conns[id].clearing)
    requires var m, m' := s.conns[id].sessions, s'.conns[id].sessions;
             |m'| <= |m| && forall x :: x in m' ==> x in m && m'[x] == m[x]
    ensures AgentOk(s', id)
  {
    forall x | x in s'.conns[id].sessions ensures BoundHere(s', id, s'.conns[id].sessions[x]) {
      BoundStays(s, s', id, s.conns[id].sessions[x]);
    }
  }

  lemma BindAgent(s: Relay, s': Relay, id: AgentId, session: Session, b: Browser)
    requires id in s.conns && AgentOk(s, id) && Grows(s, s') && s'.maxSessions == s.maxSessions
    requires s'.conns[id] == s.conns[id].(sessions := s.conns[id].sessions[session := b])
    requires s.maxSessions > 0 ==> |s.conns[id].sessions| < s.maxSessions
    requires BoundHere(s', id, b)
    ensures AgentOk(s', id)
  {
    var m := s.conns[id].sessions;
    assert m[session := b].Keys == m.Keys + {session};
    forall x | x in s'.conns[id].sessions ensures BoundHere(s', id, s'.conns[id].sessions[x]) {
      if x != session { BoundStays(s, s', id, m[x]); }
    }
  }

  lemma BindStepAgent(s: Relay, b: Browser, session: Session, id: AgentId)
    requires b in s.attaches && s.attaches[b].agent in s.conns && AttachOk(s, b) && s.attaches[b].session == None
    requires id in s.conns && AgentOk(s, id) && Grows(s, BindStep(s, b, session))
    ensures AgentOk(BindStep(s, b, session), id)
  {
    var s' := BindStep(s, b, session);
    if s'.conns[id] == s.conns[id] {
      AgentShrinks(s, s', id);
    } else {
      assert BoundHere(s', id, b);
      BindAgent(s, s', id, session, b);
    }
  }

  lemma UnbindAgent(s: Relay, b: Browser, id: AgentId)
    requires b in s.attaches && s.attaches[b].session.Some? && s.attaches[b].agent in s.conns
    requires id in s.conns && AgentOk(s, id) && Grows(s, UnbindStep(s, b))
    ensures AgentOk(UnbindStep(s, b), id)
  {
    var m, x := s.conns[id].sessions, s.attaches[b].session.value;
    SizeAfterRemove(m, x);
    AgentShrinks(s, UnbindStep(s, b), id);
  }

  /** Only binding and unbinding change single sessions. */
  lemma OtherSteps(s: Relay, e: Event, id: AgentId)
    requires id in s.conns && !e.Bind? && !e.Unbind? && (s.conns[id].done ==> s.conns[id].clearing)
    ensures var a, a' := s.conns[id], Step(s, e).conns[id];
            (a'.sessions == a.sessions || a'.sessions == map[]) && (a'.done ==> a'.clearing)
  {
  }

  lemma StepAgent(s: Relay, e: Event, id: AgentId)
    requires id in s.conns && AgentOk(s, id)
    requires e.Bind? && e.b in s.attaches ==> AttachOk(s, e.b)
    ensures AgentOk(Step(s, e), id)
  {
    StepGrows(s, e);
    match e
    case Bind(b, session) =>
      if b in s.attaches && s.attaches[b].session == None && !s.attaches[b].gone { BindStepAgent(s, b, session, id); }
    case Unbind(b) =>
      if b in s.attaches && s.attaches[b].session.Some? && !s.attaches[b].gone && s.attaches[b].agent in s.conns {
        UnbindAgent(s, b, id);
      }
    case _ =>
      OtherStepAgent(s, e, id);
  }

  lemma OtherStepAgent(s: Relay, e: Event, id: AgentId)
    requires id in s.conns && AgentOk(s, id) && !e.Bind? && !e.Unbind? && Grows(s, Step(s, e))
    ensures AgentOk(Step(s, e), id)
  {
    OtherSteps(s, e, id);
    StepCaps(s, e);
    AgentShrinks(s, Step(s, e), id);
  }

  lemma StepAnswered(s: Relay, e: Event, id: AgentId, b: Browser)
    requires SessionsOk(s) && (id, b) in Step(s, e).answered
    ensures BoundHere(Step(s, e), id, b)
  {
    StepGrows(s, e);
    if (id, b) !in s.answered { assert AgentOk(s, id); }
    BoundStays(s, Step(s, e), id, b);
  }

  lemma StepAttach(s: Relay, e: Event, b: Browser)
    requires MapOk(s) && SessionsOk(s) && b in Step(s, e).attaches
    ensures AttachOk(Step(s, e), b)
  {
    StepGrows(s, e);
    if b in s.attaches { assert AttachOk(s, b); }
  }

  lemma StepOffered(s: Relay, e: Event, b: Browser, id: AgentId)
    requires MapOk(s) && (b, id) in Step(s, e).offered && ((b, id) in s.offered ==> OfferOk(s, b, id))
    ensures OfferOk(Step(s, e), b, id)
  {
    StepGrows(s, e);
  }

  lemma {:induction false} StepAgents(s: Relay, e: Event)
    requires Inv(s)
    ensures forall id :: id in Step(s, e).conns ==> AgentOk(Step(s, e), id)
  {
    var s' := Step(s, e);
    assert e.Bind? && e.b in s.attaches ==> AttachOk(s, e.b);
    forall id | id in s'.conns ensures AgentOk(s', id) {
      if id in s.conns { StepAgent(s, e, id); } else { NewAgent(s, e, id); }
    }
  }

  lemma NewAgent(s: Relay, e: Event, id: AgentId)
    requires id !in s.conns && id in Step(s, e).conns
    ensures AgentOk(Step(s, e), id)
  {
  }

  lemma {:induction false} StepInv(s: Relay, e: Event)
    requires Inv(s)
    ensures Inv(Step(s, e))
  {
    StepMap(s, e);
    StepAgents(s, e);
    var s' := Step(s, e);
    forall b | b in s'.attaches ensures AttachOk(s', b) { StepAttach(s, e, b); }
    forall id, b | (id, b) in s'.answered ensures BoundHere(s', id, b) { StepAnswered(s, e, id, b); }
    forall b, id | (b, id) in s'.offered ensures OfferOk(s', b, id) { StepOffered(s, e, b, id); }
  }

  lemma StepCaps(s: Relay, e: Event)
    ensures Step(s, e).maxAgents == s.maxAgents && Step(s, e).maxSessions == s.maxSessions
  {
  }

  lemma {:induction false} RunInv(s: Relay, es: seq<Event>)
    requires Inv(s)
    ensures Inv(Run(s, es))
    ensures Run(s, es).maxAgents == s.maxAgents && Run(s, es).maxSessions == s.maxSessions
    decreases |es|
  {
    if es != [] {
      StepInv(s, es[0]);
      StepCaps(s, es[0]);
      RunInv(Step(s, es[0]), es[1..]);
    }
  }

  // ---- Results ----

  /** In every reachable state: no revoked slot has a live agent, the map stays
      within its cap, and an entry is the last connection registered for its slot. */
  lemma LiveMapIsSound(maxAgents: nat, maxSessions: nat, es: seq<Event>, slot: Slot)
    ensures var s := Run(Init(maxAgents, maxSessions), es);
            && !(slot in s.revoked && slot in s.agents)
            && (maxAgents > 0 ==> |s.agents| <= maxAgents)
            && (slot in s.agents ==> slot in s.lastRegistered && s.lastRegistered[slot] == s.agents[slot])
  {
    RunInv(Init(maxAgents, maxSessions), es);
  }

  /** A live entry leaves the map only through its own exit or a revocation of its
      slot, and changes only to a newly registered connection: an older connection's
      exit never removes its replacement. */
  lemma EntryChangesOnlyFor(s: Relay, e: Event, slot: Slot)
    requires slot in s.agents
    ensures slot !in Step(s, e).agents ==> e == Exit(s.agents[slot]) || e == Revoke(slot)
    ensures slot in Step(s, e).agents && Step(s, e).agents[slot] != s.agents[slot] ==>
              e.Register? && e.slot == slot && Step(s, e).agents[slot] == e.id && e.id !in s.conns
  {
  }

  /** A brand-new slot needs room; a slot that is live already does not. */
  predicate RoomFor(maxAgents: nat, agents: map<Slot, AgentId>, slot: Slot) {
    slot in agents || maxAgents == 0 || |agents| < maxAgents
  }

  /** An entry that is new or has changed was put there by a registration of that
      slot with a right proof, while the slot was not revoked and there was room. */
  lemma NewEntryIsProven(s: Relay, e: Event, slot: Slot)
    requires slot in Step(s, e).agents && (slot !in s.agents || Step(s, e).agents[slot] != s.agents[slot])
    ensures e == Register(Step(s, e).agents[slot], slot, true)
    ensures slot !in s.revoked && RoomFor(s.maxAgents, s.agents, slot)
  {
  }

  /** And such a registration does go in, with a fresh connection and nothing else changed. */
  lemma ProvenRegistrationEnters(s: Relay, id: AgentId, slot: Slot)
    requires id !in s.conns && slot !in s.revoked && RoomFor(s.maxAgents, s.agents, slot)
    ensures var s' := Step(s, Register(id, slot, true));
            && s'.agents == s.agents[slot := id] && s'.conns == s.conns[id := Agent(slot, map[], false, false)]
            && s'.revoked == s.revoked && s'.attaches == s.attaches
  {
  }

  /** A revoked slot stays without an agent until its revocation is rolled back,
      whatever registers in between. */
  lemma {:induction false} RevokedStaysOut(s: Relay, es: seq<Event>, slot: Slot)
    requires slot in s.revoked && slot !in s.agents && Unrevoke(slot) !in es
    ensures slot in Run(s, es).revoked && slot !in Run(s, es).agents
    decreases |es|
  {
    if es != [] {
      assert es[0] in es;
      RevokedStaysOut(Step(s, es[0]), es[1..], slot);
    }
  }

  /** Signalling goes through: with a live agent that has a session to spare, a new
      browser's lookup and binding, its offer and the agent's answer all arrive. */
  lemma SignallingGoesThrough(maxAgents: nat, maxSessions: nat, es: seq<Event>, b: Browser, x: Session, slot: Slot)
    requires var s := Run(Init(maxAgents, maxSessions), es);
             slot in s.agents && b !in s.attaches && CanBind(s, s.agents[slot])
    ensures var s := Run(Init(maxAgents, maxSessions), es);
            var id := s.agents[slot];
            var s' := Run(Run(s, [Lookup(b, slot), Event.Bind(b, x)]), [Offer(b), Answer(id, x)]);
            (b, id) in s'.offered && (id, b) in s'.answered
  {
    RunInv(Init(maxAgents, maxSessions), es);
    var s := Run(Init(maxAgents, maxSessions), es);
    var id := s.agents[slot];
    TwoSteps(s, Lookup(b, slot), Event.Bind(b, x));
    LookupAndBind(s, b, x, slot);
    var t := Run(s, [Lookup(b, slot), Event.Bind(b, x)]);
    TwoSteps(t, Offer(b), Answer(id, x));
    OfferAndAnswer(t, b, x, id);
  }

  ghost predicate CanBind(s: Relay, id: AgentId) {
    id in s.conns && !s.conns[id].done && (s.maxSessions == 0 || |s.conns[id].sessions| < s.maxSessions)
  }

  /** A lookup captures the live agent, and a binding puts the browser under its session there. */
  lemma LookupAndBind(s: Relay, b: Browser, x: Session, slot: Slot)
    requires MapOk(s) && slot in s.agents && b !in s.attaches && CanBind(s, s.agents[slot])
    ensures var id := s.agents[slot];
            var s' := Step(Step(s, Lookup(b, slot)), Event.Bind(b, x));
            && s'.agents == s.agents && s'.attaches == s.attaches[b := Attach(slot, id, Some(x), false)]
            && s'.conns == s.conns[id := s.conns[id].(sessions := s.conns[id].sessions[x := b])]
  {
    var s1 := Step(s, Lookup(b, slot));
    assert s1 == s.(attaches := s.attaches[b := Attach(slot, s.agents[slot], None, false)]);
  }

  /** An offer goes to the agent that is live when it arrives, even if that is a
      replacement of the captured one; an answer goes to the browser bound under its session. */
  lemma OfferAndAnswer(s: Relay, b: Browser, x: Session, id: AgentId)
    requires b in s.attaches && s.attaches[b].slot in s.agents && id in s.conns && x in s.conns[id].sessions
    ensures var s' := Step(Step(s, Offer(b)), Answer(id, x));
            && s'.offered == s.offered + {(b, s.agents[s.attaches[b].slot])}
            && s'.answered == s.answered + {(id, s.conns[id].sessions[x])}
  {
  }

  /** A torn-down connection ends with nothing bound and done closed, whatever was bound before. */
  lemma TeardownCompletes(s: Relay, id: AgentId)
    requires id in s.conns && !s.conns[id].clearing
    ensures Step(Step(s, Clear(id)), CloseDone(id)).conns == s.conns[id := Agent(s.conns[id].slot, map[], true, true)]
  {
  }

  lemma TwoSteps(s: Relay, a: Event, b: Event)
    ensures Run(s, [a, b]) == Step(Step(s, a), b)
  {
    RunHead(s, a, [b]);
    RunHead(Step(s, a), b, []);
    assert [a, b] == [a] + [b] && [b] == [b] + [];
  }

  lemma RunHead(s: Relay, e: Event, rest: seq<Event>)
    ensures Run(s, [e] + rest) == Run(Step(s, e), rest)
  {
    assert ([e] + rest)[1..] == rest;
  }

  /** An answer only ever reaches a browser bound on the very connection that sent
      it: two connections never answer the same browser, and the answering
      connection serves the machine the browser asked for. Offers, which go to
      whatever connection is live when they arrive, stay on that machine too. */
  lemma AnswersStayHome(maxAgents: nat, maxSessions: nat, es: seq<Event>, id: AgentId, other: AgentId, b: Browser)
    requires (id, b) in Run(Init(maxAgents, maxSessions), es).answered
    ensures var s := Run(Init(maxAgents, maxSessions), es);
            && b in s.attaches && s.attaches[b].agent == id && s.attaches[b].session.Some?
            && id in s.conns && s.conns[id].slot == s.attaches[b].slot
            && ((other, b) in s.answered ==> other == id)
            && ((b, other) in s.offered ==> other in s.conns && s.conns[other].slot == s.conns[id].slot)
  {
    RunInv(Init(maxAgents, maxSessions), es);
    var s := Run(Init(maxAgents, maxSessions), es);
    assert BoundHere(s, id, b);
    if (other, b) in s.answered { assert BoundHere(s, other, b); }
    if (b, other) in s.offered { assert OfferOk(s, b, other); }
  }

  /** Once done is closed no browser can be bound on the connection any more. */
  lemma ClosedConnectionsStayUnbound(s: Relay, e: Event, id: AgentId)
    requires id in s.conns && s.conns[id].done
    ensures var a' := Step(s, e).conns[id];
            a'.done && a'.sessions.Keys <= s.conns[id].sessions.Keys
  {
  }

  /** A connection never holds more sessions than allowed, and done is never closed
      before the teardown has collected the sessions. */
  lemma SessionsStayWithinCap(maxAgents: nat, maxSessions: nat, es: seq<Event>, id: AgentId)
    requires id in Run(Init(maxAgents, maxSessions), es).conns
    ensures var a := Run(Init(maxAgents, maxSessions), es).conns[id];
            (maxSessions > 0 ==> |a.sessions| <= maxSessions) && (a.done ==> a.clearing)
  {
    RunInv(Init(maxAgents, maxSessions), es);
    assert AgentOk(Run(Init(maxAgents, maxSessions), es), id);
  }

  // ---- The shared objects ----

  datatype Registration = Registered(previous: Option<AgentId>) | RejectedRevoked | RejectedProof | RejectedCapacity

  class Server {
    const maxAgents: nat
    var agents: map<Slot, AgentId>
    var revoked: set<Slot>

    constructor (maxAgents: nat)
      ensures this.maxAgents == maxAgents && agents == map[] && revoked == {}
    {
      this.maxAgents, agents, revoked := maxAgents, map[], {};
    }

    ghost predicate Shows(s: Relay)
      reads this
    {
      agents == s.agents && revoked == s.revoked && maxAgents == s.maxAgents
    }

    /** The second lock region of handleAgent. */
    method RegisterAgent(id: AgentId, slot: Slot, proofOk: bool, ghost s: Relay) returns (r: Registration)
      requires Shows(s) && id !in s.conns
      modifies this`agents
      ensures Shows(Step(s, Register(id, slot, proofOk)))
      ensures r.Registered? <==> id in Step(s, Register(id, slot, proofOk)).conns
      ensures r == RejectedRevoked <==> slot in revoked
      ensures r == RejectedProof <==> slot !in revoked && !proofOk
      ensures r == RejectedCapacity <==> slot !in revoked && proofOk && !RoomFor(maxAgents, old(agents), slot)
      ensures r.Registered? ==> r.previous == if slot in old(agents) then Some(old(agents)[slot]) else None
      ensures agents == if r.Registered? then old(agents)[slot := id] else old(agents)
    {
      if slot in revoked {
        return RejectedRevoked;
      }
      if !proofOk {
        return RejectedProof;
      }
      var prev := if slot in agents then Some(agents[slot]) else None;
      if prev == None && maxAgents > 0 && |agents| >= maxAgents {
        return RejectedCapacity;
      }
      agents := agents[slot := id];
      r := Registered(prev);
    }

    /** The deferred lock region of handleAgent. */
    method AgentExits(id: AgentId, slot: Slot, ghost s: Relay) returns (stillLive: bool)
      requires Shows(s) && id in s.conns && s.conns[id].slot == slot
      modifies this`agents
      ensures Shows(Step(s, Exit(id)))
      ensures stillLive <==> slot in old(agents) && old(agents)[slot] == id
      ensures agents == if stillLive then old(agents) - {slot} else old(agents)
    {
      stillLive := slot in agents && agents[slot] == id;
      if stillLive {
        agents := agents - {slot};
      }
    }

    /** The enforcement half of postRevocation's lock region. */
    method RevokeSlot(slot: Slot, ghost s: Relay) returns (evicted: Option<AgentId>)
      requires Shows(s)
      modifies this
      ensures Shows(Step(s, Revoke(slot)))
      ensures evicted == if slot in old(agents) then Some(old(agents)[slot]) else None
      ensures revoked == old(revoked) + {slot} && agents == old(agents) - {slot}
    {
      evicted := if slot in agents then Some(agents[slot]) else None;
      revoked := revoked + {slot};
      agents := agents - {slot};
    }
  }

  datatype BindError = AgentGone | AgentCapacity

  class AgentConn {
    const slot: Slot
    var sessions: map<Session, Browser>
    var tearingDown: bool // the sync.Once
    var done: bool

    constructor (slot: Slot)
      ensures Abs() == Agent(slot, map[], false, false)
    {
      this.slot, sessions, tearingDown, done := slot, map[], false, false;
    }

    ghost function Abs(): Agent
      reads this
    {
      Agent(slot, sessions, tearingDown, done)
    }

    method Bind(session: Session, b: Browser, maxSessions: nat, ghost s: Relay) returns (err: Option<BindError>)
      requires b in s.attaches && s.attaches[b].session == None && !s.attaches[b].gone
      requires s.attaches[b].agent in s.conns && s.conns[s.attaches[b].agent] == Abs() && s.maxSessions == maxSessions
      modifies this`sessions
      ensures Abs() == Step(s, Event.Bind(b, session)).conns[s.attaches[b].agent]
      ensures err == None <==> Step(s, Event.Bind(b, session)).attaches[b].session == Some(session)
      ensures err == Some(AgentGone) <==> done
      ensures err == Some(AgentCapacity) <==> !done && maxSessions > 0 && |old(sessions)| >= maxSessions
      ensures sessions == if err == None then old(sessions)[session := b] else old(sessions)
    {
      if done {
        return Some(AgentGone);
      }
      if maxSessions > 0 && |sessions| >= maxSessions {
        return Some(AgentCapacity);
      }
      sessions := sessions[session := b];
      err := None;
    }

    method Unbind(session: Session, ghost b: Browser, ghost s: Relay)
      requires b in s.attaches && s.attaches[b].session == Some(session) && !s.attaches[b].gone
      requires s.attaches[b].agent in s.conns && s.conns[s.attaches[b].agent] == Abs()
      modifies this`sessions
      ensures Abs() == Step(s, Event.Unbind(b)).conns[s.attaches[b].agent]
      ensures sessions == old(sessions) - {session}
    {
      sessions := sessions - {session};
    }

    method Lookup(session: Session) returns (b: Option<Browser>)
      ensures b == if session in sessions then Some(sessions[session]) else None
    {
      b := if session in sessions then Some(sessions[session]) else None;
    }

    /** The first half of teardown: collect and drop the bound browsers, once. */
    method BeginTeardown(id: AgentId, ghost s: Relay) returns (bound: set<Browser>)
      requires id in s.conns && s.conns[id] == Abs()
      modifies this`sessions, this`tearingDown
      ensures Abs() == Step(s, Clear(id)).conns[id]
      ensures bound == if old(tearingDown) then {} else old(sessions).Values
      ensures tearingDown && sessions == if old(tearingDown) then old(sessions) else map[]
    {
      if tearingDown {
        return {};
      }
      bound := sessions.Values;
      sessions, tearingDown := map[], true;
    }
  }
}
