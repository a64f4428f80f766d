/** The pairing rendezvous of the relay (go/internal/signal/pair.go): two
    connections meet in a room, one of them drives a bridge, and a timer races
    the second arrival. Lock regions, channel operations and the two halves of
    the bridge teardown are separate steps of any number of handlers. */
module PairRooms {
  import opened Wrappers

  type Conn = nat

  /** Room ids are only ever compared for equality. */
  type Room = nat

  /** Where a handler is. */
  datatype Phase =
    | Selecting             // first arrival, in the select
    | Draining              // timer fired on a claimed room: blocked on <-w.partner
    | TimedOut
    | Driving(other: Conn)  // has its partner, before beginBridge
    | Bridging(other: Conn)
    | Closing(other: Conn)  // closed done, before endBridge
    | Finished(other: Conn)
    | Claiming(waiter: Conn)  // second arrival: took the entry, has not sent yet
    | Following(waiter: Conn) // sent itself, waits on done
    | Released(waiter: Conn)  // saw done
    | Refused               // pair capacity reached

  /** One handler: its room, its phase, its one-slot partner channel, how often its
      done was closed, and (history) who took it out of the waiting map. */
  datatype Handler = Handler(room: Room, phase: Phase, partner: Option<Conn>, closed: nat, claimedBy: Option<Conn>)

  datatype State = State(maxRooms: nat, maxBridges: nat, waiting: map<Room, Conn>, active: nat,
                         conns: map<Conn, Handler>)

  datatype Event =
    | Arrive(c: Conn, room: Room)
    | SendPartner(c: Conn)
    | TakePartner(w: Conn)
    | Timer(w: Conn)
    | Begin(w: Conn)
    | CloseDone(w: Conn)
    | EndBridge(w: Conn)
    | SeeDone(c: Conn)

  function Init(maxRooms: nat, maxBridges: nat): State { State(maxRooms, maxBridges, map[], 0, map[]) }

  function To(s: State, c: Conn, p: Phase): State
    requires c in s.conns
  {
    s.(conns := s.conns[c := s.conns[c].(phase := p)])
  }

  function CloseOnce(s: State, w: Conn, p: Phase): State
    requires w in s.conns
  {
    s.(conns := s.conns[w := s.conns[w].(phase := p, closed := s.conns[w].closed + 1)])
  }

  function ArriveStep(s: State, c: Conn, room: Room): State {
    if room in s.waiting && s.waiting[room] in s.conns then
      var w := s.waiting[room];
      s.(waiting := s.waiting - {room},
         conns := s.conns[w := s.conns[w].(claimedBy := Some(c))][c := Handler(room, Claiming(w), None, 0, None)])
    else if s.maxRooms > 0 && |s.waiting| >= s.maxRooms then
      s.(conns := s.conns[c := Handler(room, Refused, None, 0, None)])
    else
      s.(waiting := s.waiting[room := c], conns := s.conns[c := Handler(room, Selecting, None, 0, None)])
  }

  function SendStep(s: State, c: Conn, w: Conn): State
    requires c in s.conns && w in s.conns
  {
    s.(conns := s.conns[w := s.conns[w].(partner := Some(c))][c := s.conns[c].(phase := Following(w))])
  }

  function TimerStep(s: State, w: Conn): State
    requires w in s.conns
  {
    var room := s.conns[w].room;
    if room in s.waiting && s.waiting[room] == w
    then To(s, w, TimedOut).(waiting := s.waiting - {room})
    else To(s, w, Draining)
  }

  function BeginStep(s: State, w: Conn, other: Conn): State
    requires w in s.conns
  {
    if s.maxBridges > 0 && s.active >= s.maxBridges then CloseOnce(s, w, Finished(other))
    else To(s, w, Bridging(other)).(active := s.active + 1)
  }

  function Step(s: State, e: Event): State {
    match e
    case Arrive(c, room) => if c in s.conns then s else ArriveStep(s, c, room)
    case SendPartner(c) =>
      // a send into a full channel would block, so it is no step
      if c in s.conns && s.conns[c].phase.Claiming? && CanSend(s, c) then SendStep(s, c, s.conns[c].phase.waiter) else s
    case TakePartner(w) =>
      if w in s.conns && (s.conns[w].phase.Selecting? || s.conns[w].phase.Draining?) && s.conns[w].partner.Some? then
        s.(conns := s.conns[w := s.conns[w].(phase := Driving(s.conns[w].partner.value), partner := None)])
      else s
    case Timer(w) => if w in s.conns && s.conns[w].phase.Selecting? then TimerStep(s, w) else s
    case Begin(w) => if w in s.conns && s.conns[w].phase.Driving? then BeginStep(s, w, s.conns[w].phase.other) else s
    case CloseDone(w) =>
      if w in s.conns && s.conns[w].phase.Bridging? then CloseOnce(s, w, Closing(s.conns[w].phase.other)) else s
    case EndBridge(w) =>
      if w in s.conns && s.conns[w].phase.Closing?
      then To(s, w, Finished(s.conns[w].phase.other)).(active := if s.active > 0 then s.active - 1 else 0)
      else s
    case SeeDone(c) =>
      if c in s.conns && s.conns[c].phase.Following? && s.conns[c].phase.waiter in s.conns
         && s.conns[s.conns[c].phase.waiter].closed > 0
      then To(s, c, Released(s.conns[c].phase.waiter))
      else s
  }

  /** The claimant's channel send can proceed: the channel is empty. */
  predicate CanSend(s: State, c: Conn)
    requires c in s.conns && s.conns[c].phase.Claiming?
  {
    s.conns[c].phase.waiter in s.conns && s.conns[s.conns[c].phase.waiter].partner == None
  }

  function Run(s: State, es: seq<Event>): State
    decreases |es|
  {
    if es == [] then s else Run(Step(s, es[0]), es[1..])
  }

  // ---- The invariant ----

  predicate IsClaim(p: Phase) { p.Claiming? || p.Following? || p.Released? }

  ghost predicate IsWaiting(s: State, c: Conn)
    requires c in s.conns
  {
    s.conns[c].room in s.waiting && s.waiting[s.conns[c].room] == c
  }

  /** The claimant of w exists, is in the same room, and is in one of these phases. */
  ghost predicate ClaimantIs(s: State, w: Conn, o: Conn, claiming: bool, following: bool, released: bool)
    requires w in s.conns
  {
    && s.conns[w].claimedBy == Some(o) && o in s.conns && s.conns[o].room == s.conns[w].room
    && ((claiming && s.conns[o].phase == Claiming(w)) || (following && s.conns[o].phase == Following(w))
        || (released && s.conns[o].phase == Released(w)))
  }

  /** A claimed waiter that has not picked up its partner: the claimant is about to
      send into the empty channel, or sits in the channel. */
  ghost predicate Handover(s: State, w: Conn)
    requires w in s.conns
  {
    match s.conns[w].partner
    case None => s.conns[w].claimedBy.Some? && ClaimantIs(s, w, s.conns[w].claimedBy.value, true, false, false)
    case Some(o) => ClaimantIs(s, w, o, false, true, false)
  }

  ghost predicate ConnOk(s: State, c: Conn)
    requires c in s.conns
  {
    var h := s.conns[c];
    && h.closed == (if h.phase.Closing? || h.phase.Finished? then 1 else 0)
    && (h.partner.Some? ==> h.phase.Selecting? || h.phase.Draining?)
    && match h.phase
       case Selecting => if IsWaiting(s, c) then h.claimedBy == None && h.partner == None else Handover(s, c)
       case Draining => Handover(s, c)
       case TimedOut => h.claimedBy == None
       case Refused => h.claimedBy == None
       case Driving(o) => ClaimantIs(s, c, o, false, true, false)
       case Bridging(o) => ClaimantIs(s, c, o, false, true, false)
       case Closing(o) => ClaimantIs(s, c, o, false, true, true)
       case Finished(o) => ClaimantIs(s, c, o, false, true, true)
       case Claiming(w) => ClaimOk(s, c, w)
       case Following(w) => ClaimOk(s, c, w)
       case Released(w) => ClaimOk(s, c, w)
  }

  /** c claimed w: w knows it, is in the same room and never timed out. */
  ghost predicate ClaimOk(s: State, c: Conn, w: Conn)
    requires c in s.conns
  {
    && s.conns[c].claimedBy == None
    && w in s.conns && s.conns[w].claimedBy == Some(c) && s.conns[w].room == s.conns[c].room
    && !IsClaim(s.conns[w].phase) && !s.conns[w].phase.TimedOut? && !s.conns[w].phase.Refused?
  }

  ghost predicate WaitingOk(s: State) {
    forall r :: r in s.waiting ==>
      s.waiting[r] in s.conns && s.conns[s.waiting[r]].phase == Selecting && s.conns[s.waiting[r]].room == r
  }

  ghost predicate Linked(s: State) { WaitingOk(s) && forall c :: c in s.conns ==> ConnOk(s, c) }

  ghost function Bridges(s: State): set<Conn> {
    set w | w in s.conns && (s.conns[w].phase.Bridging? || s.conns[w].phase.Closing?)
  }

  ghost predicate Counts(s: State) {
    && s.active == |Bridges(s)|
    && (s.maxBridges > 0 ==> s.active <= s.maxBridges)
    && (s.maxRooms > 0 ==> |s.waiting| <= s.maxRooms)
  }

  ghost predicate Inv(s: State) { Linked(s) && Counts(s) }

  // ---- Preservation of the links, one handler at a time ----

  lemma ArriveLinks(s: State, c: Conn, room: Room, d: Conn)
    requires Linked(s) && c !in s.conns && d in ArriveStep(s, c, room).conns
    ensures ConnOk(ArriveStep(s, c, room), d)
  {
    if d in s.conns { assert ConnOk(s, d); }
    if room in s.waiting { assert ConnOk(s, s.waiting[room]); }
  }

  lemma SendLinks(s: State, c: Conn, d: Conn)
    requires Linked(s) && c in s.conns && s.conns[c].phase.Claiming? && CanSend(s, c) && d in s.conns
    ensures ConnOk(SendStep(s, c, s.conns[c].phase.waiter), d)
  {
    assert ConnOk(s, c) && ConnOk(s, d) && ConnOk(s, s.conns[c].phase.waiter);
  }

  /** A waiter that only moves between phases keeps everyone else's links. */
  lemma OthersKept(s: State, w: Conn, h: Handler, d: Conn)
    requires Linked(s) && w in s.conns && d in s.conns && d != w
    requires !IsClaim(s.conns[w].phase) && !IsClaim(h.phase) && !h.phase.TimedOut? && !h.phase.Refused?
    requires h.room == s.conns[w].room && h.claimedBy == s.conns[w].claimedBy
    ensures ConnOk(s.(conns := s.conns[w := h]), d)
  {
    assert ConnOk(s, d) && ConnOk(s, w);
  }

  lemma TimerLinks(s: State, w: Conn, d: Conn)
    requires Linked(s) && w in s.conns && s.conns[w].phase.Selecting? && d in s.conns
    ensures ConnOk(TimerStep(s, w), d)
  {
    assert ConnOk(s, w) && ConnOk(s, d);
  }

  lemma SeeDoneLinks(s: State, c: Conn, d: Conn)
    requires Linked(s) && c in s.conns && d in s.conns && s.conns[c].phase.Following?
    requires s.conns[c].phase.waiter in s.conns && s.conns[s.conns[c].phase.waiter].closed > 0
    ensures ConnOk(To(s, c, Released(s.conns[c].phase.waiter)), d)
  {
    assert ConnOk(s, c) && ConnOk(s, d) && ConnOk(s, s.conns[c].phase.waiter);
  }

  lemma StepConns(s: State, e: Event, d: Conn)
    requires Linked(s) && d in Step(s, e).conns
    ensures ConnOk(Step(s, e), d)
  {
    var s' := Step(s, e);
    if s' == s { assert ConnOk(s, d); return; }
    match e
    case Arrive(c, room) => ArriveLinks(s, c, room, d);
    case SendPartner(c) => SendLinks(s, c, d);
    case TakePartner(w) => WaiterMoves(s, w, s'.conns[w], s', d);
    case Timer(w) => TimerLinks(s, w, d);
    case Begin(w) => WaiterMoves(s, w, s'.conns[w], s', d);
    case CloseDone(w) => WaiterMoves(s, w, s'.conns[w], s', d);
    case EndBridge(w) => WaiterMoves(s, w, s'.conns[w], s', d);
    case SeeDone(c) => SeeDoneLinks(s, c, d);
  }

  /** The phase changes of a claimed waiter, in the order they can happen. */
  predicate Progress(a: Handler, b: Handler) {
    || ((a.phase.Selecting? || a.phase.Draining?) && a.partner.Some?
        && b == a.(phase := Driving(a.partner.value), partner := None))
    || (a.phase.Driving? && b == a.(phase := Bridging(a.phase.other)))
    || (a.phase.Driving? && b == a.(phase := Finished(a.phase.other), closed := a.closed + 1))
    || (a.phase.Bridging? && b == a.(phase := Closing(a.phase.other), closed := a.closed + 1))
    || (a.phase.Closing? && b == a.(phase := Finished(a.phase.other)))
  }

  lemma WaiterMoves(s: State, w: Conn, h: Handler, s': State, d: Conn)
    requires Linked(s) && w in s.conns && d in s.conns && Progress(s.conns[w], h)
    requires s'.conns == s.conns[w := h] && s'.waiting == s.waiting
    ensures ConnOk(s', d)
  {
    assert ConnOk(s, w);
    if d != w {
      OthersKept(s, w, h, d);
      assert ConnOk(s.(conns := s.conns[w := h]), d);
    }
  }

  lemma StepWaiting(s: State, e: Event)
    requires Linked(s)
    ensures WaitingOk(Step(s, e))
  {
    match e
    case Arrive(c, room) => if c !in s.conns { ArriveWaiting(s, c, room); }
    case Timer(w) => if w in s.conns && s.conns[w].phase.Selecting? { TimerWaiting(s, w); }
    case SendPartner(c) =>
      if c in s.conns && s.conns[c].phase.Claiming? && CanSend(s, c) { SendWaiting(s, c, s.conns[c].phase.waiter); }
    case _ => OtherWaiting(s, e);
  }

  lemma ArriveWaiting(s: State, c: Conn, room: Room)
    requires Linked(s) && c !in s.conns
    ensures WaitingOk(ArriveStep(s, c, room))
  {
  }

  lemma TimerWaiting(s: State, w: Conn)
    requires Linked(s) && w in s.conns
    ensures WaitingOk(TimerStep(s, w))
  {
  }

  lemma SendWaiting(s: State, c: Conn, w: Conn)
    requires Linked(s) && c in s.conns && s.conns[c].phase.Claiming? && w in s.conns
    ensures WaitingOk(SendStep(s, c, w))
  {
  }

  /** Nobody else who moves is waiting: a waiter has no partner in its channel. */
  lemma OtherWaiting(s: State, e: Event)
    requires Linked(s) && !e.Arrive? && !e.Timer? && !e.SendPartner?
    ensures WaitingOk(Step(s, e))
  {
    var s' := Step(s, e);
    forall r | r in s'.waiting
      ensures s'.waiting[r] in s'.conns && s'.conns[s'.waiting[r]].phase == Selecting
      ensures s'.conns[s'.waiting[r]].room == r
    {
      assert ConnOk(s, s.waiting[r]);
    }
  }

  // ---- Preservation of the counts ----

  predicate InBridge(p: Phase) { p.Bridging? || p.Closing? }

  lemma BridgesSame(s: State, s': State)
    requires s.conns.Keys <= s'.conns.Keys
    requires forall c :: c in s.conns ==> (InBridge(s'.conns[c].phase) <==> InBridge(s.conns[c].phase))
    requires forall c :: c in s'.conns && c !in s.conns ==> !InBridge(s'.conns[c].phase)
    ensures Bridges(s') == Bridges(s)
  {
  }

  lemma BeginActive(s: State, w: Conn)
    requires Counts(s)
    ensures Step(s, Begin(w)).active == |Bridges(Step(s, Begin(w)))|
  {
    var s' := Step(s, Begin(w));
    if s'.active == s.active + 1 {
      assert Bridges(s') == Bridges(s) + {w} && w !in Bridges(s);
    } else {
      BridgesSame(s, s');
    }
  }

  lemma {:induction false} EndActive(s: State, w: Conn)
    requires Counts(s)
    ensures Step(s, EndBridge(w)).active == |Bridges(Step(s, EndBridge(w)))|
  {
    var s' := Step(s, EndBridge(w));
    if s' != s {
      BridgeEnds(s, s', w);
    }
  }

  lemma BridgeEnds(s: State, s': State, w: Conn)
    requires w in s.conns && InBridge(s.conns[w].phase)
    requires exists h :: s'.conns == s.conns[w := h] && !InBridge(h.phase)
    ensures Bridges(s) == Bridges(s') + {w} && w !in Bridges(s')
    ensures |Bridges(s)| == |Bridges(s')| + 1
  {
  }

  lemma StepActive(s: State, e: Event)
    requires Counts(s)
    ensures Step(s, e).active == |Bridges(Step(s, e))|
  {
    match e
    case Begin(w) => BeginActive(s, w);
    case EndBridge(w) => EndActive(s, w);
    case _ => BridgesSame(s, Step(s, e));
  }

  lemma {:induction false} StepRooms(s: State, e: Event)
    requires s.maxRooms > 0 ==> |s.waiting| <= s.maxRooms
    ensures s.maxRooms > 0 ==> |Step(s, e).waiting| <= s.maxRooms
  {
    if e.Arrive? {
      ArriveRooms(s, e.c, e.room);
    } else if e.Timer? && e.w in s.conns {
      TimerRooms(s, e.w);
    } else {
      RoomsUntouched(s, e);
    }
  }

  lemma ArriveRooms(s: State, c: Conn, room: Room)
    requires s.maxRooms > 0 ==> |s.waiting| <= s.maxRooms
    ensures s.maxRooms > 0 ==> |ArriveStep(s, c, room).waiting| <= s.maxRooms
  {
    SizeAfterPut(s.waiting, room, c);
    SizeAfterRemove(s.waiting, room);
  }

  lemma TimerRooms(s: State, w: Conn)
    requires w in s.conns
    ensures |TimerStep(s, w).waiting| <= |s.waiting|
  {
    SizeAfterRemove(s.waiting, s.conns[w].room);
  }

  lemma RoomsUntouched(s: State, e: Event)
    requires !e.Arrive? && (e.Timer? ==> e.w !in s.conns)
    ensures Step(s, e).waiting == s.waiting
  {
  }

  lemma StepCounts(s: State, e: Event)
    requires Counts(s)
    ensures Counts(Step(s, e))
  {
    StepActive(s, e);
    StepRooms(s, e);
  }

  lemma {:induction false} StepInv(s: State, e: Event)
    requires Inv(s)
    ensures Inv(Step(s, e))
  {
    forall d | d in Step(s, e).conns ensures ConnOk(Step(s, e), d) { StepConns(s, e, d); }
    StepWaiting(s, e);
    StepCounts(s, e);
  }

  lemma {:induction false} RunInv(s: State, es: seq<Event>)
    requires Inv(s)
    ensures Inv(Run(s, es))
    decreases |es|
  {
    if es != [] {
      StepInv(s, es[0]);
      RunInv(Step(s, es[0]), es[1..]);
    }
  }

  // ---- What holds in every reachable state ----

  /** w waited and c claimed it: they are in the same room and each names the other. */
  ghost predicate Paired(s: State, w: Conn, c: Conn) {
    && w in s.conns && c in s.conns && w != c && s.conns[w].room == s.conns[c].room
    && s.conns[w].claimedBy == Some(c) && IsClaim(s.conns[c].phase) && s.conns[c].phase.waiter == w
  }

  ghost predicate Unpaired(s: State, c: Conn) { forall o :: !Paired(s, c, o) && !Paired(s, o, c) }

  /** c drives the pair with o and is in no other pair. */
  ghost predicate Drives(s: State, c: Conn, o: Conn) {
    Paired(s, c, o) && forall q :: !Paired(s, q, c) && (Paired(s, c, q) ==> q == o)
  }

  /** c follows o's drive and is in no other pair. */
  ghost predicate Follows(s: State, c: Conn, o: Conn) {
    Paired(s, o, c) && forall q :: !Paired(s, c, q) && (Paired(s, q, c) ==> q == o)
  }

  lemma Accounted(s: State, c: Conn)
    requires Linked(s) && c in s.conns
    ensures match s.conns[c].phase
            case Refused => Unpaired(s, c)
            case TimedOut => Unpaired(s, c)
            case Selecting =>
              if IsWaiting(s, c) then Unpaired(s, c)
              else s.conns[c].claimedBy.Some? && Drives(s, c, s.conns[c].claimedBy.value)
            case Draining => s.conns[c].claimedBy.Some? && Drives(s, c, s.conns[c].claimedBy.value)
            case Driving(o) => Drives(s, c, o)
            case Bridging(o) => Drives(s, c, o)
            case Closing(o) => Drives(s, c, o)
            case Finished(o) => Drives(s, c, o)
            case Claiming(w) => Follows(s, c, w)
            case Following(w) => Follows(s, c, w)
            case Released(w) => Follows(s, c, w)
  {
    assert ConnOk(s, c);
    if s.conns[c].claimedBy.Some? && s.conns[c].claimedBy.value in s.conns {
      assert ConnOk(s, s.conns[c].claimedBy.value);
    }
  }

  /** Every admitted connection is still waiting, timed out, or in exactly one pair
      in its own room; in a pair the first arrival drives and the second never does. */
  lemma EveryConnectionAccountedFor(maxRooms: nat, maxBridges: nat, es: seq<Event>, c: Conn)
    requires c in Run(Init(maxRooms, maxBridges), es).conns
    ensures var s := Run(Init(maxRooms, maxBridges), es);
            var p := s.conns[c].phase;
            || ((p.Refused? || p.TimedOut? || (p.Selecting? && IsWaiting(s, c))) && Unpaired(s, c))
            || (!IsClaim(p) && exists o :: Drives(s, c, o))
            || (IsClaim(p) && exists o :: Follows(s, c, o))
  {
    RunInv(Init(maxRooms, maxBridges), es);
    Accounted(Run(Init(maxRooms, maxBridges), es), c);
  }

  /** The partner send never blocks; a waiter whose timer lost the race always gets
      its claimant; a claimant's waiter never times out; done is closed at most
      once, and exactly when the bridge is over. */
  lemma NobodyIsOrphaned(maxRooms: nat, maxBridges: nat, es: seq<Event>, c: Conn)
    requires c in Run(Init(maxRooms, maxBridges), es).conns
    ensures var s := Run(Init(maxRooms, maxBridges), es);
            var h := s.conns[c];
            && (h.phase.Claiming? ==> CanSend(s, c))
            && (h.phase.Draining? ==>
                  && h.claimedBy.Some?
                  && (h.partner == h.claimedBy ||
                      (h.partner == None && Step(s, SendPartner(h.claimedBy.value)).conns[c].partner == h.claimedBy)))
            && (IsClaim(h.phase) ==> h.phase.waiter in s.conns && !s.conns[h.phase.waiter].phase.TimedOut?)
            && h.closed <= 1 && (h.closed == 1 <==> h.phase.Closing? || h.phase.Finished?)
  {
    RunInv(Init(maxRooms, maxBridges), es);
    var s := Run(Init(maxRooms, maxBridges), es);
    assert ConnOk(s, c);
    var h := s.conns[c];
    if IsClaim(h.phase) { assert ConnOk(s, h.phase.waiter); }
    if h.claimedBy.Some? { assert ConnOk(s, h.claimedBy.value); }
  }

  /** Waiting rooms and active bridges stay within their caps, and the counter is
      the number of bridges, in every reachable state. */
  lemma CapsHold(maxRooms: nat, maxBridges: nat, es: seq<Event>)
    ensures var s := Run(Init(maxRooms, maxBridges), es);
            && s.active == |Bridges(s)|
            && (maxBridges > 0 ==> |Bridges(s)| <= maxBridges)
            && (maxRooms > 0 ==> |s.waiting| <= maxRooms)
  {
    RunInv(Init(maxRooms, maxBridges), es);
    RunKeepsCaps(Init(maxRooms, maxBridges), es);
  }

  lemma {:induction false} RunKeepsCaps(s: State, es: seq<Event>)
    ensures Run(s, es).maxRooms == s.maxRooms && Run(s, es).maxBridges == s.maxBridges
    decreases |es|
  {
    if es != [] { RunKeepsCaps(Step(s, es[0]), es[1..]); }
  }

  // ---- Two arrivals meet, and every pair ends ----

  predicate BridgeFree(s: State) { s.maxBridges == 0 || s.active < s.maxBridges }

  /** The second arrival of a room claims the first, whatever else is going on. */
  lemma ArrivalClaims(s: State, c: Conn, room: Room)
    requires Inv(s) && room in s.waiting && c !in s.conns
    ensures var w := s.waiting[room];
            var s' := Step(s, Arrive(c, room));
            && w in s.conns && w != c && s'.waiting == s.waiting - {room} && s'.active == s.active
            && s'.conns[c] == Handler(room, Claiming(w), None, 0, None)
            && s'.conns[w] == Handler(room, Selecting, None, 0, Some(c))
  {
    assert ConnOk(s, s.waiting[room]);
  }

  lemma HandedOver(s: State, c: Conn, w: Conn, room: Room)
    requires c in s.conns && w in s.conns && c != w && BridgeFree(s)
    requires s.conns[c] == Handler(room, Claiming(w), None, 0, None)
    requires s.conns[w] == Handler(room, Selecting, None, 0, Some(c))
    ensures var s' := Step(Step(Step(s, SendPartner(c)), TakePartner(w)), Begin(w));
            && w in s'.conns && s'.conns[w].phase == Bridging(c)
            && c in s'.conns && s'.conns[c].phase == Following(w)
            && s'.waiting == s.waiting && s'.active == s.active + 1
  {
    var s1 := Step(s, SendPartner(c));
    assert s1.conns[w] == Handler(room, Selecting, Some(c), 0, Some(c));
  }

  /** From any reachable state with a waiter in the room and a bridge to spare, a
      second arrival and its handover end with the first driving a bridge to it. */
  lemma ArrivalsMeet(maxRooms: nat, maxBridges: nat, es: seq<Event>, c: Conn, room: Room)
    requires var s := Run(Init(maxRooms, maxBridges), es);
             room in s.waiting && c !in s.conns && BridgeFree(s)
    ensures var s := Run(Init(maxRooms, maxBridges), es);
            var w := s.waiting[room];
            var s' := Run(s, [Arrive(c, room), SendPartner(c), TakePartner(w), Begin(w)]);
            && w in s'.conns && s'.conns[w].phase == Bridging(c)
            && c in s'.conns && s'.conns[c].phase == Following(w)
            && room !in s'.waiting && s'.active == s.active + 1
  {
    var s := Run(Init(maxRooms, maxBridges), es);
    RunInv(Init(maxRooms, maxBridges), es);
    ArrivalClaims(s, c, room);
    var w := s.waiting[room];
    var s1 := Step(s, Arrive(c, room));
    var s2 := Step(s1, SendPartner(c));
    var s3 := Step(s2, TakePartner(w));
    HandedOver(s1, c, w, room);
    FourSteps(s, s1, s2, s3, Arrive(c, room), SendPartner(c), TakePartner(w), Begin(w));
  }

  lemma RunHead(s: State, e: Event, rest: seq<Event>)
    ensures Run(s, [e] + rest) == Run(Step(s, e), rest)
  {
    assert ([e] + rest)[1..] == rest;
  }

  lemma FourSteps(s: State, s1: State, s2: State, s3: State, a: Event, b: Event, c: Event, d: Event)
    requires s1 == Step(s, a) && s2 == Step(s1, b) && s3 == Step(s2, c)
    ensures Run(s, [a, b, c, d]) == Step(s3, d)
  {
    RunHead(s, a, [b, c, d]);
    RunHead(s1, b, [c, d]);
    RunHead(s2, c, [d]);
    RunHead(s3, d, []);
    assert [a, b, c, d] == [a] + [b, c, d] && [b, c, d] == [b] + [c, d] && [c, d] == [c] + [d] && [d] == [d] + [];
  }

  /** Up to the bridge: wherever a claimed pair has got to, these two steps bring
      the waiter its claimant. */
  lemma HandoverCompletes(s: State, c: Conn, w: Conn)
    requires Inv(s) && c in s.conns && s.conns[c].phase in {Claiming(w), Following(w), Released(w)}
    ensures var s' := Step(Step(s, SendPartner(c)), TakePartner(w));
            && c in s'.conns && w in s'.conns && c != w && s'.active == s.active && s'.maxBridges == s.maxBridges
            && s'.conns[w].phase in {Driving(c), Bridging(c), Closing(c), Finished(c)}
            && s'.conns[c].phase in {Following(w), Released(w)}
            && Inv(s')
  {
    var s1 := Step(s, SendPartner(c));
    StepInv(s, SendPartner(c));
    Sent(s, c, w);
    StepInv(s1, TakePartner(w));
    Taken(s1, c, w);
  }

  /** After its send the claimant follows, and its waiter either has been told or knows already. */
  lemma Sent(s: State, c: Conn, w: Conn)
    requires Inv(s) && c in s.conns && s.conns[c].phase in {Claiming(w), Following(w), Released(w)}
    ensures var s' := Step(s, SendPartner(c));
            && c in s'.conns && w in s'.conns && c != w && s'.active == s.active && s'.maxBridges == s.maxBridges
            && s'.conns[c].phase in {Following(w), Released(w)}
  {
    assert ConnOk(s, c) && ConnOk(s, w);
  }

  lemma Taken(s: State, c: Conn, w: Conn)
    requires Inv(s) && c in s.conns && w in s.conns && c != w && s.conns[c].phase in {Following(w), Released(w)}
    ensures var s' := Step(s, TakePartner(w));
            && c in s'.conns && w in s'.conns && s'.active == s.active && s'.maxBridges == s.maxBridges
            && s'.conns[w].phase in {Driving(c), Bridging(c), Closing(c), Finished(c)}
            && s'.conns[c].phase == s.conns[c].phase
  {
    assert ConnOk(s, c) && ConnOk(s, w);
  }

  /** From the bridge on: the pair ends with done closed once and both handlers gone. */
  lemma BridgeCompletes(s: State, c: Conn, w: Conn)
    requires Inv(s) && c in s.conns && w in s.conns && c != w
    requires s.conns[w].phase in {Driving(c), Bridging(c), Closing(c), Finished(c)}
    requires s.conns[c].phase in {Following(w), Released(w)}
    ensures var s' := Step(Step(Step(Step(s, Begin(w)), CloseDone(w)), EndBridge(w)), SeeDone(c));
            && c in s'.conns && w in s'.conns && s'.conns[w].phase == Finished(c) && s'.conns[w].closed == 1
            && s'.conns[c].phase == Released(w)
            && s'.active == if InBridge(s.conns[w].phase) then s.active - 1 else s.active
  {
    var s1 := Step(s, Begin(w));
    BridgeBegun(s, c, w);
    BridgeEnded(s1, c, w);
  }

  lemma BridgeBegun(s: State, c: Conn, w: Conn)
    requires Inv(s) && c in s.conns && w in s.conns && c != w
    requires s.conns[w].phase in {Driving(c), Bridging(c), Closing(c), Finished(c)}
    ensures var s' := Step(s, Begin(w));
            && c in s'.conns && w in s'.conns && s'.conns[c] == s.conns[c] && Inv(s')
            && s'.conns[w].phase in {Bridging(c), Closing(c), Finished(c)}
            && s'.active == (if s.conns[w].phase.Driving? && BridgeFree(s) then s.active + 1 else s.active)
            && (InBridge(s'.conns[w].phase) <==>
                  InBridge(s.conns[w].phase) || (s.conns[w].phase.Driving? && BridgeFree(s)))
  {
    StepInv(s, Begin(w));
  }

  lemma BridgeEnded(s: State, c: Conn, w: Conn)
    requires Inv(s) && c in s.conns && w in s.conns && c != w
    requires s.conns[w].phase in {Bridging(c), Closing(c), Finished(c)}
    requires s.conns[c].phase in {Following(w), Released(w)}
    ensures var s' := Step(Step(Step(s, CloseDone(w)), EndBridge(w)), SeeDone(c));
            && c in s'.conns && w in s'.conns && s'.conns[w].phase == Finished(c) && s'.conns[w].closed == 1
            && s'.conns[c].phase == Released(w)
            && s'.active == if InBridge(s.conns[w].phase) then s.active - 1 else s.active
  {
    assert ConnOk(s, w);
    if InBridge(s.conns[w].phase) { assert w in Bridges(s); }
  }

  /** Whatever happened so far, six further steps of its two handlers finish any pair. */
  lemma EveryPairFinishes(maxRooms: nat, maxBridges: nat, es: seq<Event>, c: Conn)
    requires var s := Run(Init(maxRooms, maxBridges), es); c in s.conns && IsClaim(s.conns[c].phase)
    ensures var s := Run(Init(maxRooms, maxBridges), es);
            var w := s.conns[c].phase.waiter;
            var s' := Run(Run(s, [SendPartner(c), TakePartner(w)]), [Begin(w), CloseDone(w), EndBridge(w), SeeDone(c)]);
            && c in s'.conns && s'.conns[c].phase == Released(w)
            && w in s'.conns && s'.conns[w].phase == Finished(c) && s'.conns[w].closed == 1
  {
    var s := Run(Init(maxRooms, maxBridges), es);
    RunInv(Init(maxRooms, maxBridges), es);
    var w := s.conns[c].phase.waiter;
    HandoverCompletes(s, c, w);
    var t := Step(Step(s, SendPartner(c)), TakePartner(w));
    TwoSteps(s, SendPartner(c), TakePartner(w));
    BridgeCompletes(t, c, w);
    var t1 := Step(t, Begin(w));
    var t2 := Step(t1, CloseDone(w));
    FourSteps(t, t1, t2, Step(t2, EndBridge(w)), Begin(w), CloseDone(w), EndBridge(w), SeeDone(c));
  }

  lemma TwoSteps(s: State, a: Event, b: Event)
    ensures Run(s, [a, b]) == Step(Step(s, a), b)
  {
    RunHead(s, a, [b]);
    RunHead(Step(s, a), b, []);
    assert [a, b] == [a] + [b] && [b] == [b] + [];
  }

  /** A timer that fires on a waiting room frees it; on a claimed one it changes nobody's room. */
  lemma TimerFrees(s: State, w: Conn)
    requires Inv(s) && w in s.conns && s.conns[w].phase == Selecting
    ensures var s' := Step(s, Timer(w));
            if IsWaiting(s, w) then s'.conns[w].phase == TimedOut && s'.waiting == s.waiting - {s.conns[w].room}
            else s'.conns[w].phase == Draining && s'.waiting == s.waiting
  {
  }

  // ---- The shared object ----

  datatype Meeting = Claimed(waiter: Conn) | Waiting | Full

  class Rooms {
    var waiting: map<Room, Conn>
    var active: nat

    constructor ()
      ensures waiting == map[] && active == 0
    {
      waiting, active := map[], 0;
    }

    /** The first lock region of rendezvous. */
    method Rendezvous(room: Room, c: Conn, maxRooms: nat, ghost s: State) returns (m: Meeting)
      requires s.waiting == waiting && s.maxRooms == maxRooms && c !in s.conns && WaitingOk(s)
      modifies this`waiting
      ensures waiting == Step(s, Arrive(c, room)).waiting
      ensures Step(s, Arrive(c, room)).conns[c].phase ==
                match m case Claimed(w) => Claiming(w) case Waiting => Selecting case Full => Refused
      ensures room in old(waiting) ==> m == Claimed(old(waiting)[room]) && waiting == old(waiting) - {room}
      ensures m == Full <==> room !in old(waiting) && maxRooms > 0 && |old(waiting)| >= maxRooms
      ensures m == Full ==> waiting == old(waiting)
      ensures m == Waiting <==> room !in old(waiting) && (maxRooms == 0 || |old(waiting)| < maxRooms)
      ensures m == Waiting ==> waiting == old(waiting)[room := c]
    {
      if room in waiting {
        m := Claimed(waiting[room]);
        waiting := waiting - {room};
      } else if maxRooms > 0 && |waiting| >= maxRooms {
        m := Full;
      } else {
        waiting := waiting[room := c];
        m := Waiting;
      }
    }

    /** The lock region after the timer; true means the room was still ours. */
    method TimerFired(room: Room, w: Conn, ghost s: State) returns (mine: bool)
      requires s.waiting == waiting && w in s.conns && s.conns[w].phase == Selecting && s.conns[w].room == room
      modifies this`waiting
      ensures waiting == Step(s, Timer(w)).waiting
      ensures mine <==> Step(s, Timer(w)).conns[w].phase == TimedOut
      ensures mine <==> room in old(waiting) && old(waiting)[room] == w
      ensures waiting == if mine then old(waiting) - {room} else old(waiting)
    {
      mine := room in waiting && waiting[room] == w;
      if mine {
        waiting := waiting - {room};
      }
    }

    method BeginBridge(max: nat, w: Conn, ghost s: State) returns (ok: bool)
      requires s.active == active && s.maxBridges == max && w in s.conns && s.conns[w].phase.Driving?
      modifies this`active
      ensures active == Step(s, Begin(w)).active
      ensures ok <==> Step(s, Begin(w)).conns[w].phase.Bridging?
      ensures ok <==> max == 0 || old(active) < max
      ensures active == if ok then old(active) + 1 else old(active)
    {
      if max > 0 && active >= max {
        return false;
      }
      active := active + 1;
      ok := true;
    }

    method EndBridge(w: Conn, ghost s: State)
      requires s.active == active && w in s.conns && s.conns[w].phase.Closing?
      modifies this`active
      ensures active == Step(s, Event.EndBridge(w)).active
      ensures active == if old(active) > 0 then old(active) - 1 else 0
    {
      if active > 0 {
        active := active - 1;
      }
    }
  }

  // ---- The byte budget of one bridge ----

  /** One direction of pairCopy: between reads, holding a frame that passed the
      budget check, or returned. */
  datatype Copy = Reading | Holding(len: nat) | Returned

  datatype Bridge = Bridge(budget: nat, used: nat, forwarded: nat, left: Copy, right: Copy, overruns: nat)

  datatype CopyEvent = ReadFrame(leftward: bool, len: nat) | ReadError(leftward: bool) 
                     | WriteFrame(leftward: bool, ok: bool)

  function At(b: Bridge, leftward: bool): Copy { if leftward then b.left else b.right }

  function Put(b: Bridge, leftward: bool, c: Copy): Bridge { if leftward then b.(left := c) else b.(right := c) }

  /** The atomic steps of the two copy loops; frames longer than the read limit are read errors. */
  function CopyStep(b: Bridge, e: CopyEvent, maxFrame: nat): Bridge {
    match e
    case ReadFrame(d, len) =>
      if At(b, d) != Reading then b
      else if len > maxFrame then Put(b, d, Returned)
      else if b.used + len > b.budget then Put(b, d, Returned).(used := b.used + len, overruns := b.overruns + 1)
      else Put(b, d, Holding(len)).(used := b.used + len)
    case ReadError(d) => if At(b, d) == Reading then Put(b, d, Returned) else b
    case WriteFrame(d, ok) =>
      match At(b, d)
      case Holding(len) => if ok then Put(b, d, Reading).(forwarded := b.forwarded + len) else Put(b, d, Returned)
      case _ => b
  }

  function CopyRun(b: Bridge, es: seq<CopyEvent>, maxFrame: nat): Bridge
    decreases |es|
  {
    if es == [] then b else CopyRun(CopyStep(b, es[0], maxFrame), es[1..], maxFrame)
  }

  function Held(c: Copy): nat { if c.Holding? then c.len else 0 }

  function Gone(c: Copy): nat { if c == Returned then 1 else 0 }

  ghost predicate WithinBudget(b: Bridge, maxFrame: nat) {
    && b.forwarded + Held(b.left) + Held(b.right) <= b.used
    && b.forwarded + Held(b.left) + Held(b.right) <= b.budget
    && b.overruns <= Gone(b.left) + Gone(b.right)
    && b.used <= b.budget + b.overruns * maxFrame
  }

  /** Both directions together never forward more than the budget, and the shared
      counter never passes it by more than one frame per direction. */
  lemma {:induction false} BudgetHolds(b: Bridge, es: seq<CopyEvent>, maxFrame: nat)
    requires WithinBudget(b, maxFrame)
    ensures var b' := CopyRun(b, es, maxFrame);
            b'.budget == b.budget && b'.forwarded <= b.budget && b'.used <= b.budget + 2 * maxFrame
    decreases |es|
  {
    if es != [] {
      BudgetStep(b, es[0], maxFrame);
      BudgetHolds(CopyStep(b, es[0], maxFrame), es[1..], maxFrame);
    } else {
      AtMostTwo(b.overruns, maxFrame);
    }
  }

  lemma AtMostTwo(n: nat, maxFrame: nat)
    requires n <= 2
    ensures n * maxFrame <= 2 * maxFrame
  {
  }

  function Total(lens: seq<nat>): nat { if lens == [] then 0 else lens[0] + Total(lens[1..]) }

  /** Each frame read and then written, in order. */
  function Frames(leftward: bool, lens: seq<nat>): seq<CopyEvent> {
    if lens == [] then []
    else [ReadFrame(leftward, lens[0]), WriteFrame(leftward, true)] + Frames(leftward, lens[1..])
  }

  /** Frames that fit the read limit and what is left of the budget all go through whole. */
  lemma {:induction false} FramesGoThrough(b: Bridge, leftward: bool, lens: seq<nat>, maxFrame: nat)
    requires At(b, leftward) == Reading && b.used + Total(lens) <= b.budget
    requires forall i :: 0 <= i < |lens| ==> lens[i] <= maxFrame
    ensures CopyRun(b, Frames(leftward, lens), maxFrame)
            == b.(used := b.used + Total(lens), forwarded := b.forwarded + Total(lens))
    decreases |lens|
  {
    if lens != [] {
      var es := Frames(leftward, lens);
      var b1 := CopyStep(b, ReadFrame(leftward, lens[0]), maxFrame);
      var b2 := CopyStep(b1, WriteFrame(leftward, true), maxFrame);
      assert es[1..][0] == WriteFrame(leftward, true) && es[1..][1..] == Frames(leftward, lens[1..]);
      assert CopyRun(b, es, maxFrame) == CopyRun(b2, Frames(leftward, lens[1..]), maxFrame);
      FramesGoThrough(b2, leftward, lens[1..], maxFrame);
    }
  }

  /** A frame past the read limit or the budget is not forwarded and ends its
      direction; nothing a returned direction does afterwards forwards anything. */
  lemma FrameOverBudgetEnds(b: Bridge, leftward: bool, len: nat, maxFrame: nat, ok: bool)
    requires At(b, leftward) == Reading && (len > maxFrame || b.used + len > b.budget)
    ensures var b1 := CopyStep(b, ReadFrame(leftward, len), maxFrame);
            && At(b1, leftward) == Returned && b1.forwarded == b.forwarded
            && CopyStep(b1, WriteFrame(leftward, ok), maxFrame) == b1
  {
  }

  lemma BudgetStep(b: Bridge, e: CopyEvent, maxFrame: nat)
    requires WithinBudget(b, maxFrame)
    ensures WithinBudget(CopyStep(b, e, maxFrame), maxFrame) && CopyStep(b, e, maxFrame).budget == b.budget
  {
    assert (b.overruns + 1) * maxFrame == b.overruns * maxFrame + maxFrame;
  }
}
