/**
  The pre-attach cache. A fetch of tombstones goes through fixed stages: the verified
  answer arrives, its records are written into the local store one by one (each a read of
  the whole file followed by a rename), the clock is read, and only then does the cache
  timestamp move. Fetches of any number of processes interleave stage by stage, and each
  may fail or crash between any two stages. The clock does not run backwards.
*/
module Prewarm {
  import opened Wrappers
  import T = Tombstones

  type Slot = T.Slot

  const SECOND := 1_000_000_000
  const DIRECTORY_TTL := 30 * SECOND
  const STALE_CEILING := 2 * DIRECTORY_TTL
  const TURN_MARGIN := 120 * SECOND

  // ---- plans --------------------------------------------------------------------------------

  datatype Plan = Fetch | Stale | Fresh

  /** A cached revocation or registry answer, by its timestamp. */
  function DirectoryPlan(at: Option<int>, now: int): Plan {
    if at.None? || now < at.value then Fetch
    else if now - at.value < DIRECTORY_TTL then Fresh
    else if now - at.value < STALE_CEILING then Stale
    else Fetch
  }

  /** Cached TURN credentials; without an expiry the answer is "this relay has no TURN". */
  datatype Credentials = Credentials(fetchedAt: int, expiresAt: Option<int>, servers: seq<nat>)

  function TurnPlan(c: Option<Credentials>, now: int): Plan {
    if c.None? || now < c.value.fetchedAt then Fetch
    else if c.value.expiresAt.None? then
      if now - c.value.fetchedAt < DIRECTORY_TTL then Fresh else Fetch
    else if now < c.value.expiresAt.value - TURN_MARGIN then Fresh
    else if now < c.value.expiresAt.value then Stale
    else Fetch
  }

  /** In nanoseconds: a directory answer is fresh for 30 s and usable for 60 s; credentials
      are fresh until two minutes before they expire and usable until they do, and "no
      TURN" is fresh for 30 s. A timestamp in the future buys nothing. */
  lemma PlansByAge(at: int, c: Credentials, now: int)
    ensures DirectoryPlan(None, now) == TurnPlan(None, now) == Fetch
    ensures DirectoryPlan(Some(at), now) == Fresh <==> 0 <= now - at < 30_000_000_000
    ensures DirectoryPlan(Some(at), now) == Stale <==> 30_000_000_000 <= now - at < 60_000_000_000
    ensures c.expiresAt.Some? ==>
              && (TurnPlan(Some(c), now) == Fresh <==> c.fetchedAt <= now < c.expiresAt.value - 120_000_000_000)
              && (TurnPlan(Some(c), now) in {Fresh, Stale} <==> c.fetchedAt <= now < c.expiresAt.value)
    ensures c.expiresAt.None? ==>
              && (TurnPlan(Some(c), now) == Fresh <==> 0 <= now - c.fetchedAt < 30_000_000_000)
              && TurnPlan(Some(c), now) != Stale
  {
  }

  datatype Source = FromRelay | CacheFresh | CacheStale | CacheFallback | Failed | Skipped

  // ---- TURN credentials -----------------------------------------------------------------------

  datatype Ice = Ice(servers: seq<nat>, source: Source)

  function IceServers(turn: seq<nat>, stun: seq<nat>): seq<nat> { if turn != [] then turn else stun }

  /**
    The join of the TURN fetch: `fetched` is the relay's answer, None when it failed, and
    `joined` the clock when it came in.
  */
  function ChooseIce(cached: Option<Credentials>, start: int, fetched: Option<seq<nat>>, joined: int,
                     stun: seq<nat>): Ice {
    if TurnPlan(cached, start) == Fresh then Ice(IceServers(cached.value.servers, stun), CacheFresh)
    else if fetched.Some? then Ice(IceServers(fetched.value, stun), FromRelay)
    else if cached.Some? && cached.value.servers != []
            && cached.value.expiresAt.Some? && joined < cached.value.expiresAt.value
    then Ice(IceServers(cached.value.servers, stun), CacheFallback)
    else Ice([], Failed)
  }

  /**
    Credentials out of the cache are never chosen past a known expiry: a fresh hit has more
    than the renew margin left when the warm-up starts, a fallback still lives when the
    failed fetch comes in and is exactly what was cached. An answer without expiry is
    served for less than the directory TTL and never as a fallback. Conversely a warm-up
    fails only when the relay failed and no cached credential was still alive.
  */
  lemma ChosenCredentialsAreAlive(cached: Option<Credentials>, start: int, fetched: Option<seq<nat>>, joined: int,
                                  stun: seq<nat>)
    ensures var ice := ChooseIce(cached, start, fetched, joined, stun);
            && (ice.source == CacheFresh ==>
                  && cached.Some?
                  && (cached.value.expiresAt.Some? ==> start + TURN_MARGIN < cached.value.expiresAt.value)
                  && (cached.value.expiresAt.None? ==> 0 <= start - cached.value.fetchedAt < DIRECTORY_TTL))
            && (ice.source == CacheFallback ==>
                  && cached.Some? && cached.value.expiresAt.Some?
                  && joined < cached.value.expiresAt.value
                  && ice.servers == cached.value.servers != [])
            && (ice.source == Failed <==>
                  && fetched.None? && TurnPlan(cached, start) != Fresh
                  && !(cached.Some? && cached.value.servers != [] && cached.value.expiresAt.Some?
                       && joined < cached.value.expiresAt.value))
            && ice.source != CacheStale && ice.source != Skipped
  {
  }

  /**
    What the client dials with: TURN servers when the relay, or a cache that is still
    good, has some; the STUN servers when the answer is that there are none; and nothing
    only when there is no answer at all.
  */
  lemma DialedServers(cached: Option<Credentials>, start: int, fetched: Option<seq<nat>>, joined: int,
                      stun: seq<nat>)
    ensures var ice := ChooseIce(cached, start, fetched, joined, stun);
            if TurnPlan(cached, start) == Fresh then
              ice == Ice(if cached.value.servers == [] then stun else cached.value.servers, CacheFresh)
            else if fetched == Some([]) then ice == Ice(stun, FromRelay)
            else if fetched.Some? then ice == Ice(fetched.value, FromRelay)
            else ice.servers == [] <==> ice.source == Failed
  {
  }

  // ---- tombstone fetches, stage by stage ----------------------------------------------------------

  /** A relay answer all of whose signatures verified, and when it was complete. */
  datatype Answer = Answer(slots: seq<Slot>, at: int)

  datatype Stage =
    | Asking
    | Recording(k: nat, next: nat)                            // between two records
    | Rewriting(k: nat, next: nat, base: set<Slot>)           // store read, rename to come
    | Stamped(k: nat, t: int)                                 // clock read, cache rename to come
    | Finished(k: nat)                                        // reported success
    | Revoking(slot: Slot, base: set<Slot>)                   // a local revoke command, store read

  datatype State = State(clock: int, store: set<Slot>, cache: Option<int>,
                         fetches: map<nat, Stage>, answers: seq<Answer>)

  function Initial(clock: int, store: set<Slot>): State { State(clock, store, None, map[], []) }

  datatype Event =
    | Tick(d: nat)
    | Ask(id: nat)
    | Answered(id: nat, slots: seq<Slot>)
    | ReadStore(id: nat)
    | WriteStore(id: nat)
    | Stamp(id: nat)
    | WriteCache(id: nat)
    | CacheFails(id: nat)
    | Drop(id: nat)                           // any failure, or a crash
    | LocalRead(id: nat, slot: Slot)

  predicate In(s: State, id: nat) { id in s.fetches }

  function To(s: State, id: nat, stage: Stage): State { s.(fetches := s.fetches[id := stage]) }

  function Wrote(s: State, id: nat): State
    requires In(s, id) && s.fetches[id].Rewriting? && s.fetches[id].k < |s.answers|
    requires s.fetches[id].next < |s.answers[s.fetches[id].k].slots|
  {
    var f := s.fetches[id];
    To(s, id, Recording(f.k, f.next + 1)).(store := f.base + {s.answers[f.k].slots[f.next]})
  }

  predicate CanRead(s: State, id: nat) {
    In(s, id) && s.fetches[id].Recording? && s.fetches[id].k < |s.answers|
    && s.fetches[id].next < |s.answers[s.fetches[id].k].slots|
  }

  predicate CanWrite(s: State, id: nat) {
    In(s, id) && s.fetches[id].Rewriting? && s.fetches[id].k < |s.answers|
    && s.fetches[id].next < |s.answers[s.fetches[id].k].slots|
  }

  predicate CanStamp(s: State, id: nat) {
    In(s, id) && s.fetches[id].Recording? && s.fetches[id].k < |s.answers|
    && s.fetches[id].next == |s.answers[s.fetches[id].k].slots|
  }

  /** An event that does not fit the stage it meets changes nothing. */
  function Step(s: State, e: Event): State {
    match e
    case Tick(d) => s.(clock := s.clock + d)
    case Ask(id) => if In(s, id) then s else To(s, id, Asking)
    case Answered(id, slots) =>
      if In(s, id) && s.fetches[id].Asking?
      then To(s, id, Recording(|s.answers|, 0)).(answers := s.answers + [Answer(slots, s.clock)]) else s
    case ReadStore(id) =>
      if CanRead(s, id) then To(s, id, Rewriting(s.fetches[id].k, s.fetches[id].next, s.store)) else s
    case WriteStore(id) =>
      if CanWrite(s, id) then Wrote(s, id)
      else if In(s, id) && s.fetches[id].Revoking?
      then s.(store := s.fetches[id].base + {s.fetches[id].slot}, fetches := s.fetches - {id})
      else s
    case Stamp(id) => if CanStamp(s, id) then To(s, id, Stamped(s.fetches[id].k, s.clock)) else s
    case WriteCache(id) =>
      if In(s, id) && s.fetches[id].Stamped?
      then To(s, id, Finished(s.fetches[id].k)).(cache := Some(s.fetches[id].t)) else s
    case CacheFails(id) =>
      if In(s, id) && s.fetches[id].Stamped? then To(s, id, Finished(s.fetches[id].k)) else s
    case Drop(id) => s.(fetches := s.fetches - {id})
    case LocalRead(id, slot) => if In(s, id) then s else To(s, id, Revoking(slot, s.store))
  }

  function Run(s: State, events: seq<Event>): State
    decreases |events|
  {
    if events == [] then s else Run(Step(s, events[0]), events[1..])
  }

  lemma {:induction false} RunAppend(s: State, a: seq<Event>, b: seq<Event>)
    ensures Run(s, a + b) == Run(Run(s, a), b)
    decreases |a|
  {
    if a == [] {
      assert a + b == b;
    } else {
      assert (a + b)[1..] == a[1..] + b;
      RunAppend(Step(s, a[0]), a[1..], b);
    }
  }

  lemma RunNext(s: State, events: seq<Event>, n: nat)
    requires n < |events|
    ensures Run(s, events[..n + 1]) == Step(Run(s, events[..n]), events[n])
  {
    assert events[..n + 1] == events[..n] + [events[n]];
    RunAppend(s, events[..n], [events[n]]);
    var t := Run(s, events[..n]);
    assert Run(t, [events[n]]) == Run(Step(t, events[n]), [events[n]][1..]);
  }

  // ---- when the store never shrinks -----------------------------------------------------------------

  /** Between the read of the store and the rename. */
  predicate Midway(s: State, id: nat) { In(s, id) && (s.fetches[id].Rewriting? || s.fetches[id].Revoking?) }

  predicate NoneMidway(s: State) { forall id :: id in s.fetches ==> !Midway(s, id) }

  function Base(s: State, id: nat): set<Slot>
    requires Midway(s, id)
  {
    s.fetches[id].base
  }

  /** The event reads the store for a rewrite of its own. */
  predicate Reads(s: State, e: Event) {
    (e.ReadStore? && CanRead(s, e.id)) || (e.LocalRead? && !In(s, e.id))
  }

  /** The event renames a rewritten store into place. */
  predicate Renames(s: State, e: Event) {
    e.WriteStore? && (CanWrite(s, e.id) || (In(s, e.id) && s.fetches[e.id].Revoking?))
  }

  function Renamed(s: State, e: Event): Slot
    requires Renames(s, e)
  {
    var f := s.fetches[e.id];
    if f.Revoking? then f.slot else s.answers[f.k].slots[f.next]
  }

  /** The slots renamed into the store since `id` last read it, by whomever. */
  ghost function Since(s: State, events: seq<Event>, id: nat): set<Slot> {
    if events == [] then {}
    else
      var t, e := Run(s, events[..|events| - 1]), events[|events| - 1];
      if Reads(t, e) && e.id == id then {}
      else Since(s, events[..|events| - 1], id) + (if Renames(t, e) then {Renamed(t, e)} else {})
  }

  /** If event n is a rename: whatever was renamed since its read was there at the read, or is its own slot. */
  ghost predicate Harmless(s: State, events: seq<Event>, n: nat)
    requires n < |events|
  {
    var t, e := Run(s, events[..n]), events[n];
    Renames(t, e) ==> Since(s, events[..n], e.id) <= Base(t, e.id) + {Renamed(t, e)}
  }

  /** No rename is overtaken by another one that brings a slot of its own. */
  ghost predicate Lossless(s: State, events: seq<Event>) {
    forall n :: 0 <= n < |events| ==> Harmless(s, events, n)
  }

  ghost predicate NeverShrinks(s: State, events: seq<Event>) {
    forall n :: 0 <= n < |events| ==> Run(s, events[..n]).store <= Run(s, events[..n + 1]).store
  }

  /** While nothing is lost, the store is what a pending rewrite read plus what was renamed since. */
  ghost predicate Accounted(s: State, events: seq<Event>, id: nat) {
    var t := Run(s, events);
    Midway(t, id) ==> t.store == Base(t, id) + Since(s, events, id)
  }

  lemma SinceNext(s: State, events: seq<Event>, id: nat)
    requires events != []
    ensures var t, e := Run(s, events[..|events| - 1]), events[|events| - 1];
            && Run(s, events) == Step(t, e)
            && (Reads(t, e) && e.id == id ==> Since(s, events, id) == {})
            && (!(Reads(t, e) && e.id == id) ==>
                  Since(s, events, id) ==
                      Since(s, events[..|events| - 1], id) + (if Renames(t, e) then {Renamed(t, e)} else {}))
  {
    assert events[..|events| - 1 + 1] == events;
    RunNext(s, events, |events| - 1);
  }

  /** A stage midway after an event was midway before it with the same base, or has just read. */
  lemma MidwayBefore(t: State, e: Event, id: nat)
    requires Midway(Step(t, e), id)
    ensures Reads(t, e) && e.id == id ==> Base(Step(t, e), id) == t.store && Step(t, e).store == t.store
    ensures !(Reads(t, e) && e.id == id) ==>
              Midway(t, id) && Base(Step(t, e), id) == Base(t, id) && !(Renames(t, e) && e.id == id)
    ensures !Renames(t, e) ==> Step(t, e).store == t.store
  {
  }

  lemma RenameStore(t: State, e: Event)
    requires Renames(t, e)
    ensures Midway(t, e.id) && Step(t, e).store == Base(t, e.id) + {Renamed(t, e)}
  {
  }

  lemma ShrinksEarlier(s: State, events: seq<Event>, n: nat)
    requires n <= |events|
    ensures NeverShrinks(s, events) ==> NeverShrinks(s, events[..n])
    ensures Lossless(s, events) ==> Lossless(s, events[..n])
  {
    if NeverShrinks(s, events) {
      forall m | 0 <= m < n
        ensures Run(s, events[..n][..m]).store <= Run(s, events[..n][..m + 1]).store
      {
        assert events[..n][..m] == events[..m] && events[..n][..m + 1] == events[..m + 1];
        assert Run(s, events[..m]).store <= Run(s, events[..m + 1]).store;
      }
    }
    if Lossless(s, events) {
      forall m | 0 <= m < n
        ensures Harmless(s, events[..n], m)
      {
        assert events[..n][..m] == events[..m];
        assert Harmless(s, events, m);
      }
    }
  }

  lemma {:induction false} StoreAccounted(s: State, events: seq<Event>, id: nat)
    requires NoneMidway(s) && NeverShrinks(s, events)
    ensures Accounted(s, events, id)
    decreases |events|
  {
    if events != [] && Midway(Run(s, events), id) {
      var n := |events| - 1;
      var t, e := Run(s, events[..n]), events[n];
      ShrinksEarlier(s, events, n);
      SinceNext(s, events, id);
      MidwayBefore(t, e, id);
      StoreAccounted(s, events[..n], id);
      if Renames(t, e) {
        StoreAccounted(s, events[..n], e.id);
        RenameStore(t, e);
        assert events[..n + 1] == events;
        assert Run(s, events[..n]).store <= Run(s, events[..n + 1]).store;
      }
    }
  }

  /** While nothing was lost, the next step loses something exactly when it is an overtaken rename. */
  lemma NextShrinkExact(s: State, events: seq<Event>, n: nat)
    requires NoneMidway(s) && n < |events| && NeverShrinks(s, events[..n])
    ensures Run(s, events[..n]).store <= Run(s, events[..n + 1]).store <==> Harmless(s, events, n)
  {
    var t, e := Run(s, events[..n]), events[n];
    RunNext(s, events, n);
    if Renames(t, e) {
      RenameStore(t, e);
      StoreAccounted(s, events[..n], e.id);
    } else {
      StoreUntouched(t, e);
    }
  }

  lemma StoreUntouched(t: State, e: Event)
    requires !Renames(t, e)
    ensures Step(t, e).store == t.store
  {
  }

  /**
    A run loses a tombstone exactly when some rename is overtaken: between its read and the
    rename another rename brought a slot that was not there at the read and is not its own.
  */
  lemma {:induction false} LossExactly(s: State, events: seq<Event>)
    requires NoneMidway(s)
    ensures NeverShrinks(s, events) <==> Lossless(s, events)
    decreases |events|
  {
    if events != [] {
      var n := |events| - 1;
      LossExactly(s, events[..n]);
      ShrinksEarlier(s, events, n);
      if NeverShrinks(s, events[..n]) {
        NextShrinkExact(s, events, n);
        if NeverShrinks(s, events) {
          assert Run(s, events[..n]).store <= Run(s, events[..n + 1]).store;
          AllHarmless(s, events, n);
        }
        if Lossless(s, events) {
          assert Harmless(s, events, n);
          AllGrow(s, events, n);
        }
      }
    }
  }

  lemma AllHarmless(s: State, events: seq<Event>, n: nat)
    requires n == |events| - 1 && Lossless(s, events[..n]) && Harmless(s, events, n)
    ensures Lossless(s, events)
  {
    forall m | 0 <= m < n
      ensures Harmless(s, events, m)
    {
      assert events[..n][..m] == events[..m];
      assert Harmless(s, events[..n], m);
    }
  }

  lemma AllGrow(s: State, events: seq<Event>, n: nat)
    requires n == |events| - 1 && NeverShrinks(s, events[..n])
    requires Run(s, events[..n]).store <= Run(s, events[..n + 1]).store
    ensures NeverShrinks(s, events)
  {
    forall m | 0 <= m < n
      ensures Run(s, events[..m]).store <= Run(s, events[..m + 1]).store
    {
      assert events[..n][..m] == events[..m] && events[..n][..m + 1] == events[..m + 1];
      assert Run(s, events[..n][..m]).store <= Run(s, events[..n][..m + 1]).store;
    }
  }

  /** A rewrite during which nobody else renames is harmless, whoever else is at work. */
  lemma {:induction false} UninterruptedRewriteKeeps(s: State, events: seq<Event>, i: nat, n: nat)
    requires i < n <= |events| && Reads(Run(s, events[..i]), events[i])
    requires forall j :: i < j < n ==> !Renames(Run(s, events[..j]), events[j])
    ensures Since(s, events[..n], events[i].id) == {}
    ensures n < |events| && events[n] == WriteStore(events[i].id) ==> Harmless(s, events, n)
    decreases n
  {
    var id := events[i].id;
    assert events[..n][..n - 1] == events[..n - 1];
    SinceNext(s, events[..n], id);
    if i < n - 1 {
      UninterruptedRewriteKeeps(s, events, i, n - 1);
    }
  }

  /** What a lock around read and rename guarantees: a read finds nobody midway. */
  predicate Exclusive(s: State, e: Event) { Reads(s, e) ==> NoneMidway(s) }

  ghost predicate Locked(s: State, events: seq<Event>) {
    forall n :: 0 <= n < |events| ==> Exclusive(Run(s, events[..n]), events[n])
  }

  ghost predicate OneMidway(s: State) {
    forall a, b :: Midway(s, a) && Midway(s, b) ==> a == b
  }

  lemma StepOneMidway(t: State, e: Event)
    requires OneMidway(t) && Exclusive(t, e)
    ensures OneMidway(Step(t, e))
  {
    forall a, b | Midway(Step(t, e), a) && Midway(Step(t, e), b)
      ensures a == b
    {
      MidwayBefore(t, e, a);
      MidwayBefore(t, e, b);
    }
  }

  lemma {:induction false} LockedSince(s: State, events: seq<Event>, id: nat)
    requires NoneMidway(s) && Locked(s, events)
    ensures OneMidway(Run(s, events))
    ensures Midway(Run(s, events), id) ==> Since(s, events, id) == {}
    decreases |events|
  {
    if events != [] {
      var n := |events| - 1;
      var t, e := Run(s, events[..n]), events[n];
      LockedEarlier(s, events, n);
      LockedSince(s, events[..n], id);
      SinceNext(s, events, id);
      assert Exclusive(t, e);
      StepOneMidway(t, e);
      if Midway(Run(s, events), id) {
        MidwayBefore(t, e, id);
        if Renames(t, e) {
          RenameStore(t, e);
        }
      }
    }
  }

  lemma LockedEarlier(s: State, events: seq<Event>, n: nat)
    requires n <= |events| && Locked(s, events)
    ensures Locked(s, events[..n])
  {
    forall m | 0 <= m < n
      ensures Exclusive(Run(s, events[..n][..m]), events[..n][m])
    {
      assert events[..n][..m] == events[..m];
      assert Exclusive(Run(s, events[..m]), events[m]);
    }
  }

  /** A lock held from read to rename is enough. */
  lemma LockedIsLossless(s: State, events: seq<Event>)
    requires NoneMidway(s) && Locked(s, events)
    ensures Lossless(s, events) && NeverShrinks(s, events)
  {
    forall n | 0 <= n < |events|
      ensures Harmless(s, events, n)
    {
      var t, e := Run(s, events[..n]), events[n];
      if Renames(t, e) {
        LockedEarlier(s, events, n);
        LockedSince(s, events[..n], e.id);
        RenameStore(t, e);
      }
    }
    LossExactly(s, events);
  }

  // ---- what a cache timestamp stands for --------------------------------------------------------------

  ghost predicate Covered(store: set<Slot>, slots: seq<Slot>) {
    forall i :: 0 <= i < |slots| ==> slots[i] in store
  }

  /** Answer k is in the store, was complete by t, and at most `lag` before t. */
  ghost predicate Backs(s: State, k: int, t: int, lag: nat) {
    && 0 <= k < |s.answers|
    && Covered(s.store, s.answers[k].slots)
    && s.answers[k].at <= t <= s.answers[k].at + lag
  }

  ghost predicate StageOk(s: State, f: Stage, lag: nat) {
    match f
    case Asking => true
    case Recording(k, next) =>
      k < |s.answers| && next <= |s.answers[k].slots| && Covered(s.store, s.answers[k].slots[..next])
    case Rewriting(k, next, base) =>
      k < |s.answers| && next < |s.answers[k].slots| && Covered(s.store, s.answers[k].slots[..next])
    case Stamped(k, t) => Backs(s, k, t, lag) && t <= s.clock
    case Finished(k) => k < |s.answers| && Covered(s.store, s.answers[k].slots)
    case Revoking(slot, base) => true
  }

  ghost predicate CacheOk(s: State, lag: nat) {
    s.cache.Some? ==> s.cache.value <= s.clock && exists k :: Backs(s, k, s.cache.value, lag)
  }

  ghost predicate Inv(s: State, lag: nat) {
    && (forall k :: 0 <= k < |s.answers| ==> s.answers[k].at <= s.clock)
    && (forall id :: id in s.fetches ==> StageOk(s, s.fetches[id], lag))
    && CacheOk(s, lag)
  }

  /** Every stamp comes within `lag` of the answer it stands for. */
  predicate Prompt(s: State, e: Event, lag: nat) {
    e.Stamp? && CanStamp(s, e.id) ==> s.clock <= s.answers[s.fetches[e.id].k].at + lag
  }

  ghost predicate PromptRun(s: State, events: seq<Event>, lag: nat) {
    forall n :: 0 <= n < |events| ==> Prompt(Run(s, events[..n]), events[n], lag)
  }

  /** Time, answers and the store only grow. */
  ghost predicate Grows(s: State, s': State) {
    && s.clock <= s'.clock
    && s.store <= s'.store
    && s.answers <= s'.answers
  }

  lemma StepGrows(s: State, e: Event)
    requires s.store <= Step(s, e).store
    ensures Grows(s, Step(s, e))
  {
  }

  lemma StageSurvives(s: State, s': State, f: Stage, lag: nat)
    requires Grows(s, s') && StageOk(s, f, lag)
    ensures StageOk(s', f, lag)
  {
  }

  lemma CacheSurvives(s: State, s': State, lag: nat)
    requires Grows(s, s') && CacheOk(s, lag) && s'.cache == s.cache
    ensures CacheOk(s', lag)
  {
    if s.cache.Some? {
      var k :| Backs(s, k, s.cache.value, lag);
      assert Backs(s', k, s.cache.value, lag);
    }
  }

  lemma RecordedOneMore(s: State, id: nat, lag: nat)
    requires CanWrite(s, id) && StageOk(s, s.fetches[id], lag) && s.store <= Wrote(s, id).store
    ensures StageOk(Wrote(s, id), Wrote(s, id).fetches[id], lag)
  {
    var f := s.fetches[id];
    var slots := s.answers[f.k].slots;
    assert slots[..f.next + 1] == slots[..f.next] + [slots[f.next]];
  }

  /** The stage the event moves is in order again. */
  lemma MovedStageOk(s: State, e: Event, id: nat, lag: nat)
    requires Inv(s, lag) && s.store <= Step(s, e).store && Prompt(s, e, lag)
    requires !e.Tick? && id == e.id && id in Step(s, e).fetches
    ensures StageOk(Step(s, e), Step(s, e).fetches[id], lag)
  {
    StepGrows(s, e);
    if id in s.fetches {
      StageSurvives(s, Step(s, e), s.fetches[id], lag);
      if e.WriteStore? && CanWrite(s, id) {
        RecordedOneMore(s, id, lag);
      }
      if e.Stamp? && CanStamp(s, id) {
        var slots := s.answers[s.fetches[id].k].slots;
        assert slots[..|slots|] == slots;
      }
    }
  }

  lemma OtherStagesSame(s: State, e: Event, id: nat)
    requires id in Step(s, e).fetches && (e.Tick? || id != e.id)
    ensures id in s.fetches && Step(s, e).fetches[id] == s.fetches[id]
  {
  }

  lemma StepCacheOk(s: State, e: Event, lag: nat)
    requires Inv(s, lag) && s.store <= Step(s, e).store
    ensures CacheOk(Step(s, e), lag)
  {
    StepGrows(s, e);
    if e.WriteCache? && In(s, e.id) && s.fetches[e.id].Stamped? {
      var f := s.fetches[e.id];
      assert StageOk(s, f, lag);
      assert Backs(Step(s, e), f.k, f.t, lag);
    } else {
      CacheSurvives(s, Step(s, e), lag);
    }
  }

  lemma StepAnswers(s: State, e: Event)
    requires forall k :: 0 <= k < |s.answers| ==> s.answers[k].at <= s.clock
    ensures forall k :: 0 <= k < |Step(s, e).answers| ==> Step(s, e).answers[k].at <= Step(s, e).clock
  {
  }

  lemma StepKeepsInv(s: State, e: Event, lag: nat)
    requires Inv(s, lag) && s.store <= Step(s, e).store && Prompt(s, e, lag)
    ensures Inv(Step(s, e), lag)
  {
    StepGrows(s, e);
    StepAnswers(s, e);
    StepCacheOk(s, e, lag);
    forall id | id in Step(s, e).fetches
      ensures StageOk(Step(s, e), Step(s, e).fetches[id], lag)
    {
      if e.Tick? || id != e.id {
        OtherStagesSame(s, e, id);
        StageSurvives(s, Step(s, e), s.fetches[id], lag);
      } else {
        MovedStageOk(s, e, id, lag);
      }
    }
  }

  lemma {:induction false} GrowingKeepsInv(s: State, events: seq<Event>, n: nat, lag: nat)
    requires Inv(s, lag) && NeverShrinks(s, events) && PromptRun(s, events, lag) && n <= |events|
    ensures Inv(Run(s, events[..n]), lag)
    decreases n
  {
    if n > 0 {
      GrowingKeepsInv(s, events, n - 1, lag);
      RunNext(s, events, n - 1);
      var t := Run(s, events[..n - 1]);
      assert Prompt(t, events[n - 1], lag);
      assert t.store <= Run(s, events[..n - 1 + 1]).store;
      StepKeepsInv(t, events[n - 1], lag);
    }
  }

  /** Every stage of every fetch is in order in every state of a run without an overtaken rename. */
  lemma RunKeepsInv(s: State, events: seq<Event>, n: nat, lag: nat)
    requires NoneMidway(s) && Inv(s, lag) && n <= |events|
    requires Lossless(s, events) && PromptRun(s, events, lag)
    ensures Inv(Run(s, events[..n]), lag)
  {
    LossExactly(s, events);
    GrowingKeepsInv(s, events, n, lag);
  }

  lemma {:induction false} RunGrows(s: State, events: seq<Event>, m: nat, n: nat)
    requires NeverShrinks(s, events) && m <= n <= |events|
    ensures Grows(Run(s, events[..m]), Run(s, events[..n]))
    decreases n
  {
    if m < n {
      RunGrows(s, events, m, n - 1);
      RunNext(s, events, n - 1);
      assert Run(s, events[..n - 1]).store <= Run(s, events[..n - 1 + 1]).store;
      StepGrows(Run(s, events[..n - 1]), events[n - 1]);
    }
  }

  /**
    In every state of every run in which no rename is overtaken (a lock from read to rename
    guarantees it, LockedIsLossless): the store has only grown, and a cache timestamp t
    stands for a verified answer complete by t, all of whose slots are in the store.
  */
  lemma CrashStatesCovered(clock: int, store: set<Slot>, events: seq<Event>, n: nat, lag: nat)
    requires Lossless(Initial(clock, store), events) && PromptRun(Initial(clock, store), events, lag) && n <= |events|
    ensures var s := Run(Initial(clock, store), events[..n]);
            && store <= s.store
            && s.store <= Run(Initial(clock, store), events).store
            && (s.cache.Some? ==> exists k :: Backs(s, k, s.cache.value, lag))
  {
    var s0 := Initial(clock, store);
    LossExactly(s0, events);
    RunKeepsInv(s0, events, n, lag);
    RunGrows(s0, events, 0, n);
    RunGrows(s0, events, n, |events|);
    assert events[..|events|] == events;
  }

  // ---- what a warm-up is decided on ------------------------------------------------------------------

  datatype Outcome = Succeeded | FetchFailed

  /** The join of the tombstone fetch: `outcome` is None when no refresh has come in yet. */
  function RevocationSource(plan: Plan, outcome: Option<Outcome>): Source {
    match plan
    case Fresh => CacheFresh
    case Stale => if outcome == Some(Succeeded) then FromRelay else CacheStale
    case Fetch => if outcome == Some(Succeeded) then FromRelay else Failed
  }

  /** By age: under 30 s the cache decides alone; past that a refresh that succeeded does;
      without one the cache still does under 60 s, and nothing does after that. */
  lemma RevocationChoice(at: Option<int>, start: int, outcome: Option<Outcome>)
    ensures var source := RevocationSource(DirectoryPlan(at, start), outcome);
            var age := if at.Some? then start - at.value else -1;
            && (source == CacheFresh <==> 0 <= age < 30_000_000_000)
            && (source == FromRelay <==> outcome == Some(Succeeded) && !(0 <= age < 30_000_000_000))
            && (source == CacheStale <==> outcome != Some(Succeeded) && 30_000_000_000 <= age < 60_000_000_000)
            && (source == Failed <==> outcome != Some(Succeeded) && !(0 <= age < 60_000_000_000))
  {
  }

  /** A fetch reports success only in its last stage. */
  ghost predicate Reported(s: State, id: nat, outcome: Option<Outcome>) {
    outcome == Some(Succeeded) ==> id in s.fetches && s.fetches[id].Finished?
  }

  /** The answer a stage works on. */
  function AnswerOf(f: Stage): Option<nat> {
    match f
    case Recording(k, _) => Some(k)
    case Rewriting(k, _, _) => Some(k)
    case Stamped(k, _) => Some(k)
    case Finished(k) => Some(k)
    case _ => None
  }

  /** Whatever answer fetch `id` works on came in no earlier than t. */
  ghost predicate AnsweredSince(s: State, id: nat, t: int) {
    id in s.fetches && AnswerOf(s.fetches[id]).Some? ==>
      AnswerOf(s.fetches[id]).value < |s.answers| && s.answers[AnswerOf(s.fetches[id]).value].at >= t
  }

  lemma StepAnsweredSince(s: State, e: Event, id: nat, t: int)
    requires AnsweredSince(s, id, t) && s.clock >= t
    ensures AnsweredSince(Step(s, e), id, t) && Step(s, e).clock >= t
  {
    if id in Step(s, e).fetches && (e.Tick? || id != e.id) {
      OtherStagesSame(s, e, id);
    }
  }

  lemma {:induction false} OwnAnswerIsNew(s: State, events: seq<Event>, start: nat, n: nat, id: nat)
    requires start <= n <= |events| && id !in Run(s, events[..start]).fetches
    ensures var t := Run(s, events[..start]).clock;
            AnsweredSince(Run(s, events[..n]), id, t) && Run(s, events[..n]).clock >= t
    decreases n
  {
    if start < n {
      OwnAnswerIsNew(s, events, start, n - 1, id);
      RunNext(s, events, n - 1);
      StepAnsweredSince(Run(s, events[..n - 1]), events[n - 1], id, Run(s, events[..start]).clock);
    }
  }

  /** Answer k was known at the start, less than the ceiling and the lag old, and is in the store at the end. */
  ghost predicate RestsOnKnown(s: State, end: State, k: int, lag: nat) {
    && 0 <= k < |s.answers| <= |end.answers| && end.answers[k] == s.answers[k]
    && Covered(end.store, end.answers[k].slots)
    && s.clock < end.answers[k].at + STALE_CEILING + lag
  }

  /** Answer k came in after the start and is in the store at the end. */
  ghost predicate RestsOnNew(s: State, end: State, k: int) {
    && 0 <= k < |end.answers|
    && Covered(end.store, end.answers[k].slots)
    && end.answers[k].at >= s.clock
  }

  lemma CachedRests(s: State, end: State, lag: nat)
    requires CacheOk(s, lag) && Grows(s, end) && DirectoryPlan(s.cache, s.clock) != Fetch
    ensures exists k :: RestsOnKnown(s, end, k, lag)
  {
    var k :| Backs(s, k, s.cache.value, lag);
    assert end.answers[k] == s.answers[k];
    assert RestsOnKnown(s, end, k, lag);
  }

  lemma FetchedRests(s: State, end: State, lag: nat, id: nat)
    requires Inv(end, lag) && id in end.fetches && end.fetches[id].Finished? && AnsweredSince(end, id, s.clock)
    ensures exists k :: RestsOnNew(s, end, k)
  {
    assert StageOk(end, end.fetches[id], lag);
    assert RestsOnNew(s, end, end.fetches[id].k);
  }

  lemma {:induction false} WarmUpSpan(clock: int, store: set<Slot>, events: seq<Event>, start: nat, lag: nat)
    requires Lossless(Initial(clock, store), events) && PromptRun(Initial(clock, store), events, lag)
    requires start <= |events|
    ensures var s, end := Run(Initial(clock, store), events[..start]), Run(Initial(clock, store), events);
            Inv(s, lag) && Inv(end, lag) && Grows(s, end)
  {
    var s0 := Initial(clock, store);
    LossExactly(s0, events);
    RunKeepsInv(s0, events, start, lag);
    RunKeepsInv(s0, events, |events|, lag);
    RunGrows(s0, events, start, |events|);
    assert events[..|events|] == events;
  }

  /**
    A warm-up that starts at event `start`, begins its own fetch `id` after that and joins
    when the events are through. Served from the cache, it rests on an answer that was less
    than the ceiling plus the recording lag old at the start; served by the relay, on an
    answer that came in after the start. Either way that answer's slots are in the store at
    the join.
  */
  lemma {:induction false} WarmUpRestsOnAnswer(clock: int, store: set<Slot>, events: seq<Event>, start: nat, lag: nat,
                                               id: nat, outcome: Option<Outcome>)
    requires Lossless(Initial(clock, store), events) && PromptRun(Initial(clock, store), events, lag)
    requires start <= |events| && id !in Run(Initial(clock, store), events[..start]).fetches
    requires Reported(Run(Initial(clock, store), events), id, outcome)
    ensures var s, end := Run(Initial(clock, store), events[..start]), Run(Initial(clock, store), events);
            var source := RevocationSource(DirectoryPlan(s.cache, s.clock), outcome);
            && (source == CacheFresh || source == CacheStale ==> exists k :: RestsOnKnown(s, end, k, lag))
            && (source == FromRelay ==> exists k :: RestsOnNew(s, end, k))
  {
    var s0 := Initial(clock, store);
    var s, end := Run(s0, events[..start]), Run(s0, events);
    WarmUpSpan(clock, store, events, start, lag);
    assert events[..|events|] == events;
    if DirectoryPlan(s.cache, s.clock) != Fetch {
      CachedRests(s, end, lag);
    }
    if outcome == Some(Succeeded) {
      OwnAnswerIsNew(s0, events, start, |events|, id);
      FetchedRests(s, end, lag, id);
    }
  }

  // ---- a fetch that runs to its end ----------------------------------------------------------------

  function SlotSet(slots: seq<Slot>): set<Slot> { set i | 0 <= i < |slots| :: slots[i] }

  /** The store read and renamed n times. */
  function Rewrites(id: nat, n: nat): seq<Event> {
    if n == 0 then [] else Rewrites(id, n - 1) + [ReadStore(id), WriteStore(id)]
  }

  lemma RunTwo(s: State, a: Event, b: Event)
    ensures Run(s, [a, b]) == Step(Step(s, a), b)
  {
    assert [a, b][1..] == [b] && [b][1..] == [];
    assert Run(Step(s, a), [b]) == Run(Step(Step(s, a), b), []);
  }

  lemma OneRewrite(s: State, id: nat, k: nat, next: nat)
    requires In(s, id) && s.fetches[id] == Recording(k, next) && k < |s.answers| && next < |s.answers[k].slots|
    ensures Step(Step(s, ReadStore(id)), WriteStore(id))
         == s.(store := s.store + {s.answers[k].slots[next]}, fetches := s.fetches[id := Recording(k, next + 1)])
  {
    var t := Step(s, ReadStore(id));
    assert t == s.(fetches := s.fetches[id := Rewriting(k, next, s.store)]);
    assert t.fetches[id := Recording(k, next + 1)] == s.fetches[id := Recording(k, next + 1)];
  }

  lemma {:induction false} AllRewrites(s: State, id: nat, k: nat, n: nat)
    requires In(s, id) && s.fetches[id] == Recording(k, 0) && k < |s.answers| && n <= |s.answers[k].slots|
    ensures Run(s, Rewrites(id, n))
         == s.(store := s.store + SlotSet(s.answers[k].slots[..n]), fetches := s.fetches[id := Recording(k, n)])
    decreases n
  {
    var slots := s.answers[k].slots;
    if n == 0 {
      assert s.fetches[id := Recording(k, 0)] == s.fetches && s.store + SlotSet(slots[..0]) == s.store;
    } else {
      AllRewrites(s, id, k, n - 1);
      var t := Run(s, Rewrites(id, n - 1));
      RunAppend(s, Rewrites(id, n - 1), [ReadStore(id), WriteStore(id)]);
      RunTwo(t, ReadStore(id), WriteStore(id));
      OneRewrite(t, id, k, n - 1);
      OneSlotMore(s.store, slots, n - 1);
      assert t.fetches[id := Recording(k, n)] == s.fetches[id := Recording(k, n)];
    }
  }

  lemma OneSlotMore(store: set<Slot>, slots: seq<Slot>, n: nat)
    requires n < |slots|
    ensures store + SlotSet(slots[..n + 1]) == store + SlotSet(slots[..n]) + {slots[n]}
  {
    var more := slots[..n + 1];
    assert slots[n] == more[n] && slots[n] in SlotSet(more);
    forall x | x in SlotSet(slots[..n]) ensures x in SlotSet(more) {
      var i :| 0 <= i < n && slots[i] == x;
      assert more[i] == x;
    }
  }

  /**
    A new fetch that nothing interrupts records every slot of its answer, loses none that
    was there, moves the timestamp to the present and reports success, whatever other
    fetches are pending.
  */
  lemma {:induction false} LoneFetchRecords(s: State, id: nat, slots: seq<Slot>)
    requires !In(s, id)
    ensures var s' := Run(Run(Run(s, [Ask(id), Answered(id, slots)]), Rewrites(id, |slots|)),
                          [Stamp(id), WriteCache(id)]);
            && s'.store == s.store + SlotSet(slots) && s'.cache == Some(s.clock)
            && s'.answers == s.answers + [Answer(slots, s.clock)]
            && s'.fetches == s.fetches[id := Finished(|s.answers|)]
  {
    var k := |s.answers|;
    RunTwo(s, Ask(id), Answered(id, slots));
    var s1 := Run(s, [Ask(id), Answered(id, slots)]);
    FetchAsked(s, id, slots);
    AllRewrites(s1, id, k, |slots|);
    assert slots[..|slots|] == slots;
    var s2 := Run(s1, Rewrites(id, |slots|));
    assert s2.fetches == s.fetches[id := Recording(k, |slots|)];
    RunTwo(s2, Stamp(id), WriteCache(id));
    FetchStamped(s2, id, k);
    assert s2.fetches[id := Finished(k)] == s.fetches[id := Finished(k)];
  }

  lemma FetchAsked(s: State, id: nat, slots: seq<Slot>)
    requires !In(s, id)
    ensures Step(Step(s, Ask(id)), Answered(id, slots))
         == s.(answers := s.answers + [Answer(slots, s.clock)],
               fetches := s.fetches[id := Recording(|s.answers|, 0)])
  {
    var t := Step(s, Ask(id));
    assert t.fetches[id := Recording(|s.answers|, 0)] == s.fetches[id := Recording(|s.answers|, 0)];
  }

  lemma FetchStamped(s: State, id: nat, k: nat)
    requires In(s, id) && k < |s.answers| && s.fetches[id] == Recording(k, |s.answers[k].slots|)
    ensures Step(Step(s, Stamp(id)), WriteCache(id))
         == s.(cache := Some(s.clock), fetches := s.fetches[id := Finished(k)])
  {
    var t := Step(s, Stamp(id));
    assert t == s.(fetches := s.fetches[id := Stamped(k, s.clock)]);
    assert t.fetches[id := Finished(k)] == s.fetches[id := Finished(k)];
  }

  /** A local revoke that nothing interrupts adds its slot and nothing else. */
  lemma LoneRevokeRecords(s: State, id: nat, slot: Slot)
    requires !In(s, id)
    ensures Run(s, [LocalRead(id, slot), WriteStore(id)]) == s.(store := s.store + {slot})
  {
    RunTwo(s, LocalRead(id, slot), WriteStore(id));
    var t := Step(s, LocalRead(id, slot));
    assert t.fetches - {id} == s.fetches;
  }

  // ---- where the promises stop -------------------------------------------------------------------------

  /** A first fetch with one record has read the empty store. */
  lemma FirstReadDone(s: State, a: Slot)
    requires s.store == {} && s.answers == [] && s.fetches == map[]
    ensures Step(Step(Step(s, Ask(0)), Answered(0, [a])), ReadStore(0))
         == s.(answers := [Answer([a], s.clock)], fetches := map[0 := Rewriting(0, 0, {})])
  {
    var s1 := Step(s, Ask(0));
    assert s1 == s.(fetches := map[0 := Asking]);
    var s2 := Step(s1, Answered(0, [a]));
    assert s2 == s.(answers := [Answer([a], s.clock)], fetches := map[0 := Recording(0, 0)]);
  }

  /** One record, whose rewrite takes d, up to the cache timestamp. */
  lemma SlowRecording(clock: int, a: Slot, d: nat)
    ensures var s := Run(Run(Initial(clock, {}), [Ask(0), Answered(0, [a]), ReadStore(0), Tick(d), WriteStore(0)]),
                         [Stamp(0), WriteCache(0), Tick(STALE_CEILING - 1)]);
            && s.cache == Some(clock + d) && s.clock == clock + d + STALE_CEILING - 1
            && s.answers == [Answer([a], clock)] && s.store == {a}
  {
    var s0 := Initial(clock, {});
    RunFive(s0, [Ask(0), Answered(0, [a]), ReadStore(0), Tick(d), WriteStore(0)]);
    FirstReadDone(s0, a);
    var s3 := s0.(answers := [Answer([a], clock)], fetches := map[0 := Rewriting(0, 0, {})]);
    var s4 := Step(s3, Tick(d));
    var s5 := Step(s4, WriteStore(0));
    assert s5 == s4.(store := {a}, fetches := map[0 := Recording(0, 1)]);
    RunThree(s5, [Stamp(0), WriteCache(0), Tick(STALE_CEILING - 1)]);
    var s6 := Step(s5, Stamp(0));
    assert s6 == s5.(fetches := map[0 := Stamped(0, clock + d)]);
  }

  /**
    The timestamp is read after the records are written, so the time recording takes is not
    counted: for every positive lag a warm-up is served from the cache although the answer
    behind it is a full ceiling old or older.
  */
  lemma RecordingTimeIsNotCounted(clock: int, a: Slot, lag: nat)
    requires lag > 0
    ensures var s := Run(Run(Initial(clock, {}), [Ask(0), Answered(0, [a]), ReadStore(0), Tick(lag), WriteStore(0)]),
                         [Stamp(0), WriteCache(0), Tick(STALE_CEILING - 1)]);
            && RevocationSource(DirectoryPlan(s.cache, s.clock), None) == CacheStale
            && s.answers == [Answer([a], clock)] && s.clock - s.answers[0].at >= STALE_CEILING
  {
    SlowRecording(clock, a, lag);
  }

  lemma RunFive(s: State, es: seq<Event>)
    requires |es| == 5
    ensures Run(s, es) == Step(Step(Step(Step(Step(s, es[0]), es[1]), es[2]), es[3]), es[4])
  {
    var a, b, c, d := es[1..], es[2..], es[3..], es[4..];
    assert a[1..] == b && b[1..] == c && c[1..] == d && d[1..] == [];
    var s1 := Step(s, es[0]);
    var s2 := Step(s1, es[1]);
    var s3 := Step(s2, es[2]);
    var s4 := Step(s3, es[3]);
    assert Run(s, es) == Run(s1, a) == Run(s2, b) == Run(s3, c) == Run(s4, d);
    assert Run(s4, d) == Run(Step(s4, es[4]), []);
  }

  lemma RunThree(s: State, es: seq<Event>)
    requires |es| == 3
    ensures Run(s, es) == Step(Step(Step(s, es[0]), es[1]), es[2])
  {
    var a, b := es[1..], es[2..];
    assert a[1..] == b && b[1..] == [];
    var s1 := Step(s, es[0]);
    var s2 := Step(s1, es[1]);
    assert Run(s, es) == Run(s1, a) == Run(s2, b);
    assert Run(s2, b) == Run(Step(s2, es[2]), []);
  }

  /** Both read the empty store; the fetch has renamed, the local revoke has not. */
  lemma BothHaveRead(s: State, a: Slot, b: Slot)
    requires s.store == {} && s.answers == [] && s.fetches == map[]
    ensures Run(s, [Ask(0), Answered(0, [a]), ReadStore(0), LocalRead(1, b), WriteStore(0)])
         == s.(store := {a}, answers := [Answer([a], s.clock)],
               fetches := map[0 := Recording(0, 1), 1 := Revoking(b, {})])
  {
    RunFive(s, [Ask(0), Answered(0, [a]), ReadStore(0), LocalRead(1, b), WriteStore(0)]);
    FirstReadDone(s, a);
    SecondReadDone(s.(answers := [Answer([a], s.clock)], fetches := map[0 := Rewriting(0, 0, {})]), a, b);
  }

  lemma SecondReadDone(s: State, a: Slot, b: Slot)
    requires s.store == {} && |s.answers| == 1 && s.answers[0].slots == [a]
    requires s.fetches == map[0 := Rewriting(0, 0, {})]
    ensures Step(Step(s, LocalRead(1, b)), WriteStore(0))
         == s.(store := {a}, fetches := map[0 := Recording(0, 1), 1 := Revoking(b, {})])
  {
    var t := Step(s, LocalRead(1, b));
    assert t == s.(fetches := map[0 := Rewriting(0, 0, {}), 1 := Revoking(b, {})]);
    assert t.fetches[0 := Recording(0, 1)] == map[0 := Recording(0, 1), 1 := Revoking(b, {})];
  }

  /**
    Two rewrites that both read before either renames: the first one's tombstone is gone
    and its fetch still moves the cache timestamp.
  */
  lemma OverlapLosesTombstone(s: State, a: Slot, b: Slot)
    requires a != b && s.store == {} && s.answers == [] && s.fetches == map[]
    ensures var mid := Run(s, [Ask(0), Answered(0, [a]), ReadStore(0), LocalRead(1, b), WriteStore(0)]);
            var end := Run(mid, [WriteStore(1), Stamp(0), WriteCache(0)]);
            && mid.store == {a}
            && end.cache == Some(s.clock) && end.answers == [Answer([a], s.clock)] && a !in end.store
  {
    BothHaveRead(s, a, b);
    var mid := s.(store := {a}, answers := [Answer([a], s.clock)],
                  fetches := map[0 := Recording(0, 1), 1 := Revoking(b, {})]);
    RunThree(mid, [WriteStore(1), Stamp(0), WriteCache(0)]);
    var s1 := Step(mid, WriteStore(1));
    assert s1 == mid.(store := {b}, fetches := map[0 := Recording(0, 1)]);
    var s2 := Step(s1, Stamp(0));
    assert s2 == s1.(fetches := map[0 := Stamped(0, s.clock)]);
  }

  // ---- the objects ---------------------------------------------------------------------------------------

  /** The registry answer: what the relay or the cache gave, and which of them. */
  datatype Directory = Directory(machines: seq<nat>, source: Source)

  /** A cached registry that cannot be readable is a miss. */
  function RegistryPlan(at: Option<int>, readable: Option<seq<nat>>, start: int): Plan {
    if at.Some? && readable.None? then Fetch else DirectoryPlan(at, start)
  }

  /** `reply` is None while the refresh is out; an inner None is a failed one. */
  function ChooseRegistry(plan: Plan, readable: Option<seq<nat>>, reply: Option<Option<seq<nat>>>): Directory {
    var cached := if readable.Some? then readable.value else [];
    match plan
    case Fresh => Directory(cached, CacheFresh)
    case Stale =>
      if reply.Some? && reply.value.Some? then Directory(reply.value.value, FromRelay)
      else Directory(cached, CacheStale)
    case Fetch =>
      if reply.Some? && reply.value.Some? then Directory(reply.value.value, FromRelay)
      else if readable.Some? then Directory(cached, CacheFallback)
      else Directory([], Failed)
  }

  /**
    A relay reply that is in is always used, except over a fresh cache; a cached list is
    served older than the ceiling only as a fallback for a relay that failed.
  */
  lemma RegistryChoice(at: Option<int>, readable: Option<seq<nat>>, start: int, reply: Option<Option<seq<nat>>>)
    requires readable.Some? ==> at.Some?
    ensures var plan := RegistryPlan(at, readable, start);
            var d := ChooseRegistry(plan, readable, reply);
            && (d.source in {CacheFresh, CacheStale, CacheFallback} ==> readable == Some(d.machines))
            && (d.source in {CacheFresh, CacheStale} ==> 0 <= start - at.value < STALE_CEILING)
            && (d.source == FromRelay ==> reply == Some(Some(d.machines)))
            && (reply.Some? && reply.value.Some? ==> d.source in {FromRelay, CacheFresh})
            && (d.source == CacheFresh <==> readable.Some? && 0 <= start - at.value < 30_000_000_000)
            && (d.source == Failed ==> d.machines == []) && d.source != Skipped
            && (d.source == Failed ==> readable.None?)
  {
  }

  /** The outcome of one warm-up. */
  class WarmUp {
    var registry: Directory
    var ice: Ice
    var revocations: Source

    constructor ()
      ensures registry == Directory([], Skipped) && ice == Ice([], Skipped) && revocations == Skipped
    {
      registry, ice, revocations := Directory([], Skipped), Ice([], Skipped), Skipped;
    }

    /**
      The joins of Run, in its order: registry, TURN, revocations. The replies are what the
      fetches started by Run had delivered when each join looked; a fetch that is waited
      for has delivered something.
    */
    method Join(rooted: bool, wantsTurn: bool, start: int,
                revocationsAt: Option<int>, registryAt: Option<int>, readable: Option<seq<nat>>,
                credentials: Option<Credentials>, outcome: Option<Outcome>, reply: Option<Option<seq<nat>>>,
                fetched: Option<seq<nat>>, joined: int, stun: seq<nat>)
      requires rooted && RegistryPlan(registryAt, readable, start) == Fetch ==> reply.Some?
      requires rooted && DirectoryPlan(revocationsAt, start) == Fetch ==> outcome.Some?
      modifies this
      ensures rooted ==> registry == ChooseRegistry(RegistryPlan(registryAt, readable, start), readable, reply)
      ensures rooted ==> revocations == RevocationSource(DirectoryPlan(revocationsAt, start), outcome)
      ensures wantsTurn ==> ice == ChooseIce(credentials, start, fetched, joined, stun)
      ensures !rooted ==> registry == old(registry) && revocations == old(revocations)
      ensures !wantsTurn ==> ice == old(ice)
    {
      if rooted {
        JoinRegistry(RegistryPlan(registryAt, readable, start), readable, reply);
      }
      if wantsTurn {
        JoinIce(credentials, start, fetched, joined, stun);
      }
      if rooted {
        JoinRevocations(DirectoryPlan(revocationsAt, start), outcome);
      }
    }

    method JoinRegistry(plan: Plan, readable: Option<seq<nat>>, reply: Option<Option<seq<nat>>>)
      requires plan == Fetch ==> reply.Some?
      modifies this`registry
      ensures registry == ChooseRegistry(plan, readable, reply)
    {
      var cached := if readable.Some? then readable.value else [];
      match plan
      case Fresh =>
        registry := Directory(cached, CacheFresh);
      case Stale =>
        registry := Directory(cached, CacheStale);
        if reply.Some? && reply.value.Some? {
          registry := Directory(reply.value.value, FromRelay);
        }
      case Fetch =>
        if reply.value.Some? {
          registry := Directory(reply.value.value, FromRelay);
        } else if readable.Some? {
          registry := Directory(cached, CacheFallback);
        } else {
          registry := Directory([], Failed);
        }
    }

    method JoinIce(cached: Option<Credentials>, start: int, fetched: Option<seq<nat>>, joined: int, stun: seq<nat>)
      modifies this`ice
      ensures ice == ChooseIce(cached, start, fetched, joined, stun)
    {
      if TurnPlan(cached, start) == Fresh {
        ice := Ice(IceServers(cached.value.servers, stun), CacheFresh);
      } else if fetched.Some? {
        ice := Ice(IceServers(fetched.value, stun), FromRelay);
      } else if cached.Some? && cached.value.servers != []
                && cached.value.expiresAt.Some? && joined < cached.value.expiresAt.value {
        ice := Ice(IceServers(cached.value.servers, stun), CacheFallback);
      } else {
        ice := Ice([], Failed);
      }
    }

    method JoinRevocations(plan: Plan, outcome: Option<Outcome>)
      requires plan == Fetch ==> outcome.Some?
      modifies this`revocations
      ensures revocations == RevocationSource(plan, outcome)
    {
      match plan
      case Fresh =>
        revocations := CacheFresh;
      case Stale =>
        revocations := CacheStale;
        if outcome == Some(Succeeded) {
          revocations := FromRelay;
        }
      case Fetch =>
        revocations := if outcome.value == Succeeded then FromRelay else Failed;
    }
  }

  /** Every record verifies, the store is readable, and no rename fails on the way. */
  predicate Recordable(check: T.Revocation -> bool, file: T.StoreFile, records: seq<T.Revocation>, failAt: nat) {
    records == [] || (T.AllVerify(check, records) && T.Listed(check, file).Some? && |records| <= failAt)
  }

  /** One client state directory: the tombstone store and the cache timestamp. */
  class StateDir {
    const store: T.LocalStore
    var cache: Option<int>

    constructor (store: T.LocalStore, cache: Option<int>)
      ensures this.store == store && this.cache == cache
    {
      this.store, this.cache := store, cache;
    }

    /**
      One fetch without company: `answer` is the verified answer or None, `failAt` the first
      record whose rename fails. The timestamp moves only after every record is stored, and
      no slot is lost whatever fails.
    */
    method FetchRevocations(answer: Option<seq<T.Revocation>>, failAt: nat, now: int, cacheFails: bool)
        returns (outcome: Outcome)
      modifies this, store
      ensures T.Grown(store.check, old(store.file), store.file)
      ensures outcome == Succeeded ==> answer.Some?
      ensures outcome == Succeeded ==> forall r :: r in answer.value ==> T.Stored(store.check, store.file, r.slot)
      ensures outcome == Succeeded <==> answer.Some? && Recordable(store.check, old(store.file), answer.value, failAt)
      ensures cache == if outcome == Succeeded && !cacheFails then Some(now) else old(cache)
    {
      if answer.None? {
        return FetchFailed;
      }
      var records := answer.value;
      for i := 0 to |records|
        invariant T.Grown(store.check, old(store.file), store.file)
        invariant i > 0 ==> T.Listed(store.check, old(store.file)).Some? && i <= failAt
        invariant forall j :: 0 <= j < i ==>
            store.check(records[j]) && T.Stored(store.check, store.file, records[j].slot)
        invariant cache == old(cache)
      {
        ghost var before := store.file;
        var ok := store.RecordRevocation(records[i], i >= failAt);
        if !ok {
          return FetchFailed;
        }
        T.RecordedSpec(store.check, before, records[i]);
      }
      if !cacheFails {
        cache := Some(now);
      }
      return Succeeded;
    }
  }
}
