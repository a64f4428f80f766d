/** Revocation durability on the relay (go/internal/signal/revocations.go): posts
    insert a tombstone under the broker lock, write a versioned snapshot under a
    second lock, and roll back if the write fails. Every lock region is one step,
    and the steps of any number of requests interleave freely. */
module RelayRevocations {
  import opened Wrappers

  /** owner|machine, and signatures: only ever compared. */
  type Slot = nat
  type Signature = nat
  type PostId = nat

  /** An owner-signed tombstone. */
  datatype Record = Record(slot: Slot, ts: int, signature: Signature)

  datatype Status = NoContent | InternalError | Unavailable

  datatype Phase = Saving | Failed

  /** The locals of a request between its lock regions. */
  datatype Post = Post(record: Record, version: nat, snapshot: map<Slot, Record>,
                       existing: Option<Record>, phase: Phase)

  datatype Relay = Relay(
    maxRevocations: nat,
    revoked: map<Slot, Record>,      // under s.mu
    version: nat,                    // under s.mu
    persisted: nat,                  // under persistMu
    durable: set<Slot>,              // under persistMu
    file: map<Slot, Record>,         // what a restart would load
    posts: map<PostId, Post>,        // requests between lock regions
    responses: map<PostId, Status>,
    acked: set<Slot>)                // slots answered 204, or loaded from the file

  datatype Event =
    | Receive(id: PostId, record: Record) // the s.mu region of postRevocation
    | Persist(id: PostId, ok: bool)       // persistRevocations; ok says whether a write would succeed
    | Rollback(id: PostId)                // rollbackRevocation
    | Restart                             // the process dies and LoadRevocations runs

  function Loaded(max: nat, file: map<Slot, Record>): Relay {
    Relay(max, file, 0, 0, file.Keys, file, map[], map[], file.Keys)
  }

  function Respond(s: Relay, id: PostId, slot: Slot, status: Status): Relay {
    s.(posts := s.posts - {id}, responses := s.responses[id := status],
       acked := if status == NoContent then s.acked + {slot} else s.acked)
  }

  function ReceiveStep(s: Relay, id: PostId, record: Record): Relay {
    var slot := record.slot;
    var existing := if slot in s.revoked then Some(s.revoked[slot]) else None;
    if existing == Some(record) then
      Respond(s, id, slot, if slot in s.durable then NoContent else InternalError)
    else if existing == None && s.maxRevocations > 0 && |s.revoked| >= s.maxRevocations then
      Respond(s, id, slot, Unavailable)
    else
      var revoked := s.revoked[slot := record];
      s.(revoked := revoked, version := s.version + 1,
         posts := s.posts[id := Post(record, s.version + 1, revoked, existing, Saving)])
  }

  function PersistStep(s: Relay, id: PostId, p: Post, ok: bool): Relay {
    if p.version <= s.persisted then Respond(s, id, p.record.slot, NoContent)
    else if !ok then s.(posts := s.posts[id := p.(phase := Failed)])
    else Respond(s.(file := p.snapshot, persisted := p.version, durable := s.durable + p.snapshot.Keys),
                 id, p.record.slot, NoContent)
  }

  function RollbackStep(s: Relay, id: PostId, p: Post): Relay {
    var slot := p.record.slot;
    Respond(s.(revoked := match p.existing
                          case Some(prior) => s.revoked[slot := prior]
                          case None => s.revoked - {slot}),
            id, slot, InternalError)
  }

  function Step(s: Relay, e: Event): Relay {
    match e
    case Receive(id, record) =>
      if id in s.posts || id in s.responses then s else ReceiveStep(s, id, record)
    case Persist(id, ok) =>
      if id in s.posts && s.posts[id].phase == Saving then PersistStep(s, id, s.posts[id], ok) else s
    case Rollback(id) =>
      if id in s.posts && s.posts[id].phase == Failed then RollbackStep(s, id, s.posts[id]) else s
    case Restart =>
      Loaded(s.maxRevocations, s.file).(acked := s.acked + s.file.Keys)
  }

  function Run(s: Relay, es: seq<Event>): Relay
    decreases |es|
  {
    if es == [] then s else Run(Step(s, es[0]), es[1..])
  }

  // ---- Failure-free runs ----

  ghost predicate FailureFree(es: seq<Event>) {
    forall i :: 0 <= i < |es| ==> !(es[i].Persist? && !es[i].ok)
  }

  ghost predicate PostGrowing(s: Relay, p: Post) {
    && p.phase == Saving && p.record.slot in p.snapshot && p.snapshot.Keys <= s.revoked.Keys && p.version <= s.version
    && (p.version > s.persisted ==> s.file.Keys <= p.snapshot.Keys)
    && (p.version <= s.persisted ==> p.snapshot.Keys <= s.file.Keys)
  }

  /** A higher-versioned snapshot holds every slot of a lower-versioned one. */
  ghost predicate SnapshotsOrdered(s: Relay) {
    forall i, j :: i in s.posts && j in s.posts && s.posts[i].version <= s.posts[j].version
      ==> s.posts[i].snapshot.Keys <= s.posts[j].snapshot.Keys
  }

  ghost predicate Growing(s: Relay) {
    && s.persisted <= s.version
    && s.durable <= s.file.Keys && s.acked <= s.file.Keys && s.file.Keys <= s.revoked.Keys
    && (forall i :: i in s.posts ==> PostGrowing(s, s.posts[i]))
    && SnapshotsOrdered(s)
  }

  lemma GrowingInsert(s: Relay, id: PostId, record: Record, s': Relay)
    requires Growing(s) && id !in s.posts && id !in s.responses && s' == ReceiveStep(s, id, record) && id in s'.posts
    ensures Growing(s')
  {
    var p := s'.posts[id];
    assert s'.posts == s.posts[id := p];
    forall i | i in s'.posts ensures PostGrowing(s', s'.posts[i]) {
      if i != id { assert PostGrowing(s, s.posts[i]); }
    }
    forall i, j | i in s'.posts && j in s'.posts && s'.posts[i].version <= s'.posts[j].version
      ensures s'.posts[i].snapshot.Keys <= s'.posts[j].snapshot.Keys
    {
      if i != id { assert PostGrowing(s, s.posts[i]); }
      if j != id { assert PostGrowing(s, s.posts[j]); }
    }
  }

  lemma GrowingReceive(s: Relay, id: PostId, record: Record)
    requires Growing(s) && id !in s.posts && id !in s.responses
    ensures Growing(ReceiveStep(s, id, record)) && ReceiveStep(s, id, record).file == s.file
  {
    var s' := ReceiveStep(s, id, record);
    if id in s'.posts {
      GrowingInsert(s, id, record, s');
    } else {
      OnlyResponds(s, id, record);
      GrowingAcked(s, s');
    }
  }

  lemma GrowingAcked(s: Relay, s': Relay)
    requires Growing(s) && s' == s.(responses := s'.responses, acked := s'.acked) && s'.acked <= s.file.Keys
    ensures Growing(s')
  {
    forall i | i in s'.posts ensures PostGrowing(s', s'.posts[i]) { assert PostGrowing(s, s.posts[i]); }
  }

  lemma GrowingPersist(s: Relay, id: PostId)
    requires Growing(s) && id in s.posts
    ensures var s' := PersistStep(s, id, s.posts[id], true); Growing(s') && s.file.Keys <= s'.file.Keys
  {
    var p := s.posts[id];
    assert PostGrowing(s, p);
    var s' := PersistStep(s, id, p, true);
    forall i | i in s'.posts ensures i in s.posts && s'.posts[i] == s.posts[i] && PostGrowing(s', s'.posts[i]) {
      assert PostGrowing(s, s.posts[i]);
    }
  }

  lemma GrowingStep(s: Relay, e: Event)
    requires Growing(s) && !(e.Persist? && !e.ok)
    ensures var s' := Step(s, e); Growing(s') && s.file.Keys <= s'.file.Keys
  {
    match e
    case Receive(id, record) =>
      if id !in s.posts && id !in s.responses { GrowingReceive(s, id, record); }
    case Persist(id, ok) =>
      if id in s.posts { GrowingPersist(s, id); }
    case Rollback(id) =>
      if id in s.posts { assert PostGrowing(s, s.posts[id]); }
    case Restart =>
  }

  /** In every run without a failed write, from any loaded file: higher-versioned
      snapshots are slot supersets, the file never loses a slot, and every slot
      answered 204 - by a write, a skipped stale write or a duplicate - is on disk
      and in memory. */
  lemma {:induction false} FailureFreeDurability(s: Relay, es: seq<Event>)
    requires Growing(s) && FailureFree(es)
    ensures var s' := Run(s, es);
            && SnapshotsOrdered(s')
            && s.file.Keys <= s'.file.Keys
            && s'.acked <= s'.file.Keys && s'.acked <= s'.revoked.Keys
    decreases |es|
  {
    if es != [] {
      GrowingStep(s, es[0]);
      FailureFreeDurability(Step(s, es[0]), es[1..]);
    }
  }

  /** The same from any file a start accepts. */
  lemma DurableFromStart(max: nat, file: map<Slot, Record>, es: seq<Event>)
    requires FailureFree(es)
    ensures var s := Run(Loaded(max, file), es);
            file.Keys <= s.file.Keys && s.acked <= s.file.Keys && s.acked <= s.revoked.Keys
  {
    FailureFreeDurability(Loaded(max, file), es);
  }

  // ---- Runs with failed writes ----

  /** The request may still overwrite the file: its write is yet to come and is not stale. */
  predicate MayWrite(s: Relay, p: Post) { p.phase == Saving && p.version > s.persisted }

  /** On disk, and in every snapshot that may still overwrite the file. */
  ghost predicate Anchored(s: Relay, slot: Slot) {
    slot in s.file && forall i :: i in s.posts && MayWrite(s, s.posts[i]) ==> slot in s.posts[i].snapshot
  }

  /** Some request for this slot has its write still to come, and will be answered 204 unless it fails. */
  ghost predicate BeingSaved(s: Relay, slot: Slot) {
    exists i :: i in s.posts && s.posts[i].phase == Saving && s.posts[i].record.slot == slot
  }

  predicate Known(revoked: map<Slot, Record>, record: Record) {
    record.slot in revoked && revoked[record.slot] == record
  }

  predicate Duplicates(s: Relay, record: Record) { Known(s.revoked, record) }

  /** The rollback removes its slot from memory. */
  predicate Deletes(s: Relay, id: PostId) {
    id in s.posts && s.posts[id].phase == Failed && s.posts[id].existing == None
  }

  /** The steps that put no 204 at stake. A rollback that deletes a slot finds the slot
      unacknowledged and no request for it being saved. A duplicate answered 204 on the
      strength of the durable mark, which is never cleared, finds its slot anchored. */
  ghost predicate Clean(s: Relay, e: Event) {
    match e
    case Receive(id, record) =>
      id !in s.posts && id !in s.responses && Duplicates(s, record) && record.slot in s.durable ==>
          Anchored(s, record.slot)
    case Rollback(id) =>
      Deletes(s, id) ==> s.posts[id].record.slot !in s.acked && !BeingSaved(s, s.posts[id].record.slot)
    case _ => true
  }

  ghost predicate CleanRun(s: Relay, es: seq<Event>)
    decreases |es|
  {
    es != [] ==> Clean(s, es[0]) && CleanRun(Step(s, es[0]), es[1..])
  }

  ghost predicate PostSafe(s: Relay, p: Post) {
    && p.record.slot in p.snapshot && p.version <= s.version
    && (p.phase == Saving ==> p.record.slot in s.revoked)
    && (p.phase == Saving && p.version <= s.persisted ==> p.record.slot in s.file)
    && (MayWrite(s, p) ==> s.acked <= p.snapshot.Keys)
  }

  /** A later snapshot holds the slot of every earlier request still being saved. */
  ghost predicate PostsOrdered(s: Relay) {
    forall i, j :: i in s.posts && j in s.posts ==>
      && (s.posts[i].phase == Saving && s.posts[i].version < s.posts[j].version ==>
            s.posts[i].record.slot in s.posts[j].snapshot)
      && (s.posts[i].version == s.posts[j].version ==> i == j)
  }

  /** The acknowledged slots are safe: on disk, in memory, and in every snapshot
      that may still overwrite the file. */
  ghost predicate Safe(s: Relay) {
    && s.persisted <= s.version
    && s.acked <= s.revoked.Keys && s.acked <= s.file.Keys
    && (forall i :: i in s.posts ==> PostSafe(s, s.posts[i]))
    && PostsOrdered(s)
  }

  lemma SafeInsert(s: Relay, id: PostId, record: Record, s': Relay)
    requires Safe(s) && id !in s.posts && s' == ReceiveStep(s, id, record) && id in s'.posts
    ensures Safe(s')
  {
    var p := s'.posts[id];
    assert s'.posts == s.posts[id := p];
    forall i | i in s'.posts ensures PostSafe(s', s'.posts[i]) {
      if i != id { assert PostSafe(s, s.posts[i]); }
    }
    forall i, j | i in s'.posts && j in s'.posts
      ensures s'.posts[i].phase == Saving && s'.posts[i].version < s'.posts[j].version ==>
                s'.posts[i].record.slot in s'.posts[j].snapshot
      ensures s'.posts[i].version == s'.posts[j].version ==> i == j
    {
      if i != id { assert PostSafe(s, s.posts[i]); }
      if j != id { assert PostSafe(s, s.posts[j]); }
    }
  }

  /** A request answered at once: only its response, and for a 204 the acknowledgement, are new. */
  lemma OnlyResponds(s: Relay, id: PostId, record: Record)
    requires id !in s.posts && id !in ReceiveStep(s, id, record).posts
    ensures var s' := ReceiveStep(s, id, record);
            && s' == s.(responses := s'.responses, acked := s'.acked)
            && s'.acked ==
               if Duplicates(s, record) && record.slot in s.durable then s.acked + {record.slot} else s.acked
  {
    assert s.posts - {id} == s.posts;
  }

  /** Acknowledging an anchored slot keeps the invariant. */
  lemma SafeAcked(s: Relay, s': Relay)
    requires Safe(s) && s' == s.(responses := s'.responses, acked := s'.acked)
    requires s'.acked <= s.revoked.Keys && forall slot :: slot in s'.acked && slot !in s.acked ==> Anchored(s, slot)
    ensures Safe(s')
  {
    forall i | i in s'.posts ensures PostSafe(s', s'.posts[i]) { assert PostSafe(s, s.posts[i]); }
  }

  lemma SafeReceive(s: Relay, id: PostId, record: Record)
    requires Safe(s) && id !in s.posts && id !in s.responses && Clean(s, Receive(id, record))
    ensures Safe(ReceiveStep(s, id, record))
  {
    var s' := ReceiveStep(s, id, record);
    if id in s'.posts {
      SafeInsert(s, id, record, s');
    } else {
      OnlyResponds(s, id, record);
      SafeAcked(s, s');
    }
  }

  lemma SafePersist(s: Relay, id: PostId, ok: bool)
    requires Safe(s) && id in s.posts && s.posts[id].phase == Saving
    ensures Safe(PersistStep(s, id, s.posts[id], ok))
  {
    var p := s.posts[id];
    assert PostSafe(s, p);
    var s' := PersistStep(s, id, p, ok);
    forall i | i in s'.posts
      ensures i in s.posts && s'.posts[i].record == s.posts[i].record && s'.posts[i].version == s.posts[i].version
      ensures s'.posts[i].snapshot == s.posts[i].snapshot
      ensures (s'.posts[i].phase == Saving ==> s.posts[i].phase == Saving)
      ensures PostSafe(s', s'.posts[i])
    {
      assert PostSafe(s, s.posts[i]);
    }
  }

  lemma SafeRollback(s: Relay, id: PostId)
    requires Safe(s) && id in s.posts && s.posts[id].phase == Failed && Clean(s, Rollback(id))
    ensures Safe(RollbackStep(s, id, s.posts[id]))
  {
    var p := s.posts[id];
    var s' := RollbackStep(s, id, p);
    forall i | i in s'.posts ensures i in s.posts && s'.posts[i] == s.posts[i] && PostSafe(s', s'.posts[i]) {
      assert PostSafe(s, s.posts[i]);
    }
  }

  lemma SafeStep(s: Relay, e: Event)
    requires Safe(s) && Clean(s, e)
    ensures Safe(Step(s, e))
    ensures s.acked <= Step(s, e).acked
  {
    match e
    case Receive(id, record) =>
      if id !in s.posts && id !in s.responses { SafeReceive(s, id, record); }
    case Persist(id, ok) =>
      if id in s.posts && s.posts[id].phase == Saving { SafePersist(s, id, ok); }
    case Rollback(id) =>
      if id in s.posts && s.posts[id].phase == Failed { SafeRollback(s, id); }
    case Restart =>
  }

  /** Arbitrary write failures and restarts, any interleaving: as long as the run
      is clean, a slot once answered 204 stays on disk and in memory for ever. */
  lemma {:induction false} AcknowledgedNeverLost(s: Relay, es: seq<Event>)
    requires Safe(s) && CleanRun(s, es)
    ensures var s' := Run(s, es);
            s.acked <= s'.acked && s'.acked <= s'.file.Keys && s'.acked <= s'.revoked.Keys
    decreases |es|
  {
    if es != [] {
      SafeStep(s, es[0]);
      AcknowledgedNeverLost(Step(s, es[0]), es[1..]);
    }
  }

  /** From any file a start accepts, every slot of that file included. */
  lemma AcknowledgedFromStart(max: nat, file: map<Slot, Record>, es: seq<Event>)
    requires CleanRun(Loaded(max, file), es)
    ensures var s := Run(Loaded(max, file), es);
            file.Keys <= s.acked && s.acked <= s.file.Keys && s.acked <= s.revoked.Keys
  {
    AcknowledgedNeverLost(Loaded(max, file), es);
  }

  // ---- Exactly when a step is harmless ----

  /** Every acknowledged slot is on disk and in memory. */
  ghost predicate Kept(s: Relay) { s.acked <= s.file.Keys && s.acked <= s.revoked.Keys }

  /** Now, and whatever write comes next. */
  ghost predicate KeptThroughNextWrite(s: Relay) {
    Kept(s) && forall i, ok :: Kept(Step(s, Persist(i, ok)))
  }

  lemma SafeIsKept(s: Relay)
    requires Safe(s)
    ensures KeptThroughNextWrite(s)
  {
    forall i, ok ensures Kept(Step(s, Persist(i, ok))) {
      SafeStep(s, Persist(i, ok));
    }
  }

  /** A write that does not hold an acknowledged slot takes it off the disk. */
  lemma WriteDrops(s: Relay, i: PostId, slot: Slot)
    requires i in s.posts && MayWrite(s, s.posts[i]) && slot in s.acked && slot !in s.posts[i].snapshot
    ensures !Kept(Step(s, Persist(i, true)))
  {
    assert slot !in Step(s, Persist(i, true)).file;
  }

  /** A write for a slot that is not in memory is answered 204 all the same. */
  lemma WriteAcknowledges(s: Relay, i: PostId)
    requires i in s.posts && s.posts[i].phase == Saving && s.posts[i].record.slot !in s.revoked
    ensures !Kept(Step(s, Persist(i, true)))
  {
    assert s.posts[i].record.slot in Step(s, Persist(i, true)).acked;
  }

  /** Exactly when answering a duplicate is harmless. At the moment: its slot is on disk or
      not marked durable. For good: what Clean asks, for otherwise an acknowledged slot is
      off the disk at once or after one more write, which is itself a clean step. */
  lemma DuplicateExact(s: Relay, id: PostId, record: Record)
    requires Safe(s) && id !in s.posts && id !in s.responses && Duplicates(s, record)
    ensures var s' := Step(s, Receive(id, record));
            && (s'.acked <= s'.file.Keys <==> (record.slot in s.durable ==> record.slot in s.file))
            && (KeptThroughNextWrite(s') <==> Clean(s, Receive(id, record)))
  {
    var s' := ReceiveStep(s, id, record);
    OnlyResponds(s, id, record);
    if Clean(s, Receive(id, record)) {
      SafeReceive(s, id, record);
      SafeIsKept(s');
    } else if record.slot in s.file {
      var i :| i in s.posts && MayWrite(s, s.posts[i]) && record.slot !in s.posts[i].snapshot;
      WriteDrops(s', i, record.slot);
    }
  }

  /** Exactly when a rollback that deletes its slot is harmless: the slot is not acknowledged,
      and no other post will be answered 204 for it. */
  lemma RollbackExact(s: Relay, id: PostId)
    requires Safe(s) && Deletes(s, id)
    ensures var slot := s.posts[id].record.slot;
            KeptThroughNextWrite(Step(s, Rollback(id))) <==> slot !in s.acked && !BeingSaved(s, slot)
  {
    var slot := s.posts[id].record.slot;
    var s' := RollbackStep(s, id, s.posts[id]);
    if Clean(s, Rollback(id)) {
      SafeRollback(s, id);
      SafeIsKept(s');
    } else if slot !in s.acked {
      var i :| i in s.posts && s.posts[i].phase == Saving && s.posts[i].record.slot == slot;
      WriteAcknowledges(s', i);
    }
  }

  /** A step puts no 204 at stake exactly when it is clean. */
  lemma StepExact(s: Relay, e: Event)
    requires Safe(s)
    ensures KeptThroughNextWrite(Step(s, e)) <==> Clean(s, e)
  {
    if Clean(s, e) {
      SafeStep(s, e);
      SafeIsKept(Step(s, e));
    } else if e.Receive? {
      DuplicateExact(s, e.id, e.record);
    } else {
      RollbackExact(s, e.id);
    }
  }

  /** In every state of the run. */
  ghost predicate AlwaysKept(s: Relay, es: seq<Event>)
    decreases |es|
  {
    KeptThroughNextWrite(s) && (es != [] ==> AlwaysKept(Step(s, es[0]), es[1..]))
  }

  /** A run puts no 204 at stake exactly when all its steps are clean. */
  lemma {:induction false} KeptExactly(s: Relay, es: seq<Event>)
    requires Safe(s)
    ensures AlwaysKept(s, es) <==> CleanRun(s, es)
    decreases |es|
  {
    SafeIsKept(s);
    if es != [] {
      StepExact(s, es[0]);
      if Clean(s, es[0]) {
        SafeStep(s, es[0]);
        KeptExactly(Step(s, es[0]), es[1..]);
      } else {
        NotAlwaysKept(Step(s, es[0]), es[1..]);
      }
    }
  }

  lemma NotAlwaysKept(s: Relay, es: seq<Event>)
    requires !KeptThroughNextWrite(s)
    ensures !AlwaysKept(s, es)
  {
  }

  // ---- Rollbacks that meet no other post ----

  /** Some other post for this slot is between its lock regions, failed or not. */
  ghost predicate InFlight(s: Relay, slot: Slot, except: set<PostId>) {
    exists i :: i in s.posts && i !in except && s.posts[i].record.slot == slot
  }

  /** A rollback that deletes a slot finds no other post for it. */
  ghost predicate Lonely(s: Relay, e: Event) {
    e.Rollback? && Deletes(s, e.id) ==> !InFlight(s, s.posts[e.id].record.slot, {e.id})
  }

  ghost predicate LonelyRun(s: Relay, es: seq<Event>)
    decreases |es|
  {
    es != [] ==> Lonely(s, es[0]) && LonelyRun(Step(s, es[0]), es[1..])
  }

  /** Memory holds the slot of every post in flight. */
  ghost predicate InMemory(s: Relay) { forall i :: i in s.posts ==> s.posts[i].record.slot in s.revoked }

  lemma InMemoryStep(s: Relay, e: Event)
    requires InMemory(s) && Lonely(s, e)
    ensures InMemory(Step(s, e))
  {
    if e.Rollback? && Deletes(s, e.id) {
      var s' := Step(s, e);
      forall i | i in s'.posts ensures s'.posts[i].record.slot in s'.revoked {
        assert i in s.posts && i !in {e.id};
      }
    }
  }

  /** A request that inserted its slot as a new one. */
  ghost predicate Root(s: Relay, slot: Slot, i: PostId) {
    i in s.posts && s.posts[i].record.slot == slot && s.posts[i].existing == None
  }

  /** An unacknowledged slot in memory was put there by a request in flight. */
  ghost predicate Rooted(s: Relay) {
    forall slot :: slot in s.revoked && slot !in s.acked ==> exists i :: Root(s, slot, i)
  }

  /** Roots survive a step that keeps the records of the posts it keeps. */
  lemma RootedKept(s: Relay, s': Relay, added: set<Slot>, gone: set<PostId>)
    requires Rooted(s)
    requires s'.revoked.Keys <= s.revoked.Keys + added && s.acked <= s'.acked
    requires forall slot :: slot in added ==> exists i :: Root(s', slot, i)
    requires forall i :: i in s.posts && i !in gone ==>
               i in s'.posts && s'.posts[i].record == s.posts[i].record && s'.posts[i].existing == s.posts[i].existing
    requires forall i :: i in gone && i in s.posts ==>
               s.posts[i].existing != None || s.posts[i].record.slot in s'.acked ||
                   s.posts[i].record.slot !in s'.revoked
    ensures Rooted(s')
  {
    forall t | t in s'.revoked && t !in s'.acked ensures exists i :: Root(s', t, i) {
      if t !in added {
        var i :| Root(s, t, i);
        assert Root(s', t, i);
      }
    }
  }

  lemma RootedReceive(s: Relay, id: PostId, record: Record)
    requires Rooted(s) && id !in s.posts
    ensures Rooted(ReceiveStep(s, id, record))
  {
    var s' := ReceiveStep(s, id, record);
    if id !in s'.posts {
      OnlyResponds(s, id, record);
      RootedKept(s, s', {}, {});
    } else {
      assert s'.posts == s.posts[id := s'.posts[id]];
      if record.slot in s.revoked {
        RootedKept(s, s', {}, {});
      } else {
        assert Root(s', record.slot, id);
        RootedKept(s, s', {record.slot}, {});
      }
    }
  }

  lemma RootedPersist(s: Relay, id: PostId, ok: bool)
    requires Rooted(s) && id in s.posts
    ensures Rooted(PersistStep(s, id, s.posts[id], ok))
  {
    var s' := PersistStep(s, id, s.posts[id], ok);
    RootedKept(s, s', {}, if id in s'.posts then {} else {id});
  }

  lemma RootedStep(s: Relay, e: Event)
    requires Rooted(s) && InMemory(s)
    ensures Rooted(Step(s, e))
  {
    match e
    case Receive(id, record) =>
      if id !in s.posts && id !in s.responses { RootedReceive(s, id, record); }
    case Persist(id, ok) =>
      if id in s.posts && s.posts[id].phase == Saving { RootedPersist(s, id, ok); }
    case Rollback(id) =>
      if id in s.posts && s.posts[id].phase == Failed { RootedKept(s, Step(s, e), {}, {id}); }
    case Restart =>
  }

  lemma {:induction false} LonelyRunIsRooted(s: Relay, es: seq<Event>)
    requires Rooted(s) && InMemory(s) && LonelyRun(s, es)
    ensures Rooted(Run(s, es)) && InMemory(Run(s, es))
    decreases |es|
  {
    if es != [] {
      InMemoryStep(s, es[0]);
      RootedStep(s, es[0]);
      LonelyRunIsRooted(Step(s, es[0]), es[1..]);
    }
  }

  lemma AckedIsAnchored(s: Relay, slot: Slot)
    requires Safe(s) && slot in s.acked
    ensures Anchored(s, slot)
  {
    forall i | i in s.posts && MayWrite(s, s.posts[i]) ensures slot in s.posts[i].snapshot {
      assert PostSafe(s, s.posts[i]);
    }
  }

  lemma SettledIsAcked(s: Relay, slot: Slot)
    requires Rooted(s) && slot in s.revoked && !InFlight(s, slot, {})
    ensures slot in s.acked
  {
  }

  /** After a clean run in which deleting rollbacks met no other post for their slot, a
      duplicate that meets no other post for its slot is clean. */
  lemma QuietDuplicateIsClean(max: nat, file: map<Slot, Record>, es: seq<Event>, id: PostId, record: Record)
    requires CleanRun(Loaded(max, file), es) && LonelyRun(Loaded(max, file), es)
    requires !InFlight(Run(Loaded(max, file), es), record.slot, {})
    ensures Clean(Run(Loaded(max, file), es), Receive(id, record))
  {
    var s := Run(Loaded(max, file), es);
    SafeRun(Loaded(max, file), es);
    LonelyRunIsRooted(Loaded(max, file), es);
    if record.slot in s.revoked {
      SettledIsAcked(s, record.slot);
      AckedIsAnchored(s, record.slot);
    }
  }

  lemma {:induction false} SafeRun(s: Relay, es: seq<Event>)
    requires Safe(s) && CleanRun(s, es)
    ensures Safe(Run(s, es))
    decreases |es|
  {
    if es != [] {
      SafeStep(s, es[0]);
      SafeRun(Step(s, es[0]), es[1..]);
    }
  }

  // ---- The file always fits ----

  /** Memory, file and every pending snapshot are within the capacity a start accepts. */
  ghost predicate Capped(s: Relay) {
    s.maxRevocations > 0 ==>
      && |s.revoked| <= s.maxRevocations && |s.file| <= s.maxRevocations
      && forall i :: i in s.posts ==> |s.posts[i].snapshot| <= s.maxRevocations
  }

  /** Memory within the cap, the file as it was, and no pending snapshot but old ones and memory. */
  lemma CappedFrame(s: Relay, s': Relay)
    requires Capped(s) && s'.maxRevocations == s.maxRevocations && s'.file == s.file
    requires s.maxRevocations > 0 ==> |s'.revoked| <= s.maxRevocations
    requires forall i :: i in s'.posts ==>
        s'.posts[i].snapshot == s'.revoked || (i in s.posts && s'.posts[i] == s.posts[i])
    ensures Capped(s')
  {
  }

  lemma CappedReceive(s: Relay, id: PostId, record: Record)
    requires Capped(s) && id !in s.posts
    ensures Capped(ReceiveStep(s, id, record)) && ReceiveStep(s, id, record).maxRevocations == s.maxRevocations
  {
    var s' := ReceiveStep(s, id, record);
    if id in s'.posts {
      SizeAfterPut(s.revoked, record.slot, record);
    } else {
      OnlyResponds(s, id, record);
    }
    CappedFrame(s, s');
  }

  lemma CappedPersist(s: Relay, id: PostId, ok: bool)
    requires Capped(s) && id in s.posts
    ensures var s' := PersistStep(s, id, s.posts[id], ok); Capped(s') && s'.maxRevocations == s.maxRevocations
  {
  }

  lemma CappedRollback(s: Relay, id: PostId)
    requires Capped(s) && id in s.posts && s.posts[id].existing == None
    ensures var s' := RollbackStep(s, id, s.posts[id]); Capped(s') && s'.maxRevocations == s.maxRevocations
  {
    SizeAfterRemove(s.revoked, s.posts[id].record.slot);
  }

  /** The rollback puts a slot back into a full memory that no longer holds it. */
  predicate Overfills(s: Relay, e: Event) {
    && e.Rollback? && e.id in s.posts && s.posts[e.id].phase == Failed && s.posts[e.id].existing.Some?
    && s.posts[e.id].record.slot !in s.revoked
    && s.maxRevocations > 0 && |s.revoked| == s.maxRevocations
  }

  /** A step breaks the capacity exactly when it is such a rollback. */
  lemma CapExact(s: Relay, e: Event)
    requires Capped(s)
    ensures Capped(Step(s, e)) <==> !Overfills(s, e)
    ensures Step(s, e).maxRevocations == s.maxRevocations
  {
    if e.Rollback? && e.id in s.posts && s.posts[e.id].phase == Failed && s.posts[e.id].existing.Some? {
      var p := s.posts[e.id];
      SizeAfterPut(s.revoked, p.record.slot, p.existing.value);
      if !Overfills(s, e) {
        CappedFrame(s, Step(s, e));
      }
    } else {
      NoRestoreStaysCapped(s, e);
    }
  }

  lemma NoRestoreStaysCapped(s: Relay, e: Event)
    requires Capped(s)
    requires !(e.Rollback? && e.id in s.posts && s.posts[e.id].phase == Failed && s.posts[e.id].existing.Some?)
    ensures Capped(Step(s, e)) && Step(s, e).maxRevocations == s.maxRevocations
  {
    match e
    case Receive(id, record) =>
      if id !in s.posts && id !in s.responses { CappedReceive(s, id, record); }
    case Persist(id, ok) =>
      if id in s.posts && s.posts[id].phase == Saving { CappedPersist(s, id, ok); }
    case Rollback(id) =>
      if id in s.posts && s.posts[id].phase == Failed { CappedRollback(s, id); }
    case Restart =>
  }

  /** Every state of the run is within the capacity. */
  ghost predicate StaysCapped(s: Relay, es: seq<Event>)
    decreases |es|
  {
    Capped(s) && (es != [] ==> StaysCapped(Step(s, es[0]), es[1..]))
  }

  ghost predicate NeverOverfills(s: Relay, es: seq<Event>)
    decreases |es|
  {
    es != [] ==> !Overfills(s, es[0]) && NeverOverfills(Step(s, es[0]), es[1..])
  }

  /** A run keeps memory, file and pending snapshots within the capacity exactly when no
      rollback in it puts a slot back into a full memory. */
  lemma {:induction false} CapExactly(s: Relay, es: seq<Event>)
    requires Capped(s)
    ensures StaysCapped(s, es) <==> NeverOverfills(s, es)
    decreases |es|
  {
    if es != [] {
      CapExact(s, es[0]);
      if Capped(Step(s, es[0])) {
        CapExactly(Step(s, es[0]), es[1..]);
      }
    }
  }

  /** And from a memory past the capacity, replacing any record in it and saving that gives
      a file a start refuses. */
  lemma OverfullReachesDisk(s: Relay, id: PostId, record: Record)
    requires s.maxRevocations > 0 && |s.revoked| > s.maxRevocations && s.persisted <= s.version
    requires id !in s.posts && id !in s.responses && record.slot in s.revoked && s.revoked[record.slot] != record
    ensures |Step(Step(s, Receive(id, record)), Persist(id, true)).file| > s.maxRevocations
  {
    SizeAfterPut(s.revoked, record.slot, record);
    var s1 := Step(s, Receive(id, record));
    assert s1.posts[id] == Post(record, s.version + 1, s.revoked[record.slot := record], Some(s.revoked[record.slot]),
                                Saving);
  }

  lemma {:induction false} LonelyNeverOverfills(s: Relay, es: seq<Event>)
    requires InMemory(s) && LonelyRun(s, es)
    ensures NeverOverfills(s, es)
    decreases |es|
  {
    if es != [] {
      InMemoryStep(s, es[0]);
      LonelyNeverOverfills(Step(s, es[0]), es[1..]);
    }
  }

  /** As long as deleting rollbacks meet no other post for their slot, memory, file and
      snapshots never outgrow what LoadRevocations accepts, so a restart loads the file. */
  lemma LonelyRunsStayLoadable(s: Relay, es: seq<Event>)
    requires InMemory(s) && LonelyRun(s, es) && Capped(s)
    ensures StaysCapped(s, es)
  {
    LonelyNeverOverfills(s, es);
    CapExactly(s, es);
  }

  /** The same without failed writes. */
  lemma {:induction false} FailureFreeRunsStayLoadable(s: Relay, es: seq<Event>)
    requires Growing(s) && FailureFree(es) && Capped(s)
    ensures Capped(Run(s, es)) && Run(s, es).maxRevocations == s.maxRevocations
    decreases |es|
  {
    if es != [] {
      GrowingStep(s, es[0]);
      if es[0].Rollback? && es[0].id in s.posts { assert PostGrowing(s, s.posts[es[0].id]); }
      CapExact(s, es[0]);
      FailureFreeRunsStayLoadable(Step(s, es[0]), es[1..]);
    }
  }

  // ---- Why the conditions are needed ----

  lemma OverlapFirstHalf(a1: Record, a2: Record, s0: Relay, s2: Relay, s4: Relay)
    requires a1.slot == a2.slot && a1 != a2
    requires s0 == Loaded(s0.maxRevocations, map[])
    requires s2 == Step(Step(s0, Receive(0, a1)), Receive(1, a2))
    requires s4 == Step(Step(s2, Persist(0, false)), Rollback(0))
    ensures s4.revoked == map[] && s4.file == map[] && s4.version == 2 && s4.persisted == 0
    ensures s4.maxRevocations == s0.maxRevocations
    ensures s4.posts.Keys == {1} && s4.posts[1].version == 2 && s4.posts[1].record == a2 && s4.posts[1].phase == Saving
    ensures s4.posts[1].existing == Some(a1) && s4.responses.Keys == {0}
  {
    var s1 := Step(s0, Receive(0, a1));
    assert s1.posts.Keys == {0} && s1.posts[0].existing == None && s1.posts[0].phase == Saving;
    assert s2.posts.Keys == {0, 1} && s2.posts[0] == s1.posts[0];
    var s3 := Step(s2, Persist(0, false));
    assert s3.posts[0].phase == Failed && s3.posts[0].existing == None;
  }

  lemma OverlapSecondHalf(a2: Record, b: Record, s4: Relay, s6: Relay, s7: Relay)
    requires a2.slot != b.slot
    requires s4.revoked == map[] && s4.version == 2 && s4.persisted == 0 && s4.maxRevocations == 0
    requires s4.posts.Keys == {1} && s4.posts[1].version == 2 && s4.posts[1].record == a2 && s4.posts[1].phase == Saving
    requires s4.responses.Keys == {0}
    requires s6 == Step(Step(s4, Receive(2, b)), Persist(2, true)) && s7 == Step(s6, Persist(1, true))
    ensures 1 in s7.responses && s7.responses[1] == NoContent && a2.slot in s7.acked
    ensures a2.slot !in s7.file && a2.slot !in s7.revoked
  {
    var s5 := Step(s4, Receive(2, b));
    assert s5.posts.Keys == {1, 2} && s5.posts[1] == s4.posts[1];
    assert s5.posts[2].snapshot.Keys == {b.slot} && s5.posts[2].version == 3;
    assert s6.posts.Keys == {1} && s6.posts[1] == s4.posts[1] && s6.persisted == 3;
  }

  /** Two posts for one slot, the first one's write failing: the second is answered
      204 although the slot is neither on disk nor in memory. */
  lemma OverlapCanLoseAnAcknowledgement(a1: Record, a2: Record, b: Record)
    requires a1.slot == a2.slot != b.slot && a1 != a2
    ensures var s := Run(Loaded(0, map[]), [Receive(0, a1), Receive(1, a2), Persist(0, false), Rollback(0),
                                            Receive(2, b), Persist(2, true), Persist(1, true)]);
            && 1 in s.responses && s.responses[1] == NoContent
            && a2.slot in s.acked && a2.slot !in s.file && a2.slot !in s.revoked
  {
    var es := [Receive(0, a1), Receive(1, a2), Persist(0, false), Rollback(0), Receive(2, b), Persist(2, true),
               Persist(1, true)];
    var ss := Trace(Loaded(0, map[]), es);
    assert ss[1] == Step(ss[0], es[0]) && ss[2] == Step(ss[1], es[1]) && ss[3] == Step(ss[2], es[2]);
    assert ss[4] == Step(ss[3], es[3]) && ss[5] == Step(ss[4], es[4]) && ss[6] == Step(ss[5], es[5]);
    assert ss[7] == Step(ss[6], es[6]);
    OverlapFirstHalf(a1, a2, ss[0], ss[2], ss[4]);
    OverlapSecondHalf(a2, b, ss[4], ss[6], ss[7]);
  }

  /** The states a run passes through. */
  function Trace(s: Relay, es: seq<Event>): (ss: seq<Relay>)
    ensures |ss| == |es| + 1 && ss[0] == s && ss[|es|] == Run(s, es)
    ensures forall i :: 0 <= i < |es| ==> ss[i + 1] == Step(ss[i], es[i])
    decreases |es|
  {
    if es == [] then [s] else [s] + Trace(Step(s, es[0]), es[1..])
  }

  lemma BothInserted(a: Record, c: Record, s0: Relay, s2: Relay)
    requires a.slot != c.slot && s0 == Loaded(0, map[])
    requires s2 == Step(Step(s0, Receive(0, a)), Receive(1, c))
    ensures s2.posts == map[0 := Post(a, 1, map[a.slot := a], None, Saving),
                            1 := Post(c, 2, map[a.slot := a, c.slot := c], None, Saving)]
    ensures s2 == s0.(revoked := map[a.slot := a, c.slot := c], version := 2, posts := s2.posts)
  {
    var s1 := Step(s0, Receive(0, a));
    assert s1 == s0.(revoked := map[a.slot := a], version := 1,
                     posts := map[0 := Post(a, 1, map[a.slot := a], None, Saving)]);
  }

  /** a's write fails while c's snapshot, which holds a, reaches the disk; a is rolled back. */
  lemma MarkedThenRolledBack(a: Record, c: Record, s0: Relay, s2: Relay, s4: Relay, s5: Relay)
    requires a.slot != c.slot && s0 == Loaded(0, map[])
    requires s2 == Step(Step(s0, Receive(0, a)), Receive(1, c))
    requires s4 == Step(Step(s2, Persist(0, false)), Persist(1, true)) && s5 == Step(s4, Rollback(0))
    ensures s5.revoked == map[c.slot := c] && s5.version == 2 == s5.persisted && s5.maxRevocations == 0
    ensures a.slot in s5.durable && s5.posts == map[] && s5.responses.Keys == {0, 1} && s5.acked == {c.slot}
    ensures Clean(s4, Rollback(0))
  {
    BothInserted(a, c, s0, s2);
    OneFailsOneReachesDisk(a, c, s0, s2, s4);
    RootRolledBack(a, c, s4, s5);
  }

  lemma RootRolledBack(a: Record, c: Record, s4: Relay, s5: Relay)
    requires a.slot != c.slot && s4.posts == map[0 := Post(a, 1, map[a.slot := a], None, Failed)]
    requires s4.responses.Keys == {1}
    requires s4.revoked == map[a.slot := a, c.slot := c] && s4.acked == {c.slot} && s5 == Step(s4, Rollback(0))
    ensures s5.revoked == map[c.slot := c] && s5.posts == map[] && s5.responses.Keys == {0, 1} && s5.acked == {c.slot}
    ensures s5 == s4.(revoked := s5.revoked, posts := s5.posts, responses := s5.responses)
    ensures Clean(s4, Rollback(0))
  {
    assert s4.revoked - {a.slot} == map[c.slot := c];
  }

  lemma OneFailsOneReachesDisk(a: Record, c: Record, s0: Relay, s2: Relay, s4: Relay)
    requires a.slot != c.slot && s0 == Loaded(0, map[])
    requires s2.posts == map[0 := Post(a, 1, map[a.slot := a], None, Saving),
                             1 := Post(c, 2, map[a.slot := a, c.slot := c], None, Saving)]
    requires s2 == s0.(revoked := map[a.slot := a, c.slot := c], version := 2, posts := s2.posts)
    requires s4 == Step(Step(s2, Persist(0, false)), Persist(1, true))
    ensures s4.posts == map[0 := Post(a, 1, map[a.slot := a], None, Failed)] && s4.responses.Keys == {1}
    ensures s4.acked == {c.slot}
    ensures s4.revoked == s2.revoked && a.slot in s4.durable && s4.version == 2 == s4.persisted
    ensures s4.maxRevocations == 0
  {
    var s3 := Step(s2, Persist(0, false));
    assert s3 == s2.(posts := s2.posts[0 := Post(a, 1, map[a.slot := a], None, Failed)]);
    assert s3.posts[1] == s2.posts[1];
    assert s4 == PersistStep(s3, 1, s3.posts[1], true);
  }

  /** d's snapshot then takes a off the disk, but not its mark. */
  lemma MarkOutlivesFile(a: Record, c: Record, d: Record, s5: Relay, s7: Relay)
    requires a.slot != c.slot && a.slot != d.slot && c.slot != d.slot
    requires s5.revoked == map[c.slot := c] && s5.version == 2 == s5.persisted && s5.maxRevocations == 0
    requires a.slot in s5.durable && s5.posts == map[] && s5.responses.Keys == {0, 1}
    requires s7 == Step(Step(s5, Receive(2, d)), Persist(2, true))
    ensures a.slot !in s7.file && a.slot !in s7.revoked && a.slot in s7.durable && s7.maxRevocations == 0
    ensures s7.posts == map[] && s7.persisted == 3 == s7.version && s7.responses.Keys == {0, 1, 2}
  {
    var s6 := Step(s5, Receive(2, d));
    assert s6.posts.Keys == {2} && s6.posts[2].snapshot == map[c.slot := c, d.slot := d] && s6.posts[2].version == 3;
  }

  /** a comes back twice before it is saved. */
  lemma MarkedDuplicate(a: Record, s7: Relay, s8: Relay, s9: Relay)
    requires a.slot !in s7.file && a.slot !in s7.revoked && a.slot in s7.durable && s7.maxRevocations == 0
    requires s7.posts == map[] && s7.persisted == 3 == s7.version && s7.responses.Keys == {0, 1, 2}
    requires s8 == Step(s7, Receive(3, a)) && s9 == Step(s8, Receive(4, a))
    ensures 4 in s9.responses && s9.responses[4] == NoContent && a.slot in s9.acked && a.slot !in s9.file
    ensures 3 in s9.posts && s9.posts[3].record == a && s9.posts[3].existing == None
    ensures s9.posts[3].phase == Saving && s9.posts[3].version > s9.persisted
  {
    assert s8.posts.Keys == {3} && s8.posts[3].version == 4 && s8.revoked[a.slot] == a;
  }

  /** The durable mark is never cleared: a slot rolled back after a later snapshot had
      taken it to disk keeps its mark when the next snapshot drops it. Posted again, its
      duplicate is answered 204 while it is not on disk; and when that post's write fails
      it is gone from memory too. No other post for the slot is near the first rollback. */
  lemma StaleMarkCanLoseAnAcknowledgement(a: Record, c: Record, d: Record)
    requires a.slot != c.slot && a.slot != d.slot && c.slot != d.slot
    ensures var es := [Receive(0, a), Receive(1, c), Persist(0, false), Persist(1, true), Rollback(0), Receive(2, d),
                       Persist(2, true), Receive(3, a), Receive(4, a)];
            var s := Run(Loaded(0, map[]), es);
            && Clean(Run(Loaded(0, map[]), es[..4]), Rollback(0))
            && 4 in s.responses && s.responses[4] == NoContent && a.slot in s.acked && a.slot !in s.file
            && var lost := Step(Step(s, Persist(3, false)), Rollback(3));
               a.slot in lost.acked && a.slot !in lost.file && a.slot !in lost.revoked
  {
    var es := [Receive(0, a), Receive(1, c), Persist(0, false), Persist(1, true), Rollback(0), Receive(2, d),
               Persist(2, true), Receive(3, a), Receive(4, a)];
    var ss := Trace(Loaded(0, map[]), es);
    TracePrefix(Loaded(0, map[]), es, 4);
    assert ss[1] == Step(ss[0], es[0]) && ss[2] == Step(ss[1], es[1]) && ss[3] == Step(ss[2], es[2]);
    assert ss[4] == Step(ss[3], es[3]) && ss[5] == Step(ss[4], es[4]) && ss[6] == Step(ss[5], es[5]);
    assert ss[7] == Step(ss[6], es[6]) && ss[8] == Step(ss[7], es[7]) && ss[9] == Step(ss[8], es[8]);
    MarkedThenRolledBack(a, c, ss[0], ss[2], ss[4], ss[5]);
    MarkOutlivesFile(a, c, d, ss[5], ss[7]);
    MarkedDuplicate(a, ss[7], ss[8], ss[9]);
    FailedRootIsForgotten(ss[9], 3, a);
  }

  lemma FailedRootIsForgotten(s: Relay, id: PostId, a: Record)
    requires id in s.posts && s.posts[id].record == a && s.posts[id].existing == None
    requires s.posts[id].phase == Saving && s.posts[id].version > s.persisted
    ensures var lost := Step(Step(s, Persist(id, false)), Rollback(id));
            lost.acked == s.acked && lost.file == s.file && a.slot !in lost.revoked
  {
  }

  lemma {:induction false} TracePrefix(s: Relay, es: seq<Event>, n: nat)
    requires n <= |es|
    ensures Trace(s, es)[n] == Run(s, es[..n])
    decreases n
  {
    if n > 0 {
      TracePrefix(Step(s, es[0]), es[1..], n - 1);
      assert es[..n][1..] == es[1..][..n - 1];
    }
  }

  lemma RestoredPastTheCap(a1: Record, b: Record, s4: Relay, s5: Relay, s7: Relay)
    requires a1.slot != b.slot && s4.maxRevocations == 1
    requires s4.revoked == map[] && s4.version == 2 && s4.persisted == 0
    requires s4.posts.Keys == {1} && s4.posts[1].version == 2 && s4.posts[1].record.slot == a1.slot
    requires s4.posts[1].phase == Saving && s4.posts[1].existing == Some(a1) && s4.responses.Keys == {0}
    requires s5 == Step(s4, Receive(2, b)) && s7 == Step(Step(s5, Persist(1, false)), Rollback(1))
    ensures s7.revoked == map[b.slot := b, a1.slot := a1] && s7.version == 3 && s7.persisted == 0
    ensures s7.maxRevocations == 1
    ensures s7.posts.Keys == {2} && s7.responses.Keys == {0, 1}
  {
    assert s5.posts.Keys == {1, 2} && s5.posts[1] == s4.posts[1] && s5.revoked == map[b.slot := b];
    var s6 := Step(s5, Persist(1, false));
    assert s6.posts.Keys == {1, 2} && s6.posts[1].phase == Failed && s6.posts[1].existing == Some(a1);
  }

  lemma WrittenPastTheCap(a1: Record, b: Record, b2: Record, s7: Relay, s9: Relay)
    requires a1.slot != b.slot == b2.slot && b != b2
    requires s7.revoked == map[b.slot := b, a1.slot := a1] && s7.version == 3 && s7.persisted == 0
    requires s7.maxRevocations == 1
    requires s7.posts.Keys == {2} && s7.responses.Keys == {0, 1}
    requires s9 == Step(Step(s7, Receive(3, b2)), Persist(3, true))
    ensures s9.file == map[b.slot := b2, a1.slot := a1] && s9.maxRevocations == 1
  {
    var s8 := Step(s7, Receive(3, b2));
    assert s8.posts[3].snapshot == map[b.slot := b2, a1.slot := a1] && s8.posts[3].version == 4;
  }

  /** Otherwise a rollback can put a slot back past the cap, and the file written
      next is one that LoadRevocations refuses. */
  lemma OverlapCanOutgrowTheCap(a1: Record, a2: Record, b: Record, b2: Record)
    requires a1.slot == a2.slot != b.slot == b2.slot && a1 != a2 && b != b2
    ensures var s := Run(Loaded(1, map[]),
                         [Receive(0, a1), Receive(1, a2), Persist(0, false), Rollback(0), Receive(2, b),
                                            Persist(1, false), Rollback(1), Receive(3, b2), Persist(3, true)]);
            s.maxRevocations == 1 && |s.file| == 2
  {
    var es := [Receive(0, a1), Receive(1, a2), Persist(0, false), Rollback(0), Receive(2, b),
               Persist(1, false), Rollback(1), Receive(3, b2), Persist(3, true)];
    var ss := Trace(Loaded(1, map[]), es);
    assert ss[1] == Step(ss[0], es[0]) && ss[2] == Step(ss[1], es[1]) && ss[3] == Step(ss[2], es[2]);
    assert ss[4] == Step(ss[3], es[3]) && ss[5] == Step(ss[4], es[4]) && ss[6] == Step(ss[5], es[5]);
    assert ss[7] == Step(ss[6], es[6]) && ss[8] == Step(ss[7], es[7]) && ss[9] == Step(ss[8], es[8]);
    OverlapFirstHalf(a1, a2, ss[0], ss[2], ss[4]);
    RestoredPastTheCap(a1, b, ss[4], ss[5], ss[7]);
    WrittenPastTheCap(a1, b, b2, ss[7], ss[9]);
    PairSize(b2, a1);
  }

  lemma PairSize(x: Record, y: Record)
    requires x.slot != y.slot
    ensures |map[x.slot := x, y.slot := y]| == 2
  {
    assert map[x.slot := x, y.slot := y] == map[x.slot := x][y.slot := y];
    SizeAfterPut(map[x.slot := x], y.slot, y);
  }

  // ---- Posts that do not overlap ----

  /** No request is in flight, and memory and file hold the same records. */
  ghost predicate Quiet(s: Relay) {
    s.posts == map[] && s.revoked == s.file && s.file.Keys <= s.durable && s.persisted <= s.version
  }

  /** One whole post: its lock regions back to back. */
  function Whole(s: Relay, id: PostId, record: Record, ok: bool): Relay {
    Step(Step(Step(s, Receive(id, record)), Persist(id, ok)), Rollback(id))
  }

  /** There is room for the record: its slot is already revoked, or the cap is not reached. */
  predicate HasRoom(s: Relay, record: Record) {
    record.slot in s.revoked || s.maxRevocations == 0 || |s.revoked| < s.maxRevocations
  }

  /** What a post that runs alone is answered: 204 for a duplicate, 503 for a new
      slot at the cap, and otherwise whatever became of the write. */
  function WholeAnswer(s: Relay, record: Record, ok: bool): Status {
    if Known(s.revoked, record) then NoContent
    else if !HasRoom(s, record) then Unavailable
    else if ok then NoContent
    else InternalError
  }

  /** A whole post between quiet states: 204 exactly when the record is then on
      disk, anything else leaves memory and file untouched. */
  lemma {:induction false} WholePost(s: Relay, id: PostId, record: Record, ok: bool)
    requires Quiet(s) && id !in s.responses
    ensures var s' := Whole(s, id, record, ok);
            && Quiet(s') && s'.responses == s.responses[id := WholeAnswer(s, record, ok)]
            && (s'.responses[id] == NoContent ==> s'.file == s.file[record.slot := record])
            && (s'.responses[id] != NoContent ==>
                s'.file == s.file && (record.slot in s.file ==> s.file[record.slot] != record))
  {
    var s1 := Step(s, Receive(id, record));
    if id !in s1.posts {
      OnlyResponds(s, id, record);
      assert s.file[record.slot := record] == s.file || s1.responses[id] == Unavailable;
    } else if ok {
      WholeSaved(s, id, record);
    } else {
      WholeRolledBack(s, id, record);
    }
  }

  lemma WholeSaved(s: Relay, id: PostId, record: Record)
    requires Quiet(s) && id !in s.responses && id in Step(s, Receive(id, record)).posts
    ensures var s' := Whole(s, id, record, true);
            Quiet(s') && s'.responses == s.responses[id := NoContent] && s'.file == s.file[record.slot := record]
  {
    var s2 := Step(Step(s, Receive(id, record)), Persist(id, true));
    assert s2.posts == map[];
  }

  lemma WholeRolledBack(s: Relay, id: PostId, record: Record)
    requires Quiet(s) && id !in s.responses && id in Step(s, Receive(id, record)).posts
    ensures var s' := Whole(s, id, record, false);
            && Quiet(s') && s'.responses == s.responses[id := InternalError] && s'.file == s.file
            && (record.slot in s.file ==> s.file[record.slot] != record)
  {
    var s1 := ReceiveStep(s, id, record);
    var p := s1.posts[id];
    assert s1.posts == map[id := p] && s1.revoked == s.revoked[record.slot := record];
    var s2 := Step(s1, Persist(id, false));
    assert s2 == s1.(posts := map[id := p.(phase := Failed)]);
    WholeUndone(s, s2, id, record);
  }

  lemma WholeUndone(s: Relay, s2: Relay, id: PostId, record: Record)
    requires Quiet(s) && s2.posts.Keys == {id} && s2.posts[id].record == record && s2.posts[id].phase == Failed
    requires s2.posts[id].existing == (if record.slot in s.revoked then Some(s.revoked[record.slot]) else None)
    requires s2.revoked == s.revoked[record.slot := record] && s2.file == s.file && s2.durable == s.durable
    requires s2.persisted == s.persisted && s2.version >= s.version && s2.responses == s.responses
    ensures var s3 := Step(s2, Rollback(id));
            Quiet(s3) && s3.file == s.file && s3.responses == s.responses[id := InternalError]
  {
    var s3 := Step(s2, Rollback(id));
    assert s3.posts == map[] && s3.revoked == s.revoked;
  }

  function WholeRun(s: Relay, first: PostId, posts: seq<(Record, bool)>): Relay
    decreases |posts|
  {
    if posts == [] then s else WholeRun(Whole(s, first, posts[0].0, posts[0].1), first + 1, posts[1..])
  }

  lemma WholePostNext(s: Relay, id: PostId, record: Record, ok: bool)
    requires Quiet(s) && forall i :: i in s.responses ==> i < id
    ensures var s' := Whole(s, id, record, ok); Quiet(s') && forall i :: i in s'.responses ==> i < id + 1
  {
    WholePost(s, id, record, ok);
    assert forall i :: i in Whole(s, id, record, ok).responses ==> i in s.responses.Keys + {id};
  }

  /** Any sequence of non-overlapping posts with arbitrary write failures leaves
      memory and file with the same records between posts. */
  lemma {:induction false} SequentialPostsAgree(s: Relay, first: PostId, posts: seq<(Record, bool)>)
    requires Quiet(s) && forall id :: id in s.responses ==> id < first
    ensures Quiet(WholeRun(s, first, posts))
    decreases |posts|
  {
    if posts != [] {
      WholePostNext(s, first, posts[0].0, posts[0].1);
      SequentialPostsAgree(Whole(s, first, posts[0].0, posts[0].1), first + 1, posts[1..]);
    }
  }

  /** The map a list of file entries loads into: the last entry of a slot wins. */
  function Collected(records: seq<Record>): map<Slot, Record> {
    if records == [] then map[]
    else
      var last := records[|records| - 1];
      Collected(records[..|records| - 1])[last.slot := last]
  }

  /** records[i] is the last one for its slot. */
  predicate LastOfSlot(records: seq<Record>, i: int) {
    0 <= i < |records| && forall j :: i < j < |records| ==> records[j].slot != records[i].slot
  }

  predicate Mentions(records: seq<Record>, slot: Slot) { exists i :: 0 <= i < |records| && records[i].slot == slot }

  lemma MentionsSnoc(front: seq<Record>, last: Record, slot: Slot)
    ensures Mentions(front + [last], slot) <==> Mentions(front, slot) || slot == last.slot
  {
    var records := front + [last];
    if Mentions(front, slot) {
      var i :| 0 <= i < |front| && front[i].slot == slot;
      assert records[i].slot == slot;
    }
    if slot == last.slot { assert records[|front|].slot == slot; }
    if Mentions(records, slot) && slot != last.slot {
      var i :| 0 <= i < |records| && records[i].slot == slot;
      assert front[i].slot == slot;
    }
  }

  /** Every slot of the file is loaded, and no other slot. */
  lemma {:induction false} CollectedSlots(records: seq<Record>, slot: Slot)
    ensures slot in Collected(records) <==> Mentions(records, slot)
    decreases |records|
  {
    if records != [] {
      var n := |records| - 1;
      assert records == records[..n] + [records[n]];
      CollectedSlots(records[..n], slot);
      MentionsSnoc(records[..n], records[n], slot);
    }
  }

  /** A slot is loaded with its last record. */
  lemma {:induction false} CollectedLast(records: seq<Record>, i: int)
    requires LastOfSlot(records, i)
    ensures records[i].slot in Collected(records) && Collected(records)[records[i].slot] == records[i]
    decreases |records|
  {
    var n := |records| - 1;
    if i < n {
      var front := records[..n];
      assert records[n].slot != records[i].slot;
      assert LastOfSlot(front, i) && front[i] == records[i];
      CollectedLast(front, i);
    }
  }

  lemma CollectedHolds(records: seq<Record>)
    ensures forall slot :: slot in Collected(records) <==> Mentions(records, slot)
    ensures forall i :: LastOfSlot(records, i) ==>
              records[i].slot in Collected(records) && Collected(records)[records[i].slot] == records[i]
  {
    forall slot ensures slot in Collected(records) <==> Mentions(records, slot) {
      CollectedSlots(records, slot);
    }
    forall i | LastOfSlot(records, i)
      ensures records[i].slot in Collected(records) && Collected(records)[records[i].slot] == records[i]
    {
      CollectedLast(records, i);
    }
  }

  // ---- The server object ----

  class Server {
    const maxRevocations: nat
    var revoked: map<Slot, Record>
    var revVersion: nat
    var revPersisted: nat
    var revDurable: set<Slot>
    var file: map<Slot, Record>
    var posts: map<PostId, Post>
    ghost var responses: map<PostId, Status>
    ghost var acked: set<Slot>

    ghost function Abs(): Relay
      reads this
    {
      Relay(maxRevocations, revoked, revVersion, revPersisted, revDurable, file, posts, responses, acked)
    }

    /** LoadRevocations on an already verified file. */
    constructor (maxRevocations: nat, file: map<Slot, Record>)
      ensures Abs() == Loaded(maxRevocations, file)
    {
      this.maxRevocations := maxRevocations;
      this.file, revoked, revVersion, revPersisted := file, file, 0, 0;
      revDurable, posts, responses, acked := file.Keys, map[], map[], file.Keys;
    }

    /** LoadRevocations: accepts the whole file or nothing of it. */
    method LoadRevocations(v: int, records: seq<Record>, verifies: Record -> bool) returns (ok: bool)
      modifies this
      ensures ok <==> v == 1 && (maxRevocations == 0 || |records| <= maxRevocations)
                      && forall i :: 0 <= i < |records| ==> verifies(records[i])
      ensures ok ==> Abs() == old(Abs()).(revoked := Collected(records), durable := Collected(records).Keys)
      ensures ok ==> forall slot :: slot in revoked <==> Mentions(records, slot)
      ensures ok ==> forall i :: LastOfSlot(records, i) ==>
                records[i].slot in revoked && revoked[records[i].slot] == records[i]
      ensures !ok ==> Abs() == old(Abs())
    {
      if v != 1 || (maxRevocations > 0 && |records| > maxRevocations) {
        return false;
      }
      var loaded: map<Slot, Record> := map[];
      for i := 0 to |records|
        invariant forall k :: 0 <= k < i ==> verifies(records[k])
        invariant loaded == Collected(records[..i])
        invariant Abs() == old(Abs())
      {
        if !verifies(records[i]) {
          return false;
        }
        assert records[..i + 1][..i] == records[..i];
        loaded := loaded[records[i].slot := records[i]];
      }
      assert records[..|records|] == records;
      CollectedHolds(records);
      revoked, revDurable := loaded, loaded.Keys;
      ok := true;
    }

    ghost method Answer(id: PostId, slot: Slot, status: Status)
      modifies this`responses, this`acked
      ensures responses == old(responses)[id := status]
      ensures acked == if status == NoContent then old(acked) + {slot} else old(acked)
    {
      responses := responses[id := status];
      if status == NoContent { acked := acked + {slot}; }
    }

    /** The broker-lock region of postRevocation; None means the request goes on to persist. */
    method PostRevocation(id: PostId, record: Record) returns (status: Option<Status>)
      requires id !in posts && id !in responses
      modifies this
      ensures Abs() == Step(old(Abs()), Receive(id, record))
      ensures status == None <==> id in posts
      ensures status != None ==> responses == old(responses)[id := status.value] && revoked == old(revoked)
      ensures status == Some(NoContent) <==> Known(old(revoked), record) && record.slot in revDurable
      ensures status == Some(InternalError) <==> Known(old(revoked), record) && record.slot !in revDurable
      ensures status == Some(Unavailable) <==>
                record.slot !in old(revoked) && maxRevocations > 0 && |old(revoked)| >= maxRevocations
      ensures status == None ==>
                && revoked == old(revoked)[record.slot := record] && revVersion == old(revVersion) + 1
                && posts[id].record == record && posts[id].version == revVersion && posts[id].snapshot == revoked
    {
      var slot := record.slot;
      var existing := if slot in revoked then Some(revoked[slot]) else None;
      if existing == Some(record) {
        status := Some(if slot in revDurable then NoContent else InternalError);
        Answer(id, slot, status.value);
        assert posts - {id} == posts;
        return;
      }
      if existing == None && maxRevocations > 0 && |revoked| >= maxRevocations {
        status := Some(Unavailable);
        Answer(id, slot, Unavailable);
        assert posts - {id} == posts;
        return;
      }
      revoked := revoked[slot := record];
      revVersion := revVersion + 1;
      posts := posts[id := Post(record, revVersion, revoked, existing, Saving)];
      status := None;
    }

    /** The loop of persistRevocations that marks every written slot durable. */
    method MarkDurable(list: map<Slot, Record>)
      modifies this`revDurable
      ensures revDurable == old(revDurable) + list.Keys
    {
      var rest := list.Keys;
      while rest != {}
        invariant rest <= list.Keys
        invariant revDurable == old(revDurable) + (list.Keys - rest)
        decreases rest
      {
        var slot :| slot in rest;
        revDurable := revDurable + {slot};
        rest := rest - {slot};
      }
    }

    /** persistRevocations under persistMu; `writable` is the file system's answer. */
    method PersistRevocations(id: PostId, writable: bool) returns (saved: bool)
      requires id in posts && posts[id].phase == Saving
      modifies this
      ensures Abs() == Step(old(Abs()), Persist(id, writable))
      ensures saved <==> id !in posts
      ensures saved <==> writable || old(posts)[id].version <= old(revPersisted)
      ensures saved ==> id in responses && responses[id] == NoContent
      ensures file == if writable && old(posts)[id].version > old(revPersisted)
                      then old(posts)[id].snapshot else old(file)
      ensures writable && old(posts)[id].version > old(revPersisted) ==>
                revPersisted == old(posts)[id].version && file.Keys <= revDurable
    {
      var p := posts[id];
      if p.version > revPersisted {
        if !writable {
          posts := posts[id := p.(phase := Failed)];
          return false;
        }
        file := p.snapshot;
        revPersisted := p.version;
        MarkDurable(p.snapshot);
      }
      posts := posts - {id};
      Answer(id, p.record.slot, NoContent);
      saved := true;
    }

    /** rollbackRevocation under the broker lock. */
    method RollbackRevocation(id: PostId)
      requires id in posts && posts[id].phase == Failed
      modifies this
      ensures Abs() == Step(old(Abs()), Rollback(id))
      ensures var p := old(posts)[id];
              && (p.existing.Some? ==> revoked == old(revoked)[p.record.slot := p.existing.value])
              && (p.existing.None? ==> revoked == old(revoked) - {p.record.slot})
      ensures id in responses && responses[id] == InternalError && file == old(file)
    {
      var p := posts[id];
      match p.existing {
        case Some(prior) => revoked := revoked[p.record.slot := prior];
        case None => revoked := revoked - {p.record.slot};
      }
      posts := posts - {id};
      Answer(id, p.record.slot, InternalError);
    }
  }
}
