/**
  The client's owner identity across two stores: the root secret in the OS keychain under
  an opaque reference, and owner.json with that reference and the public id. Every
  operation is described by the sequence of states it passes through, so that a crash is
  simply a prefix of it; a keychain or file call that fails leaves its store unchanged, and
  a fresh random reference is one the keychain does not hold yet.
*/
module IdentityStore {
  import opened Wrappers

  type Ref = nat
  type Secret = nat

  /** The public identity derived from a root. */
  datatype Owner = OwnerOf(root: Secret)

  /** The legacy plaintext field of owner.json. */
  datatype Plain = NoPlain | PlainSecret(secret: Secret) | BadPlain

  datatype Metadata = Metadata(ref: Option<Ref>, plain: Plain, ownerPriv: bool, owner: Option<Owner>)

  datatype OwnerFile = Absent | Corrupt | Json(data: Metadata)

  datatype World = World(keychain: map<Ref, Secret>, file: OwnerFile)

  /** An identity in memory: the metadata, the root once loaded, and the reference it replaces. */
  datatype Loaded = Loaded(data: Metadata, secret: Option<Secret>, obsolete: Option<Ref>)

  const BLANK := Loaded(Metadata(None, NoPlain, false, None), None, None)

  /** What goes wrong during one save. */
  datatype Faults = Faults(early: bool, put: bool, beforeRename: bool, cleanup: bool, retire: bool)

  // ---- what a state is worth ------------------------------------------------------------

  /** owner.json never names a missing keychain entry or one of another identity. */
  predicate Safe(w: World) {
    w.file.Json? && w.file.data.ref.Some? ==>
      && w.file.data.ref.value in w.keychain
      && (w.file.data.owner.Some? ==> w.file.data.owner.value == OwnerOf(w.keychain[w.file.data.ref.value]))
  }

  /** The root a later start can recover from a state. */
  function Root(w: World): Option<Secret> {
    if !w.file.Json? then None
    else if w.file.data.ref.Some? then
      if w.file.data.ref.value in w.keychain then Some(w.keychain[w.file.data.ref.value]) else None
    else if w.file.data.plain.PlainSecret? then Some(w.file.data.plain.secret)
    else None
  }

  // ---- saving -----------------------------------------------------------------------------

  function SetFromSecret(id: Loaded, s: Secret, preserveRef: bool): Loaded {
    var data := Metadata(if preserveRef then id.data.ref else None, NoPlain, false, Some(OwnerOf(s)));
    Loaded(data, Some(s), if !preserveRef && id.data.ref.Some? then id.data.ref else id.obsolete)
  }

  datatype Saved = Saved(trace: seq<World>, ok: bool)

  function NewFile(ref: Ref, id: Loaded): OwnerFile { Json(Metadata(Some(ref), NoPlain, false, id.data.owner)) }

  function Target(id: Loaded, draw: Ref): Ref { if id.data.ref.Some? then id.data.ref.value else draw }

  /** Every state SaveIdentity passes through, the first one included. */
  function Save(w: World, id: Loaded, draw: Ref, x: Faults): (r: Saved)
    ensures r.trace != [] && r.trace[0] == w
  {
    if id.secret.None? || x.early || x.put then Saved([w], false)
    else
      var target := Target(id, draw);
      var stored := w.(keychain := w.keychain[target := id.secret.value]);
      if x.beforeRename then
        if id.data.ref.None? && !x.cleanup
        then Saved([w, stored, stored.(keychain := stored.keychain - {target})], false)
        else Saved([w, stored], false)
      else
        var renamed := stored.(file := NewFile(target, id));
        if id.obsolete.Some? && id.obsolete.value != target then
          if x.retire then Saved([w, stored, renamed], false)
          else Saved([w, stored, renamed, renamed.(keychain := renamed.keychain - {id.obsolete.value})], true)
        else Saved([w, stored, renamed], true)
  }

  function Final(r: Saved): World
    requires r.trace != []
  {
    r.trace[|r.trace| - 1]
  }

  /** The identity in memory is one that loading or SetFromSecret produces in this state. */
  predicate Prepared(w: World, id: Loaded) {
    && (id.secret.Some? ==> id.data.owner == Some(OwnerOf(id.secret.value)))
    && (id.data.ref.Some? ==> id.secret.Some? && id.data.ref.value in w.keychain
                              && w.keychain[id.data.ref.value] == id.secret.value)
  }

  /** A state on the way: the old file over the old entries, or the new file over the new one. */
  predicate OnTheWay(w: World, v: World, id: Loaded, target: Ref) {
    || (v.file == w.file && (forall r :: r in w.keychain ==> r in v.keychain && v.keychain[r] == w.keychain[r]))
    || (&& v.file == NewFile(target, id)
        && target in v.keychain && id.secret == Some(v.keychain[target])
        && forall r :: r in w.keychain && r !in v.keychain ==> id.obsolete == Some(r))
  }

  /**
    Whatever fails and wherever it stops, a save is in the old state or the new one: until
    the new file is in place every old keychain entry is untouched, and from then on the
    only entry missing is the one being replaced.
  */
  lemma SaveIsOldOrNew(w: World, id: Loaded, draw: Ref, x: Faults, i: nat)
    requires Prepared(w, id) && draw !in w.keychain
    requires i < |Save(w, id, draw, x).trace|
    ensures OnTheWay(w, Save(w, id, draw, x).trace[i], id, Target(id, draw))
  {
  }

  lemma OnTheWayIsSafe(w: World, v: World, id: Loaded, target: Ref)
    requires Safe(w) && Prepared(w, id) && OnTheWay(w, v, id, target)
    ensures Safe(v)
    ensures Root(v) == Root(w) || (id.secret.Some? && Root(v) == id.secret)
    ensures v.file == w.file ==> Root(v) == Root(w)
  {
  }

  /** The file changes at most once. */
  lemma SaveSwitchesOnce(w: World, id: Loaded, draw: Ref, x: Faults, i: nat, j: nat)
    requires i <= j < |Save(w, id, draw, x).trace|
    ensures Save(w, id, draw, x).trace[i].file != w.file ==>
              Save(w, id, draw, x).trace[j].file == Save(w, id, draw, x).trace[i].file
  {
  }

  /**
    A save that fails before the rename leaves exactly the state it found when the cleanup
    delete works; when that fails too, at most one unreferenced entry more. A save that
    reports success has the new file in place and no other entry gained or lost but the
    replaced one.
  */
  lemma SaveOutcome(w: World, id: Loaded, draw: Ref, x: Faults)
    requires Safe(w) && Prepared(w, id) && draw !in w.keychain
    ensures var r := Save(w, id, draw, x);
            var end := Final(r);
            && (id.secret.None? || x.early || x.put || x.beforeRename ==> !r.ok && end.file == w.file)
            && (!r.ok && end.file == w.file && !x.cleanup ==> end == w)
            && (!r.ok && end.file == w.file && end != w ==>
                  x.cleanup && id.secret.Some? && end.keychain == w.keychain[draw := id.secret.value])
            && (r.ok ==>
                  && end.file == NewFile(Target(id, draw), id)
                  && Root(end) == id.secret
                  && forall q :: q != Target(id, draw) ==>
                       (q in end.keychain <==> q in w.keychain && id.obsolete != Some(q)))
  {
    if id.data.ref.Some? && id.secret.Some? {
      assert w.keychain[id.data.ref.value := id.secret.value] == w.keychain;
    }
    assert w.keychain == w.keychain - {draw};
    if id.secret.Some? {
      assert w.keychain[draw := id.secret.value] - {draw} == w.keychain;
    }
  }

  // ---- the operations ---------------------------------------------------------------------

  /** The inputs of one operation: random draws and faults. */
  datatype Env = Env(readFails: bool, storeFails: bool, freshSecret: Secret, draw: Ref, faults: Faults)

  datatype Opened = Opened(trace: seq<World>, id: Option<Loaded>)

  /** LoadOrCreateIdentity: load through the keychain, migrate plaintext, or create. */
  function Load(w: World, e: Env): (r: Opened)
    ensures r.trace != [] && r.trace[0] == w
  {
    if w.file.Corrupt? && !e.readFails then Opened([w], None)
    else
      var id := if w.file.Json? && !e.readFails then BLANK.(data := w.file.data) else BLANK;
      if id.data.ref.Some? then
        if e.storeFails || id.data.ref.value !in w.keychain then Opened([w], None)
        else Opened([w], Some(SetFromSecret(id, w.keychain[id.data.ref.value], true)))
      else if id.data.plain.BadPlain? then Opened([w], None)
      else if id.data.plain.PlainSecret? then SaveNew(w, SetFromSecret(id, id.data.plain.secret, false), e)
      else if !id.data.ownerPriv then SaveNew(w, SetFromSecret(id, e.freshSecret, false), e)
      else Opened([w], Some(id))
  }

  function SaveNew(w: World, id: Loaded, e: Env): (r: Opened)
    ensures r.trace != [] && r.trace[0] == w
  {
    var s := Save(w, id, e.draw, e.faults);
    Opened(s.trace, if s.ok then Some(AfterSave(id, e.draw)) else None)
  }

  /** The in-memory identity after a successful save. */
  function AfterSave(id: Loaded, draw: Ref): Loaded {
    id.(data := id.data.(ref := Some(Target(id, draw)), plain := NoPlain, ownerPriv := false), obsolete := None)
  }

  /** Rekey: a fresh root in place of whatever is there; refuses what it cannot read. */
  function Rekey(w: World, e: Env): (r: Opened)
    ensures r.trace != [] && r.trace[0] == w
  {
    if w.file.Corrupt? || (e.readFails && w.file.Json?) then Opened([w], None)
    else
      var replaced := if w.file.Json? then w.file.data.ref else None;
      SaveNew(w, SetFromSecret(BLANK.(obsolete := replaced), e.freshSecret, false), e)
  }

  /** Import: load or create, take over the given root, save. */
  function Import(w: World, e: Env, root: Secret, second: Env): (r: Opened)
    ensures r.trace != [] && r.trace[0] == w
  {
    var first := Load(w, e);
    if first.id.None? then first
    else
      var then_ := SaveNew(first.trace[|first.trace| - 1], SetFromSecret(first.id.value, root, false), second);
      Opened(first.trace + then_.trace[1..], then_.id)
  }

  datatype Op = LoadOp(e: Env) | RekeyOp(e: Env) | ImportOp(e: Env, root: Secret, second: Env)

  function Perform(w: World, op: Op): (r: Opened)
    ensures r.trace != [] && r.trace[0] == w
  {
    match op
    case LoadOp(e) => Load(w, e)
    case RekeyOp(e) => Rekey(w, e)
    case ImportOp(e, root, second) => Import(w, e, root, second)
  }

  /** The random references drawn are new ones. */
  predicate Draws(w: World, op: Op) {
    match op
    case LoadOp(e) => e.draw !in w.keychain
    case RekeyOp(e) => e.draw !in w.keychain
    case ImportOp(e, root, second) =>
      && e.draw !in w.keychain
      && second.draw !in w.keychain && second.draw != e.draw
  }

  /** The roots an operation may put in place of the one it found. */
  function NewRoots(op: Op): set<Secret> {
    match op
    case LoadOp(e) => {e.freshSecret}
    case RekeyOp(e) => {e.freshSecret}
    case ImportOp(e, root, second) => {e.freshSecret, root}
  }

  ghost predicate GoodState(w: World, v: World, roots: set<Secret>) {
    Safe(v) && (Root(v) == Root(w) || (Root(v).Some? && Root(v).value in roots))
  }

  ghost predicate GoodTrace(w: World, trace: seq<World>, roots: set<Secret>) {
    forall i :: 0 <= i < |trace| ==> GoodState(w, trace[i], roots)
  }

  lemma SaveNewIsGood(w: World, id: Loaded, e: Env, roots: set<Secret>)
    requires Safe(w) && Prepared(w, id) && e.draw !in w.keychain
    requires id.secret.Some? ==> id.secret.value in roots || id.secret == Root(w)
    ensures GoodTrace(w, SaveNew(w, id, e).trace, roots)
  {
    forall i | 0 <= i < |SaveNew(w, id, e).trace|
      ensures GoodState(w, SaveNew(w, id, e).trace[i], roots)
    {
      SaveIsOldOrNew(w, id, e.draw, e.faults, i);
      OnTheWayIsSafe(w, SaveNew(w, id, e).trace[i], id, Target(id, e.draw));
    }
  }

  lemma LoadIsGood(w: World, e: Env)
    requires Safe(w) && e.draw !in w.keychain
    ensures GoodTrace(w, Load(w, e).trace, {e.freshSecret})
    ensures Load(w, e).id.Some? ==> Prepared(Load(w, e).trace[|Load(w, e).trace| - 1], Load(w, e).id.value)
  {
    var id := if w.file.Json? && !e.readFails then BLANK.(data := w.file.data) else BLANK;
    if (w.file.Corrupt? && !e.readFails) || id.data.ref.Some? || id.data.plain.BadPlain? {
      assert Load(w, e).trace == [w];
    } else if id.data.plain.PlainSecret? {
      SaveNewIsGood(w, SetFromSecret(id, id.data.plain.secret, false), e, {e.freshSecret});
    } else if !id.data.ownerPriv {
      SaveNewIsGood(w, SetFromSecret(id, e.freshSecret, false), e, {e.freshSecret});
    }
  }

  /** Where loading migrated or found a root, no crash can lose it: it never changes. */
  lemma MigrationKeepsRoot(w: World, e: Env, i: nat)
    requires Safe(w) && e.draw !in w.keychain && Root(w).Some? && !e.readFails
    requires i < |Load(w, e).trace|
    ensures Safe(Load(w, e).trace[i]) && Root(Load(w, e).trace[i]) == Root(w)
  {
    if w.file.data.ref.None? {
      var id := SetFromSecret(BLANK.(data := w.file.data), w.file.data.plain.secret, false);
      SaveNewIsGood(w, id, e, {});
    }
  }

  /**
    A file that exists but cannot be read counts as absent: unless the save stops before
    the rename, the recoverable root becomes the fresh one, and the entry of the previous
    root stays in the keychain without a reference.
  */
  lemma UnreadableFileIsReplaced(w: World, e: Env)
    requires Safe(w) && e.draw !in w.keychain && Root(w).Some? && e.readFails
    ensures var end := Load(w, e).trace[|Load(w, e).trace| - 1];
            && (Root(end) == Root(w) <==>
                  e.faults.early || e.faults.put || e.faults.beforeRename || Root(w) == Some(e.freshSecret))
            && forall r :: r in w.keychain ==> r in end.keychain && end.keychain[r] == w.keychain[r]
  {
  }

  lemma KeysAfterLoad(w: World, e: Env, r: Ref)
    requires r !in w.keychain && r != e.draw
    ensures var end := Load(w, e).trace[|Load(w, e).trace| - 1]; r !in end.keychain
  {
  }

  lemma PerformIsGood(w: World, op: Op)
    requires Safe(w) && Draws(w, op)
    ensures GoodTrace(w, Perform(w, op).trace, NewRoots(op))
  {
    match op
    case LoadOp(e) =>
      LoadIsGood(w, e);
    case RekeyOp(e) =>
      var replaced := if w.file.Json? then w.file.data.ref else None;
      SaveNewIsGood(w, SetFromSecret(BLANK.(obsolete := replaced), e.freshSecret, false), e, {e.freshSecret});
    case ImportOp(e, root, second) =>
      LoadIsGood(w, e);
      var first := Load(w, e);
      if first.id.Some? {
        var mid := first.trace[|first.trace| - 1];
        assert GoodState(w, mid, {e.freshSecret});
        KeysAfterLoad(w, e, second.draw);
        SaveNewIsGood(mid, SetFromSecret(first.id.value, root, false), second, {root});
      }
  }

  // ---- what an operation achieves -------------------------------------------------------------

  /** Nothing fails up to and including the rename. */
  predicate Persists(x: Faults) { !x.early && !x.put && !x.beforeRename }

  predicate NoFaults(e: Env) { !e.readFails && !e.storeFails && Persists(e.faults) && !e.faults.retire }

  /** owner.json as the program writes it: a reference and the public id, nothing secret. */
  predicate Names(f: OwnerFile, ref: Ref, root: Secret) {
    f == Json(Metadata(Some(ref), NoPlain, false, Some(OwnerOf(root))))
  }

  /** A save succeeds exactly when there is a root to save, nothing fails before the
      rename, and the entry it replaces, if there is one, can be deleted. */
  lemma SaveSucceedsExactly(w: World, id: Loaded, draw: Ref, x: Faults)
    ensures Save(w, id, draw, x).ok <==>
              && id.secret.Some? && Persists(x)
              && (x.retire ==> id.obsolete == None || id.obsolete == Some(Target(id, draw)))
  {
  }

  /** Loading reads what is there: with the keychain answering, the stored root comes back
      and nothing changes; without it, nothing comes back and nothing changes. */
  lemma LoadReadsStoredRoot(w: World, e: Env)
    requires Safe(w) && w.file.Json? && w.file.data.ref.Some? && !e.readFails
    ensures Load(w, e).trace == [w] && (Load(w, e).id.Some? <==> !e.storeFails)
    ensures Load(w, e).id.Some? ==>
              var id := Load(w, e).id.value;
              && id.secret == Some(w.keychain[w.file.data.ref.value]) == Root(w)
              && id.data == Metadata(w.file.data.ref, NoPlain, false, Some(OwnerOf(id.secret.value)))
  {
  }

  /** Without faults loading fails only on a file it can read but not use; what it returns
      is the recoverable root, or a fresh one where there is none. A legacy file that only
      holds a private key is returned as it is. */
  lemma LoadSucceedsExactly(w: World, e: Env)
    requires Safe(w) && NoFaults(e)
    ensures Load(w, e).id.None? <==>
              w.file.Corrupt? || (w.file.Json? && w.file.data.ref.None? && w.file.data.plain.BadPlain?)
    ensures Load(w, e).id.Some? ==>
              var id := Load(w, e).id.value;
              if Root(w).Some? then id.secret == Root(w)
              else if w.file.Json? && w.file.data.ownerPriv then id.secret == None && id.data == w.file.data
              else id.secret == Some(e.freshSecret)
  {
  }

  /** Creating and migrating end with the root in the keychain, a file that names it, and
      no plaintext. */
  lemma CleanLoadPersists(w: World, e: Env)
    requires Safe(w) && NoFaults(e)
    requires !w.file.Corrupt?
    requires w.file.Json? ==>
               && w.file.data.ref.None?
               && (w.file.data.plain.PlainSecret? || (w.file.data.plain.NoPlain? && !w.file.data.ownerPriv))
    ensures var end := Load(w, e).trace[|Load(w, e).trace| - 1];
            var root := if Root(w).Some? then Root(w).value else e.freshSecret;
            && end.keychain == w.keychain[e.draw := root] && Names(end.file, e.draw, root)
            && Load(w, e).id == Some(Loaded(end.file.data, Some(root), None))
  {
  }

  /** The entry the file named before, if any, is gone, and the new root is in place of it. */
  ghost predicate Replaced(w: World, end: World, ref: Ref, root: Secret) {
    && Names(end.file, ref, root) && Root(end) == Some(root)
    && forall q :: q != ref ==>
         (q in end.keychain <==> q in w.keychain && !(w.file.Json? && w.file.data.ref == Some(q)))
  }

  /** Without faults a rotation installs the fresh root and deletes the old one's entry. */
  lemma CleanRekeyReplaces(w: World, e: Env)
    requires Safe(w) && NoFaults(e) && !w.file.Corrupt? && e.draw !in w.keychain
    ensures var r := Rekey(w, e);
            && r.id.Some? && r.id.value.secret == Some(e.freshSecret)
            && Replaced(w, r.trace[|r.trace| - 1], e.draw, e.freshSecret)
  {
  }

  lemma SaveReplaces(w: World, id: Loaded, root: Secret, e: Env)
    requires NoFaults(e) && e.draw !in w.keychain
    requires id.data.ref == (if w.file.Json? then w.file.data.ref else None) && id.obsolete == None
    ensures var r := SaveNew(w, SetFromSecret(id, root, false), e);
            && r.id.Some? && r.id.value.secret == Some(root)
            && Replaced(w, r.trace[|r.trace| - 1], e.draw, root)
  {
  }

  /** Without faults an import over an identity that is already in the keychain installs
      the given root and deletes the old one's entry. */
  lemma CleanImportReplaces(w: World, e: Env, root: Secret, second: Env)
    requires Safe(w) && NoFaults(e) && NoFaults(second) && second.draw !in w.keychain
    requires w.file.Json? && w.file.data.ref.Some?
    ensures var r := Import(w, e, root, second);
            && r.id.Some? && r.id.value.secret == Some(root)
            && Replaced(w, r.trace[|r.trace| - 1], second.draw, root)
  {
    LoadReadsStoredRoot(w, e);
    var id := Load(w, e).id.value;
    var then_ := SaveNew(w, SetFromSecret(id, root, false), second);
    SaveReplaces(w, id, root, second);
    assert [w] + then_.trace[1..] == then_.trace;
  }

  // ---- any number of operations, each cut off anywhere ---------------------------------------

  /** An operation and the number of states after which it was cut off. */
  datatype Attempt = Attempt(op: Op, cut: nat)

  function After(w: World, a: Attempt): World {
    var trace := Perform(w, a.op).trace;
    trace[if a.cut < |trace| then a.cut else |trace| - 1]
  }

  function AfterAll(w: World, attempts: seq<Attempt>): World
    decreases |attempts|
  {
    if attempts == [] then w else AfterAll(After(w, attempts[0]), attempts[1..])
  }

  ghost predicate AllDraws(w: World, attempts: seq<Attempt>)
    decreases |attempts|
  {
    attempts == [] || (Draws(w, attempts[0].op) && AllDraws(After(w, attempts[0]), attempts[1..]))
  }

  ghost function Roots(attempts: seq<Attempt>): set<Secret> {
    set a, s | a in attempts && s in NewRoots(a.op) :: s
  }

  /**
    Over any sequence of loads, creations, migrations, imports and rotations, each with
    any faults and cut off at any step: owner.json never names a missing or foreign entry,
    and the root that can be recovered is the first one or one some operation was given.
  */
  lemma {:induction false} EveryCrashStateIsSafe(w: World, attempts: seq<Attempt>)
    requires Safe(w) && AllDraws(w, attempts)
    ensures GoodState(w, AfterAll(w, attempts), Roots(attempts))
    decreases |attempts|
  {
    if attempts != [] {
      var a, rest := attempts[0], attempts[1..];
      PerformIsGood(w, a.op);
      assert GoodState(w, After(w, a), NewRoots(a.op));
      EveryCrashStateIsSafe(After(w, a), rest);
      assert a in attempts && forall b :: b in rest ==> b in attempts;
      assert NewRoots(a.op) <= Roots(attempts) && Roots(rest) <= Roots(attempts);
    }
  }

  // ---- the objects ------------------------------------------------------------------------------

  class Identity {
    var data: Metadata
    var secret: Option<Secret>
    var obsolete: Option<Ref>

    constructor ()
      ensures View() == BLANK
    {
      data, secret, obsolete := Metadata(None, NoPlain, false, None), None, None;
    }

    ghost function View(): Loaded
      reads this
    {
      Loaded(data, secret, obsolete)
    }

    method Derive(s: Secret, preserveRef: bool)
      modifies this
      ensures View() == SetFromSecret(old(View()), s, preserveRef)
    {
      if !preserveRef && data.ref.Some? {
        obsolete := data.ref;
        data := data.(ref := None);
      }
      secret := Some(s);
      data := data.(plain := NoPlain, ownerPriv := false);
      data := data.(owner := Some(OwnerOf(s)));
    }
  }

  /** The two stores; `trace` records every state they pass through. */
  class Stores {
    var keychain: map<Ref, Secret>
    var file: OwnerFile
    ghost var trace: seq<World>

    constructor (keychain: map<Ref, Secret>, file: OwnerFile)
      ensures View() == World(keychain, file) && trace == [View()]
    {
      this.keychain, this.file := keychain, file;
      trace := [World(keychain, file)];
    }

    ghost function View(): World
      reads this
    {
      World(keychain, file)
    }

    ghost predicate Valid()
      reads this
    {
      trace != [] && trace[|trace| - 1] == View()
    }

    method PutSecret(ref: Ref, s: Secret)
      modifies this
      ensures keychain == old(keychain)[ref := s] && file == old(file)
      ensures trace == old(trace) + [View()]
    {
      keychain := keychain[ref := s];
      trace := trace + [World(keychain, file)];
    }

    method DeleteSecret(ref: Ref)
      modifies this
      ensures keychain == old(keychain) - {ref} && file == old(file)
      ensures trace == old(trace) + [View()]
    {
      keychain := keychain - {ref};
      trace := trace + [World(keychain, file)];
    }

    method Rename(written: OwnerFile)
      modifies this
      ensures keychain == old(keychain) && file == written
      ensures trace == old(trace) + [View()]
    {
      file := written;
      trace := trace + [World(keychain, file)];
    }

    /** SaveIdentity: passes through exactly the states of Save and moves the identity along. */
    method SaveIdentity(id: Identity, draw: Ref, x: Faults) returns (ok: bool)
      requires Valid()
      modifies this, id
      ensures Valid()
      ensures var r := Save(old(View()), old(id.View()), draw, x);
              trace == old(trace) + r.trace[1..] && View() == Final(r) && ok == r.ok
      ensures ok ==> id.View() == AfterSave(old(id.View()), draw)
    {
      if id.secret.None? || x.early {
        return false;
      }
      var target := draw;
      var created := true;
      if id.data.ref.Some? {
        target, created := id.data.ref.value, false;
      }
      if x.put {
        return false;
      }
      PutSecret(target, id.secret.value);
      var persisted := id.data.(ref := Some(target), plain := NoPlain, ownerPriv := false);
      if x.beforeRename {
        if created && !x.cleanup {
          DeleteSecret(target);
        }
        return false;
      }
      Rename(Json(persisted));
      var replaced := id.obsolete;
      id.data := persisted;
      id.obsolete := None;
      if replaced.Some? && replaced.value != target {
        if x.retire {
          return false;
        }
        DeleteSecret(replaced.value);
      }
      return true;
    }

    /** Rekey, on the objects. */
    method Rotate(e: Env) returns (id: Identity, ok: bool)
      requires Valid()
      modifies this
      ensures Valid()
      ensures var r := Rekey(old(View()), e);
              trace == old(trace) + r.trace[1..] && (ok <==> r.id.Some?) && (ok ==> id.View() == r.id.value)
    {
      id := new Identity();
      if file.Corrupt? || (e.readFails && file.Json?) {
        return id, false;
      }
      if file.Json? {
        id.obsolete := file.data.ref;
      }
      id.Derive(e.freshSecret, false);
      ok := SaveIdentity(id, e.draw, e.faults);
    }

    /** LoadOrCreateIdentity, on the objects. */
    method LoadOrCreate(e: Env) returns (id: Identity, ok: bool)
      requires Valid()
      modifies this
      ensures Valid()
      ensures var r := Load(old(View()), e);
              trace == old(trace) + r.trace[1..] && (ok <==> r.id.Some?) && (ok ==> id.View() == r.id.value)
    {
      id := new Identity();
      if !e.readFails {
        if file.Corrupt? {
          return id, false;
        }
        if file.Json? {
          id.data := file.data;
        }
      }
      if id.data.ref.Some? {
        if e.storeFails || id.data.ref.value !in keychain {
          return id, false;
        }
        id.Derive(keychain[id.data.ref.value], true);
      } else if id.data.plain.BadPlain? {
        return id, false;
      } else if id.data.plain.PlainSecret? {
        id.Derive(id.data.plain.secret, false);
        ok := SaveIdentity(id, e.draw, e.faults);
        return id, ok;
      } else if !id.data.ownerPriv {
        id.Derive(e.freshSecret, false);
        ok := SaveIdentity(id, e.draw, e.faults);
        return id, ok;
      }
      return id, true;
    }
  }
}
