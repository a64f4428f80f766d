/**
  The client's local list of owner-signed tombstones. The file is rewritten as a whole on
  every change: read, replace or append, sort, rename. Signature checking is a parameter.
*/
module Tombstones {
  import opened Wrappers

  type OwnerId = nat
  type MachineId = nat

  datatype Slot = Slot(owner: OwnerId, machine: MachineId)

  datatype Revocation = Revocation(slot: Slot, ts: int, sig: nat)

  /** The store on disk: nothing yet, something undecodable, or a list of records. */
  datatype StoreFile = NoFile | Undecodable | Records(list: seq<Revocation>)

  predicate AllVerify(check: Revocation -> bool, list: seq<Revocation>) {
    forall i :: 0 <= i < |list| ==> check(list[i])
  }

  /** ListRevocations: one bad record makes the whole list unusable. */
  function Listed(check: Revocation -> bool, file: StoreFile): Option<seq<Revocation>> {
    match file
    case NoFile => Some([])
    case Undecodable => None
    case Records(list) => if AllVerify(check, list) then Some(list) else None
  }

  ghost function Slots(list: seq<Revocation>): set<Slot> { set r | r in list :: r.slot }

  /** The readable store has a record for the slot. */
  ghost predicate Stored(check: Revocation -> bool, file: StoreFile, slot: Slot) {
    Listed(check, file).Some? && slot in Slots(Listed(check, file).value)
  }

  /** An unusable store is left alone; a usable one stays usable and loses no slot. */
  ghost predicate Grown(check: Revocation -> bool, file: StoreFile, file': StoreFile) {
    && (Listed(check, file).None? ==> file' == file)
    && (Listed(check, file).Some? ==> Listed(check, file').Some?)
    && forall slot :: Stored(check, file, slot) ==> Stored(check, file', slot)
  }

  // ---- order ------------------------------------------------------------------------------

  predicate Before(a: Slot, b: Slot) { a.owner < b.owner || (a.owner == b.owner && a.machine < b.machine) }

  predicate Ordered(list: seq<Revocation>) {
    forall i, j :: 0 <= i < j < |list| ==> !Before(list[j].slot, list[i].slot)
  }

  function Insert(list: seq<Revocation>, r: Revocation): seq<Revocation> {
    if list == [] then [r]
    else if Before(r.slot, list[0].slot) then [r] + list
    else [list[0]] + Insert(list[1..], r)
  }

  function Sort(list: seq<Revocation>): seq<Revocation> {
    if list == [] then [] else Insert(Sort(list[1..]), list[0])
  }

  lemma {:induction false} InsertSpec(list: seq<Revocation>, r: Revocation)
    ensures multiset(Insert(list, r)) == multiset(list) + multiset{r}
    ensures Ordered(list) ==> Ordered(Insert(list, r))
    decreases |list|
  {
    if list != [] {
      assert list == [list[0]] + list[1..];
      InsertSpec(list[1..], r);
      assert multiset(Insert(list[1..], r)) == multiset(list[1..]) + multiset{r};
      if Ordered(list) && !Before(r.slot, list[0].slot) {
        var rest := Insert(list[1..], r);
        forall j | 0 <= j < |rest|
          ensures !Before(rest[j].slot, list[0].slot)
        {
          assert rest[j] in multiset(rest);
          assert rest[j] == r || rest[j] in list[1..];
        }
      }
    }
  }

  lemma {:induction false} SortSpec(list: seq<Revocation>)
    ensures multiset(Sort(list)) == multiset(list)
    ensures Ordered(Sort(list))
    decreases |list|
  {
    if list != [] {
      assert list == [list[0]] + list[1..];
      SortSpec(list[1..]);
      InsertSpec(Sort(list[1..]), list[0]);
    }
  }

  // ---- recording ----------------------------------------------------------------------------

  /** The list with the record in place of the first one for its slot, or at the end. */
  function Replaced(list: seq<Revocation>, r: Revocation): seq<Revocation> {
    if list == [] then [r]
    else if list[0].slot == r.slot then [r] + list[1..]
    else [list[0]] + Replaced(list[1..], r)
  }

  /** The file after RecordRevocation, or None when it refuses. */
  function Recorded(check: Revocation -> bool, file: StoreFile, r: Revocation): Option<StoreFile> {
    if !check(r) || Listed(check, file).None? then None
    else Some(Records(Sort(Replaced(Listed(check, file).value, r))))
  }

  predicate OnePerSlot(list: seq<Revocation>) {
    forall i, j :: 0 <= i < j < |list| ==> list[i].slot != list[j].slot
  }

  /** With one record per slot, the list is a table: the new record takes its slot, the others stay. */
  lemma ReplacedSpec(list: seq<Revocation>, r: Revocation)
    ensures r in Replaced(list, r)
    ensures Slots(Replaced(list, r)) == Slots(list) + {r.slot}
    ensures OnePerSlot(list) ==> (forall q :: q in Replaced(list, r) <==> q == r || (q in list && q.slot != r.slot))
    ensures OnePerSlot(list) ==> OnePerSlot(Replaced(list, r))
    ensures forall q :: q in Replaced(list, r) ==> q == r || q in list
  {
    ReplacedSlots(list, r);
    if OnePerSlot(list) { ReplacedTable(list, r); }
  }

  lemma {:induction false} ReplacedSlots(list: seq<Revocation>, r: Revocation)
    ensures r in Replaced(list, r)
    ensures Slots(Replaced(list, r)) == Slots(list) + {r.slot}
    ensures forall q :: q in Replaced(list, r) ==> q == r || q in list
    decreases |list|
  {
    if list != [] {
      assert list == [list[0]] + list[1..];
      SlotsCons(list[0], list[1..]);
      if list[0].slot != r.slot {
        ReplacedSlots(list[1..], r);
        SlotsCons(list[0], Replaced(list[1..], r));
      } else {
        SlotsCons(r, list[1..]);
      }
    }
  }

  lemma {:induction false} ReplacedTable(list: seq<Revocation>, r: Revocation)
    requires OnePerSlot(list)
    ensures forall q :: q in Replaced(list, r) <==> q == r || (q in list && q.slot != r.slot)
    ensures OnePerSlot(Replaced(list, r))
    decreases |list|
  {
    if list != [] {
      assert list == [list[0]] + list[1..];
      if list[0].slot != r.slot {
        ReplacedTable(list[1..], r);
        ReplacedSlots(list[1..], r);
      }
    }
  }

  lemma SlotsCons(r: Revocation, list: seq<Revocation>)
    ensures Slots([r] + list) == {r.slot} + Slots(list)
  {
    assert r in [r] + list;
  }

  /**
    A recorded tombstone: the file stays readable and sorted, its slots are the old ones
    and the new one, and every other slot keeps its records.
  */
  lemma RecordedSpec(check: Revocation -> bool, file: StoreFile, r: Revocation)
    requires Recorded(check, file, r).Some?
    ensures var was, now := Listed(check, file).value, Listed(check, Recorded(check, file, r).value);
            && now.Some? && Ordered(now.value)
            && r in now.value
            && Slots(now.value) == Slots(was) + {r.slot}
            && (OnePerSlot(was) ==> (forall q :: q in now.value <==> q == r || (q in was && q.slot != r.slot)))
  {
    var was := Listed(check, file).value;
    var list := Replaced(was, r);
    ReplacedSpec(was, r);
    SortSpec(list);
    SameMembers(Sort(list), list);
    forall i | 0 <= i < |Sort(list)|
      ensures check(Sort(list)[i])
    {
      assert Sort(list)[i] in list;
    }
  }

  lemma SameMembers(a: seq<Revocation>, b: seq<Revocation>)
    requires multiset(a) == multiset(b)
    ensures forall q :: q in a <==> q in b
    ensures Slots(a) == Slots(b)
  {
    forall q
      ensures q in a <==> q in b
    {
      assert q in a <==> q in multiset(a);
    }
  }

  // ---- the program's loops ------------------------------------------------------------------

  lemma {:induction false} ReplacedAt(list: seq<Revocation>, r: Revocation, i: nat)
    requires i <= |list|
    requires forall j :: 0 <= j < i ==> list[j].slot != r.slot
    requires i < |list| ==> list[i].slot == r.slot
    ensures Replaced(list, r) == if i < |list| then list[i := r] else list + [r]
    decreases |list|
  {
    if 0 < i {
      ReplacedAt(list[1..], r, i - 1);
      assert list == [list[0]] + list[1..];
      if i < |list| {
        assert list[i := r] == [list[0]] + list[1..][i - 1 := r];
      }
    }
  }

  method VerifyAll(check: Revocation -> bool, list: seq<Revocation>) returns (ok: bool)
    ensures ok <==> AllVerify(check, list)
  {
    for i := 0 to |list|
      invariant AllVerify(check, list[..i])
    {
      if !check(list[i]) {
        return false;
      }
    }
    return true;
  }

  class LocalStore {
    const check: Revocation -> bool
    var file: StoreFile

    constructor (check: Revocation -> bool, file: StoreFile)
      ensures this.check == check && this.file == file
    {
      this.check, this.file := check, file;
    }

    method ListRevocations() returns (list: Option<seq<Revocation>>)
      ensures list == Listed(check, file)
      ensures list.None? <==>
                file.Undecodable? || (file.Records? && exists i :: 0 <= i < |file.list| && !check(file.list[i]))
      ensures list.Some? ==> list.value == if file.Records? then file.list else []
    {
      match file
      case NoFile =>
        return Some([]);
      case Undecodable =>
        return None;
      case Records(records) =>
        var ok := VerifyAll(check, records);
        return if ok then Some(records) else None;
    }

    /** Stores one tombstone; on any error the file is untouched. */
    method RecordRevocation(r: Revocation, ioFails: bool) returns (ok: bool)
      modifies this
      ensures ok <==> !ioFails && Recorded(check, old(file), r).Some?
      ensures ok ==> Recorded(check, old(file), r) == Some(file)
      ensures ok <==> !ioFails && check(r) && !old(file).Undecodable?
                      && (old(file).Records? ==> forall i :: 0 <= i < |old(file).list| ==> check(old(file).list[i]))
      ensures !ok ==> file == old(file)
    {
      if !check(r) {
        return false;
      }
      var list := ListRevocations();
      if list.None? {
        return false;
      }
      var records := list.value;
      var i := 0;
      while i < |records| && records[i].slot != r.slot
        invariant 0 <= i <= |records|
        invariant forall j :: 0 <= j < i ==> records[j].slot != r.slot
      {
        i := i + 1;
      }
      ReplacedAt(records, r, i);
      if i < |records| {
        records := records[i := r];
      } else {
        records := records + [r];
      }
      if ioFails {
        return false;
      }
      file := Records(Sort(records));
      return true;
    }
  }
}
