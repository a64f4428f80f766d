/**
  The machine list a client shows: local pins merged with the records opened from the
  owner's registry, minus the machines an owner tombstone covers.

  Merge is defined without any table: the rows are the distinct machine ids in order of
  first appearance, and each row depends only on the records that carry its id. The
  method MergeMachines keeps the map and the order slice of the program and is proved to
  compute exactly that.
*/
module Registry {
  import opened Wrappers

  datatype Machine = Machine(name: string, id: string, hostPub: string, signal: string,
                             nameTs: int, owner: string)

  datatype Tombstone = Tombstone(owner: string, machine: string, ts: int)

  // ---- the rows of a merged list -----------------------------------------------

  function Front(ms: seq<Machine>): seq<Machine>
    requires ms != []
  {
    ms[..|ms| - 1]
  }

  function Last(ms: seq<Machine>): Machine
    requires ms != []
  {
    ms[|ms| - 1]
  }

  /** The distinct non-empty ids of a list, in order of first appearance. */
  function Ids(ms: seq<Machine>): (ids: seq<string>)
    ensures forall id :: id in ids <==> id != "" && exists m :: m in ms && m.id == id
    ensures forall i, j :: 0 <= i < j < |ids| ==> ids[i] != ids[j]
  {
    if ms == [] then []
    else
      assert ms == Front(ms) + [Last(ms)];
      var ids := Ids(Front(ms));
      if Last(ms).id == "" || Last(ms).id in ids then ids else ids + [Last(ms).id]
  }

  /** A later local pin replaces an earlier one with the same id. */
  function LastWith(ms: seq<Machine>, id: string): (r: Option<Machine>)
    ensures r.Some? <==> exists m :: m in ms && m.id == id
    ensures r.Some? ==> r.value in ms && r.value.id == id
  {
    if ms == [] then None
    else
      assert ms == Front(ms) + [Last(ms)];
      if Last(ms).id == id then Some(Last(ms)) else LastWith(Front(ms), id)
  }

  /** A registry record laid over what is known so far about its machine. */
  function Overlay(prev: Machine, m: Machine): Machine {
    var named := m.name != "" && (prev.name == "" || m.nameTs >= prev.nameTs);
    prev.(hostPub := if m.hostPub != "" then m.hostPub else prev.hostPub,
          signal := if m.signal != "" then m.signal else prev.signal,
          name := if named then m.name else prev.name,
          nameTs := if named then m.nameTs else prev.nameTs)
  }

  function Folded(base: Option<Machine>, found: seq<Machine>, id: string): (r: Option<Machine>)
    requires base.Some? ==> base.value.id == id
    ensures r.Some? <==> base.Some? || exists m :: m in found && m.id == id
    ensures r.Some? ==> r.value.id == id
  {
    if found == [] then base
    else
      assert found == Front(found) + [Last(found)];
      var prev := Folded(base, Front(found), id);
      if Last(found).id != id then prev
      else if prev.None? then Some(Last(found))
      else Some(Overlay(prev.value, Last(found)))
  }

  function Row(local: seq<Machine>, found: seq<Machine>, id: string): (r: Option<Machine>)
    ensures r.Some? <==> exists m :: m in local + found && m.id == id
    ensures r.Some? ==> r.value.id == id
  {
    Folded(LastWith(local, id), found, id)
  }

  function Rows(ids: seq<string>, local: seq<Machine>, found: seq<Machine>): (rows: seq<Machine>)
    requires forall id :: id in ids ==> Row(local, found, id).Some?
    ensures |rows| == |ids|
    ensures forall i :: 0 <= i < |ids| ==> rows[i] == Row(local, found, ids[i]).value
  {
    if ids == [] then []
    else Rows(ids[..|ids| - 1], local, found) + [Row(local, found, ids[|ids| - 1]).value]
  }

  function Merge(local: seq<Machine>, found: seq<Machine>): (rows: seq<Machine>) {
    Rows(Ids(local + found), local, found)
  }

  lemma MergeAt(local: seq<Machine>, found: seq<Machine>, i: nat)
    requires i < |Ids(local + found)|
    ensures |Merge(local, found)| == |Ids(local + found)|
    ensures Merge(local, found)[i].id == Ids(local + found)[i] != ""
    ensures Row(local, found, Ids(local + found)[i]) == Some(Merge(local, found)[i])
  {
    assert Ids(local + found)[i] in Ids(local + found);
  }

  /** A row is in the merged list exactly when it is the row of a non-empty known id. */
  lemma MergeMembers(local: seq<Machine>, found: seq<Machine>, m: Machine)
    ensures m in Merge(local, found) <==> m.id != "" && Row(local, found, m.id) == Some(m)
  {
    var ids := Ids(local + found);
    if m in Merge(local, found) {
      var i :| 0 <= i < |ids| && Merge(local, found)[i] == m;
      MergeAt(local, found, i);
    }
    if m.id != "" && Row(local, found, m.id) == Some(m) {
      assert m.id in ids;
      var i :| 0 <= i < |ids| && ids[i] == m.id;
      MergeAt(local, found, i);
    }
  }

  // ---- what a row holds, in closed form ----------------------------------------

  /** The last non-empty host key the registry carries for a machine. */
  function LastHost(found: seq<Machine>, id: string): string {
    if found == [] then ""
    else if Last(found).id == id && Last(found).hostPub != "" then Last(found).hostPub
    else LastHost(Front(found), id)
  }

  function LastSignal(found: seq<Machine>, id: string): string {
    if found == [] then ""
    else if Last(found).id == id && Last(found).signal != "" then Last(found).signal
    else LastSignal(Front(found), id)
  }

  predicate Names(m: Machine, id: string) { m.id == id && m.name != "" }

  /** The newest named record for a machine; on equal timestamps the later one. */
  function Newest(found: seq<Machine>, id: string): (r: Option<Machine>)
    ensures r.Some? <==> exists m :: m in found && Names(m, id)
    ensures r.Some? ==> (r.value in found && Names(r.value, id)
                         && forall m :: m in found && Names(m, id) ==> m.nameTs <= r.value.nameTs)
  {
    if found == [] then None
    else
      assert found == Front(found) + [Last(found)];
      var r := Newest(Front(found), id);
      if Names(Last(found), id) && (r.None? || Last(found).nameTs >= r.value.nameTs)
      then Some(Last(found)) else r
  }

  /** The registry's name beats a known row: the row has none, or one no newer. */
  predicate Beats(newest: Machine, row: Machine) { row.name == "" || newest.nameTs >= row.nameTs }

  /** Every field of a row, without the fold. */
  ghost predicate ClosedForm(base: Option<Machine>, found: seq<Machine>, id: string, row: Machine) {
    && row.hostPub == (if LastHost(found, id) != "" then LastHost(found, id)
                       else if base.Some? then base.value.hostPub else "")
    && row.signal == (if LastSignal(found, id) != "" then LastSignal(found, id)
                      else if base.Some? then base.value.signal else "")
    && (Newest(found, id).Some? && (base.None? || Beats(Newest(found, id).value, base.value)) ==>
          row.name == Newest(found, id).value.name && row.nameTs == Newest(found, id).value.nameTs)
    && (base.Some? && (Newest(found, id).None? || !Beats(Newest(found, id).value, base.value)) ==>
          row.name == base.value.name && row.nameTs == base.value.nameTs)
    && (base.None? && Newest(found, id).None? ==> row.name == "")
    && (base.Some? ==> row.owner == base.value.owner)
  }

  lemma {:induction false} FoldedClosedForm(base: Option<Machine>, found: seq<Machine>, id: string)
    requires base.Some? ==> base.value.id == id
    ensures Folded(base, found, id).Some? ==> ClosedForm(base, found, id, Folded(base, found, id).value)
    ensures Folded(base, found, id).None? ==> (Newest(found, id).None? && LastHost(found, id) == ""
                                              && LastSignal(found, id) == "")
    decreases |found|
  {
    if found != [] {
      FoldedClosedForm(base, Front(found), id);
      if Last(found).id == id && Folded(base, Front(found), id).Some? {
        OverlayClosedForm(base, found, id, Folded(base, Front(found), id).value);
      }
    }
  }

  lemma OverlayClosedForm(base: Option<Machine>, found: seq<Machine>, id: string, row: Machine)
    requires found != [] && Last(found).id == id && ClosedForm(base, Front(found), id, row)
    ensures ClosedForm(base, found, id, Overlay(row, Last(found)))
  {
  }

  /** Laying the same registry over a row it already produced changes nothing. */
  lemma FoldedTwice(base: Option<Machine>, found: seq<Machine>, id: string)
    requires base.Some? ==> base.value.id == id
    requires Folded(base, found, id).Some?
    ensures Folded(Folded(base, found, id), found, id) == Folded(base, found, id)
  {
    var once := Folded(base, found, id);
    FoldedClosedForm(base, found, id);
    FoldedClosedForm(once, found, id);
  }

  // ---- merging twice ------------------------------------------------------------

  lemma {:induction false} IdsOfDistinct(rows: seq<Machine>, ids: seq<string>)
    requires |rows| == |ids|
    requires forall i :: 0 <= i < |ids| ==> rows[i].id == ids[i] && ids[i] != ""
    requires forall i, j :: 0 <= i < j < |ids| ==> ids[i] != ids[j]
    ensures Ids(rows) == ids
    decreases |rows|
  {
    if rows != [] {
      var n := |rows| - 1;
      IdsOfDistinct(rows[..n], ids[..n]);
      assert ids == ids[..n] + [ids[n]];
      assert ids[n] !in ids[..n];
    }
  }

  /** Appending records whose ids are already listed adds nothing. */
  lemma {:induction false} IdsAbsorb(ms: seq<Machine>, more: seq<Machine>)
    requires forall m :: m in more && m.id != "" ==> m.id in Ids(ms)
    ensures Ids(ms + more) == Ids(ms)
    decreases |more|
  {
    if more == [] {
      assert ms + more == ms;
    } else {
      assert more == Front(more) + [Last(more)];
      IdsAbsorb(ms, Front(more));
      assert Front(ms + more) == ms + Front(more);
    }
  }

  lemma {:induction false} LastWithOfDistinct(rows: seq<Machine>, i: nat)
    requires i < |rows|
    requires forall j, k :: 0 <= j < k < |rows| ==> rows[j].id != rows[k].id
    ensures LastWith(rows, rows[i].id) == Some(rows[i])
    decreases |rows|
  {
    if i < |rows| - 1 {
      LastWithOfDistinct(rows[..|rows| - 1], i);
    }
  }

  /** Merging the same registry a second time changes nothing. */
  lemma MergeIdempotent(local: seq<Machine>, found: seq<Machine>)
    ensures Merge(Merge(local, found), found) == Merge(local, found)
  {
    var once := Merge(local, found);
    var ids := Ids(local + found);
    forall i | 0 <= i < |ids|
      ensures once[i].id == ids[i] && ids[i] != ""
    {
      MergeAt(local, found, i);
    }
    IdsOfDistinct(once, ids);
    IdsAbsorb(once, found);
    assert Ids(once + found) == ids;
    forall i | 0 <= i < |ids|
      ensures Row(once, found, ids[i]) == Row(local, found, ids[i])
    {
      MergeAt(local, found, i);
      LastWithOfDistinct(once, i);
      FoldedTwice(LastWith(local, ids[i]), found, ids[i]);
    }
  }

  // ---- revocation -----------------------------------------------------------------

  function Keep(ms: seq<Machine>, revoked: set<string>): (kept: seq<Machine>)
    ensures forall m :: m in kept <==> m in ms && m.id !in revoked
  {
    if ms == [] then []
    else
      assert ms == Front(ms) + [Last(ms)];
      if Last(ms).id in revoked then Keep(Front(ms), revoked)
      else Keep(Front(ms), revoked) + [Last(ms)]
  }

  function KeepIds(ids: seq<string>, revoked: set<string>): (kept: seq<string>)
    ensures forall id :: id in kept <==> id in ids && id !in revoked
  {
    if ids == [] then []
    else
      var n := |ids| - 1;
      assert ids == ids[..n] + [ids[n]];
      if ids[n] in revoked then KeepIds(ids[..n], revoked) else KeepIds(ids[..n], revoked) + [ids[n]]
  }

  ghost function RevokedIds(owner: string, records: seq<Tombstone>): set<string> {
    set r | r in records && r.owner == owner :: r.machine
  }

  lemma {:induction false} IdsOfKept(ms: seq<Machine>, revoked: set<string>)
    ensures Ids(Keep(ms, revoked)) == KeepIds(Ids(ms), revoked)
    decreases |ms|
  {
    if ms != [] {
      IdsOfKept(Front(ms), revoked);
      IdsSnoc(Keep(Front(ms), revoked), Last(ms));
      KeepIdsSnoc(Ids(Front(ms)), Last(ms).id, revoked);
    }
  }

  lemma IdsSnoc(ms: seq<Machine>, m: Machine)
    ensures Ids(ms + [m]) == if m.id == "" || m.id in Ids(ms) then Ids(ms) else Ids(ms) + [m.id]
  {
    assert Front(ms + [m]) == ms;
  }

  lemma KeepIdsSnoc(ids: seq<string>, id: string, revoked: set<string>)
    ensures KeepIds(ids + [id], revoked) ==
            if id in revoked then KeepIds(ids, revoked) else KeepIds(ids, revoked) + [id]
  {
    assert (ids + [id])[..|ids|] == ids;
  }

  lemma {:induction false} LastWithOfKept(ms: seq<Machine>, revoked: set<string>, id: string)
    requires id !in revoked
    ensures LastWith(Keep(ms, revoked), id) == LastWith(ms, id)
    decreases |ms|
  {
    if ms != [] {
      LastWithOfKept(Front(ms), revoked, id);
      assert Front(Keep(Front(ms), revoked) + [Last(ms)]) == Keep(Front(ms), revoked);
    }
  }

  lemma {:induction false} FoldedOfKept(base: Option<Machine>, ms: seq<Machine>, revoked: set<string>, id: string)
    requires id !in revoked
    requires base.Some? ==> base.value.id == id
    ensures Folded(base, Keep(ms, revoked), id) == Folded(base, ms, id)
    decreases |ms|
  {
    if ms != [] {
      FoldedOfKept(base, Front(ms), revoked, id);
      assert Front(Keep(Front(ms), revoked) + [Last(ms)]) == Keep(Front(ms), revoked);
    }
  }

  lemma RowOfKept(local: seq<Machine>, found: seq<Machine>, revoked: set<string>, id: string)
    requires id !in revoked
    ensures Row(Keep(local, revoked), Keep(found, revoked), id) == Row(local, found, id)
  {
    LastWithOfKept(local, revoked, id);
    FoldedOfKept(LastWith(local, id), found, revoked, id);
  }

  lemma {:induction false} KeepAppend(a: seq<Machine>, b: seq<Machine>, revoked: set<string>)
    ensures Keep(a + b, revoked) == Keep(a, revoked) + Keep(b, revoked)
    decreases |b|
  {
    if b == [] {
      assert a + b == a;
    } else {
      KeepAppend(a, Front(b), revoked);
      assert Front(a + b) == a + Front(b) && Last(a + b) == Last(b);
      var x, y := Keep(a, revoked), Keep(Front(b), revoked);
      assert x + y + [Last(b)] == x + (y + [Last(b)]);
    }
  }

  lemma {:induction false} KeepRows(ids: seq<string>, rows: seq<Machine>, local: seq<Machine>, found: seq<Machine>,
                                    revoked: set<string>)
    requires forall id :: id in ids ==> Row(local, found, id).Some?
    requires rows == Rows(ids, local, found)
    ensures forall id :: id in KeepIds(ids, revoked) ==> Row(Keep(local, revoked), Keep(found, revoked), id).Some?
    ensures Keep(rows, revoked)
         == Rows(KeepIds(ids, revoked), Keep(local, revoked), Keep(found, revoked))
    decreases |ids|
  {
    forall id | id in KeepIds(ids, revoked)
      ensures Row(Keep(local, revoked), Keep(found, revoked), id).Some?
    {
      RowOfKept(local, found, revoked, id);
    }
    if ids != [] {
      var n := |ids| - 1;
      KeepRows(ids[..n], Rows(ids[..n], local, found), local, found, revoked);
      assert Front(rows) == Rows(ids[..n], local, found);
      if ids[n] !in revoked {
        RowOfKept(local, found, revoked, ids[n]);
        assert (KeepIds(ids[..n], revoked) + [ids[n]])[..|KeepIds(ids[..n], revoked)|] == KeepIds(ids[..n], revoked);
      }
    }
  }

  /** Filtering the merged list is merging the filtered lists, order included. */
  lemma RevocationCommutesWithMerge(local: seq<Machine>, found: seq<Machine>, revoked: set<string>)
    ensures Keep(Merge(local, found), revoked) == Merge(Keep(local, revoked), Keep(found, revoked))
  {
    KeepAppend(local, found, revoked);
    IdsOfKept(local + found, revoked);
    KeepRows(Ids(local + found), Merge(local, found), local, found, revoked);
  }

  // ---- what two devices agree on ----------------------------------------------------

  /** This device's own pin does not carry a name newer than t. */
  ghost predicate NameNoNewer(local: seq<Machine>, id: string, t: int) {
    var pin := LastWith(local, id);
    pin.None? || pin.value.name == "" || pin.value.nameTs <= t
  }

  /**
    The merged name is the registry's newest one, unless this device holds a strictly
    newer name of its own; then it is that one.
  */
  lemma MergedName(local: seq<Machine>, found: seq<Machine>, id: string)
    requires Newest(found, id).Some?
    ensures Row(local, found, id).Some?
    ensures NameNoNewer(local, id, Newest(found, id).value.nameTs)
        ==> Row(local, found, id).value.name == Newest(found, id).value.name
    ensures !NameNoNewer(local, id, Newest(found, id).value.nameTs)
        ==> Row(local, found, id).value.name == LastWith(local, id).value.name
  {
    FoldedClosedForm(LastWith(local, id), found, id);
  }

  /** Two devices without a newer local name show the same name for a machine. */
  lemma DevicesAgreeOnName(here: seq<Machine>, there: seq<Machine>, found: seq<Machine>, id: string, a: Machine,
                           b: Machine)
    requires Newest(found, id).Some?
    requires NameNoNewer(here, id, Newest(found, id).value.nameTs)
    requires NameNoNewer(there, id, Newest(found, id).value.nameTs)
    requires a in Merge(here, found) && a.id == id
    requires b in Merge(there, found) && b.id == id
    ensures a.name == b.name == Newest(found, id).value.name
  {
    MergeMembers(here, found, a);
    MergeMembers(there, found, b);
    MergedName(here, found, id);
    MergedName(there, found, id);
  }

  /** A local pin never overrides a host key the registry carries. */
  lemma RegistryPinsHostKey(local: seq<Machine>, found: seq<Machine>, m: Machine)
    requires m in Merge(local, found)
    requires LastHost(found, m.id) != ""
    ensures m.hostPub == LastHost(found, m.id)
  {
    MergeMembers(local, found, m);
    FoldedClosedForm(LastWith(local, m.id), found, m.id);
  }

  // ---- which record each field comes from, by position ------------------------------

  ghost predicate FirstAt(ms: seq<Machine>, id: string, i: int) {
    0 <= i < |ms| && ms[i].id == id && forall j :: 0 <= j < i ==> ms[j].id != id
  }

  ghost predicate LastAt(ms: seq<Machine>, id: string, i: int) {
    0 <= i < |ms| && ms[i].id == id && forall j :: i < j < |ms| ==> ms[j].id != id
  }

  ghost predicate LastHostAt(ms: seq<Machine>, id: string, i: int) {
    && 0 <= i < |ms| && ms[i].id == id && ms[i].hostPub != ""
    && forall j :: i < j < |ms| && ms[j].id == id ==> ms[j].hostPub == ""
  }

  ghost predicate LastSignalAt(ms: seq<Machine>, id: string, i: int) {
    && 0 <= i < |ms| && ms[i].id == id && ms[i].signal != ""
    && forall j :: i < j < |ms| && ms[j].id == id ==> ms[j].signal == ""
  }

  /** The named record with the greatest timestamp, the last of them if several share it. */
  ghost predicate NewestAt(ms: seq<Machine>, id: string, i: int) {
    && 0 <= i < |ms| && ms[i].id == id && ms[i].name != ""
    && forall j :: 0 <= j < |ms| && ms[j].id == id && ms[j].name != "" ==>
         ms[j].nameTs < ms[i].nameTs || (ms[j].nameTs == ms[i].nameTs && j <= i)
  }

  lemma {:induction false} LastPosition(ms: seq<Machine>, id: string, i: int)
    requires LastAt(ms, id, i)
    ensures LastWith(ms, id) == Some(ms[i])
    decreases |ms|
  {
    if i < |ms| - 1 { LastPosition(Front(ms), id, i); }
  }

  lemma {:induction false} HostPosition(ms: seq<Machine>, id: string, i: int)
    requires LastHostAt(ms, id, i)
    ensures LastHost(ms, id) == ms[i].hostPub
    decreases |ms|
  {
    if i < |ms| - 1 { HostPosition(Front(ms), id, i); }
  }

  lemma {:induction false} NoHost(ms: seq<Machine>, id: string)
    requires forall m :: m in ms && m.id == id ==> m.hostPub == ""
    ensures LastHost(ms, id) == ""
    decreases |ms|
  {
    if ms != [] { NoHost(Front(ms), id); }
  }

  lemma {:induction false} SignalPosition(ms: seq<Machine>, id: string, i: int)
    requires LastSignalAt(ms, id, i)
    ensures LastSignal(ms, id) == ms[i].signal
    decreases |ms|
  {
    if i < |ms| - 1 { SignalPosition(Front(ms), id, i); }
  }

  lemma {:induction false} NoSignal(ms: seq<Machine>, id: string)
    requires forall m :: m in ms && m.id == id ==> m.signal == ""
    ensures LastSignal(ms, id) == ""
    decreases |ms|
  {
    if ms != [] { NoSignal(Front(ms), id); }
  }

  lemma {:induction false} NewestPosition(ms: seq<Machine>, id: string, i: int)
    requires NewestAt(ms, id, i)
    ensures Newest(ms, id) == Some(ms[i])
    decreases |ms|
  {
    var n := |ms| - 1;
    if i < n {
      assert NewestAt(Front(ms), id, i);
      NewestPosition(Front(ms), id, i);
    } else {
      var r := Newest(Front(ms), id);
      if r.Some? {
        var j :| 0 <= j < n && ms[j] == r.value;
        assert ms[j].nameTs <= ms[i].nameTs;
      }
    }
  }

  lemma {:induction false} FirstFolded(found: seq<Machine>, id: string, k: int)
    requires FirstAt(found, id, k)
    ensures Folded(None, found, id).Some? && Folded(None, found, id).value.owner == found[k].owner
    decreases |found|
  {
    var n := |found| - 1;
    if k < n {
      assert FirstAt(Front(found), id, k);
      FirstFolded(Front(found), id, k);
    } else {
      assert forall m :: m in Front(found) ==> m.id != id;
    }
  }

  /** Host key, signalling url and name come from the registry records that hold the last
      ones and the newest, whatever the device has pinned (a strictly newer pinned name apart). */
  lemma FieldsFromRegistry(local: seq<Machine>, found: seq<Machine>, m: Machine, i: int)
    requires m in Merge(local, found)
    ensures LastHostAt(found, m.id, i) ==> m.hostPub == found[i].hostPub
    ensures LastSignalAt(found, m.id, i) ==> m.signal == found[i].signal
    ensures NewestAt(found, m.id, i) && NameNoNewer(local, m.id, found[i].nameTs) ==>
              m.name == found[i].name && m.nameTs == found[i].nameTs
  {
    MergeMembers(local, found, m);
    FoldedClosedForm(LastWith(local, m.id), found, m.id);
    if LastHostAt(found, m.id, i) { HostPosition(found, m.id, i); }
    if LastSignalAt(found, m.id, i) { SignalPosition(found, m.id, i); }
    if NewestAt(found, m.id, i) { NewestPosition(found, m.id, i); }
  }

  /** What the registry does not say comes from the last pin of the machine. */
  lemma FieldsFromPin(local: seq<Machine>, found: seq<Machine>, m: Machine, p: int)
    requires m in Merge(local, found) && LastAt(local, m.id, p)
    ensures m.owner == local[p].owner
    ensures (forall r :: r in found && r.id == m.id ==> r.hostPub == "") ==> m.hostPub == local[p].hostPub
    ensures (forall r :: r in found && r.id == m.id ==> r.signal == "") ==> m.signal == local[p].signal
    ensures (forall r :: r in found && Names(r, m.id) ==> local[p].name != "" && r.nameTs < local[p].nameTs) ==>
              m.name == local[p].name && m.nameTs == local[p].nameTs
  {
    MergeMembers(local, found, m);
    LastPosition(local, m.id, p);
    FoldedClosedForm(LastWith(local, m.id), found, m.id);
    if forall r :: r in found && r.id == m.id ==> r.hostPub == "" { NoHost(found, m.id); }
    if forall r :: r in found && r.id == m.id ==> r.signal == "" { NoSignal(found, m.id); }
  }

  /** A machine this device has not pinned belongs to the owner its first record names. */
  lemma OwnerOfDiscovered(local: seq<Machine>, found: seq<Machine>, m: Machine, k: int)
    requires m in Merge(local, found) && FirstAt(found, m.id, k) && forall pin :: pin in local ==> pin.id != m.id
    ensures m.owner == found[k].owner
  {
    MergeMembers(local, found, m);
    FirstFolded(found, m.id, k);
  }

  /** Rows come in the order in which their ids first appear, pins before discoveries. */
  lemma {:induction false} IdsByAppearance(ms: seq<Machine>, i: nat, j: nat, a: int, b: int)
    requires i < j < |Ids(ms)| && FirstAt(ms, Ids(ms)[i], a) && FirstAt(ms, Ids(ms)[j], b)
    ensures a < b
    decreases |ms|
  {
    var n := |ms| - 1;
    var ids := Ids(Front(ms));
    assert Ids(ms)[i] in ids;
    var m :| m in Front(ms) && m.id == Ids(ms)[i];
    var k :| 0 <= k < n && ms[k] == m;
    assert a <= k;
    if b < n {
      assert ms[b] in Front(ms);
      assert j < |ids|;
      IdsByAppearance(Front(ms), i, j, a, b);
    }
  }

  /** Two rows of the merged list stand in the order in which their machines first appear. */
  lemma RowsByAppearance(local: seq<Machine>, found: seq<Machine>, i: nat, j: nat, a: int, b: int)
    requires i < j < |Merge(local, found)|
    requires FirstAt(local + found, Merge(local, found)[i].id, a)
    requires FirstAt(local + found, Merge(local, found)[j].id, b)
    ensures a < b
  {
    MergeAt(local, found, i);
    MergeAt(local, found, j);
    IdsByAppearance(local + found, i, j, a, b);
  }

  // ---- the program's loops ------------------------------------------------------------

  lemma StepBack(ms: seq<Machine>, i: nat)
    requires i < |ms|
    ensures ms[..i + 1] != [] && Front(ms[..i + 1]) == ms[..i] && Last(ms[..i + 1]) == ms[i]
  {
  }

  lemma StepBackAfter(local: seq<Machine>, found: seq<Machine>, i: nat)
    requires i < |found|
    ensures local + found[..i + 1] != []
    ensures Front(local + found[..i + 1]) == local + found[..i]
    ensures Last(local + found[..i + 1]) == found[i]
  {
  }

  method IndexLocal(local: seq<Machine>) returns (byId: map<string, Machine>, order: seq<string>)
    ensures order == Ids(local)
    ensures forall id :: id in byId <==> id in order
    ensures forall id :: id in byId ==> LastWith(local, id) == Some(byId[id])
  {
    byId, order := map[], [];
    for i := 0 to |local|
      invariant order == Ids(local[..i])
      invariant forall id :: id in byId <==> id in order
      invariant forall id :: id in byId ==> LastWith(local[..i], id) == Some(byId[id])
    {
      var m := local[i];
      StepBack(local, i);
      if m.id == "" {
        continue;
      }
      if m.id !in byId {
        order := order + [m.id];
      }
      byId := byId[m.id := m];
    }
    assert local[..|local|] == local;
  }

  /** One discovered record: a new row, or an update of the known one. */
  method Discover(byId: map<string, Machine>, order: seq<string>, m: Machine)
    returns (byId': map<string, Machine>, order': seq<string>)
    requires m.id != ""
    ensures m.id !in byId ==> order' == order + [m.id] && byId' == byId[m.id := m]
    ensures m.id in byId ==> order' == order && byId' == byId[m.id := Overlay(byId[m.id], m)]
  {
    if m.id !in byId {
      return byId[m.id := m], order + [m.id];
    }
    var prev := byId[m.id];
    if m.hostPub != "" {
      prev := prev.(hostPub := m.hostPub);
    }
    if m.signal != "" {
      prev := prev.(signal := m.signal);
    }
    if m.name != "" && (prev.name == "" || m.nameTs >= prev.nameTs) {
      prev := prev.(name := m.name, nameTs := m.nameTs);
    }
    return byId[m.id := prev], order;
  }

  lemma RowStep(local: seq<Machine>, found: seq<Machine>, i: nat, id: string)
    requires i < |found|
    ensures found[i].id != id ==> Row(local, found[..i + 1], id) == Row(local, found[..i], id)
    ensures found[i].id == id && Row(local, found[..i], id).None? ==> Row(local, found[..i + 1], id) == Some(found[i])
    ensures found[i].id == id && Row(local, found[..i], id).Some?
        ==> Row(local, found[..i + 1], id) == Some(Overlay(Row(local, found[..i], id).value, found[i]))
  {
    StepBack(found, i);
  }

  lemma IdsStep(local: seq<Machine>, found: seq<Machine>, i: nat)
    requires i < |found|
    ensures var ids := Ids(local + found[..i]);
            Ids(local + found[..i + 1]) == if found[i].id == "" || found[i].id in ids then ids else ids + [found[i].id]
  {
    StepBackAfter(local, found, i);
  }

  lemma RowKnown(local: seq<Machine>, found: seq<Machine>, id: string)
    requires id != ""
    ensures id in Ids(local + found) <==> Row(local, found, id).Some?
  {
  }

  /** The table holds exactly the rows of the ids listed so far. */
  ghost predicate Holds(byId: map<string, Machine>, order: seq<string>, local: seq<Machine>, found: seq<Machine>) {
    && order == Ids(local + found)
    && (forall id :: id in byId <==> id in order)
    && (forall id :: id in byId ==> Row(local, found, id) == Some(byId[id]))
  }

  method MergeMachines(local: seq<Machine>, found: seq<Machine>) returns (out: seq<Machine>)
    ensures out == Merge(local, found)
  {
    var byId, order := IndexLocal(local);
    assert local + found[..0] == local;
    for i := 0 to |found|
      invariant Holds(byId, order, local, found[..i])
    {
      var m := found[i];
      if m.id == "" {
        HoldsUnnamed(byId, order, local, found, i);
        continue;
      }
      ghost var was := byId;
      ghost var wasOrder := order;
      byId, order := Discover(byId, order, m);
      HoldsNext(was, wasOrder, byId, order, local, found, i);
    }
    assert found[..|found|] == found;
    out := Listed(byId, order);
    ListedIsMerge(byId, order, local, found, out);
  }

  lemma HoldsUnnamed(byId: map<string, Machine>, order: seq<string>, local: seq<Machine>, found: seq<Machine>, i: nat)
    requires i < |found| && Holds(byId, order, local, found[..i]) && found[i].id == ""
    ensures Holds(byId, order, local, found[..i + 1])
  {
    IdsStep(local, found, i);
    forall id | id in byId
      ensures Row(local, found[..i + 1], id) == Some(byId[id])
    {
      RowStep(local, found, i, id);
    }
  }

  /** What Discover does to the table. */
  ghost predicate Discovered(byId: map<string, Machine>, order: seq<string>, byId': map<string, Machine>,
                             order': seq<string>, m: Machine) {
    && order' == (if m.id in byId then order else order + [m.id])
    && byId' == byId[m.id := if m.id in byId then Overlay(byId[m.id], m) else m]
  }

  lemma NextOrder(byId: map<string, Machine>, order: seq<string>, byId': map<string, Machine>, order': seq<string>,
                  local: seq<Machine>, found: seq<Machine>, i: nat)
    requires i < |found| && found[i].id != "" && Discovered(byId, order, byId', order', found[i])
    requires order == Ids(local + found[..i]) && forall id :: id in byId <==> id in order
    ensures order' == Ids(local + found[..i + 1])
  {
    IdsStep(local, found, i);
  }

  lemma NextRow(byId: map<string, Machine>, order: seq<string>, byId': map<string, Machine>, order': seq<string>,
                local: seq<Machine>, found: seq<Machine>, i: nat, id: string)
    requires i < |found| && found[i].id != "" && Discovered(byId, order, byId', order', found[i])
    requires Holds(byId, order, local, found[..i]) && id in byId'
    ensures Row(local, found[..i + 1], id) == Some(byId'[id])
  {
    if id !in byId {
      RowKnown(local, found[..i], id);
    }
    HoldsRow(byId, byId', local, found, i, id);
  }

  lemma HoldsNext(byId: map<string, Machine>, order: seq<string>, byId': map<string, Machine>, order': seq<string>,
                  local: seq<Machine>, found: seq<Machine>, i: nat)
    requires i < |found| && found[i].id != "" && Discovered(byId, order, byId', order', found[i])
    requires Holds(byId, order, local, found[..i])
    ensures Holds(byId', order', local, found[..i + 1])
  {
    NextOrder(byId, order, byId', order', local, found, i);
    DiscoveredKeys(byId, order, byId', order', found[i]);
    forall id | id in byId'
      ensures Row(local, found[..i + 1], id) == Some(byId'[id])
    {
      NextRow(byId, order, byId', order', local, found, i, id);
    }
  }

  lemma DiscoveredKeys(byId: map<string, Machine>, order: seq<string>, byId': map<string, Machine>,
                       order': seq<string>, m: Machine)
    requires Discovered(byId, order, byId', order', m) && forall id :: id in byId <==> id in order
    ensures forall id :: id in byId' <==> id in order'
  {
  }

  lemma HoldsRow(byId: map<string, Machine>, byId': map<string, Machine>, local: seq<Machine>, found: seq<Machine>,
                 i: nat, id: string)
    requires i < |found| && id in byId'
    requires id in byId ==> Row(local, found[..i], id) == Some(byId[id])
    requires id !in byId ==> Row(local, found[..i], id).None?
    requires byId' == byId[found[i].id :=
                             if found[i].id in byId then Overlay(byId[found[i].id], found[i]) else found[i]]
    ensures Row(local, found[..i + 1], id) == Some(byId'[id])
  {
    RowStep(local, found, i, id);
  }

  lemma ListedIsMerge(byId: map<string, Machine>, order: seq<string>, local: seq<Machine>, found: seq<Machine>,
                      out: seq<Machine>)
    requires Holds(byId, order, local, found) && |out| == |order|
    requires forall i :: 0 <= i < |order| ==> order[i] in byId && out[i] == byId[order[i]]
    ensures out == Merge(local, found)
  {
    forall i | 0 <= i < |order|
      ensures out[i] == Merge(local, found)[i]
    {
      MergeAt(local, found, i);
    }
  }

  method Listed(byId: map<string, Machine>, order: seq<string>) returns (out: seq<Machine>)
    requires forall i :: 0 <= i < |order| ==> order[i] in byId
    ensures |out| == |order|
    ensures forall i :: 0 <= i < |order| ==> out[i] == byId[order[i]]
  {
    out := [];
    for i := 0 to |order|
      invariant |out| == i
      invariant forall j :: 0 <= j < i ==> out[j] == byId[order[j]]
    {
      out := out + [byId[order[i]]];
    }
  }

  method FilterRevoked(machines: seq<Machine>, owner: string, records: seq<Tombstone>) returns (out: seq<Machine>)
    ensures out == Keep(machines, RevokedIds(owner, records))
    ensures forall m :: m in out <==>
              m in machines && !exists r :: r in records && r.owner == owner && r.machine == m.id
  {
    var revoked: set<string> := {};
    for i := 0 to |records|
      invariant revoked == RevokedIds(owner, records[..i])
    {
      assert records[..i + 1] == records[..i] + [records[i]];
      if records[i].owner == owner {
        revoked := revoked + {records[i].machine};
      }
    }
    assert records[..|records|] == records;
    out := [];
    for i := 0 to |machines|
      invariant out == Keep(machines[..i], revoked)
    {
      StepBack(machines, i);
      if machines[i].id !in revoked {
        out := out + [machines[i]];
      }
    }
    assert machines[..|machines|] == machines;
  }

  ghost predicate FirstNamed(rows: seq<Machine>, name: string, i: int) {
    0 <= i < |rows| && rows[i].name == name && forall j :: 0 <= j < i ==> rows[j].name != name
  }

  /**
    The first merged row with the name; `isNew` says that no local pin carries the name.
    Whatever row is chosen, its host key is the registry's when the registry has one.
  */
  method ResolveMachine(local: seq<Machine>, found: seq<Machine>, name: string)
    returns (m: Option<Machine>, isNew: bool)
    ensures m.None? <==> forall row :: row in Merge(local, found) ==> row.name != name
    ensures m.Some? ==> m.value.name == name
    ensures m.Some? ==> exists i :: FirstNamed(Merge(local, found), name, i) && Merge(local, found)[i] == m.value
    ensures m.Some? && LastHost(found, m.value.id) != "" ==> m.value.hostPub == LastHost(found, m.value.id)
    ensures isNew <==> m.Some? && forall pin :: pin in local ==> pin.name != name
  {
    var fromLocal := false;
    for i := 0 to |local|
      invariant !fromLocal
      invariant forall j :: 0 <= j < i ==> local[j].name != name
    {
      if local[i].name == name {
        fromLocal := true;
        break;
      }
    }
    var rows := MergeMachines(local, found);
    for i := 0 to |rows|
      invariant forall j :: 0 <= j < i ==> rows[j].name != name
    {
      if rows[i].name == name {
        assert rows[i] in Merge(local, found) && FirstNamed(rows, name, i);
        if LastHost(found, rows[i].id) != "" {
          RegistryPinsHostKey(local, found, rows[i]);
        }
        return Some(rows[i]), !fromLocal;
      }
    }
    return None, false;
  }
}
