/**
  The agent's guest-grant store: a directory of grant files listed by name, and the file
  of revoked grant ids beside them. Signature checking is a parameter; the file system is
  assumed not to fail.
*/
module GrantStore {
  import opened Wrappers
  import opened Signing

  datatype Signed = Signed(grant: Grant, sig: string)

  /** What reading one directory entry gives. */
  datatype Content = Record(sg: Signed) | Garbage | Unreadable | Directory

  datatype File = File(name: string, content: Content)

  const MAX_RECORD_BYTES := 4096

  // ---- the directory, in listing order ------------------------------------------------

  predicate Less(a: string, b: string) {
    if b == "" then false
    else a == "" || a[0] < b[0] || (a[0] == b[0] && Less(a[1..], b[1..]))
  }

  lemma {:induction false} LessTransitive(a: string, b: string, c: string)
    requires Less(a, b) && Less(b, c)
    ensures Less(a, c)
  {
    if a != "" && a[0] == b[0] == c[0] {
      LessTransitive(a[1..], b[1..], c[1..]);
    }
  }

  lemma {:induction false} LessTotal(a: string, b: string)
    ensures (Less(a, b) || Less(b, a)) <==> a != b
  {
    if a != "" && b != "" && a[0] == b[0] {
      LessTotal(a[1..], b[1..]);
      assert a == [a[0]] + a[1..] && b == [b[0]] + b[1..];
    }
  }

  predicate Sorted(files: seq<File>) {
    forall i, j :: 0 <= i < j < |files| ==> Less(files[i].name, files[j].name)
  }

  /** Writing a file: replace the entry of that name, or take its place in the order. */
  function Put(files: seq<File>, f: File): seq<File> {
    if files == [] then [f]
    else if files[0].name == f.name then [f] + files[1..]
    else if Less(f.name, files[0].name) then [f] + files
    else [files[0]] + Put(files[1..], f)
  }

  lemma PutFront(files: seq<File>, f: File)
    requires Sorted(files) && files != [] && Less(f.name, files[0].name)
    ensures Sorted([f] + files)
    ensures forall g :: g in files ==> g.name != f.name
  {
    forall i | 0 <= i < |files|
      ensures Less(f.name, files[i].name) && files[i].name != f.name
    {
      if i > 0 {
        LessTransitive(f.name, files[0].name, files[i].name);
      }
      LessTotal(f.name, f.name);
    }
  }

  lemma DistinctNames(files: seq<File>)
    requires Sorted(files)
    ensures forall i, j :: 0 <= i < j < |files| ==> files[i].name != files[j].name
  {
    forall i, j | 0 <= i < j < |files|
      ensures files[i].name != files[j].name
    {
      LessTotal(files[i].name, files[j].name);
    }
  }

  lemma {:induction false} PutSpec(files: seq<File>, f: File)
    requires Sorted(files)
    ensures Sorted(Put(files, f))
    ensures forall g :: g in Put(files, f) <==> g == f || (g in files && g.name != f.name)
    decreases |files|
  {
    if files != [] {
      DistinctNames(files);
      assert files == [files[0]] + files[1..];
      if files[0].name == f.name {
      } else if Less(f.name, files[0].name) {
        PutFront(files, f);
      } else {
        LessTotal(f.name, files[0].name);
        PutSpec(files[1..], f);
        forall g | g in Put(files[1..], f)
          ensures Less(files[0].name, g.name)
        {
        }
      }
    }
  }

  /** Keep the entries a predicate selects, in order. */
  function Select(files: seq<File>, keep: File -> bool): (r: seq<File>)
    ensures forall g :: g in r <==> g in files && keep(g)
  {
    if files == [] then []
    else
      assert files == files[..|files| - 1] + [files[|files| - 1]];
      Select(files[..|files| - 1], keep) + (if keep(files[|files| - 1]) then [files[|files| - 1]] else [])
  }

  lemma {:induction false} SelectSorted(files: seq<File>, keep: File -> bool)
    requires Sorted(files)
    ensures Sorted(Select(files, keep))
    decreases |files|
  {
    if files != [] {
      var n := |files| - 1;
      SelectSorted(files[..n], keep);
      forall g | g in Select(files[..n], keep)
        ensures Less(g.name, files[n].name)
      {
      }
    }
  }

  function Remove(files: seq<File>, name: string): seq<File> { Select(files, (f: File) => f.name != name) }

  lemma {:induction false} SelectAll(files: seq<File>, keep: File -> bool)
    requires forall f :: f in files ==> keep(f)
    ensures Select(files, keep) == files
    decreases |files|
  {
    if files != [] {
      var n := |files| - 1;
      assert files == files[..n] + [files[n]];
      SelectAll(files[..n], keep);
      assert Select(files, keep) == files[..n] + [files[n]];
    }
  }

  lemma {:induction false} SelectAppend(a: seq<File>, b: seq<File>, keep: File -> bool)
    ensures Select(a + b, keep) == Select(a, keep) + Select(b, keep)
    decreases |b|
  {
    if b == [] {
      assert a + b == a;
    } else {
      var n := |b| - 1;
      SelectAppend(a, b[..n], keep);
      assert (a + b)[..|a + b| - 1] == a + b[..n] && (a + b)[|a + b| - 1] == b[n];
      var x, y := Select(a, keep), Select(b[..n], keep);
      assert (x + y) + [b[n]] == x + (y + [b[n]]);
    }
  }

  /** The first entry of the listing that is wanted. */
  function First(files: seq<File>, want: File -> bool): (r: Option<File>)
    ensures r.None? <==> forall f :: f in files ==> !want(f)
    ensures r.Some? ==> r.value in files && want(r.value)
  {
    if files == [] then None
    else
      var n := |files| - 1;
      assert files == files[..n] + [files[n]];
      var r := First(files[..n], want);
      if r.Some? then r else if want(files[n]) then Some(files[n]) else None
  }

  /** Dropping entries nobody wants leaves the first wanted one. */
  lemma {:induction false} FirstOfSelected(files: seq<File>, keep: File -> bool, want: File -> bool)
    requires forall f :: f in files && want(f) ==> keep(f)
    ensures First(Select(files, keep), want) == First(files, want)
    decreases |files|
  {
    if files != [] {
      var n := |files| - 1;
      FirstOfSelected(files[..n], keep, want);
      var kept := Select(files[..n], keep);
      assert (kept + [files[n]])[..|kept|] == kept;
      assert kept + [] == kept;
    }
  }

  // ---- store and queries ------------------------------------------------------------------

  datatype Store = Store(files: seq<File>, tombstones: set<string>)

  const REVOKED := "revoked"
  const JSON_EXT := ".json"

  function PathOf(gid: string): string { gid + JSON_EXT }

  predicate IsGrantFile(f: File) {
    && !f.content.Directory?
    && |f.name| >= |JSON_EXT| && f.name[|f.name| - |JSON_EXT|..] == JSON_EXT
    && f.name != PathOf(REVOKED)
  }

  datatype Query = Query(owner: string, machine: string, guest: string, now: int)

  /** VerifyGrant: the record is well formed and its signature checks. */
  predicate Verified(check: Signed -> bool, sg: Signed) { ValidateGrant(sg.grant).Ok? && check(sg) }

  /** The entry holds a grant that authorizes the offer. */
  predicate Qualifies(check: Signed -> bool, tombstones: set<string>, q: Query, f: File) {
    && IsGrantFile(f) && f.content.Record?
    && var g := f.content.sg.grant;
       && g.guest == q.guest && g.owner == q.owner && g.machine == q.machine
       && g.gid !in tombstones
       && Verified(check, f.content.sg)
       && ValidAt(g, q.now)
  }

  /** The grant that authorizes an offer: the one of the first qualifying entry. */
  function Find(check: Signed -> bool, s: Store, q: Query): (r: Option<Signed>)
    ensures r.None? <==> forall f :: f in s.files ==> !Qualifies(check, s.tombstones, q, f)
    ensures r.Some? ==> exists f :: f in s.files && Qualifies(check, s.tombstones, q, f) && f.content.sg == r.value
  {
    match First(s.files, (f: File) => Qualifies(check, s.tombstones, q, f))
    case None => None
    case Some(f) => Some(f.content.sg)
  }

  // ---- operations -------------------------------------------------------------------------

  function Add(s: Store, sg: Signed): Store {
    if ValidateGrant(sg.grant).Ok? then s.(files := Put(s.files, File(PathOf(sg.grant.gid), Record(sg)))) else s
  }

  /** The last step removes the file of the gid, which is the tombstone file itself for "revoked". */
  function Tombstone(s: Store, gid: string): Store {
    Store(Remove(s.files, PathOf(gid)), if gid == REVOKED then {} else s.tombstones + {gid})
  }

  predicate Swept(f: File, now: int) {
    IsGrantFile(f) && !f.content.Unreadable? && (f.content.Record? ==> f.content.sg.grant.na < now - GRANT_SKEW)
  }

  function Sweep(s: Store, now: int): Store { s.(files := Select(s.files, (f: File) => !Swept(f, now))) }

  /**
    A sweep at time t never changes what a query at t or later finds; not even one up to
    the skew tolerance earlier.
  */
  lemma SweepInvisible(check: Signed -> bool, s: Store, t: int, q: Query)
    requires q.now >= t - GRANT_SKEW
    ensures Find(check, Sweep(s, t), q) == Find(check, s, q)
  {
    var want := (f: File) => Qualifies(check, s.tombstones, q, f);
    FirstOfSelected(s.files, (f: File) => !Swept(f, t), want);
  }

  datatype Op = AddOp(sg: Signed) | TombstoneOp(gid: string) | SweepOp(now: int)

  function Apply(s: Store, op: Op): Store {
    match op
    case AddOp(sg) => Add(s, sg)
    case TombstoneOp(gid) => Tombstone(s, gid)
    case SweepOp(now) => Sweep(s, now)
  }

  function ApplyAll(s: Store, ops: seq<Op>): Store
    decreases |ops|
  {
    if ops == [] then s else ApplyAll(Apply(s, ops[0]), ops[1..])
  }

  /** Exactly one call forgets tombstones. */
  lemma TombstonesKept(s: Store, op: Op)
    ensures s.tombstones <= Apply(s, op).tombstones <==> op != TombstoneOp(REVOKED) || s.tombstones == {}
  {
  }

  lemma {:induction false} TombstonesKeptAll(s: Store, ops: seq<Op>)
    requires TombstoneOp(REVOKED) !in ops
    ensures s.tombstones <= ApplyAll(s, ops).tombstones
    decreases |ops|
  {
    if ops != [] {
      TombstonesKept(s, ops[0]);
      TombstonesKeptAll(Apply(s, ops[0]), ops[1..]);
    }
  }

  /** Once tombstoned, a gid is not found again whatever is added, tombstoned or swept. */
  lemma TombstoneIsFinal(check: Signed -> bool, s: Store, gid: string, ops: seq<Op>, q: Query)
    requires gid != REVOKED && TombstoneOp(REVOKED) !in ops
    ensures var r := Find(check, ApplyAll(Tombstone(s, gid), ops), q);
            r.Some? ==> r.value.grant.gid != gid
  {
    TombstonesKeptAll(Tombstone(s, gid), ops);
  }

  // ---- the control handlers ---------------------------------------------------------------

  predicate GidShape(gid: string) { |gid| == 16 && IsLowerHex(gid) }

  /** add-grant from the authenticated session of `owner`; `parsed` is the decoded record. */
  predicate Acceptable(check: Signed -> bool, machine: string, owner: string, size: nat, parsed: Option<Signed>,
                       now: int) {
    && 0 < size <= MAX_RECORD_BYTES
    && parsed.Some?
    && Verified(check, parsed.value)
    && parsed.value.grant.owner == owner
    && parsed.value.grant.machine == machine
    && now <= parsed.value.grant.na
  }

  function Lookup(s: Store, gid: string): Option<Signed> {
    match First(s.files, (f: File) => f.name == PathOf(gid))
    case None => None
    case Some(f) => if f.content.Record? then Some(f.content.sg) else None
  }

  predicate Revocable(s: Store, machine: string, owner: string, gid: string) {
    && GidShape(gid)
    && Lookup(s, gid).Some?
    && Lookup(s, gid).value.grant.owner == owner
    && Lookup(s, gid).value.grant.machine == machine
  }

  datatype Request =
    | AddGrant(owner: string, size: nat, parsed: Option<Signed>, now: int)
    | RevokeGrant(owner: string, gid: string)
    | Startup(now: int)

  function Serve(check: Signed -> bool, machine: string, s: Store, r: Request): Store {
    match r
    case AddGrant(owner, size, parsed, now) =>
      if Acceptable(check, machine, owner, size, parsed, now) then Add(s, parsed.value) else s
    case RevokeGrant(owner, gid) =>
      if Revocable(s, machine, owner, gid) then Tombstone(s, gid) else s
    case Startup(now) => Sweep(s, now)
  }

  function ServeAll(check: Signed -> bool, machine: string, s: Store, rs: seq<Request>): Store
    decreases |rs|
  {
    if rs == [] then s else ServeAll(check, machine, Serve(check, machine, s, rs[0]), rs[1..])
  }

  /** A grant sits under its own gid, for this machine, with a signature that checks. */
  predicate Backed(check: Signed -> bool, machine: string, f: File) {
    IsGrantFile(f) && f.content.Record? ==>
      && f.name == PathOf(f.content.sg.grant.gid)
      && f.content.sg.grant.machine == machine
      && Verified(check, f.content.sg)
  }

  ghost predicate Sound(check: Signed -> bool, machine: string, s: Store) {
    && Sorted(s.files)
    && forall f :: f in s.files ==> Backed(check, machine, f)
  }

  lemma ServeKeepsSound(check: Signed -> bool, machine: string, s: Store, r: Request)
    requires Sound(check, machine, s)
    ensures Sound(check, machine, Serve(check, machine, s, r))
  {
    match r
    case AddGrant(owner, size, parsed, now) =>
      if Acceptable(check, machine, owner, size, parsed, now) {
        PutSpec(s.files, File(PathOf(parsed.value.grant.gid), Record(parsed.value)));
      }
    case RevokeGrant(owner, gid) =>
      SelectSorted(s.files, (f: File) => f.name != PathOf(gid));
    case Startup(now) =>
      SelectSorted(s.files, (f: File) => !Swept(f, now));
  }

  /** Whatever the owners ask for, the store holds only grants the signature and machine back. */
  lemma {:induction false} StoreStaysSound(check: Signed -> bool, machine: string, s: Store, rs: seq<Request>)
    requires Sound(check, machine, s)
    ensures Sound(check, machine, ServeAll(check, machine, s, rs))
    decreases |rs|
  {
    if rs != [] {
      ServeKeepsSound(check, machine, s, rs[0]);
      StoreStaysSound(check, machine, Serve(check, machine, s, rs[0]), rs[1..]);
    }
  }

  lemma GidIsNotRevoked(gid: string)
    requires GidShape(gid)
    ensures gid != REVOKED && PathOf(gid) != PathOf(REVOKED)
  {
    assert |PathOf(gid)| == 21 && |PathOf(REVOKED)| == 12;
  }

  /** The handlers only ever let gids of the right shape near the tombstones. */
  lemma {:induction false} HandlersKeepTombstones(check: Signed -> bool, machine: string, s: Store, rs: seq<Request>)
    ensures s.tombstones <= ServeAll(check, machine, s, rs).tombstones
    decreases |rs|
  {
    if rs != [] {
      if rs[0].RevokeGrant? && GidShape(rs[0].gid) {
        GidIsNotRevoked(rs[0].gid);
      }
      HandlersKeepTombstones(check, machine, Serve(check, machine, s, rs[0]), rs[1..]);
    }
  }

  /** A stored grant is the one its owner's revoke request reads back. */
  lemma StoredIsRevocable(check: Signed -> bool, machine: string, s: Store, f: File)
    requires Sound(check, machine, s) && f in s.files && IsGrantFile(f) && f.content.Record?
    ensures Revocable(s, machine, f.content.sg.grant.owner, f.content.sg.grant.gid)
  {
    var gid := f.content.sg.grant.gid;
    var same := (g: File) => g.name == PathOf(gid);
    assert Backed(check, machine, f) && same(f);
    UniqueByName(s.files, f, First(s.files, same).value);
  }

  /** Only the owner of a stored grant can revoke it. */
  lemma ForeignRevokeChangesNothing(check: Signed -> bool, machine: string, s: Store, f: File, owner: string)
    requires Sound(check, machine, s) && f in s.files && IsGrantFile(f) && f.content.Record?
    requires owner != f.content.sg.grant.owner
    ensures Serve(check, machine, s, RevokeGrant(owner, f.content.sg.grant.gid)) == s
  {
    var gid := f.content.sg.grant.gid;
    var same := (g: File) => g.name == PathOf(gid);
    assert Backed(check, machine, f) && same(f);
    UniqueByName(s.files, f, First(s.files, same).value);
  }

  // ---- who is admitted, in terms of what was asked for --------------------------------------

  /** Request i of the history brought the grant in from its own owner's session, well sized
      and not past its end, and that owner has not asked to revoke it since. */
  ghost predicate GrantedBy(hist: seq<Request>, sg: Signed, i: int) {
    && 0 <= i < |hist| && hist[i].AddGrant? && hist[i].owner == sg.grant.owner && hist[i].parsed == Some(sg)
    && 0 < hist[i].size <= 4096 && hist[i].now <= sg.grant.na
    && RevokeGrant(sg.grant.owner, sg.grant.gid) !in hist[i + 1..]
  }

  ghost predicate Granted(hist: seq<Request>, sg: Signed) { exists i :: GrantedBy(hist, sg, i) }

  ghost predicate AllGranted(hist: seq<Request>, s: Store) {
    forall f :: f in s.files && IsGrantFile(f) && f.content.Record? ==> Granted(hist, f.content.sg)
  }

  lemma GrantedLonger(hist: seq<Request>, sg: Signed, r: Request)
    requires Granted(hist, sg) && r != RevokeGrant(sg.grant.owner, sg.grant.gid)
    ensures Granted(hist + [r], sg)
  {
    var i :| GrantedBy(hist, sg, i);
    assert (hist + [r])[i + 1..] == hist[i + 1..] + [r];
    assert GrantedBy(hist + [r], sg, i);
  }

  lemma GrantedNow(hist: seq<Request>, r: Request)
    requires r.AddGrant? && r.parsed.Some? && r.owner == r.parsed.value.grant.owner
    requires 0 < r.size <= 4096 && r.now <= r.parsed.value.grant.na
    ensures Granted(hist + [r], r.parsed.value)
  {
    assert (hist + [r])[|hist| + 1..] == [];
    assert GrantedBy(hist + [r], r.parsed.value, |hist|);
  }

  lemma ServeKeepsGranted(check: Signed -> bool, machine: string, hist: seq<Request>, s: Store, r: Request, f: File)
    requires Sound(check, machine, s) && AllGranted(hist, s)
    requires f in Serve(check, machine, s, r).files && IsGrantFile(f) && f.content.Record?
    ensures Granted(hist + [r], f.content.sg)
  {
    var sg := f.content.sg;
    if r.AddGrant? && Acceptable(check, machine, r.owner, r.size, r.parsed, r.now) {
      var g := File(PathOf(r.parsed.value.grant.gid), Record(r.parsed.value));
      PutSpec(s.files, g);
      if f == g { GrantedNow(hist, r); } else { GrantedLonger(hist, sg, r); }
    } else {
      assert f in s.files && Backed(check, machine, f);
      if r == RevokeGrant(sg.grant.owner, sg.grant.gid) {
        StoredIsRevocable(check, machine, s, f);
        assert false;
      }
      GrantedLonger(hist, sg, r);
    }
  }

  lemma {:induction false} ServeAllKeepsGranted(check: Signed -> bool, machine: string, hist: seq<Request>, s: Store,
                                                rs: seq<Request>)
    requires Sound(check, machine, s) && AllGranted(hist, s)
    ensures AllGranted(hist + rs, ServeAll(check, machine, s, rs))
    decreases |rs|
  {
    if rs == [] {
      assert hist + rs == hist;
    } else {
      var s' := Serve(check, machine, s, rs[0]);
      forall f | f in s'.files && IsGrantFile(f) && f.content.Record?
        ensures Granted(hist + [rs[0]], f.content.sg)
      {
        ServeKeepsGranted(check, machine, hist, s, rs[0], f);
      }
      ServeKeepsSound(check, machine, s, rs[0]);
      assert (hist + [rs[0]]) + rs[1..] == hist + rs;
      ServeAllKeepsGranted(check, machine, hist + [rs[0]], s', rs[1..]);
    }
  }

  /**
    Whoever is admitted was invited: from an empty store, the grant an offer is admitted on names
    this guest, owner and machine, is signed and inside its window, was brought in by its owner,
    and that owner has not asked to revoke it since.
  */
  lemma AdmittedWasGranted(check: Signed -> bool, machine: string, rs: seq<Request>, q: Query)
    ensures var r := Find(check, ServeAll(check, machine, Store([], {}), rs), q);
            r.Some? ==>
              var g := r.value.grant;
              && g.guest == q.guest && g.owner == q.owner && g.machine == q.machine == machine
              && ValidateGrant(g).Ok? && check(r.value) && g.nb <= q.now <= g.na
              && Granted(rs, r.value)
  {
    var none := Store([], {});
    ServeAllKeepsGranted(check, machine, [], none, rs);
    StoreStaysSound(check, machine, none, rs);
    var s := ServeAll(check, machine, none, rs);
    assert [] + rs == rs;
    var r := Find(check, s, q);
    if r.Some? {
      var f :| f in s.files && Qualifies(check, s.tombstones, q, f) && f.content.sg == r.value;
      assert Backed(check, machine, f);
    }
  }

  /** A request that leaves a stored grant alone: no revocation by its owner, no other grant of
      its gid, and no sweep after its end and the five minutes of tolerance. */
  predicate Spares(r: Request, g: Grant) {
    match r
    case AddGrant(_, _, parsed, _) => parsed.None? || parsed.value.grant.gid != g.gid
    case RevokeGrant(owner, gid) => owner != g.owner || gid != g.gid
    case Startup(now) => now <= g.na + 300
  }

  ghost predicate Kept(check: Signed -> bool, machine: string, s: Store, sg: Signed) {
    && Sound(check, machine, s) && File(PathOf(sg.grant.gid), Record(sg)) in s.files
    && sg.grant.gid !in s.tombstones
  }

  lemma PathInjective(a: string, b: string)
    requires PathOf(a) == PathOf(b)
    ensures a == b
  {
    assert a == PathOf(a)[..|a|] && b == PathOf(b)[..|b|];
  }

  lemma SpareKeeps(check: Signed -> bool, machine: string, s: Store, sg: Signed, r: Request)
    requires GidShape(sg.grant.gid) && Kept(check, machine, s, sg) && Spares(r, sg.grant)
    ensures Kept(check, machine, Serve(check, machine, s, r), sg)
  {
    var f := File(PathOf(sg.grant.gid), Record(sg));
    IsOwnFile(sg);
    ServeKeepsSound(check, machine, s, r);
    match r
    case AddGrant(owner, size, parsed, now) =>
      if Acceptable(check, machine, owner, size, parsed, now) {
        var g := File(PathOf(parsed.value.grant.gid), Record(parsed.value));
        PutSpec(s.files, g);
        if f.name == g.name { PathInjective(sg.grant.gid, parsed.value.grant.gid); }
      }
    case RevokeGrant(owner, gid) =>
      if gid == sg.grant.gid {
        ForeignRevokeChangesNothing(check, machine, s, f, owner);
      } else if PathOf(gid) == f.name {
        PathInjective(gid, sg.grant.gid);
      }
    case Startup(now) =>
  }

  lemma {:induction false} SparesKeep(check: Signed -> bool, machine: string, s: Store, sg: Signed, rs: seq<Request>)
    requires GidShape(sg.grant.gid) && Kept(check, machine, s, sg)
    requires forall i :: 0 <= i < |rs| ==> Spares(rs[i], sg.grant)
    ensures Kept(check, machine, ServeAll(check, machine, s, rs), sg)
    decreases |rs|
  {
    if rs != [] {
      SpareKeeps(check, machine, s, sg, rs[0]);
      SparesKeep(check, machine, Serve(check, machine, s, rs[0]), sg, rs[1..]);
    }
  }

  /**
    Whoever was invited is admitted: a well-formed signed grant for this machine, sent by its owner
    before its end, lets its guest in at every moment of its window, whatever requests follow that
    do not revoke it, replace it or sweep it away.
  */
  lemma {:induction false} GrantedIsAdmitted(check: Signed -> bool, machine: string, s: Store, size: nat, sg: Signed,
                                             sent: int, rs: seq<Request>, now: int)
    requires Sound(check, machine, s) && sg.grant.gid !in s.tombstones
    requires ValidateGrant(sg.grant).Ok? && check(sg) && sg.grant.machine == machine
    requires 0 < size <= 4096 && sent <= sg.grant.na && sg.grant.nb <= now <= sg.grant.na
    requires forall i :: 0 <= i < |rs| ==> Spares(rs[i], sg.grant)
    ensures var s' := ServeAll(check, machine, Serve(check, machine, s, AddGrant(sg.grant.owner, size, Some(sg), sent)),
                               rs);
            Find(check, s', Query(sg.grant.owner, machine, sg.grant.guest, now)).Some?
  {
    var s1 := Serve(check, machine, s, AddGrant(sg.grant.owner, size, Some(sg), sent));
    AddedIsKept(check, machine, s, size, sg, sent);
    SparesKeep(check, machine, s1, sg, rs);
    KeptIsFound(check, machine, ServeAll(check, machine, s1, rs), sg, now);
  }

  lemma AddedIsKept(check: Signed -> bool, machine: string, s: Store, size: nat, sg: Signed, sent: int)
    requires Sound(check, machine, s) && sg.grant.gid !in s.tombstones
    requires ValidateGrant(sg.grant).Ok? && check(sg) && sg.grant.machine == machine
    requires 0 < size <= 4096 && sent <= sg.grant.na
    ensures Kept(check, machine, Serve(check, machine, s, AddGrant(sg.grant.owner, size, Some(sg), sent)), sg)
  {
    PutSpec(s.files, File(PathOf(sg.grant.gid), Record(sg)));
    ServeKeepsSound(check, machine, s, AddGrant(sg.grant.owner, size, Some(sg), sent));
  }

  lemma {:induction false} KeptIsFound(check: Signed -> bool, machine: string, s: Store, sg: Signed, now: int)
    requires Kept(check, machine, s, sg) && GidShape(sg.grant.gid) && Verified(check, sg)
    requires sg.grant.machine == machine && sg.grant.nb <= now <= sg.grant.na
    ensures Find(check, s, Query(sg.grant.owner, machine, sg.grant.guest, now)).Some?
  {
    IsOwnFile(sg);
    var f := File(PathOf(sg.grant.gid), Record(sg));
    assert Qualifies(check, s.tombstones, Query(sg.grant.owner, machine, sg.grant.guest, now), f);
  }

  /** The files that count: not a directory, a name ending in ".json", and not the tombstone file. */
  lemma GrantFileNames(f: File)
    ensures IsGrantFile(f) <==>
              !f.content.Directory? && f.name != "revoked.json" && exists stem :: f.name == PathOf(stem)
    ensures forall gid :: PathOf(gid) == gid + ".json"
  {
    var n := |f.name| - 5;
    if n >= 0 {
      assert f.name == f.name[..n] + f.name[n..];
      if f.name[n..] == ".json" { assert f.name == PathOf(f.name[..n]); }
    }
    if stem :| f.name == PathOf(stem) {
      assert f.name[|stem|..] == ".json";
    }
  }

  lemma UniqueByName(files: seq<File>, f: File, g: File)
    requires Sorted(files) && f in files && g in files && f.name == g.name
    ensures f == g
  {
    DistinctNames(files);
    var i :| 0 <= i < |files| && files[i] == f;
    var j :| 0 <= j < |files| && files[j] == g;
  }

  /**
    Revocation is final: a stored grant that its owner revoked is never found again, by any
    query, whatever adds, revocations and sweeps follow.
  */
  lemma RevokeIsFinal(check: Signed -> bool, machine: string, s: Store, f: File, rs: seq<Request>, q: Query)
    requires Sound(check, machine, s) && f in s.files && IsGrantFile(f) && f.content.Record?
    ensures var g := f.content.sg.grant;
            var s' := ServeAll(check, machine, Serve(check, machine, s, RevokeGrant(g.owner, g.gid)), rs);
            var r := Find(check, s', q);
            r.Some? ==> r.value.grant.gid != g.gid
  {
    var g := f.content.sg.grant;
    StoredIsRevocable(check, machine, s, f);
    GidIsNotRevoked(g.gid);
    HandlersKeepTombstones(check, machine, Serve(check, machine, s, RevokeGrant(g.owner, g.gid)), rs);
  }

  /** An acknowledged revocation bars the gid exactly when it names a stored grant of this
      owner for this machine, or the gid was barred already. */
  lemma RevokeBarsExactly(check: Signed -> bool, machine: string, s: Store, owner: string, gid: string)
    requires GidShape(gid)
    ensures gid in Serve(check, machine, s, RevokeGrant(owner, gid)).tombstones
       <==> Revocable(s, machine, owner, gid) || gid in s.tombstones
  {
    GidIsNotRevoked(gid);
  }

  /** A revocation that arrives before its grant is acknowledged and forgotten: the grant
      admits its guest when it arrives. */
  lemma RevokeBeforeAddIsForgotten(check: Signed -> bool, machine: string, owner: string, size: nat, sg: Signed,
                                   now: int)
    requires Acceptable(check, machine, owner, size, Some(sg), now) && sg.grant.nb <= now
    ensures var s := ServeAll(check, machine, Store([], {}),
                              [RevokeGrant(owner, sg.grant.gid), AddGrant(owner, size, Some(sg), now)]);
            Find(check, s, Query(owner, machine, sg.grant.guest, now)) == Some(sg)
  {
    var none := Store([], {});
    var rs := [RevokeGrant(owner, sg.grant.gid), AddGrant(owner, size, Some(sg), now)];
    assert Serve(check, machine, none, rs[0]) == none;
    assert rs[1..] == [rs[1]] && [rs[1]][1..] == [];
    assert ServeAll(check, machine, none, rs) == ServeAll(check, machine, none, [rs[1]]);
    assert ServeAll(check, machine, none, [rs[1]]) == ServeAll(check, machine, Serve(check, machine, none, rs[1]), []);
    AcceptedIsUsable(check, machine, none, owner, size, sg, now);
    assert Serve(check, machine, none, rs[1]).files == [File(PathOf(sg.grant.gid), Record(sg))];
  }

  /** An accepted grant whose window has opened admits its guest at once, unless its gid is tombstoned. */
  lemma AcceptedIsUsable(check: Signed -> bool, machine: string, s: Store, owner: string, size: nat, sg: Signed,
                         now: int)
    requires Sorted(s.files)
    requires Acceptable(check, machine, owner, size, Some(sg), now)
    ensures var s' := Serve(check, machine, s, AddGrant(owner, size, Some(sg), now));
            sg.grant.nb <= now && sg.grant.gid !in s.tombstones ==>
              Find(check, s', Query(owner, machine, sg.grant.guest, now)).Some?
  {
    var f := File(PathOf(sg.grant.gid), Record(sg));
    PutSpec(s.files, f);
    IsOwnFile(sg);
    assert f in Put(s.files, f);
  }

  /** The file written for a well-formed grant is one that queries look at. */
  lemma IsOwnFile(sg: Signed)
    requires GidShape(sg.grant.gid)
    ensures IsGrantFile(File(PathOf(sg.grant.gid), Record(sg)))
  {
    GidIsNotRevoked(sg.grant.gid);
    var name := PathOf(sg.grant.gid);
    assert name[|name| - |JSON_EXT|..] == JSON_EXT;
  }

  // ---- the store on disk --------------------------------------------------------------------

  class GrantDir {
    const machine: string
    const check: Signed -> bool
    var files: seq<File>
    var tombstones: set<string>

    constructor (machine: string, check: Signed -> bool, listing: seq<File>, revoked: set<string>)
      ensures this.machine == machine && this.check == check
      ensures View() == Store(listing, revoked)
    {
      this.machine, this.check := machine, check;
      files, tombstones := listing, revoked;
    }

    ghost function View(): Store
      reads this
    {
      Store(files, tombstones)
    }

    method AddRecord(sg: Signed) returns (ok: bool)
      modifies this`files
      ensures View() == Add(old(View()), sg)
      ensures ok <==> ValidateGrant(sg.grant).Ok?
    {
      if ValidateGrant(sg.grant).Err? {
        return false;
      }
      files := Put(files, File(PathOf(sg.grant.gid), Record(sg)));
      return true;
    }

    method TombstoneGrant(gid: string)
      modifies this
      ensures View() == Tombstone(old(View()), gid)
    {
      tombstones := tombstones + {gid};
      files := Remove(files, PathOf(gid));
      if gid == REVOKED {
        tombstones := {};
      }
    }

    method Admits(f: File, q: Query) returns (ok: bool)
      ensures ok <==> Qualifies(check, tombstones, q, f)
    {
      if !IsGrantFile(f) || !f.content.Record? {
        return false;
      }
      var sg := f.content.sg;
      if sg.grant.guest != q.guest || sg.grant.owner != q.owner || sg.grant.machine != q.machine {
        return false;
      }
      if sg.grant.gid in tombstones {
        return false;
      }
      return Verified(check, sg) && ValidAt(sg.grant, q.now);
    }

    method FindValidGuestGrant(q: Query) returns (r: Option<Signed>)
      ensures r == Find(check, View(), q)
      ensures r.Some? ==>
                var g := r.value.grant;
                && g.guest == q.guest && g.owner == q.owner && g.machine == q.machine && g.gid !in tombstones
                && Verified(check, r.value) && g.nb <= q.now <= g.na
    {
      ghost var revoked := tombstones;
      ghost var want := (f: File) => Qualifies(check, revoked, q, f);
      for i := 0 to |files|
        invariant First(files[..i], want).None?
      {
        var ok := Admits(files[i], q);
        if ok {
          FirstFound(files, want, i);
          return Some(files[i].content.sg);
        }
        assert files[..i + 1] == files[..i] + [files[i]];
      }
      assert files[..|files|] == files;
      return None;
    }

    method SweepExpiredGrants(now: int)
      requires Sorted(files)
      modifies this`files
      ensures View() == Sweep(old(View()), now)
      ensures forall f :: f in files <==>
                f in old(files) && !(IsGrantFile(f) && (f.content.Garbage? ||
                                                        (f.content.Record? && f.content.sg.grant.na < now - 300)))
    {
      var entries := files;
      ghost var keep := (f: File) => !Swept(f, now);
      for i := 0 to |entries|
        invariant files == Select(entries[..i], keep) + entries[i..]
      {
        var e := entries[i];
        SelectStep(entries, keep, i);
        var gone := Expired(e, now);
        if gone {
          DropEntry(entries, keep, i);
          files := Remove(files, e.name);
        }
      }
      assert entries[..|entries|] == entries;
    }

    method HandleAddGrant(owner: string, size: nat, parsed: Option<Signed>, now: int) returns (acked: bool)
      modifies this`files
      ensures View() == Serve(check, machine, old(View()), AddGrant(owner, size, parsed, now))
      ensures acked <==> Acceptable(check, machine, owner, size, parsed, now)
      ensures acked <==>
                && 0 < size <= 4096 && parsed.Some? && Verified(check, parsed.value)
                && parsed.value.grant.owner == owner && parsed.value.grant.machine == machine
                && now <= parsed.value.grant.na
    {
      if size == 0 || size > MAX_RECORD_BYTES {
        return false;
      }
      if parsed.None? || !Verified(check, parsed.value) {
        return false;
      }
      var sg := parsed.value;
      if sg.grant.owner != owner || sg.grant.machine != machine {
        return false;
      }
      if now > sg.grant.na {
        return false;
      }
      acked := AddRecord(sg);
    }

    method HandleRevokeGrant(owner: string, gid: string) returns (acked: bool)
      modifies this
      ensures View() == Serve(check, machine, old(View()), RevokeGrant(owner, gid))
      ensures acked <==> GidShape(gid)
    {
      if !GidShape(gid) {
        return false;
      }
      var sg := Lookup(Store(files, tombstones), gid);
      if sg.None? || sg.value.grant.owner != owner || sg.value.grant.machine != machine {
        return true;
      }
      TombstoneGrant(gid);
      return true;
    }
  }

  lemma {:induction false} FirstFound(files: seq<File>, want: File -> bool, i: nat)
    requires i < |files| && First(files[..i], want).None? && want(files[i])
    ensures First(files, want) == Some(files[i])
    decreases |files|
  {
    var n := |files| - 1;
    if i < n {
      assert files[..n][..i] == files[..i];
      FirstFound(files[..n], want, i);
    }
  }

  method Expired(f: File, now: int) returns (gone: bool)
    ensures gone <==> Swept(f, now)
  {
    var cutoff := now - GRANT_SKEW;
    if !IsGrantFile(f) || f.content.Unreadable? {
      return false;
    }
    return f.content.Garbage? || f.content.sg.grant.na < cutoff;
  }

  lemma SelectStep(entries: seq<File>, keep: File -> bool, i: nat)
    requires i < |entries|
    ensures keep(entries[i]) ==>
        (Select(entries[..i + 1], keep) + entries[i + 1..] == Select(entries[..i], keep) + entries[i..])
    ensures !keep(entries[i]) ==> Select(entries[..i + 1], keep) == Select(entries[..i], keep)
  {
    assert entries[..i + 1][..i] == entries[..i];
    assert entries[i..] == [entries[i]] + entries[i + 1..];
  }

  lemma SelectNone(f: File, keep: File -> bool)
    requires !keep(f)
    ensures Select([f], keep) == []
  {
    assert [f][..0] == [];
  }

  lemma SelectOut(before: seq<File>, e: File, rest: seq<File>, other: File -> bool)
    requires forall f :: f in before ==> other(f)
    requires forall f :: f in rest ==> other(f)
    requires !other(e)
    ensures Select(before + ([e] + rest), other) == before + rest
  {
    SelectAppend(before, [e] + rest, other);
    SelectAppend([e], rest, other);
    SelectNone(e, other);
    SelectAll(before, other);
    SelectAll(rest, other);
    assert [] + rest == rest;
  }

  lemma DropEntry(entries: seq<File>, keep: File -> bool, i: nat)
    requires Sorted(entries) && i < |entries|
    ensures Remove(Select(entries[..i], keep) + entries[i..], entries[i].name)
         == Select(entries[..i], keep) + entries[i + 1..]
  {
    DistinctNames(entries);
    forall f | f in entries[..i] || f in entries[i + 1..]
      ensures f.name != entries[i].name
    {
    }
    assert entries[i..] == [entries[i]] + entries[i + 1..];
    SelectOut(Select(entries[..i], keep), entries[i], entries[i + 1..], (f: File) => f.name != entries[i].name);
  }
}
