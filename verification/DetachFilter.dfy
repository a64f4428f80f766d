/**
  The stdin filter of an attach started from the overview: prefix then 'd' or 'q' goes
  back to the machine list, a doubled prefix is one prefix byte, and any other byte after
  a prefix is sent together with it. The filter keeps an armed flag and undelivered bytes
  between reads; the input arrives in chunks that have nothing to do with the sizes of the
  reads.
*/
module DetachFilter {
  import opened Wrappers
  import opened KeyStream

  const KEY_D: Byte := 0x64
  const KEY_Q: Byte := 0x71

  predicate Gesture(b: Byte) { b == KEY_D || b == KEY_Q }

  datatype Parsed = Parsed(out: seq<Byte>, armed: bool, detached: bool)

  function Push(prefix: Byte, p: Parsed, b: Byte): Parsed {
    if p.detached then p
    else if p.armed then
      if Gesture(b) then p.(armed := false, detached := true)
      else if b == prefix then p.(armed := false, out := p.out + [prefix])
      else p.(armed := false, out := p.out + [prefix, b])
    else if b == prefix then p.(armed := true)
    else p.(out := p.out + [b])
  }

  /** The reference: one byte after the other, nothing after the gesture. */
  function Parse(prefix: Byte, p: Parsed, s: seq<Byte>): (r: Parsed)
    ensures p.detached ==> r == p
    ensures p.out <= r.out
  {
    if s == [] then p else Push(prefix, Parse(prefix, p, s[..|s| - 1]), s[|s| - 1])
  }

  lemma {:induction false} ParseAppend(prefix: Byte, p: Parsed, a: seq<Byte>, b: seq<Byte>)
    ensures Parse(prefix, p, a + b) == Parse(prefix, Parse(prefix, p, a), b)
    decreases |b|
  {
    if b == [] {
      assert a + b == a;
    } else {
      ParseAppend(prefix, p, a, b[..|b| - 1]);
      assert (a + b)[..|a + b| - 1] == a + b[..|b| - 1];
    }
  }

  lemma {:induction false} ParseShift(prefix: Byte, p: Parsed, x: seq<Byte>, s: seq<Byte>)
    ensures Parse(prefix, p.(out := x + p.out), s)
         == Parse(prefix, p, s).(out := x + Parse(prefix, p, s).out)
    decreases |s|
  {
    if s != [] {
      ParseShift(prefix, p, x, s[..|s| - 1]);
      var y := Parse(prefix, p, s[..|s| - 1]).out;
      var b := s[|s| - 1];
      assert x + y + [b] == x + (y + [b]);
      assert x + y + [prefix] == x + (y + [prefix]);
      assert x + y + [prefix, b] == x + (y + [prefix, b]);
    }
  }

  // ---- reads -------------------------------------------------------------------------

  /** The filter's fields; `chunks` is what the pump still holds before it closes. */
  datatype Filter = Filter(chunks: seq<seq<Byte>>, buf: seq<Byte>, armed: bool, done: bool)

  /** What is left of a buffer once cap bytes of it were handed out. */
  function Cut(buf: seq<Byte>, cap: nat): seq<Byte> { buf[Min(cap, |buf|)..] }

  datatype Got = Got(f: Filter, bytes: seq<Byte>, eof: bool)

  function Min(a: nat, b: nat): nat { if a < b then a else b }

  function Deliver(f: Filter, cap: nat): Got {
    var n := Min(cap, |f.buf|);
    Got(f.(buf := f.buf[n..]), f.buf[..n], false)
  }

  function Scan(prefix: Byte, armed: bool, chunk: seq<Byte>): Parsed {
    Parse(prefix, Parsed([], armed, false), chunk)
  }

  function Read(prefix: Byte, f: Filter, cap: nat): (g: Got)
    decreases |f.chunks|
  {
    if f.done then Got(f, [], true)
    else if f.buf != [] then Deliver(f, cap)
    else if f.chunks == [] then Got(f, [], true)
    else
      var p := Scan(prefix, f.armed, f.chunks[0]);
      var f' := Filter(f.chunks[1..], p.out, p.armed, p.detached);
      if !p.detached then Read(prefix, f', cap)
      else if p.out == [] then Got(f', [], true)
      else Deliver(f', cap)
  }

  /** Everything the filter could still hand out, were no read too short. */
  ghost function Owed(prefix: Byte, f: Filter): Parsed {
    Parse(prefix, Parsed(f.buf, f.armed, f.done), Concat(f.chunks))
  }

  lemma OwedAfterChunk(prefix: Byte, f: Filter)
    requires !f.done && f.buf == [] && f.chunks != []
    ensures var p := Scan(prefix, f.armed, f.chunks[0]);
            Owed(prefix, Filter(f.chunks[1..], p.out, p.armed, p.detached)) == Owed(prefix, f)
  {
    ParseAppend(prefix, Parsed([], f.armed, false), f.chunks[0], Concat(f.chunks[1..]));
  }

  lemma OwedAfterDeliver(prefix: Byte, f: Filter, cap: nat)
    ensures var g := Deliver(f, cap);
            Owed(prefix, f) == Owed(prefix, g.f).(out := g.bytes + Owed(prefix, g.f).out)
  {
    var n := Min(cap, |f.buf|);
    assert f.buf == f.buf[..n] + f.buf[n..];
    ParseShift(prefix, Parsed(f.buf[n..], f.armed, f.done), f.buf[..n], Concat(f.chunks));
  }

  /** A read hands out the front of what is owed and keeps the rest. */
  lemma {:induction false} ReadConserves(prefix: Byte, f: Filter, cap: nat)
    ensures var g := Read(prefix, f, cap);
            Owed(prefix, f) == Owed(prefix, g.f).(out := g.bytes + Owed(prefix, g.f).out)
    decreases |f.chunks|
  {
    if f.done {
    } else if f.buf != [] {
      OwedAfterDeliver(prefix, f, cap);
    } else if f.chunks != [] {
      var p := Scan(prefix, f.armed, f.chunks[0]);
      var f' := Filter(f.chunks[1..], p.out, p.armed, p.detached);
      OwedAfterChunk(prefix, f);
      if !p.detached {
        ReadConserves(prefix, f', cap);
      } else if p.out != [] {
        OwedAfterDeliver(prefix, f', cap);
      }
    }
  }

  /** The bytes that precede the gesture inside the chunk that holds it. */
  function LastOut(prefix: Byte, armed: bool, chunks: seq<seq<Byte>>): seq<Byte>
    decreases |chunks|
  {
    if chunks == [] then []
    else
      var p := Scan(prefix, armed, chunks[0]);
      if p.detached then p.out else LastOut(prefix, p.armed, chunks[1..])
  }

  /** What the detaching read leaves behind, and that the other reads do not change it. */
  lemma {:induction false} ReadDetaches(prefix: Byte, f: Filter, cap: nat)
    ensures var g := Read(prefix, f, cap);
            && (f.done ==> g.f == f)
            && (!f.done && g.f.done ==>
                g.f.buf == Cut(LastOut(prefix, f.armed, f.chunks), cap))
            && (!g.f.done ==> LastOut(prefix, g.f.armed, g.f.chunks) == LastOut(prefix, f.armed, f.chunks))
            && (g.eof ==> g.f.done || (g.f.buf == [] && g.f.chunks == []))
    decreases |f.chunks|
  {
    if !f.done && f.buf == [] && f.chunks != [] {
      var p := Scan(prefix, f.armed, f.chunks[0]);
      if !p.detached {
        ReadDetaches(prefix, Filter(f.chunks[1..], p.out, p.armed, p.detached), cap);
      }
    }
  }

  // ---- a whole attach ------------------------------------------------------------------

  /** Reads with buffers of the given sizes; got.bytes collects what they returned. */
  function Reads(prefix: Byte, chunks: seq<seq<Byte>>, caps: seq<nat>): Got {
    if caps == [] then Got(Filter(chunks, [], false, false), [], false)
    else
      var before := Reads(prefix, chunks, caps[..|caps| - 1]);
      var g := Read(prefix, before.f, caps[|caps| - 1]);
      Got(g.f, before.bytes + g.bytes, g.eof)
  }

  function Typed(prefix: Byte, s: seq<Byte>): Parsed { Parse(prefix, Parsed([], false, false), s) }

  lemma {:induction false} ReadsConserve(prefix: Byte, chunks: seq<seq<Byte>>, caps: seq<nat>)
    ensures var g := Reads(prefix, chunks, caps);
            Typed(prefix, Concat(chunks)) == Owed(prefix, g.f).(out := g.bytes + Owed(prefix, g.f).out)
    decreases |caps|
  {
    if caps != [] {
      var n := |caps| - 1;
      ReadsConserve(prefix, chunks, caps[..n]);
      var before := Reads(prefix, chunks, caps[..n]);
      ReadConserves(prefix, before.f, caps[n]);
      var g := Read(prefix, before.f, caps[n]);
      assert before.bytes + (g.bytes + Owed(prefix, g.f).out) == before.bytes + g.bytes + Owed(prefix, g.f).out;
    }
  }

  /** A read never exceeds its buffer, and with room for a byte it comes back empty-handed
      exactly at EOF. */
  lemma {:induction false} ReadProgresses(prefix: Byte, f: Filter, cap: nat)
    ensures var g := Read(prefix, f, cap);
            |g.bytes| <= cap && (g.eof ==> g.bytes == []) && (cap > 0 && !g.eof ==> g.bytes != [])
    decreases |f.chunks|
  {
    if !f.done && f.buf == [] && f.chunks != [] {
      var p := Scan(prefix, f.armed, f.chunks[0]);
      if !p.detached {
        ReadProgresses(prefix, Filter(f.chunks[1..], p.out, p.armed, p.detached), cap);
      }
    }
  }

  lemma {:induction false} OpenReadsDeliver(prefix: Byte, chunks: seq<seq<Byte>>, caps: seq<nat>)
    requires forall i :: 0 <= i < |caps| ==> caps[i] > 0
    requires !Reads(prefix, chunks, caps).eof
    ensures |Reads(prefix, chunks, caps).bytes| >= |caps|
    decreases |caps|
  {
    if caps != [] {
      var n := |caps| - 1;
      var before := Reads(prefix, chunks, caps[..n]);
      ReadProgresses(prefix, before.f, caps[n]);
      if n > 0 {
        ReadDetaches(prefix, Reads(prefix, chunks, caps[..n][..n - 1]).f, caps[..n][n - 1]);
      }
      OpenReadsDeliver(prefix, chunks, caps[..n]);
    }
  }

  /** Reads with room for a byte reach EOF: one more of them than there are bytes to hand out is enough. */
  lemma EnoughReadsEnd(prefix: Byte, chunks: seq<seq<Byte>>, caps: seq<nat>)
    requires forall i :: 0 <= i < |caps| ==> caps[i] > 0
    requires |caps| > |Typed(prefix, Concat(chunks)).out|
    ensures Reads(prefix, chunks, caps).eof
  {
    if !Reads(prefix, chunks, caps).eof {
      OpenReadsDeliver(prefix, chunks, caps);
      ReadsConserve(prefix, chunks, caps);
    }
  }

  /** Read number k is the one that meets the gesture. */
  ghost predicate DetachesAt(prefix: Byte, chunks: seq<seq<Byte>>, caps: seq<nat>, k: int) {
    0 <= k < |caps| && !Reads(prefix, chunks, caps[..k]).f.done && Reads(prefix, chunks, caps[..k + 1]).f.done
  }

  lemma DetachesEarlier(prefix: Byte, chunks: seq<seq<Byte>>, caps: seq<nat>, n: nat, k: nat)
    requires n <= |caps| && k < n
    ensures DetachesAt(prefix, chunks, caps[..n], k) <==> DetachesAt(prefix, chunks, caps, k)
  {
    assert caps[..n][..k] == caps[..k] && caps[..n][..k + 1] == caps[..k + 1];
  }

  lemma {:induction false} LeftBehind(prefix: Byte, chunks: seq<seq<Byte>>, caps: seq<nat>)
    ensures var g := Reads(prefix, chunks, caps);
            && (!g.f.done ==> LastOut(prefix, g.f.armed, g.f.chunks) == LastOut(prefix, false, chunks))
            && (g.f.done ==> exists k :: DetachesAt(prefix, chunks, caps, k)
                                      && g.f.buf == Cut(LastOut(prefix, false, chunks), caps[k]))
    decreases |caps|
  {
    if caps != [] {
      var n := |caps| - 1;
      LeftBehind(prefix, chunks, caps[..n]);
      var before := Reads(prefix, chunks, caps[..n]);
      ReadDetaches(prefix, before.f, caps[n]);
      assert caps[..n + 1] == caps;
      if before.f.done {
        var k :| DetachesAt(prefix, chunks, caps[..n], k)
              && before.f.buf == Cut(LastOut(prefix, false, chunks), caps[..n][k]);
        DetachesEarlier(prefix, chunks, caps, n, k);
        assert caps[..n][k] == caps[k];
      } else if Reads(prefix, chunks, caps).f.done {
        assert DetachesAt(prefix, chunks, caps, n);
      }
    }
  }

  lemma {:induction false} DoneStays(prefix: Byte, chunks: seq<seq<Byte>>, caps: seq<nat>, k: nat)
    requires k <= |caps| && Reads(prefix, chunks, caps[..k]).f.done
    ensures Reads(prefix, chunks, caps).f.done
    decreases |caps|
  {
    if k < |caps| {
      assert caps[..|caps| - 1][..k] == caps[..k];
      DoneStays(prefix, chunks, caps[..|caps| - 1], k);
      ReadDetaches(prefix, Reads(prefix, chunks, caps[..|caps| - 1]).f, caps[|caps| - 1]);
    } else {
      assert caps[..k] == caps;
    }
  }

  lemma DetachesOnce(prefix: Byte, chunks: seq<seq<Byte>>, caps: seq<nat>, j: nat, k: nat)
    requires DetachesAt(prefix, chunks, caps, j) && DetachesAt(prefix, chunks, caps, k)
    ensures j == k
  {
    if j < k {
      assert caps[..k][..j + 1] == caps[..j + 1];
      DoneStays(prefix, chunks, caps[..k], j + 1);
    }
    if k < j {
      assert caps[..j][..k + 1] == caps[..k + 1];
      DoneStays(prefix, chunks, caps[..j], k + 1);
    }
  }

  /**
    Reads that end in EOF: what they returned is always a prefix of the reference parse of
    the whole input, the attach was left exactly when the input holds the gesture, and
    nothing is missing exactly when the read that met the gesture had room for the bytes
    before it.
  */
  lemma DeliveredExactly(prefix: Byte, chunks: seq<seq<Byte>>, caps: seq<nat>)
    requires Reads(prefix, chunks, caps).eof
    ensures var g, all := Reads(prefix, chunks, caps), Typed(prefix, Concat(chunks));
            && g.bytes <= all.out
            && g.f.done == all.detached
            && (g.bytes == all.out <==>
                forall k :: DetachesAt(prefix, chunks, caps, k) ==> |LastOut(prefix, false, chunks)| <= caps[k])
  {
    var g := Reads(prefix, chunks, caps);
    var n := |caps| - 1;
    ReadDetaches(prefix, Reads(prefix, chunks, caps[..n]).f, caps[n]);
    ReadsConserve(prefix, chunks, caps);
    LeftBehind(prefix, chunks, caps);
    if g.f.done {
      var k :| DetachesAt(prefix, chunks, caps, k)
            && g.f.buf == Cut(LastOut(prefix, false, chunks), caps[k]);
      forall j | DetachesAt(prefix, chunks, caps, j)
        ensures j == k
      {
        DetachesOnce(prefix, chunks, caps, j, k);
      }
    } else {
      forall j | DetachesAt(prefix, chunks, caps, j)
        ensures false
      {
        DoneStays(prefix, chunks, caps, j + 1);
      }
    }
  }

  lemma {:induction false} ScanLength(prefix: Byte, armed: bool, chunk: seq<Byte>)
    ensures var p := Scan(prefix, armed, chunk);
            |p.out| + (if p.armed || p.detached then 1 else 0) <= |chunk| + (if armed then 1 else 0)
    decreases |chunk|
  {
    if chunk != [] {
      ScanLength(prefix, armed, chunk[..|chunk| - 1]);
    }
  }

  lemma {:induction false} LastOutLength(prefix: Byte, armed: bool, chunks: seq<seq<Byte>>, cap: nat)
    requires forall i :: 0 <= i < |chunks| ==> |chunks[i]| <= cap
    ensures |LastOut(prefix, armed, chunks)| <= cap
    decreases |chunks|
  {
    if chunks != [] {
      ScanLength(prefix, armed, chunks[0]);
      LastOutLength(prefix, Scan(prefix, armed, chunks[0]).armed, chunks[1..], cap);
    }
  }

  /**
    The same input in other chunks and other reads, each read buffer at least as large as
    the chunks: the same bytes come out and the attach is left in both cases or in neither.
  */
  lemma CuttingDoesNotMatter(prefix: Byte, a: seq<seq<Byte>>, b: seq<seq<Byte>>, capsA: seq<nat>, capsB: seq<nat>,
                             cap: nat)
    requires Concat(a) == Concat(b)
    requires forall i :: 0 <= i < |a| ==> |a[i]| <= cap
    requires forall i :: 0 <= i < |b| ==> |b[i]| <= cap
    requires forall i :: 0 <= i < |capsA| ==> cap <= capsA[i]
    requires forall i :: 0 <= i < |capsB| ==> cap <= capsB[i]
    requires Reads(prefix, a, capsA).eof && Reads(prefix, b, capsB).eof
    ensures Reads(prefix, a, capsA).bytes == Reads(prefix, b, capsB).bytes == Typed(prefix, Concat(a)).out
    ensures Reads(prefix, a, capsA).f.done == Reads(prefix, b, capsB).f.done
  {
    LastOutLength(prefix, false, a, cap);
    LastOutLength(prefix, false, b, cap);
    DeliveredExactly(prefix, a, capsA);
    DeliveredExactly(prefix, b, capsB);
  }

  /** A read of one byte that meets the gesture after two bytes loses the second one. */
  lemma ShortReadLoses(prefix: Byte, x: Byte, y: Byte)
    requires x != prefix && y != prefix
    ensures var chunks := [[x, y, prefix, KEY_D]];
            && Reads(prefix, chunks, [1, 1]).eof
            && Reads(prefix, chunks, [1, 1]).bytes == [x]
            && Typed(prefix, Concat(chunks)).out == [x, y]
  {
    var chunk := [x, y, prefix, KEY_D];
    var p0 := Parsed([], false, false);
    assert chunk[..3] == [x, y, prefix] && [x, y, prefix][..2] == [x, y] && [x, y][..1] == [x] && [x][..0] == [];
    assert Parse(prefix, p0, [x]) == Parsed([x], false, false);
    assert Parse(prefix, p0, [x, y]) == Parsed([x, y], false, false);
    assert Parse(prefix, p0, [x, y, prefix]) == Parsed([x, y], true, false);
    assert Parse(prefix, p0, chunk) == Parsed([x, y], false, true);
    assert Concat([chunk]) == chunk + Concat([]) == chunk;
    assert [1, 1][..1] == [1] && [1][..0] == [];
    assert Reads(prefix, [chunk], [1]) == Got(Filter([], [y], false, true), [x], false);
  }

  // ---- what the keys do ------------------------------------------------------------------

  /**
    After the prefix: 'd' and 'q' leave the attach and hand nothing on, the prefix again is
    one prefix byte, anything else goes out together with the prefix. A key on its own
    goes out, and nothing does after the attach was left.
  */
  lemma KeysDo(prefix: Byte, p: Parsed, b: Byte)
    ensures p.detached ==> Parse(prefix, p, [prefix, b]) == p
    ensures !p.detached && !p.armed ==>
              && (b != prefix ==> Parse(prefix, p, [b]) == p.(out := p.out + [b]))
              && Parse(prefix, p, [prefix, b])
                 == if b == 'd' as int || b == 'q' as int then p.(detached := true)
                    else p.(out := p.out + if b == prefix then [prefix] else [prefix, b])
  {
    ParseOne(prefix, p, b);
    ParseTwo(prefix, p, b);
  }

  // ---- the doubled prefix --------------------------------------------------------------

  lemma ParseOne(prefix: Byte, p: Parsed, b: Byte)
    ensures Parse(prefix, p, [b]) == Push(prefix, p, b)
  {
    assert [b][..0] == [];
  }

  lemma ParseTwo(prefix: Byte, p: Parsed, b: Byte)
    ensures Parse(prefix, p, [prefix, b]) == Push(prefix, Push(prefix, p, prefix), b)
  {
    assert [prefix, b][..1] == [prefix];
    ParseOne(prefix, p, prefix);
  }

  lemma {:induction false} DoubledParses(prefix: Byte, s: seq<Byte>)
    ensures !Gesture(prefix) || prefix !in s ==> Typed(prefix, Doubled(s, prefix)) == Parsed(s, false, false)
    ensures Gesture(prefix) && prefix in s ==> Typed(prefix, Doubled(s, prefix)).detached
    decreases |s|
  {
    if s != [] {
      var n := |s| - 1;
      assert s == s[..n] + [s[n]];
      DoubledParses(prefix, s[..n]);
      var p := Typed(prefix, Doubled(s[..n], prefix));
      if s[n] == prefix {
        ParseAppend(prefix, Parsed([], false, false), Doubled(s[..n], prefix), [prefix, prefix]);
        ParseTwo(prefix, p, prefix);
      } else {
        ParseAppend(prefix, Parsed([], false, false), Doubled(s[..n], prefix), [s[n]]);
        ParseOne(prefix, p, s[n]);
      }
    }
  }

  /** Doubling sends the original bytes without detaching exactly when the prefix is not a gesture key in use. */
  lemma DoublingExact(prefix: Byte, s: seq<Byte>)
    ensures Typed(prefix, Doubled(s, prefix)) == Parsed(s, false, false) <==> (Gesture(prefix) ==> prefix !in s)
  {
    DoubledParses(prefix, s);
  }

  // ---- the object -------------------------------------------------------------------------

  class Reader {
    const prefix: Byte
    var chunks: seq<seq<Byte>>
    var buf: seq<Byte>
    var armed: bool
    var done: bool
    var detachCalls: nat

    constructor (prefix: Byte, chunks: seq<seq<Byte>>)
      ensures View() == Filter(chunks, [], false, false)
      ensures this.prefix == prefix && detachCalls == 0
    {
      this.prefix := prefix;
      this.chunks := chunks;
      buf, armed, done, detachCalls := [], false, false, 0;
    }

    ghost function View(): Filter
      reads this
    {
      Filter(chunks, buf, armed, done)
    }

    /** Scans one chunk, stopping at the gesture. */
    method ScanChunk(chunk: seq<Byte>) returns (out: seq<Byte>)
      requires !done
      modifies this`armed, this`done, this`detachCalls
      ensures Parsed(out, armed, done) == Scan(prefix, old(armed), chunk)
      ensures detachCalls == old(detachCalls) + (if done then 1 else 0)
    {
      out := [];
      ghost var p0 := Parsed([], armed, false);
      for i := 0 to |chunk|
        invariant !done && detachCalls == old(detachCalls)
        invariant Parsed(out, armed, false) == Parse(prefix, p0, chunk[..i])
      {
        var b := chunk[i];
        assert chunk[..i + 1][..i] == chunk[..i];
        if armed {
          armed := false;
          if Gesture(b) {
            detachCalls := detachCalls + 1;
            done := true;
            assert Parse(prefix, p0, chunk[..i + 1]).detached;
            ParseAppend(prefix, p0, chunk[..i + 1], chunk[i + 1..]);
            assert chunk == chunk[..i + 1] + chunk[i + 1..];
            return;
          } else if b == prefix {
            out := out + [prefix];
          } else {
            out := out + [prefix, b];
          }
        } else if b == prefix {
          armed := true;
        } else {
          out := out + [b];
        }
      }
      assert chunk[..|chunk|] == chunk;
    }

    method TakeBuffered(cap: nat) returns (bytes: seq<Byte>)
      modifies this`buf
      ensures Got(View(), bytes, false) == Deliver(old(View()), cap)
    {
      var n := Min(cap, |buf|);
      bytes := buf[..n];
      buf := buf[n..];
    }

    /** One Read: the reference result, and detach is called once, in the read that meets the gesture. */
    method ReadInto(cap: nat) returns (bytes: seq<Byte>, eof: bool)
      modifies this
      ensures Got(View(), bytes, eof) == Read(prefix, old(View()), cap)
      ensures detachCalls == old(detachCalls) + (if done && !old(done) then 1 else 0)
    {
      while true
        invariant Read(prefix, View(), cap) == Read(prefix, old(View()), cap)
        invariant detachCalls == old(detachCalls) && done == old(done)
        decreases |chunks|, |buf|
      {
        if done {
          return [], true;
        }
        if |buf| > 0 {
          bytes := TakeBuffered(cap);
          return bytes, false;
        }
        if chunks == [] {
          return [], true;
        }
        var chunk := chunks[0];
        chunks := chunks[1..];
        var out := ScanChunk(chunk);
        if done {
          if |out| > 0 {
            buf := out;
            bytes := TakeBuffered(cap);
            return bytes, false;
          }
          return [], true;
        }
        buf := out;
      }
    }
  }
}
