/**
  Bytes typed at the local terminal, cut into reads at arbitrary places.
*/
module KeyStream {
  import opened Wrappers

  function Concat(chunks: seq<seq<Byte>>): seq<Byte> {
    if chunks == [] then [] else chunks[0] + Concat(chunks[1..])
  }

  lemma {:induction false} ConcatAppend(a: seq<seq<Byte>>, b: seq<seq<Byte>>)
    ensures Concat(a + b) == Concat(a) + Concat(b)
    decreases |a|
  {
    if a == [] {
      assert a + b == b;
    } else {
      ConcatAppend(a[1..], b);
      assert (a + b)[1..] == a[1..] + b;
    }
  }

  lemma ConcatPrefix(chunks: seq<seq<Byte>>, n: nat)
    requires n <= |chunks|
    ensures Concat(chunks[..n]) <= Concat(chunks)
  {
    ConcatAppend(chunks[..n], chunks[n..]);
    assert chunks[..n] + chunks[n..] == chunks;
  }

  lemma ConcatSnoc(chunks: seq<seq<Byte>>, n: nat)
    requires n < |chunks|
    ensures Concat(chunks[..n + 1]) == Concat(chunks[..n]) + chunks[n]
  {
    ConcatAppend(chunks[..n], [chunks[n]]);
    assert chunks[..n + 1] == chunks[..n] + [chunks[n]];
    assert Concat([chunks[n]]) == chunks[n] + Concat([]);
  }

  /** What a user types to send s through: every prefix byte twice. */
  function Doubled(s: seq<Byte>, prefix: Byte): seq<Byte> {
    if s == [] then []
    else Doubled(s[..|s| - 1], prefix) + (if s[|s| - 1] == prefix then [prefix, prefix] else [s[|s| - 1]])
  }

  function Without(s: seq<Byte>, prefix: Byte): (r: seq<Byte>)
    ensures |r| <= |s|
    ensures prefix in s ==> |r| < |s|
    ensures prefix !in s ==> r == s
  {
    if s == [] then []
    else
      assert s == s[..|s| - 1] + [s[|s| - 1]];
      Without(s[..|s| - 1], prefix) + (if s[|s| - 1] == prefix then [] else [s[|s| - 1]])
  }

  lemma DoubledSnoc(s: seq<Byte>, b: Byte, prefix: Byte)
    ensures Doubled(s + [b], prefix) == Doubled(s, prefix) + (if b == prefix then [prefix, prefix] else [b])
    ensures Without(s + [b], prefix) == Without(s, prefix) + (if b == prefix then [] else [b])
  {
    assert (s + [b])[..|s|] == s;
  }
}

/**
  Several attached machines behind one terminal. The first half follows the focus over
  every interleaving of user switches and session deaths; the second half follows the
  typed bytes, which a prefix key turns into commands.
*/
module Multiplexer {
  import opened Wrappers
  import opened KeyStream

  // ---- focus ------------------------------------------------------------------------

  predicate AllDead(dead: seq<bool>) { forall i :: 0 <= i < |dead| ==> dead[i] }

  /** The session `off` places after the focus, wrapping. */
  function After(n: nat, focus: nat, off: nat): (j: nat)
    requires focus < n && off <= n
    ensures j == if focus + off < n then focus + off else focus + off - n
  {
    ModOf(focus + off, n);
    (focus + off) % n
  }

  lemma ModOf(x: nat, n: nat)
    requires n > 0 && x < 2 * n
    ensures x % n == if x < n then x else x - n
  {
    if x < n {
      assert x / n == 0;
    } else {
      assert x / n == 1;
    }
  }

  /** j is live, `off` places after the focus, and everything in between is dead. */
  predicate Nearest(dead: seq<bool>, focus: nat, j: int, off: int)
    requires focus < |dead|
  {
    && 1 <= off <= |dead|
    && j == After(|dead|, focus, off)
    && !dead[j]
    && forall o :: 1 <= o < off ==> dead[After(|dead|, focus, o)]
  }

  lemma NoneNear(dead: seq<bool>, focus: nat)
    requires focus < |dead|
    requires forall o :: 1 <= o <= |dead| ==> dead[After(|dead|, focus, o)]
    ensures AllDead(dead)
  {
    forall i | 0 <= i < |dead|
      ensures dead[i]
    {
      assert i == After(|dead|, focus, if i > focus then i - focus else i + |dead| - focus);
    }
  }

  /** Search the offsets from off on. */
  function NextLiveFrom(dead: seq<bool>, focus: nat, off: nat): (j: int)
    requires focus < |dead| && 1 <= off <= |dead| + 1
    requires forall o :: 1 <= o < off ==> dead[After(|dead|, focus, o)]
    ensures j == -1 || exists o :: Nearest(dead, focus, j, o)
    ensures j == -1 ==> forall o :: 1 <= o <= |dead| ==> dead[After(|dead|, focus, o)]
    decreases |dead| + 1 - off
  {
    if off > |dead| then -1
    else if !dead[After(|dead|, focus, off)] then
      assert Nearest(dead, focus, After(|dead|, focus, off), off);
      After(|dead|, focus, off)
    else NextLiveFrom(dead, focus, off + 1)
  }

  /** The nearest live session after the focus, wrapping, the focus itself last; -1 if none. */
  function NextLive(dead: seq<bool>, focus: nat): (j: int)
    requires focus < |dead|
    ensures j == -1 || (0 <= j < |dead| && !dead[j] && exists o :: Nearest(dead, focus, j, o))
    ensures j == -1 <==> AllDead(dead)
  {
    var j := NextLiveFrom(dead, focus, 1);
    assert j == -1 ==> AllDead(dead) by {
      if j == -1 {
        NoneNear(dead, focus);
      }
    }
    j
  }

  /** Only one session can be nearest. */
  lemma NearestIsUnique(dead: seq<bool>, focus: nat, j: int, o: int, k: int, p: int)
    requires focus < |dead|
    requires Nearest(dead, focus, j, o) && Nearest(dead, focus, k, p)
    ensures j == k && o == p
  {
    var a, b := After(|dead|, focus, o), After(|dead|, focus, p);
    assert !dead[a] && !dead[b];
  }

  /**
    The shared fields. `chosen` is the target an 'n' command resolved in its first lock
    region and has not yet switched to; `closing` is the close of `quit` that the last
    death owes once it has released the lock.
  */
  datatype View = View(dead: seq<bool>, focus: nat, chosen: int, closing: bool, quit: bool)

  predicate WellFormed(v: View) { v.focus < |v.dead| }

  function Initial(n: nat): (v: View)
    requires n > 0
  {
    View(seq(n, i => false), 0, -1, false, false)
  }

  predicate Switches(v: View, idx: int) {
    0 <= idx < |v.dead| && !v.dead[idx] && idx != v.focus
  }

  function Refocus(v: View, idx: int): View {
    if Switches(v, idx) then v.(focus := idx) else v
  }

  function EndLocked(v: View, i: nat): View
    requires WellFormed(v) && i < |v.dead|
  {
    if v.dead[i] then v
    else
      var dead := v.dead[i := true];
      var next := NextLive(dead, v.focus);
      if next < 0 then v.(dead := dead, closing := true)
      else if i != v.focus then v.(dead := dead)
      else v.(dead := dead, focus := next)
  }

  datatype Event =
    | Switch(idx: int)      // prefix + digit
    | Resolve               // 'n', first lock region
    | Commit                // 'n', second lock region
    | End(i: nat)           // a session's reader failed
    | Close                 // the quit channel closes after the last death
    | Quit                  // prefix + 'q'

  function Step(v: View, e: Event): View
    requires WellFormed(v)
  {
    match e
    case Switch(idx) => Refocus(v, idx)
    case Resolve => v.(chosen := NextLive(v.dead, v.focus))
    case Commit => Refocus(v, v.chosen).(chosen := -1)
    case End(i) => if i < |v.dead| then EndLocked(v, i) else v
    case Close => if v.closing then v.(closing := false, quit := true) else v
    case Quit => v.(quit := true)
  }

  predicate FocusInv(v: View) {
    && WellFormed(v)
    && (AllDead(v.dead) || !v.dead[v.focus])
    && (AllDead(v.dead) ==> v.closing || v.quit)
  }

  lemma EndKeepsFocus(v: View, i: nat)
    requires FocusInv(v) && i < |v.dead|
    ensures FocusInv(EndLocked(v, i))
    ensures |EndLocked(v, i).dead| == |v.dead|
    ensures i != v.focus ==> EndLocked(v, i).focus == v.focus
  {
    var dead := v.dead[i := true];
    if !v.dead[i] && NextLive(dead, v.focus) >= 0 && i != v.focus {
      var j := NextLive(dead, v.focus);
      assert !dead[j] && !v.dead[j];
      assert !AllDead(v.dead);
      assert dead[v.focus] == v.dead[v.focus];
    }
  }

  lemma StepKeepsFocus(v: View, e: Event)
    requires FocusInv(v)
    ensures FocusInv(Step(v, e)) && |Step(v, e).dead| == |v.dead|
    ensures forall i :: 0 <= i < |v.dead| && v.dead[i] ==> Step(v, e).dead[i]
  {
    if e.End? && e.i < |v.dead| {
      EndKeepsFocus(v, e.i);
    }
    if e.Switch? && Switches(v, e.idx) {
      assert !v.dead[e.idx];
    }
    if e.Commit? && Switches(v, v.chosen) {
      assert !v.dead[v.chosen];
    }
  }

  ghost function Run(v: View, events: seq<Event>): (r: View)
    requires FocusInv(v)
    ensures FocusInv(r) && |r.dead| == |v.dead|
    decreases |events|
  {
    if events == [] then v
    else
      StepKeepsFocus(v, events[0]);
      Run(Step(v, events[0]), events[1..])
  }

  /**
    With at least one session and whatever the order of switches, deaths and the two
    halves of 'n': some session is live exactly when the focused one is, and once none
    is left the mux has quit or is about to.
  */
  lemma FocusStaysLive(n: nat, events: seq<Event>)
    requires n > 0
    ensures FocusInv(Initial(n))
    ensures var v := Run(Initial(n), events);
            && v.focus < n == |v.dead|
            && (AllDead(v.dead) <==> v.dead[v.focus])
            && (AllDead(v.dead) ==> v.closing || v.quit)
  {
    assert !Initial(n).dead[0];
  }

  /** What a switch, a whole 'n' and a death do: the asked-for session if it is live, the
      nearest live one, and for a dead focus again the nearest one; the last death quits. */
  lemma StepsAchieve(v: View, i: nat, j: int, o: int)
    requires FocusInv(v) && i < |v.dead|
    ensures Step(v, Switch(i)) == if v.dead[i] then v else v.(focus := i)
    ensures Nearest(v.dead, v.focus, j, o) ==> Step(Step(v, Resolve), Commit) == v.(focus := j, chosen := -1)
    ensures var dead := v.dead[i := true];
            && (v.dead[i] ==> Step(v, End(i)) == v)
            && (!v.dead[i] && Nearest(dead, v.focus, j, o) ==>
                  Step(v, End(i)) == v.(dead := dead, focus := if i == v.focus then j else v.focus))
            && (!v.dead[i] && AllDead(dead) ==>
                  Step(Step(v, End(i)), Close) == v.(dead := dead, closing := false, quit := true))
    ensures Step(v, Quit) == v.(quit := true)
  {
    NextIsNearest(v.dead, v.focus, j, o);
    NextIsNearest(v.dead[i := true], v.focus, j, o);
    assert v.dead[i] ==> v.focus != i || AllDead(v.dead);
  }

  lemma NextIsNearest(dead: seq<bool>, focus: nat, j: int, o: int)
    requires focus < |dead|
    ensures Nearest(dead, focus, j, o) ==> NextLive(dead, focus) == j && 0 <= j < |dead| && !dead[j] && !AllDead(dead)
  {
    if Nearest(dead, focus, j, o) {
      assert !dead[j];
      var p :| Nearest(dead, focus, NextLive(dead, focus), p);
      NearestIsUnique(dead, focus, j, o, NextLive(dead, focus), p);
    }
  }

  // ---- typed bytes --------------------------------------------------------------------

  const KEY_1: Byte := 0x31
  const KEY_9: Byte := 0x39
  const KEY_N: Byte := 0x6e
  const KEY_Q: Byte := 0x71

  predicate IsCommand(b: Byte) { KEY_1 <= b <= KEY_9 || b == KEY_N || b == KEY_Q }

  /** What the sessions receive, one typed byte at a time, with the forced redraws. */
  datatype Item = Key(session: nat, b: Byte) | Redraw(session: nat)

  datatype Keys = Keys(armed: bool, focus: nat, quit: bool, sent: seq<Item>)

  function Focus(dead: seq<bool>, k: Keys, idx: int): Keys {
    if 0 <= idx < |dead| && !dead[idx] && idx != k.focus
    then k.(focus := idx, sent := k.sent + [Redraw(idx)]) else k
  }

  function Command(dead: seq<bool>, prefix: Byte, k: Keys, b: Byte): (r: Keys)
    requires k.focus < |dead|
    ensures r.focus < |dead| && r.armed == k.armed && k.sent <= r.sent && (k.quit ==> r.quit)
  {
    if KEY_1 <= b <= KEY_9 then Focus(dead, k, b - KEY_1)
    else if b == KEY_N then Focus(dead, k, NextLive(dead, k.focus))
    else if b == KEY_Q then k.(quit := true)
    else if b == prefix then k.(sent := k.sent + [Key(k.focus, b)])
    else k
  }

  function Feed(dead: seq<bool>, prefix: Byte, k: Keys, b: Byte): (r: Keys)
    requires k.focus < |dead|
    ensures r.focus < |dead| && k.sent <= r.sent && (k.quit ==> r.quit)
  {
    if k.armed then Command(dead, prefix, k.(armed := false), b)
    else if b == prefix then k.(armed := true)
    else k.(sent := k.sent + [Key(k.focus, b)])
  }

  function FeedAll(dead: seq<bool>, prefix: Byte, k: Keys, s: seq<Byte>): (r: Keys)
    requires k.focus < |dead|
    ensures r.focus < |dead| && k.sent <= r.sent && (k.quit ==> r.quit)
  {
    if s == [] then k
    else Feed(dead, prefix, FeedAll(dead, prefix, k, s[..|s| - 1]), s[|s| - 1])
  }

  lemma {:induction false} FeedAppend(dead: seq<bool>, prefix: Byte, k: Keys, a: seq<Byte>, b: seq<Byte>)
    requires k.focus < |dead|
    ensures FeedAll(dead, prefix, k, a + b) == FeedAll(dead, prefix, FeedAll(dead, prefix, k, a), b)
    decreases |b|
  {
    if b == [] {
      assert a + b == a;
    } else {
      FeedAppend(dead, prefix, k, a, b[..|b| - 1]);
      assert (a + b)[..|a + b| - 1] == a + b[..|b| - 1];
    }
  }

  /** A longer input sends at least as much, and never un-quits. */
  lemma FeedPrefix(dead: seq<bool>, prefix: Byte, k: Keys, a: seq<Byte>, s: seq<Byte>)
    requires k.focus < |dead|
    requires a <= s
    ensures FeedAll(dead, prefix, k, a).sent <= FeedAll(dead, prefix, k, s).sent
    ensures FeedAll(dead, prefix, k, a).quit ==> FeedAll(dead, prefix, k, s).quit
  {
    FeedAppend(dead, prefix, k, a, s[|a|..]);
    assert s == a + s[|a|..];
  }

  /** No read up to the n-th left the mux quit. */
  ghost predicate StillOpen(dead: seq<bool>, prefix: Byte, k: Keys, chunks: seq<seq<Byte>>, n: nat)
    requires k.focus < |dead|
  {
    n <= |chunks| && forall j :: 0 < j <= n ==> !FeedAll(dead, prefix, k, Concat(chunks[..j])).quit
  }

  lemma OneMoreRead(dead: seq<bool>, prefix: Byte, k: Keys, chunks: seq<seq<Byte>>, n: nat)
    requires k.focus < |dead| && n < |chunks| && StillOpen(dead, prefix, k, chunks, n)
    ensures FeedAll(dead, prefix, k, Concat(chunks[..n + 1]))
         == FeedAll(dead, prefix, FeedAll(dead, prefix, k, Concat(chunks[..n])), chunks[n])
    ensures FeedAll(dead, prefix, k, Concat(chunks[..n + 1])).quit ==> StopsAfter(dead, prefix, k, chunks, n + 1)
    ensures !FeedAll(dead, prefix, k, Concat(chunks[..n + 1])).quit ==> StillOpen(dead, prefix, k, chunks, n + 1)
  {
    ConcatSnoc(chunks, n);
    FeedAppend(dead, prefix, k, Concat(chunks[..n]), chunks[n]);
  }

  /** How many reads the loop takes: quit is looked at after each whole read. */
  ghost predicate StopsAfter(dead: seq<bool>, prefix: Byte, k: Keys, chunks: seq<seq<Byte>>, n: nat)
    requires k.focus < |dead|
  {
    && n <= |chunks|
    && (n > 0 ==> StillOpen(dead, prefix, k, chunks, n - 1))
    && (n < |chunks| ==> n > 0 && FeedAll(dead, prefix, k, Concat(chunks[..n])).quit)
  }

  /** The loop quits exactly when the whole input would, and then or never stops short of it. */
  lemma StopState(dead: seq<bool>, prefix: Byte, k: Keys, chunks: seq<seq<Byte>>, n: nat)
    requires k.focus < |dead|
    requires StopsAfter(dead, prefix, k, chunks, n)
    ensures Concat(chunks[..n]) <= Concat(chunks)
    ensures var x, whole := FeedAll(dead, prefix, k, Concat(chunks[..n])), FeedAll(dead, prefix, k, Concat(chunks));
            x.quit == whole.quit && (!x.quit ==> x == whole)
  {
    ConcatPrefix(chunks, n);
    FeedPrefix(dead, prefix, k, Concat(chunks[..n]), Concat(chunks));
    if n == |chunks| {
      assert chunks[..n] == chunks;
    }
  }

  /** Where the loop stops, everything typed before the quit key has been handled. */
  lemma StopCovers(dead: seq<bool>, prefix: Byte, k: Keys, chunks: seq<seq<Byte>>, n: nat, j: nat)
    requires k.focus < |dead|
    requires StopsAfter(dead, prefix, k, chunks, n)
    requires j <= |Concat(chunks)| && !FeedAll(dead, prefix, k, Concat(chunks)[..j]).quit
    ensures FeedAll(dead, prefix, k, Concat(chunks)[..j]).sent
         <= FeedAll(dead, prefix, k, Concat(chunks[..n])).sent
  {
    var s, c := Concat(chunks), Concat(chunks[..n]);
    assert chunks[..|chunks|] == chunks;
    StopState(dead, prefix, k, chunks, n);
    if j <= |c| {
      FeedPrefix(dead, prefix, k, s[..j], c);
    } else {
      FeedPrefix(dead, prefix, k, c, s[..j]);
    }
  }

  /**
    Two ways of cutting the same input into reads: both quit or neither does, without a
    quit they end in the same state, and with one the sent items of the one that read
    less are a prefix of the other's. (StopCovers: nothing before the quit key is missing.)
  */
  lemma CuttingDoesNotMatter(dead: seq<bool>, prefix: Byte, k: Keys, a: seq<seq<Byte>>, b: seq<seq<Byte>>, m: nat,
                             n: nat)
    requires k.focus < |dead|
    requires Concat(a) == Concat(b)
    requires StopsAfter(dead, prefix, k, a, m) && StopsAfter(dead, prefix, k, b, n)
    ensures var x, y := FeedAll(dead, prefix, k, Concat(a[..m])), FeedAll(dead, prefix, k, Concat(b[..n]));
            && x.quit == y.quit
            && (!x.quit ==> x == y)
            && (x.sent <= y.sent || y.sent <= x.sent)
  {
    StopState(dead, prefix, k, a, m);
    StopState(dead, prefix, k, b, n);
    var c, d := Concat(a[..m]), Concat(b[..n]);
    if |c| <= |d| {
      FeedPrefix(dead, prefix, k, c, d);
    } else {
      FeedPrefix(dead, prefix, k, d, c);
    }
  }

  // ---- the doubled prefix ---------------------------------------------------------------

  function KeysTo(session: nat, s: seq<Byte>): (r: seq<Item>)
    ensures |r| == |s|
  {
    seq(|s|, i requires 0 <= i < |s| => Key(session, s[i]))
  }

  /** The typed bytes among the items sent, in order. */
  function Typed(items: seq<Item>): seq<Byte> {
    if items == [] then []
    else Typed(items[..|items| - 1]) + (if items[|items| - 1].Key? then [items[|items| - 1].b] else [])
  }

  lemma FeedOne(dead: seq<bool>, prefix: Byte, k: Keys, b: Byte)
    requires k.focus < |dead|
    ensures FeedAll(dead, prefix, k, [b]) == Feed(dead, prefix, k, b)
  {
    assert [b][..0] == [];
  }

  /** The focus and a redraw go to session idx if it is there, live and not focused yet. */
  ghost predicate Selects(dead: seq<bool>, k: Keys, idx: int, r: Keys) {
    r == if 0 <= idx < |dead| && !dead[idx] && idx != k.focus
         then k.(focus := idx, sent := k.sent + [Redraw(idx)]) else k
  }

  /**
    What two keys do, the first one being the prefix: a digit selects the session of that
    number counted from one, 'n' the nearest live one after the focus, 'q' quits, the
    prefix again is typed, and anything else is swallowed. A key on its own is typed.
  */
  lemma KeysDo(dead: seq<bool>, prefix: Byte, k: Keys, b: Byte, j: int, o: int)
    requires k.focus < |dead| && !k.armed
    ensures b != prefix ==> FeedAll(dead, prefix, k, [b]) == k.(sent := k.sent + [Key(k.focus, b)])
    ensures var r := FeedAll(dead, prefix, k, [prefix, b]);
            && ('1' as int <= b <= '9' as int ==> Selects(dead, k, b - '1' as int, r))
            && (b == 'n' as int && Nearest(dead, k.focus, j, o) ==> Selects(dead, k, j, r))
            && (b == 'n' as int && AllDead(dead) ==> r == k)
            && (b == 'q' as int ==> r == k.(quit := true))
            && (!('1' as int <= b <= '9' as int) && b != 'n' as int && b != 'q' as int ==>
                  r == if b == prefix then k.(sent := k.sent + [Key(k.focus, prefix)]) else k)
  {
    FeedOne(dead, prefix, k, b);
    PrefixThen(dead, prefix, k, b);
    NextIsNearest(dead, k.focus, j, o);
  }

  lemma PrefixThen(dead: seq<bool>, prefix: Byte, k: Keys, b: Byte)
    requires k.focus < |dead| && !k.armed
    ensures FeedAll(dead, prefix, k, [prefix, b]) == Command(dead, prefix, k, b)
  {
    FeedAppend(dead, prefix, k, [prefix], [b]);
    assert [prefix] + [b] == [prefix, b];
    FeedOne(dead, prefix, k, prefix);
    assert FeedAll(dead, prefix, k, [prefix]) == k.(armed := true);
    FeedOne(dead, prefix, k.(armed := true), b);
    assert k.(armed := true).(armed := false) == k;
  }

  /** With every prefix doubled the focused session gets exactly the original bytes. */
  lemma {:induction false} DoubledDelivers(dead: seq<bool>, prefix: Byte, k: Keys, s: seq<Byte>)
    requires k.focus < |dead| && !k.armed
    requires !IsCommand(prefix)
    ensures FeedAll(dead, prefix, k, Doubled(s, prefix)) == k.(sent := k.sent + KeysTo(k.focus, s))
    decreases |s|
  {
    if s == [] {
      assert k.sent + KeysTo(k.focus, s) == k.sent;
    } else {
      var t, b := LastByte(s);
      DoubledDelivers(dead, prefix, k, t);
      DoubledSnoc(t, b, prefix);
      DeliveredNext(dead, prefix, k, Doubled(t, prefix), b);
      KeysToSnoc(k.sent, k.focus, t, b);
    }
  }

  lemma LastByte(s: seq<Byte>) returns (t: seq<Byte>, b: Byte)
    requires s != []
    ensures s == t + [b] && |t| == |s| - 1
  {
    t, b := s[..|s| - 1], s[|s| - 1];
  }

  lemma KeysToSnoc(items: seq<Item>, session: nat, s: seq<Byte>, b: Byte)
    ensures (items + KeysTo(session, s)) + [Key(session, b)] == items + KeysTo(session, s + [b])
  {
  }

  lemma DeliveredNext(dead: seq<bool>, prefix: Byte, k: Keys, d: seq<Byte>, b: Byte)
    requires k.focus < |dead| && !IsCommand(prefix) && !FeedAll(dead, prefix, k, d).armed
    ensures var k', more := FeedAll(dead, prefix, k, d), if b == prefix then [prefix, prefix] else [b];
            FeedAll(dead, prefix, k, d + more) == k'.(sent := k'.sent + [Key(k'.focus, b)])
  {
    var k' := FeedAll(dead, prefix, k, d);
    if b == prefix {
      FeedAppend(dead, prefix, k, d, [prefix, prefix]);
      PrefixThen(dead, prefix, k', prefix);
    } else {
      FeedAppend(dead, prefix, k, d, [b]);
      FeedOne(dead, prefix, k', b);
    }
  }

  lemma TypedSnoc(items: seq<Item>, item: Item)
    ensures Typed(items + [item]) == Typed(items) + (if item.Key? then [item.b] else [])
  {
    assert (items + [item])[..|items|] == items;
  }

  lemma CommandTypesNothing(dead: seq<bool>, prefix: Byte, k: Keys)
    requires k.focus < |dead| && IsCommand(prefix)
    ensures Typed(Command(dead, prefix, k, prefix).sent) == Typed(k.sent)
  {
    var r := Command(dead, prefix, k, prefix);
    if r.sent != k.sent {
      TypedSnoc(k.sent, Redraw(r.focus));
    }
  }

  /** What is left of the doubled s: none of the prefixes. */
  ghost predicate Eaten(dead: seq<bool>, prefix: Byte, k: Keys, s: seq<Byte>, d: seq<Byte>)
    requires k.focus < |dead|
  {
    var r := FeedAll(dead, prefix, k, d);
    !r.armed && Typed(r.sent) == Typed(k.sent) + Without(s, prefix)
  }

  /** A prefix that is itself a command key eats every doubled prefix. */
  lemma {:induction false} DoubledCommandIsEaten(dead: seq<bool>, prefix: Byte, k: Keys, s: seq<Byte>)
    requires k.focus < |dead| && !k.armed
    requires IsCommand(prefix)
    ensures Eaten(dead, prefix, k, s, Doubled(s, prefix))
    decreases |s|
  {
    if s == [] {
      assert Typed(k.sent) + [] == Typed(k.sent);
    } else {
      var t, b := LastByte(s);
      DoubledCommandIsEaten(dead, prefix, k, t);
      DoubledSnoc(t, b, prefix);
      EatenNext(dead, prefix, k, t, b, Doubled(t, prefix));
    }
  }

  lemma {:induction false} EatenNext(dead: seq<bool>, prefix: Byte, k: Keys, s: seq<Byte>, b: Byte, d: seq<Byte>)
    requires k.focus < |dead| && IsCommand(prefix) && Eaten(dead, prefix, k, s, d)
    ensures Eaten(dead, prefix, k, s + [b], d + (if b == prefix then [prefix, prefix] else [b]))
  {
    DoubledSnoc(s, b, prefix);
    if b == prefix {
      DoubledPrefixIsEaten(dead, prefix, k, d);
    } else {
      OtherByteIsTyped(dead, prefix, k, d, b);
      AppendAssociates(Typed(k.sent), Without(s, prefix), [b]);
    }
  }

  lemma AppendAssociates(a: seq<Byte>, b: seq<Byte>, c: seq<Byte>)
    ensures (a + b) + c == a + (b + c)
  {
  }

  lemma DoubledPrefixIsEaten(dead: seq<bool>, prefix: Byte, k: Keys, d: seq<Byte>)
    requires k.focus < |dead| && IsCommand(prefix) && !FeedAll(dead, prefix, k, d).armed
    ensures var r := FeedAll(dead, prefix, k, d + [prefix, prefix]);
            !r.armed && Typed(r.sent) == Typed(FeedAll(dead, prefix, k, d).sent)
  {
    var k' := FeedAll(dead, prefix, k, d);
    FeedAppend(dead, prefix, k, d, [prefix, prefix]);
    PrefixThen(dead, prefix, k', prefix);
    CommandTypesNothing(dead, prefix, k');
  }

  lemma OtherByteIsTyped(dead: seq<bool>, prefix: Byte, k: Keys, d: seq<Byte>, b: Byte)
    requires k.focus < |dead| && b != prefix && !FeedAll(dead, prefix, k, d).armed
    ensures var r := FeedAll(dead, prefix, k, d + [b]);
            !r.armed && Typed(r.sent) == Typed(FeedAll(dead, prefix, k, d).sent) + [b]
  {
    var k' := FeedAll(dead, prefix, k, d);
    FeedAppend(dead, prefix, k, d, [b]);
    FeedOne(dead, prefix, k', b);
    TypedSnoc(k'.sent, Key(k'.focus, b));
  }

  lemma {:induction false} TypedKeysTo(items: seq<Item>, session: nat, s: seq<Byte>)
    ensures Typed(items + KeysTo(session, s)) == Typed(items) + s
    decreases |s|
  {
    if s == [] {
      assert items + KeysTo(session, s) == items;
    } else {
      var n := |s| - 1;
      TypedKeysTo(items, session, s[..n]);
      TypedSnoc(items + KeysTo(session, s[..n]), Key(session, s[n]));
      assert items + KeysTo(session, s) == items + KeysTo(session, s[..n]) + [Key(session, s[n])];
      assert s == s[..n] + [s[n]];
    }
  }

  /** Doubling gets the original bytes through exactly when the prefix is not a command key in use. */
  lemma DoublingExact(dead: seq<bool>, prefix: Byte, k: Keys, s: seq<Byte>)
    requires k.focus < |dead| && !k.armed
    ensures Typed(FeedAll(dead, prefix, k, Doubled(s, prefix)).sent) == Typed(k.sent) + s
       <==> (IsCommand(prefix) ==> prefix !in s)
  {
    if IsCommand(prefix) {
      DoubledCommandIsEaten(dead, prefix, k, s);
    } else {
      DoubledDelivers(dead, prefix, k, s);
      TypedKeysTo(k.sent, k.focus, s);
    }
  }

  // ---- the object -------------------------------------------------------------------------

  /** Frames as they go out: a run of typed bytes travels in one data frame. */
  datatype Frame = Data(session: nat, bytes: seq<Byte>) | Repaint(session: nat)

  function Unframed(f: Frame): seq<Item> {
    match f
    case Data(session, bytes) => KeysTo(session, bytes)
    case Repaint(session) => [Redraw(session)]
  }

  function Items(frames: seq<Frame>): seq<Item> {
    if frames == [] then [] else Items(frames[..|frames| - 1]) + Unframed(frames[|frames| - 1])
  }

  lemma ItemsSnoc(frames: seq<Frame>, f: Frame)
    ensures Items(frames + [f]) == Items(frames) + Unframed(f)
  {
    assert (frames + [f])[..|frames|] == frames;
  }

  class Mux {
    const prefix: Byte
    var dead: seq<bool>
    var focus: nat
    var quit: bool
    var frames: seq<Frame>

    constructor (n: nat, prefix: Byte)
      requires n > 0
      ensures FocusInv(Shared()) && Shared() == Initial(n)
      ensures this.prefix == prefix && frames == []
    {
      this.prefix := prefix;
      dead := seq(n, i => false);
      focus, quit, frames := 0, false, [];
      new;
      assert !dead[0];
    }

    /** The fields as the focus machine sees them between operations. */
    ghost function Shared(): View
      reads this
    {
      View(dead, focus, -1, false, quit)
    }

    ghost function Typing(armed: bool): Keys
      reads this
    {
      Keys(armed, focus, quit, Items(frames))
    }

    method NextLiveLocked() returns (next: int)
      requires focus < |dead|
      ensures next == NextLive(dead, focus)
      ensures next == -1 <==> AllDead(dead)
      ensures next != -1 ==> exists off :: Nearest(dead, focus, next, off)
    {
      var off := 1;
      while off <= |dead|
        invariant 1 <= off <= |dead| + 1
        invariant forall o :: 1 <= o < off ==> dead[After(|dead|, focus, o)]
      {
        var j := After(|dead|, focus, off);
        if !dead[j] {
          assert Nearest(dead, focus, j, off);
          var o :| Nearest(dead, focus, NextLive(dead, focus), o);
          NearestIsUnique(dead, focus, j, off, NextLive(dead, focus), o);
          return j;
        }
        off := off + 1;
      }
      NoneNear(dead, focus);
      return -1;
    }

    method SwitchTo(idx: int)
      requires focus < |dead|
      modifies this`focus, this`frames
      ensures Shared() == Refocus(old(Shared()), idx)
      ensures forall armed :: Typing(armed) == Focus(dead, old(Typing(armed)), idx)
    {
      if idx < 0 || idx >= |dead| || dead[idx] || idx == focus {
        return;
      }
      focus := idx;
      ItemsSnoc(frames, Repaint(idx));
      frames := frames + [Repaint(idx)];
    }

    /** A session's reader failed: mark it, and move the focus in the same lock region. */
    method OnSessionEnd(i: nat)
      requires FocusInv(Shared()) && i < |dead|
      modifies this
      ensures FocusInv(Shared())
      ensures Shared() == Step(Step(old(Shared()), End(i)), Close)
      ensures i != old(focus) ==> focus == old(focus)
    {
      EndKeepsFocus(Shared(), i);
      StepKeepsFocus(EndLocked(Shared(), i), Close);
      if dead[i] {
        return;
      }
      dead := dead[i := true];
      var wasFocus := i == focus;
      var next := NextLiveLocked();
      if next < 0 {
        quit := true;
        return;
      }
      if !wasFocus {
        return;
      }
      focus := next;
      frames := frames + [Repaint(next)];
    }

    method Forward(bytes: seq<Byte>)
      modifies this`frames
      ensures Items(frames) == old(Items(frames)) + KeysTo(focus, bytes)
    {
      ItemsSnoc(frames, Data(focus, bytes));
      frames := frames + [Data(focus, bytes)];
    }

    method RunCommand(b: Byte)
      requires focus < |dead|
      modifies this`focus, this`frames, this`quit
      ensures focus < |dead|
      ensures Typing(false) == Command(dead, prefix, old(Typing(false)), b)
    {
      if KEY_1 <= b <= KEY_9 {
        SwitchTo(b - KEY_1);
      } else if b == KEY_N {
        var next := NextLiveLocked();
        if next >= 0 {
          SwitchTo(next);
        }
      } else if b == KEY_Q {
        quit := true;
      } else if b == prefix {
        assert KeysTo(focus, [prefix]) == [Key(focus, prefix)];
        Forward([prefix]);
      }
    }

    method Flush(run: seq<Byte>)
      modifies this`frames
      ensures Items(frames) == old(Items(frames)) + KeysTo(focus, run)
    {
      if |run| > 0 {
        Forward(run);
      } else {
        assert Items(frames) + KeysTo(focus, run) == Items(frames);
      }
    }

    /** What the sessions will have received once the batched run is flushed. */
    ghost function Pending(armed: bool, run: seq<Byte>): Keys
      reads this
    {
      Keys(armed, focus, quit, Items(frames) + KeysTo(focus, run))
    }

    method HandleByte(b: Byte, wasArmed: bool, batch: seq<Byte>) returns (armed: bool, run: seq<Byte>)
      requires focus < |dead|
      modifies this`focus, this`frames, this`quit
      ensures focus < |dead|
      ensures Pending(armed, run) == Feed(dead, prefix, old(Pending(wasArmed, batch)), b)
    {
      if wasArmed {
        Flush(batch);
        RunCommand(b);
        armed, run := false, [];
        assert Items(frames) + KeysTo(focus, run) == Items(frames);
      } else if b == prefix {
        Flush(batch);
        armed, run := true, [];
        assert Items(frames) + KeysTo(focus, run) == Items(frames);
      } else {
        armed, run := false, batch + [b];
        assert KeysTo(focus, run) == KeysTo(focus, batch) + [Key(focus, b)];
        assert Items(frames) + KeysTo(focus, run) == Items(frames) + KeysTo(focus, batch) + [Key(focus, b)];
      }
    }

    /** One read: bytes are batched into runs, yet reach the sessions as if fed singly. */
    method HandleRead(chunk: seq<Byte>, wasArmed: bool) returns (armed: bool)
      requires focus < |dead|
      modifies this`focus, this`frames, this`quit
      ensures focus < |dead|
      ensures Typing(armed) == FeedAll(dead, prefix, old(Typing(wasArmed)), chunk)
    {
      armed := wasArmed;
      var run: seq<Byte> := [];
      ghost var k0 := Typing(wasArmed);
      assert Items(frames) + KeysTo(focus, run) == Items(frames);
      for i := 0 to |chunk|
        invariant focus < |dead|
        invariant Pending(armed, run) == FeedAll(dead, prefix, k0, chunk[..i])
      {
        assert chunk[..i + 1][..i] == chunk[..i];
        armed, run := HandleByte(chunk[i], armed, run);
      }
      Flush(run);
      assert chunk[..|chunk|] == chunk;
    }

    /** Reads until a read leaves the mux quit or the input ends. */
    method ReadStdin(chunks: seq<seq<Byte>>) returns (n: nat, armed: bool)
      requires focus < |dead|
      modifies this`focus, this`frames, this`quit
      ensures focus < |dead|
      ensures StopsAfter(dead, prefix, old(Typing(false)), chunks, n)
      ensures Typing(armed) == FeedAll(dead, prefix, old(Typing(false)), Concat(chunks[..n]))
    {
      n, armed := 0, false;
      ghost var k := Typing(false);
      while n < |chunks|
        invariant focus < |dead|
        invariant n <= |chunks|
        invariant Typing(armed) == FeedAll(dead, prefix, k, Concat(chunks[..n]))
        invariant StillOpen(dead, prefix, k, chunks, n)
      {
        OneMoreRead(dead, prefix, k, chunks, n);
        armed := HandleRead(chunks[n], armed);
        n := n + 1;
        if quit {
          return;
        }
      }
    }
  }
}
