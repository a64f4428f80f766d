/** Recency stamps from a logical clock, as both bounded relay stores use them. */
module Lru {
  import opened Wrappers

  datatype Stamped<+V> = Stamped(value: V, seen: nat)

  /** Stamps come from a clock that ticks on every touch: none is ahead of it and
      no two entries share one. */
  ghost predicate Ticked<K(!new), V>(m: map<K, Stamped<V>>, clock: nat) {
    && (forall k :: k in m ==> m[k].seen <= clock)
    && (forall a, b :: a in m && b in m && m[a].seen == m[b].seen ==> a == b)
  }

  ghost predicate IsOldest<K(!new), V>(m: map<K, Stamped<V>>, k: K) {
    k in m && forall a :: a in m ==> m[k].seen <= m[a].seen
  }

  lemma {:induction false} OldestExists<K(!new), V>(m: map<K, Stamped<V>>)
    requires m != map[]
    ensures exists k :: IsOldest(m, k)
    decreases |m|
  {
    var k :| k in m;
    var rest := m - {k};
    assert rest.Keys == m.Keys - {k};
    if rest == map[] {
      assert m.Keys == {k} + rest.Keys;
      assert IsOldest(m, k);
    } else {
      OldestExists(rest);
      var r :| IsOldest(rest, r);
      assert IsOldest(m, if m[k].seen <= m[r].seen then k else r);
    }
  }

  ghost function Oldest<K(!new), V>(m: map<K, Stamped<V>>): (k: K)
    requires m != map[]
    ensures IsOldest(m, k)
  {
    OldestExists(m);
    var k :| IsOldest(m, k);
    k
  }

  /** The eviction scan, whatever order the map is iterated in. */
  method FindOldest<K(==, !new), V>(m: map<K, Stamped<V>>) returns (oldest: Option<K>)
    ensures oldest == None <==> m == map[]
    ensures oldest != None ==> IsOldest(m, oldest.value)
  {
    oldest := None;
    var rest := m.Keys;
    while rest != {}
      invariant rest <= m.Keys
      invariant oldest == None <==> rest == m.Keys
      invariant oldest != None ==> oldest.value in m
      invariant oldest != None ==> forall a :: a in m && a !in rest ==> m[oldest.value].seen <= m[a].seen
      decreases rest
    {
      var k :| k in rest;
      if oldest == None || m[k].seen < m[oldest.value].seen {
        oldest := Some(k);
      }
      rest := rest - {k};
    }
  }

  /** With ticked stamps the least recently touched entry is unique: every other
      entry was touched strictly later. */
  lemma OldestIsUnique<K(!new), V>(m: map<K, Stamped<V>>, clock: nat, k: K, other: K)
    requires Ticked(m, clock) && IsOldest(m, k) && other in m && other != k
    ensures m[k].seen < m[other].seen && !IsOldest(m, other)
  {
  }

  lemma TouchKeepsTicked<K(!new), V>(m: map<K, Stamped<V>>, clock: nat, k: K, v: V)
    requires Ticked(m, clock)
    ensures Ticked(m[k := Stamped(v, clock + 1)], clock + 1)
  {
  }

  lemma RemoveKeepsTicked<K(!new), V>(m: map<K, Stamped<V>>, clock: nat, k: K)
    requires Ticked(m, clock)
    ensures Ticked(m - {k}, clock)
    ensures k in m ==> |m - {k}| == |m| - 1
  {
    SizeAfterRemove(m, k);
  }

  /** The map after making room for a new key. */
  ghost function Evicted<K(!new), V>(m: map<K, Stamped<V>>, max: nat): map<K, Stamped<V>> {
    if m != map[] && |m| >= max then m - {Oldest(m)} else m
  }

  lemma EvictionKeeps<K(!new), V>(m: map<K, Stamped<V>>, clock: nat, max: nat)
    requires Ticked(m, clock)
    ensures Ticked(Evicted(m, max), clock) && Evicted(m, max).Keys <= m.Keys
    ensures max > 0 && |m| <= max ==> |Evicted(m, max)| < max
  {
    if m != map[] { RemoveKeepsTicked(m, clock, Oldest(m)); }
  }

  lemma {:induction false} SubsetSize<T>(a: set<T>, b: set<T>)
    requires a <= b
    ensures |a| <= |b|
    decreases |a|
  {
    if a != {} {
      var x :| x in a;
      SubsetSize(a - {x}, b - {x});
    }
  }

  /** Inserting a new key after making room stays within a positive bound and keeps the stamps distinct. */
  lemma InsertKeepsBound<K(!new), V>(m: map<K, Stamped<V>>, room: map<K, Stamped<V>>, clock: nat, max: nat, k: K, v: V)
    requires Ticked(m, clock) && k !in m && (max > 0 ==> |m| <= max)
    requires room == if max > 0 then Evicted(m, max) else m
    ensures Ticked(room[k := Stamped(v, clock + 1)], clock + 1)
    ensures max > 0 ==> |room[k := Stamped(v, clock + 1)]| <= max
  {
    EvictionKeeps(m, clock, max);
    TouchKeepsTicked(room, clock, k, v);
    SizeAfterPut(room, k, Stamped(v, clock + 1));
  }
}

/** The fixed-window request limiter (go/internal/signal/ratelimit.go). */
module RateLimit {
  import opened Wrappers
  import opened Lru

  /** The limiter key path|ip, kept as a pair. */
  datatype Key = Key(path: string, ip: string)

  datatype Policy = Policy(limit: int, window: int)

  datatype Window = Window(count: nat, start: int)

  datatype Request = Request(key: Key, now: int)

  datatype Limiter = Limiter(policies: map<string, Policy>, max: nat, clock: nat, entries: map<Key, Stamped<Window>>)

  predicate Limited(l: Limiter, key: Key) {
    key.path in l.policies && l.policies[key.path].limit > 0 && l.policies[key.path].window > 0
  }

  /** The window after a request at `now`, and whether it is admitted. */
  function NextWindow(w: Window, now: int, p: Policy): (Window, bool) {
    if now - w.start >= p.window then (Window(1, now), true)
    else if w.count >= p.limit then (w, false)
    else (Window(w.count + 1, w.start), true)
  }

  ghost function Room(l: Limiter): map<Key, Stamped<Window>> {
    if l.max > 0 then Evicted(l.entries, l.max) else l.entries
  }

  /** allow: the new state and the decision. */
  ghost function Allow(l: Limiter, r: Request): (Limiter, bool) {
    if !Limited(l, r.key) then (l, true) else
      var clock := l.clock + 1;
      if r.key !in l.entries then
        (l.(clock := clock, entries := Room(l)[r.key := Stamped(Window(1, r.now), clock)]), true)
      else
        var (w, ok) := NextWindow(l.entries[r.key].value, r.now, l.policies[r.key.path]);
        (l.(clock := clock, entries := l.entries[r.key := Stamped(w, clock)]), ok)
  }

  ghost function Run(l: Limiter, rs: seq<Request>): Limiter {
    if rs == [] then l else Allow(Run(l, rs[..|rs| - 1]), rs[|rs| - 1]).0
  }

  // ---- Bounded, with distinct stamps ----

  ghost predicate Bounded(l: Limiter) {
    Ticked(l.entries, l.clock) && (l.max > 0 ==> |l.entries| <= l.max)
  }

  lemma AllowBounded(l: Limiter, r: Request)
    requires Bounded(l)
    ensures Bounded(Allow(l, r).0) && Allow(l, r).0.policies == l.policies && Allow(l, r).0.max == l.max
  {
    if Limited(l, r.key) {
      if r.key !in l.entries {
        InsertKeepsBound(l.entries, Room(l), l.clock, l.max, r.key, Window(1, r.now));
      } else {
        var w := NextWindow(l.entries[r.key].value, r.now, l.policies[r.key.path]).0;
        TouchKeepsTicked(l.entries, l.clock, r.key, w);
        SizeAfterPut(l.entries, r.key, Stamped(w, l.clock + 1));
      }
    }
  }

  /** After any requests the table is within its bound and its stamps are distinct,
      so whatever the iteration order an eviction removes the one key that was
      touched least recently. */
  lemma {:induction false} TableStaysBounded(l: Limiter, rs: seq<Request>)
    requires Bounded(l)
    ensures Bounded(Run(l, rs)) && Run(l, rs).policies == l.policies && Run(l, rs).max == l.max
    decreases |rs|
  {
    if rs != [] {
      TableStaysBounded(l, rs[..|rs| - 1]);
      AllowBounded(Run(l, rs[..|rs| - 1]), rs[|rs| - 1]);
    }
  }

  // ---- At most two windows' worth in any window ----

  ghost predicate Nondecreasing(rs: seq<Request>) {
    forall i, j :: 0 <= i < j < |rs| ==> rs[i].now <= rs[j].now
  }

  ghost function Keys(rs: seq<Request>): set<Key> { set i | 0 <= i < |rs| :: rs[i].key }

  /** The keys that enter the table: those on a path with a policy. */
  ghost function LimitedKeys(l: Limiter, rs: seq<Request>): set<Key> {
    set i | 0 <= i < |rs| && Limited(l, rs[i].key) :: rs[i].key
  }

  /** Requests for `key` admitted in [from, to). */
  ghost function Admitted(l: Limiter, rs: seq<Request>, key: Key, from: int, to: int): nat {
    if rs == [] then 0 else
      var n := |rs| - 1;
      Admitted(l, rs[..n], key, from, to)
      + if rs[n].key == key && from <= rs[n].now < to && Allow(Run(l, rs[..n]), rs[n]).1 then 1 else 0
  }

  /** How many were admitted so far, given where the key's current window started. */
  ghost predicate Tally(l: Limiter, key: Key, limit: int, window: int, from: int, last: int, admitted: nat) {
    if key !in l.entries then admitted == 0 else
      var w := l.entries[key].value;
      && 1 <= w.count <= limit && w.start <= last
      && (last < from ==> admitted == 0)
      && (w.start < from ==> admitted <= w.count - 1)
      && (from <= w.start < from + window ==> admitted <= limit - 1 + w.count)
      && admitted <= 2 * limit - 1
  }

  lemma TallyOwn(l: Limiter, r: Request, from: int, last: int, admitted: nat)
    requires Limited(l, r.key) && last <= r.now
    requires var p := l.policies[r.key.path]; Tally(l, r.key, p.limit, p.window, from, last, admitted)
    ensures var p := l.policies[r.key.path];
            var (l', ok) := Allow(l, r);
            Tally(l', r.key, p.limit, p.window, from, r.now,
                  admitted + if from <= r.now < from + p.window && ok then 1 else 0)
  {
  }

  lemma NoEviction(l: Limiter, r: Request, keys: set<Key>)
    requires l.entries.Keys <= keys && (Limited(l, r.key) ==> r.key in keys) && (l.max > 0 ==> |keys| <= l.max)
    ensures Allow(l, r).0.entries.Keys <= keys
    ensures forall k :: k in l.entries && k != r.key ==>
        k in Allow(l, r).0.entries && Allow(l, r).0.entries[k] == l.entries[k]
    ensures forall k :: k != r.key && k in Allow(l, r).0.entries ==> k in l.entries
  {
    if Limited(l, r.key) && r.key !in l.entries {
      assert l.entries.Keys <= keys - {r.key};
      SubsetSize(l.entries.Keys, keys - {r.key});
      assert |l.entries| == |l.entries.Keys|;
    }
  }

  lemma KeysOfPrefix(l: Limiter, rs: seq<Request>, n: nat)
    requires n < |rs|
    ensures LimitedKeys(l, rs[..n]) <= LimitedKeys(l, rs)
    ensures Limited(l, rs[n].key) ==> rs[n].key in LimitedKeys(l, rs)
  {
    forall k | k in LimitedKeys(l, rs[..n]) ensures k in LimitedKeys(l, rs) {
      var i :| 0 <= i < n && Limited(l, rs[..n][i].key) && rs[..n][i].key == k;
      assert rs[i].key == k;
    }
  }

  lemma {:induction false} RunTally(l: Limiter, rs: seq<Request>, keys: set<Key>, key: Key, from: int)
    requires l.entries == map[] && Limited(l, key) && Nondecreasing(rs)
    requires LimitedKeys(l, rs) <= keys && (l.max > 0 ==> |keys| <= l.max)
    ensures var p := l.policies[key.path];
            var s := Run(l, rs);
            && s.policies == l.policies && s.max == l.max && s.entries.Keys <= keys
            && (rs == [] ==> Admitted(l, rs, key, from, from + p.window) == 0 && key !in s.entries)
            && (rs != [] ==> Tally(s, key, p.limit, p.window, from, rs[|rs| - 1].now,
                                   Admitted(l, rs, key, from, from + p.window)))
    decreases |rs|
  {
    if rs != [] {
      var n := |rs| - 1;
      var p := l.policies[key.path];
      KeysOfPrefix(l, rs, n);
      RunTally(l, rs[..n], keys, key, from);
      var s := Run(l, rs[..n]);
      TallyNext(s, rs[n], keys, key, from, if n == 0 then rs[n].now else rs[n - 1].now,
                Admitted(l, rs[..n], key, from, from + p.window));
    }
  }

  lemma TallyNext(s: Limiter, r: Request, keys: set<Key>, key: Key, from: int, last: int, admitted: nat)
    requires Limited(s, key) && last <= r.now
    requires s.entries.Keys <= keys && (Limited(s, r.key) ==> r.key in keys) && (s.max > 0 ==> |keys| <= s.max)
    requires Tally(s, key, s.policies[key.path].limit, s.policies[key.path].window, from, last, admitted)
    ensures var p := s.policies[key.path];
            var (s', ok) := Allow(s, r);
            && s'.policies == s.policies && s'.max == s.max && s'.entries.Keys <= keys
            && Tally(s', key, p.limit, p.window, from, r.now,
                     admitted + if r.key == key && from <= r.now < from + p.window && ok then 1 else 0)
  {
    NoEviction(s, r, keys);
    if r.key == key {
      TallyOwn(s, r, from, last, admitted);
    }
  }

  /** With nondecreasing time and no more limited keys than the table holds, any
      half-open interval one window long admits fewer than twice the limit per key. */
  lemma FewerThanTwiceTheLimit(l: Limiter, rs: seq<Request>, key: Key, from: int)
    requires l.entries == map[] && Limited(l, key) && Nondecreasing(rs)
    requires l.max > 0 ==> |LimitedKeys(l, rs)| <= l.max
    ensures var p := l.policies[key.path]; Admitted(l, rs, key, from, from + p.window) <= 2 * p.limit - 1
  {
    RunTally(l, rs, LimitedKeys(l, rs), key, from);
  }

  // ---- What one window admits, exactly ----

  function Own(rs: seq<Request>, key: Key): nat {
    if rs == [] then 0 else Own(rs[..|rs| - 1], key) + if rs[|rs| - 1].key == key then 1 else 0
  }

  function Min(a: int, b: int): int { if a < b then a else b }

  /** The key's window after `own` more requests inside it. */
  ghost predicate WindowAfter(l: Limiter, key: Key, w: Window, own: nat) {
    && Limited(l, key) && key in l.entries
    && l.entries[key].value.start == w.start
    && l.entries[key].value.count == Min(l.policies[key.path].limit, w.count + own)
  }

  lemma WindowStep(l: Limiter, r: Request, keys: set<Key>, key: Key, w: Window, own: nat)
    requires WindowAfter(l, key, w, own) && 1 <= w.count <= l.policies[key.path].limit
    requires l.entries.Keys <= keys && (Limited(l, r.key) ==> r.key in keys) && (l.max > 0 ==> |keys| <= l.max)
    requires r.key == key ==> r.now < w.start + l.policies[key.path].window
    ensures var (l', ok) := Allow(l, r);
            && l'.policies == l.policies && l'.max == l.max && l'.entries.Keys <= keys
            && WindowAfter(l', key, w, if r.key == key then own + 1 else own)
            && (r.key == key ==> (ok <==> w.count + own < l.policies[key.path].limit))
  {
    NoEviction(l, r, keys);
  }

  /** While a window lasts its start never moves, refused requests included: of the
      key's requests exactly the first ones are admitted, up to the limit. */
  lemma {:induction false} WindowAdmitsTheLimit(l: Limiter, rs: seq<Request>, keys: set<Key>, key: Key)
    requires Limited(l, key) && key in l.entries
    requires 1 <= l.entries[key].value.count <= l.policies[key.path].limit
    requires l.entries.Keys <= keys && LimitedKeys(l, rs) <= keys && (l.max > 0 ==> |keys| <= l.max)
    requires var w := l.entries[key].value;
             forall i :: 0 <= i < |rs| && rs[i].key == key ==>
               w.start <= rs[i].now < w.start + l.policies[key.path].window
    ensures var w, p := l.entries[key].value, l.policies[key.path];
            var s := Run(l, rs);
            && s.policies == l.policies && s.max == l.max && s.entries.Keys <= keys
            && WindowAfter(s, key, w, Own(rs, key))
            && Admitted(l, rs, key, w.start, w.start + p.window) == Min(p.limit - w.count, Own(rs, key))
    decreases |rs|
  {
    if rs != [] {
      var n := |rs| - 1;
      KeysOfPrefix(l, rs, n);
      WindowAdmitsTheLimit(l, rs[..n], keys, key);
      WindowStep(Run(l, rs[..n]), rs[n], keys, key, l.entries[key].value, Own(rs[..n], key));
    }
  }

  /** A request of a key the table does not hold is admitted and opens a window. */
  lemma WindowOpens(l: Limiter, first: Request)
    requires Limited(l, first.key) && first.key !in l.entries
    ensures var (l', ok) := Allow(l, first);
            && ok && l'.policies == l.policies && l'.max == l.max
            && first.key in l'.entries && l'.entries[first.key].value == Window(1, first.now)
  {
  }

  lemma WindowEnds(l: Limiter, key: Key, w: Window, own: nat, later: int)
    requires WindowAfter(l, key, w, own) && later >= w.start + l.policies[key.path].window
    ensures var (l', ok) := Allow(l, Request(key, later));
            ok && key in l'.entries && l'.entries[key].value == Window(1, later)
  {
  }

  /** A window just opened admits exactly `limit` requests counting the one that opened
      it, and the first request at its end or later opens the next. */
  lemma {:induction false} WindowReopens(l: Limiter, rs: seq<Request>, keys: set<Key>, key: Key, later: int)
    requires Limited(l, key) && key in l.entries && l.entries[key].value.count == 1
    requires l.entries.Keys <= keys && LimitedKeys(l, rs) <= keys && (l.max > 0 ==> |keys| <= l.max)
    requires var start, end := l.entries[key].value.start, l.entries[key].value.start + l.policies[key.path].window;
             later >= end && forall i :: 0 <= i < |rs| && rs[i].key == key ==> start <= rs[i].now < end
    ensures var p, start := l.policies[key.path], l.entries[key].value.start;
            1 + Admitted(l, rs, key, start, start + p.window) == Min(p.limit, 1 + Own(rs, key))
    ensures var (l', ok) := Allow(Run(l, rs), Request(key, later));
            ok && key in l'.entries && l'.entries[key].value == Window(1, later)
  {
    WindowAdmitsTheLimit(l, rs, keys, key);
    WindowEnds(Run(l, rs), key, l.entries[key].value, Own(rs, key), later);
  }

  // ---- The bound is reached ----

  function Burst(key: Key, now: int, n: nat): (rs: seq<Request>)
    ensures |rs| == n && forall i :: 0 <= i < n ==> rs[i] == Request(key, now)
  {
    if n == 0 then [] else Burst(key, now, n - 1) + [Request(key, now)]
  }

  lemma OneMore(l: Limiter, rs: seq<Request>, r: Request, key: Key, from: int, to: int)
    ensures Run(l, rs + [r]) == Allow(Run(l, rs), r).0
    ensures Admitted(l, rs + [r], key, from, to) ==
              Admitted(l, rs, key, from, to)
              + if r.key == key && from <= r.now < to && Allow(Run(l, rs), r).1 then 1 else 0
  {
    var t := rs + [r];
    assert t[..|t| - 1] == rs && t[|t| - 1] == r;
  }

  /** The key's window after these requests. */
  ghost predicate At(l: Limiter, rs: seq<Request>, key: Key, count: nat, start: int) {
    var s := Run(l, rs);
    s.policies == l.policies && key in s.entries && s.entries[key].value == Window(count, start)
  }

  lemma BurstSnoc(rs: seq<Request>, key: Key, now: int, n: nat)
    requires n > 0
    ensures rs + Burst(key, now, n) == (rs + Burst(key, now, n - 1)) + [Request(key, now)]
  {
  }

  /** One more request with room in the current window. */
  lemma OneAdmitted(l: Limiter, rs: seq<Request>, key: Key, now: int, from: int, to: int, count: nat, start: int)
    requires Limited(l, key) && from <= now < to && At(l, rs, key, count, start)
    requires now - start < l.policies[key.path].window && count < l.policies[key.path].limit
    ensures At(l, rs + [Request(key, now)], key, count + 1, start)
    ensures Admitted(l, rs + [Request(key, now)], key, from, to) == Admitted(l, rs, key, from, to) + 1
  {
    OneMore(l, rs, Request(key, now), key, from, to);
  }

  /** n more requests at one instant, with room for them in the current window. */
  lemma {:induction false} BurstAdmitted(l: Limiter, rs: seq<Request>, key: Key, now: int, n: nat, from: int, to: int,
                                         count: nat, start: int)
    requires Limited(l, key) && from <= now < to && At(l, rs, key, count, start)
    requires now - start < l.policies[key.path].window && count + n <= l.policies[key.path].limit
    ensures At(l, rs + Burst(key, now, n), key, count + n, start)
    ensures Admitted(l, rs + Burst(key, now, n), key, from, to) == Admitted(l, rs, key, from, to) + n
  {
    if n == 0 {
      assert rs + Burst(key, now, 0) == rs;
    } else {
      BurstAdmitted(l, rs, key, now, n - 1, from, to, count, start);
      var sofar := rs + Burst(key, now, n - 1);
      OneAdmitted(l, sofar, key, now, from, to, count + n - 1, start);
      BurstSnoc(rs, key, now, n);
    }
  }

  lemma BurstNondecreasing(key: Key, w: int, n: nat, rs: seq<Request>)
    requires w >= 1
    requires rs == [Request(key, 0)] + Burst(key, w - 1, n) + [Request(key, w)] + Burst(key, w, n)
    ensures Nondecreasing(rs) && Keys(rs) == {key}
  {
    assert rs[0].key == key;
  }

  lemma FirstOpens(l: Limiter, key: Key, from: int, to: int)
    requires l.entries == map[] && Limited(l, key) && from > 0
    ensures At(l, [Request(key, 0)], key, 1, 0)
    ensures Admitted(l, [Request(key, 0)], key, from, to) == 0
  {
    OneMore(l, [], Request(key, 0), key, from, to);
    assert [] + [Request(key, 0)] == [Request(key, 0)];
  }

  lemma NewWindowOpens(l: Limiter, rs: seq<Request>, key: Key, now: int, from: int, to: int, count: nat, start: int)
    requires Limited(l, key) && At(l, rs, key, count, start) && now - start >= l.policies[key.path].window
    requires from <= now < to
    ensures At(l, rs + [Request(key, now)], key, 1, now)
    ensures Admitted(l, rs + [Request(key, now)], key, from, to) == Admitted(l, rs, key, from, to) + 1
  {
    OneMore(l, rs, Request(key, now), key, from, to);
  }

  /** One request, then the rest of its window at the very end, then a full new window. */
  function WorstCase(key: Key, p: Policy): seq<Request>
    requires p.limit >= 1
  {
    [Request(key, 0)] + Burst(key, p.window - 1, p.limit - 1)
    + [Request(key, p.window)] + Burst(key, p.window, p.limit - 1)
  }

  /** The bound is reached, for every limit and every window of at least two ticks. */
  lemma BoundIsReached(l: Limiter, key: Key)
    requires l.entries == map[] && Limited(l, key) && l.policies[key.path].window >= 2
    ensures var p := l.policies[key.path];
            && Nondecreasing(WorstCase(key, p)) && Keys(WorstCase(key, p)) == {key}
            && Admitted(l, WorstCase(key, p), key, p.window - 1, p.window - 1 + p.window) == 2 * p.limit - 1
  {
    var p := l.policies[key.path];
    BurstNondecreasing(key, p.window, p.limit - 1, WorstCase(key, p));
    WorstCaseAdmits(l, key, p, WorstCase(key, p));
  }

  lemma WorstCaseAdmits(l: Limiter, key: Key, p: Policy, rs: seq<Request>)
    requires l.entries == map[] && Limited(l, key) && p == l.policies[key.path] && p.window >= 2
    requires rs == WorstCase(key, p)
    ensures Admitted(l, rs, key, p.window - 1, p.window - 1 + p.window) == 2 * p.limit - 1
  {
    var from, to := p.window - 1, p.window - 1 + p.window;
    var r1 := [Request(key, 0)];
    FirstOpens(l, key, from, to);
    OneWindowFull(l, r1, key, p.window - 1, from, to, 0);
    var r2 := r1 + Burst(key, p.window - 1, p.limit - 1);
    SecondWindowFull(l, r2, key, p.window, from, to, p.limit, 0);
    assert rs == r2 + [Request(key, p.window)] + Burst(key, p.window, p.limit - 1);
  }

  lemma OneWindowFull(l: Limiter, rs: seq<Request>, key: Key, now: int, from: int, to: int, start: int)
    requires Limited(l, key) && At(l, rs, key, 1, start) && from <= now < to
    requires now - start < l.policies[key.path].window
    ensures var n := l.policies[key.path].limit - 1;
            && At(l, rs + Burst(key, now, n), key, n + 1, start)
            && Admitted(l, rs + Burst(key, now, n), key, from, to) == Admitted(l, rs, key, from, to) + n
  {
    BurstAdmitted(l, rs, key, now, l.policies[key.path].limit - 1, from, to, 1, start);
  }

  lemma SecondWindowFull(l: Limiter, rs: seq<Request>, key: Key, now: int, from: int, to: int, count: nat, start: int)
    requires Limited(l, key) && At(l, rs, key, count, start) && from <= now < to
    requires now - start >= l.policies[key.path].window
    ensures var n := l.policies[key.path].limit - 1;
            Admitted(l, rs + [Request(key, now)] + Burst(key, now, n), key, from, to) ==
                Admitted(l, rs, key, from, to) + n + 1
  {
    NewWindowOpens(l, rs, key, now, from, to, count, start);
    OneWindowFull(l, rs + [Request(key, now)], key, now, from, to, now);
  }

  // ---- Where eviction breaks the bound ----

  /** What was touched after the clock stood at c is in the table; the rest is older. */
  ghost predicate Newest(s: Limiter, c: nat, touched: set<Key>) {
    && Bounded(s) && c <= s.clock && touched <= s.entries.Keys
    && forall k :: k in s.entries ==> (k in touched <==> s.entries[k].seen > c)
  }

  /** As long as fewer than max keys were touched, making room takes none of them. */
  lemma TouchOne(s: Limiter, c: nat, touched: set<Key>, r: Request)
    requires Newest(s, c, touched) && Limited(s, r.key) && r.key !in touched && |touched| < s.max
    ensures Newest(Allow(s, r).0, c, touched + {r.key})
  {
    AllowBounded(s, r);
    if r.key !in s.entries && |s.entries| >= s.max {
      RoomSparesTouched(s, c, touched);
    }
  }

  lemma RoomSparesTouched(s: Limiter, c: nat, touched: set<Key>)
    requires Newest(s, c, touched) && |touched| < s.max <= |s.entries|
    ensures s.entries != map[] && Oldest(s.entries) !in touched
  {
    var o := Oldest(s.entries);
    assert IsOldest(s.entries, o);
    assert |s.entries| == |s.entries.Keys|;
    if s.entries.Keys <= touched {
      SubsetSize(s.entries.Keys, touched);
    }
    var k :| k in s.entries && k !in touched;
    assert s.entries[o].seen <= s.entries[k].seen;
  }

  ghost function SetOf(ks: seq<Key>): set<Key> { set i | 0 <= i < |ks| :: ks[i] }

  predicate Distinct(ks: seq<Key>) { forall i, j :: 0 <= i < j < |ks| ==> ks[i] != ks[j] }

  function Pass(ks: seq<Key>, now: int): (rs: seq<Request>)
    ensures |rs| == |ks| && forall i :: 0 <= i < |rs| ==> rs[i] == Request(ks[i], now)
  {
    if ks == [] then [] else Pass(ks[..|ks| - 1], now) + [Request(ks[|ks| - 1], now)]
  }

  lemma {:induction false} SetOfSize(ks: seq<Key>)
    requires Distinct(ks)
    ensures |SetOf(ks)| == |ks|
    decreases |ks|
  {
    if ks == [] {
      assert SetOf(ks) == {};
    } else {
      var n := |ks| - 1;
      SetOfSize(ks[..n]);
      SetOfSnoc(ks, n);
      assert ks[n] !in SetOf(ks[..n]);
    }
  }

  lemma SetOfSnoc(ks: seq<Key>, n: nat)
    requires n == |ks| - 1
    ensures SetOf(ks) == SetOf(ks[..n]) + {ks[n]}
  {
    forall k | k in SetOf(ks) ensures k in SetOf(ks[..n]) + {ks[n]} {
      var i :| 0 <= i < |ks| && ks[i] == k;
      if i < n { assert ks[..n][i] == k; }
    }
    forall k | k in SetOf(ks[..n]) ensures k in SetOf(ks) {
      var i :| 0 <= i < n && ks[..n][i] == k;
      assert ks[i] == k;
    }
  }

  lemma {:induction false} TouchAll(s: Limiter, ks: seq<Key>, now: int)
    requires Bounded(s) && Distinct(ks) && |ks| <= s.max
    requires forall i :: 0 <= i < |ks| ==> Limited(s, ks[i])
    ensures var s' := Run(s, Pass(ks, now));
            Newest(s', s.clock, SetOf(ks)) && s'.policies == s.policies && s'.max == s.max
    decreases |ks|
  {
    if ks == [] {
      assert SetOf(ks) == {};
    } else {
      var n := |ks| - 1;
      TouchAll(s, ks[..n], now);
      OneMore(s, Pass(ks[..n], now), Request(ks[n], now), ks[n], now, now);
      TouchNext(Run(s, Pass(ks[..n], now)), s.clock, ks, n, now);
    }
  }

  lemma TouchNext(s: Limiter, c: nat, ks: seq<Key>, n: nat, now: int)
    requires Distinct(ks) && n == |ks| - 1 && |ks| <= s.max
    requires Newest(s, c, SetOf(ks[..n])) && Limited(s, ks[n])
    ensures var s' := Allow(s, Request(ks[n], now)).0;
            Newest(s', c, SetOf(ks)) && s'.policies == s.policies && s'.max == s.max
  {
    SetOfSize(ks[..n]);
    SetOfSnoc(ks, n);
    NotBefore(ks, n);
    AllowBounded(s, Request(ks[n], now));
    TouchOne(s, c, SetOf(ks[..n]), Request(ks[n], now));
  }

  lemma NotBefore(ks: seq<Key>, n: nat)
    requires Distinct(ks) && n < |ks|
    ensures ks[n] !in SetOf(ks[..n])
  {
  }

  /** After max other keys the table has forgotten this one. */
  lemma Forgotten(s: Limiter, others: seq<Key>, key: Key, now: int)
    requires Bounded(s) && Distinct(others) && key !in others && |others| == s.max > 0
    requires forall i :: 0 <= i < |others| ==> Limited(s, others[i])
    ensures var s' := Run(s, Pass(others, now));
            key !in s'.entries && Bounded(s') && s'.policies == s.policies && s'.max == s.max
  {
    var s' := Run(s, Pass(others, now));
    TouchAll(s, others, now);
    SetOfSize(others);
    SameSize(SetOf(others), s'.entries.Keys);
    assert |s'.entries| == |s'.entries.Keys|;
  }

  lemma SameSize<T>(a: set<T>, b: set<T>)
    requires a <= b && |b| <= |a|
    ensures a == b
  {
    SubsetSize(a, b);
    if a != b {
      var x :| x in b && x !in a;
      SubsetSize(a, b - {x});
    }
  }

  lemma {:induction false} RunAppend(l: Limiter, a: seq<Request>, b: seq<Request>, key: Key, from: int, to: int)
    ensures Run(l, a + b) == Run(Run(l, a), b)
    ensures Admitted(l, a + b, key, from, to) == Admitted(l, a, key, from, to) + Admitted(Run(l, a), b, key, from, to)
    decreases |b|
  {
    if b == [] {
      assert a + b == a;
    } else {
      var n := |b| - 1;
      RunAppend(l, a, b[..n], key, from, to);
      assert (a + b)[..|a + b| - 1] == a + b[..n] && (a + b)[|a + b| - 1] == b[n];
    }
  }

  lemma {:induction false} PassAdmitsNone(l: Limiter, ks: seq<Key>, key: Key, now: int, from: int, to: int)
    requires key !in ks
    ensures Admitted(l, Pass(ks, now), key, from, to) == 0
    decreases |ks|
  {
    if ks != [] {
      PassAdmitsNone(l, ks[..|ks| - 1], key, now, from, to);
      assert ks[|ks| - 1] in ks;
    }
  }

  /** The key, then all the others, n times over at one instant. */
  function Rounds(key: Key, others: seq<Key>, now: int, n: nat): (rs: seq<Request>)
    ensures forall i :: 0 <= i < |rs| ==> rs[i].now == now && (rs[i].key == key || rs[i].key in others)
  {
    if n == 0 then [] else Rounds(key, others, now, n - 1) + ([Request(key, now)] + Pass(others, now))
  }

  /** The same limiter, without an entry for the key. */
  ghost predicate HasForgotten(l: Limiter, key: Key, s: Limiter) {
    key !in s.entries && Bounded(s) && s.policies == l.policies && s.max == l.max
  }

  lemma OneRound(s: Limiter, key: Key, others: seq<Key>, now: int, from: int, to: int)
    requires Bounded(s) && key !in s.entries && Limited(s, key) && from <= now < to
    requires Distinct(others) && key !in others && |others| == s.max > 0
    requires forall i :: 0 <= i < |others| ==> Limited(s, others[i])
    ensures var round := [Request(key, now)] + Pass(others, now);
            HasForgotten(s, key, Run(s, round)) && Admitted(s, round, key, from, to) == 1
  {
    var r := Request(key, now);
    var s1 := Allow(s, r).0;
    AllowBounded(s, r);
    OneMore(s, [], r, key, from, to);
    assert [] + [r] == [r];
    RunAppend(s, [r], Pass(others, now), key, from, to);
    Forgotten(s1, others, key, now);
    PassAdmitsNone(s1, others, key, now, from, to);
  }

  /** One key more than the table holds, and a key is admitted as often as it asks. */
  lemma {:induction false} EvictionAdmitsAll(l: Limiter, key: Key, others: seq<Key>, now: int, from: int, to: int,
                                             n: nat)
    requires l.entries == map[] && Limited(l, key) && from <= now < to
    requires Distinct(others) && key !in others && |others| == l.max > 0
    requires forall i :: 0 <= i < |others| ==> Limited(l, others[i])
    ensures HasForgotten(l, key, Run(l, Rounds(key, others, now, n)))
    ensures Admitted(l, Rounds(key, others, now, n), key, from, to) == n
    decreases n
  {
    if n > 0 {
      EvictionAdmitsAll(l, key, others, now, from, to, n - 1);
      AnotherRound(l, Rounds(key, others, now, n - 1), key, others, now, from, to);
    }
  }

  lemma AnotherRound(l: Limiter, rs: seq<Request>, key: Key, others: seq<Key>, now: int, from: int, to: int)
    requires HasForgotten(l, key, Run(l, rs)) && Limited(l, key) && from <= now < to
    requires Distinct(others) && key !in others && |others| == l.max > 0
    requires forall i :: 0 <= i < |others| ==> Limited(l, others[i])
    ensures var more := rs + ([Request(key, now)] + Pass(others, now));
            && HasForgotten(l, key, Run(l, more))
            && Admitted(l, more, key, from, to) == Admitted(l, rs, key, from, to) + 1
  {
    RunAppend(l, rs, [Request(key, now)] + Pass(others, now), key, from, to);
    OneRound(Run(l, rs), key, others, now, from, to);
  }

  ghost predicate WithinBound(l: Limiter, rs: seq<Request>, key: Key, from: int)
    requires Limited(l, key)
  {
    var p := l.policies[key.path];
    Admitted(l, rs, key, from, from + p.window) <= 2 * p.limit - 1
  }

  /** The bound holds for the key in every run whose limited keys are among these. */
  ghost predicate BoundHolds(l: Limiter, keys: set<Key>, key: Key)
    requires Limited(l, key)
  {
    forall rs, from :: Nondecreasing(rs) && LimitedKeys(l, rs) <= keys ==> WithinBound(l, rs, key, from)
  }

  lemma {:induction false} SomeOf(keys: set<Key>, n: nat) returns (ks: seq<Key>)
    requires n <= |keys|
    ensures |ks| == n && Distinct(ks) && forall i :: 0 <= i < n ==> ks[i] in keys
    decreases n
  {
    if n == 0 {
      ks := [];
    } else {
      var k :| k in keys;
      ks := SomeOf(keys - {k}, n - 1);
      ks := ks + [k];
    }
  }

  /** With more limited keys than the table holds, a run without any bound. */
  lemma AdmitsAnyNumber(l: Limiter, keys: set<Key>, key: Key, n: nat) returns (rs: seq<Request>)
    requires l.entries == map[] && key in keys && forall k :: k in keys ==> Limited(l, k)
    requires 0 < l.max < |keys|
    ensures Nondecreasing(rs) && LimitedKeys(l, rs) <= keys
    ensures Limited(l, key) && Admitted(l, rs, key, 0, l.policies[key.path].window) == n
  {
    var others := SomeOf(keys - {key}, l.max);
    assert key !in others;
    rs := Rounds(key, others, 0, n);
    EvictionAdmitsAll(l, key, others, 0, 0, l.policies[key.path].window, n);
  }

  /** The bound holds over a set of limited keys exactly when the table can hold them all. */
  lemma BoundExact(l: Limiter, keys: set<Key>, key: Key)
    requires l.entries == map[] && key in keys && forall k :: k in keys ==> Limited(l, k)
    ensures BoundHolds(l, keys, key) <==> l.max == 0 || |keys| <= l.max
  {
    var p := l.policies[key.path];
    if l.max == 0 || |keys| <= l.max {
      forall rs, from | Nondecreasing(rs) && LimitedKeys(l, rs) <= keys
        ensures WithinBound(l, rs, key, from)
      {
        SubsetSize(LimitedKeys(l, rs), keys);
        FewerThanTwiceTheLimit(l, rs, key, from);
      }
    } else {
      var rs := AdmitsAnyNumber(l, keys, key, 2 * p.limit);
      assert 0 + p.window == p.window;
      assert !WithinBound(l, rs, key, 0);
    }
  }

  // ---- The object ----

  class RequestLimiter {
    const policies: map<string, Policy>
    const max: nat
    var clock: nat
    var entries: map<Key, Stamped<Window>>

    constructor (policies: map<string, Policy>, max: nat)
      ensures Abs() == Limiter(policies, max, 0, map[])
    {
      this.policies, this.max, clock, entries := policies, max, 0, map[];
    }

    ghost function Abs(): Limiter
      reads this
    {
      Limiter(policies, max, clock, entries)
    }

    method EvictLRU()
      requires Ticked(entries, clock)
      modifies this`entries
      ensures entries == if old(entries) == map[] then map[] else old(entries) - {Oldest(old(entries))}
    {
      var oldest := FindOldest(entries);
      if oldest != None {
        assert IsOldest(entries, Oldest(entries));
        entries := entries - {oldest.value};
      }
    }

    method AllowNew(r: Request)
      requires Ticked(entries, clock) && r.key !in entries
      modifies this
      ensures clock == old(clock) + 1
      ensures var room := if max > 0 then Evicted(old(entries), max) else old(entries);
              entries == room[r.key := Stamped(Window(1, r.now), clock)]
      ensures Ticked(entries, clock)
    {
      EvictionKeeps(entries, clock, max);
      if max > 0 && |entries| >= max {
        EvictLRU();
      }
      TouchKeepsTicked(entries, clock, r.key, Window(1, r.now));
      clock := clock + 1;
      entries := entries[r.key := Stamped(Window(1, r.now), clock)];
    }

    method Allows(r: Request) returns (ok: bool)
      requires Ticked(entries, clock)
      modifies this
      ensures (Abs(), ok) == Allow(old(Abs()), r)
      ensures !Limited(Abs(), r.key) ==> ok && entries == old(entries)
      ensures Limited(Abs(), r.key) && r.key in old(entries) ==>
                var w, p := old(entries)[r.key].value, policies[r.key.path];
                && (ok <==> w.count < p.limit || r.now >= w.start + p.window)
                && entries.Keys == old(entries).Keys && entries[r.key].seen == old(clock) + 1
                && (!ok ==> entries[r.key].value == w)
      ensures Limited(Abs(), r.key) && r.key !in old(entries) ==>
                ok && r.key in entries && entries[r.key] == Stamped(Window(1, r.now), old(clock) + 1)
      ensures Ticked(entries, clock)
    {
      if r.key.path !in policies || policies[r.key.path].limit <= 0 || policies[r.key.path].window <= 0 {
        return true;
      }
      var p := policies[r.key.path];
      if r.key !in entries {
        AllowNew(r);
        return true;
      }
      var w := entries[r.key].value;
      var next := w;
      if r.now - w.start >= p.window {
        next, ok := Window(1, r.now), true;
      } else if w.count >= p.limit {
        ok := false;
      } else {
        next, ok := Window(w.count + 1, w.start), true;
      }
      TouchKeepsTicked(entries, clock, r.key, next);
      clock := clock + 1;
      entries := entries[r.key := Stamped(next, clock)];
    }
  }
}

/** Learned agent registration proofs (go/internal/signal/proofstore.go). */
module ProofStore {
  import opened Wrappers
  import opened Lru

  type Slot = string

  const MAX_PROOF_BYTES := 512

  datatype Proofs = Proofs(max: nat, clock: nat, entries: map<Slot, Stamped<string>>)

  datatype Op = Check(slot: Slot, proof: string) | Learn(slot: Slot, proof: string)

  /** ok: trust on first use, the learned secret afterwards; a look refreshes recency. */
  function Checked(p: Proofs, slot: Slot, proof: string): (Proofs, bool) {
    if slot !in p.entries then (p, true) else
      (p.(clock := p.clock + 1, entries := p.entries[slot := p.entries[slot].(seen := p.clock + 1)]),
       proof == p.entries[slot].value)
  }

  ghost function Learned(p: Proofs, slot: Slot, proof: string): Proofs {
    if proof == "" || |proof| > MAX_PROOF_BYTES || slot in p.entries then p else
      p.(clock := p.clock + 1, entries := Evicted(p.entries, p.max)[slot := Stamped(proof, p.clock + 1)])
  }

  ghost function Step(p: Proofs, op: Op): Proofs {
    match op
    case Check(slot, proof) => Checked(p, slot, proof).0
    case Learn(slot, proof) => Learned(p, slot, proof)
  }

  ghost function Run(p: Proofs, ops: seq<Op>): Proofs
    decreases |ops|
  {
    if ops == [] then p else Run(Step(p, ops[0]), ops[1..])
  }

  ghost predicate Inv(p: Proofs) { p.max > 0 && Ticked(p.entries, p.clock) && |p.entries| <= p.max }

  lemma {:induction false} StepInv(p: Proofs, op: Op)
    requires Inv(p)
    ensures Inv(Step(p, op)) && Step(p, op).max == p.max
  {
    match op
    case Check(slot, proof) => CheckInv(p, slot, proof);
    case Learn(slot, proof) => LearnInv(p, slot, proof);
  }

  lemma CheckInv(p: Proofs, slot: Slot, proof: string)
    requires Inv(p)
    ensures Inv(Checked(p, slot, proof).0) && Checked(p, slot, proof).0.max == p.max
  {
    if slot in p.entries {
      TouchKeepsTicked(p.entries, p.clock, slot, p.entries[slot].value);
      SizeAfterPut(p.entries, slot, p.entries[slot].(seen := p.clock + 1));
    }
  }

  lemma LearnInv(p: Proofs, slot: Slot, proof: string)
    requires Inv(p)
    ensures Inv(Learned(p, slot, proof)) && Learned(p, slot, proof).max == p.max
  {
    if slot !in p.entries {
      InsertKeepsBound(p.entries, Evicted(p.entries, p.max), p.clock, p.max, slot, proof);
    }
  }

  /** After any operations the store holds at most max proofs, with distinct stamps. */
  lemma {:induction false} StoreStaysBounded(p: Proofs, ops: seq<Op>)
    requires Inv(p)
    ensures Inv(Run(p, ops)) && Run(p, ops).max == p.max
    decreases |ops|
  {
    if ops != [] {
      StepInv(p, ops[0]);
      StoreStaysBounded(Step(p, ops[0]), ops[1..]);
    }
  }

  /** A learned proof is never replaced. It can only be dropped, by learning another
      slot in a full store, and then every one of the other slots was touched later. */
  lemma ProofKeptOrLeastRecent(p: Proofs, op: Op, slot: Slot, other: Slot)
    requires Inv(p) && slot in p.entries
    ensures slot in Step(p, op).entries ==> Step(p, op).entries[slot].value == p.entries[slot].value
    ensures slot !in Step(p, op).entries ==>
              op.Learn? && op.slot != slot && |p.entries| == p.max
              && (other in p.entries && other != slot ==> p.entries[slot].seen < p.entries[other].seen)
  {
  }

  /** The slot is never dropped during these operations. */
  ghost predicate Stays(p: Proofs, ops: seq<Op>, slot: Slot)
    decreases |ops|
  {
    slot in p.entries && (ops == [] || Stays(Step(p, ops[0]), ops[1..], slot))
  }

  /** The first proof rules: as long as its slot stays in the store, that proof is
      accepted and every other one refused, whatever else is offered or learned. */
  lemma {:induction false} FirstProofRules(p: Proofs, ops: seq<Op>, slot: Slot, other: string)
    requires Inv(p) && Stays(p, ops, slot)
    ensures Checked(Run(p, ops), slot, other).1 <==> other == p.entries[slot].value
    decreases |ops|
  {
    if ops != [] {
      StepInv(p, ops[0]);
      ProofKeptOrLeastRecent(p, ops[0], slot, slot);
      FirstProofRules(Step(p, ops[0]), ops[1..], slot, other);
    }
  }

  /** A store that has room for every slot drops none of them. */
  lemma {:induction false} RoomForAllStays(p: Proofs, ops: seq<Op>, slots: set<Slot>, slot: Slot)
    requires Inv(p) && p.entries.Keys <= slots && |slots| <= p.max && slot in p.entries
    requires forall i :: 0 <= i < |ops| && ops[i].Learn? ==> ops[i].slot in slots
    ensures Stays(p, ops, slot)
    decreases |ops|
  {
    if ops != [] {
      StepInv(p, ops[0]);
      StepWithin(p, ops[0], slots, slot);
      RoomForAllStays(Step(p, ops[0]), ops[1..], slots, slot);
    }
  }

  lemma StepWithin(p: Proofs, op: Op, slots: set<Slot>, slot: Slot)
    requires Inv(p) && p.entries.Keys <= slots && |slots| <= p.max && slot in p.entries
    requires op.Learn? ==> op.slot in slots
    ensures slot in Step(p, op).entries && Step(p, op).entries.Keys <= slots
  {
    if op.Learn? && op.slot !in p.entries { Roomy(p, op.slot, slots); }
  }

  /** A valid proof of a new slot goes in, next to everything else, while there is room. */
  lemma LearnEnters(p: Proofs, slot: Slot, proof: string, slots: set<Slot>)
    requires slot !in p.entries && 1 <= |proof| <= 512
    requires p.entries.Keys + {slot} <= slots && |slots| <= p.max
    ensures Learned(p, slot, proof).entries == p.entries[slot := Stamped(proof, p.clock + 1)]
  {
    Roomy(p, slot, slots);
  }

  lemma Roomy(p: Proofs, slot: Slot, slots: set<Slot>)
    requires slot !in p.entries && p.entries.Keys + {slot} <= slots && |slots| <= p.max
    ensures |p.entries| < p.max
  {
    assert p.entries.Keys <= slots - {slot};
    SubsetSize(p.entries.Keys, slots - {slot});
    assert |p.entries| == |p.entries.Keys|;
  }

  /** Trust on first use, start to end: a new slot is admitted with anything; once a
      proof of 1 to 512 bytes has been learned for it, only that proof is, as long as
      the store has room for every slot it is taught. */
  lemma TrustOnFirstUse(p: Proofs, slot: Slot, proof: string, ops: seq<Op>, slots: set<Slot>, other: string)
    requires Inv(p) && slot !in p.entries && 1 <= |proof| <= 512
    requires p.entries.Keys + {slot} <= slots && |slots| <= p.max
    requires forall i :: 0 <= i < |ops| && ops[i].Learn? ==> ops[i].slot in slots
    ensures Checked(p, slot, other) == (p, true)
    ensures Checked(Run(Learned(p, slot, proof), ops), slot, other).1 <==> other == proof
  {
    LearnEnters(p, slot, proof, slots);
    LearnInv(p, slot, proof);
    var p1 := Learned(p, slot, proof);
    assert p1.entries.Keys <= slots;
    RoomForAllStays(p1, ops, slots, slot);
    FirstProofRules(p1, ops, slot, other);
  }

  class Store {
    const max: nat
    var clock: nat
    var entries: map<Slot, Stamped<string>>

    constructor (max: int)
      ensures Abs() == Proofs(if max <= 0 then 65536 else max, 0, map[])
    {
      this.max := if max <= 0 then 65536 else max;
      clock, entries := 0, map[];
    }

    ghost function Abs(): Proofs
      reads this
    {
      Proofs(max, clock, entries)
    }

    method Check(slot: Slot, proof: string) returns (ok: bool)
      modifies this
      ensures (Abs(), ok) == Checked(old(Abs()), slot, proof)
      ensures ok <==> slot !in old(entries) || proof == old(entries)[slot].value
      ensures entries.Keys == old(entries).Keys
      ensures slot in old(entries) ==> entries[slot] == Stamped(old(entries)[slot].value, clock) && clock > old(clock)
    {
      if slot !in entries {
        return true;
      }
      clock := clock + 1;
      entries := entries[slot := entries[slot].(seen := clock)];
      ok := proof == entries[slot].value;
    }

    method EvictLRU()
      requires Ticked(entries, clock)
      modifies this`entries
      ensures entries == if old(entries) == map[] then map[] else old(entries) - {Oldest(old(entries))}
    {
      var oldest := FindOldest(entries);
      if oldest != None {
        assert IsOldest(entries, Oldest(entries));
        entries := entries - {oldest.value};
      }
    }

    method Insert(slot: Slot, proof: string)
      requires Ticked(entries, clock)
      modifies this
      ensures clock == old(clock) + 1
      ensures entries == Evicted(old(entries), max)[slot := Stamped(proof, clock)]
    {
      if |entries| >= max {
        EvictLRU();
      }
      assert entries == Evicted(old(entries), max);
      clock := clock + 1;
      entries := entries[slot := Stamped(proof, clock)];
    }

    method Learn(slot: Slot, proof: string)
      requires Ticked(entries, clock)
      modifies this
      ensures Abs() == Learned(old(Abs()), slot, proof)
      ensures slot in old(entries) || proof == "" || |proof| > 512 ==> entries == old(entries)
      ensures slot !in old(entries) && 1 <= |proof| <= 512 ==>
                slot in entries && entries[slot] == Stamped(proof, old(clock) + 1)
    {
      if proof == "" || |proof| > MAX_PROOF_BYTES || slot in entries {
        return;
      }
      Insert(slot, proof);
    }
  }
}
