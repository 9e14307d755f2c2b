/** The sliding-window limiter shared by several keys, its in-place compaction and its pruning. */
module RateLimiter {
  // ---- The specification ----

  type Hits = map<string, seq<int>>

  function HitsOf(h: Hits, key: string): seq<int> {
    if key in h then h[key] else []
  }

  // The times after the cutoff, in order.
  function After(ts: seq<int>, cutoff: int): (r: seq<int>)
    ensures |r| <= |ts|
  {
    if |ts| == 0 then [] else
      After(ts[..|ts| - 1], cutoff) + if ts[|ts| - 1] > cutoff then [ts[|ts| - 1]] else []
  }

  predicate Stale(ts: seq<int>, cutoff: int) {
    |ts| == 0 || ts[|ts| - 1] < cutoff
  }

  // Every other key that went quiet before the caller's cutoff is forgotten.
  function Pruned(h: Hits, key: string, cutoff: int): Hits {
    map k | k in h && (k == key || !Stale(h[k], cutoff)) :: h[k]
  }

  datatype Call = Call(key: string, limit: nat, window: nat, now: int)

  function Allows(h: Hits, c: Call): bool {
    |After(HitsOf(h, c.key), c.now - c.window)| < c.limit
  }

  function Next(h: Hits, c: Call): Hits {
    var kept := After(HitsOf(h, c.key), c.now - c.window);
    Pruned(h, c.key, c.now - c.window)[c.key := if |kept| < c.limit then kept + [c.now] else kept]
  }

  function Run(cs: seq<Call>): Hits {
    if |cs| == 0 then map[] else Next(Run(cs[..|cs| - 1]), cs[|cs| - 1])
  }

  // The times at which a key's calls were let through.
  function Accepted(cs: seq<Call>, key: string): seq<int> {
    if |cs| == 0 then [] else
      var n := |cs| - 1;
      Accepted(cs[..n], key) + if cs[n].key == key && Allows(Run(cs[..n]), cs[n]) then [cs[n].now] else []
  }

  function CountIn(ts: seq<int>, lo: int, hi: int): nat {
    if |ts| == 0 then 0 else
      CountIn(ts[..|ts| - 1], lo, hi) + if lo < ts[|ts| - 1] <= hi then 1 else 0
  }

  // ---- The window theorem ----

  // The clock never runs back, the key is always used with w and n, and no other key's window is
  // shorter than `short`.
  predicate Fair(cs: seq<Call>, key: string, n: nat, w: nat, short: nat) {
    && (forall i, j :: 0 <= i < j < |cs| ==> cs[i].now <= cs[j].now)
    && (forall i :: 0 <= i < |cs| && cs[i].key != key ==> cs[i].window >= short)
    && (forall i :: 0 <= i < |cs| && cs[i].key == key ==> cs[i].window == w && cs[i].limit == n)
  }

  predicate Sorted(ts: seq<int>) {
    forall i, j :: 0 <= i < j < |ts| ==> ts[i] <= ts[j]
  }

  // No n + 1 of the times fit into a window.
  predicate Spread(ts: seq<int>, n: nat, w: nat) {
    forall j :: n <= j < |ts| ==> ts[j - n] <= ts[j] - w
  }

  // What the limiter still holds of a key: the accepted times but for some that left the window.
  predicate Remembered(held: seq<int>, acc: seq<int>, cutoff: int) {
    |held| <= |acc| && held == acc[|acc| - |held|..] && forall i :: 0 <= i < |acc| - |held| ==> acc[i] <= cutoff
  }

  lemma {:induction false} AfterNone(ts: seq<int>, cutoff: int)
    requires forall i :: 0 <= i < |ts| ==> ts[i] <= cutoff
    ensures After(ts, cutoff) == []
  {
    if |ts| > 0 {
      AfterNone(ts[..|ts| - 1], cutoff);
    }
  }

  lemma OneMoreKept(ts: seq<int>, t: int, cutoff: int)
    requires Remembered(After(ts, cutoff), ts, cutoff) && t > cutoff
    ensures Remembered(After(ts + [t], cutoff), ts + [t], cutoff)
  {
    var m := |ts| - |After(ts, cutoff)|;
    assert (ts + [t])[..|ts|] == ts;
    assert (ts + [t])[m..] == ts[m..] + [t];
  }

  lemma {:induction false} AfterSorted(ts: seq<int>, cutoff: int)
    requires Sorted(ts)
    ensures Remembered(After(ts, cutoff), ts, cutoff)
  {
    if |ts| > 0 {
      var n := |ts| - 1;
      if ts[n] > cutoff {
        AfterSorted(ts[..n], cutoff);
        OneMoreKept(ts[..n], ts[n], cutoff);
        assert ts == ts[..n] + [ts[n]];
      } else {
        AfterNone(ts, cutoff);
        assert ts[|ts|..] == [];
      }
    }
  }

  lemma {:induction false} CountBefore(ts: seq<int>, lo: int, hi: int)
    requires forall i :: 0 <= i < |ts| ==> ts[i] <= lo
    ensures CountIn(ts, lo, hi) == 0
  {
    if |ts| > 0 {
      CountBefore(ts[..|ts| - 1], lo, hi);
    }
  }

  lemma {:induction false} CountWithin(ts: seq<int>, lo: int, hi: int)
    requires forall i :: 0 <= i < |ts| ==> lo < ts[i] <= hi
    ensures CountIn(ts, lo, hi) == |ts|
  {
    if |ts| > 0 {
      CountWithin(ts[..|ts| - 1], lo, hi);
    }
  }

  lemma {:induction false} CountConcat(a: seq<int>, b: seq<int>, lo: int, hi: int)
    ensures CountIn(a + b, lo, hi) == CountIn(a, lo, hi) + CountIn(b, lo, hi)
  {
    if |b| == 0 {
      assert a + b == a;
    } else {
      CountConcat(a, b[..|b| - 1], lo, hi);
      assert (a + b)[..|a + b| - 1] == a + b[..|b| - 1];
    }
  }

  lemma {:induction false} CountAtMost(ts: seq<int>, lo: int, hi: int)
    ensures CountIn(ts, lo, hi) <= |ts|
  {
    if |ts| > 0 {
      CountAtMost(ts[..|ts| - 1], lo, hi);
    }
  }

  // Of spread times, all but the last n left the window of the last.
  lemma LeftWindow(ts: seq<int>, n: nat, w: nat, t: int)
    requires Sorted(ts) && Spread(ts, n, w) && |ts| > n && ts[|ts| - 1] <= t
    ensures forall i :: 0 <= i < |ts| - n ==> ts[i] <= t - w
  {
    var k := |ts| - 1;
    assert ts[k - n] <= ts[k] - w;
  }

  lemma {:induction false} SpreadCount(ts: seq<int>, n: nat, w: nat, t: int)
    requires Sorted(ts) && Spread(ts, n, w)
    ensures CountIn(ts, t - w, t) <= n
  {
    if |ts| <= n {
      CountAtMost(ts, t - w, t);
    } else if ts[|ts| - 1] > t {
      SpreadCount(ts[..|ts| - 1], n, w, t);
    } else {
      LeftWindow(ts, n, w, t);
      CountLast(ts, n, t - w, t);
    }
  }

  lemma CountLast(ts: seq<int>, n: nat, lo: int, hi: int)
    requires n <= |ts| && forall i :: 0 <= i < |ts| - n ==> ts[i] <= lo
    ensures CountIn(ts, lo, hi) <= n
  {
    CountSuffix(ts, |ts| - n, lo, hi);
    CountAtMost(ts[|ts| - n..], lo, hi);
  }

  predicate Tracked(held: seq<int>, acc: seq<int>, n: nat, w: nat, last: int) {
    && Sorted(acc) && Spread(acc, n, w) && Remembered(held, acc, last - w)
    && forall i :: 0 <= i < |acc| ==> acc[i] <= last
  }

  lemma OtherCall(h: Hits, acc: seq<int>, key: string, c: Call, n: nat, w: nat, last: int)
    requires Tracked(HitsOf(h, key), acc, n, w, last)
    requires c.key != key && c.window + 1 >= w && last <= c.now
    ensures Tracked(HitsOf(Next(h, c), key), acc, n, w, c.now)
  {
    if key in h && !Stale(h[key], c.now - c.window) {
      assert HitsOf(Next(h, c), key) == h[key];
    } else {
      assert HitsOf(Next(h, c), key) == [];
      var m := |acc| - |HitsOf(h, key)|;
      assert m < |acc| ==> acc[|acc| - 1] == HitsOf(h, key)[|acc| - m - 1];
    }
  }

  lemma {:induction false} CountAfter(ts: seq<int>, lo: int, hi: int)
    requires forall i :: 0 <= i < |ts| ==> ts[i] <= hi
    ensures |After(ts, lo)| == CountIn(ts, lo, hi)
  {
    if |ts| > 0 {
      CountAfter(ts[..|ts| - 1], lo, hi);
    }
  }

  lemma CountSuffix(acc: seq<int>, m: nat, lo: int, hi: int)
    requires m <= |acc| && forall i :: 0 <= i < m ==> acc[i] <= lo
    ensures CountIn(acc, lo, hi) == CountIn(acc[m..], lo, hi)
  {
    CountBefore(acc[..m], lo, hi);
    CountConcat(acc[..m], acc[m..], lo, hi);
    assert acc == acc[..m] + acc[m..];
  }

  // What compaction keeps of the times held is what counts in the window.
  lemma KeptIsCount(held: seq<int>, acc: seq<int>, w: nat, now: int)
    requires Remembered(held, acc, now - w) && forall i :: 0 <= i < |acc| ==> acc[i] <= now
    ensures |After(held, now - w)| == CountIn(acc, now - w, now)
  {
    CountAfter(held, now - w, now);
    CountSuffix(acc, |acc| - |held|, now - w, now);
  }

  // Compacting the times held leaves what is in the window.
  lemma KeptIsRemembered(held: seq<int>, acc: seq<int>, cutoff: int)
    requires Sorted(acc) && Remembered(held, acc, cutoff)
    ensures Remembered(After(held, cutoff), acc, cutoff)
  {
    var m := |acc| - |held|;
    assert forall i :: 0 <= i < |held| ==> held[i] == acc[m + i];
    AfterSorted(held, cutoff);
    var kept := After(held, cutoff);
    SuffixOfSuffix(kept, held, acc);
    forall i | 0 <= i < |acc| - |kept| ensures acc[i] <= cutoff {
      assert i >= m ==> held[i - m] == acc[i];
    }
  }

  lemma SuffixOfSuffix(kept: seq<int>, held: seq<int>, acc: seq<int>)
    requires |kept| <= |held| <= |acc| && kept == held[|held| - |kept|..] && held == acc[|acc| - |held|..]
    ensures kept == acc[|acc| - |kept|..]
  {
  }

  lemma AcceptedSpread(kept: seq<int>, acc: seq<int>, n: nat, w: nat, now: int)
    requires Sorted(acc) && Spread(acc, n, w) && Remembered(kept, acc, now - w) && |kept| < n
    requires forall i :: 0 <= i < |acc| ==> acc[i] <= now
    ensures Tracked(kept + [now], acc + [now], n, w, now)
  {
    var more := acc + [now];
    var k := |acc| - |kept|;
    assert more[k..] == acc[k..] + [now];
    forall j | n <= j < |more| ensures more[j - n] <= more[j] - w {
      assert j < |acc| ==> acc[j - n] <= acc[j] - w;
    }
  }

  lemma NextOwn(h: Hits, c: Call)
    ensures var kept := After(HitsOf(h, c.key), c.now - c.window);
      HitsOf(Next(h, c), c.key) == if Allows(h, c) then kept + [c.now] else kept
  {
  }

  lemma OwnCallCounts(held: seq<int>, acc: seq<int>, n: nat, w: nat, last: int, now: int)
    requires Tracked(held, acc, n, w, last) && last <= now
    ensures |After(held, now - w)| == CountIn(acc, now - w, now)
    ensures Remembered(After(held, now - w), acc, now - w)
  {
    KeptIsCount(held, acc, w, now);
    KeptIsRemembered(held, acc, now - w);
  }

  lemma OwnCall(h: Hits, acc: seq<int>, key: string, c: Call, n: nat, w: nat, last: int)
    requires Tracked(HitsOf(h, key), acc, n, w, last)
    requires c.key == key && c.window == w && c.limit == n && last <= c.now
    ensures Tracked(HitsOf(Next(h, c), key), acc + if Allows(h, c) then [c.now] else [], n, w, c.now)
  {
    NextOwn(h, c);
    OwnTimes(HitsOf(h, key), acc, n, w, last, c.now);
    assert acc + [] == acc;
  }

  // After the key's own call: its time counts too when it was let through.
  lemma OwnTimes(held: seq<int>, acc: seq<int>, n: nat, w: nat, last: int, now: int)
    requires Tracked(held, acc, n, w, last) && last <= now
    ensures var kept := After(held, now - w);
      if |kept| < n then Tracked(kept + [now], acc + [now], n, w, now) else Tracked(kept, acc, n, w, now)
  {
    OwnCallCounts(held, acc, n, w, last, now);
    if |After(held, now - w)| < n {
      AcceptedSpread(After(held, now - w), acc, n, w, now);
    }
  }

  // The time of the last call, or any time at all before the first.
  function LastTime(cs: seq<Call>, now: int): int {
    if |cs| == 0 then now else cs[|cs| - 1].now
  }

  lemma {:induction false} RunTracks(cs: seq<Call>, key: string, n: nat, w: nat, short: nat, now: int)
    requires Fair(cs, key, n, w, short) && short + 1 >= w
    ensures Tracked(HitsOf(Run(cs), key), Accepted(cs, key), n, w, LastTime(cs, now))
  {
    if |cs| > 0 {
      var k := |cs| - 1;
      var pre, c := cs[..k], cs[k];
      RunTracks(pre, key, n, w, short, c.now);
      assert LastTime(pre, c.now) <= c.now;
      var acc := Accepted(pre, key);
      if c.key == key {
        OwnCall(Run(pre), acc, key, c, n, w, LastTime(pre, c.now));
      } else {
        OtherCall(Run(pre), acc, key, c, n, w, LastTime(pre, c.now));
        assert acc + [] == acc;
      }
    }
  }

  /** At most n calls of the key are let through in any window, whatever the other keys do. */
  lemma WindowHolds(cs: seq<Call>, key: string, n: nat, w: nat, short: nat, t: int)
    requires Fair(cs, key, n, w, short) && short + 1 >= w
    ensures CountIn(Accepted(cs, key), t - w, t) <= n
  {
    RunTracks(cs, key, n, w, short, 0);
    SpreadCount(Accepted(cs, key), n, w, t);
  }

  lemma CountDecides(h: Hits, acc: seq<int>, c: Call, w: nat, last: int)
    requires Tracked(HitsOf(h, c.key), acc, c.limit, w, last) && last <= c.now && c.window == w
    ensures Allows(h, c) <==> CountIn(acc, c.now - w, c.now) < c.limit
  {
    OwnCallCounts(HitsOf(h, c.key), acc, c.limit, w, last, c.now);
  }

  /** And no call is turned away unless the window is full: forgetting keys never matters. */
  lemma NoNeedlessRefusal(cs: seq<Call>, c: Call, w: nat, short: nat)
    requires Fair(cs, c.key, c.limit, w, short) && short + 1 >= w && LastTime(cs, c.now) <= c.now && c.window == w
    ensures Allows(Run(cs), c) <==> CountIn(Accepted(cs, c.key), c.now - w, c.now) < c.limit
  {
    RunTracks(cs, c.key, c.limit, w, short, c.now);
    CountDecides(Run(cs), Accepted(cs, c.key), c, w, LastTime(cs, c.now));
  }

  // ---- When a shorter window breaks the bound ----

  function Repeated<T>(x: T, n: nat): (r: seq<T>)
    ensures |r| == n && forall i :: 0 <= i < n ==> r[i] == x
  {
    if n == 0 then [] else Repeated(x, n - 1) + [x]
  }

  function Zeros(n: nat): (r: seq<int>)
    ensures |r| == n && forall i :: 0 <= i < n ==> r[i] == 0
  {
    Repeated(0 as int, n)
  }

  // A full window at time 0, another key's short call once that is out of its own window, one call more.
  function Breach(key: string, other: string, n: nat, w: nat, short: nat): seq<Call> {
    Repeated(Call(key, n, w, 0), n) + [Call(other, 1, short, short + 1)] + [Call(key, n, w, short + 1)]
  }

  lemma {:induction false} AfterAll(ts: seq<int>, cutoff: int)
    requires forall i :: 0 <= i < |ts| ==> ts[i] > cutoff
    ensures After(ts, cutoff) == ts
  {
    if |ts| > 0 {
      AfterAll(ts[..|ts| - 1], cutoff);
    }
  }

  lemma OneMoreZero(h: Hits, key: string, n: nat, w: nat, k: nat)
    requires HitsOf(h, key) == Zeros(k) && k < n && w > 0
    ensures Allows(h, Call(key, n, w, 0)) && HitsOf(Next(h, Call(key, n, w, 0)), key) == Zeros(k) + [0]
  {
    AfterAll(Zeros(k), 0 - w);
    NextOwn(h, Call(key, n, w, 0));
  }

  lemma {:induction false} FillsUp(key: string, n: nat, w: nat, k: nat)
    requires k <= n && w > 0
    ensures HitsOf(Run(Repeated(Call(key, n, w, 0), k)), key) == Zeros(k)
    ensures Accepted(Repeated(Call(key, n, w, 0), k), key) == Zeros(k)
  {
    if k > 0 {
      var front := Repeated(Call(key, n, w, 0), k - 1);
      FillsUp(key, n, w, k - 1);
      OneMoreZero(Run(front), key, n, w, k - 1);
      RunMore(front, Call(key, n, w, 0), key);
    }
  }

  lemma RunMore(cs: seq<Call>, c: Call, key: string)
    ensures Run(cs + [c]) == Next(Run(cs), c)
    ensures Accepted(cs + [c], key) ==
            Accepted(cs, key) + if c.key == key && Allows(Run(cs), c) then [c.now] else []
  {
    assert (cs + [c])[..|cs|] == cs;
  }

  lemma BreachIsFair(key: string, other: string, n: nat, w: nat, short: nat)
    requires key != other
    ensures Fair(Breach(key, other, n, w, short), key, n, w, short)
  {
    var cs := Breach(key, other, n, w, short);
    assert forall i :: 0 <= i < n ==> cs[i] == Call(key, n, w, 0);
    assert cs[n] == Call(other, 1, short, short + 1) && cs[n + 1] == Call(key, n, w, short + 1);
  }

  lemma BreachForgets(key: string, other: string, n: nat, w: nat, short: nat)
    requires key != other && n >= 1 && w > 0
    ensures var cs := Repeated(Call(key, n, w, 0), n) + [Call(other, 1, short, short + 1)];
      HitsOf(Run(cs), key) == [] && Accepted(cs, key) == Zeros(n)
  {
    var full, b := Repeated(Call(key, n, w, 0), n), Call(other, 1, short, short + 1);
    FillsUp(key, n, w, n);
    RunMore(full, b, key);
    assert Zeros(n)[n - 1] == 0;
    ForgottenBy(Run(full), key, b);
    assert Zeros(n) + [] == Zeros(n);
  }

  lemma BreachAccepted(key: string, other: string, n: nat, w: nat, short: nat)
    requires key != other && n >= 1 && w > 0
    ensures Accepted(Breach(key, other, n, w, short), key) == Zeros(n) + [short + 1]
  {
    var cs := Repeated(Call(key, n, w, 0), n) + [Call(other, 1, short, short + 1)];
    BreachForgets(key, other, n, w, short);
    RunMore(cs, Call(key, n, w, short + 1), key);
  }

  /** For every limit a key with a shorter window lets one call too many through: the long-window
      key is forgotten too early. */
  lemma ShortWindowForgets(key: string, other: string, n: nat, w: nat, short: nat)
    requires key != other && n >= 1 && short + 1 < w
    ensures Fair(Breach(key, other, n, w, short), key, n, w, short)
    ensures CountIn(Accepted(Breach(key, other, n, w, short), key), short + 1 - w, short + 1) == n + 1
  {
    BreachIsFair(key, other, n, w, short);
    BreachAccepted(key, other, n, w, short);
    CountWithin(Zeros(n) + [short + 1], short + 1 - w, short + 1);
  }

  function CountAt(ts: seq<int>, w: nat, t: int): nat {
    CountIn(ts, t - w, t)
  }

  predicate NothingPasses(cs: seq<Call>, key: string) {
    forall i :: 0 <= i < |cs| && cs[i].key == key ==> cs[i].limit == 0
  }

  lemma {:induction false} LimitZero(cs: seq<Call>, key: string)
    requires NothingPasses(cs, key)
    ensures Accepted(cs, key) == []
  {
    if |cs| > 0 {
      LimitZero(cs[..|cs| - 1], key);
    }
  }

  /** The bound holds on every run, with other keys' windows down to `short`, exactly when `short` is
      at least one less than the key's own window (or nothing is let through at all). */
  lemma BoundIffWindowsReach(key: string, n: nat, w: nat, short: nat)
    ensures (forall cs, t :: Fair(cs, key, n, w, short) ==> CountAt(Accepted(cs, key), w, t) <= n) <==>
            n == 0 || short + 1 >= w
  {
    if n == 0 {
      forall cs, t | Fair(cs, key, n, w, short) ensures CountAt(Accepted(cs, key), w, t) <= n {
        LimitZero(cs, key);
      }
    } else if short + 1 >= w {
      forall cs, t | Fair(cs, key, n, w, short) ensures CountAt(Accepted(cs, key), w, t) <= n {
        WindowHolds(cs, key, n, w, short, t);
      }
    } else {
      ShortWindowForgets(key, key + "x", n, w, short);
      var cs := Breach(key, key + "x", n, w, short);
      assert Fair(cs, key, n, w, short) && CountAt(Accepted(cs, key), w, short + 1) == n + 1;
    }
  }

  lemma ForgottenBy(h: Hits, key: string, c: Call)
    requires c.key != key && Stale(HitsOf(h, key), c.now - c.window)
    ensures HitsOf(Next(h, c), key) == []
  {
  }

  // ---- The limiter ----

  // A slice header: a buffer and how much of it is in use.
  datatype Slice = Slice(buf: array<int>, len: nat)

  /** Keeps the times after the cutoff, moved to the front of the same buffer. */
  method Compact(buf: array<int>, len: nat, cutoff: int) returns (n: nat)
    requires len <= buf.Length
    modifies buf
    ensures n <= len && buf[..n] == After(old(buf[..len]), cutoff)
  {
    n := 0;
    ghost var was := buf[..len];
    for i := 0 to len
      invariant n <= i && buf[..n] == After(was[..i], cutoff)
      invariant forall k :: i <= k < len ==> buf[k] == was[k]
    {
      assert was[..i + 1][..i] == was[..i];
      if buf[i] > cutoff {
        buf[n] := buf[i];
        n := n + 1;
      }
    }
    assert was[..len] == was;
  }

  method Append(buf: array<int>, len: nat, t: int) returns (r: Slice)
    requires len <= buf.Length
    modifies buf
    ensures r.len == len + 1 <= r.buf.Length && (r.buf == buf || fresh(r.buf))
    ensures r.buf[..len + 1] == old(buf[..len]) + [t]
  {
    if len < buf.Length {
      buf[len] := t;
      r := Slice(buf, len + 1);
    } else {
      var bigger := new int[2 * len + 1];
      for i := 0 to len
        invariant bigger[..i] == buf[..i]
        invariant buf[..] == old(buf[..])
      {
        bigger[i] := buf[i];
      }
      bigger[len] := t;
      r := Slice(bigger, len + 1);
    }
  }

  class Limiter {
    var hits: map<string, Slice>
    ghost var times: Hits  // what the slices hold
    ghost var buffers: set<array<int>>

    // Each key has a buffer of its own.
    ghost predicate Apart()
      reads this
    {
      && times.Keys == hits.Keys
      && (forall k :: k in hits ==> hits[k].buf in buffers && hits[k].len <= hits[k].buf.Length)
      && (forall j, k :: j in hits && k in hits && j != k ==> hits[j].buf != hits[k].buf)
    }

    ghost predicate Holds(k: string)
      requires Apart() && k in hits
      reads this, buffers
    {
      hits[k].buf[..hits[k].len] == times[k]
    }

    // Each buffer holds its key's times, but for one key's perhaps.
    ghost predicate ValidBut(key: string)
      reads this, buffers
    {
      Apart() && forall k :: k in hits && k != key ==> Holds(k)
    }

    ghost predicate Valid()
      reads this, buffers
    {
      Apart() && forall k :: k in hits ==> Holds(k)
    }

    constructor ()
      ensures Valid() && times == map[] && buffers == {}
    {
      hits, times, buffers := map[], map[], {};
    }

    /** One call: the answer and the times held afterwards are those of the specification. */
    method Allow(key: string, limit: nat, window: nat, now: int) returns (ok: bool)
      requires Valid()
      modifies this, buffers
      ensures Valid() && fresh(buffers - old(buffers))
      ensures ok == Allows(old(times), Call(key, limit, window, now))
      ensures times == Next(old(times), Call(key, limit, window, now))
    {
      var buf, n := Sweep(key, now - window);
      ok := n < limit;
      Record(key, buf, n, ok, now);
    }

    // The key's own recent times, set aside, and the other keys' stale ones gone.
    method Sweep(key: string, cutoff: int) returns (buf: array<int>, n: nat)
      requires Valid()
      modifies this`hits, this`times, buffers
      ensures ValidBut(key) && n <= buf.Length && n == |After(HitsOf(old(times), key), cutoff)|
      ensures buf[..n] == After(HitsOf(old(times), key), cutoff)
      ensures times == Pruned(old(times), key, cutoff)
      ensures forall k :: k in hits && k != key ==> hits[k].buf != buf
      ensures buf in buffers || fresh(buf)
    {
      buf, n := KeepRecent(key, cutoff);
      PruneOthers(key, cutoff);
    }

    // Compacts the key's own times, or starts an empty list for it.
    method KeepRecent(key: string, cutoff: int) returns (buf: array<int>, n: nat)
      requires Valid()
      modifies buffers
      ensures ValidBut(key)
      ensures n <= buf.Length && buf[..n] == After(HitsOf(times, key), cutoff)
      ensures n == |After(HitsOf(times, key), cutoff)|
      ensures forall k :: k in hits && k != key ==> hits[k].buf != buf
      ensures buf in buffers || fresh(buf)
    {
      if key in hits {
        buf := hits[key].buf;
        assert Holds(key);
        n := Compact(buf, hits[key].len, cutoff);
        forall k | k in hits && k != key ensures Holds(k) {
          assert old(Holds(k)) && hits[k].buf != buf;
        }
      } else {
        buf := new int[0];
        n := 0;
        forall k | k in hits ensures Holds(k) {
          assert old(Holds(k));
        }
      }
      assert |buf[..n]| == n;
    }

    method PruneOthers(key: string, cutoff: int)
      requires ValidBut(key)
      modifies this`hits, this`times
      ensures ValidBut(key)
      ensures times == Pruned(old(times), key, cutoff)
      ensures forall k :: k in hits ==> k in old(hits) && hits[k] == old(hits)[k]
    {
      var todo := hits.Keys;
      while todo != {}
        invariant ValidBut(key) && todo <= hits.Keys
        invariant forall k :: k in hits ==> k in old(hits) && hits[k] == old(hits)[k]
        invariant forall k :: k in times ==> k in old(times) && times[k] == old(times)[k]
        invariant forall k :: k in old(times) ==>
          (k in times <==> k in todo || k == key || !Stale(old(times)[k], cutoff))
        decreases todo
      {
        var k :| k in todo;
        todo := todo - {k};
        if k != key {
          PruneOne(key, k, cutoff);
        }
      }
    }

    method PruneOne(key: string, k: string, cutoff: int)
      requires ValidBut(key) && k in hits && k != key
      modifies this`hits, this`times
      ensures ValidBut(key)
      ensures hits == if Stale(old(times)[k], cutoff) then old(hits) - {k} else old(hits)
      ensures times == if Stale(old(times)[k], cutoff) then old(times) - {k} else old(times)
    {
      var v := hits[k];
      assert Holds(k);
      if v.len == 0 || v.buf[v.len - 1] < cutoff {
        hits := hits - {k};
        times := times - {k};
        forall j | j in hits && j != key ensures Holds(j) {
          assert old(Holds(j));
        }
      }
    }

    // Puts the key's times back, with this call's when it is let through.
    method Record(key: string, buf: array<int>, n: nat, ok: bool, now: int)
      requires ValidBut(key) && n <= buf.Length
      requires forall k :: k in hits && k != key ==> hits[k].buf != buf
      modifies this, buf
      ensures Valid() && fresh(buffers - old(buffers) - {buf})
      ensures times == old(times)[key := if ok then old(buf[..n]) + [now] else old(buf[..n])]
    {
      var slice := Slice(buf, n);
      if ok {
        slice := Append(buf, n, now);
        forall k | k in hits && k != key ensures Holds(k) && hits[k].buf != slice.buf {
          assert old(Holds(k)) && hits[k].buf != buf;
        }
      }
      Store(key, slice);
    }

    method Store(key: string, slice: Slice)
      requires ValidBut(key) && slice.len <= slice.buf.Length
      requires forall k :: k in hits && k != key ==> hits[k].buf != slice.buf
      modifies this
      ensures Valid() && buffers == old(buffers) + {slice.buf}
      ensures times == old(times)[key := slice.buf[..slice.len]]
    {
      hits := hits[key := slice];
      times := times[key := slice.buf[..slice.len]];
      buffers := buffers + {slice.buf};
      forall k | k in hits ensures Holds(k) {
        assert k != key ==> old(Holds(k));
      }
    }
  }
}
