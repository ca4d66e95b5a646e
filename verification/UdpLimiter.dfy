/** The honeypot's limit on UDP responses per (port, source). */
module UdpLimiter {
  import opened Window

  type Key = (int, string)

  class Limiter {
    const window: real
    const limit: nat
    const maxClients: nat
    var windows: map<Key, seq<real>>
    /** The times of every response allowed so far, and the latest time seen. */
    ghost var allowed: map<Key, seq<real>>
    ghost var clock: real

    constructor (window: real, limit: nat, maxClients: nat, now: real)
      requires window > 0.0 && limit >= 1
      ensures Valid() && allowed == map[] && clock == now
      ensures this.window == window && this.limit == limit && this.maxClients == maxClients
    {
      this.window, this.limit, this.maxClients := window, limit, maxClients;
      windows, allowed, clock := map[], map[], now;
    }

    ghost predicate Valid()
      reads this
    {
      window > 0.0 && limit >= 1 && Tracked(windows, allowed, clock, window, limit)
    }

    /** Past the cap, drops the keys whose window has emptied. No history changes. */
    method Evict(now: real)
      requires Valid() && clock <= now
      modifies this`windows, this`clock
      ensures Valid() && clock == now
    {
      var cutoff := now - window;
      var kept := windows;
      if |windows| > maxClients {
        kept := map k | k in windows && !Stale(windows[k], cutoff) :: windows[k];
      }
      TrackedEvict(windows, kept, allowed, clock, now, window, limit);
      windows, clock := kept, now;
    }

    /** A response is allowed exactly when fewer than the limit were allowed to that port and
        source in the last window, counted over the whole history: what was evicted or
        trimmed never changes a decision. */
    method ResponseAllowed(port: int, source: string, now: real) returns (ok: bool)
      requires Valid() && clock <= now
      modifies this
      ensures Valid() && (source != "" ==> clock == now)
      ensures var key := (port, source);
        && (ok <==> source != "" && LaterThan(Get(old(allowed), key), now - window) < limit)
        && allowed == if ok then old(allowed)[key := Get(old(allowed), key) + [now]] else old(allowed)
    {
      if source == "" {
        return false;
      }
      Evict(now);
      ok := Allow((port, source), now);
    }

    method Allow(key: Key, now: real) returns (ok: bool)
      requires Valid() && clock == now
      modifies this`windows, this`allowed
      ensures Valid() && (ok <==> LaterThan(Get(old(allowed), key), now - window) < limit)
      ensures allowed == if ok then old(allowed)[key := Get(old(allowed), key) + [now]] else old(allowed)
    {
      ghost var history := Get(allowed, key);
      var seen := Recent(key, now);
      ok := |seen| < limit;
      if ok {
        TrackedUpdate(windows, allowed, clock, window, limit, key, seen + [now], history + [now]);
        windows, allowed := windows[key := seen + [now]], allowed[key := history + [now]];
      } else {
        TrackedTrim(windows, allowed, clock, window, limit, key, seen);
        windows := windows[key := seen];
      }
    }

    /** The deque of a key, trimmed: as many as were allowed in the window. */
    method Recent(key: Key, now: real) returns (seen: seq<real>)
      requires Valid() && clock == now
      ensures |seen| == LaterThan(Get(allowed, key), now - window)
      ensures Tight(Get(allowed, key), seen, now, window, limit)
      ensures |seen| < limit ==> Tight(Get(allowed, key) + [now], seen + [now], now, window, limit)
    {
      ghost var history := Get(allowed, key);
      var deque := Get(windows, key);
      DequeRising(history, deque, now, window, limit);
      seen := Trim(deque, now - window, true);
      TightStep(history, deque, seen, now, window, limit);
    }
  }

  /** The deque of a key is its allowed times but for some that left the window; and any
      `limit + 1` allowed times span at least a window. */
  ghost predicate Tight(history: seq<real>, deque: seq<real>, clock: real, window: real, limit: nat) {
    Tail(history, deque, clock - window) && Rising(history) && UpTo(history, clock) && Spaced(history, limit, window)
  }

  ghost predicate Tracked(windows: map<Key, seq<real>>, allowed: map<Key, seq<real>>, clock: real, window: real,
                          limit: nat) {
    forall key {:trigger Get(allowed, key)} {:trigger Get(windows, key)} ::
      Tight(Get(allowed, key), Get(windows, key), clock, window, limit)
  }

  predicate Stale(deque: seq<real>, cutoff: real) { deque == [] || deque[|deque| - 1] <= cutoff }

  lemma {:induction false} TrackedEvict(windows: map<Key, seq<real>>, kept: map<Key, seq<real>>,
      allowed: map<Key, seq<real>>, past: real, now: real, window: real, limit: nat)
    requires Tracked(windows, allowed, past, window, limit) && past <= now
    requires forall k {:trigger Get(kept, k)} ::
               Get(kept, k) == Get(windows, k) || (Get(kept, k) == [] && Stale(Get(windows, k), now - window))
    ensures Tracked(kept, allowed, now, window, limit)
  {
    forall k ensures Tight(Get(allowed, k), Get(kept, k), now, window, limit) {
      TightLater(Get(allowed, k), Get(windows, k), past, now, window, limit);
    }
  }

  lemma {:induction false} TrackedUpdate(windows: map<Key, seq<real>>, allowed: map<Key, seq<real>>, clock: real,
      window: real, limit: nat, key: Key, deque: seq<real>, history: seq<real>)
    requires Tracked(windows, allowed, clock, window, limit) && Tight(history, deque, clock, window, limit)
    ensures Tracked(windows[key := deque], allowed[key := history], clock, window, limit)
  {
    var windows', allowed' := windows[key := deque], allowed[key := history];
    forall k ensures Tight(Get(allowed', k), Get(windows', k), clock, window, limit) {
      assert Tight(Get(allowed, k), Get(windows, k), clock, window, limit);
    }
  }

  lemma {:induction false} TrackedTrim(windows: map<Key, seq<real>>, allowed: map<Key, seq<real>>, clock: real,
      window: real, limit: nat, key: Key, deque: seq<real>)
    requires Tracked(windows, allowed, clock, window, limit) && Tight(Get(allowed, key), deque, clock, window, limit)
    ensures Tracked(windows[key := deque], allowed, clock, window, limit)
  {
    forall k ensures Tight(Get(allowed, k), Get(windows[key := deque], k), clock, window, limit) {
      assert Tight(Get(allowed, k), Get(windows, k), clock, window, limit);
    }
  }

  lemma {:induction false} DequeRising(history: seq<real>, deque: seq<real>, clock: real, window: real, limit: nat)
    requires Tight(history, deque, clock, window, limit)
    ensures Rising(deque)
  {
  }

  lemma {:induction false} TightLater(history: seq<real>, deque: seq<real>, past: real, now: real, window: real,
                                      limit: nat)
    requires Tight(history, deque, past, window, limit) && past <= now
    ensures Tight(history, deque, now, window, limit)
    ensures Stale(deque, now - window) ==> Tight(history, [], now, window, limit)
  {
    TailLater(history, deque, past - window, now - window);
  }

  lemma {:induction false} TightStep(history: seq<real>, deque: seq<real>, seen: seq<real>, clock: real,
                                     window: real, limit: nat)
    requires Tight(history, deque, clock, window, limit) && seen == Filter(deque, clock - window, true)
    ensures |seen| == LaterThan(history, clock - window) && Tight(history, seen, clock, window, limit)
    ensures |seen| < limit ==> Tight(history + [clock], seen + [clock], clock, window, limit)
  {
    TailTrim(history, deque, seen, clock - window);
    FilterCounts(history, clock - window);
    if |seen| < limit {
      TailSnoc(history, seen, clock - window, clock);
      SpacedSnoc(history, limit, window, clock);
      RisingSnoc(history, clock);
    }
  }

  /** `deque` is `history` without some of its oldest entries, all of them outside the window. */
  ghost predicate Tail(history: seq<real>, deque: seq<real>, cutoff: real) {
    && |deque| <= |history| && deque == history[|history| - |deque|..]
    && forall i :: 0 <= i < |history| - |deque| ==> history[i] <= cutoff
  }

  ghost predicate Spaced(history: seq<real>, limit: nat, window: real) {
    forall i, j :: 0 <= i && j == i + limit && j < |history| ==> history[j] - history[i] >= window
  }

  lemma {:induction false} SpacedAt(history: seq<real>, limit: nat, window: real, i: nat)
    requires Spaced(history, limit, window) && i + limit < |history|
    ensures history[i + limit] - history[i] >= window
  {
  }

  /** As time passes a deque stays a tail; and once its last entry is stale, so does the empty one. */
  lemma {:induction false} TailLater(history: seq<real>, deque: seq<real>, c: real, d: real)
    requires Tail(history, deque, c) && c <= d && Rising(history)
    ensures Tail(history, deque, d)
    ensures Stale(deque, d) ==> Tail(history, [], d)
  {
    if deque != [] { assert deque[|deque| - 1] == history[|history| - 1]; }
  }

  lemma {:induction false} TailTrim(history: seq<real>, deque: seq<real>, seen: seq<real>, cutoff: real)
    requires Tail(history, deque, cutoff) && Rising(history) && seen == Filter(deque, cutoff, true)
    ensures Rising(deque) && seen == Filter(history, cutoff, true) && Tail(history, seen, cutoff)
  {
    var n := |history| - |deque|;
    assert history == history[..n] + deque;
    FilterConcat(history[..n], deque, cutoff, true);
    FilterNone(history[..n], cutoff, true);
    var k := FirstKept(history, cutoff, true);
    FilterIsSuffix(history, k, cutoff, true);
  }

  lemma {:induction false} TailSnoc(history: seq<real>, seen: seq<real>, cutoff: real, now: real)
    requires Tail(history, seen, cutoff)
    ensures Tail(history + [now], seen + [now], cutoff)
  {
  }

  lemma {:induction false} SpacedSnoc(history: seq<real>, limit: nat, window: real, now: real)
    requires Spaced(history, limit, window) && Rising(history)
    requires |Filter(history, now - window, true)| < limit
    ensures Spaced(history + [now], limit, window)
  {
    var k := |history| - limit;
    if k >= 0 && history[k] > now - window {
      FilterKeepsTail(history, k, now - window, true);
      assert false;
    }
  }

  /** So no window ever holds more than the limit: of the responses allowed up to a time `t`,
      at most `limit` lie in the window that ends at `t`. */
  lemma {:induction false} NoWindowOverLimit(history: seq<real>, limit: nat, window: real, t: real)
    requires Spaced(history, limit, window) && Rising(history) && UpTo(history, t)
    ensures LaterThan(history, t - window) <= limit
  {
    var k := FirstKept(history, t - window, true);
    FilterIsSuffix(history, k, t - window, true);
    FilterCounts(history, t - window);
    if |history| - k > limit {
      SpacedAt(history, limit, window, k);
      assert false;
    }
  }
}
