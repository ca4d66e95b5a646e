/** The failed-authentication limiter and the request guard that drives it. */
module AuthLimiter {
  import opened Window

  datatype Entry = Entry(failures: seq<real>, blockedUntil: real, strikes: nat, seenAt: real)

  /** A lockout: when it was applied and when it ends. */
  datatype Lock = Lock(at: real, end: real)

  /** What happened to a client since its entry was created: all failures since its last strike,
      and all its lockouts. */
  datatype Life = Life(since: seq<real>, locks: seq<Lock>)

  /** All lockouts ever applied to each client, over all its lives. */
  type Record = map<string, seq<Lock>>

  function Locks(record: Record, key: string): seq<Lock> { if key in record then record[key] else [] }

  function AddLock(record: Record, key: string, lock: Lock): Record { record[key := Locks(record, key) + [lock]] }

  datatype Config = Config(window: real, threshold: nat, base: real, max: real, maxClients: nat) {
    ghost predicate Ok() { window >= 1.0 && threshold >= 1 && base >= 1.0 && max >= base && maxClients >= 1 }

    /** The lockout of the `k`-th strike. */
    function Lockout(k: nat): real
      requires k >= 1
    {
      var doubled := base * Pow2(k - 1);
      if doubled <= max then doubled else max
    }

    /** The failures that count at `now`. */
    function Counted(since: seq<real>, now: real): seq<real> { Filter(since, now - window, true) }
  }

  function Pow2(n: nat): real { if n == 0 then 1.0 else 2.0 * Pow2(n - 1) }

  /** An entry says what its client's life says: the deque is the failures since the last
      strike filtered to the window, below the threshold; the strikes and the block are those
      of the lockouts, the k-th of which lasted `Lockout(k)`. */
  ghost predicate Faithful(e: Entry, life: Life, c: Config, clock: real) {
    && Rising(life.since) && UpTo(life.since, clock)
    && e.failures == (if life.since == [] then [] else c.Counted(life.since, life.since[|life.since| - 1]))
    && |e.failures| < c.threshold
    && e.strikes == |life.locks|
    && e.blockedUntil == (if life.locks == [] then 0.0 else life.locks[|life.locks| - 1].end)
    && (forall i :: 0 <= i < |life.locks| ==>
          life.locks[i].end == life.locks[i].at + c.Lockout(i + 1) && life.locks[i].at <= clock)
  }

  /** The books are right about one client: its entry is faithful to its life, and the
      lockouts of this life are on record. */
  ghost predicate Booked(clients: map<string, Entry>, lives: map<string, Life>, record: Record,
                         c: Config, clock: real, k: string)
  {
    && (k in clients <==> k in lives)
    && (k in clients ==> Faithful(clients[k], lives[k], c, clock))
    && (k in lives ==> forall l :: l in lives[k].locks ==> l in Locks(record, k))
  }

  ghost predicate Books(clients: map<string, Entry>, lives: map<string, Life>, record: Record,
                        c: Config, clock: real)
  {
    forall k {:trigger Booked(clients, lives, record, c, clock, k)} :: Booked(clients, lives, record, c, clock, k)
  }

  lemma {:induction false} BooksLater(clients: map<string, Entry>, lives: map<string, Life>, record: Record,
                                      c: Config, past: real, now: real)
    requires Books(clients, lives, record, c, past) && past <= now
    ensures Books(clients, lives, record, c, now)
  {
    forall k ensures Booked(clients, lives, record, c, now, k) {
      assert Booked(clients, lives, record, c, past, k);
    }
  }

  lemma {:induction false} BooksTouch(clients: map<string, Entry>, lives: map<string, Life>, record: Record,
                                      c: Config, clock: real, key: string, seenAt: real)
    requires Books(clients, lives, record, c, clock) && key in clients
    ensures Books(clients[key := clients[key].(seenAt := seenAt)], lives, record, c, clock)
  {
    var clients' := clients[key := clients[key].(seenAt := seenAt)];
    forall k ensures Booked(clients', lives, record, c, clock, k) {
      assert Booked(clients, lives, record, c, clock, k);
    }
  }

  lemma {:induction false} BooksForget(clients: map<string, Entry>, lives: map<string, Life>, record: Record,
                                       c: Config, clock: real, gone: set<string>)
    requires Books(clients, lives, record, c, clock)
    ensures Books(clients - gone, lives - gone, record, c, clock)
  {
    var clients', lives' := clients - gone, lives - gone;
    forall k ensures Booked(clients', lives', record, c, clock, k) {
      assert Booked(clients, lives, record, c, clock, k);
    }
  }

  lemma {:induction false} BooksPut(clients: map<string, Entry>, lives: map<string, Life>, record: Record,
                                    c: Config, clock: real, key: string, e: Entry, life: Life, record': Record)
    requires Books(clients, lives, record, c, clock) && Faithful(e, life, c, clock)
    requires (record' == record || exists lock :: record' == AddLock(record, key, lock))
    requires forall l :: l in life.locks ==> l in Locks(record', key)
    ensures Books(clients[key := e], lives[key := life], record', c, clock)
  {
    var clients', lives' := clients[key := e], lives[key := life];
    forall k ensures Booked(clients', lives', record', c, clock, k) {
      assert Booked(clients, lives, record, c, clock, k);
    }
  }

  /** No lockout of a life was applied inside an earlier one. */
  ghost predicate Apart(locks: seq<Lock>) {
    forall i, j :: 0 <= i < j < |locks| ==> locks[i].end <= locks[j].at
  }

  ghost predicate AllApart(lives: map<string, Life>) {
    forall k :: k in lives ==> Apart(lives[k].locks)
  }

  datatype Verdict = Passed | RateLimited(retryAfter: real) | Rejected(lockout: real)

  class Limiter {
    const config: Config
    var clients: map<string, Entry>
    ghost var lives: map<string, Life>
    ghost var record: Record
    ghost var clock: real

    constructor (config: Config, now: real)
      requires config.Ok() && now >= 0.0
      ensures Valid() && clients == map[] && lives == map[] && record == map[] && clock == now
      ensures this.config == config && AllApart(lives)
    {
      this.config := config;
      clients, lives, record, clock := map[], map[], map[], now;
    }

    ghost predicate Valid()
      reads this
    {
      config.Ok() && clock >= 0.0 && |clients| <= config.maxClients && Books(clients, lives, record, config, clock)
    }

    /** Time passes. */
    ghost method Advance(now: real)
      requires Valid() && clock <= now
      modifies this`clock
      ensures Valid() && clock == now
    {
      BooksLater(clients, lives, record, config, clock, now);
      clock := now;
    }

    /** Looks at the block of a client; the time left is positive exactly when it is turned away. */
    method Check(key: string, now: real) returns (allowed: bool, retryAfter: real)
      requires Valid() && clock <= now
      modifies this`clients, this`clock
      ensures Valid() && clock == now
      ensures clients ==
              if key in old(clients) then old(clients)[key := old(clients)[key].(seenAt := now)] else old(clients)
      ensures allowed <==> !(key in clients && now < clients[key].blockedUntil)
      ensures retryAfter == if allowed then 0.0 else clients[key].blockedUntil - now
    {
      Advance(now);
      if key !in clients {
        return true, 0.0;
      }
      var entry := clients[key];
      BooksTouch(clients, lives, record, config, clock, key, now);
      clients := clients[key := entry.(seenAt := now)];
      var remaining := entry.blockedUntil - now;
      if remaining > 0.0 {
        return false, remaining;
      }
      return true, 0.0;
    }

    /** The client's entry goes, and its life ends. */
    method RegisterSuccess(key: string)
      requires Valid()
      modifies this`clients, this`lives
      ensures Valid() && clients == old(clients) - {key} && lives == old(lives) - {key}
    {
      BooksForget(clients, lives, record, config, clock, {key});
      clients := clients - {key};
      lives := lives - {key};
    }

    /** Makes room for one more client: first the idle ones go, then the longest unseen. */
    method Evict(now: real)
      requires Valid() && clock == now
      modifies this`clients, this`lives
      ensures Valid() && |clients| < config.maxClients
      ensures Kept(lives, old(lives)) && MadeRoom(old(clients), clients, config, now)
    {
      if |clients| < config.maxClients {
        return;
      }
      var stale := ListIdle(clients, config, now);
      Forget(stale);
      while |clients| >= config.maxClients
        invariant Valid() && Kept(lives, old(lives))
        invariant Kept(clients, old(clients)) && LongestUnseenGone(old(clients), clients, config, now)
        invariant |clients| >= config.maxClients - 1 || clients.Keys == old(clients).Keys - stale
        decreases |clients|
      {
        var oldest := LongestUnseen(clients);
        Forget({oldest});
      }
    }

    method Forget(gone: set<string>)
      requires Valid() && gone <= clients.Keys
      modifies this`clients, this`lives
      ensures Valid() && clients == old(clients) - gone && lives == old(lives) - gone
      ensures |clients| == |old(clients)| - |gone|
    {
      BooksForget(clients, lives, record, config, clock, gone);
      ghost var keys := clients.Keys;
      clients := clients - gone;
      lives := lives - gone;
      assert clients.Keys == keys - gone && |keys - gone| == |keys| - |gone|;
    }

    /** The entry of a client, created (after making room) if it has none. */
    method GetEntry(key: string, now: real) returns (entry: Entry)
      requires Valid() && clock == now
      modifies this`clients, this`lives, this`record
      ensures record == old(record)
      ensures Valid() && key in clients && key in lives &&
              clients[key] == entry && entry.seenAt == now && lives[key] == Before(old(lives), key)
      ensures Subset(lives, old(lives), key) && LetIn(old(clients), clients, key, config, now)
    {
      assert Booked(clients, lives, record, config, clock, key);
      if key in clients {
        entry := clients[key].(seenAt := now);
        BooksTouch(clients, lives, record, config, clock, key, now);
        clients := clients[key := entry];
      } else {
        entry := Entry([], 0.0, 0, now);
        Admit(key, entry);
      }
    }

    /** A client without an entry gets one, in the place of others if there is none left. */
    method Admit(key: string, entry: Entry)
      requires Valid() && key !in clients && entry == Entry([], 0.0, 0, clock)
      modifies this`clients, this`lives, this`record
      ensures Valid() && record == old(record) && key in clients && key in lives && clients[key] == entry
      ensures lives[key] == Life([], []) && Subset(lives, old(lives), key)
      ensures MadeRoom(old(clients), clients - {key}, config, clock)
    {
      Evict(entry.seenAt);
      ghost var rest := clients;
      Put(key, entry, Life([], []), record);
      assert clients - {key} == rest;
    }

    /** Records one rejected attempt. Counting only what the window still holds is counting every
        failure since the last strike; the k-th strike of a life locks it out for `Lockout(k)`. */
    method RegisterFailure(key: string, now: real) returns (lockout: real)
      requires Valid() && clock <= now
      modifies this
      ensures Valid() && clock == now && key in lives && key in clients && clients[key].seenAt == now
      ensures Failed(Before(old(lives), key), lives[key], old(record), record, key, now, lockout, config)
      ensures Subset(lives, old(lives), key) && LetIn(old(clients), clients, key, config, now)
    {
      Advance(now);
      var entry := GetEntry(key, now);
      lockout := CountFailure(key, entry, now);
    }

    /** Appends the failure to the deque, trims it, and strikes if it has filled up. */
    method CountFailure(key: string, entry: Entry, now: real) returns (lockout: real)
      requires Valid() && clock == now && key in clients && key in lives && clients[key] == entry
      modifies this`clients, this`lives, this`record
      ensures Valid() && key in lives && key in clients && clients[key].seenAt == now
      ensures Failed(old(lives)[key], lives[key], old(record), record, key, now, lockout, config)
      ensures Subset(lives, old(lives), key) && key in clients && clients - {key} == old(clients) - {key}
    {
      assert Booked(clients, lives, record, config, clock, key);
      DequeRising(entry, lives[key], config, clock);
      var failures := Trim(entry.failures + [now], now - config.window, true);
      DequeCounts(entry, lives[key], config, now);
      FilterCounts(lives[key].since + [now], now - config.window);
      if |failures| < config.threshold {
        Remember(key, entry, failures, now);
        return 0.0;
      }
      lockout := Strike(key, entry, now);
    }

    method Remember(key: string, entry: Entry, failures: seq<real>, now: real)
      requires Valid() && clock == now && key in clients && key in lives && clients[key] == entry
      requires failures == config.Counted(lives[key].since + [now], now) && |failures| < config.threshold
      modifies this`clients, this`lives, this`record
      ensures Valid() && record == old(record)
      ensures clients == old(clients)[key := Entry(failures, entry.blockedUntil, entry.strikes, now)]
      ensures lives == old(lives)[key := old(lives)[key].(since := old(lives)[key].since + [now])]
    {
      ghost var life := lives[key];
      assert Booked(clients, lives, record, config, clock, key);
      FaithfulFailure(entry, life, config, now);
      Put(key, Entry(failures, entry.blockedUntil, entry.strikes, now), life.(since := life.since + [now]), record);
    }

    /** The next lockout in the doubling series begins, and the failures so far are used up. */
    method Strike(key: string, entry: Entry, now: real) returns (lockout: real)
      requires Valid() && clock == now && key in clients && key in lives && clients[key] == entry
      modifies this`clients, this`lives, this`record
      ensures Valid() && lockout == config.Lockout(|old(lives)[key].locks| + 1)
      ensures clients == old(clients)[key := Entry([], now + lockout, entry.strikes + 1, now)]
      ensures lives == old(lives)[key := Life([], old(lives)[key].locks + [Lock(now, now + lockout)])]
      ensures record == AddLock(old(record), key, Lock(now, now + lockout))
    {
      ghost var life := lives[key];
      assert Booked(clients, lives, record, config, clock, key);
      lockout := config.Lockout(entry.strikes + 1);
      FaithfulStrike(entry, life, config, now);
      Put(key, Entry([], now + lockout, entry.strikes + 1, now), Life([], life.locks + [Lock(now, now + lockout)]),
          AddLock(record, key, Lock(now, now + lockout)));
    }

    /** The gate of every API request, one at a time. A failing request is turned away exactly while
        a lockout of its source's present life is running; so no strike ever falls inside an earlier
        lockout of the same life, while one of a forgotten life may still be running. */
    method Guard(key: string, authenticated: bool, now: real) returns (verdict: Verdict)
      requires Valid() && clock <= now && AllApart(lives)
      modifies this
      ensures Valid() && AllApart(lives) && (!authenticated ==> clock == now)
      ensures authenticated <==> verdict.Passed?
      ensures authenticated ==> clients == old(clients) - {key} && lives == old(lives) - {key} && record == old(record)
      ensures verdict.RateLimited? <==> !authenticated && key in old(clients) && now < old(clients)[key].blockedUntil
      ensures verdict.RateLimited? <==> !authenticated && Locked(old(lives), key, now)
      ensures verdict.RateLimited? ==> Running(old(record), key, now)
      ensures verdict.RateLimited? ==>
                && key in old(clients) && verdict.retryAfter == old(clients)[key].blockedUntil - now
                && verdict.retryAfter > 0.0 && lives == old(lives) && record == old(record)
                && clients == old(clients)[key := old(clients)[key].(seenAt := now)]
      ensures verdict.Rejected? ==>
                && key in clients && clients[key].seenAt == now && key in lives && Subset(lives, old(lives), key)
                && LetIn(old(clients), clients, key, config, now)
                && Failed(Before(old(lives), key), lives[key], old(record), record, key, now, verdict.lockout, config)
    {
      if authenticated {
        RegisterSuccess(key);
        return Passed;
      }
      assert Booked(clients, lives, record, config, clock, key);
      var allowed, retryAfter := Check(key, now);
      LockedIsBlocked(clients, lives, record, config, clock, key);
      if !allowed {
        return RateLimited(retryAfter);
      }
      var lockout := FailUnblocked(key, now);
      verdict := Rejected(lockout);
    }

    /** A failure of a client that is not blocked keeps the lockouts of every life apart. */
    method FailUnblocked(key: string, now: real) returns (lockout: real)
      requires Valid() && clock == now && AllApart(lives) && (key in clients ==> clients[key].blockedUntil <= now)
      modifies this
      ensures Valid() && clock == now && AllApart(lives)
      ensures key in clients && clients[key].seenAt == now && key in lives && Subset(lives, old(lives), key)
      ensures LetIn(old(clients), clients, key, config, now)
      ensures Failed(Before(old(lives), key), lives[key], old(record), record, key, now, lockout, config)
    {
      StrikeApart(clients, lives, record, config, clock, key);
      lockout := RegisterFailure(key, now);
      assert Booked(clients, lives, record, config, clock, key);
    }

    method Put(key: string, e: Entry, ghost life: Life, ghost record': Record)
      requires Valid() && Faithful(e, life, config, clock)
      requires key in clients || |clients| < config.maxClients
      requires (record' == record || exists lock :: record' == AddLock(record, key, lock))
      requires forall l :: l in life.locks ==> l in Locks(record', key)
      modifies this`clients, this`lives, this`record
      ensures Valid() && clients == old(clients)[key := e] && lives == old(lives)[key := life] && record == record'
    {
      BooksPut(clients, lives, record, config, clock, key, e, life, record');
      ghost var keys := clients.Keys;
      clients := clients[key := e];
      assert clients.Keys == keys + {key};
      lives := lives[key := life];
      record := record';
    }
  }

  /** Not blocked, and without a failure that still counts. */
  predicate Idle(e: Entry, c: Config, now: real) {
    e.blockedUntil <= now && (e.failures == [] || e.failures[|e.failures| - 1] <= now - c.window)
  }

  /** An idle client has no lockout running and no failure since its last strike in the window. */
  lemma {:induction false} IdleMeans(clients: map<string, Entry>, lives: map<string, Life>, record: Record,
                                     c: Config, now: real, key: string)
    requires Books(clients, lives, record, c, now) && AllApart(lives) && c.Ok() && now >= 0.0 && key in clients
    ensures key in lives
    ensures Idle(clients[key], c, now) <==>
              !Locked(lives, key, now) && LaterThan(lives[key].since, now - c.window) == 0
  {
    assert Booked(clients, lives, record, c, now, key);
    LockedIsBlocked(clients, lives, record, c, now, key);
    var since := lives[key].since;
    if since != [] {
      var k := FirstKept(since, since[|since| - 1] - c.window, true);
      FilterIsSuffix(since, k, since[|since| - 1] - c.window, true);
      assert clients[key].failures == since[k..];
    }
    NoneLater(since, now - c.window);
  }

  /** The last of rising times decides whether any is after `t`. */
  lemma {:induction false} NoneLater(times: seq<real>, t: real)
    requires Rising(times)
    ensures LaterThan(times, t) == 0 <==> times == [] || times[|times| - 1] <= t
  {
    var k := FirstKept(times, t, true);
    FilterIsSuffix(times, k, t, true);
    FilterCounts(times, t);
  }

  /** No idle client is left, and every other that went was seen no later than those that stayed. */
  ghost predicate LongestUnseenGone(before: map<string, Entry>, after: map<string, Entry>, c: Config, now: real) {
    && (forall k :: k in after ==> !Idle(after[k], c, now))
    && (forall k, gone :: k in after && gone in before && gone !in after && !Idle(before[gone], c, now) ==>
          before[gone].seenAt <= after[k].seenAt)
  }

  /** What eviction does: nothing while there is room; else the idle clients go, and then the longest
      unseen, no more of them than it takes. */
  ghost predicate MadeRoom(before: map<string, Entry>, after: map<string, Entry>, c: Config, now: real) {
    if |before| < c.maxClients then after == before
    else
      && Kept(after, before) && LongestUnseenGone(before, after, c, now)
      && (|after| == c.maxClients - 1 || forall k :: k in before && k !in after ==> Idle(before[k], c, now))
  }

  /** The other clients after one was let in: all of them as they were if it was known or there was
      room, and those left by eviction otherwise. */
  ghost predicate LetIn(before: map<string, Entry>, after: map<string, Entry>, key: string, c: Config, now: real) {
    if key in before then after - {key} == before - {key} else MadeRoom(before, after - {key}, c, now)
  }

  ghost predicate Kept<T(!new)>(now: map<string, T>, before: map<string, T>) {
    forall k :: k in now ==> k in before && now[k] == before[k]
  }

  /** One of the client's lockouts, of this life or an earlier one, is running. */
  ghost predicate Running(record: Record, key: string, now: real) {
    exists l :: l in Locks(record, key) && l.at <= now < l.end
  }

  /** A lockout of the client's present life is running. */
  ghost predicate Locked(lives: map<string, Life>, key: string, now: real) {
    exists l :: l in Before(lives, key).locks && now < l.end
  }

  /** Within a life the last lockout is the one that counts. */
  lemma {:induction false} LockedIsBlocked(clients: map<string, Entry>, lives: map<string, Life>, record: Record,
                                           c: Config, now: real, key: string)
    requires Books(clients, lives, record, c, now) && AllApart(lives) && now >= 0.0
    ensures Locked(lives, key, now) <==> key in clients && now < clients[key].blockedUntil
    ensures Locked(lives, key, now) ==> Running(record, key, now)
  {
    assert Booked(clients, lives, record, c, now, key);
    if key in clients {
      var locks := lives[key].locks;
      if now < clients[key].blockedUntil {
        assert locks[|locks| - 1] in locks;
      }
      forall i | 0 <= i < |locks| - 1 ensures locks[i].end <= now { }
    }
    if Locked(lives, key, now) {
      var l :| l in Before(lives, key).locks && now < l.end;
      assert l in Locks(record, key) && l.at <= now;
    }
  }

  /** A client that is not blocked can be struck without cutting into an earlier lockout. */
  lemma {:induction false} StrikeApart(clients: map<string, Entry>, lives: map<string, Life>, record: Record,
                                       c: Config, now: real, key: string)
    requires Books(clients, lives, record, c, now) && AllApart(lives)
    requires key in clients ==> clients[key].blockedUntil <= now
    ensures forall end :: Apart(Before(lives, key).locks + [Lock(now, end)])
  {
    var locks := Before(lives, key).locks;
    assert Booked(clients, lives, record, c, now, key);
    forall end ensures Apart(locks + [Lock(now, end)]) {
      forall i | 0 <= i < |locks| ensures locks[i].end <= now { }
    }
  }

  /** The lockouts double from strike to strike until they reach the cap. */
  lemma {:induction false} LockoutSeries(c: Config, k: nat)
    requires c.Ok() && k >= 1
    ensures c.Lockout(1) == c.base && c.base <= c.Lockout(k) <= c.max
    ensures c.Lockout(k + 1) == if 2.0 * c.Lockout(k) <= c.max then 2.0 * c.Lockout(k) else c.max
  {
    PowAtLeastOne(k - 1);
    assert Pow2(k) == 2.0 * Pow2(k - 1);
    assert c.base * Pow2(k) == 2.0 * (c.base * Pow2(k - 1));
    assert c.base * Pow2(k - 1) >= c.base;
  }

  lemma {:induction false} PowAtLeastOne(n: nat)
    ensures Pow2(n) >= 1.0
  {
    if n > 0 { PowAtLeastOne(n - 1); }
  }

  /** Outside the life of one entry the limiter promises less: when the table is full, a locked
      out source can be evicted, and is then struck again inside its earlier lockout. */
  method EvictionForgetsLockout() returns (limiter: Limiter, first: Verdict, second: Verdict)
    ensures fresh(limiter) && limiter.Valid() && first == second == Rejected(5.0)
    ensures Locks(limiter.record, "a") == [Lock(1.0, 6.0), Lock(3.0, 8.0)] && !Apart(Locks(limiter.record, "a"))
  {
    var config := Config(60.0, 1, 5.0, 300.0, 1);
    LockoutSeries(config, 1);
    limiter := new Limiter(config, 0.0);
    first := StrikeFirst(limiter, "a", 1.0);
    var _ := StrikeFirst(limiter, "b", 2.0);
    second := StrikeFirst(limiter, "a", 3.0);
    var locks := Locks(limiter.record, "a");
    assert locks[0].end > locks[1].at;
  }

  /** A failure of a client that has no entry, with a threshold and a table of one. */
  method StrikeFirst(limiter: Limiter, key: string, now: real) returns (verdict: Verdict)
    requires limiter.Valid() && limiter.clock <= now && AllApart(limiter.lives) && key !in limiter.clients
    requires limiter.config == Config(60.0, 1, 5.0, 300.0, 1)
    modifies limiter
    ensures limiter.Valid() && limiter.clock == now && AllApart(limiter.lives) && limiter.clients.Keys == {key}
    ensures verdict == Rejected(5.0) && limiter.record == AddLock(old(limiter.record), key, Lock(now, now + 5.0))
  {
    assert Booked(limiter.clients, limiter.lives, limiter.record, limiter.config, limiter.clock, key);
    verdict := limiter.Guard(key, false, now);
    assert [] + [now] == [now];
    LockoutSeries(limiter.config, 1);
    OnlyOne(limiter.clients, key);
  }

  lemma {:induction false} OnlyOne(clients: map<string, Entry>, key: string)
    requires |clients| <= 1 && key in clients
    ensures clients.Keys == {key}
  {
    assert |clients.Keys| == |clients.Keys - {key}| + 1;
  }

  /** Other keys may have gone, but those left are as they were. */
  ghost predicate Subset<T(!new)>(now: map<string, T>, before: map<string, T>, key: string) {
    forall k :: k in now && k != key ==> k in before && now[k] == before[k]
  }

  /** What a failure at `now` does to a life: below the threshold it is remembered; otherwise it
      strikes, and the next lockout in the doubling series begins. */
  ghost predicate Failed(life: Life, life': Life, record: Record, record': Record,
                         key: string, now: real, lockout: real, c: Config)
  {
    if LaterThan(life.since + [now], now - c.window) < c.threshold then
      lockout == 0.0 && life' == life.(since := life.since + [now]) && record' == record
    else
      && lockout == c.Lockout(|life.locks| + 1)
      && life' == Life([], life.locks + [Lock(now, now + lockout)])
      && record' == AddLock(record, key, Lock(now, now + lockout))
  }

  /** The life of a client before a failure; a new one starts empty. */
  ghost function Before(lives: map<string, Life>, key: string): Life {
    if key in lives then lives[key] else Life([], [])
  }

  method ListIdle(clients: map<string, Entry>, config: Config, now: real) returns (stale: set<string>)
    ensures stale == set k | k in clients && Idle(clients[k], config, now)
  {
    var cutoff := now - config.window;
    stale := set k | k in clients && clients[k].blockedUntil <= now
                     && (clients[k].failures == [] || clients[k].failures[|clients[k].failures| - 1] <= cutoff);
  }

  method LongestUnseen(clients: map<string, Entry>) returns (oldest: string)
    requires |clients| > 0
    ensures oldest in clients && forall k :: k in clients ==> clients[oldest].seenAt <= clients[k].seenAt
  {
    assert clients.Keys != {};
    var rest := clients.Keys;
    oldest :| oldest in rest;
    rest := rest - {oldest};
    while rest != {}
      invariant rest <= clients.Keys && oldest in clients
      invariant forall k :: k in clients && k !in rest ==> clients[oldest].seenAt <= clients[k].seenAt
      decreases |rest|
    {
      var k :| k in rest;
      if clients[k].seenAt < clients[oldest].seenAt { oldest := k; }
      rest := rest - {k};
    }
  }

  lemma {:induction false} DequeRising(e: Entry, life: Life, c: Config, now: real)
    requires Faithful(e, life, c, now)
    ensures Rising(e.failures + [now])
  {
    if life.since != [] {
      FilterRising(life.since, life.since[|life.since| - 1] - c.window, true, now);
    }
    RisingSnoc(e.failures, now);
  }

  lemma {:induction false} DequeCounts(e: Entry, life: Life, c: Config, now: real)
    requires Faithful(e, life, c, now)
    ensures Filter(e.failures + [now], now - c.window, true) == c.Counted(life.since + [now], now)
  {
    if life.since != [] {
      FilterSnoc(life.since, life.since[|life.since| - 1] - c.window, now, now - c.window, true);
    }
  }

  lemma {:induction false} FaithfulFailure(e: Entry, life: Life, c: Config, now: real)
    requires Faithful(e, life, c, now) && |c.Counted(life.since + [now], now)| < c.threshold
    ensures Faithful(Entry(c.Counted(life.since + [now], now), e.blockedUntil, e.strikes, now),
                     life.(since := life.since + [now]), c, now)
  {
    RisingSnoc(life.since, now);
  }

  lemma {:induction false} FaithfulStrike(e: Entry, life: Life, c: Config, now: real)
    requires Faithful(e, life, c, now) && c.threshold >= 1
    ensures var lockout := c.Lockout(e.strikes + 1);
      Faithful(Entry([], now + lockout, e.strikes + 1, now), Life([], life.locks + [Lock(now, now + lockout)]), c, now)
  {
  }
}
