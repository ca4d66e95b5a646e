/** Alerts on sources whose events come too thick: a trimmed deque per source, cleared at each alert. */
module FloodDetector {
  import opened Window

  /** One source's events are `times`: how many of them its alerts have used up. */
  function Used(times: seq<real>, window: real, threshold: nat): (n: nat)
    ensures n <= |times|
    decreases |times|, 1
  {
    if times == [] then 0
    else if Alerts(times, window, threshold) then |times|
    else Used(times[..|times| - 1], window, threshold)
  }

  /** The last of `times` raises an alert: enough of the events not yet used up lie in its window. */
  predicate Alerts(times: seq<real>, window: real, threshold: nat)
    decreases |times|, 0
  {
    times != [] &&
    var now, used := times[|times| - 1], Used(times[..|times| - 1], window, threshold);
    |Filter(times[used..], now - window, false)| >= threshold
  }

  /** The deque a source should have: its events not used up, cut to the window of the last one. */
  function DequeOf(times: seq<real>, window: real, threshold: nat): seq<real> {
    if times == [] then []
    else Filter(times[Used(times, window, threshold)..], times[|times| - 1] - window, false)
  }

  lemma {:induction false} AlertsSnoc(before: seq<real>, now: real, window: real, threshold: nat)
    ensures var after, used := before + [now], Used(before, window, threshold);
      && (Alerts(after, window, threshold) <==> |Filter(before[used..] + [now], now - window, false)| >= threshold)
      && Used(after, window, threshold) == (if Alerts(after, window, threshold) then |after| else used)
  {
    var after, used := before + [now], Used(before, window, threshold);
    assert after[..|before|] == before && after[used..] == before[used..] + [now];
  }

  /** Appending to the deque and trimming it decides the alert and gives the next deque. */
  lemma {:induction false} DequeSteps(before: seq<real>, now: real, kept: seq<real>, window: real, threshold: nat)
    requires Rising(before) && UpTo(before, now)
    requires kept == Filter(DequeOf(before, window, threshold) + [now], now - window, false)
    ensures var after := before + [now];
      && (Alerts(after, window, threshold) <==> |kept| >= threshold)
      && DequeOf(after, window, threshold) == (if |kept| >= threshold then [] else kept)
  {
    var used := Used(before, window, threshold);
    AlertsSnoc(before, now, window, threshold);
    if before != [] {
      FilterSnoc(before[used..], before[|before| - 1] - window, now, now - window, false);
    }
    assert kept == Filter(before[used..] + [now], now - window, false);
    assert (before + [now])[used..] == before[used..] + [now];
  }

  lemma {:induction false} DequeRising(times: seq<real>, now: real, window: real, threshold: nat)
    requires Rising(times) && UpTo(times, now)
    ensures Rising(DequeOf(times, window, threshold) + [now])
  {
    if times != [] {
      FilterRising(times[Used(times, window, threshold)..], times[|times| - 1] - window, false, now);
    }
    RisingSnoc(DequeOf(times, window, threshold), now);
  }

  class Detector {
    const window: real
    const threshold: nat
    var events: map<string, seq<real>>
    /** Every event of every source so far. */
    ghost var seen: map<string, seq<real>>

    constructor (window: real, threshold: nat)
      ensures Valid() && seen == map[] && this.window == window && this.threshold == threshold
    {
      this.window, this.threshold := window, threshold;
      events, seen := map[], map[];
    }

    ghost predicate Valid()
      reads this
    {
      Tracked(events, seen, window, threshold)
    }

    method Record(key: string, now: real) returns (alert: bool)
      requires Valid() && UpTo(Get(seen, key), now)
      modifies this
      ensures Valid() && seen == old(seen)[key := Get(old(seen), key) + [now]]
      ensures alert == Alerts(Get(seen, key), window, threshold)
    {
      ghost var before := Get(seen, key);
      assert Tracks(events, seen, window, threshold, key);
      var deque := Get(events, key) + [now];
      DequeRising(before, now, window, threshold);
      var kept := Trim(deque, now - window, false);
      alert := |kept| >= threshold;
      RecordKeeps(events, seen, window, threshold, key, now, kept);
      events := events[key := if alert then [] else kept];
      seen := seen[key := before + [now]];
    }
  }

  /** The deque of a source is the one its events call for. */
  ghost predicate Tracks(events: map<string, seq<real>>, seen: map<string, seq<real>>, window: real, threshold: nat,
                         key: string)
  {
    Rising(Get(seen, key)) && Get(events, key) == DequeOf(Get(seen, key), window, threshold)
  }

  ghost predicate Tracked(events: map<string, seq<real>>, seen: map<string, seq<real>>, window: real, threshold: nat) {
    forall key {:trigger Tracks(events, seen, window, threshold, key)} :: Tracks(events, seen, window, threshold, key)
  }

  lemma {:induction false} RecordKeeps(events: map<string, seq<real>>, seen: map<string, seq<real>>, window: real,
                                       threshold: nat, key: string, now: real, kept: seq<real>)
    requires Tracked(events, seen, window, threshold) && UpTo(Get(seen, key), now)
    requires kept == Filter(Get(events, key) + [now], now - window, false)
    ensures Alerts(Get(seen, key) + [now], window, threshold) <==> |kept| >= threshold
    ensures Tracked(events[key := if |kept| >= threshold then [] else kept], seen[key := Get(seen, key) + [now]],
                    window, threshold)
  {
    var events' := events[key := if |kept| >= threshold then [] else kept];
    var seen' := seen[key := Get(seen, key) + [now]];
    assert Tracks(events, seen, window, threshold, key);
    DequeSteps(Get(seen, key), now, kept, window, threshold);
    RisingSnoc(Get(seen, key), now);
    assert Tracks(events', seen', window, threshold, key);
    forall k | k != key ensures Tracks(events', seen', window, threshold, k) {
      assert Tracks(events, seen, window, threshold, k);
    }
  }

  // ----- whole runs of one source

  /** The event at index `i` raised an alert. */
  predicate AlertAt(times: seq<real>, i: nat, window: real, threshold: nat)
    requires i < |times|
  {
    Alerts(times[..i + 1], window, threshold)
  }

  /** After an alert at `i`, nothing up to and including `i` is counted again. */
  lemma {:induction false} UsedAfterAlert(times: seq<real>, i: nat, n: nat, window: real, threshold: nat)
    requires i < n <= |times| && AlertAt(times, i, window, threshold)
    ensures Used(times[..n], window, threshold) > i
    decreases n
  {
    if n > i + 1 && !Alerts(times[..n], window, threshold) {
      assert times[..n][..n - 1] == times[..n - 1];
      UsedAfterAlert(times, i, n - 1, window, threshold);
    }
  }

  /** Without an alert in between, nothing from `i` on is used up. */
  lemma {:induction false} UsedWithoutAlert(times: seq<real>, i: nat, n: nat, window: real, threshold: nat)
    requires i <= n <= |times| && forall j :: i <= j < n ==> !AlertAt(times, j, window, threshold)
    ensures Used(times[..n], window, threshold) <= i
    decreases n
  {
    if n > i {
      assert !AlertAt(times, n - 1, window, threshold);
      assert times[..n][..n - 1] == times[..n - 1];
      UsedWithoutAlert(times, i, n - 1, window, threshold);
    }
  }

  /** Any two alerts of a source are at least `threshold` of its events apart. */
  lemma {:induction false} AlertsAreApart(times: seq<real>, i: nat, j: nat, window: real, threshold: nat)
    requires i < j < |times| && AlertAt(times, i, window, threshold) && AlertAt(times, j, window, threshold)
    ensures j - i >= threshold
  {
    UsedAfterAlert(times, i, j, window, threshold);
    var upto := times[..j + 1];
    assert upto[..j] == times[..j];
    FilterSize(upto[Used(times[..j], window, threshold)..], times[j] - window, false);
  }

  /** `threshold` consecutive events within the window cannot all pass without an alert. */
  lemma {:induction false} SomeAlert(times: seq<real>, i: nat, window: real, threshold: nat)
    requires threshold >= 1 && i + threshold <= |times| && Rising(times)
    requires times[i + threshold - 1] - times[i] <= window
    ensures exists j :: i <= j < i + threshold && AlertAt(times, j, window, threshold)
  {
    var last := i + threshold - 1;
    if forall j :: i <= j < last ==> !AlertAt(times, j, window, threshold) {
      UsedWithoutAlert(times, i, last, window, threshold);
      var upto := times[..last + 1];
      assert upto[..last] == times[..last];
      var used := Used(times[..last], window, threshold);
      FilterKeepsTail(upto[used..], i - used, times[last] - window, false);
      assert AlertAt(times, last, window, threshold);
    }
  }

  /** Any `threshold` consecutive events of a source that span at most the window contain
      exactly one alert. */
  lemma {:induction false} ExactlyOneAlert(times: seq<real>, i: nat, window: real, threshold: nat)
    requires threshold >= 1 && i + threshold <= |times| && Rising(times)
    requires times[i + threshold - 1] - times[i] <= window
    ensures exists j :: i <= j < i + threshold && AlertAt(times, j, window, threshold) &&
              forall k :: i <= k < i + threshold && AlertAt(times, k, window, threshold) ==> k == j
  {
    SomeAlert(times, i, window, threshold);
    var j :| i <= j < i + threshold && AlertAt(times, j, window, threshold);
    forall k | i <= k < i + threshold && AlertAt(times, k, window, threshold) ensures k == j {
      if k < j { AlertsAreApart(times, k, j, window, threshold); }
      if j < k { AlertsAreApart(times, j, k, window, threshold); }
    }
  }

  /** An event alerts exactly if enough events of its source lie in the window that ends with it,
      counted from the first one after the last alert. */
  lemma {:induction false} AlertsExactlyWhen(times: seq<real>, from: nat, i: nat, window: real, threshold: nat)
    requires from <= i < |times| && (from == 0 || AlertAt(times, from - 1, window, threshold))
    requires forall j :: from <= j < i ==> !AlertAt(times, j, window, threshold)
    ensures AlertAt(times, i, window, threshold) <==> NotBefore(times[from..i + 1], times[i] - window) >= threshold
  {
    if from > 0 { UsedAfterAlert(times, from - 1, i, window, threshold); }
    UsedWithoutAlert(times, from, i, window, threshold);
    var upto := times[..i + 1];
    assert upto[..i] == times[..i] && upto[from..] == times[from..i + 1];
    FilterCounts(upto[from..], times[i] - window);
  }
}
