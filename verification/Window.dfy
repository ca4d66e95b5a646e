/** A deque of times trimmed from the left, against a filter over all times. */
module Window {

  /** Whether an entry of time `t` outlives a trim at `cutoff`; a strict window drops the cutoff itself. */
  predicate Keeps(t: real, cutoff: real, strict: bool) {
    if strict then t > cutoff else t >= cutoff
  }

  function Filter(times: seq<real>, cutoff: real, strict: bool): seq<real> {
    if times == [] then []
    else if Keeps(times[0], cutoff, strict) then [times[0]] + Filter(times[1..], cutoff, strict)
    else Filter(times[1..], cutoff, strict)
  }

  predicate Rising(times: seq<real>) {
    forall i, j :: 0 <= i < j < |times| ==> times[i] <= times[j]
  }

  /** No entry comes after `now`. */
  predicate UpTo(times: seq<real>, now: real) {
    forall i :: 0 <= i < |times| ==> times[i] <= now
  }

  /** The times kept for a key; none until the first. */
  function Get<K>(m: map<K, seq<real>>, key: K): seq<real> {
    if key in m then m[key] else []
  }

  lemma {:induction false} FilterConcat(a: seq<real>, b: seq<real>, cutoff: real, strict: bool)
    ensures Filter(a + b, cutoff, strict) == Filter(a, cutoff, strict) + Filter(b, cutoff, strict)
  {
    if a == [] {
      assert a + b == b;
    } else {
      assert (a + b)[1..] == a[1..] + b;
      FilterConcat(a[1..], b, cutoff, strict);
    }
  }

  lemma {:induction false} FilterAll(a: seq<real>, cutoff: real, strict: bool)
    requires forall i :: 0 <= i < |a| ==> Keeps(a[i], cutoff, strict)
    ensures Filter(a, cutoff, strict) == a
  {
    if a != [] { FilterAll(a[1..], cutoff, strict); }
  }

  lemma {:induction false} FilterNone(a: seq<real>, cutoff: real, strict: bool)
    requires forall i :: 0 <= i < |a| ==> !Keeps(a[i], cutoff, strict)
    ensures Filter(a, cutoff, strict) == []
  {
    if a != [] { FilterNone(a[1..], cutoff, strict); }
  }

  lemma {:induction false} FilterSize(a: seq<real>, cutoff: real, strict: bool)
    ensures |Filter(a, cutoff, strict)| <= |a|
  {
    if a != [] { FilterSize(a[1..], cutoff, strict); }
  }

  lemma {:induction false} FilterKeepsTail(a: seq<real>, k: nat, cutoff: real, strict: bool)
    requires k <= |a| && forall i :: k <= i < |a| ==> Keeps(a[i], cutoff, strict)
    ensures |Filter(a, cutoff, strict)| >= |a| - k
  {
    assert a == a[..k] + a[k..];
    FilterConcat(a[..k], a[k..], cutoff, strict);
    FilterAll(a[k..], cutoff, strict);
  }

  /** In rising times, what a filter keeps is what remains after dropping from the left. */
  lemma {:induction false} FilterIsSuffix(a: seq<real>, k: nat, cutoff: real, strict: bool)
    requires Rising(a) && k <= |a|
    requires forall i :: 0 <= i < k ==> !Keeps(a[i], cutoff, strict)
    requires k < |a| ==> Keeps(a[k], cutoff, strict)
    ensures Filter(a, cutoff, strict) == a[k..]
  {
    assert a == a[..k] + a[k..];
    FilterConcat(a[..k], a[k..], cutoff, strict);
    FilterNone(a[..k], cutoff, strict);
    FilterAll(a[k..], cutoff, strict);
  }

  lemma {:induction false} RisingSnoc(a: seq<real>, now: real)
    requires Rising(a) && UpTo(a, now)
    ensures Rising(a + [now]) && UpTo(a + [now], now)
  {
  }

  lemma {:induction false} FilterRising(a: seq<real>, cutoff: real, strict: bool, now: real)
    requires Rising(a) && UpTo(a, now)
    ensures Rising(Filter(a, cutoff, strict)) && UpTo(Filter(a, cutoff, strict), now)
  {
    var k := FirstKept(a, cutoff, strict);
    FilterIsSuffix(a, k, cutoff, strict);
  }

  function FirstKept(a: seq<real>, cutoff: real, strict: bool): (k: nat)
    ensures k <= |a| && (forall i :: 0 <= i < k ==> !Keeps(a[i], cutoff, strict))
    ensures k < |a| ==> Keeps(a[k], cutoff, strict)
  {
    if a == [] || Keeps(a[0], cutoff, strict) then 0
    else
      var k := FirstKept(a[1..], cutoff, strict);
      assert forall i :: 0 < i < k + 1 ==> a[i] == a[1..][i - 1];
      k + 1
  }

  /** How many of the first `n` entries come after `t`, or at `t` too. */
  ghost function CountFrom(times: seq<real>, t: real, atToo: bool, n: nat): nat
    requires n <= |times|
  {
    if n == 0 then 0
    else CountFrom(times, t, atToo, n - 1) + if times[n - 1] > t || (atToo && times[n - 1] == t) then 1 else 0
  }

  /** How many entries come at `t` or later. */
  ghost function NotBefore(times: seq<real>, t: real): nat { CountFrom(times, t, true, |times|) }

  /** How many entries come after `t`. */
  ghost function LaterThan(times: seq<real>, t: real): nat { CountFrom(times, t, false, |times|) }

  /** A filter keeps exactly the entries of its window. */
  lemma {:induction false} FilterCounts(a: seq<real>, cutoff: real)
    ensures |Filter(a, cutoff, false)| == NotBefore(a, cutoff)
    ensures |Filter(a, cutoff, true)| == LaterThan(a, cutoff)
  {
    FilterCountsUpTo(a, cutoff, false, |a|);
    FilterCountsUpTo(a, cutoff, true, |a|);
    assert a[..|a|] == a;
  }

  lemma {:induction false} FilterCountsUpTo(a: seq<real>, cutoff: real, strict: bool, n: nat)
    requires n <= |a|
    ensures |Filter(a[..n], cutoff, strict)| == CountFrom(a, cutoff, !strict, n)
  {
    if n > 0 {
      FilterCountsUpTo(a, cutoff, strict, n - 1);
      assert a[..n] == a[..n - 1] + [a[n - 1]];
      FilterConcat(a[..n - 1], [a[n - 1]], cutoff, strict);
    }
  }

  /** A trim at an earlier cutoff takes nothing from a later one. */
  lemma {:induction false} FilterTwice(a: seq<real>, c: real, d: real, strict: bool)
    requires c <= d
    ensures Filter(Filter(a, c, strict), d, strict) == Filter(a, d, strict)
  {
    if a != [] { FilterTwice(a[1..], c, d, strict); }
  }

  /** Appending to a trimmed deque and trimming again is trimming the whole. */
  lemma {:induction false} FilterSnoc(a: seq<real>, c: real, now: real, d: real, strict: bool)
    requires c <= d
    ensures Filter(Filter(a, c, strict) + [now], d, strict) == Filter(a + [now], d, strict)
  {
    FilterTwice(a, c, d, strict);
    FilterConcat(Filter(a, c, strict), [now], d, strict);
    FilterConcat(a, [now], d, strict);
  }

  /** The trimming loop of every windowed counter. */
  method Trim(deque: seq<real>, cutoff: real, strict: bool) returns (kept: seq<real>)
    requires Rising(deque)
    ensures kept == Filter(deque, cutoff, strict)
    ensures exists k :: 0 <= k <= |deque| && kept == deque[k..] &&
              forall i :: 0 <= i < k ==> !Keeps(deque[i], cutoff, strict)
  {
    kept := deque;
    ghost var k := 0;
    while kept != [] && !Keeps(kept[0], cutoff, strict)
      invariant 0 <= k <= |deque| && kept == deque[k..]
      invariant forall i :: 0 <= i < k ==> !Keeps(deque[i], cutoff, strict)
      decreases |kept|
    {
      kept := kept[1..];
      k := k + 1;
    }
    FilterIsSuffix(deque, k, cutoff, strict);
  }
}
