/** Aggregates kept per key: added to one observation at a time, moved to a queue at a flush, and
    merged into stored rows at a write. Whatever the schedule, they say what a plain fold over the
    observations says. */
module Aggregation {
  import opened Options
  import opened SetSums

  /** How an aggregate starts at an observation, takes one in, and takes in another aggregate. */
  datatype Rules<!C, !O> = Rules(start: O -> C, add: (C, O) -> C, merge: (C, C) -> C)

  /** Merging takes in observations like adding does. */
  ghost predicate Lawful<C(!new), O(!new)>(rules: Rules<C, O>) {
    && (forall a, b, o :: rules.merge(a, rules.add(b, o)) == rules.add(rules.merge(a, b), o))
    && (forall a, o :: rules.merge(a, rules.add(rules.start(o), o)) == rules.add(a, o))
  }

  /** The plain fold: one observation after the other. */
  ghost function Over<C, O>(rules: Rules<C, O>, base: Option<C>, os: seq<O>): Option<C> {
    if os == [] then base else Some(Take(rules, Over(rules, base, os[..|os| - 1]), os[|os| - 1]))
  }

  ghost function Take<C, O>(rules: Rules<C, O>, c: Option<C>, o: O): C {
    rules.add(if c.Some? then c.value else rules.start(o), o)
  }

  ghost function Put<C, O>(rules: Rules<C, O>, stored: Option<C>, c: C): C {
    if stored.Some? then rules.merge(stored.value, c) else c
  }

  ghost function PutAll<C, O>(rules: Rules<C, O>, stored: Option<C>, cs: seq<C>): Option<C> {
    if cs == [] then stored else Some(Put(rules, PutAll(rules, stored, cs[..|cs| - 1]), cs[|cs| - 1]))
  }

  lemma {:induction false} PutAllSnoc<C, O>(rules: Rules<C, O>, stored: Option<C>, cs: seq<C>, c: C)
    ensures PutAll(rules, stored, cs + [c]) == Some(Put(rules, PutAll(rules, stored, cs), c))
  {
    assert (cs + [c])[..|cs|] == cs;
  }

  lemma {:induction false} PutAllCons<C, O>(rules: Rules<C, O>, stored: Option<C>, c: C, cs: seq<C>)
    ensures PutAll(rules, stored, [c] + cs) == PutAll(rules, Some(Put(rules, stored, c)), cs)
  {
    if cs == [] {
      assert [c] + cs == [] + [c];
      PutAllSnoc(rules, stored, [], c);
    } else {
      var before, last := cs[..|cs| - 1], cs[|cs| - 1];
      assert [c] + cs == [c] + before + [last];
      PutAllSnoc(rules, stored, [c] + before, last);
      PutAllCons(rules, stored, c, before);
    }
  }

  lemma {:induction false} OverSnoc<C, O>(rules: Rules<C, O>, base: Option<C>, os: seq<O>, o: O)
    ensures Over(rules, base, os + [o]) == Some(Take(rules, Over(rules, base, os), o))
  {
    assert (os + [o])[..|os|] == os;
  }

  // ----- the ledger

  /** The rows before the first observation, the rows stored now, the rows waiting to be written,
      the rows being added to, and every observation accepted so far. */
  datatype Ledger<K, R, O> = Ledger(base: map<K, R>, stored: map<K, R>, queue: seq<(K, R)>, pending: map<K, R>,
                                    log: seq<(K, O)>)

  /** The part of a row that the fold determines. */
  ghost function Part<K, R, C>(view: R -> C, rows: map<K, R>, k: K): Option<C> {
    if k in rows then Some(view(rows[k])) else None
  }

  ghost function Parts<K, R, C>(view: R -> C, queue: seq<(K, R)>, k: K): seq<C> {
    if queue == [] then []
    else Parts(view, queue[..|queue| - 1], k)
         + if queue[|queue| - 1].0 == k then [view(queue[|queue| - 1].1)] else []
  }

  ghost function Of<K, O>(log: seq<(K, O)>, k: K): seq<O> {
    if log == [] then []
    else Of(log[..|log| - 1], k) + if log[|log| - 1].0 == k then [log[|log| - 1].1] else []
  }

  /** What the stored row of `k` will be once the queue and the pending row are merged into it. */
  ghost function Total<K, R, C, O>(rules: Rules<C, O>, view: R -> C, l: Ledger<K, R, O>, k: K): Option<C> {
    var queued := PutAll(rules, Part(view, l.stored, k), Parts(view, l.queue, k));
    if k in l.pending then Some(Put(rules, queued, view(l.pending[k]))) else queued
  }

  /** The stored row, the waiting rows and the pending row of a key come to the plain fold. */
  ghost predicate AgreeAt<K, R, C, O>(rules: Rules<C, O>, view: R -> C, l: Ledger<K, R, O>, k: K) {
    Total(rules, view, l, k) == Over(rules, Part(view, l.base, k), Of(l.log, k))
  }

  ghost predicate Agree<K(!new), R, C, O>(rules: Rules<C, O>, view: R -> C, l: Ledger<K, R, O>) {
    forall k {:trigger AgreeAt(rules, view, l, k)} :: AgreeAt(rules, view, l, k)
  }

  lemma {:induction false} OfSnoc<K, O>(log: seq<(K, O)>, e: (K, O), k: K)
    ensures Of(log + [e], k) == Of(log, k) + if e.0 == k then [e.1] else []
  {
    assert (log + [e])[..|log|] == log;
  }

  lemma {:induction false} PartsSnoc<K, R, C>(view: R -> C, queue: seq<(K, R)>, e: (K, R), k: K)
    ensures Parts(view, queue + [e], k) == Parts(view, queue, k) + if e.0 == k then [view(e.1)] else []
  {
    assert (queue + [e])[..|queue|] == queue;
  }

  lemma {:induction false} PartsCons<K, R, C>(view: R -> C, e: (K, R), queue: seq<(K, R)>, k: K)
    ensures Parts(view, [e] + queue, k) == (if e.0 == k then [view(e.1)] else []) + Parts(view, queue, k)
  {
    if queue == [] {
      assert [e] + queue == [] + [e];
      PartsSnoc(view, [], e, k);
    } else {
      var before, last := queue[..|queue| - 1], queue[|queue| - 1];
      assert [e] + queue == [e] + before + [last];
      PartsSnoc(view, [e] + before, last, k);
      PartsCons(view, e, before, k);
    }
  }

  // ----- an observation is accepted

  lemma {:induction false} Accepts<K(!new), R, C(!new), O(!new)>(rules: Rules<C, O>, view: R -> C, l: Ledger<K, R, O>,
                                                                 k: K, o: O, r: R)
    requires Lawful(rules) && Agree(rules, view, l)
    requires view(r) == Take(rules, Part(view, l.pending, k), o)
    ensures Agree(rules, view, l.(pending := l.pending[k := r], log := l.log + [(k, o)]))
  {
    var t := l.(pending := l.pending[k := r], log := l.log + [(k, o)]);
    forall j ensures AgreeAt(rules, view, t, j) {
      assert AgreeAt(rules, view, l, j);
      AcceptsAt(rules, view, l, k, o, r, j);
    }
  }

  /** The same at one key. */
  lemma {:induction false} AcceptsAt<K, R, C(!new), O(!new)>(rules: Rules<C, O>, view: R -> C, l: Ledger<K, R, O>,
                                                             k: K, o: O, r: R, j: K)
    requires Lawful(rules) && AgreeAt(rules, view, l, j)
    requires j == k ==> view(r) == Take(rules, Part(view, l.pending, k), o)
    ensures AgreeAt(rules, view, l.(pending := l.pending[k := r], log := l.log + [(k, o)]), j)
  {
    OfSnoc(l.log, (k, o), j);
    if j == k {
      OverSnoc(rules, Part(view, l.base, k), Of(l.log, k), o);
      AddThenPut(rules, PutAll(rules, Part(view, l.stored, k), Parts(view, l.queue, k)), Part(view, l.pending, k), o);
    } else {
      assert Of(l.log + [(k, o)], j) == Of(l.log, j);
    }
  }

  lemma {:induction false} AddThenPut<C(!new), O(!new)>(rules: Rules<C, O>, stored: Option<C>, pending: Option<C>, o: O)
    requires Lawful(rules)
    ensures Put(rules, stored, Take(rules, pending, o))
         == Take(rules, if pending.Some? then Some(Put(rules, stored, pending.value)) else stored, o)
  {
  }

  // ----- the pending rows join the queue

  /** The keys in some order, none of them twice. */
  ghost predicate Enumerates<K>(order: seq<K>, keys: set<K>)
    decreases |order|
  {
    if order == [] then keys == {}
    else var n := |order| - 1; order[n] in keys && Enumerates(order[..n], keys - {order[n]})
  }

  lemma {:induction false} EnumeratesSnoc<K>(order: seq<K>, keys: set<K>, k: K)
    requires Enumerates(order, keys) && k !in keys
    ensures Enumerates(order + [k], keys + {k})
  {
    assert (order + [k])[..|order|] == order;
    assert keys + {k} - {k} == keys;
  }

  lemma {:induction false} EnumeratesAll<K>(order: seq<K>, keys: set<K>)
    requires Enumerates(order, keys)
    ensures |order| == |keys| && forall i :: 0 <= i < |order| ==> order[i] in keys
    decreases |order|
  {
    if order != [] {
      var n := |order| - 1;
      EnumeratesAll(order[..n], keys - {order[n]});
      forall i | 0 <= i < |order| ensures order[i] in keys {
        if i < n { assert order[..n][i] == order[i]; }
      }
    }
  }

  /** Lists the keys of a table, in any order. */
  method ListKeys<K(==), R>(rows: map<K, R>) returns (order: seq<K>)
    ensures Enumerates(order, rows.Keys)
    ensures |order| == |rows.Keys| && forall i :: 0 <= i < |order| ==> order[i] in rows
  {
    order := [];
    var left := rows.Keys;
    ghost var done: set<K> := {};
    while left != {}
      invariant Enumerates(order, done) && done + left == rows.Keys && done !! left
      decreases left
    {
      var k :| k in left;
      EnumeratesSnoc(order, done, k);
      order, left, done := order + [k], left - {k}, done + {k};
    }
    assert done == rows.Keys;
    EnumeratesAll(order, rows.Keys);
  }

  /** The rows in the order their keys came. */
  function Entries<K(==), R>(order: seq<K>, rows: map<K, R>): seq<(K, R)>
    requires forall i :: 0 <= i < |order| ==> order[i] in rows
  {
    seq(|order|, i requires 0 <= i < |order| => (order[i], rows[order[i]]))
  }

  lemma {:induction false} EntriesSnoc<K, R>(order: seq<K>, rows: map<K, R>)
    requires order != [] && forall i :: 0 <= i < |order| ==> order[i] in rows
    ensures var n := |order| - 1;
            Entries(order, rows) == Entries(order[..n], rows) + [(order[n], rows[order[n]])]
  {
  }

  lemma {:induction false} PartsOfEntries<K, R, C>(view: R -> C, queue: seq<(K, R)>, order: seq<K>, keys: set<K>,
                                                   rows: map<K, R>, k: K)
    requires Enumerates(order, keys) && forall i :: 0 <= i < |order| ==> order[i] in rows
    ensures k in keys ==> k in rows
    ensures Parts(view, queue + Entries(order, rows), k) == Parts(view, queue, k) +
            if k in keys then [view(rows[k])] else []
    decreases |order|
  {
    if order == [] {
      assert queue + Entries(order, rows) == queue;
    } else {
      var n := |order| - 1;
      var e := (order[n], rows[order[n]]);
      EntriesSnoc(order, rows);
      PartsOfEntries(view, queue, order[..n], keys - {order[n]}, rows, k);
      assert queue + Entries(order, rows) == queue + Entries(order[..n], rows) + [e];
      PartsSnoc(view, queue + Entries(order[..n], rows), e, k);
    }
  }

  lemma {:induction false} OfEntries<K, R>(order: seq<K>, keys: set<K>, rows: map<K, R>, k: K)
    requires Enumerates(order, keys) && forall i :: 0 <= i < |order| ==> order[i] in rows
    ensures k in keys ==> k in rows
    ensures Of(Entries(order, rows), k) == if k in keys then [rows[k]] else []
    decreases |order|
  {
    if order != [] {
      var n := |order| - 1;
      EntriesSnoc(order, rows);
      OfEntries(order[..n], keys - {order[n]}, rows, k);
      OfSnoc(Entries(order[..n], rows), (order[n], rows[order[n]]), k);
    }
  }

  lemma {:induction false} Flushes<K(!new), R, C, O>(rules: Rules<C, O>, view: R -> C, l: Ledger<K, R, O>,
                                                     order: seq<K>)
    requires Agree(rules, view, l) && Enumerates(order, l.pending.Keys)
    ensures forall i :: 0 <= i < |order| ==> order[i] in l.pending
    ensures Agree(rules, view, l.(queue := l.queue + Entries(order, l.pending), pending := map[]))
  {
    EnumeratesAll(order, l.pending.Keys);
    var t := l.(queue := l.queue + Entries(order, l.pending), pending := map[]);
    forall k ensures AgreeAt(rules, view, t, k) {
      assert AgreeAt(rules, view, l, k);
      FlushesAt(rules, view, l, order, k);
    }
  }

  lemma {:induction false} FlushesAt<K, R, C, O>(rules: Rules<C, O>, view: R -> C, l: Ledger<K, R, O>, order: seq<K>,
                                                 k: K)
    requires AgreeAt(rules, view, l, k) && Enumerates(order, l.pending.Keys)
    requires forall i :: 0 <= i < |order| ==> order[i] in l.pending
    ensures AgreeAt(rules, view, l.(queue := l.queue + Entries(order, l.pending), pending := map[]), k)
  {
    PartsOfEntries(view, l.queue, order, l.pending.Keys, l.pending, k);
    var parts := Parts(view, l.queue, k);
    if k in l.pending {
      PutAllSnoc(rules, Part(view, l.stored, k), parts, view(l.pending[k]));
    } else {
      assert parts + [] == parts;
    }
  }

  // ----- the head of the queue is written

  lemma {:induction false} Writes<K(!new), R, C, O>(rules: Rules<C, O>, view: R -> C, l: Ledger<K, R, O>, e: (K, R),
                                                    rest: seq<(K, R)>, r: R)
    requires Agree(rules, view, l) && l.queue == [e] + rest
    requires view(r) == Put(rules, Part(view, l.stored, e.0), view(e.1))
    ensures Agree(rules, view, l.(stored := l.stored[e.0 := r], queue := rest))
  {
    var t := l.(stored := l.stored[e.0 := r], queue := rest);
    forall k ensures AgreeAt(rules, view, t, k) {
      assert AgreeAt(rules, view, l, k);
      WritesAt(rules, view, l, e, rest, r, k);
    }
  }

  lemma {:induction false} WritesAt<K, R, C, O>(rules: Rules<C, O>, view: R -> C, l: Ledger<K, R, O>, e: (K, R),
                                                rest: seq<(K, R)>, r: R, k: K)
    requires AgreeAt(rules, view, l, k) && l.queue == [e] + rest
    requires k == e.0 ==> view(r) == Put(rules, Part(view, l.stored, k), view(e.1))
    ensures AgreeAt(rules, view, l.(stored := l.stored[e.0 := r], queue := rest), k)
  {
    PartsCons(view, e, rest, k);
    var parts := Parts(view, rest, k);
    if k == e.0 {
      PutAllCons(rules, Part(view, l.stored, k), view(e.1), parts);
    } else {
      assert [] + parts == parts;
    }
  }

  // ----- nothing is counted twice or lost

  /** A count that each observation raises by one and a merge adds up. */
  ghost predicate Additive<C(!new), O(!new)>(rules: Rules<C, O>, weight: C -> int) {
    && (forall o :: weight(rules.start(o)) == 0)
    && (forall c, o :: weight(rules.add(c, o)) == weight(c) + 1)
    && (forall a, b :: weight(rules.merge(a, b)) == weight(a) + weight(b))
  }

  ghost function Weigh<K(!new), R>(weight: R -> int, rows: map<K, R>): int {
    Sum(rows.Keys, WeightAt(weight, rows))
  }

  ghost function WeightAt<K(!new), R>(weight: R -> int, rows: map<K, R>): K -> int {
    k => if k in rows then weight(rows[k]) else 0
  }

  ghost function WeighAll<K, R>(weight: R -> int, queue: seq<(K, R)>): int {
    if queue == [] then 0 else WeighAll(weight, queue[..|queue| - 1]) + weight(queue[|queue| - 1].1)
  }

  /** How much all rows together fall short of the base rows plus one for each observation. */
  ghost function Missing<K(!new), R, O>(weight: R -> int, l: Ledger<K, R, O>): int {
    Weigh(weight, l.base) + |l.log| - Weigh(weight, l.stored) - WeighAll(weight, l.queue) - Weigh(weight, l.pending)
  }

  /** The waiting rows of one key. */
  ghost function WeighAt<K, R>(weight: R -> int, queue: seq<(K, R)>, k: K): int {
    if queue == [] then 0
    else WeighAt(weight, queue[..|queue| - 1], k) +
         if queue[|queue| - 1].0 == k then weight(queue[|queue| - 1].1) else 0
  }

  /** How much the rows of one key fall short. */
  ghost function Behind<K(!new), R, O>(weight: R -> int, l: Ledger<K, R, O>, k: K): int {
    WeightAt(weight, l.base)(k) + |Of(l.log, k)|
    - WeightAt(weight, l.stored)(k) - WeighAt(weight, l.queue, k) - WeightAt(weight, l.pending)(k)
  }

  /** Every row not yet stored has counted something. */
  ghost predicate Heavy<K(!new), R, O>(weight: R -> int, l: Ledger<K, R, O>) {
    && (forall i {:trigger l.queue[i]} :: 0 <= i < |l.queue| ==> weight(l.queue[i].1) >= 1)
    && (forall k {:trigger l.pending[k]} :: k in l.pending ==> weight(l.pending[k]) >= 1)
  }

  /** No key ever has too much; and nothing is missing, in all or at any key, exactly while no
      waiting row was cut. */
  ghost predicate Audited<K(!new), R, O>(weight: R -> int, l: Ledger<K, R, O>, cut: bool) {
    && Heavy(weight, l)
    && Missing(weight, l) >= 0 && (cut <==> Missing(weight, l) > 0)
    && (forall k {:trigger Behind(weight, l, k)} :: Behind(weight, l, k) >= 0)
    && (cut ==> exists k :: Behind(weight, l, k) > 0)
  }

  ghost function Through<R, C>(view: R -> C, weight: C -> int): R -> int { (r: R) => weight(view(r)) }

  /** Every additive count is audited. */
  ghost predicate Accounted<K(!new), R, C(!new), O(!new)>(rules: Rules<C, O>, view: R -> C, l: Ledger<K, R, O>,
                                                          cut: bool) {
    forall weight: C -> int {:trigger Audited(Through(view, weight), l, cut)} ::
      Additive(rules, weight) ==> Audited(Through(view, weight), l, cut)
  }

  lemma {:induction false} WeighAtSnoc<K, R>(weight: R -> int, queue: seq<(K, R)>, e: (K, R), k: K)
    ensures WeighAt(weight, queue + [e], k) == WeighAt(weight, queue, k) + if e.0 == k then weight(e.1) else 0
  {
    assert (queue + [e])[..|queue|] == queue;
  }

  lemma {:induction false} WeighAtCons<K, R>(weight: R -> int, e: (K, R), queue: seq<(K, R)>, k: K)
    ensures WeighAt(weight, [e] + queue, k) == (if e.0 == k then weight(e.1) else 0) + WeighAt(weight, queue, k)
  {
    if queue == [] {
      assert [e] + queue == [] + [e];
      WeighAtSnoc(weight, [], e, k);
    } else {
      var before, last := queue[..|queue| - 1], queue[|queue| - 1];
      assert [e] + queue == [e] + before + [last];
      WeighAtSnoc(weight, [e] + before, last, k);
      WeighAtCons(weight, e, before, k);
    }
  }

  lemma {:induction false} WeighAtEntries<K(!new), R>(weight: R -> int, queue: seq<(K, R)>, order: seq<K>, keys: set<K>,
                                                      rows: map<K, R>, k: K)
    requires Enumerates(order, keys) && forall i :: 0 <= i < |order| ==> order[i] in rows
    ensures k in keys ==> k in rows
    ensures WeighAt(weight, queue + Entries(order, rows), k)
         == WeighAt(weight, queue, k) + if k in keys then weight(rows[k]) else 0
    decreases |order|
  {
    if order == [] {
      assert queue + Entries(order, rows) == queue;
    } else {
      var n := |order| - 1;
      var e := (order[n], rows[order[n]]);
      EntriesSnoc(order, rows);
      WeighAtEntries(weight, queue, order[..n], keys - {order[n]}, rows, k);
      assert queue + Entries(order, rows) == queue + Entries(order[..n], rows) + [e];
      WeighAtSnoc(weight, queue + Entries(order[..n], rows), e, k);
    }
  }

  lemma {:induction false} WeighPut<K(!new), R>(weight: R -> int, rows: map<K, R>, k: K, r: R)
    ensures Weigh(weight, rows[k := r]) == Weigh(weight, rows) - WeightAt(weight, rows)(k) + weight(r)
  {
    var after := rows[k := r];
    var f, g := WeightAt(weight, rows), WeightAt(weight, after);
    var others := rows.Keys - {k};
    SumAgree(others, f, g);
    assert after.Keys == others + {k};
    SumAdd(others, g, k);
    if k in rows {
      SumRemove(rows.Keys, f, k);
    } else {
      assert others == rows.Keys;
    }
  }

  lemma {:induction false} WeighCons<K, R>(weight: R -> int, e: (K, R), queue: seq<(K, R)>)
    ensures WeighAll(weight, [e] + queue) == weight(e.1) + WeighAll(weight, queue)
  {
    if queue == [] {
      assert [e] + queue == [e] && [e][..0] == [];
    } else {
      var before := queue[..|queue| - 1];
      assert ([e] + queue)[..|queue|] == [e] + before;
      WeighCons(weight, e, before);
    }
  }

  lemma {:induction false} WeighEntries<K(!new), R>(weight: R -> int, queue: seq<(K, R)>, order: seq<K>, keys: set<K>,
                                                    rows: map<K, R>)
    requires Enumerates(order, keys) && forall i :: 0 <= i < |order| ==> order[i] in rows
    ensures WeighAll(weight, queue + Entries(order, rows)) ==
              WeighAll(weight, queue) + Sum(keys, WeightAt(weight, rows))
    decreases |order|
  {
    if order == [] {
      assert queue + Entries(order, rows) == queue;
    } else {
      var n := |order| - 1;
      EntriesSnoc(order, rows);
      WeighEntries(weight, queue, order[..n], keys - {order[n]}, rows);
      var all, prefix := queue + Entries(order, rows), queue + Entries(order[..n], rows);
      assert all == prefix + [(order[n], rows[order[n]])];
      assert all[..|all| - 1] == prefix;
      SumRemove(keys, WeightAt(weight, rows), order[n]);
    }
  }

  /** `t` falls short of its observations as much as `l` does, in all and at every key. */
  ghost predicate EvenWith<K(!new), R, O>(weight: R -> int, l: Ledger<K, R, O>, t: Ledger<K, R, O>) {
    Missing(weight, t) == Missing(weight, l)
    && forall k {:trigger Behind(weight, t, k)} {:trigger Behind(weight, l, k)} ::
         Behind(weight, t, k) == Behind(weight, l, k)
  }

  lemma {:induction false} AuditKept<K(!new), R, O>(weight: R -> int, l: Ledger<K, R, O>, t: Ledger<K, R, O>, cut: bool)
    requires Audited(weight, l, cut) && EvenWith(weight, l, t) && Heavy(weight, t)
    ensures Audited(weight, t, cut)
  {
    if cut {
      var k :| Behind(weight, l, k) > 0;
      assert Behind(weight, t, k) > 0;
    }
  }

  lemma {:induction false} AcceptsAudited<K(!new), R, O>(weight: R -> int, l: Ledger<K, R, O>, cut: bool, k: K,
                                                         o: O, r: R)
    requires Audited(weight, l, cut) && weight(r) == WeightAt(weight, l.pending)(k) + 1
    ensures Audited(weight, Ledger(l.base, l.stored, l.queue, l.pending[k := r], l.log + [(k, o)]), cut)
  {
    var t := Ledger(l.base, l.stored, l.queue, l.pending[k := r], l.log + [(k, o)]);
    WeighPut(weight, l.pending, k, r);
    forall j ensures Behind(weight, t, j) == Behind(weight, l, j) { OfSnoc(l.log, (k, o), j); }
    AuditKept(weight, l, t, cut);
  }

  lemma {:induction false} FlushesAudited<K(!new), R, O>(weight: R -> int, l: Ledger<K, R, O>, cut: bool, order: seq<K>)
    requires Audited(weight, l, cut) && Enumerates(order, l.pending.Keys)
    ensures forall i :: 0 <= i < |order| ==> order[i] in l.pending
    ensures Audited(weight, Ledger(l.base, l.stored, l.queue + Entries(order, l.pending), map[], l.log), cut)
  {
    EnumeratesAll(order, l.pending.Keys);
    var t := Ledger(l.base, l.stored, l.queue + Entries(order, l.pending), map[], l.log);
    WeighEntries(weight, l.queue, order, l.pending.Keys, l.pending);
    assert t.pending.Keys == {};
    forall j ensures Behind(weight, t, j) == Behind(weight, l, j) {
      WeighAtEntries(weight, l.queue, order, l.pending.Keys, l.pending, j);
    }
    FlushesHeavy(weight, l, order);
    AuditKept(weight, l, t, cut);
  }

  lemma {:induction false} FlushesHeavy<K(!new), R, O>(weight: R -> int, l: Ledger<K, R, O>, order: seq<K>)
    requires Heavy(weight, l) && forall i :: 0 <= i < |order| ==> order[i] in l.pending
    ensures Heavy(weight, Ledger(l.base, l.stored, l.queue + Entries(order, l.pending), map[], l.log))
  {
    var queue := l.queue + Entries(order, l.pending);
    forall i | 0 <= i < |queue| ensures weight(queue[i].1) >= 1 {
      if i < |l.queue| {
        assert queue[i] == l.queue[i];
      } else {
        var k := order[i - |l.queue|];
        assert queue[i].1 == l.pending[k];
      }
    }
  }

  lemma {:induction false} WritesAudited<K(!new), R, O>(weight: R -> int, l: Ledger<K, R, O>, cut: bool, e: (K, R),
                                                        rest: seq<(K, R)>, r: R)
    requires Audited(weight, l, cut) && l.queue == [e] + rest &&
             weight(r) == WeightAt(weight, l.stored)(e.0) + weight(e.1)
    ensures Audited(weight, Ledger(l.base, l.stored[e.0 := r], rest, l.pending, l.log), cut)
  {
    var t := Ledger(l.base, l.stored[e.0 := r], rest, l.pending, l.log);
    WeighPut(weight, l.stored, e.0, r);
    WeighCons(weight, e, rest);
    forall j ensures Behind(weight, t, j) == Behind(weight, l, j) { WeighAtCons(weight, e, rest, j); }
    forall i | 0 <= i < |rest| ensures weight(rest[i].1) >= 1 { assert rest[i] == l.queue[i + 1]; }
    AuditKept(weight, l, t, cut);
  }

  /** Rows cut from the front of the queue are missing for good. */
  lemma {:induction false} CutAudited<K(!new), R, O>(weight: R -> int, l: Ledger<K, R, O>, cut: bool, gone: seq<(K, R)>,
                                                     rest: seq<(K, R)>)
    requires Audited(weight, l, cut) && l.queue == gone + rest
    ensures Audited(weight, Ledger(l.base, l.stored, rest, l.pending, l.log), cut || gone != [])
    decreases |gone|
  {
    if gone == [] {
      assert gone + rest == rest;
      assert l == Ledger(l.base, l.stored, rest, l.pending, l.log);
    } else {
      var e, less := gone[0], gone[1..] + rest;
      assert l.queue == [e] + less;
      CutOne(weight, l, cut, e, less);
      CutAudited(weight, Ledger(l.base, l.stored, less, l.pending, l.log), true, gone[1..], rest);
    }
  }

  lemma {:induction false} CutOne<K(!new), R, O>(weight: R -> int, l: Ledger<K, R, O>, cut: bool, e: (K, R),
                                                 less: seq<(K, R)>)
    requires Audited(weight, l, cut) && l.queue == [e] + less
    ensures Audited(weight, Ledger(l.base, l.stored, less, l.pending, l.log), true)
  {
    var t := Ledger(l.base, l.stored, less, l.pending, l.log);
    WeighCons(weight, e, less);
    assert l.queue[0] == e;
    forall j ensures Behind(weight, t, j) == Behind(weight, l, j) + if e.0 == j then weight(e.1) else 0 {
      WeighAtCons(weight, e, less, j);
    }
    forall i | 0 <= i < |less| ensures weight(less[i].1) >= 1 { assert less[i] == l.queue[i + 1]; }
    assert Behind(weight, t, e.0) > 0;
  }

  // ----- every additive count

  lemma {:induction false} AcceptsAccounted<K(!new), R, C(!new), O(!new)>(
      rules: Rules<C, O>, view: R -> C, l: Ledger<K, R, O>, cut: bool, k: K, o: O, r: R)
    requires Accounted(rules, view, l, cut) && view(r) == Take(rules, Part(view, l.pending, k), o)
    ensures Accounted(rules, view, Ledger(l.base, l.stored, l.queue, l.pending[k := r], l.log + [(k, o)]), cut)
  {
    var t := Ledger(l.base, l.stored, l.queue, l.pending[k := r], l.log + [(k, o)]);
    forall weight: C -> int | Additive(rules, weight) ensures Audited(Through(view, weight), t, cut) {
      assert Audited(Through(view, weight), l, cut);
      AcceptsAudited(Through(view, weight), l, cut, k, o, r);
    }
  }

  lemma {:induction false} FlushesAccounted<K(!new), R, C(!new), O(!new)>(
      rules: Rules<C, O>, view: R -> C, l: Ledger<K, R, O>, cut: bool, order: seq<K>)
    requires Accounted(rules, view, l, cut) && Enumerates(order, l.pending.Keys)
    ensures forall i :: 0 <= i < |order| ==> order[i] in l.pending
    ensures Accounted(rules, view, Ledger(l.base, l.stored, l.queue + Entries(order, l.pending), map[], l.log), cut)
  {
    EnumeratesAll(order, l.pending.Keys);
    var t := Ledger(l.base, l.stored, l.queue + Entries(order, l.pending), map[], l.log);
    forall weight: C -> int | Additive(rules, weight) ensures Audited(Through(view, weight), t, cut) {
      assert Audited(Through(view, weight), l, cut);
      FlushesAudited(Through(view, weight), l, cut, order);
    }
  }

  lemma {:induction false} WritesAccounted<K(!new), R, C(!new), O(!new)>(
      rules: Rules<C, O>, view: R -> C, l: Ledger<K, R, O>, cut: bool, e: (K, R), rest: seq<(K, R)>, r: R)
    requires Accounted(rules, view, l, cut) && l.queue == [e] + rest
    requires view(r) == Put(rules, Part(view, l.stored, e.0), view(e.1))
    ensures Accounted(rules, view, Ledger(l.base, l.stored[e.0 := r], rest, l.pending, l.log), cut)
  {
    var t := Ledger(l.base, l.stored[e.0 := r], rest, l.pending, l.log);
    forall weight: C -> int | Additive(rules, weight) ensures Audited(Through(view, weight), t, cut) {
      assert Audited(Through(view, weight), l, cut);
      WritesAudited(Through(view, weight), l, cut, e, rest, r);
    }
  }

  lemma {:induction false} CutAccounted<K(!new), R, C(!new), O(!new)>(
      rules: Rules<C, O>, view: R -> C, l: Ledger<K, R, O>, cut: bool, gone: seq<(K, R)>, rest: seq<(K, R)>)
    requires Accounted(rules, view, l, cut) && l.queue == gone + rest
    ensures Accounted(rules, view, Ledger(l.base, l.stored, rest, l.pending, l.log), cut || gone != [])
  {
    var t := Ledger(l.base, l.stored, rest, l.pending, l.log);
    forall weight: C -> int | Additive(rules, weight) ensures Audited(Through(view, weight), t, cut || gone != []) {
      assert Audited(Through(view, weight), l, cut);
      CutAudited(Through(view, weight), l, cut, gone, rest);
    }
  }

  // ----- a cut shows

  ghost function Carries<C>(weight: C -> int, c: Option<C>): int { if c.Some? then weight(c.value) else 0 }

  lemma {:induction false} FoldWeighs<C(!new), O(!new)>(rules: Rules<C, O>, weight: C -> int, base: Option<C>,
                                                        os: seq<O>)
    requires Additive(rules, weight)
    ensures Carries(weight, Over(rules, base, os)) == Carries(weight, base) + |os|
  {
    if os != [] { FoldWeighs(rules, weight, base, os[..|os| - 1]); }
  }

  lemma {:induction false} QueueWeighs<K(!new), R, C(!new), O(!new)>(
      rules: Rules<C, O>, view: R -> C, weight: C -> int, stored: Option<C>, queue: seq<(K, R)>, k: K)
    requires Additive(rules, weight)
    ensures Carries(weight, PutAll(rules, stored, Parts(view, queue, k)))
         == Carries(weight, stored) + WeighAt(Through(view, weight), queue, k)
  {
    if queue != [] {
      var before, e := queue[..|queue| - 1], queue[|queue| - 1];
      QueueWeighs(rules, view, weight, stored, before, k);
      if e.0 == k {
        PutAllSnoc(rules, stored, Parts(view, before, k), view(e.1));
      } else {
        assert Parts(view, before, k) + [] == Parts(view, before, k);
      }
    }
  }

  /** Where a key's rows fall short they do not come to the fold. */
  lemma {:induction false} BehindShows<K(!new), R, C(!new), O(!new)>(
      rules: Rules<C, O>, view: R -> C, weight: C -> int, l: Ledger<K, R, O>, k: K)
    requires Additive(rules, weight)
    ensures Carries(weight, Over(rules, Part(view, l.base, k), Of(l.log, k))) -
              Carries(weight, Total(rules, view, l, k))
         == Behind(Through(view, weight), l, k)
  {
    FoldWeighs(rules, weight, Part(view, l.base, k), Of(l.log, k));
    QueueWeighs(rules, view, weight, Part(view, l.stored, k), l.queue, k);
  }

  lemma {:induction false} CutShows<K(!new), R, C(!new), O(!new)>(
      rules: Rules<C, O>, view: R -> C, weight: C -> int, l: Ledger<K, R, O>)
    requires Additive(rules, weight) && Accounted(rules, view, l, true)
    ensures !Agree(rules, view, l)
  {
    assert Audited(Through(view, weight), l, true);
    var k :| Behind(Through(view, weight), l, k) > 0;
    BehindShows(rules, view, weight, l, k);
    assert !AgreeAt(rules, view, l, k);
  }
}
