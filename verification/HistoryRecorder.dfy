/** The recorder: it collects rows per key, hands them to the store at a flush, keeps a batch whose
    write failed, and reports what the ARP claims change. */
module HistoryRecorder {
  import opened Options
  import opened Aggregation
  import opened ArpEvents
  import opened HistoryRows
  import opened HistoryStore
  import opened HistoryPeers

  const MISMATCH_EVENT_INTERVAL_SECONDS := 3600.0

  /** A failed batch is kept up to this many times the pending limit. */
  const KEPT_ROUNDS := 4

  // ----- one table's side of the recorder

  /** The number of pending rows, the audit of every additive count, and,
      as long as no kept row was cut, that the ledger comes to the plain fold. */
  ghost predicate Side<K(!new), R, C(!new), O(!new)>(rules: Rules<C, O>, view: R -> C, l: Ledger<K, R, O>,
                                                     cut: bool, max: nat)
  {
    match l
    case Ledger(_, _, _, pending, _) =>
      |pending.Keys| <= max && (!cut ==> Agree(rules, view, l)) && Accounted(rules, view, l, cut)
  }

  lemma {:induction false} SideStarts<K(!new), R, C(!new), O(!new)>(rules: Rules<C, O>, view: R -> C, rows: map<K,
                                                                    R>, max: nat)
    ensures Side(rules, view, Ledger<K, R, O>.Ledger(rows, rows, [], map[], []), false, max)
  {
    var l := Ledger<K, R, O>.Ledger(rows, rows, [], map[], []);
    forall k ensures AgreeAt(rules, view, l, k) { }
    assert l.pending.Keys == {};
    forall weight: C -> int ensures Audited(Through(view, weight), l, false) {
      forall k ensures Behind(Through(view, weight), l, k) == 0 { }
    }
  }

  lemma {:induction false} SideAccepts<K(!new), R, C(!new), O(!new)>(
      rules: Rules<C, O>, view: R -> C, l: Ledger<K, R, O>, cut: bool, max: nat, k: K, o: O, r: R)
    requires Side(rules, view, l, cut, max) && Lawful(rules)
    requires k in l.pending || |l.pending.Keys| < max
    requires view(r) == Take(rules, Part(view, l.pending, k), o)
    ensures Side(rules, view, l.(pending := l.pending[k := r], log := l.log + [(k, o)]), cut, max)
  {
    if !cut { Accepts(rules, view, l, k, o, r); }
    AcceptsAccounted(rules, view, l, cut, k, o, r);
    assert l.pending[k := r].Keys == l.pending.Keys + {k};
  }

  lemma {:induction false} SideFlushes<K(!new), R, C(!new), O(!new)>(
      rules: Rules<C, O>, view: R -> C, l: Ledger<K, R, O>, cut: bool, max: nat, order: seq<K>)
    requires Side(rules, view, l, cut, max) && Enumerates(order, l.pending.Keys)
    requires forall i :: 0 <= i < |order| ==> order[i] in l.pending
    ensures Side(rules, view, l.(queue := l.queue + Entries(order, l.pending), pending := map[]), cut, max)
  {
    if !cut { Flushes(rules, view, l, order); }
    FlushesAccounted(rules, view, l, cut, order);
  }

  ghost predicate DnsOk(l: DnsLedger, cut: bool, max: nat) {
    && Side(DnsRules(), DnsView(), l, cut, max)
    && RowsOk(l.stored) && QueueOk(l.queue) && RowsOk(l.pending)
    && PeersOk(l, cut)
  }

  /** As long as no kept row was cut, no peer is forgotten before there are too many. */
  ghost predicate PeersOk(l: DnsLedger, cut: bool) { RowsOk(l.base) && (!cut ==> PeersKept(l)) }

  lemma {:induction false} PeersCollected(l: DnsLedger, cut: bool, k: DnsKey, o: Sighting, r: DnsRow)
    requires PeersOk(l, cut) && RowsOk(l.pending)
    requires forall role ::
               Listed(role, r) == Remember(OrNone(Part(PeerView(role), l.pending, k)), Peer(role, o))
    ensures PeersOk(Ledger(l.base, l.stored, l.queue, l.pending[k := r], l.log + [(k, o)]), cut)
  {
    if !cut {
      var t := Ledger(l.base, l.stored, l.queue, l.pending[k := r], l.log + [(k, o)]);
      assert k in l.pending ==> RowOk(l.pending[k]);
      forall role, j ensures PeersAt(role, t, j) {
        assert PeersAt(role, l, j);
        PeersAccepted(role, l, k, o, r, j);
      }
    }
  }

  lemma {:induction false} PeersQueued(l: DnsLedger, cut: bool, order: seq<DnsKey>)
    requires PeersOk(l, cut) && Enumerates(order, l.pending.Keys)
    requires forall i :: 0 <= i < |order| ==> order[i] in l.pending
    ensures PeersOk(Ledger(l.base, l.stored, l.queue + Entries(order, l.pending), map[], l.log), cut)
  {
    if !cut {
      var t := Ledger(l.base, l.stored, l.queue + Entries(order, l.pending), map[], l.log);
      forall role, k ensures PeersAt(role, t, k) {
        assert PeersAt(role, l, k);
        PeersFlushed(role, l, order, k);
      }
    }
  }

  ghost predicate ArpOk(l: ArpLedger, cut: bool, max: nat) {
    Side(ArpRules(), ArpView(), l, cut, max)
  }

  /** Adds one observation to the pending row of its key, or starts one. */
  method CollectDns(pending: map<DnsKey, DnsRow>, k: DnsKey, o: Sighting, ghost l: DnsLedger, ghost cut: bool,
                    ghost max: nat) returns (rows: map<DnsKey, DnsRow>)
    requires DnsOk(l, cut, max) && pending == l.pending && (k in pending || |pending| < max)
    ensures rows.Keys == pending.Keys + {k}
    ensures DnsOk(Ledger(l.base, l.stored, l.queue, rows, l.log + [(k, o)]), cut, max)
  {
    assert |pending.Keys| == |pending|;
    var row := if k in pending then pending[k] else DnsRow(StartDns(o), [], []);
    assert RowOk(row);
    row := DnsRow(AddDns(row.core, o), Remember(row.clients, o.client), Remember(row.resolvers, o.resolver));
    rows := pending[k := row];
    DnsLawful();
    SideAccepts(DnsRules(), DnsView(), l, cut, max, k, o, row);
    RowsOkPut(pending, k, row);
    PeersCollected(l, cut, k, o, row);
    assert DnsOk(Ledger(l.base, l.stored, l.queue, rows, l.log + [(k, o)]), cut, max);
  }

  lemma {:induction false} RowsOkPut(rows: map<DnsKey, DnsRow>, k: DnsKey, row: DnsRow)
    requires RowsOk(rows) && RowOk(row)
    ensures RowsOk(rows[k := row])
  {
    var after := rows[k := row];
    forall j | j in after ensures RowOk(after[j]) {
      if j != k { assert RowOk(rows[j]); }
    }
  }

  method CollectArp(pending: map<ArpKey, ArpRow>, k: ArpKey, c: Claim, ghost l: ArpLedger, ghost cut: bool,
                    ghost max: nat) returns (rows: map<ArpKey, ArpRow>)
    requires ArpOk(l, cut, max) && pending == l.pending && (k in pending || |pending| < max)
    ensures ArpOk(Ledger(l.base, l.stored, l.queue, rows, l.log + [(k, c)]), cut, max)
  {
    assert |pending.Keys| == |pending|;
    var row := AddArp(if k in pending then pending[k] else StartArp(c), c);
    rows := pending[k := row];
    ArpLawful();
    SideAccepts(ArpRules(), ArpView(), l, cut, max, k, c, row);
    assert ArpOk(Ledger(l.base, l.stored, l.queue, rows, l.log + [(k, c)]), cut, max);
  }

  /** The queue holds the row of every key of the table, once, and nothing else. */
  ghost predicate Lists<K(!new), R>(queue: seq<(K, R)>, rows: map<K, R>) {
    forall k {:trigger Of(queue, k)} :: Of(queue, k) == if k in rows then [rows[k]] else []
  }

  lemma {:induction false} EntriesList<K(!new), R>(order: seq<K>, rows: map<K, R>)
    requires Enumerates(order, rows.Keys) && forall i :: 0 <= i < |order| ==> order[i] in rows
    ensures Lists(Entries(order, rows), rows)
  {
    forall k ensures Of(Entries(order, rows), k) == if k in rows then [rows[k]] else [] {
      OfEntries(order, rows.Keys, rows, k);
    }
  }

  /** The batch is what was kept, and behind it everything pending. */
  ghost predicate Batched(retry: Batch, dns: map<DnsKey, DnsRow>, arp: map<ArpKey, ArpRow>, events: seq<Event>,
                          batch: Batch)
  {
    && retry.dns <= batch.dns && Lists(batch.dns[|retry.dns|..], dns) && |batch.dns| == |retry.dns| + |dns|
    && retry.arp <= batch.arp && Lists(batch.arp[|retry.arp|..], arp) && |batch.arp| == |retry.arp| + |arp|
    && batch.events == retry.events + events
  }

  /** The pending rows join the queue, in any order. */
  method FlushDns(queue: seq<(DnsKey, DnsRow)>, pending: map<DnsKey, DnsRow>, ghost l: DnsLedger, ghost cut: bool,
                  ghost max: nat) returns (all: seq<(DnsKey, DnsRow)>)
    requires DnsOk(l, cut, max) && queue == l.queue && pending == l.pending
    ensures |all| == |queue| + |pending| <= |queue| + max && (all == [] <==> queue == [] && pending == map[])
    ensures queue <= all && Lists(all[|queue|..], pending)
    ensures QueueOk(all) && DnsOk(Ledger(l.base, l.stored, all, map[], l.log), cut, max)
  {
    var order := ListKeys(pending);
    all := queue + Entries(order, pending);
    assert all[|queue|..] == Entries(order, pending);
    EntriesList(order, pending);
    SideFlushes(DnsRules(), DnsView(), l, cut, max, order);
    PeersQueued(l, cut, order);
    forall i | 0 <= i < |all| ensures RowOk(all[i].1) {
      if i < |queue| { assert RowOk(queue[i].1); } else { assert RowOk(pending[order[i - |queue|]]); }
    }
    assert DnsOk(Ledger(l.base, l.stored, all, map[], l.log), cut, max);
    if all == [] { assert pending.Keys == {}; }
  }

  method FlushArp(queue: seq<(ArpKey, ArpRow)>, pending: map<ArpKey, ArpRow>, ghost l: ArpLedger, ghost cut: bool,
                  ghost max: nat) returns (all: seq<(ArpKey, ArpRow)>)
    requires ArpOk(l, cut, max) && queue == l.queue && pending == l.pending
    ensures |all| == |queue| + |pending| <= |queue| + max && (all == [] <==> queue == [] && pending == map[])
    ensures queue <= all && Lists(all[|queue|..], pending)
    ensures ArpOk(Ledger(l.base, l.stored, all, map[], l.log), cut, max)
  {
    var order := ListKeys(pending);
    all := queue + Entries(order, pending);
    assert all[|queue|..] == Entries(order, pending);
    EntriesList(order, pending);
    SideFlushes(ArpRules(), ArpView(), l, cut, max, order);
    assert ArpOk(Ledger(l.base, l.stored, all, map[], l.log), cut, max);
    if all == [] { assert pending.Keys == {}; }
  }

  /** A queue written in full. */
  lemma {:induction false} DnsWritten(l: DnsLedger, cut: bool, max: nat)
    requires DnsOk(l, cut, max) && RowsOk(WrittenDns(l.stored, l.queue))
    ensures DnsOk(Ledger(l.base, WrittenDns(l.stored, l.queue), [], l.pending, l.log), cut, max)
  {
    WrittenDnsAgrees(l, cut);
    if !cut { AllPeersWritten(l); }
    assert DnsOk(Ledger(l.base, WrittenDns(l.stored, l.queue), [], l.pending, l.log), cut, max);
  }

  lemma {:induction false} ArpWritten(l: ArpLedger, cut: bool, max: nat)
    requires ArpOk(l, cut, max)
    ensures ArpOk(Ledger(l.base, WrittenArp(l.stored, l.queue), [], l.pending, l.log), cut, max)
  {
    WrittenArpAgrees(l, cut);
    assert ArpOk(Ledger(l.base, WrittenArp(l.stored, l.queue), [], l.pending, l.log), cut, max);
  }

  /** The end of a queue kept, or all of it. */
  lemma {:induction false} SideKept<K(!new), R, C(!new), O(!new)>(
      rules: Rules<C, O>, view: R -> C, l: Ledger<K, R, O>, cut: bool, max: nat, keep: nat)
    requires Side(rules, view, l, cut, max)
    ensures Side(rules, view, Ledger(l.base, l.stored, Tail(l.queue, keep), l.pending, l.log),
                 cut || Tail(l.queue, keep) != l.queue, max)
  {
    var rest := Tail(l.queue, keep);
    var gone := l.queue[..|l.queue| - |rest|];
    assert l.queue == gone + rest;
    CutAccounted(rules, view, l, cut, gone, rest);
    if gone == [] { assert Ledger(l.base, l.stored, rest, l.pending, l.log) == l; }
  }

  lemma {:induction false} DnsKept(l: DnsLedger, cut: bool, max: nat, keep: nat)
    requires DnsOk(l, cut, max)
    ensures DnsOk(Ledger(l.base, l.stored, Tail(l.queue, keep), l.pending, l.log),
                  cut || Tail(l.queue, keep) != l.queue, max)
  {
    SideKept(DnsRules(), DnsView(), l, cut, max, keep);
    var queue := Tail(l.queue, keep);
    forall i | 0 <= i < |queue| ensures RowOk(queue[i].1) {
      assert RowOk(l.queue[|l.queue| - |queue| + i].1);
    }
  }

  lemma {:induction false} ArpKept(l: ArpLedger, cut: bool, max: nat, keep: nat)
    requires ArpOk(l, cut, max)
    ensures ArpOk(Ledger(l.base, l.stored, Tail(l.queue, keep), l.pending, l.log),
                  cut || Tail(l.queue, keep) != l.queue, max)
  {
    SideKept(ArpRules(), ArpView(), l, cut, max, keep);
  }

  // ----- the event list

  /** The events but the mismatches. */
  function Bindings(events: seq<Event>): seq<Event> {
    if events == [] then []
    else Bindings(events[..|events| - 1])
         + if events[|events| - 1].kind.MacMismatch? then [] else [events[|events| - 1]]
  }

  lemma {:induction false} BindingsSnoc(events: seq<Event>, e: Event)
    ensures Bindings(events + [e]) == Bindings(events) + if e.kind.MacMismatch? then [] else [e]
  {
    assert (events + [e])[..|events|] == events;
  }

  lemma {:induction false} Joins<T>(a: seq<T>, b: seq<T>, c: seq<T>)
    ensures a + (b + c) == a + b + c
  {
  }

  lemma {:induction false} BindingsAdd(events: seq<Event>, more: seq<Event>)
    ensures Bindings(events + more) == Bindings(events) + Bindings(more)
  {
    if more == [] {
      assert events + more == events;
    } else {
      var before, e := more[..|more| - 1], more[|more| - 1];
      assert more == before + [e];
      BindingsAdd(events, before);
      BindingsSnoc(before, e);
      Joins(events, before, [e]);
      BindingsSnoc(events + before, e);
      Joins(Bindings(events), Bindings(before), if e.kind.MacMismatch? then [] else [e]);
    }
  }

  /** What the ARP claims came to: the bindings loaded at the start, the claims since, the memory,
      whether an event was lost, and the events: on record at the start, on record now, waiting to
      be written, and not yet handed over. */
  datatype Story = Story(loaded: Memory, claims: seq<Claim>, memory: Memory, gap: bool, base: seq<Event>,
                         stored: seq<Event>, queued: seq<Event>, events: seq<Event>)

  /** The memory is what the loaded bindings and the claims make it, and, as long as no event was
      lost, the events are those of the claims. */
  ghost predicate Faithful(t: Story) {
    forall m, log {:trigger Outcome(t.loaded, t.claims, m, log)} :: Outcome(t.loaded, t.claims, m, log) ==>
      Coherent(t.loaded) && t.memory == m && (!t.gap ==> AllBindings(t) == Bindings(t.base) + log)
  }

  ghost function AllBindings(t: Story): seq<Event> { Bindings(t.stored) + Bindings(t.queued) + Bindings(t.events) }

  /** What a run of claims leads to. */
  ghost predicate Outcome(loaded: Memory, claims: seq<Claim>, m: Memory, log: seq<Event>) {
    m == After(loaded, claims) && log == Log(loaded, claims)
  }

  lemma {:induction false} ClaimTold(t: Story, c: Claim, gap: bool, more: seq<Event>)
    requires Faithful(t) && (!gap ==> !t.gap && Bindings(more) == Told(t.memory, c))
    ensures Faithful(Story(t.loaded, t.claims + [c], Learn(t.memory, c.ip, c.mac), gap, t.base, t.stored, t.queued,
                           t.events + more))
  {
    assert Outcome(t.loaded, t.claims, After(t.loaded, t.claims), Log(t.loaded, t.claims));
    LogSnoc(t.loaded, t.claims, c);
    if !gap {
      BindingsAdd(t.events, more);
      Joins(Bindings(t.stored) + Bindings(t.queued), Bindings(t.events), Bindings(more));
      Joins(Bindings(t.base), Log(t.loaded, t.claims), Told(t.memory, c));
    }
  }

  /** Bindings loaded before the first claim. */
  lemma {:induction false} BindingsLoaded(t: Story, m: Memory)
    requires Faithful(t) && t.claims == [] && t.loaded == BLANK && Coherent(m)
    ensures Faithful(t.(loaded := m, memory := m))
  {
    assert Outcome(t.loaded, t.claims, BLANK, []);
  }

  /** A story with a gap says nothing about the events. */
  lemma {:induction false} EventsLost(t: Story, queued: seq<Event>)
    requires Faithful(t)
    ensures Faithful(t.(gap := true, queued := queued))
  {
  }

  lemma {:induction false} EventsQueued(t: Story)
    requires Faithful(t)
    ensures Faithful(t.(queued := t.queued + t.events, events := []))
  {
    BindingsAdd(t.queued, t.events);
    Joins(Bindings(t.stored), Bindings(t.queued), Bindings(t.events));
    var u := t.(queued := t.queued + t.events, events := []);
    assert AllBindings(u) == AllBindings(t);
  }

  lemma {:induction false} EventsWritten(t: Story)
    requires Faithful(t)
    ensures Faithful(t.(stored := t.stored + t.queued, queued := []))
  {
    BindingsAdd(t.stored, t.queued);
    var u := t.(stored := t.stored + t.queued, queued := []);
    assert AllBindings(u) == AllBindings(t);
  }

  lemma {:induction false} BindingsOfTold(told: seq<Event>, mismatch: seq<Event>)
    requires |mismatch| <= 1 && (mismatch != [] ==> mismatch[0].kind.MacMismatch?)
    requires forall i :: 0 <= i < |told| ==> !told[i].kind.MacMismatch?
    ensures Bindings(told + mismatch) == told
  {
    BindingsAdd(told, mismatch);
    BindingsOfOne(mismatch);
    BindingsKeep(told);
    assert told + [] == told;
  }

  lemma {:induction false} BindingsKeep(s: seq<Event>)
    requires forall i :: 0 <= i < |s| ==> !s[i].kind.MacMismatch?
    ensures Bindings(s) == s
  {
    if s != [] { BindingsKeep(s[..|s| - 1]); }
  }

  lemma {:induction false} BindingsOfOne(s: seq<Event>)
    requires |s| <= 1
    ensures Bindings(s) == if s != [] && s[0].kind.MacMismatch? then [] else s
  {
    if s != [] {
      assert s == [] + [s[0]];
      BindingsSnoc([], s[0]);
    }
  }

  /** `after` is `before` and then `more` but for its last `lost`, for which there was no room. */
  ghost predicate Taken(before: seq<Event>, more: seq<Event>, after: seq<Event>, lost: nat, max: nat) {
    lost <= |more| && after == before + more[..|more| - lost] && |after| <= max && (lost > 0 ==> |after| == max)
  }

  /** What a claim changes was reported, and its mismatch, as far as there was room. */
  ghost predicate Announced(before: seq<Event>, memory: Memory, c: Claim, mismatch: seq<Event>, after: seq<Event>,
                            lost: nat, max: nat)
  {
    forall more {:trigger Taken(before, more, after, lost, max)} ::
      more == Told(memory, c) + mismatch ==> Taken(before, more, after, lost, max)
  }

  /** Takes as many of the events as there is room for. */
  method Announce(events: seq<Event>, more: seq<Event>, max: nat) returns (all: seq<Event>, lost: nat)
    requires |events| <= max
    ensures Taken(events, more, all, lost, max)
  {
    all, lost := events, 0;
    for i := 0 to |more|
      invariant lost <= i && all == events + more[..i - lost] && |all| <= max && (lost > 0 ==> |all| == max)
    {
      if |all| >= max {
        lost := lost + 1;
      } else {
        all := all + [more[i]];
      }
    }
  }

  /** One mismatch event per pairing and interval. */
  method NoteMismatch(noted: map<ArpKey, real>, c: Claim, now: real, max: nat)
      returns (event: seq<Event>, after: map<ArpKey, real>)
    ensures event == Mismatches(noted, c, now)
    ensures Noted(noted, c, now, max, after)
  {
    event, after := [], noted;
    if c.mismatch == "" {
      return;
    }
    var key := (c.ip, c.mac);
    if key !in noted || now - noted[key] >= MISMATCH_EVENT_INTERVAL_SECONDS {
      after := noted[key := now];
      event := [Event(MacMismatch, c.ip, c.mac, "", "", c.interface, c.at)];
      if |after| > max {
        after := map[];
      }
    }
  }

  function MismatchEvent(c: Claim): Event { Event(MacMismatch, c.ip, c.mac, "", "", c.interface, c.at) }

  /** The mismatch event that is due, if any. */
  function Mismatches(noted: map<ArpKey, real>, c: Claim, now: real): seq<Event> {
    if Due(noted, c, now) then [MismatchEvent(c)] else []
  }

  /** A mismatch that is due is noted at the current time; a table that overflows is cleared. */
  ghost predicate Noted(noted: map<ArpKey, real>, c: Claim, now: real, max: nat, after: map<ArpKey, real>) {
    if !Due(noted, c, now) then after == noted
    else var next := noted[(c.ip, c.mac) := now]; after == if |next| > max then map[] else next
  }

  predicate Due(noted: map<ArpKey, real>, c: Claim, now: real) {
    var key := (c.ip, c.mac);
    c.mismatch != "" && (key in noted ==> now - noted[key] >= MISMATCH_EVENT_INTERVAL_SECONDS)
  }

  // ----- sizes

  /** `n` rounds of `max` rows. */
  ghost function Rounds(n: nat, max: nat): nat { if n == 0 then 0 else Rounds(n - 1, max) + max }

  /** Each failed write in a row adds at most one round of pending rows to the batch. */
  ghost predicate Sizes(queue: Batch, rounds: nat, max: nat) {
    |queue.dns| <= Rounds(rounds, max) && |queue.arp| <= Rounds(rounds, max) && |queue.events| <= Rounds(rounds, max)
  }

  /** The host language's `s[-keep:]`, which is all of `s` for a zero. */
  function Tail<T>(s: seq<T>, keep: nat): (t: seq<T>)
    ensures |t| <= |s| && (t == s <==> keep == 0 || |s| <= keep)
  {
    if keep == 0 || |s| <= keep then s else s[|s| - keep..]
  }

  /** `kept` is the end of `all`, with `limit` entries if there are more and the limit is not 0. */
  predicate LastOf<T(==)>(kept: seq<T>, all: seq<T>, limit: nat) {
    && |kept| <= |all| && kept == all[|all| - |kept|..]
    && |kept| == if limit == 0 || |all| <= limit then |all| else limit
  }

  /** What is kept is the end of each list, of four times the pending limit. */
  lemma {:induction false} KeepsEnds(batch: Batch, max: nat)
    ensures LastOf(Keep(batch, max).dns, batch.dns, 4 * max) && LastOf(Keep(batch, max).arp, batch.arp, 4 * max)
    ensures LastOf(Keep(batch, max).events, batch.events, 4 * max)
  {
    assert KEPT_ROUNDS * max == 4 * max;
  }

  function Keep(batch: Batch, max: nat): Batch {
    Batch(Tail(batch.dns, KEPT_ROUNDS * max), Tail(batch.arp, KEPT_ROUNDS * max), Tail(batch.events, KEPT_ROUNDS * max))
  }

  /** The kept batch is never cut before the fifth failed write in a row. */
  lemma {:induction false} KeepsAll(batch: Batch, rounds: nat, max: nat)
    requires Sizes(batch, rounds, max)
    ensures Sizes(Keep(batch, max), rounds, max)
    ensures rounds <= KEPT_ROUNDS ==> Keep(batch, max) == batch
  {
    if rounds <= KEPT_ROUNDS {
      assert Rounds(4, max) == Rounds(3, max) + max && Rounds(3, max) == Rounds(2, max) + max;
      assert Rounds(2, max) == Rounds(1, max) + max && Rounds(1, max) == max;
    }
  }

  // ----- the recorder

  /** What the recorder holds besides the two tables: the claims and their events, the batch kept or
      on its way, and the failed writes in a row, now and at worst. */
  datatype Rest = Rest(story: Story, ready: bool, queue: Batch, flying: bool, streak: nat, worst: nat)

  ghost predicate RestOk(r: Rest, max: nat) {
    && Faithful(r.story)
    && (!r.ready ==> r.story.claims == [] && r.story.loaded == BLANK)
    && r.story.queued == r.queue.events && |r.story.events| <= max
    && Sizes(r.queue, r.streak + (if r.flying then 1 else 0), max)
    && r.streak <= r.worst
  }

  /** The logged claims, without their keys. */
  ghost predicate Paired(log: seq<(ArpKey, Claim)>, claims: seq<Claim>) {
    |log| == |claims|
    && forall i {:trigger claims[i]} :: 0 <= i < |claims| ==> log[i] == ((claims[i].ip, claims[i].mac), claims[i])
  }

  /** Reports what a claim changes, as far as there is room, and learns from it. */
  method TellClaim(events: seq<Event>, memory: Memory, c: Claim, mismatch: seq<Event>, max: nat, ghost r: Rest)
      returns (all: seq<Event>, lost: nat, learnt: Memory)
    requires RestOk(r, max) && r.ready && r.story.memory == memory && r.story.events == events && |events| <= max
    requires |mismatch| <= 1 && (mismatch != [] ==> mismatch[0].kind.MacMismatch?)
    ensures |all| <= max && learnt == Learn(memory, c.ip, c.mac)
    ensures Announced(events, memory, c, mismatch, all, lost, max)
    ensures RestOk(AfterClaim(r, c, learnt, lost > 0, all), max)
  {
    var more := Told(memory, c) + mismatch;
    all, lost := Announce(events, more, max);
    learnt := Learn(memory, c.ip, c.mac);
    ToldKinds(memory, c);
    KeptEvents(Told(memory, c), mismatch, more, lost);
    RestTold(r, max, c, lost > 0, more[..|more| - lost]);
  }

  lemma {:induction false} ToldKinds(m: Memory, c: Claim)
    ensures forall i :: 0 <= i < |Told(m, c)| ==> !Told(m, c)[i].kind.MacMismatch?
  {
  }

  lemma {:induction false} KeptEvents(told: seq<Event>, mismatch: seq<Event>, more: seq<Event>, lost: nat)
    requires |mismatch| <= 1 && (mismatch != [] ==> mismatch[0].kind.MacMismatch?)
    requires forall i :: 0 <= i < |told| ==> !told[i].kind.MacMismatch?
    requires more == told + mismatch && lost <= |more|
    ensures lost == 0 ==> Bindings(more[..|more| - lost]) == told
  {
    BindingsOfTold(told, mismatch);
    assert more[..|more|] == more;
  }

  lemma {:induction false} RestTold(r: Rest, max: nat, c: Claim, lost: bool, kept: seq<Event>)
    requires RestOk(r, max) && r.ready && |r.story.events + kept| <= max
    requires !lost ==> Bindings(kept) == Told(r.story.memory, c)
    ensures RestOk(AfterClaim(r, c, Learn(r.story.memory, c.ip, c.mac), lost, r.story.events + kept), max)
  {
    ClaimTold(r.story, c, r.story.gap || lost, kept);
  }

  ghost function AfterClaim(r: Rest, c: Claim, learnt: Memory, lost: bool, all: seq<Event>): Rest {
    var t := r.story;
    Rest(Story(t.loaded, t.claims + [c], learnt, t.gap || lost, t.base, t.stored, t.queued, all), true, r.queue,
         r.flying, r.streak, r.worst)
  }

  /** The bindings of the pairs on record. */
  method Load(pairs: seq<(Ip, Mac)>) returns (m: Memory)
    requires forall i :: 0 <= i < |pairs| ==> pairs[i].1 != ""
    ensures m == Loaded(pairs) && Coherent(m)
  {
    m := BLANK;
    for i := 0 to |pairs|
      invariant m == Loaded(pairs[..i])
    {
      assert pairs[..i + 1][..i] == pairs[..i];
      m := Learn(m, pairs[i].0, pairs[i].1);
    }
    assert pairs[..|pairs|] == pairs;
    LoadedCoherent(pairs);
  }

  /** Everything the recorder and its store hold at one moment, and whether a kept row of either
      table was ever cut. */
  datatype Moment = Moment(dns: DnsLedger, dnsCut: bool, arp: ArpLedger, arpCut: bool, rest: Rest)

  /** What holds at every moment, stated through `Ok` so that it is looked into only where a proof
      names it. */
  ghost predicate Sound(n: Moment, max: nat) {
    forall m {:trigger Ok(m, max)} :: m == n ==> Ok(m, max)
  }

  ghost predicate Ok(n: Moment, max: nat) {
    && DnsOk(n.dns, n.dnsCut, max) && ArpOk(n.arp, n.arpCut, max) && RestOk(n.rest, max)
    && (n.rest.worst <= KEPT_ROUNDS ==> !n.dnsCut && !n.arpCut)
    && Paired(n.arp.log, n.rest.story.claims) && n.rest.queue.dns == n.dns.queue && n.rest.queue.arp == n.arp.queue
  }

  method TakeDns(pending: map<DnsKey, DnsRow>, k: DnsKey, o: Sighting, ghost n: Moment, ghost max: nat)
      returns (rows: map<DnsKey, DnsRow>, ghost l: DnsLedger)
    requires Sound(n, max) && pending == n.dns.pending && (k in pending || |pending| < max)
    ensures l == Ledger(n.dns.base, n.dns.stored, n.dns.queue, rows, n.dns.log + [(k, o)])
    ensures rows.Keys == pending.Keys + {k}
    ensures Sound(Moment(l, n.dnsCut, n.arp, n.arpCut, n.rest), max)
  {
    assert Ok(n, max);
    rows := CollectDns(pending, k, o, n.dns, n.dnsCut, max);
    l := Ledger(n.dns.base, n.dns.stored, n.dns.queue, rows, n.dns.log + [(k, o)]);
    assert Ok(Moment(l, n.dnsCut, n.arp, n.arpCut, n.rest), max);
  }

  /** The first claim finds the bindings loaded. */
  lemma {:induction false} LoadSound(n: Moment, max: nat, m: Memory)
    requires Sound(n, max) && !n.rest.ready && Coherent(m)
    ensures Sound(n.(rest := n.rest.(story := n.rest.story.(loaded := m, memory := m), ready := true)), max)
  {
    assert Ok(n, max);
    BindingsLoaded(n.rest.story, m);
    assert Ok(n.(rest := n.rest.(story := n.rest.story.(loaded := m, memory := m), ready := true)), max);
  }

  method TakeClaim(pending: map<ArpKey, ArpRow>, events: seq<Event>, memory: Memory, c: Claim, mismatch: seq<Event>,
                   max: nat, ghost n: Moment)
      returns (rows: map<ArpKey, ArpRow>, all: seq<Event>, lost: nat, learnt: Memory, ghost l: ArpLedger)
    requires Sound(n, max) && n.rest.ready && pending == n.arp.pending && ((c.ip, c.mac) in pending || |pending| < max)
    requires events == n.rest.story.events && memory == n.rest.story.memory && |events| <= max
    requires |mismatch| <= 1 && (mismatch != [] ==> mismatch[0].kind.MacMismatch?)
    ensures |all| <= max && learnt == Learn(memory, c.ip, c.mac)
    ensures Announced(events, memory, c, mismatch, all, lost, max)
    ensures l == Ledger(n.arp.base, n.arp.stored, n.arp.queue, rows, n.arp.log + [((c.ip, c.mac), c)])
    ensures Sound(Moment(n.dns, n.dnsCut, l, n.arpCut, AfterClaim(n.rest, c, learnt, lost > 0, all)), max)
  {
    ClaimReady(n, max);
    rows := CollectArp(pending, (c.ip, c.mac), c, n.arp, n.arpCut, max);
    all, lost, learnt := TellClaim(events, memory, c, mismatch, max, n.rest);
    l := Ledger(n.arp.base, n.arp.stored, n.arp.queue, rows, n.arp.log + [((c.ip, c.mac), c)]);
    ClaimSound(n, max, c, l, AfterClaim(n.rest, c, learnt, lost > 0, all));
  }

  lemma {:induction false} ClaimReady(n: Moment, max: nat)
    requires Sound(n, max)
    ensures ArpOk(n.arp, n.arpCut, max) && RestOk(n.rest, max)
  {
    assert Ok(n, max);
  }

  lemma {:induction false} ClaimSound(n: Moment, max: nat, c: Claim, l: ArpLedger, r: Rest)
    requires Sound(n, max) && ArpOk(l, n.arpCut, max) && RestOk(r, max)
    requires l.queue == n.arp.queue && l.log == n.arp.log + [((c.ip, c.mac), c)]
    requires r.story.claims == n.rest.story.claims + [c] && r.queue == n.rest.queue && r.worst == n.rest.worst
    ensures Sound(Moment(n.dns, n.dnsCut, l, n.arpCut, r), max)
  {
    assert Ok(n, max);
    assert Ok(Moment(n.dns, n.dnsCut, l, n.arpCut, r), max);
  }

  ghost function AfterFlush(r: Rest, batch: Batch): Rest {
    var t := r.story;
    Rest(Story(t.loaded, t.claims, t.memory, t.gap, t.base, t.stored, batch.events, []), r.ready, batch, batch != EMPTY,
         r.streak, r.worst)
  }

  lemma {:induction false} RestFlushed(r: Rest, max: nat, batch: Batch)
    requires RestOk(r, max) && !r.flying && batch.events == r.queue.events + r.story.events
    requires |batch.dns| <= |r.queue.dns| + max && |batch.arp| <= |r.queue.arp| + max
    ensures RestOk(AfterFlush(r, batch), max)
  {
    EventsQueued(r.story);
    assert Rounds(r.streak + 1, max) == Rounds(r.streak, max) + max;
  }

  /** The pending rows and events join what is kept from before. */
  method TakeFlush(retry: Batch, dns: map<DnsKey, DnsRow>, arp: map<ArpKey, ArpRow>, events: seq<Event>,
                   ghost n: Moment,
                   ghost max: nat) returns (batch: Batch)
    requires Sound(n, max) && !n.rest.flying && retry == n.rest.queue && dns == n.dns.pending && arp == n.arp.pending
    requires events == n.rest.story.events
    ensures Batched(retry, dns, arp, events, batch)
    ensures batch == EMPTY <==> retry == EMPTY && dns == map[] && arp == map[] && events == []
    ensures Sound(Moment(Ledger(n.dns.base, n.dns.stored, batch.dns, map[], n.dns.log), n.dnsCut,
                         Ledger(n.arp.base, n.arp.stored, batch.arp, map[], n.arp.log), n.arpCut,
                         AfterFlush(n.rest, batch)), max)
  {
    assert Ok(n, max);
    var dnsRows := FlushDns(retry.dns, dns, n.dns, n.dnsCut, max);
    var arpRows := FlushArp(retry.arp, arp, n.arp, n.arpCut, max);
    batch := Batch(dnsRows, arpRows, retry.events + events);
    RestFlushed(n.rest, max, batch);
    assert Ok(Moment(Ledger(n.dns.base, n.dns.stored, batch.dns, map[], n.dns.log), n.dnsCut,
                     Ledger(n.arp.base, n.arp.stored, batch.arp, map[], n.arp.log), n.arpCut,
                     AfterFlush(n.rest, batch)), max);
  }

  lemma {:induction false} ReadyToWrite(n: Moment, max: nat)
    requires Sound(n, max)
    ensures RowsOk(n.dns.stored) && QueueOk(n.dns.queue)
    ensures n.dns.queue == n.rest.queue.dns && n.arp.queue == n.rest.queue.arp &&
            n.rest.story.queued == n.rest.queue.events
  {
    assert Ok(n, max);
  }

  /** The moment after the queue was written. */
  ghost function AfterWrite(n: Moment): Moment {
    var r, t := n.rest, n.rest.story;
    Moment(Ledger(n.dns.base, WrittenDns(n.dns.stored, n.dns.queue), [], n.dns.pending, n.dns.log), n.dnsCut,
           Ledger(n.arp.base, WrittenArp(n.arp.stored, n.arp.queue), [], n.arp.pending, n.arp.log), n.arpCut,
           Rest(Story(t.loaded, t.claims, t.memory, t.gap, t.base, t.stored + t.queued,
                [], t.events), r.ready, EMPTY, false,
                0, r.worst))
  }

  lemma {:induction false} WriteSound(n: Moment, max: nat)
    requires Sound(n, max) && RowsOk(WrittenDns(n.dns.stored, n.dns.queue))
    ensures Sound(AfterWrite(n), max)
  {
    assert Ok(n, max);
    DnsWritten(n.dns, n.dnsCut, max);
    ArpWritten(n.arp, n.arpCut, max);
    EventsWritten(n.rest.story);
    assert Ok(AfterWrite(n), max);
  }

  /** The rest after the write failed and what there was room for was kept. */
  ghost function AfterFailure(r: Rest, max: nat): Rest {
    var t, kept := r.story, Keep(r.queue, max);
    Rest(Story(t.loaded, t.claims, t.memory, t.gap || kept.events != r.queue.events,
               t.base, t.stored, kept.events, t.events),
         r.ready, kept, false, r.streak + 1, if r.streak < r.worst then r.worst else r.streak + 1)
  }

  ghost function Failed(n: Moment, max: nat): Moment {
    var kept := Keep(n.rest.queue, max);
    Moment(Ledger(n.dns.base, n.dns.stored, kept.dns, n.dns.pending, n.dns.log),
           n.dnsCut || kept.dns != n.rest.queue.dns,
           Ledger(n.arp.base, n.arp.stored, kept.arp, n.arp.pending, n.arp.log),
           n.arpCut || kept.arp != n.rest.queue.arp,
           AfterFailure(n.rest, max))
  }

  lemma {:induction false} FailureSound(n: Moment, max: nat)
    requires Sound(n, max) && n.rest.flying
    ensures Sound(Failed(n, max), max)
  {
    assert Ok(n, max);
    DnsKept(n.dns, n.dnsCut, max, KEPT_ROUNDS * max);
    ArpKept(n.arp, n.arpCut, max, KEPT_ROUNDS * max);
    RestKept(n.rest, max);
    KeepsAll(n.rest.queue, n.rest.streak + 1, max);
    assert Ok(Failed(n, max), max);
  }

  lemma {:induction false} RestKept(r: Rest, max: nat)
    requires RestOk(r, max) && r.flying
    ensures RestOk(AfterFailure(r, max), max)
  {
    KeepsAll(r.queue, r.streak + 1, max);
    EventsLost(r.story, Keep(r.queue, max).events);
  }

  datatype Counters = Counters(dns: nat, arp: nat, dropped: nat, flushes: nat, writeErrors: nat)

  /** The tables at the start, what was accepted since, the bindings loaded, whether an event was
      ever lost, the failed writes in a row, now and at worst, and whether a kept row of either table
      was cut. */
  datatype Past = Past(dns: map<DnsKey, DnsRow>, arp: map<ArpKey, ArpRow>, events: seq<Event>,
                       dnsLog: seq<(DnsKey, Sighting)>, arpLog: seq<(ArpKey, Claim)>, claims: seq<Claim>,
                       loaded: Memory, gap: bool, streak: nat, worst: nat, dnsCut: bool, arpCut: bool)

  /** The pairs on record; none if they could not be read. */
  function Known(pairs: Option<seq<(Ip, Mac)>>): seq<(Ip, Mac)> { if pairs.Some? then pairs.value else [] }

  /** The history after a claim of which `lost` events were lost. */
  ghost function AfterTold(p: Past, c: Claim, lost: nat): Past {
    p.(arpLog := p.arpLog + [((c.ip, c.mac), c)], claims := p.claims + [c], gap := p.gap || lost > 0)
  }

  class Recorder {
    const store: Store
    const maxPending: nat

    var dns: map<DnsKey, DnsRow>
    var arp: map<ArpKey, ArpRow>
    var events: seq<Event>
    /** What the next flush takes up first, and what a flush under way has in hand. */
    var retry: Batch
    var flight: Option<Batch>

    var arpReady: bool
    var memory: Memory
    var mismatchAt: map<ArpKey, real>
    var counters: Counters
    ghost var past: Past

    ghost function Queue(): Batch
      reads this
    {
      if flight.Some? then flight.value else retry
    }

    ghost function DnsBook(): DnsLedger
      reads this, store
    {
      Ledger(past.dns, store.dns, Queue().dns, dns, past.dnsLog)
    }

    ghost function ArpBook(): ArpLedger
      reads this, store
    {
      Ledger(past.arp, store.arp, Queue().arp, arp, past.arpLog)
    }

    ghost function Tale(): Story
      reads this, store
    {
      Story(past.loaded, past.claims, memory, past.gap, past.events, store.events, Queue().events, events)
    }

    ghost function Now(): Moment
      reads this, store
    {
      Moment(DnsBook(), past.dnsCut, ArpBook(), past.arpCut,
             Rest(Tale(), arpReady, Queue(), flight.Some?, past.streak, past.worst))
    }

    ghost predicate Valid()
      reads this, store
    {
      && Sound(Now(), maxPending) && (flight.Some? ==> retry == EMPTY) && |events| <= maxPending
      && counters.dns == |past.dnsLog| && counters.arp == |past.arpLog|
    }

    constructor (store: Store, maxPending: nat)
      requires store.Valid()
      ensures Valid() && this.store == store && this.maxPending == maxPending && flight.None? && retry == EMPTY
      ensures dns == map[] && arp == map[] && events == []
      ensures past == Past(store.dns, store.arp, store.events, [], [], [], BLANK, false, 0, 0, false, false)
    {
      this.store, this.maxPending := store, maxPending;
      dns, arp, events, retry, flight := map[], map[], [], EMPTY, None;
      arpReady, memory, mismatchAt, counters := false, BLANK, map[], Counters(0, 0, 0, 0, 0);
      past := Past(store.dns, store.arp, store.events, [], [], [], BLANK, false, 0, 0, false, false);
      new;
      SideStarts<DnsKey, DnsRow, DnsCore, Sighting>(DnsRules(), DnsView(), store.dns, maxPending);
      PeersStart(store.dns);
      SideStarts<ArpKey, ArpRow, ArpRow, Claim>(ArpRules(), ArpView(), store.arp, maxPending);
      assert AllBindings(Tale()) == Bindings(store.events) == Bindings(store.events) + [];
      assert Ok(Now(), maxPending);
    }

    method CountDropped(n: nat)
      requires Valid()
      modifies this`counters
      ensures Valid() && counters == old(counters).(dropped := old(counters.dropped) + n)
    {
      counters := counters.(dropped := counters.dropped + n);
    }

    /** Takes in one DNS observation; refused only if its key is new and the table is full. */
    method AddDns(k: DnsKey, o: Sighting) returns (accepted: bool)
      requires Valid()
      modifies this`dns, this`counters, this`past
      ensures Valid()
      ensures accepted <==> k in old(dns) || |old(dns)| < maxPending
      ensures past == if accepted then old(past).(dnsLog := old(past.dnsLog) + [(k, o)]) else old(past)
      ensures accepted ==> dns.Keys == old(dns.Keys) + {k} && counters == old(counters).(dns := old(counters.dns) + 1)
      ensures !accepted ==> dns == old(dns) && counters == old(counters).(dropped := old(counters.dropped) + 1)
    {
      accepted := k in dns || |dns| < maxPending;
      if accepted { AcceptDns(k, o); } else { CountDropped(1); }
    }

    method AcceptDns(k: DnsKey, o: Sighting)
      requires Valid() && (k in dns || |dns| < maxPending)
      modifies this`dns, this`counters, this`past
      ensures Valid() && past == old(past).(dnsLog := old(past.dnsLog) + [(k, o)]) && dns.Keys == old(dns.Keys) + {k}
      ensures counters == old(counters).(dns := old(counters.dns) + 1)
    {
      ghost var n, l := Now(), DnsBook();
      dns, l := TakeDns(dns, k, o, n, maxPending);
      counters := counters.(dns := counters.dns + 1);
      past := past.(dnsLog := past.dnsLog + [(k, o)]);
      assert Now() == Moment(l, n.dnsCut, n.arp, n.arpCut, n.rest);
    }

    /** Fills the memory from the pairs on record; only the first call does anything. */
    method LoadArpState(known: Option<seq<(Ip, Mac)>>)
      requires Valid()
      requires known.Some? ==> forall i :: 0 <= i < |known.value| ==> known.value[i].1 != ""
      modifies this`arpReady, this`memory, this`past
      ensures Valid() && arpReady
      ensures old(arpReady) ==> memory == old(memory) && past == old(past)
      ensures !old(arpReady) ==> memory == Loaded(Known(known)) && past == old(past).(loaded := memory)
    {
      if !arpReady {
        var m := Load(Known(known));
        ghost var n := Now();
        LoadSound(n, maxPending, m);
        arpReady, memory := true, m;
        past := past.(loaded := m);
        assert Now() == n.(rest := n.rest.(story := n.rest.story.(loaded := m, memory := m), ready := true));
      }
    }

    /** Takes in one ARP claim and reports what it changes; refused only if its pairing is new and
        the table is full. */
    method AddArp(c: Claim, now: real, known: Option<seq<(Ip, Mac)>>) returns (accepted: bool, lost: nat)
      requires Valid()
      requires known.Some? ==> forall i :: 0 <= i < |known.value| ==> known.value[i].1 != ""
      modifies this`arpReady, this`memory, this`mismatchAt, this`arp, this`counters, this`past, this`events
      ensures Valid() && arpReady
      ensures accepted <==> (c.ip, c.mac) in old(arp) || |old(arp)| < maxPending
      ensures past.loaded == if old(arpReady) then old(past.loaded) else Loaded(Known(known))
      ensures !accepted ==> past == old(past).(loaded := past.loaded)
      ensures accepted ==> past == AfterTold(old(past).(loaded := past.loaded), c, lost)
      ensures counters == old(counters).(arp := old(counters.arp) + if accepted then 1 else 0,
                                         dropped := old(counters.dropped) + lost + if accepted then 0 else 1)
      ensures !accepted ==> arp == old(arp) && events == old(events) && mismatchAt == old(mismatchAt) && lost == 0
      ensures var m := if old(arpReady) then old(memory) else Loaded(Known(known));
              if !accepted then memory == m
              else memory == Learn(m, c.ip, c.mac)
                   && Announced(old(events), m, c, Mismatches(old(mismatchAt), c, now), events, lost, maxPending)
                   && Noted(old(mismatchAt), c, now, maxPending, mismatchAt)
    {
      LoadArpState(known);
      accepted, lost := ReceiveArp(c, now);
    }

    method ReceiveArp(c: Claim, now: real) returns (accepted: bool, lost: nat)
      requires Valid() && arpReady
      modifies this`memory, this`mismatchAt, this`arp, this`counters, this`past, this`events
      ensures Valid() && (accepted <==> (c.ip, c.mac) in old(arp) || |old(arp)| < maxPending)
      ensures past == if accepted then AfterTold(old(past), c, lost) else old(past)
      ensures counters == old(counters).(arp := old(counters.arp) + if accepted then 1 else 0,
                                         dropped := old(counters.dropped) + lost + if accepted then 0 else 1)
      ensures !accepted ==> arp == old(arp) && events == old(events) && mismatchAt == old(mismatchAt) && lost == 0
      ensures !accepted ==> memory == old(memory)
      ensures accepted ==> memory == Learn(old(memory), c.ip, c.mac)
      ensures accepted ==>
                && Announced(old(events), old(memory), c, Mismatches(old(mismatchAt), c, now), events, lost, maxPending)
                && Noted(old(mismatchAt), c, now, maxPending, mismatchAt)
    {
      lost := 0;
      accepted := (c.ip, c.mac) in arp || |arp| < maxPending;
      if accepted { lost := ReportArp(c, now); } else { CountDropped(1); }
    }

    method ReportArp(c: Claim, now: real) returns (lost: nat)
      requires Valid() && arpReady && ((c.ip, c.mac) in arp || |arp| < maxPending)
      modifies this`memory, this`mismatchAt, this`arp, this`counters, this`past, this`events
      ensures Valid() && past == AfterTold(old(past), c, lost) && memory == Learn(old(memory), c.ip, c.mac)
      ensures counters == old(counters).(arp := old(counters.arp) + 1, dropped := old(counters.dropped) + lost)
      ensures Announced(old(events), old(memory), c, Mismatches(old(mismatchAt), c, now), events, lost, maxPending)
      ensures Noted(old(mismatchAt), c, now, maxPending, mismatchAt)
    {
      var mismatch := Mismatch(c, now);
      lost := AcceptArp(c, mismatch);
      CountDropped(lost);
    }

    method Mismatch(c: Claim, now: real) returns (event: seq<Event>)
      requires Valid()
      modifies this`mismatchAt
      ensures Valid() && event == Mismatches(old(mismatchAt), c, now)
      ensures Noted(old(mismatchAt), c, now, maxPending, mismatchAt)
    {
      event, mismatchAt := NoteMismatch(mismatchAt, c, now, maxPending);
    }

    method AcceptArp(c: Claim, mismatch: seq<Event>) returns (lost: nat)
      requires Valid() && arpReady && ((c.ip, c.mac) in arp || |arp| < maxPending)
      requires |mismatch| <= 1 && (mismatch != [] ==> mismatch[0].kind.MacMismatch?)
      modifies this`memory, this`arp, this`counters, this`past, this`events
      ensures Valid() && past == AfterTold(old(past), c, lost) && memory == Learn(old(memory), c.ip, c.mac)
      ensures counters == old(counters).(arp := old(counters.arp) + 1)
      ensures Announced(old(events), old(memory), c, mismatch, events, lost, maxPending)
    {
      ghost var n, l := Now(), ArpBook();
      var rows, all, learnt;
      rows, all, lost, learnt, l := TakeClaim(arp, events, memory, c, mismatch, maxPending, n);
      ghost var t := Moment(n.dns, n.dnsCut, l, n.arpCut, AfterClaim(n.rest, c, learnt, lost > 0, all));
      arp, events, memory := rows, all, learnt;
      counters := counters.(arp := counters.arp + 1);
      past := AfterTold(past, c, lost);
      assert Now() == t;
    }

    /** Takes everything pending for a write, behind what is kept from before. */
    method BeginFlush() returns (busy: bool)
      requires Valid() && flight.None?
      modifies this`dns, this`arp, this`events, this`retry, this`flight
      ensures Valid() && dns == map[] && arp == map[] && events == [] && retry == EMPTY
      ensures busy == flight.Some?
      ensures busy ==> Batched(old(retry), old(dns), old(arp), old(events), flight.value)
      ensures busy <==> old(dns) != map[] || old(arp) != map[] || old(events) != [] || old(retry) != EMPTY
    {
      ghost var n := Now();
      var batch := TakeFlush(retry, dns, arp, events, n, maxPending);
      busy := batch != EMPTY;
      flight := if busy then Some(batch) else None;
      dns, arp, events, retry := map[], map[], [], EMPTY;
      assert Now() == Moment(Ledger(n.dns.base, n.dns.stored, batch.dns, map[], n.dns.log), n.dnsCut,
                             Ledger(n.arp.base, n.arp.stored, batch.arp, map[], n.arp.log), n.arpCut,
                             AfterFlush(n.rest, batch));
    }

    /** The write went through: the batch is merged into the tables. */
    method FlushWritten()
      requires Valid() && flight.Some?
      modifies store, this`flight, this`counters, this`past
      ensures Valid() && flight.None? && past == old(past).(streak := 0)
      ensures store.dns == WrittenDns(old(store.dns), old(flight.value.dns))
      ensures store.arp == WrittenArp(old(store.arp), old(flight.value.arp))
      ensures store.events == old(store.events) + old(flight.value.events)
      ensures counters == old(counters).(flushes := old(counters.flushes) + 1)
    {
      ghost var n := Now();
      ReadyToWrite(n, maxPending);
      store.WriteHistory(flight.value);
      WriteSound(n, maxPending);
      flight := None;
      counters := counters.(flushes := counters.flushes + 1);
      past := past.(streak := 0);
      assert Now() == AfterWrite(n);
    }

    /** The write failed: the batch is kept for the next flush, all of it unless it holds more than
        four times the pending limit. */
    method FlushFailed()
      requires Valid() && flight.Some?
      modifies this`retry, this`flight, this`counters, this`past
      ensures Valid() && flight.None? && retry == Keep(old(flight.value), maxPending)
      ensures past.worst == if old(past.streak) < old(past.worst) then old(past.worst) else old(past.streak) + 1
      ensures past.dnsCut == (old(past.dnsCut) || retry.dns != old(flight.value.dns))
      ensures past.arpCut == (old(past.arpCut) || retry.arp != old(flight.value.arp))
      ensures past.gap == (old(past.gap) || retry.events != old(flight.value.events))
      ensures past == old(past).(streak := old(past.streak) + 1, worst := past.worst, dnsCut := past.dnsCut,
                                 arpCut := past.arpCut, gap := past.gap)
      ensures counters == old(counters).(writeErrors := old(counters.writeErrors) + 1)
    {
      ghost var n := Now();
      ReadyToWrite(n, maxPending);
      FailureSound(n, maxPending);
      var batch := flight.value;
      retry := Keep(batch, maxPending);
      flight := None;
      counters := counters.(writeErrors := counters.writeErrors + 1);
      past := past.(streak := past.streak + 1,
                    worst := if past.streak < past.worst then past.worst else past.streak + 1,
                    dnsCut := past.dnsCut || retry.dns != batch.dns, arpCut := past.arpCut || retry.arp != batch.arp,
                    gap := past.gap || retry.events != batch.events);
      assert Now() == Failed(n, maxPending);
    }
  }

  // ----- what every run of the recorder's methods keeps

  /** Until five writes have failed in a row no kept row is cut. */
  lemma {:induction false} FourFailuresCutNothing(n: Moment, max: nat)
    requires Sound(n, max) && n.rest.worst <= KEPT_ROUNDS
    ensures !n.dnsCut && !n.arpCut
  {
    assert Ok(n, max);
  }

  /** While no row of its table was cut, the stored row of a key, the rows waiting to be written and
      the pending row come to a plain fold over all observations accepted for the key. */
  lemma {:induction false} HistoryIsFold(n: Moment, max: nat, k: DnsKey, a: ArpKey)
    requires Sound(n, max)
    ensures !n.dnsCut ==>
              Total(DnsRules(), DnsView(), n.dns, k)
              == Over(DnsRules(), Part(DnsView(), n.dns.base, k), Of(n.dns.log, k))
    ensures !n.arpCut ==>
              Total(ArpRules(), ArpView(), n.arp, a)
              == Over(ArpRules(), Part(ArpView(), n.arp.base, a), Of(n.arp.log, a))
  {
    assert Ok(n, max);
    assert !n.dnsCut ==> AgreeAt(DnsRules(), DnsView(), n.dns, k);
    assert !n.arpCut ==> AgreeAt(ArpRules(), ArpView(), n.arp, a);
  }

  /** And only then: after a cut some key falls short of its fold, for good. */
  lemma {:induction false} FoldExactlyUncut(n: Moment, max: nat)
    requires Sound(n, max)
    ensures Agree(DnsRules(), DnsView(), n.dns) <==> !n.dnsCut
    ensures Agree(ArpRules(), ArpView(), n.arp) <==> !n.arpCut
  {
    assert Ok(n, max);
    DnsAdditive();
    ArpAdditive();
    if n.dnsCut { CutShows(DnsRules(), DnsView(), DnsWeight(), n.dns); }
    if n.arpCut { CutShows(ArpRules(), ArpView(), ArpWeight(), n.arp); }
  }

  /** Once everything is written, a row that started empty says what its observations say. */
  lemma {:induction false} StoredRowMeans(n: Moment, max: nat, k: DnsKey)
    requires Sound(n, max) && !n.dnsCut && n.dns.queue == [] && n.dns.pending == map[]
    requires k !in n.dns.base
    ensures var os := Of(n.dns.log, k);
            if os == [] then k !in n.dns.stored
            else k in n.dns.stored
                 && var c := n.dns.stored[k].core;
                    Counted(os, c) && Latest(os, c) && Least(os, c.ttlMin, 1) && Least(os, c.ttlMax, -1)
                    && Bounds(Times(os), c.firstSeen, c.lastSeen)
  {
    HistoryIsFold(n, max, k, ("", ""));
    var os := Of(n.dns.log, k);
    if os != [] { FoldMeans(os); }
  }

  /** Its peers are all that were ever seen, in the order they came, if and only if there are no more
      than it can hold. */
  lemma {:induction false} StoredPeersExactly(n: Moment, max: nat, k: DnsKey, role: Role)
    requires Sound(n, max) && !n.dnsCut && n.dns.queue == [] && n.dns.pending == map[] && k in n.dns.stored
    ensures Listed(role, n.dns.stored[k]) == Seen(role, n.dns, k) <==>
              |Seen(role, n.dns, k)| <= MAX_REMEMBERED_PEERS
    ensures Distinct(Seen(role, n.dns, k))
    ensures forall p :: p in Seen(role, n.dns, k) <==>
              (k in n.dns.base && p in Listed(role, n.dns.base[k]))
              || (p != "" && exists o :: o in Of(n.dns.log, k) && Peer(role, o) == p)
  {
    assert Ok(n, max);
    ListsAllExactly(role, n.dns, k);
    SeenMeans(role, n.dns, k);
  }

  /** The same for the row of a pairing. */
  lemma {:induction false} StoredArpRowMeans(n: Moment, max: nat, k: ArpKey)
    requires Sound(n, max) && !n.arpCut && n.arp.queue == [] && n.arp.pending == map[]
    requires k !in n.arp.base
    ensures var cs := Of(n.arp.log, k);
            if cs == [] then k !in n.arp.stored
            else k in n.arp.stored
                 && var r := n.arp.stored[k]; Tallied(cs, r) && Bounds(ClaimTimes(cs), r.firstSeen, r.lastSeen)
  {
    HistoryIsFold(n, max, DnsKey("", "", ""), k);
    var cs := Of(n.arp.log, k);
    if cs != [] { ArpFoldMeans(cs); }
  }

  /** The queries and responses of all rows together are those of the rows at the start plus the
      recorder's own count exactly while no DNS row was cut, and fewer after that; likewise the
      packets of the ARP rows. */
  lemma {:induction false} NothingLostOrDoubled(r: Recorder)
    requires r.Valid()
    ensures var w, l := Through(DnsView(), DnsWeight()), r.DnsBook();
            var held, due := Weigh(w, l.stored) + WeighAll(w, l.queue) + Weigh(w, l.pending),
                Weigh(w, l.base) + r.counters.dns;
            held <= due && (held == due <==> !r.past.dnsCut)
    ensures var w, l := Through(ArpView(), ArpWeight()), r.ArpBook();
            var held, due := Weigh(w, l.stored) + WeighAll(w, l.queue) + Weigh(w, l.pending),
                Weigh(w, l.base) + r.counters.arp;
            held <= due && (held == due <==> !r.past.arpCut)
  {
    var n := r.Now();
    assert Ok(n, r.maxPending);
    DnsAdditive();
    ArpAdditive();
    assert Audited(Through(DnsView(), DnsWeight()), n.dns, n.dnsCut);
    assert Audited(Through(ArpView(), ArpWeight()), n.arp, n.arpCut);
  }

  /** The events since the start, mismatches aside. */
  ghost function Since(t: Story): seq<Event> {
    var all, from := AllBindings(t), |Bindings(t.base)|;
    if from <= |all| then all[from..] else []
  }

  /** While no event was lost, the events rebuild the current bindings, report every new device and
      every new pairing once, chain the moves of every address, and each says what a claim changed. */
  lemma {:induction false} EventsTellTheStory(n: Moment, max: nat, ip: Ip, mac: Mac)
    requires Sound(n, max) && !n.rest.story.gap
    ensures var t, log := n.rest.story, Since(n.rest.story);
            && Replay(t.loaded.ipMac, log) == t.memory.ipMac
            && Count(log, ReportsDevice(mac)) ==
               (if mac !in t.loaded.macIps && Claims(t.claims, mac, None) then 1 else 0)
            && Count(log, ReportsPair(mac, ip)) ==
               (if !Knows(t.loaded, mac, ip) && Claims(t.claims, mac, Some(ip)) then 1 else 0)
            && (ip in t.memory.ipMac ==>
                  FirstMac(t.loaded, t.claims, ip).Some?
                  && Chained(FirstMac(t.loaded, t.claims, ip).value, Moves(log, ip), t.memory.ipMac[ip]))
    ensures forall e :: e in Since(n.rest.story) ==> Explained(n.rest.story.loaded, n.rest.story.claims, e)
  {
    assert Ok(n, max);
    var t := n.rest.story;
    assert Outcome(t.loaded, t.claims, After(t.loaded, t.claims), Log(t.loaded, t.claims));
    SinceIsLog(t);
    LogRebuildsBindings(t.loaded, t.claims);
    ReportedOnce(t.loaded, t.claims, mac, ip);
    MovesFormAChain(t.loaded, t.claims, ip);
    forall e | e in Since(t) ensures Explained(t.loaded, t.claims, e) {
      var k :| 0 <= k < |Since(t)| && Since(t)[k] == e;
      EventsAreExplained(t.loaded, t.claims, k);
    }
  }

  lemma {:induction false} SinceIsLog(t: Story)
    requires AllBindings(t) == Bindings(t.base) + Log(t.loaded, t.claims)
    ensures Since(t) == Log(t.loaded, t.claims)
  {
  }

  /** The limit is exact: after five failed writes in a row, with a new key before each, the rows no
      longer come to the fold and count fewer than the observations. */
  method FiveFailuresLose(keys: seq<DnsKey>, o: Sighting) returns (r: Recorder)
    requires |keys| == 5 && forall i, j :: 0 <= i < j < 5 ==> keys[i] != keys[j]
    ensures fresh(r) && r.Valid() && r.past.worst == 5 && r.past.dnsCut && |r.past.dnsLog| == 5
    ensures !Agree(DnsRules(), DnsView(), r.Now().dns) && Missing(Through(DnsView(), DnsWeight()), r.Now().dns) > 0
  {
    var store := new Store(map[], map[], []);
    r := new Recorder(store, 1);
    for i := 0 to 5
      invariant fresh(r) && fresh(r.store) && r.Valid() && r.maxPending == 1 && r.flight.None? && r.dns == map[]
      invariant r.past.streak == r.past.worst == i == |r.past.dnsLog|
      invariant (i < 5 ==> |r.retry.dns| == i) && (i == 5 ==> r.past.dnsCut)
    {
      FailOnce(r, keys[i], o);
    }
    CutLoses(r.Now(), 1);
  }

  /** One more key, and a flush whose write fails. */
  method FailOnce(r: Recorder, k: DnsKey, o: Sighting)
    requires r.Valid() && r.flight.None? && r.dns == map[] && r.maxPending > 0 && r.past.streak == r.past.worst
    modifies r
    ensures r.Valid() && r.flight.None? && r.dns == map[]
    ensures r.past.streak == r.past.worst == old(r.past.streak) + 1 && r.past.dnsLog == old(r.past.dnsLog) + [(k, o)]
    ensures var rows := |old(r.retry.dns)| + 1;
            if rows > KEPT_ROUNDS * r.maxPending then r.past.dnsCut else |r.retry.dns| == rows
  {
    var _ := r.AddDns(k, o);
    assert r.dns.Keys == {k} && |r.dns| == |r.dns.Keys|;
    var _ := r.BeginFlush();
    r.FlushFailed();
  }

  lemma {:induction false} CutLoses(n: Moment, max: nat)
    requires Sound(n, max) && n.dnsCut
    ensures !Agree(DnsRules(), DnsView(), n.dns) && Missing(Through(DnsView(), DnsWeight()), n.dns) > 0
  {
    assert Ok(n, max);
    FoldExactlyUncut(n, max);
    DnsAdditive();
    assert Audited(Through(DnsView(), DnsWeight()), n.dns, n.dnsCut);
  }
}
