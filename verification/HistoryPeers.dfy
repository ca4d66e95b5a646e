/** The clients and resolvers a DNS row remembers. The recorder keeps the first twenty of a round and
    the store the newest twenty of all; as long as no more than twenty are seen, neither cap shows. */
module HistoryPeers {
  import opened Options
  import opened Aggregation
  import opened HistoryRows
  import opened HistoryStore

  datatype Role = Client | Resolver

  function Peer(role: Role, o: Sighting): string { if role.Client? then o.client else o.resolver }

  function Listed(role: Role, r: DnsRow): seq<string> { if role.Client? then r.clients else r.resolvers }

  function WithPeer(peers: seq<string>, p: string): seq<string> {
    if p != "" && p !in peers then peers + [p] else peers
  }

  /** Remembering without a cap. */
  function PeerRules(role: Role): Rules<seq<string>, Sighting> {
    Rules((o: Sighting) => [], (c: seq<string>, o: Sighting) => WithPeer(c, Peer(role, o)),
          (a: seq<string>, b: seq<string>) => Joined(a, b))
  }

  function PeerView(role: Role): DnsRow -> seq<string> { (r: DnsRow) => Listed(role, r) }

  /** Every peer of a key, in the order they were first seen: those of the row at the start, then those of
      the observations. */
  ghost function Seen(role: Role, l: DnsLedger, k: DnsKey): seq<string> {
    OrNone(Over(PeerRules(role), Part(PeerView(role), l.base, k), Of(l.log, k)))
  }

  function OrNone(peers: Option<seq<string>>): seq<string> { if peers.Some? then peers.value else [] }

  // ----- joining lists of peers

  lemma {:induction false} JoinedSnoc(known: seq<string>, arrived: seq<string>, p: string)
    ensures Joined(known, arrived + [p]) == WithPeer(Joined(known, arrived), p)
  {
    assert (arrived + [p])[..|arrived|] == arrived;
  }

  lemma {:induction false} JoinedMembers(known: seq<string>, arrived: seq<string>)
    ensures forall p :: p in Joined(known, arrived) <==> p in known || (p in arrived && p != "")
  {
    if arrived != [] {
      var before, p := arrived[..|arrived| - 1], arrived[|arrived| - 1];
      assert arrived == before + [p];
      JoinedMembers(known, before);
      JoinedSnoc(known, before, p);
    }
  }

  lemma {:induction false} JoinedAlone(s: seq<string>)
    requires Distinct(s)
    ensures Joined([], s) == s
  {
    if s != [] {
      var before, p := s[..|s| - 1], s[|s| - 1];
      assert s == before + [p];
      JoinedAlone(before);
      JoinedSnoc([], before, p);
    }
  }

  lemma {:induction false} JoinedWith(a: seq<string>, b: seq<string>, p: string)
    ensures Joined(a, WithPeer(b, p)) == WithPeer(Joined(a, b), p)
  {
    JoinedMembers(a, b);
    JoinedSnoc(a, b, p);
  }

  lemma {:induction false} PeersLawful(role: Role)
    ensures Lawful(PeerRules(role))
  {
    var rules := PeerRules(role);
    forall a, b, o ensures rules.merge(a, rules.add(b, o)) == rules.add(rules.merge(a, b), o) {
      JoinedWith(a, b, Peer(role, o));
    }
    forall a, o ensures rules.merge(a, rules.add(rules.start(o), o)) == rules.add(a, o) {
      JoinedWith(a, [], Peer(role, o));
    }
  }

  /** A list without repetition is no longer than one that holds all of it. */
  lemma {:induction false} FitsIn(a: seq<string>, b: seq<string>)
    requires Distinct(a) && forall p :: p in a ==> p in b
    ensures |a| <= |b|
  {
    if a != [] {
      var before, p := a[..|a| - 1], a[|a| - 1];
      assert p in a && a == before + [p];
      var i :| 0 <= i < |b| && b[i] == p;
      var less := b[..i] + b[i + 1..];
      forall q | q in before ensures q in less {
        assert q in a && q in b && q != p;
        var j :| 0 <= j < |b| && b[j] == q;
        assert q == if j < i then less[j] else less[j - 1];
      }
      FitsIn(before, less);
    }
  }

  /** The peers seen: each once, and exactly those of the first row and of the observations. */
  lemma {:induction false} SeenMeans(role: Role, l: DnsLedger, k: DnsKey)
    requires RowsOk(l.base)
    ensures Distinct(Seen(role, l, k)) && (k in l.base ==> Listed(role, l.base[k]) <= Seen(role, l, k))
    ensures forall p :: p in Seen(role, l, k) <==>
              (k in l.base && p in Listed(role, l.base[k]))
              || (p != "" && exists o :: o in Of(l.log, k) && Peer(role, o) == p)
  {
    assert k in l.base ==> RowOk(l.base[k]);
    var base := Part(PeerView(role), l.base, k);
    OverMeans(role, base, Of(l.log, k));
  }

  lemma {:induction false} OverMeans(role: Role, base: Option<seq<string>>, os: seq<Sighting>)
    requires base.Some? ==> Distinct(base.value)
    ensures var all := OrNone(Over(PeerRules(role), base, os));
      && Distinct(all) && OrNone(base) <= all
      && forall p :: p in all <==> p in OrNone(base) || (p != "" && exists o :: o in os && Peer(role, o) == p)
  {
    if os != [] {
      var before, last := os[..|os| - 1], os[|os| - 1];
      assert os == before + [last];
      OverMeans(role, base, before);
      OverSnoc(PeerRules(role), base, before, last);
      var was, all := OrNone(Over(PeerRules(role), base, before)), OrNone(Over(PeerRules(role), base, os));
      assert all == WithPeer(was, Peer(role, last));
      forall p ensures p in all <==> p in OrNone(base) || (p != "" && exists o :: o in os && Peer(role, o) == p) {
        if p != "" && exists o :: o in os && Peer(role, o) == p {
          var o :| o in os && Peer(role, o) == p;
          assert o in before || o == last;
        }
      }
    }
  }

  // ----- what the ledger remembers

  /** If all peers of the key fit, the stored, the waiting and the pending row come to all of them. */
  ghost predicate PeersAt(role: Role, l: DnsLedger, k: DnsKey) {
    |Seen(role, l, k)| <= MAX_REMEMBERED_PEERS ==> AgreeAt(PeerRules(role), PeerView(role), l, k)
  }

  ghost predicate PeersKept(l: DnsLedger) {
    RowsOk(l.base) && forall role, k {:trigger PeersAt(role, l, k)} :: PeersAt(role, l, k)
  }

  lemma {:induction false} PeersStart(rows: map<DnsKey, DnsRow>)
    requires RowsOk(rows)
    ensures PeersKept(Ledger(rows, rows, [], map[], []))
  {
    var l: DnsLedger := Ledger(rows, rows, [], map[], []);
    forall role, k ensures PeersAt(role, l, k) { }
  }

  /** One observation adds its peer, unless it is there. */
  lemma {:induction false} SeenSnoc(role: Role, l: DnsLedger, k: DnsKey, o: Sighting, r: DnsRow, j: DnsKey)
    ensures var t := l.(pending := l.pending[k := r], log := l.log + [(k, o)]);
      Seen(role, t, j) == if j == k then WithPeer(Seen(role, l, j), Peer(role, o)) else Seen(role, l, j)
  {
    OfSnoc(l.log, (k, o), j);
    if j == k {
      OverSnoc(PeerRules(role), Part(PeerView(role), l.base, j), Of(l.log, j), o);
    } else {
      assert Of(l.log, j) + [] == Of(l.log, j);
    }
  }

  lemma {:induction false} PeersAccepted(role: Role, l: DnsLedger, k: DnsKey, o: Sighting, r: DnsRow, j: DnsKey)
    requires PeersAt(role, l, j) && (k in l.pending ==> RowOk(l.pending[k]))
    requires Listed(role, r) == Remember(OrNone(Part(PeerView(role), l.pending, k)), Peer(role, o))
    ensures PeersAt(role, l.(pending := l.pending[k := r], log := l.log + [(k, o)]), j)
  {
    var t := l.(pending := l.pending[k := r], log := l.log + [(k, o)]);
    SeenSnoc(role, l, k, o, r, j);
    if |Seen(role, t, j)| <= MAX_REMEMBERED_PEERS {
      if j == k { Roomy(role, l, k, Peer(role, o)); }
      PeersLawful(role);
      AcceptsAt(PeerRules(role), PeerView(role), l, k, o, r, j);
    }
  }

  /** While all peers fit, the row being collected has room for one more. */
  lemma {:induction false} Roomy(role: Role, l: DnsLedger, k: DnsKey, p: string)
    requires AgreeAt(PeerRules(role), PeerView(role), l, k) && (k in l.pending ==> RowOk(l.pending[k]))
    requires |WithPeer(Seen(role, l, k), p)| <= MAX_REMEMBERED_PEERS
    ensures var peers := OrNone(Part(PeerView(role), l.pending, k)); Remember(peers, p) == WithPeer(peers, p)
  {
    var peers, all := OrNone(Part(PeerView(role), l.pending, k)), Seen(role, l, k);
    if p != "" && p !in peers {
      PendingSeen(role, l, k);
      FitsIn(peers + [p], WithPeer(all, p));
    }
  }

  lemma {:induction false} PendingSeen(role: Role, l: DnsLedger, k: DnsKey)
    requires AgreeAt(PeerRules(role), PeerView(role), l, k) && (k in l.pending ==> RowOk(l.pending[k]))
    ensures forall p :: p in OrNone(Part(PeerView(role), l.pending, k)) ==> p in Seen(role, l, k)
  {
    if k in l.pending {
      var queued := PutAll(PeerRules(role), Part(PeerView(role), l.stored, k), Parts(PeerView(role), l.queue, k));
      JoinedMembers(OrNone(queued), Listed(role, l.pending[k]));
    }
  }

  lemma {:induction false} PeersFlushed(role: Role, l: DnsLedger, order: seq<DnsKey>, k: DnsKey)
    requires PeersAt(role, l, k) && Enumerates(order, l.pending.Keys)
    requires forall i :: 0 <= i < |order| ==> order[i] in l.pending
    ensures PeersAt(role, l.(queue := l.queue + Entries(order, l.pending), pending := map[]), k)
  {
    if |Seen(role, l, k)| <= MAX_REMEMBERED_PEERS { FlushesAt(PeerRules(role), PeerView(role), l, order, k); }
  }

  lemma {:induction false} PeersWritten(role: Role, l: DnsLedger, e: (DnsKey, DnsRow), rest: seq<(DnsKey, DnsRow)>,
                                        k: DnsKey)
    requires PeersAt(role, l, k) && l.queue == [e] + rest && RowsOk(l.stored) && RowOk(e.1)
    ensures PeersAt(role, l.(stored := l.stored[e.0 := StoredDns(l.stored, e.0, e.1)], queue := rest), k)
  {
    if |Seen(role, l, k)| <= MAX_REMEMBERED_PEERS {
      if k == e.0 { NoneForgotten(role, l, e, rest); }
      WritesAt(PeerRules(role), PeerView(role), l, e, rest, StoredDns(l.stored, e.0, e.1), k);
    }
  }

  /** While all peers fit, the store's cap cuts none. */
  lemma {:induction false} NoneForgotten(role: Role, l: DnsLedger, e: (DnsKey, DnsRow), rest: seq<(DnsKey, DnsRow)>)
    requires AgreeAt(PeerRules(role), PeerView(role), l, e.0) && |Seen(role, l, e.0)| <= MAX_REMEMBERED_PEERS
    requires l.queue == [e] + rest && RowsOk(l.stored) && RowOk(e.1)
    ensures Listed(role, StoredDns(l.stored, e.0, e.1))
         == Put(PeerRules(role), Part(PeerView(role), l.stored, e.0), Listed(role, e.1))
  {
    var k, row := e.0, Listed(role, e.1);
    if k in l.stored {
      assert RowOk(l.stored[k]);
      var known := Listed(role, l.stored[k]);
      JoinedIs(known, row);
      StoredSeen(role, l, e, rest);
      FitsIn(Joined(known, row), Seen(role, l, k));
    } else {
      JoinedAlone(row);
    }
  }

  lemma {:induction false} StoredSeen(role: Role, l: DnsLedger, e: (DnsKey, DnsRow), rest: seq<(DnsKey, DnsRow)>)
    requires AgreeAt(PeerRules(role), PeerView(role), l, e.0) && e.0 in l.stored && l.queue == [e] + rest
    ensures forall p :: p in Joined(Listed(role, l.stored[e.0]), Listed(role, e.1)) ==> p in Seen(role, l, e.0)
  {
    var rules, view, k := PeerRules(role), PeerView(role), e.0;
    var joined, parts := Joined(Listed(role, l.stored[k]), Listed(role, e.1)), Parts(view, rest, k);
    PartsCons(view, e, rest, k);
    PutAllCons(rules, Part(view, l.stored, k), view(e.1), parts);
    PutAllKeeps(role, joined, parts);
    var queued := PutAll(rules, Some(joined), parts);
    if k in l.pending { JoinedMembers(OrNone(queued), Listed(role, l.pending[k])); }
  }

  lemma {:induction false} PutAllKeeps(role: Role, peers: seq<string>, parts: seq<seq<string>>)
    ensures PutAll(PeerRules(role), Some(peers), parts).Some?
    ensures forall p :: p in peers ==> p in PutAll(PeerRules(role), Some(peers), parts).value
  {
    if parts != [] {
      var before := parts[..|parts| - 1];
      PutAllKeeps(role, peers, before);
      JoinedMembers(PutAll(PeerRules(role), Some(peers), before).value, parts[|parts| - 1]);
    }
  }

  /** A queue written in full. */
  lemma {:induction false} AllPeersWritten(l: DnsLedger)
    requires PeersKept(l) && RowsOk(l.stored) && QueueOk(l.queue)
    ensures PeersKept(Ledger(l.base, WrittenDns(l.stored, l.queue), [], l.pending, l.log))
    decreases |l.queue|
  {
    if l.queue != [] {
      var e, rest := l.queue[0], l.queue[1..];
      assert l.queue == [e] + rest && RowOk(l.queue[0].1);
      var r := StoredDns(l.stored, e.0, e.1);
      var t := Ledger(l.base, l.stored[e.0 := r], rest, l.pending, l.log);
      forall role, k ensures PeersAt(role, t, k) {
        assert PeersAt(role, l, k);
        PeersWritten(role, l, e, rest, k);
      }
      HeadWritten(l.stored, e);
      forall i | 0 <= i < |rest| ensures RowOk(rest[i].1) { assert RowOk(l.queue[i + 1].1); }
      AllPeersWritten(t);
    }
  }

  lemma {:induction false} HeadWritten(stored: map<DnsKey, DnsRow>, e: (DnsKey, DnsRow))
    requires RowsOk(stored) && RowOk(e.1)
    ensures RowsOk(stored[e.0 := StoredDns(stored, e.0, e.1)])
  {
    var r, after := StoredDns(stored, e.0, e.1), stored[e.0 := StoredDns(stored, e.0, e.1)];
    var known := if e.0 in stored then stored[e.0] else DnsRow(e.1.core, [], []);
    assert e.0 in stored ==> RowOk(stored[e.0]);
    JoinedIs(known.clients, e.1.clients);
    JoinedIs(known.resolvers, e.1.resolvers);
    forall k | k in after ensures RowOk(after[k]) {
      if k != e.0 { assert RowOk(stored[k]); }
    }
  }

  /** The stored row of a key with nothing under way lists all its peers if and only if they fit. */
  lemma {:induction false} ListsAllExactly(role: Role, l: DnsLedger, k: DnsKey)
    requires PeersKept(l) && RowsOk(l.stored) && l.queue == [] && l.pending == map[] && k in l.stored
    ensures Listed(role, l.stored[k]) == Seen(role, l, k) <==> |Seen(role, l, k)| <= MAX_REMEMBERED_PEERS
  {
    assert PeersAt(role, l, k) && RowOk(l.stored[k]);
  }
}
