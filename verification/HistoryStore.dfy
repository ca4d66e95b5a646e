/** The history tables and the transaction that merges collected rows into them. */
module HistoryStore {
  import opened Options
  import opened Aggregation
  import opened ArpEvents
  import opened HistoryRows

  /** What one flush hands to the store. */
  datatype Batch = Batch(dns: seq<(DnsKey, DnsRow)>, arp: seq<(ArpKey, ArpRow)>, events: seq<Event>)

  const EMPTY := Batch([], [], [])

  /** The known peers, then every arrival that is not empty and was not there yet. */
  function Joined(known: seq<string>, arrived: seq<string>): seq<string> {
    if arrived == [] then known
    else
      var before, p := Joined(known, arrived[..|arrived| - 1]), arrived[|arrived| - 1];
      if p != "" && p !in before then before + [p] else before
  }

  /** The last of them, as many as a row remembers. */
  function Newest(s: seq<string>): seq<string> {
    if |s| <= MAX_REMEMBERED_PEERS then s else s[|s| - MAX_REMEMBERED_PEERS..]
  }

  /** No peer comes twice, none but the known and the new are there, and all of them are before the
      cap cuts the oldest. */
  lemma {:induction false} JoinedIs(known: seq<string>, arrived: seq<string>)
    requires Distinct(known)
    ensures Distinct(Joined(known, arrived)) && known <= Joined(known, arrived)
    ensures forall p :: p in Joined(known, arrived) <==> p in known || (p in arrived && p != "")
  {
    if arrived != [] {
      var n := |arrived| - 1;
      JoinedIs(known, arrived[..n]);
      assert arrived == arrived[..n] + [arrived[n]];
    }
  }

  method MergePeers(known: seq<string>, arrived: seq<string>) returns (merged: seq<string>)
    ensures merged == Newest(Joined(known, arrived)) && |merged| <= MAX_REMEMBERED_PEERS
    ensures var all := Joined(known, arrived);
      merged == (if |all| <= MAX_REMEMBERED_PEERS then all else all[|all| - MAX_REMEMBERED_PEERS..])
    ensures Distinct(known) ==> Peers(merged) && forall p :: p in merged ==> p in known || p in arrived
  {
    merged := known;
    for i := 0 to |arrived|
      invariant merged == Joined(known, arrived[..i])
    {
      assert arrived[..i + 1][..i] == arrived[..i];
      if arrived[i] != "" && arrived[i] !in merged {
        merged := merged + [arrived[i]];
      }
    }
    assert arrived[..|arrived|] == arrived;
    if Distinct(known) { JoinedIs(known, arrived); }
    if |merged| > MAX_REMEMBERED_PEERS {
      merged := merged[|merged| - MAX_REMEMBERED_PEERS..];
    }
  }

  ghost predicate RowOk(r: DnsRow) { Peers(r.clients) && Peers(r.resolvers) }

  ghost predicate RowsOk(rows: map<DnsKey, DnsRow>) {
    forall k {:trigger RowOk(rows[k])} :: k in rows ==> RowOk(rows[k])
  }

  ghost predicate QueueOk(queue: seq<(DnsKey, DnsRow)>) {
    forall i {:trigger RowOk(queue[i].1)} :: 0 <= i < |queue| ==> RowOk(queue[i].1)
  }

  /** The row under `k` once `row` is merged into it. */
  function StoredDns(rows: map<DnsKey, DnsRow>, k: DnsKey, row: DnsRow): DnsRow {
    var known := if k in rows then rows[k] else DnsRow(row.core, [], []);
    DnsRow(if k in rows then MergeDns(known.core, row.core) else row.core,
           Newest(Joined(known.clients, row.clients)), Newest(Joined(known.resolvers, row.resolvers)))
  }

  function StoredArp(rows: map<ArpKey, ArpRow>, k: ArpKey, row: ArpRow): ArpRow {
    if k in rows then MergeArp(rows[k], row) else row
  }

  function WrittenDns(rows: map<DnsKey, DnsRow>, queue: seq<(DnsKey, DnsRow)>): map<DnsKey, DnsRow>
    decreases |queue|
  {
    if queue == [] then rows
    else WrittenDns(rows[queue[0].0 := StoredDns(rows, queue[0].0, queue[0].1)], queue[1..])
  }

  function WrittenArp(rows: map<ArpKey, ArpRow>, queue: seq<(ArpKey, ArpRow)>): map<ArpKey, ArpRow>
    decreases |queue|
  {
    if queue == [] then rows
    else WrittenArp(rows[queue[0].0 := StoredArp(rows, queue[0].0, queue[0].1)], queue[1..])
  }

  class Store {
    var dns: map<DnsKey, DnsRow>
    var arp: map<ArpKey, ArpRow>
    var events: seq<Event>

    ghost predicate Valid()
      reads this
    {
      RowsOk(dns)
    }

    constructor (dns: map<DnsKey, DnsRow>, arp: map<ArpKey, ArpRow>, events: seq<Event>)
      requires RowsOk(dns)
      ensures Valid() && this.dns == dns && this.arp == arp && this.events == events
    {
      this.dns, this.arp, this.events := dns, arp, events;
    }

    method MergeDnsRow(k: DnsKey, row: DnsRow)
      requires Valid() && RowOk(row)
      modifies this`dns
      ensures Valid() && dns == old(dns)[k := StoredDns(old(dns), k, row)]
    {
      ghost var before := dns;
      if k !in dns {
        var clients := MergePeers([], row.clients);
        var resolvers := MergePeers([], row.resolvers);
        dns := dns[k := DnsRow(row.core, clients, resolvers)];
      } else {
        assert RowOk(dns[k]);
        var clients := MergePeers(dns[k].clients, row.clients);
        var resolvers := MergePeers(dns[k].resolvers, row.resolvers);
        dns := dns[k := DnsRow(MergeDns(dns[k].core, row.core), clients, resolvers)];
      }
      forall j | j in dns ensures RowOk(dns[j]) {
        if j != k { assert RowOk(before[j]); }
      }
    }

    method MergeArpRow(k: ArpKey, row: ArpRow)
      modifies this`arp
      ensures arp == old(arp)[k := StoredArp(old(arp), k, row)]
    {
      if k !in arp { arp := arp[k := row]; } else { arp := arp[k := MergeArp(arp[k], row)]; }
    }

    /** One transaction over a whole batch. */
    method WriteHistory(batch: Batch)
      requires Valid() && QueueOk(batch.dns)
      modifies this
      ensures Valid()
      ensures dns == WrittenDns(old(dns), batch.dns) && arp == WrittenArp(old(arp), batch.arp)
      ensures events == old(events) + batch.events
    {
      WriteDns(batch.dns);
      WriteArp(batch.arp);
      WriteEvents(batch.events);
    }

    method WriteDns(queue: seq<(DnsKey, DnsRow)>)
      requires Valid() && QueueOk(queue)
      modifies this`dns
      ensures Valid() && dns == WrittenDns(old(dns), queue)
    {
      for i := 0 to |queue|
        invariant Valid() && WrittenDns(old(dns), queue) == WrittenDns(dns, queue[i..])
      {
        ghost var rest := queue[i..];
        assert rest[0] == queue[i] && rest[1..] == queue[i + 1..];
        assert RowOk(queue[i].1);
        MergeDnsRow(queue[i].0, queue[i].1);
      }
    }

    method WriteArp(queue: seq<(ArpKey, ArpRow)>)
      modifies this`arp
      ensures arp == WrittenArp(old(arp), queue)
    {
      for i := 0 to |queue|
        invariant WrittenArp(old(arp), queue) == WrittenArp(arp, queue[i..])
      {
        ghost var rest := queue[i..];
        assert rest[0] == queue[i] && rest[1..] == queue[i + 1..];
        MergeArpRow(queue[i].0, queue[i].1);
      }
    }

    method WriteEvents(more: seq<Event>)
      modifies this`events
      ensures events == old(events) + more
    {
      for i := 0 to |more|
        invariant events == old(events) + more[..i]
      {
        events := events + [more[i]];
      }
      assert more[..|more|] == more;
    }
  }

  // ----- a written queue is accounted for

  type DnsLedger = Ledger<DnsKey, DnsRow, Sighting>
  type ArpLedger = Ledger<ArpKey, ArpRow, Claim>

  lemma {:induction false} WrittenDnsAgrees(l: DnsLedger, cut: bool)
    requires (!cut ==> Agree(DnsRules(), DnsView(), l)) && Accounted(DnsRules(), DnsView(), l, cut)
    ensures var t := Ledger(l.base, WrittenDns(l.stored, l.queue), [], l.pending, l.log);
            (!cut ==> Agree(DnsRules(), DnsView(), t)) && Accounted(DnsRules(), DnsView(), t, cut)
    decreases |l.queue|
  {
    if l.queue != [] {
      var e, rest := l.queue[0], l.queue[1..];
      assert l.queue == [e] + rest;
      var r := StoredDns(l.stored, e.0, e.1);
      if !cut { Writes(DnsRules(), DnsView(), l, e, rest, r); }
      WritesAccounted(DnsRules(), DnsView(), l, cut, e, rest, r);
      WrittenDnsAgrees(Ledger(l.base, l.stored[e.0 := r], rest, l.pending, l.log), cut);
    }
  }

  lemma {:induction false} WrittenArpAgrees(l: ArpLedger, cut: bool)
    requires (!cut ==> Agree(ArpRules(), ArpView(), l)) && Accounted(ArpRules(), ArpView(), l, cut)
    ensures var t := Ledger(l.base, WrittenArp(l.stored, l.queue), [], l.pending, l.log);
            (!cut ==> Agree(ArpRules(), ArpView(), t)) && Accounted(ArpRules(), ArpView(), t, cut)
    decreases |l.queue|
  {
    if l.queue != [] {
      var e, rest := l.queue[0], l.queue[1..];
      assert l.queue == [e] + rest;
      var r := StoredArp(l.stored, e.0, e.1);
      if !cut { Writes(ArpRules(), ArpView(), l, e, rest, r); }
      WritesAccounted(ArpRules(), ArpView(), l, cut, e, rest, r);
      WrittenArpAgrees(Ledger(l.base, l.stored[e.0 := r], rest, l.pending, l.log), cut);
    }
  }
}
