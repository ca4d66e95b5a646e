/** The rows of the DNS and ARP history: how one observation changes a row being collected and how
    a collected row is merged into a stored one. */
module HistoryRows {
  import opened Options
  import opened Aggregation
  import opened ArpEvents

  // ----- DNS

  datatype DnsKey = DnsKey(domain: string, recordType: string, answer: string)

  /** What one DNS packet says about a key; a response always names its return code. */
  datatype SightingData = Sighting(isResponse: bool, rcode: string, ttl: Option<nat>, source: string,
                                   transport: string, client: string, resolver: string, at: Time)
  type Sighting = d: SightingData | d.isResponse ==> d.rcode != ""
    witness Sighting(false, "", None, "", "", "", "", 0)

  datatype DnsCore = DnsCore(source: string, transport: string, queries: nat, responses: nat, errors: nat,
                             rcode: string, ttlMin: Option<nat>, ttlMax: Option<nat>, ttlLast: Option<nat>,
                             client: string, resolver: string, firstSeen: Time, lastSeen: Time)

  /** `clients` and `resolvers` are the remembered peers. */
  datatype DnsRow = DnsRow(core: DnsCore, clients: seq<string>, resolvers: seq<string>)

  const MAX_REMEMBERED_PEERS := 20

  function Min(a: int, b: int): int { if b < a then b else a }
  function Max(a: int, b: int): int { if b > a then b else a }

  function Lower(a: Option<nat>, b: Option<nat>): Option<nat> {
    if a.None? then b else if b.None? then a else Some(Min(a.value, b.value))
  }

  function Higher(a: Option<nat>, b: Option<nat>): Option<nat> {
    if a.None? then b else if b.None? then a else Some(Max(a.value, b.value))
  }

  /** The text, or the kept one if it is empty. */
  function OrKeep(text: string, kept: string): string { if text != "" then text else kept }

  function StartDns(o: Sighting): DnsCore {
    DnsCore(o.source, o.transport, 0, 0, 0, "", None, None, None, "", "", o.at, o.at)
  }

  function AddDns(c: DnsCore, o: Sighting): DnsCore {
    DnsCore(o.source, o.transport,
            if o.isResponse then c.queries else c.queries + 1,
            if o.isResponse then c.responses + 1 else c.responses,
            if o.isResponse && o.rcode != "NOERROR" then c.errors + 1 else c.errors,
            if o.isResponse then o.rcode else c.rcode,
            if o.ttl.None? then c.ttlMin else if c.ttlMin.None? then o.ttl else Some(Min(c.ttlMin.value, o.ttl.value)),
            if o.ttl.None? then c.ttlMax else if c.ttlMax.None? then o.ttl else Some(Max(c.ttlMax.value, o.ttl.value)),
            if o.ttl.None? then c.ttlLast else o.ttl,
            if o.client != "" then o.client else c.client,
            if o.resolver != "" then o.resolver else c.resolver,
            if o.at < c.firstSeen then o.at else c.firstSeen,
            if o.at > c.lastSeen then o.at else c.lastSeen)
  }

  /** The update of a stored row. */
  function MergeDns(stored: DnsCore, row: DnsCore): DnsCore {
    DnsCore(row.source, row.transport,
            stored.queries + row.queries, stored.responses + row.responses, stored.errors + row.errors,
            OrKeep(row.rcode, stored.rcode),
            Lower(stored.ttlMin, row.ttlMin), Higher(stored.ttlMax, row.ttlMax),
            if row.ttlLast.Some? then row.ttlLast else stored.ttlLast,
            OrKeep(row.client, stored.client), OrKeep(row.resolver, stored.resolver),
            Min(stored.firstSeen, row.firstSeen), Max(stored.lastSeen, row.lastSeen))
  }

  function DnsRules(): Rules<DnsCore, Sighting> {
    Rules((o: Sighting) => StartDns(o), (c: DnsCore, o: Sighting) => AddDns(c, o),
          (a: DnsCore, b: DnsCore) => MergeDns(a, b))
  }

  function DnsView(): DnsRow -> DnsCore { (r: DnsRow) => r.core }
  function DnsWeight(): DnsCore -> int { (c: DnsCore) => c.queries + c.responses }

  /** Merging a row takes in its observations just as adding them one by one does. */
  lemma {:induction false} DnsLawful()
    ensures Lawful(DnsRules())
  {
    var rules := DnsRules();
    forall a, b, o ensures rules.merge(a, rules.add(b, o)) == rules.add(rules.merge(a, b), o) { MergeOfAdd(a, b, o); }
    forall a, o ensures rules.merge(a, rules.add(rules.start(o), o)) == rules.add(a, o) { MergeOfOne(a, o); }
  }

  /** Every observation counts once, as a query or as a response. */
  lemma {:induction false} DnsAdditive()
    ensures Additive(DnsRules(), DnsWeight())
  {
  }

  lemma {:induction false} MergeOfAdd(a: DnsCore, b: DnsCore, o: Sighting)
    ensures MergeDns(a, AddDns(b, o)) == AddDns(MergeDns(a, b), o)
  {
  }

  lemma {:induction false} MergeOfOne(a: DnsCore, o: Sighting)
    ensures MergeDns(a, AddDns(StartDns(o), o)) == AddDns(a, o)
  {
  }

  // ----- what the fold over a key's observations says

  function CountIf<O>(os: seq<O>, p: O -> bool): nat {
    if os == [] then 0 else CountIf(os[..|os| - 1], p) + if p(os[|os| - 1]) then 1 else 0
  }

  /** The last observation that `p` picks. */
  function LastIf<O>(os: seq<O>, p: O -> bool): Option<O> {
    if os == [] then None else if p(os[|os| - 1]) then Some(os[|os| - 1]) else LastIf(os[..|os| - 1], p)
  }

  ghost predicate Least(os: seq<Sighting>, m: Option<nat>, sign: int) {
    && (m.None? <==> forall i :: 0 <= i < |os| ==> os[i].ttl.None?)
    && (m.Some? ==> (exists i :: 0 <= i < |os| && os[i].ttl == m)
                    && forall i :: 0 <= i < |os| && os[i].ttl.Some? ==> sign * m.value <= sign * os[i].ttl.value)
  }

  /** The first and the last of some times. */
  ghost predicate Bounds(times: seq<Time>, first: Time, last: Time) {
    first in times && last in times && forall t :: t in times ==> first <= t <= last
  }

  lemma {:induction false} BoundsSnoc(times: seq<Time>, first: Time, last: Time, t: Time)
    requires Bounds(times, first, last)
    ensures Bounds(times + [t], if t < first then t else first, if t > last then t else last)
  {
  }

  function Times(os: seq<Sighting>): seq<Time> { seq(|os|, i requires 0 <= i < |os| => os[i].at) }

  ghost predicate Counted(os: seq<Sighting>, c: DnsCore) {
    && c.queries == CountIf(os, (o: Sighting) => !o.isResponse)
    && c.responses == CountIf(os, (o: Sighting) => o.isResponse)
    && c.errors == CountIf(os, (o: Sighting) => o.isResponse && o.rcode != "NOERROR")
    && c.queries + c.responses == |os|
  }

  ghost predicate Latest(os: seq<Sighting>, c: DnsCore) {
    && (var o := LastIf(os, (o: Sighting) => true);
          o.Some? && c.source == o.value.source && c.transport == o.value.transport)
    && (var o := LastIf(os, (o: Sighting) => o.isResponse); c.rcode == if o.Some? then o.value.rcode else "")
    && (var o := LastIf(os, (o: Sighting) => o.ttl.Some?); c.ttlLast == if o.Some? then o.value.ttl else None)
    && (var o := LastIf(os, (o: Sighting) => o.client != ""); c.client == if o.Some? then o.value.client else "")
    && (var o := LastIf(os, (o: Sighting) => o.resolver != ""); c.resolver == if o.Some? then o.value.resolver else "")
  }

  ghost function Fold(os: seq<Sighting>): Option<DnsCore> { Over(DnsRules(), None, os) }

  lemma {:induction false} FoldSnoc(os: seq<Sighting>)
    requires os != []
    ensures var c := Fold(os[..|os| - 1]); var o := os[|os| - 1];
            Fold(os) == Some(AddDns(if c.Some? then c.value else StartDns(o), o))
            && (c.None? <==> |os| == 1)
  {
  }

  lemma {:induction false} FoldCounts(os: seq<Sighting>)
    requires os != []
    ensures Counted(os, Fold(os).value)
  {
    FoldSnoc(os);
    if |os| > 1 { FoldCounts(os[..|os| - 1]); } else { assert os[..0] == []; }
  }

  lemma {:induction false} FoldLatest(os: seq<Sighting>)
    requires os != []
    ensures Latest(os, Fold(os).value)
  {
    FoldSnoc(os);
    if |os| > 1 { FoldLatest(os[..|os| - 1]); } else { assert os[..0] == []; }
  }

  lemma {:induction false} FoldTtl(os: seq<Sighting>)
    requires os != []
    ensures Least(os, Fold(os).value.ttlMin, 1) && Least(os, Fold(os).value.ttlMax, -1)
  {
    FoldSnoc(os);
    var before, o := os[..|os| - 1], os[|os| - 1];
    var was, now := Fold(before), Fold(os).value;
    assert os == before + [o];
    if |os| > 1 { FoldTtl(before); } else { LeastOfNone(before); }
    LeastSnoc(before, o, if was.Some? then was.value.ttlMin else None, now.ttlMin, 1);
    LeastSnoc(before, o, if was.Some? then was.value.ttlMax else None, now.ttlMax, -1);
  }

  lemma {:induction false} LeastOfNone(os: seq<Sighting>)
    requires os == []
    ensures Least(os, None, 1) && Least(os, None, -1)
  {
  }

  lemma {:induction false} LeastSnoc(os: seq<Sighting>, o: Sighting, m: Option<nat>, n: Option<nat>, sign: int)
    requires Least(os, m, sign) && (sign == 1 || sign == -1)
    requires n == if o.ttl.None? then m else if m.None? then o.ttl
                  else if sign * m.value <= sign * o.ttl.value then m else o.ttl
    ensures Least(os + [o], n, sign)
  {
    var all := os + [o];
    assert all[|os|] == o;
    forall i | 0 <= i < |os| ensures all[i] == os[i] { }
    if m.Some? {
      var i :| 0 <= i < |os| && os[i].ttl == m;
      assert all[i].ttl == m;
    }
  }

  lemma {:induction false} FoldBounds(os: seq<Sighting>)
    requires os != []
    ensures Bounds(Times(os), Fold(os).value.firstSeen, Fold(os).value.lastSeen)
  {
    FoldSnoc(os);
    var before, o := os[..|os| - 1], os[|os| - 1];
    assert Times(os) == Times(before) + [o.at];
    if |os| > 1 {
      FoldBounds(before);
      BoundsSnoc(Times(before), Fold(before).value.firstSeen, Fold(before).value.lastSeen, o.at);
    } else {
      assert Times(os) == [o.at];
    }
  }

  /** The row of a key says how often it was asked and answered, with how many errors, the least,
      greatest and last time to live, the last of everything else, and when it was seen. */
  lemma {:induction false} FoldMeans(os: seq<Sighting>)
    requires os != []
    ensures Fold(os).Some?
    ensures var c := Fold(os).value;
            Counted(os, c) && Latest(os, c) && Least(os, c.ttlMin, 1) && Least(os, c.ttlMax, -1)
            && Bounds(Times(os), c.firstSeen, c.lastSeen)
  {
    FoldCounts(os);
    FoldLatest(os);
    FoldTtl(os);
    FoldBounds(os);
  }

  // ----- remembered peers

  ghost predicate Distinct(s: seq<string>) {
    (forall i :: 0 <= i < |s| ==> s[i] != "") && forall i, j :: 0 <= i < j < |s| ==> s[i] != s[j]
  }

  ghost predicate Peers(s: seq<string>) { |s| <= MAX_REMEMBERED_PEERS && Distinct(s) }

  /** A peer joins a row being collected, while there is room. */
  function Remember(peers: seq<string>, p: string): (r: seq<string>)
    ensures peers <= r && forall q :: q in r <==> q in peers || (q == p && q != "" && |peers| < MAX_REMEMBERED_PEERS)
    ensures Peers(peers) ==> Peers(r)
  {
    if p != "" && p !in peers && |peers| < MAX_REMEMBERED_PEERS then peers + [p] else peers
  }

  // ----- ARP

  type ArpKey = (Ip, Mac)

  datatype ArpRow = ArpRow(interface: string, packets: nat, requests: nat, replies: nat, gratuitous: nat,
                           mismatches: nat, firstSeen: Time, lastSeen: Time)

  function StartArp(c: Claim): ArpRow { ArpRow(c.interface, 0, 0, 0, 0, 0, c.at, c.at) }

  function AddArp(r: ArpRow, c: Claim): ArpRow {
    ArpRow(if c.interface != "" then c.interface else r.interface,
           r.packets + 1,
           if c.operation.Request? then r.requests + 1 else r.requests,
           if c.operation.ArpReply? then r.replies + 1 else r.replies,
           if c.gratuitous then r.gratuitous + 1 else r.gratuitous,
           if c.mismatch != "" then r.mismatches + 1 else r.mismatches,
           if c.at < r.firstSeen then c.at else r.firstSeen,
           if c.at > r.lastSeen then c.at else r.lastSeen)
  }

  function MergeArp(stored: ArpRow, row: ArpRow): ArpRow {
    ArpRow(OrKeep(row.interface, stored.interface), stored.packets + row.packets, stored.requests + row.requests,
           stored.replies + row.replies, stored.gratuitous + row.gratuitous, stored.mismatches + row.mismatches,
           Min(stored.firstSeen, row.firstSeen), Max(stored.lastSeen, row.lastSeen))
  }

  function ArpRules(): Rules<ArpRow, Claim> {
    Rules((c: Claim) => StartArp(c), (r: ArpRow, c: Claim) => AddArp(r, c), (a: ArpRow, b: ArpRow) => MergeArp(a, b))
  }

  function ArpView(): ArpRow -> ArpRow { (r: ArpRow) => r }
  function ArpWeight(): ArpRow -> int { (r: ArpRow) => r.packets }

  lemma {:induction false} ArpAdditive()
    ensures Additive(ArpRules(), ArpWeight())
  {
  }

  lemma {:induction false} ArpLawful()
    ensures Lawful(ArpRules())
  {
    var rules := ArpRules();
    forall a, b, c ensures rules.merge(a, rules.add(b, c)) == rules.add(rules.merge(a, b), c) {
      ArpMergeOfAdd(a, b, c);
    }
    forall a, c ensures rules.merge(a, rules.add(rules.start(c), c)) == rules.add(a, c) { ArpMergeOfOne(a, c); }
  }

  lemma {:induction false} ArpMergeOfAdd(a: ArpRow, b: ArpRow, c: Claim)
    ensures MergeArp(a, AddArp(b, c)) == AddArp(MergeArp(a, b), c)
  {
  }

  lemma {:induction false} ArpMergeOfOne(a: ArpRow, c: Claim)
    ensures MergeArp(a, AddArp(StartArp(c), c)) == AddArp(a, c)
  {
  }

  // ----- what the fold over a pairing's claims says

  ghost function ArpFold(cs: seq<Claim>): Option<ArpRow> { Over(ArpRules(), None, cs) }

  function ClaimTimes(cs: seq<Claim>): seq<Time> { seq(|cs|, i requires 0 <= i < |cs| => cs[i].at) }

  /** The claims of each sort, and the last interface named. */
  ghost predicate Tallied(cs: seq<Claim>, r: ArpRow) {
    && r.packets == |cs|
    && r.requests == CountIf(cs, (c: Claim) => c.operation == Request)
    && r.replies == CountIf(cs, (c: Claim) => c.operation == ArpReply)
    && r.gratuitous == CountIf(cs, (c: Claim) => c.gratuitous)
    && r.mismatches == CountIf(cs, (c: Claim) => c.mismatch != "")
    && (var c := LastIf(cs, (c: Claim) => c.interface != "");
          r.interface == if c.Some? then c.value.interface else "")
  }

  lemma {:induction false} ArpFoldSnoc(cs: seq<Claim>)
    requires cs != []
    ensures var r := ArpFold(cs[..|cs| - 1]); var c := cs[|cs| - 1];
            ArpFold(cs) == Some(AddArp(if r.Some? then r.value else StartArp(c), c)) && (r.None? <==> |cs| == 1)
  {
  }

  lemma {:induction false} ArpFoldTallies(cs: seq<Claim>)
    requires cs != []
    ensures Tallied(cs, ArpFold(cs).value)
  {
    ArpFoldSnoc(cs);
    if |cs| > 1 { ArpFoldTallies(cs[..|cs| - 1]); } else { assert cs[..0] == []; }
  }

  lemma {:induction false} ClaimTimesSnoc(cs: seq<Claim>, c: Claim)
    ensures ClaimTimes(cs + [c]) == ClaimTimes(cs) + [c.at]
  {
  }

  lemma {:induction false} ArpFoldBounds(cs: seq<Claim>)
    requires cs != []
    ensures Bounds(ClaimTimes(cs), ArpFold(cs).value.firstSeen, ArpFold(cs).value.lastSeen)
  {
    var before, c := cs[..|cs| - 1], cs[|cs| - 1];
    ArpFoldSnoc(cs);
    ClaimTimesSnoc(before, c);
    assert cs == before + [c];
    if |cs| > 1 {
      ArpFoldBounds(before);
      BoundsSnoc(ClaimTimes(before), ArpFold(before).value.firstSeen, ArpFold(before).value.lastSeen, c.at);
    } else {
      assert ClaimTimes(before) == [];
    }
  }

  /** The row of a pairing says how many claims of each sort were made, on which interface the last
      that names one, and when the first and the last were. */
  lemma {:induction false} ArpFoldMeans(cs: seq<Claim>)
    requires cs != []
    ensures ArpFold(cs).Some? && Tallied(cs, ArpFold(cs).value)
    ensures Bounds(ClaimTimes(cs), ArpFold(cs).value.firstSeen, ArpFold(cs).value.lastSeen)
  {
    ArpFoldTallies(cs);
    ArpFoldBounds(cs);
  }
}
