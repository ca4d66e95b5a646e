/** What the ARP history remembers about each address and device, and the events it reports. */
module ArpEvents {
  import opened Options

  type Ip = string
  type Mac = string
  type Time = int

  datatype Operation = Request | ArpReply | Other

  /** One ARP packet's claim; addresses are never empty. */
  datatype ClaimData = Claim(ip: Ip, mac: Mac, operation: Operation, interface: string, gratuitous: bool,
                             mismatch: string, at: Time)
  type Claim = c: ClaimData | c.ip != "" && c.mac != "" witness Claim("0", "0", Other, "", false, "", 0)

  datatype Kind = NewDevice | MacNewIp | IpMacChanged | MacMismatch

  datatype Event = Event(kind: Kind, ip: Ip, mac: Mac, previousIp: Ip, previousMac: Mac, interface: string, at: Time)

  /** The MAC each address last belonged to, the addresses each MAC has used, and its last one. */
  datatype Memory = Memory(ipMac: map<Ip, Mac>, macIps: map<Mac, set<Ip>>, macLastIp: map<Mac, Ip>)

  const BLANK := Memory(map[], map[], map[])

  function Ips(m: Memory, mac: Mac): set<Ip> { if mac in m.macIps then m.macIps[mac] else {} }

  function Learn(m: Memory, ip: Ip, mac: Mac): Memory {
    Memory(m.ipMac[ip := mac], m.macIps[mac := Ips(m, mac) + {ip}], m.macLastIp[mac := ip])
  }

  function Get(m: map<string, string>, k: string): string { if k in m then m[k] else "" }

  /** The event for a device or a pairing not seen before. */
  function Introduced(m: Memory, c: Claim): seq<Event> {
    if c.mac !in m.macIps then [Event(NewDevice, c.ip, c.mac, "", "", c.interface, c.at)]
    else if c.ip !in m.macIps[c.mac] then
      [Event(MacNewIp, c.ip, c.mac, Get(m.macLastIp, c.mac), "", c.interface, c.at)]
    else []
  }

  /** The event for an address that moved to another MAC. */
  function Moved(m: Memory, c: Claim): seq<Event> {
    var previous := Get(m.ipMac, c.ip);
    if previous != "" && previous != c.mac then
      [Event(IpMacChanged, c.ip, c.mac, "", previous, c.interface, c.at)]
    else []
  }

  function Told(m: Memory, c: Claim): seq<Event> { Introduced(m, c) + Moved(m, c) }

  function After(m: Memory, cs: seq<Claim>): Memory {
    if cs == [] then m
    else var before := After(m, cs[..|cs| - 1]); Learn(before, cs[|cs| - 1].ip, cs[|cs| - 1].mac)
  }

  /** The events of a run of claims, mismatches aside. */
  function Log(m: Memory, cs: seq<Claim>): seq<Event> {
    if cs == [] then []
    else
      var before, c := cs[..|cs| - 1], cs[|cs| - 1];
      Log(m, before) + Told(After(m, before), c)
  }

  lemma {:induction false} LogSnoc(m: Memory, cs: seq<Claim>, c: Claim)
    ensures After(m, cs + [c]) == Learn(After(m, cs), c.ip, c.mac)
    ensures Log(m, cs + [c]) == Log(m, cs) + Told(After(m, cs), c)
  {
    assert (cs + [c])[..|cs|] == cs;
  }

  /** Bindings read from the database before this process started: oldest first. */
  function Loaded(pairs: seq<(Ip, Mac)>): Memory {
    if pairs == [] then BLANK
    else Learn(Loaded(pairs[..|pairs| - 1]), pairs[|pairs| - 1].0, pairs[|pairs| - 1].1)
  }

  /** What both ways of learning keep: every known pairing's address has a current, non-empty MAC. */
  ghost predicate Coherent(m: Memory) {
    && (forall mac, ip {:trigger Knows(m, mac, ip)} :: Knows(m, mac, ip) ==> ip in m.ipMac)
    && (forall ip :: ip in m.ipMac ==> m.ipMac[ip] != "" && Knows(m, m.ipMac[ip], ip))
  }

  predicate Knows(m: Memory, mac: Mac, ip: Ip) { mac in m.macIps && ip in m.macIps[mac] }

  lemma {:induction false} LearnCoherent(m: Memory, ip: Ip, mac: Mac)
    requires Coherent(m) && mac != ""
    ensures Coherent(Learn(m, ip, mac))
  {
    var t := Learn(m, ip, mac);
    forall i | i in t.ipMac ensures t.ipMac[i] != "" && Knows(t, t.ipMac[i], i) {
      assert i != ip ==> Knows(m, m.ipMac[i], i);
    }
    forall a, i | Knows(t, a, i) ensures i in t.ipMac {
      assert i != ip ==> Knows(m, a, i);
    }
  }

  lemma {:induction false} LoadedCoherent(pairs: seq<(Ip, Mac)>)
    requires forall i :: 0 <= i < |pairs| ==> pairs[i].1 != ""
    ensures Coherent(Loaded(pairs))
  {
    if pairs != [] {
      LoadedCoherent(pairs[..|pairs| - 1]);
      LearnCoherent(Loaded(pairs[..|pairs| - 1]), pairs[|pairs| - 1].0, pairs[|pairs| - 1].1);
    }
  }

  /** The MAC of the last pair with address `ip`. */
  function LastPaired(pairs: seq<(Ip, Mac)>, ip: Ip): Option<Mac> {
    if pairs == [] then None
    else if pairs[|pairs| - 1].0 == ip then Some(pairs[|pairs| - 1].1)
    else LastPaired(pairs[..|pairs| - 1], ip)
  }

  /** Loading learns exactly the pairs on record, and of each address the last owner. */
  lemma {:induction false} LoadedMeans(pairs: seq<(Ip, Mac)>, ip: Ip, mac: Mac)
    ensures Knows(Loaded(pairs), mac, ip) <==> (ip, mac) in pairs
    ensures ip in Loaded(pairs).ipMac <==> LastPaired(pairs, ip).Some?
    ensures ip in Loaded(pairs).ipMac ==> Loaded(pairs).ipMac[ip] == LastPaired(pairs, ip).value
  {
    if pairs != [] {
      LoadedMeans(pairs[..|pairs| - 1], ip, mac);
      assert pairs == pairs[..|pairs| - 1] + [pairs[|pairs| - 1]];
    }
  }

  lemma {:induction false} AfterCoherent(m: Memory, cs: seq<Claim>)
    requires Coherent(m)
    ensures Coherent(After(m, cs))
  {
    if cs != [] {
      AfterCoherent(m, cs[..|cs| - 1]);
      LearnCoherent(After(m, cs[..|cs| - 1]), cs[|cs| - 1].ip, cs[|cs| - 1].mac);
    }
  }

  // ----- the log rebuilds the bindings

  function Apply(bindings: map<Ip, Mac>, e: Event): map<Ip, Mac> {
    if e.kind.MacMismatch? then bindings else bindings[e.ip := e.mac]
  }

  function Replay(bindings: map<Ip, Mac>, events: seq<Event>): map<Ip, Mac> {
    if events == [] then bindings else Apply(Replay(bindings, events[..|events| - 1]), events[|events| - 1])
  }

  lemma {:induction false} ReplaySnoc(bindings: map<Ip, Mac>, events: seq<Event>, e: Event)
    ensures Replay(bindings, events + [e]) == Apply(Replay(bindings, events), e)
  {
    assert (events + [e])[..|events|] == events;
  }

  /** Replaying the log over the loaded bindings gives the current ones. */
  lemma {:induction false} LogRebuildsBindings(m: Memory, cs: seq<Claim>)
    requires Coherent(m)
    ensures Replay(m.ipMac, Log(m, cs)) == After(m, cs).ipMac
  {
    if cs != [] {
      var before := cs[..|cs| - 1];
      LogRebuildsBindings(m, before);
      AfterCoherent(m, before);
      ReplayTold(m.ipMac, Log(m, before), After(m, before), cs[|cs| - 1]);
    }
  }

  lemma {:induction false} ReplayTold(bindings: map<Ip, Mac>, log: seq<Event>, now: Memory, c: Claim)
    requires Coherent(now) && Replay(bindings, log) == now.ipMac
    ensures Replay(bindings, log + Told(now, c)) == now.ipMac[c.ip := c.mac]
  {
    ReplayTwo(bindings, log, Introduced(now, c), Moved(now, c));
    BindingTold(now, c);
  }

  /** The effect of at most one event. */
  function ApplyAny(bindings: map<Ip, Mac>, more: seq<Event>): map<Ip, Mac> {
    if more == [] then bindings else Apply(bindings, more[0])
  }

  lemma {:induction false} ReplayTwo(bindings: map<Ip, Mac>, log: seq<Event>, first: seq<Event>, second: seq<Event>)
    requires |first| <= 1 && |second| <= 1
    ensures Replay(bindings, log + (first + second)) == ApplyAny(ApplyAny(Replay(bindings, log), first), second)
  {
    ReplayAtMostOne(bindings, log, first, log + first);
    ReplayAtMostOne(bindings, log + first, second, log + (first + second));
  }

  /** Unless its address had that MAC, a claim is told of. */
  lemma {:induction false} BindingTold(now: Memory, c: Claim)
    requires Coherent(now)
    ensures ApplyAny(ApplyAny(now.ipMac, Introduced(now, c)), Moved(now, c)) == now.ipMac[c.ip := c.mac]
  {
    if Introduced(now, c) == [] && Moved(now, c) == [] {
      assert Knows(now, c.mac, c.ip);
      assert now.ipMac[c.ip := c.mac] == now.ipMac;
    }
  }

  lemma {:induction false} ReplayAtMostOne(bindings: map<Ip, Mac>, log: seq<Event>, more: seq<Event>, all: seq<Event>)
    requires |more| <= 1 && all == log + more
    ensures Replay(bindings, all) == ApplyAny(Replay(bindings, log), more)
  {
    if more == [] {
      assert all == log;
    } else {
      assert all == log + [more[0]];
      ReplaySnoc(bindings, log, more[0]);
    }
  }

  // ----- every device and every pairing is reported once

  predicate Claims(cs: seq<Claim>, mac: Mac, ip: Option<Ip>) {
    exists i :: 0 <= i < |cs| && cs[i].mac == mac && (ip.None? || ip == Some(cs[i].ip))
  }

  lemma {:induction false} ClaimsSnoc(cs: seq<Claim>, c: Claim, mac: Mac, ip: Option<Ip>)
    ensures Claims(cs + [c], mac, ip) <==> Claims(cs, mac, ip) || (c.mac == mac && (ip.None? || ip == Some(c.ip)))
  {
    var all := cs + [c];
    if Claims(cs, mac, ip) {
      var i :| 0 <= i < |cs| && cs[i].mac == mac && (ip.None? || ip == Some(cs[i].ip));
      assert all[i] == cs[i];
    }
    assert all[|cs|] == c;
  }

  function Count(events: seq<Event>, p: Event -> bool): nat {
    if events == [] then 0
    else Count(events[..|events| - 1], p) + if p(events[|events| - 1]) then 1 else 0
  }

  lemma {:induction false} CountAtMostOne(log: seq<Event>, more: seq<Event>, p: Event -> bool)
    requires |more| <= 1
    ensures Count(log + more, p) == Count(log, p) + Hit(more, p)
  {
    if more == [] {
      assert log + more == log;
    } else {
      assert (log + more)[..|log|] == log;
    }
  }

  function Hit(more: seq<Event>, p: Event -> bool): nat { if more != [] && p(more[0]) then 1 else 0 }

  lemma {:induction false} CountTwo(log: seq<Event>, first: seq<Event>, second: seq<Event>, p: Event -> bool)
    requires |first| <= 1 && |second| <= 1
    ensures Count(log + (first + second), p) == Count(log, p) + Hit(first, p) + Hit(second, p)
  {
    assert log + (first + second) == log + first + second;
    CountAtMostOne(log, first, p);
    CountAtMostOne(log + first, second, p);
  }

  /** What is known of a device, or of a pairing, afterwards. */
  lemma {:induction false} KnownAfter(m: Memory, cs: seq<Claim>, mac: Mac, ip: Ip)
    ensures mac in After(m, cs).macIps <==> mac in m.macIps || Claims(cs, mac, None)
    ensures Knows(After(m, cs), mac, ip) <==> Knows(m, mac, ip) || Claims(cs, mac, Some(ip))
  {
    if cs != [] {
      var before, c := cs[..|cs| - 1], cs[|cs| - 1];
      KnownAfter(m, before, mac, ip);
      assert cs == before + [c];
      ClaimsSnoc(before, c, mac, None);
      ClaimsSnoc(before, c, mac, Some(ip));
    }
  }

  function ReportsDevice(mac: Mac): Event -> bool { (e: Event) => e.kind.NewDevice? && e.mac == mac }

  function ReportsPair(mac: Mac, ip: Ip): Event -> bool {
    (e: Event) => (e.kind.NewDevice? || e.kind.MacNewIp?) && e.mac == mac && e.ip == ip
  }

  lemma {:induction false} CountTold(log: seq<Event>, now: Memory, c: Claim, mac: Mac, ip: Ip)
    ensures Count(log + Told(now, c), ReportsDevice(mac))
         == Count(log, ReportsDevice(mac)) + if c.mac == mac && mac !in now.macIps then 1 else 0
    ensures Count(log + Told(now, c), ReportsPair(mac, ip))
         == Count(log, ReportsPair(mac, ip)) + if c.mac == mac && c.ip == ip && !Knows(now, mac, ip) then 1 else 0
  {
    CountTwo(log, Introduced(now, c), Moved(now, c), ReportsDevice(mac));
    CountTwo(log, Introduced(now, c), Moved(now, c), ReportsPair(mac, ip));
  }

  /** A device is reported as new once if it was unknown and made a claim, and never otherwise; a
      pairing is reported once, as a new device or as a new address of a known one, if it was
      unknown and was claimed, and never otherwise. */
  lemma {:induction false} ReportedOnce(m: Memory, cs: seq<Claim>, mac: Mac, ip: Ip)
    ensures Count(Log(m, cs), ReportsDevice(mac)) == if mac !in m.macIps && Claims(cs, mac, None) then 1 else 0
    ensures Count(Log(m, cs), ReportsPair(mac, ip)) == if !Knows(m, mac, ip) && Claims(cs, mac, Some(ip)) then 1 else 0
  {
    if cs != [] {
      var before, c := cs[..|cs| - 1], cs[|cs| - 1];
      ReportedOnce(m, before, mac, ip);
      KnownAfter(m, before, mac, ip);
      assert cs == before + [c];
      ClaimsSnoc(before, c, mac, None);
      ClaimsSnoc(before, c, mac, Some(ip));
      CountTold(Log(m, before), After(m, before), c, mac, ip);
    }
  }

  // ----- each address's moves form a chain

  /** The moves of one address. */
  function Moves(events: seq<Event>, ip: Ip): seq<Event> {
    if events == [] then []
    else
      var e := events[|events| - 1];
      Moves(events[..|events| - 1], ip) + if e.kind.IpMacChanged? && e.ip == ip then [e] else []
  }

  lemma {:induction false} MovesAtMostOne(log: seq<Event>, more: seq<Event>, ip: Ip)
    requires |more| <= 1
    ensures Moves(log + more, ip)
         == Moves(log, ip) + if more != [] && more[0].kind.IpMacChanged? && more[0].ip == ip then more else []
  {
    if more == [] {
      assert log + more == log;
    } else {
      assert (log + more)[..|log|] == log;
      assert more == [more[0]];
    }
  }

  /** From `from` to `to`, each move starting where the one before it ended and going elsewhere. */
  ghost predicate Chained(from: Mac, moves: seq<Event>, to: Mac) {
    if moves == [] then from == to
    else
      var last := moves[|moves| - 1];
      last.mac == to && last.previousMac != to && Chained(from, moves[..|moves| - 1], last.previousMac)
  }

  /** The MAC an address had first: the loaded one, or that of its first claim. */
  function FirstMac(m: Memory, cs: seq<Claim>, ip: Ip): Option<Mac> {
    if ip in m.ipMac then Some(m.ipMac[ip])
    else if cs == [] then None
    else
      var earlier := FirstMac(m, cs[..|cs| - 1], ip);
      if earlier.Some? then earlier
      else if cs[|cs| - 1].ip == ip then Some(cs[|cs| - 1].mac)
      else None
  }

  /** Each address's moves lead, without a gap, from the MAC it had first to the one it has now. */
  lemma {:induction false} MovesFormAChain(m: Memory, cs: seq<Claim>, ip: Ip)
    requires Coherent(m)
    ensures ip in After(m, cs).ipMac <==> FirstMac(m, cs, ip).Some?
    ensures ip in After(m, cs).ipMac ==>
              Chained(FirstMac(m, cs, ip).value, Moves(Log(m, cs), ip), After(m, cs).ipMac[ip])
    ensures ip !in After(m, cs).ipMac ==> Moves(Log(m, cs), ip) == []
  {
    if cs != [] {
      var before, c := cs[..|cs| - 1], cs[|cs| - 1];
      MovesFormAChain(m, before, ip);
      AfterCoherent(m, before);
      ChainTold(Log(m, before), After(m, before), cs[|cs| - 1], ip);
    }
  }

  lemma {:induction false} ChainTold(log: seq<Event>, now: Memory, c: Claim, ip: Ip)
    requires Coherent(now)
    ensures var moves := Moves(log + Told(now, c), ip);
            if c.ip == ip && ip in now.ipMac && now.ipMac[ip] != c.mac
            then |moves| == |Moves(log, ip)| + 1 && moves[..|moves| - 1] == Moves(log, ip)
                 && moves[|moves| - 1].mac == c.mac && moves[|moves| - 1].previousMac == now.ipMac[ip]
            else moves == Moves(log, ip)
  {
    MovesTwo(log, Introduced(now, c), Moved(now, c), ip);
    var moves, more := Moves(log, ip), Moved(now, c);
    assert more != [] ==> (moves + more)[..|moves|] == moves;
  }

  lemma {:induction false} MovesTwo(log: seq<Event>, first: seq<Event>, second: seq<Event>, ip: Ip)
    requires |first| <= 1 && |second| <= 1 && (first != [] ==> !first[0].kind.IpMacChanged?)
    ensures Moves(log + (first + second), ip)
         == Moves(log, ip) + if second != [] && second[0].kind.IpMacChanged? && second[0].ip == ip then second else []
  {
    assert log + (first + second) == log + first + second;
    MovesAtMostOne(log, first, ip);
    MovesAtMostOne(log + first, second, ip);
  }

  // ----- the memory

  /** The last claim that `p` picks. */
  function LastClaim(cs: seq<Claim>, p: Claim -> bool): Option<Claim> {
    if cs == [] then None
    else if p(cs[|cs| - 1]) then Some(cs[|cs| - 1])
    else LastClaim(cs[..|cs| - 1], p)
  }

  /** An address belongs to whoever claimed it last, and a device's last address is the one it
      claimed last. */
  lemma {:induction false} LatestClaimWins(m: Memory, cs: seq<Claim>, ip: Ip, mac: Mac)
    ensures var last := LastClaim(cs, (c: Claim) => c.ip == ip);
            Get(After(m, cs).ipMac, ip) == if last.Some? then last.value.mac else Get(m.ipMac, ip)
    ensures var last := LastClaim(cs, (c: Claim) => c.mac == mac);
            Get(After(m, cs).macLastIp, mac) == if last.Some? then last.value.ip else Get(m.macLastIp, mac)
  {
    if cs != [] { LatestClaimWins(m, cs[..|cs| - 1], ip, mac); }
  }

  // ----- what each event says

  /** The MAC an address had before a claim, and the address a device had: what the claims before it
      said last, or what was loaded. */
  function MacBefore(m: Memory, cs: seq<Claim>, ip: Ip): Mac {
    var last := LastClaim(cs, (c: Claim) => c.ip == ip);
    if last.Some? then last.value.mac else Get(m.ipMac, ip)
  }

  function IpBefore(m: Memory, cs: seq<Claim>, mac: Mac): Ip {
    var last := LastClaim(cs, (c: Claim) => c.mac == mac);
    if last.Some? then last.value.ip else Get(m.macLastIp, mac)
  }

  /** Claim `i` of the run is what event `e` reports. */
  ghost predicate Explains(m: Memory, cs: seq<Claim>, i: nat, e: Event)
    requires i < |cs|
  {
    var c, before := cs[i], cs[..i];
    && e.ip == c.ip && e.mac == c.mac && e.interface == c.interface && e.at == c.at
    && match e.kind
       case NewDevice =>
         c.mac !in m.macIps && !Claims(before, c.mac, None) && e.previousIp == "" && e.previousMac == ""
       case MacNewIp =>
         && (c.mac in m.macIps || Claims(before, c.mac, None))
         && !Knows(m, c.mac, c.ip) && !Claims(before, c.mac, Some(c.ip))
         && e.previousIp == IpBefore(m, before, c.mac) && e.previousMac == ""
       case IpMacChanged =>
         e.previousIp == "" && e.previousMac == MacBefore(m, before, c.ip) && e.previousMac !in {"", c.mac}
       case MacMismatch => false
  }

  ghost predicate Explained(m: Memory, cs: seq<Claim>, e: Event) {
    exists i :: 0 <= i < |cs| && Explains(m, cs, i, e)
  }

  /** Every event reports one claim, with its device, interface and time, and what was there before. */
  lemma {:induction false} EventsAreExplained(m: Memory, cs: seq<Claim>, k: nat)
    requires k < |Log(m, cs)|
    ensures Explained(m, cs, Log(m, cs)[k])
  {
    var before, c := cs[..|cs| - 1], cs[|cs| - 1];
    assert cs == before + [c];
    LogSnoc(m, before, c);
    if k < |Log(m, before)| {
      EventsAreExplained(m, before, k);
      ExplainedLater(m, before, c, Log(m, before)[k]);
    } else {
      ToldIsExplained(m, before, c, Log(m, cs)[k]);
    }
  }

  lemma {:induction false} ExplainedLater(m: Memory, cs: seq<Claim>, c: Claim, e: Event)
    requires Explained(m, cs, e)
    ensures Explained(m, cs + [c], e)
  {
    var i :| 0 <= i < |cs| && Explains(m, cs, i, e);
    assert (cs + [c])[..i] == cs[..i] && (cs + [c])[i] == cs[i];
    assert Explains(m, cs + [c], i, e);
  }

  lemma {:induction false} ToldIsExplained(m: Memory, cs: seq<Claim>, c: Claim, e: Event)
    requires e in Told(After(m, cs), c)
    ensures Explained(m, cs + [c], e)
  {
    var all := cs + [c];
    assert all[..|cs|] == cs && all[|cs|] == c;
    KnownAfter(m, cs, c.mac, c.ip);
    LatestClaimWins(m, cs, c.ip, c.mac);
    assert Explains(m, all, |cs|, e);
  }
}
