/** The client's side of the IPC link as a labelled step system. Every step is one block the client
    runs under a lock, or one send, receive, wait or wake-up; which step comes next is up to the
    threads and to the other process. */
module Ipc {
  import opened Options

  type CallId = nat
  type RequestId = nat
  type SocketId = nat
  type CloserId = nat

  /** What a waiting call can be told, and for which of its requests; `body` stands for everything a
      response says. */
  datatype Message =
    | Reply(request: RequestId, body: int) | LinkLost(request: RequestId) | ClientClosed(request: RequestId)

  datatype Result = Answer(message: Message) | TimedOut | NotConnected | SendFailed | Refused

  /** Where a call stands. */
  datatype Phase =
    | Trying(attempt: nat)                                        // about to take the link
    | Registered(attempt: nat, request: RequestId, socket: SocketId)
    | Failed(attempt: nat, request: RequestId, socket: SocketId)    // the send raised
    | Unlinked(attempt: nat, socket: SocketId)                      // ... and the entry is gone
    | Waiting(request: RequestId)
    | Leaving(request: RequestId, message: Option<Message>)       // woken, or out of time
    | Finished(result: Result)
  {
    predicate On(r: RequestId) { (Registered? || Failed? || Waiting? || Leaving?) && request == r }
    predicate Sent() { Waiting? || Leaving? || (Finished? && (result.Answer? || result.TimedOut?)) }
  }

  /** `sends` counts the frames sent in full. */
  datatype Call = Call(phase: Phase, generation: int, message: Option<Message>, sends: nat)

  /** History: which call used a request id on which connection, and how often it was answered. */
  datatype Issue = Issue(call: CallId, generation: nat, deliveries: nat)

  /** A message on its way to a call whose entry was taken out of the pending table. */
  datatype Flight = Flight(call: CallId, message: Message)

  datatype ReaderPhase = AtHead | Receiving | Exiting | Gone
  datatype Reader = Reader(socket: SocketId, phase: ReaderPhase)

  /** `owner` (which connection a socket was made for), `shut` (the sockets closed), `issued` and
      `closeDone` only record history. `connecting` holds while a connect owns the connection lock. */
  datatype State = State(
    socket: Option<SocketId>, connected: bool, generation: nat, connecting: bool,
    stop: bool, authFailed: bool,
    pending: map<RequestId, CallId>, calls: map<CallId, Call>, flights: map<RequestId, Flight>,
    readers: map<nat, Reader>, closers: map<CloserId, Option<SocketId>>,
    owner: map<SocketId, nat>, shut: set<SocketId>, issued: map<RequestId, Issue>, closeDone: bool)

  datatype Label =
    | BeginConnect | Install(socket: SocketId) | ConnectFails | TokenRejected
    | NewCall(call: CallId) | Register(call: CallId, request: RequestId) | Miss(call: CallId) | Refuse(call: CallId)
    | SendOk(call: CallId) | SendFails(call: CallId) | Unlink(call: CallId) | CallDrops(call: CallId)
    | Wake(call: CallId) | TimeOut(call: CallId) | Leave(call: CallId)
    | LoopHead(reader: nat) | Receive(reader: nat, request: RequestId, body: int)
    | Event(reader: nat) | Break(reader: nat)
    | ReaderDrops(reader: nat)
    | Deliver(request: RequestId)
    | Stop | CloseReads(closer: CloserId) | CloseDrops(closer: CloserId)
  {
    predicate OfCall() {
      NewCall? || Register? || Miss? || Refuse? || SendOk? || SendFails? || Unlink? || CallDrops?
      || Wake? || TimeOut? || Leave?
    }
    predicate OfReader() { LoopHead? || Receive? || Event? || Break? || ReaderDrops? }
    predicate OfLink() { !OfCall() && !OfReader() }
  }

  ghost predicate Init(s: State) {
    && s.socket.None? && !s.connected && s.generation == 0 && !s.connecting && !s.stop && !s.authFailed
    && s.pending == map[] && s.calls == map[] && s.flights == map[] && s.readers == map[] && s.closers == map[]
    && s.owner == map[] && s.shut == {} && s.issued == map[] && !s.closeDone
  }

  // ----- the locked blocks

  /** The requests a drop fails: every one, or those of calls that ride connection `generation`. */
  function Doomed(s: State, generation: Option<nat>): set<RequestId> {
    set r | r in s.pending && s.pending[r] in s.calls
            && (generation.None? || s.calls[s.pending[r]].generation == generation.value)
  }

  function Told(closing: bool, r: RequestId): Message {
    if closing then ClientClosed(r) else LinkLost(r)
  }

  function Failures(s: State, doomed: set<RequestId>, closing: bool): map<RequestId, Flight>
    requires doomed <= s.pending.Keys
  {
    map r | r in doomed :: Flight(s.pending[r], Told(closing, r))
  }

  /** The end of a connection: its socket is shut, the link goes down if that socket is the live one,
      and the entries of its calls become failures on their way. */
  function Drop(s: State, socket: Option<SocketId>, generation: Option<nat>): State {
    var doomed := Doomed(s, generation);
    var retire := socket.None? || s.socket == socket;
    s.(socket := if retire then None else s.socket,
       connected := if retire then false else s.connected,
       pending := s.pending - doomed,
       flights := s.flights + Failures(s, doomed, generation.None?),
       shut := if socket.Some? then s.shut + {socket.value} else s.shut)
  }

  function SetCall(s: State, c: CallId, call: Call): State {
    s.(calls := s.calls[c := call])
  }

  function SetPhase(s: State, c: CallId, phase: Phase): State
    requires c in s.calls
  {
    SetCall(s, c, s.calls[c].(phase := phase))
  }

  function SetReader(s: State, g: nat, phase: ReaderPhase): State
    requires g in s.readers
  {
    s.(readers := s.readers[g := s.readers[g].(phase := phase)])
  }

  function Installed(s: State, socket: SocketId): State {
    var g := s.generation + 1;
    s.(socket := Some(socket), generation := g, connected := true, connecting := false,
       readers := s.readers[g := Reader(socket, AtHead)], owner := s.owner[socket := g])
  }

  function RegisterCall(s: State, c: CallId, r: RequestId): State
    requires c in s.calls && s.calls[c].phase.Trying? && s.socket.Some?
  {
    var call := s.calls[c];
    SetCall(s, c, call.(generation := s.generation, phase := Registered(call.phase.attempt, r, s.socket.value))).(
      pending := s.pending[r := c], issued := s.issued[r := Issue(c, s.generation, 0)])
  }

  /** The next attempt, or the end of the second. */
  function Retry(attempt: nat, result: Result): Phase {
    if attempt >= 2 then Finished(result) else Trying(attempt + 1)
  }

  function TakeOut(s: State, r: RequestId): State { s.(pending := s.pending - {r}) }

  function Resolved(s: State, r: RequestId, body: int): State {
    if r in s.pending then TakeOut(s, r).(flights := s.flights[r := Flight(s.pending[r], Reply(r, body))]) else s
  }

  function Delivered(s: State, r: RequestId): State
    requires r in s.flights && s.flights[r].call in s.calls && r in s.issued
  {
    var c := s.flights[r].call;
    SetCall(s, c, s.calls[c].(message := Some(s.flights[r].message))).(
      flights := s.flights - {r}, issued := s.issued[r := s.issued[r].(deliveries := s.issued[r].deliveries + 1)])
  }

  function Left(s: State, c: CallId): State
    requires c in s.calls && s.calls[c].phase.Leaving?
  {
    var p := s.calls[c].phase;
    var s1 := if p.request in s.pending && s.pending[p.request] == c then TakeOut(s, p.request) else s;
    SetPhase(s1, c, Finished(if p.message.Some? then Answer(p.message.value) else TimedOut))
  }

  function CloserDrops(s: State, k: CloserId): State
    requires k in s.closers
  {
    Drop(s, s.closers[k], None).(closers := s.closers - {k}, closeDone := true)
  }

  // ----- the steps

  ghost predicate Enabled(s: State, l: Label) {
    match l
    case BeginConnect => !s.connecting && !s.connected && !s.authFailed && !s.stop
    case Install(socket) => s.connecting && socket !in s.owner
    case ConnectFails => s.connecting
    case TokenRejected => s.connecting
    case NewCall(c) => c !in s.calls
    case Register(c, r) =>
      c in s.calls && s.calls[c].phase.Trying? && !s.connecting && s.socket.Some? && s.connected && r !in s.issued
    case Miss(c) => c in s.calls && s.calls[c].phase.Trying? && !s.connecting && (s.socket.None? || !s.connected)
    case Refuse(c) => c in s.calls && s.calls[c].phase.Trying?
    case SendOk(c) => c in s.calls && s.calls[c].phase.Registered?
    case SendFails(c) => c in s.calls && s.calls[c].phase.Registered?
    case Unlink(c) => c in s.calls && s.calls[c].phase.Failed?
    case CallDrops(c) => c in s.calls && s.calls[c].phase.Unlinked? && !s.connecting && s.calls[c].generation >= 0
    case Wake(c) => c in s.calls && s.calls[c].phase.Waiting? && s.calls[c].message.Some?
    case TimeOut(c) => c in s.calls && s.calls[c].phase.Waiting?
    case Leave(c) => c in s.calls && s.calls[c].phase.Leaving?
    case LoopHead(g) => g in s.readers && s.readers[g].phase.AtHead?
    case Receive(g, _, _) => g in s.readers && s.readers[g].phase.Receiving?
    case Event(g) => g in s.readers && s.readers[g].phase.Receiving?
    case Break(g) => g in s.readers && s.readers[g].phase.Receiving?
    case ReaderDrops(g) => g in s.readers && s.readers[g].phase.Exiting? && !s.connecting
    case Deliver(r) => r in s.flights && s.flights[r].call in s.calls && r in s.issued
    case Stop => true
    case CloseReads(k) => s.stop && k !in s.closers
    case CloseDrops(k) => k in s.closers && !s.connecting
  }

  ghost function Apply(s: State, l: Label): State
    requires Enabled(s, l)
  {
    match l
    case BeginConnect => s.(connecting := true)
    case Install(socket) => Installed(s, socket)
    case ConnectFails => s.(connecting := false)
    case TokenRejected => s.(connecting := false, authFailed := true)
    case NewCall(c) => SetCall(s, c, Call(Trying(1), -1, None, 0))
    case Register(c, r) => RegisterCall(s, c, r)
    case Miss(c) => SetPhase(s, c, Retry(s.calls[c].phase.attempt, NotConnected))
    case Refuse(c) => SetPhase(s, c, Finished(Refused))
    case SendOk(c) =>
      SetCall(s, c, s.calls[c].(phase := Waiting(s.calls[c].phase.request), sends := s.calls[c].sends + 1))
    case SendFails(c) =>
      SetPhase(s, c, Failed(s.calls[c].phase.attempt, s.calls[c].phase.request, s.calls[c].phase.socket))
    case Unlink(c) =>
      SetPhase(TakeOut(s, s.calls[c].phase.request), c, Unlinked(s.calls[c].phase.attempt, s.calls[c].phase.socket))
    case CallDrops(c) =>
      var p := s.calls[c].phase;
      SetPhase(Drop(s, Some(p.socket), Some(s.calls[c].generation)), c, Retry(p.attempt, SendFailed))
    case Wake(c) => SetPhase(s, c, Leaving(s.calls[c].phase.request, s.calls[c].message))
    case TimeOut(c) => SetPhase(s, c, Leaving(s.calls[c].phase.request, None))
    case Leave(c) => Left(s, c)
    case LoopHead(g) => SetReader(s, g, if s.stop then Exiting else Receiving)
    case Receive(g, r, body) => Resolved(SetReader(s, g, AtHead), r, body)
    case Event(g) => SetReader(s, g, AtHead)
    case Break(g) => SetReader(s, g, Exiting)
    case ReaderDrops(g) => SetReader(Drop(s, Some(s.readers[g].socket), Some(g)), g, Gone)
    case Deliver(r) => Delivered(s, r)
    case Stop => s.(stop := true)
    case CloseReads(k) => s.(closers := s.closers[k := s.socket])
    case CloseDrops(k) => CloserDrops(s, k)
  }

  // ----- the invariant

  /** A message for a call answers one of the requests the call made, and was delivered. */
  ghost predicate Own(issued: map<RequestId, Issue>, c: CallId, m: Message) {
    m.request in issued && issued[m.request].call == c && issued[m.request].deliveries >= 1
  }

  /** A call makes no request before its first attempt, and one in it. */
  predicate FirstOnly(p: Phase, r: RequestId) {
    (p.Trying? ==> p.attempt >= 2) && ((p.Registered? || p.Failed?) && p.attempt == 1 ==> p.request == r)
  }

  ghost predicate CallOk(s: State, c: CallId)
    requires c in s.calls
  {
    var call := s.calls[c];
    var p := call.phase;
    && call.sends == (if p.Sent() then 1 else 0)
    && (p.Trying? || p.Registered? || p.Failed? || p.Unlinked? ==> 1 <= p.attempt <= 2)
    && call.generation <= s.generation
    && (call.message.Some? ==> Own(s.issued, c, call.message.value))
    && (p.Leaving? && p.message.Some? ==> Own(s.issued, c, p.message.value))
    && (p.Finished? && p.result.Answer? ==> Own(s.issued, c, p.result.message))
    && (p.Registered? || p.Failed? || p.Waiting? ==>
          call.message.Some? || p.request in s.pending || p.request in s.flights)
    && (p.Registered? || p.Failed? || p.Waiting? || p.Leaving? ==>
         p.request in s.issued && s.issued[p.request].call == c)
    && (p.Registered? || p.Failed? || p.Unlinked? ==> call.generation >= 1 && SocketOf(s, call.generation, p.socket))
  }

  ghost predicate SocketOf(s: State, g: nat, socket: SocketId) {
    g in s.readers && s.readers[g].socket == socket
  }

  /** A pending call rides the current connection, and the connection is up. */
  ghost predicate PendingOk(s: State, r: RequestId)
    requires r in s.pending
  {
    var c := s.pending[r];
    && s.connected && r in s.issued && s.issued[r] == Issue(c, s.generation, 0)
    && c in s.calls && s.calls[c].generation == s.generation && s.calls[c].phase.On(r)
  }

  ghost predicate FlightOk(s: State, r: RequestId)
    requires r in s.flights
  {
    var f := s.flights[r];
    r !in s.pending && f.call in s.calls && f.message.request == r
    && r in s.issued && s.issued[r].call == f.call && s.issued[r].deliveries == 0
  }

  ghost predicate IssueOk(s: State, r: RequestId)
    requires r in s.issued
  {
    && s.issued[r].call in s.calls && s.issued[r].deliveries <= 1 && 1 <= s.issued[r].generation <= s.generation
    && FirstOnly(s.calls[s.issued[r].call].phase, r)
  }

  ghost predicate ReaderOk(s: State, g: nat)
    requires g in s.readers
  {
    1 <= g <= s.generation && s.readers[g].socket in s.owner && s.owner[s.readers[g].socket] == g
  }

  /** While the live link's reader may still be blocked, a close in progress holds that link's socket. */
  ghost predicate CloserOk(s: State, k: CloserId)
    requires k in s.closers
  {
    && s.stop
    && (s.closers[k].Some? ==> s.closers[k].value in s.owner)
    && (Blocked(s) ==> s.closers[k] == s.socket)
  }

  ghost predicate Blocked(s: State) {
    s.connected && s.generation in s.readers && s.readers[s.generation].phase.Receiving?
  }

  ghost predicate LinkOk(s: State) {
    && (s.connected <==> s.socket.Some?)
    && (s.connecting ==> !s.connected)
    && (s.socket.Some? ==> SocketOf(s, s.generation, s.socket.value) && !s.readers[s.generation].phase.Gone?
                           && s.socket.value !in s.shut)
    && s.shut <= s.owner.Keys
    && (s.closeDone ==> s.stop && !Blocked(s))
  }

  /** The calls, their entries and the messages on their way. */
  ghost predicate Table(s: State) {
    && (forall c {:trigger CallOk(s, c)} :: c in s.calls ==> CallOk(s, c))
    && (forall r {:trigger PendingOk(s, r)} :: r in s.pending ==> PendingOk(s, r))
    && (forall r {:trigger FlightOk(s, r)} :: r in s.flights ==> FlightOk(s, r))
    && (forall r {:trigger IssueOk(s, r)} :: r in s.issued ==> IssueOk(s, r))
  }

  /** The link, its readers and the closes in progress. */
  ghost predicate Wires(s: State) {
    && LinkOk(s)
    && (forall g {:trigger ReaderOk(s, g)} :: g in s.readers ==> ReaderOk(s, g))
    && (forall k {:trigger CloserOk(s, k)} :: k in s.closers ==> CloserOk(s, k))
  }

  ghost predicate Inv(s: State) { Table(s) && Wires(s) }

  // ----- every step keeps it

  /** A step on the calls leaves the link alone ... */
  lemma {:induction false} WiresKept(s: State, t: State)
    requires Wires(s)
    requires t == s.(pending := t.pending, calls := t.calls, flights := t.flights, issued := t.issued)
    ensures Wires(t)
  {
    forall g | g in t.readers ensures ReaderOk(t, g) { assert ReaderOk(s, g); }
    forall k | k in t.closers ensures CloserOk(t, k) { assert CloserOk(s, k); }
  }

  /** ... and a step on the link leaves the calls alone, if none is pending where it comes or goes. */
  lemma {:induction false} TableKept(s: State, t: State)
    requires Table(s)
    requires t.pending == s.pending && t.calls == s.calls && t.flights == s.flights && t.issued == s.issued
    requires forall g :: g in s.readers ==> g in t.readers && t.readers[g].socket == s.readers[g].socket
    requires s.generation <= t.generation
    requires s.pending == map[] || (s.generation == t.generation && (s.connected ==> t.connected))
    ensures Table(t)
  {
    forall c | c in t.calls ensures CallOk(t, c) { assert CallOk(s, c); }
    forall r | r in t.pending ensures PendingOk(t, r) { assert PendingOk(s, r); }
    forall r | r in t.flights ensures FlightOk(t, r) { assert FlightOk(s, r); }
    forall r | r in t.issued ensures IssueOk(t, r) { assert IssueOk(s, r); }
  }

  lemma {:induction false} NoLinkNoEntries(s: State)
    requires Table(s) && !s.connected
    ensures s.pending == map[]
  {
    forall r ensures r !in s.pending { assert r in s.pending ==> PendingOk(s, r); }
  }

  /** One call moves on; its entry, if it has one, stays its own. */
  lemma {:induction false} CallMoves(s: State, c: CallId, call: Call)
    requires Inv(s) && c in s.calls && call.generation == s.calls[c].generation
    requires CallOk(SetCall(s, c, call), c)
    requires forall r :: s.calls[c].phase.On(r) && r in s.pending ==> call.phase.On(r)
    requires forall r {:trigger FirstOnly(call.phase, r)} :: FirstOnly(s.calls[c].phase, r) ==> FirstOnly(call.phase, r)
    ensures Inv(SetCall(s, c, call))
  {
    var t := SetCall(s, c, call);
    WiresKept(s, t);
    forall d | d in t.calls && d != c ensures CallOk(t, d) { assert CallOk(s, d); }
    forall r | r in t.pending ensures PendingOk(t, r) { assert PendingOk(s, r); }
    forall r | r in t.flights ensures FlightOk(t, r) { assert FlightOk(s, r); }
    forall r | r in t.issued ensures IssueOk(t, r) { assert IssueOk(s, r); }
  }

  lemma {:induction false} CallStarts(s: State, c: CallId)
    requires Inv(s) && c !in s.calls
    ensures Inv(SetCall(s, c, Call(Trying(1), -1, None, 0)))
  {
    var t := SetCall(s, c, Call(Trying(1), -1, None, 0));
    WiresKept(s, t);
    forall d | d in t.calls ensures CallOk(t, d) {
      if d != c { assert CallOk(s, d); }
    }
    forall r | r in t.pending ensures PendingOk(t, r) { assert PendingOk(s, r); }
    forall r | r in t.flights ensures FlightOk(t, r) { assert FlightOk(s, r); }
    forall r | r in t.issued ensures IssueOk(t, r) { assert IssueOk(s, r); }
  }

  /** The entry of a call that no longer depends on it goes. */
  lemma {:induction false} EntryGoes(s: State, r: RequestId)
    requires Inv(s)
    requires r in s.pending && s.pending[r] in s.calls ==> s.calls[s.pending[r]].phase.Leaving?
    ensures Inv(TakeOut(s, r))
  {
    var t := TakeOut(s, r);
    WiresKept(s, t);
    assert r in s.pending ==> PendingOk(s, r);
    forall c | c in t.calls ensures CallOk(t, c) { assert CallOk(s, c); }
    forall q | q in t.pending ensures PendingOk(t, q) { assert PendingOk(s, q); }
    forall q | q in t.flights ensures FlightOk(t, q) { assert FlightOk(s, q); }
    forall q | q in t.issued ensures IssueOk(t, q) { assert IssueOk(s, q); }
  }

  lemma {:induction false} ReplyTaken(s: State, r: RequestId, body: int)
    requires Inv(s)
    ensures Inv(Resolved(s, r, body))
  {
    if r in s.pending {
      var t := Resolved(s, r, body);
      WiresKept(s, t);
      assert PendingOk(s, r);
      forall c | c in t.calls ensures CallOk(t, c) { assert CallOk(s, c); }
      forall q | q in t.pending ensures PendingOk(t, q) { assert PendingOk(s, q); }
      forall q | q in t.flights ensures FlightOk(t, q) {
        if q != r { assert FlightOk(s, q); }
      }
      forall q | q in t.issued ensures IssueOk(t, q) { assert IssueOk(s, q); }
    }
  }

  lemma {:induction false} MessageArrives(s: State, r: RequestId)
    requires Inv(s) && Enabled(s, Deliver(r))
    ensures Inv(Delivered(s, r))
  {
    var t := Delivered(s, r);
    WiresKept(s, t);
    assert FlightOk(s, r);
    forall c | c in t.calls ensures CallOk(t, c) { MessageKeeps(s, r, c); }
    forall q | q in t.pending ensures PendingOk(t, q) { assert PendingOk(s, q); }
    forall q | q in t.flights ensures FlightOk(t, q) { assert FlightOk(s, q); }
    forall q | q in t.issued ensures IssueOk(t, q) { assert IssueOk(s, q); }
  }

  lemma {:induction false} MessageKeeps(s: State, r: RequestId, c: CallId)
    requires Inv(s) && Enabled(s, Deliver(r)) && c in s.calls
    ensures CallOk(Delivered(s, r), c)
  {
    assert FlightOk(s, r) && CallOk(s, c);
  }

  lemma {:induction false} CallRegisters(s: State, c: CallId, r: RequestId)
    requires Inv(s) && Enabled(s, Register(c, r))
    ensures Inv(RegisterCall(s, c, r))
  {
    var t := RegisterCall(s, c, r);
    WiresKept(s, t);
    assert ReaderOk(s, s.generation);
    forall d | d in t.calls ensures CallOk(t, d) { assert CallOk(s, d); }
    forall q | q in t.pending ensures PendingOk(t, q) {
      if q != r { assert PendingOk(s, q); }
    }
    forall q | q in t.flights ensures FlightOk(t, q) { assert FlightOk(s, q); }
    forall q | q in t.issued ensures IssueOk(t, q) {
      if q != r { assert IssueOk(s, q); }
    }
  }

  lemma {:induction false} ReaderMoves(s: State, g: nat, phase: ReaderPhase)
    requires Inv(s) && g in s.readers
    requires phase.Receiving? ==> !s.stop
    requires phase.Gone? ==> !s.connected || g != s.generation
    ensures Inv(SetReader(s, g, phase))
  {
    var t := SetReader(s, g, phase);
    TableKept(s, t);
    forall h | h in t.readers ensures ReaderOk(t, h) { assert ReaderOk(s, h); }
    forall k | k in t.closers ensures CloserOk(t, k) { assert CloserOk(s, k); }
  }

  lemma {:induction false} LinkComesUp(s: State, socket: SocketId)
    requires Inv(s) && Enabled(s, Install(socket))
    ensures Inv(Installed(s, socket))
  {
    var t := Installed(s, socket);
    assert t.generation in s.readers ==> ReaderOk(s, t.generation);
    NoLinkNoEntries(s);
    TableKept(s, t);
    forall g | g in t.readers ensures ReaderOk(t, g) {
      if g != t.generation { assert ReaderOk(s, g); }
    }
    forall k | k in t.closers ensures CloserOk(t, k) { assert CloserOk(s, k); }
  }

  /** Retiring the connection its calls ride fails them all; retiring an older one changes nothing
      but its own socket. */
  lemma {:induction false} DropIs(s: State, g: nat, socket: SocketId)
    requires Inv(s) && SocketOf(s, g, socket)
    ensures Drop(s, Some(socket), Some(g))
         == if g == s.generation
            then Cleared(s, false).(socket := None, connected := false, shut := s.shut + {socket})
            else s.(shut := s.shut + {socket})
  {
    SocketsDiffer(s, g, socket);
    var doomed := Doomed(s, Some(g));
    forall r | r in s.pending ensures r in doomed <==> g == s.generation { assert PendingOk(s, r); }
    if g == s.generation {
      assert doomed == s.pending.Keys;
      assert s.pending - doomed == map[];
    } else {
      assert doomed == {};
      assert s.pending - doomed == s.pending;
      assert s.flights + Failures(s, doomed, false) == s.flights;
    }
  }

  /** Two connections never share a socket. */
  lemma {:induction false} SocketsDiffer(s: State, g: nat, socket: SocketId)
    requires Wires(s) && SocketOf(s, g, socket)
    ensures socket in s.owner && (s.socket.Some? ==> (s.socket.value == socket <==> g == s.generation))
  {
    assert ReaderOk(s, g);
    assert s.socket.Some? ==> ReaderOk(s, s.generation);
  }

  /** All entries fail at once. */
  function Cleared(s: State, closing: bool): State {
    s.(pending := map[], flights := s.flights + Failures(s, s.pending.Keys, closing))
  }

  lemma {:induction false} EntriesCleared(s: State, closing: bool)
    requires Inv(s)
    ensures Inv(Cleared(s, closing))
  {
    var t := Cleared(s, closing);
    WiresKept(s, t);
    forall c | c in t.calls ensures CallOk(t, c) { assert CallOk(s, c); }
    forall r | r in t.flights ensures FlightOk(t, r) {
      if r in s.pending { assert PendingOk(s, r); } else { assert FlightOk(s, r); }
    }
    forall r | r in t.issued ensures IssueOk(t, r) { assert IssueOk(s, r); }
  }

  /** With no entries left the link may go down, and any socket but the live one may be closed. */
  lemma {:induction false} LinkGoes(s: State, up: bool, shut: set<SocketId>)
    requires Inv(s) && (!up && s.connected ==> s.pending == map[])
    requires shut <= s.owner.Keys && (up && s.socket.Some? ==> s.socket.value !in shut)
    ensures Inv(s.(socket := if up then s.socket else None, connected := up && s.connected, shut := shut))
  {
    var t := s.(socket := if up then s.socket else None, connected := up && s.connected, shut := shut);
    TableKept(s, t);
    forall g | g in t.readers ensures ReaderOk(t, g) { assert ReaderOk(s, g); }
    forall k | k in t.closers ensures CloserOk(t, k) { assert CloserOk(s, k); }
  }

  lemma {:induction false} Dropped(s: State, g: nat, socket: SocketId)
    requires Inv(s) && SocketOf(s, g, socket)
    ensures Inv(Drop(s, Some(socket), Some(g)))
  {
    DropIs(s, g, socket);
    if g == s.generation { LiveDropped(s, socket); } else { OldDropped(s, g, socket); }
  }

  lemma {:induction false} LiveDropped(s: State, socket: SocketId)
    requires Inv(s) && SocketOf(s, s.generation, socket)
    ensures Inv(Cleared(s, false).(socket := None, connected := false, shut := s.shut + {socket}))
  {
    SocketsDiffer(s, s.generation, socket);
    EntriesCleared(s, false);
    LinkGoes(Cleared(s, false), false, s.shut + {socket});
  }

  lemma {:induction false} OldDropped(s: State, g: nat, socket: SocketId)
    requires Inv(s) && SocketOf(s, g, socket) && g != s.generation
    ensures Inv(s.(shut := s.shut + {socket}))
  {
    SocketsDiffer(s, g, socket);
    LinkGoes(s, true, s.shut + {socket});
    assert s.(shut := s.shut + {socket}) == s.(socket := s.socket, connected := s.connected, shut := s.shut + {socket});
  }

  lemma {:induction false} CloseDropIs(s: State, socket: Option<SocketId>)
    requires Inv(s)
    ensures Drop(s, socket, None)
         == (var down := socket.None? || s.socket == socket;
             Cleared(s, true).(socket := if down then None else s.socket, connected := !down && s.connected,
                               shut := if socket.Some? then s.shut + {socket.value} else s.shut))
  {
    var doomed := Doomed(s, None);
    forall r | r in s.pending ensures r in doomed { assert PendingOk(s, r); }
    assert doomed == s.pending.Keys;
    assert s.pending - doomed == map[];
  }

  lemma {:induction false} Closed(s: State, k: CloserId)
    requires Inv(s) && k in s.closers
    ensures Inv(CloserDrops(s, k))
  {
    var socket := s.closers[k];
    assert CloserOk(s, k);
    CloseDropIs(s, socket);
    EntriesCleared(s, true);
    LinkGoes(Cleared(s, true), socket.Some? && s.socket != socket,
             if socket.Some? then s.shut + {socket.value} else s.shut);
    CloserForgotten(Drop(s, socket, None), k);
  }

  lemma {:induction false} CloserForgotten(s: State, k: CloserId)
    requires Inv(s) && s.stop && !Blocked(s)
    ensures Inv(s.(closers := s.closers - {k}, closeDone := true))
  {
    var t := s.(closers := s.closers - {k}, closeDone := true);
    TableKept(s, t);
    forall g | g in t.readers ensures ReaderOk(t, g) { assert ReaderOk(s, g); }
    forall j | j in t.closers ensures CloserOk(t, j) { assert CloserOk(s, j); }
  }

  lemma {:induction false} CloserReads(s: State, k: CloserId)
    requires Inv(s) && Enabled(s, CloseReads(k))
    ensures Inv(s.(closers := s.closers[k := s.socket]))
  {
    var t := s.(closers := s.closers[k := s.socket]);
    TableKept(s, t);
    assert s.socket.Some? ==> ReaderOk(s, s.generation);
    forall g | g in t.readers ensures ReaderOk(t, g) { assert ReaderOk(s, g); }
    forall j | j in t.closers ensures CloserOk(t, j) {
      if j != k { assert CloserOk(s, j); }
    }
  }

  lemma {:induction false} FlagsMove(s: State, connecting: bool, stop: bool, authFailed: bool)
    requires Inv(s) && (connecting ==> !s.connected) && (s.stop ==> stop)
    ensures Inv(s.(connecting := connecting, stop := stop, authFailed := authFailed))
  {
    var t := s.(connecting := connecting, stop := stop, authFailed := authFailed);
    TableKept(s, t);
    forall g | g in t.readers ensures ReaderOk(t, g) { assert ReaderOk(s, g); }
    forall k | k in t.closers ensures CloserOk(t, k) { assert CloserOk(s, k); }
  }

  // ----- all steps

  lemma {:induction false} LinkStep(s: State, l: Label)
    requires Inv(s) && Enabled(s, l) && l.OfLink()
    ensures Inv(Apply(s, l))
  {
    match l
    case BeginConnect => FlagsMove(s, true, s.stop, s.authFailed);
    case Install(socket) => LinkComesUp(s, socket);
    case ConnectFails => FlagsMove(s, false, s.stop, s.authFailed);
    case TokenRejected => FlagsMove(s, false, s.stop, true);
    case Deliver(r) => MessageArrives(s, r);
    case Stop => FlagsMove(s, s.connecting, true, s.authFailed);
    case CloseReads(k) => CloserReads(s, k);
    case CloseDrops(k) => Closed(s, k);
  }

  lemma {:induction false} ReaderStep(s: State, l: Label)
    requires Inv(s) && Enabled(s, l) && l.OfReader()
    ensures Inv(Apply(s, l))
  {
    match l
    case LoopHead(g) => ReaderMoves(s, g, if s.stop then Exiting else Receiving);
    case Receive(g, r, body) =>
      ReaderMoves(s, g, AtHead);
      ReplyTaken(SetReader(s, g, AtHead), r, body);
    case Event(g) => ReaderMoves(s, g, AtHead);
    case Break(g) => ReaderMoves(s, g, Exiting);
    case ReaderDrops(g) =>
      Dropped(s, g, s.readers[g].socket);
      DropIs(s, g, s.readers[g].socket);
      ReaderMoves(Drop(s, Some(s.readers[g].socket), Some(g)), g, Gone);
  }

  lemma {:induction false} CallStep(s: State, l: Label)
    requires Inv(s) && Enabled(s, l) && l.OfCall()
    ensures Inv(Apply(s, l))
  {
    match l
    case NewCall(c) => CallStarts(s, c);
    case Register(c, r) => CallRegisters(s, c, r);
    case Unlink(c) => CallUnlinks(s, c);
    case CallDrops(c) => CallDropped(s, c);
    case Leave(c) => CallLeaves(s, c);
    case _ => CallTurns(s, l);
  }

  lemma {:induction false} CallTurns(s: State, l: Label)
    requires Inv(s) && Enabled(s, l)
    requires l.Miss? || l.Refuse? || l.SendOk? || l.SendFails? || l.Wake? || l.TimeOut?
    ensures Inv(Apply(s, l))
  {
    assert CallOk(s, l.call);
    if l.Miss? {
      CallRests(s, l.call, Retry(s.calls[l.call].phase.attempt, NotConnected));
    } else if l.Refuse? {
      CallRests(s, l.call, Finished(Refused));
    } else {
      CallGoesOn(s, l.call, Apply(s, l).calls[l.call]);
    }
  }

  /** A call keeps its request while it sends and waits. */
  lemma {:induction false} CallGoesOn(s: State, c: CallId, call: Call)
    requires Inv(s) && c in s.calls && call.generation == s.calls[c].generation && call.message == s.calls[c].message
    requires s.calls[c].phase.Registered? || s.calls[c].phase.Waiting?
    requires call.phase.On(s.calls[c].phase.request) && call.sends == (if call.phase.Sent() then 1 else 0)
    requires call.phase.Leaving? && call.phase.message.Some? ==> call.phase.message == call.message
    requires call.phase.Failed? ==> s.calls[c].phase.Registered? && call.phase.attempt == s.calls[c].phase.attempt
                                    && call.phase.socket == s.calls[c].phase.socket
    requires !call.phase.Registered?
    ensures Inv(SetCall(s, c, call))
  {
    assert CallOk(s, c);
    CallMoves(s, c, call);
  }

  lemma {:induction false} CallUnlinks(s: State, c: CallId)
    requires Inv(s) && Enabled(s, Unlink(c))
    ensures Inv(Apply(s, Unlink(c)))
  {
    var p := s.calls[c].phase;
    var t := Apply(s, Unlink(c));
    WiresKept(s, t);
    assert CallOk(s, c);
    assert p.request in s.pending ==> PendingOk(s, p.request);
    forall d | d in t.calls ensures CallOk(t, d) { assert CallOk(s, d); }
    forall q | q in t.pending ensures PendingOk(t, q) { assert PendingOk(s, q); }
    forall q | q in t.flights ensures FlightOk(t, q) { assert FlightOk(s, q); }
    forall q | q in t.issued ensures IssueOk(t, q) { assert IssueOk(s, q); }
  }

  lemma {:induction false} CallDropped(s: State, c: CallId)
    requires Inv(s) && Enabled(s, CallDrops(c))
    ensures Inv(Apply(s, CallDrops(c)))
  {
    var call := s.calls[c];
    assert CallOk(s, c);
    Dropped(s, call.generation, call.phase.socket);
    CallRests(Drop(s, Some(call.phase.socket), Some(call.generation)), c, Retry(call.phase.attempt, SendFailed));
  }

  /** A call between requests tries again, or ends. */
  lemma {:induction false} CallRests(s: State, c: CallId, phase: Phase)
    requires Inv(s) && c in s.calls && s.calls[c].sends == 0
    requires forall r :: s.calls[c].phase.On(r) ==> r !in s.pending
    requires (phase.Trying? && phase.attempt == 2) || (phase.Finished? && !phase.Sent())
    ensures Inv(SetPhase(s, c, phase))
  {
    assert CallOk(s, c);
    CallMoves(s, c, s.calls[c].(phase := phase));
  }

  lemma {:induction false} CallLeaves(s: State, c: CallId)
    requires Inv(s) && Enabled(s, Leave(c))
    ensures Inv(Left(s, c))
  {
    var p := s.calls[c].phase;
    var result := if p.message.Some? then Answer(p.message.value) else TimedOut;
    assert CallOk(s, c);
    assert p.request in s.pending ==> PendingOk(s, p.request);
    if p.request in s.pending {
      EntryGoes(s, p.request);
      CallEnds(TakeOut(s, p.request), c, result);
    } else {
      CallEnds(s, c, result);
    }
  }

  lemma {:induction false} CallEnds(s: State, c: CallId, result: Result)
    requires Inv(s) && c in s.calls && s.calls[c].phase.Leaving? && s.calls[c].phase.request !in s.pending
    requires result.TimedOut? || (result.Answer? && s.calls[c].phase.message == Some(result.message))
    ensures Inv(SetPhase(s, c, Finished(result)))
  {
    assert CallOk(s, c);
    CallMoves(s, c, s.calls[c].(phase := Finished(result)));
  }
}
