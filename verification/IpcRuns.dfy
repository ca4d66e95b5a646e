/** What holds in every run of the IPC client's steps, whatever their order. */
module IpcRuns {
  import opened Options
  import opened Ipc

  ghost predicate Step(s: State, t: State) { exists l :: Enabled(s, l) && t == Apply(s, l) }

  ghost predicate Run(run: seq<State>) {
    run != [] && Init(run[0]) &&
    forall i {:trigger Step(run[i], run[i + 1])} :: 0 <= i < |run| - 1 ==> Step(run[i], run[i + 1])
  }

  lemma {:induction false} RunStep(run: seq<State>, i: nat)
    requires Run(run) && i + 1 < |run|
    ensures Step(run[i], run[i + 1])
  {
  }

  lemma {:induction false} LabelInv(s: State, l: Label)
    requires Inv(s) && Enabled(s, l)
    ensures Inv(Apply(s, l))
  {
    if l.OfCall() { CallStep(s, l); } else if l.OfReader() { ReaderStep(s, l); } else { LinkStep(s, l); }
  }

  lemma {:induction false} RunInv(run: seq<State>, i: nat)
    requires Run(run) && i < |run|
    ensures Inv(run[i])
    decreases i
  {
    if i > 0 {
      RunInv(run, i - 1);
      RunStep(run, i - 1);
      var l :| Enabled(run[i - 1], l) && run[i - 1 + 1] == Apply(run[i - 1], l);
      LabelInv(run[i - 1], l);
    }
  }

  /** In every reachable state a pending call rides the current connection, the connection is up,
      and no call has two entries. */
  lemma {:induction false} PendingRidesTheLink(run: seq<State>, i: nat, r: RequestId)
    requires Run(run) && i < |run| && r in run[i].pending
    ensures var s := run[i]; var c := s.pending[r];
            s.connected && s.socket.Some? && c in s.calls && s.calls[c].generation == s.generation
            && forall q :: q in s.pending && s.pending[q] == c ==> q == r
  {
    var s := run[i];
    RunInv(run, i);
    assert PendingOk(s, r);
    forall q | q in s.pending && s.pending[q] == s.pending[r] ensures q == r { assert PendingOk(s, q); }
  }

  /** Cleaning up after an old connection, by its reader or by a call whose send failed on it,
      touches no newer call, no newer socket and not the link. */
  lemma {:induction false} OldCleanupIsHarmless(run: seq<State>, i: nat, l: Label, g: nat)
    requires Run(run) && i < |run| && Enabled(run[i], l) && g != run[i].generation
    requires l == ReaderDrops(g) || (l.CallDrops? && run[i].calls[l.call].generation == g)
    ensures var s, t := run[i], Apply(run[i], l);
            t.socket == s.socket && t.connected == s.connected && t.generation == s.generation
            && t.pending == s.pending && t.flights == s.flights
            && (forall c :: c in s.calls && l != CallDrops(c) ==> c in t.calls && t.calls[c] == s.calls[c])
            && (s.socket.Some? ==> s.socket.value !in t.shut)
  {
    var s := run[i];
    RunInv(run, i);
    if l.CallDrops? {
      assert CallOk(s, l.call);
      DropIs(s, g, s.calls[l.call].phase.socket);
      SocketsDiffer(s, g, s.calls[l.call].phase.socket);
    } else {
      DropIs(s, g, s.readers[g].socket);
      SocketsDiffer(s, g, s.readers[g].socket);
    }
  }

  /** Cleaning up after the current connection takes it down and sends every pending call the news. */
  lemma {:induction false} LiveCleanupFailsAll(run: seq<State>, i: nat)
    requires Run(run) && i < |run| && Enabled(run[i], ReaderDrops(run[i].generation))
    ensures var s, t := run[i], Apply(run[i], ReaderDrops(run[i].generation));
            !t.connected && t.socket.None? && t.pending == map[]
            && forall r :: r in s.pending ==> r in t.flights && t.flights[r] == Flight(s.pending[r], LinkLost(r))
  {
    var s := run[i];
    RunInv(run, i);
    DropIs(s, s.generation, s.readers[s.generation].socket);
  }

  /** A call waiting for its answer has it, has it on the way, or has its entry on the live link,
      whose socket is open and whose reader has not left: no call is stranded on a dropped link. */
  lemma {:induction false} NoneStranded(run: seq<State>, i: nat, c: CallId)
    requires Run(run) && i < |run| && c in run[i].calls && run[i].calls[c].phase.Waiting?
    ensures var s := run[i]; var r := s.calls[c].phase.request;
            || Enabled(s, Wake(c))
            || (Enabled(s, Deliver(r)) && s.flights[r].call == c)
            || (r in s.pending && s.pending[r] == c && s.connected && s.socket.Some? && s.socket.value !in s.shut
                && s.generation in s.readers && s.readers[s.generation].socket == s.socket.value
                && !s.readers[s.generation].phase.Gone?)
  {
    var s := run[i];
    RunInv(run, i);
    assert CallOk(s, c);
    var r := s.calls[c].phase.request;
    assert r in s.pending ==> PendingOk(s, r);
    assert r in s.flights ==> FlightOk(s, r);
  }

  /** A call puts at most one whole frame on the wire, and tries again only while it has put none. */
  lemma {:induction false} SentAtMostOnce(run: seq<State>, i: nat, c: CallId)
    requires Run(run) && i < |run| && c in run[i].calls
    ensures var call := run[i].calls[c];
            call.sends <= 1 && (call.sends == 1 <==> call.phase.Sent())
            && (Enabled(run[i], SendOk(c)) ==> call.sends == 0 && call.phase.attempt <= 2)
  {
    RunInv(run, i);
    assert CallOk(run[i], c);
  }

  /** What a call returns is about a request it made itself, no request is answered twice, and a
      call that is over has left nothing in the table. */
  lemma {:induction false} AnswersAreOwn(run: seq<State>, i: nat, c: CallId)
    requires Run(run) && i < |run| && c in run[i].calls && run[i].calls[c].phase.Finished?
    ensures var s := run[i]; var result := s.calls[c].phase.result;
            && (result.Answer? ==> result.message.request in s.issued && s.issued[result.message.request].call == c)
            && (forall r :: r in s.pending ==> s.pending[r] != c)
            && (forall r :: r in s.issued ==> s.issued[r].deliveries <= 1)
  {
    var s := run[i];
    RunInv(run, i);
    assert CallOk(s, c);
    forall r | r in s.pending ensures s.pending[r] != c { assert PendingOk(s, r); }
    forall r | r in s.issued ensures s.issued[r].deliveries <= 1 { assert IssueOk(s, r); }
  }

  /** Once a close has run, a link that came up meanwhile is already condemned: its reader is not
      blocked, all it can still do is find the stop flag and retire the link, and no new link can
      be started. */
  lemma {:induction false} CloseTakesEffect(run: seq<State>, i: nat)
    requires Run(run) && i < |run| && run[i].closeDone
    ensures var s := run[i];
            && !Enabled(s, BeginConnect)
            && (s.connected ==>
                  var g := s.generation;
                  g in s.readers && (s.readers[g].phase.AtHead? || s.readers[g].phase.Exiting?))
            && (forall g :: Enabled(s, LoopHead(g)) ==> Apply(s, LoopHead(g)).readers[g].phase.Exiting?)
  {
    RunInv(run, i);
  }

  // ----- what a retried call may be told

  function Last(run: seq<State>): State
    requires run != []
  {
    run[|run| - 1]
  }

  lemma {:induction false} Extend(start: seq<State>, run: seq<State>, l: Label, t: State) returns (longer: seq<State>)
    requires Run(run) && Enabled(Last(run), l) && t == Apply(Last(run), l) && start <= run
    ensures Run(longer) && Last(longer) == t && start <= longer
  {
    longer := run + [t];
    assert Step(Last(run), t);
    forall i | 0 <= i < |longer| - 1 ensures Step(longer[i], longer[i + 1]) {
      if i < |run| - 1 { assert Step(run[i], run[i + 1]); }
    }
  }

  /** A call about to send its first frame, on a link whose reader is waiting. */
  ghost predicate AboutToSend(s: State, c: CallId, r: RequestId) {
    c in s.calls && s.calls[c].phase.Registered? && s.calls[c].phase.attempt == 1 && s.calls[c].phase.request == r
    && r in s.pending && Blocked(s) && !s.stop && !s.authFailed && !s.connecting
  }

  ghost predicate ToldOfLoss(s: State, c: CallId, r: RequestId) {
    c in s.calls && s.calls[c].message == Some(LinkLost(r)) && s.calls[c].sends == 0
    && !s.connected && !s.connecting && !s.authFailed && !s.stop
  }

  /** The link can fail under the call before its send does, and the reader's message reach it ... */
  lemma {:induction false} FailureOvertakesSend(start: seq<State>, c: CallId, r: RequestId)
      returns (run: seq<State>)
    requires Run(start) && AboutToSend(Last(start), c, r)
    ensures Run(run) && start <= run && ToldOfLoss(Last(run), c, r)
    ensures Last(run).calls[c].phase == Last(start).calls[c].phase
    ensures Last(run).issued.Keys == Last(start).issued.Keys && Last(run).owner == Last(start).owner
  {
    RunInv(start, |start| - 1);
    var s := Last(start);
    var g := s.generation;
    assert CallOk(s, c) && PendingOk(s, r);
    var s1 := SetReader(s, g, Exiting);
    run := Extend(start, start, Break(g), s1);
    RunInv(run, |run| - 1);
    DropIs(s1, g, s1.readers[g].socket);
    var s2 := SetReader(Drop(s1, Some(s1.readers[g].socket), Some(g)), g, Gone);
    run := Extend(start, run, ReaderDrops(g), s2);
    run := LossDelivered(start, run, c, r);
  }

  lemma {:induction false} LossDelivered(start: seq<State>, mid: seq<State>, c: CallId, r: RequestId)
      returns (run: seq<State>)
    requires Run(mid) && start <= mid && c in Last(mid).calls && r in Last(mid).issued
    requires r in Last(mid).flights && Last(mid).flights[r] == Flight(c, LinkLost(r))
    requires var s := Last(mid); !s.connected && !s.connecting && !s.authFailed && !s.stop && s.calls[c].sends == 0
    ensures Run(run) && start <= run && ToldOfLoss(Last(run), c, r)
    ensures Last(run).calls[c].phase == Last(mid).calls[c].phase
    ensures Last(run).issued.Keys == Last(mid).issued.Keys && Last(run).owner == Last(mid).owner
  {
    run := Extend(start, mid, Deliver(r), Delivered(Last(mid), r));
  }

  /** ... so that it is in place when the call tries again. */
  lemma {:induction false} RetryAfterFailure(start: seq<State>, mid: seq<State>, c: CallId, r: RequestId)
      returns (run: seq<State>)
    requires Run(mid) && start <= mid && ToldOfLoss(Last(mid), c, r)
    requires Last(mid).calls[c].phase.Registered? && Last(mid).calls[c].phase.attempt == 1
    ensures Run(run) && start <= run && RetriesToldAlready(Last(run), c)
    ensures Last(run).calls[c].message == Some(LinkLost(r))
    ensures Last(run).issued.Keys == Last(mid).issued.Keys && Last(run).owner == Last(mid).owner
  {
    var s := Last(mid);
    var p := s.calls[c].phase;
    var s1 := SetPhase(s, c, Failed(1, p.request, p.socket));
    var s2 := SetPhase(TakeOut(s1, p.request), c, Unlinked(1, p.socket));
    run := Extend(start, mid, SendFails(c), s1);
    run := Extend(start, run, Unlink(c), s2);
    RunInv(run, |run| - 1);
    assert CallOk(s2, c);
    var s3 := SetPhase(Drop(s2, Some(p.socket), Some(s2.calls[c].generation)), c, Trying(2));
    run := Extend(start, run, CallDrops(c), s3);
  }

  /** A call about to try again, with the link down and able to come back, that was already told of
      a failure. */
  ghost predicate RetriesToldAlready(s: State, c: CallId) {
    c in s.calls && s.calls[c].phase == Trying(2) && s.calls[c].message.Some? && s.calls[c].sends == 0
    && !s.connected && !s.connecting && !s.authFailed && !s.stop
  }

  /** Such a call can send its frame on a new connection and still return the old failure at once. */
  lemma {:induction false} OldFailureReturned(start: seq<State>, mid: seq<State>, c: CallId, r: RequestId,
                                              socket: SocketId) returns (run: seq<State>)
    requires Run(mid) && start <= mid && RetriesToldAlready(Last(mid), c)
    requires r !in Last(mid).issued && socket !in Last(mid).owner
    ensures Run(run) && start <= run
    ensures var t := Last(run);
            c in t.calls && t.calls[c].phase == Finished(Answer(Last(mid).calls[c].message.value))
            && t.calls[c].sends == 1 && t.connected && r in t.issued && t.issued[r] == Issue(c, t.generation, 0)
  {
    var s := Last(mid);
    var s1 := s.(connecting := true);
    var s2 := Installed(s1, socket);
    var s3 := RegisterCall(s2, c, r);
    run := Extend(start, mid, BeginConnect, s1);
    run := Extend(start, run, Install(socket), s2);
    run := Extend(start, run, Register(c, r), s3);
    run := OldAnswerTaken(start, run, c, r);
  }

  /** Every reachable state with a call about to send can go on to one where the call, its frame
      sent in full on a newer connection that is up, has returned the failure of the older one while
      its own request is still unanswered. */
  lemma {:induction false} RetryMayReturnOldFailure(start: seq<State>, c: CallId, r: RequestId, r': RequestId,
                                                    socket: SocketId) returns (run: seq<State>)
    requires Run(start) && AboutToSend(Last(start), c, r)
    requires r' !in Last(start).issued && socket !in Last(start).owner
    ensures Run(run) && start <= run
    ensures var t := Last(run);
            c in t.calls && t.calls[c].phase == Finished(Answer(LinkLost(r))) && t.calls[c].sends == 1
            && t.connected && r' in t.issued && t.issued[r'] == Issue(c, t.generation, 0)
  {
    run := FailureOvertakesSend(start, c, r);
    run := RetryAfterFailure(start, run, c, r);
    run := OldFailureReturned(start, run, c, r', socket);
  }

  lemma {:induction false} OldAnswerTaken(start: seq<State>, run: seq<State>, c: CallId, r: RequestId)
      returns (longer: seq<State>)
    requires Run(run) && start <= run && c in Last(run).calls && Last(run).calls[c].message.Some?
    requires Last(run).calls[c].phase.Registered? && Last(run).calls[c].phase.request == r
    ensures Run(longer) && start <= longer && Last(longer).calls.Keys == Last(run).calls.Keys
    ensures var s, t := Last(run), Last(longer);
            t.calls[c].phase == Finished(Answer(s.calls[c].message.value)) && t.calls[c].sends == s.calls[c].sends + 1
            && t.connected == s.connected && t.generation == s.generation && t.issued == s.issued
  {
    var s := Last(run);
    var call := s.calls[c];
    var s1 := SetCall(s, c, call.(phase := Waiting(r), sends := call.sends + 1));
    var s2 := SetPhase(s1, c, Leaving(r, call.message));
    longer := Extend(start, run, SendOk(c), s1);
    longer := Extend(start, longer, Wake(c), s2);
    longer := Extend(start, longer, Leave(c), Left(s2, c));
  }

  // ----- exactly when a retried call may be told about the request it could not send

  /** A call has never been told about a request, nor is it about to return with that. */
  predicate Untold(call: Call, r: RequestId) {
    && (call.message.Some? ==> call.message.value.request != r)
    && (call.phase.Leaving? && call.phase.message.Some? ==> call.phase.message.value.request != r)
    && (call.phase.Finished? && call.phase.result.Answer? ==> call.phase.result.message.request != r)
  }

  /** Nothing about request `r` is known to any call or on its way to one. */
  ghost predicate Silent(s: State, r: RequestId) {
    && r in s.issued && r !in s.pending && r !in s.flights
    && forall c {:trigger c in s.calls} :: c in s.calls ==> Untold(s.calls[c], r)
  }

  /** Only the moves of one call change what it knows, and none makes it know more. */
  lemma {:induction false} MoveSilent(s: State, t: State, c: CallId, r: RequestId)
    requires Silent(s, r) && c in t.calls && Untold(t.calls[c], r)
    requires forall d :: d in t.calls && d != c ==> d in s.calls && t.calls[d] == s.calls[d]
    requires r in t.issued && r !in t.pending && r !in t.flights
    ensures Silent(t, r)
  {
    forall d | d in t.calls ensures Untold(t.calls[d], r) {
      if d != c { assert Untold(s.calls[d], r); }
    }
  }

  /** What a step of a call leaves alone: the other calls, and what was not pending or on its way. */
  lemma {:induction false} CallKeeps(s: State, l: Label)
    requires Enabled(s, l) && l.OfCall() && !l.CallDrops?
    ensures var t := Apply(s, l);
            l.call in t.calls && (forall d :: d in t.calls && d != l.call ==> d in s.calls && t.calls[d] == s.calls[d])
    ensures var t := Apply(s, l);
            t.flights == s.flights && s.issued.Keys <= t.issued.Keys
            && forall q :: q in t.pending ==> q in s.pending || q !in s.issued
  {
  }

  lemma {:induction false} CallSilent(s: State, l: Label, r: RequestId)
    requires Inv(s) && Enabled(s, l) && l.OfCall() && !l.CallDrops? && Silent(s, r)
    ensures Silent(Apply(s, l), r)
  {
    assert l.call in s.calls ==> Untold(s.calls[l.call], r);
    var t := Apply(s, l);
    CallKeeps(s, l);
    MoveSilent(s, t, l.call, r);
  }

  lemma {:induction false} DropSilent(s: State, socket: Option<SocketId>, generation: Option<nat>, r: RequestId)
    requires Silent(s, r)
    ensures Silent(Drop(s, socket, generation), r)
  {
  }

  lemma {:induction false} CallDropSilent(s: State, c: CallId, r: RequestId)
    requires Enabled(s, CallDrops(c)) && Silent(s, r)
    ensures Silent(Apply(s, CallDrops(c)), r)
  {
    var call := s.calls[c];
    DropSilent(s, Some(call.phase.socket), Some(call.generation), r);
    var t := Apply(s, CallDrops(c));
    forall d | d in t.calls ensures Untold(t.calls[d], r) { assert Untold(s.calls[d], r); }
  }

  lemma {:induction false} DeliverSilent(s: State, q: RequestId, r: RequestId)
    requires Inv(s) && Enabled(s, Deliver(q)) && Silent(s, r)
    ensures Silent(Apply(s, Deliver(q)), r)
  {
    assert FlightOk(s, q);
    var t := Apply(s, Deliver(q));
    forall c | c in t.calls ensures Untold(t.calls[c], r) { assert Untold(s.calls[c], r); }
  }

  lemma {:induction false} OtherSilent(s: State, l: Label, r: RequestId)
    requires Inv(s) && Enabled(s, l) && !l.OfCall() && Silent(s, r)
    ensures Silent(Apply(s, l), r)
  {
    match l
    case Deliver(q) => DeliverSilent(s, q, r);
    case ReaderDrops(g) => DropSilent(s, Some(s.readers[g].socket), Some(g), r);
    case CloseDrops(k) => DropSilent(s, s.closers[k], None, r);
    case _ =>
  }

  lemma {:induction false} StepSilent(s: State, l: Label, r: RequestId)
    requires Inv(s) && Enabled(s, l) && Silent(s, r)
    ensures Silent(Apply(s, l), r)
  {
    if l.CallDrops? { CallDropSilent(s, l.call, r); }
    else if l.OfCall() { CallSilent(s, l, r); }
    else { OtherSilent(s, l, r); }
  }

  lemma {:induction false} RunSilent(run: seq<State>, i: nat, k: nat, r: RequestId)
    requires Run(run) && i <= k < |run| && Silent(run[i], r)
    ensures Silent(run[k], r)
    decreases k
  {
    if i < k {
      RunSilent(run, i, k - 1, r);
      NextSilent(run, k, r);
    }
  }

  lemma {:induction false} NextSilent(run: seq<State>, k: nat, r: RequestId)
    requires Run(run) && 0 < k < |run| && Silent(run[k - 1], r)
    ensures Silent(run[k], r)
  {
    RunInv(run, k - 1);
    RunStep(run, k - 1);
    var l :| Enabled(run[k - 1], l) && run[k - 1 + 1] == Apply(run[k - 1], l);
    StepSilent(run[k - 1], l, r);
  }

  /** A call whose send failed on its first attempt is about to take its entry out. */
  ghost predicate AboutToUnlink(s: State, c: CallId, r: RequestId) {
    c in s.calls && s.calls[c].phase.Failed? && s.calls[c].phase.attempt == 1 && s.calls[c].phase.request == r
  }

  /** An entry the failed send still finds is never answered. */
  lemma {:induction false} UnlinkSilences(s: State, c: CallId, r: RequestId)
    requires Inv(s) && AboutToUnlink(s, c, r) && r in s.pending
    ensures Silent(Apply(s, Unlink(c)), r)
  {
    assert PendingOk(s, r) && CallOk(s, c);
    assert r in s.flights ==> FlightOk(s, r);
    var t := Apply(s, Unlink(c));
    forall d | d in t.calls ensures Untold(t.calls[d], r) { assert CallOk(s, d); }
  }

  /** The call sent a frame in full and returned a message about request `r`. */
  ghost predicate ReturnedAbout(s: State, c: CallId, r: RequestId) {
    c in s.calls && s.calls[c].sends == 1 && s.calls[c].phase.Finished? && s.calls[c].phase.result.Answer?
    && s.calls[c].phase.result.message.request == r
  }

  /** Some run that goes on from `run` ends that way. */
  ghost predicate MayReturnAbout(run: seq<State>, c: CallId, r: RequestId) {
    exists longer :: Run(longer) && run <= longer && ReturnedAbout(Last(longer), c, r)
  }

  /** A call whose first send failed may come back with a message about that request, although it
      sent its second frame in full, if and only if its entry was gone when it came to take it out. */
  lemma {:induction false} RetryMixUpExactly(start: seq<State>, c: CallId, r: RequestId)
    requires Run(start) && AboutToUnlink(Last(start), c, r)
    ensures var s, after := Last(start), start + [Apply(Last(start), Unlink(c))];
            && (MayReturnAbout(after, c, r) ==> r !in s.pending)
            && (!s.stop && !s.authFailed && !s.connecting ==> (MayReturnAbout(after, c, r) <==> r !in s.pending))
  {
    var s := Last(start);
    var t := Apply(s, Unlink(c));
    var after := start + [t];
    if r in s.pending && MayReturnAbout(after, c, r) {
      var longer :| Run(longer) && after <= longer && ReturnedAbout(Last(longer), c, r);
      EntryFoundNeverTold(start, c, r, longer);
    }
    if r !in s.pending && !s.stop && !s.authFailed && !s.connecting {
      var run := MixUpRun(start, c, r);
      assert MayReturnAbout(after, c, r);
    }
  }

  lemma {:induction false} EntryFoundNeverTold(start: seq<State>, c: CallId, r: RequestId, longer: seq<State>)
    requires Run(start) && AboutToUnlink(Last(start), c, r) && r in Last(start).pending
    requires Run(longer) && start + [Apply(Last(start), Unlink(c))] <= longer
    ensures !ReturnedAbout(Last(longer), c, r)
  {
    RunInv(start, |start| - 1);
    UnlinkSilences(Last(start), c, r);
    assert longer[|start|] == Apply(Last(start), Unlink(c));
    RunSilent(longer, |start|, |longer| - 1, r);
    assert c in Last(longer).calls ==> Untold(Last(longer).calls[c], r);
  }

  /** A call holds a message about `r` and can go on trying. */
  ghost predicate Holds(s: State, c: CallId, r: RequestId) {
    c in s.calls && s.calls[c].message.Some? && s.calls[c].message.value.request == r && s.calls[c].sends == 0
    && !s.stop && !s.authFailed && !s.connecting
  }

  lemma {:induction false} MixUpRun(start: seq<State>, c: CallId, r: RequestId) returns (run: seq<State>)
    requires Run(start) && AboutToUnlink(Last(start), c, r) && r !in Last(start).pending
    requires var s := Last(start); !s.stop && !s.authFailed && !s.connecting
    ensures Run(run) && start + [Apply(Last(start), Unlink(c))] <= run && ReturnedAbout(Last(run), c, r)
  {
    var t := Apply(Last(start), Unlink(c));
    var after := start + [t];
    UnlinkRun(start, c, t);
    run := MessageHeld(after, start, c, r);
    run := TriesAgain(after, run, c, r);
    run := LinkBack(after, run, c, r);
    run := SendsAgain(after, run, c, r);
  }

  lemma {:induction false} UnlinkRun(start: seq<State>, c: CallId, t: State)
    requires Run(start) && Enabled(Last(start), Unlink(c)) && t == Apply(Last(start), Unlink(c))
    ensures Run(start + [t])
  {
    var run := start + [t];
    assert Step(Last(start), t);
    forall i | 0 <= i < |run| - 1 ensures Step(run[i], run[i + 1]) {
      if i < |start| - 1 { assert Step(start[i], start[i + 1]); }
    }
  }

  /** The message is there already, or on its way and comes now. */
  lemma {:induction false} MessageHeld(after: seq<State>, start: seq<State>, c: CallId,
                                       r: RequestId) returns (run: seq<State>)
    requires Run(start) && AboutToUnlink(Last(start), c, r) && r !in Last(start).pending
    requires var s := Last(start); !s.stop && !s.authFailed && !s.connecting
    requires after == start + [Apply(Last(start), Unlink(c))] && Run(after)
    ensures Run(run) && after <= run && Holds(Last(run), c, r)
    ensures Last(run).calls[c].phase == Unlinked(1, Last(start).calls[c].phase.socket)
  {
    var s := Last(start);
    RunInv(start, |start| - 1);
    assert CallOk(s, c);
    if s.calls[c].message.Some? {
      assert IssueOk(s, s.calls[c].message.value.request);
      run := after;
    } else {
      assert FlightOk(s, r);
      run := Extend(after, after, Deliver(r), Delivered(Last(after), r));
    }
  }

  lemma {:induction false} TriesAgain(after: seq<State>, mid: seq<State>, c: CallId,
                                      r: RequestId) returns (run: seq<State>)
    requires Run(mid) && after <= mid && Holds(Last(mid), c, r)
    requires Last(mid).calls[c].phase.Unlinked? && Last(mid).calls[c].phase.attempt == 1
    ensures Run(run) && after <= run && Holds(Last(run), c, r) && Last(run).calls[c].phase == Trying(2)
  {
    var s := Last(mid);
    RunInv(mid, |mid| - 1);
    assert CallOk(s, c);
    var t := SetPhase(Drop(s, Some(s.calls[c].phase.socket), Some(s.calls[c].generation)), c, Trying(2));
    run := Extend(after, mid, CallDrops(c), t);
  }

  lemma {:induction false} LinkBack(after: seq<State>, mid: seq<State>, c: CallId,
                                    r: RequestId) returns (run: seq<State>)
    requires Run(mid) && after <= mid && Holds(Last(mid), c, r) && Last(mid).calls[c].phase == Trying(2)
    ensures Run(run) && after <= run && Holds(Last(run), c, r) && Last(run).calls[c].phase == Trying(2)
    ensures Last(run).connected && Last(run).socket.Some?
  {
    var s := Last(mid);
    RunInv(mid, |mid| - 1);
    if s.connected {
      run := mid;
    } else {
      var socket := Unused(s.owner.Keys);
      var s1 := s.(connecting := true);
      run := Extend(after, mid, BeginConnect, s1);
      run := Extend(after, run, Install(socket), Installed(s1, socket));
    }
  }

  lemma {:induction false} SendsAgain(after: seq<State>, mid: seq<State>, c: CallId,
                                      r: RequestId) returns (run: seq<State>)
    requires Run(mid) && after <= mid && Holds(Last(mid), c, r) && Last(mid).calls[c].phase == Trying(2)
    requires Last(mid).connected && Last(mid).socket.Some?
    ensures Run(run) && after <= run && ReturnedAbout(Last(run), c, r)
  {
    var q := Unused(Last(mid).issued.Keys);
    run := Extend(after, mid, Register(c, q), RegisterCall(Last(mid), c, q));
    run := OldAnswerTaken(after, run, c, q);
  }

  /** There is always a number not in use. */
  lemma {:induction false} Unused(used: set<nat>) returns (n: nat)
    ensures n !in used && forall k :: k in used ==> k < n
    decreases |used|
  {
    if used == {} {
      n := 0;
    } else {
      var k :| k in used;
      var m := Unused(used - {k});
      n := if m <= k then k + 1 else m;
      forall j | j in used ensures j < n { assert j != k ==> j in used - {k}; }
    }
  }

  // ----- such states are reached

  const START := State(None, false, 0, false, false, false, map[], map[], map[], map[], map[], map[], {}, map[], false)

  lemma {:induction false} LinkedRun() returns (run: seq<State>)
    ensures Run(run) && Last(run) == Installed(START.(connecting := true), 0)
  {
    run := [START];
    run := Extend([], run, BeginConnect, START.(connecting := true));
    run := Extend([], run, Install(0), Installed(START.(connecting := true), 0));
  }

  /** A call comes to be about to send its first frame, with the reader waiting. */
  lemma {:induction false} SendingIsReached() returns (run: seq<State>)
    ensures Run(run) && AboutToSend(Last(run), 0, 0)
    ensures Last(run).issued.Keys == {0} && Last(run).owner.Keys == {0}
  {
    run := LinkedRun();
    var s := Last(run);
    var s1 := SetReader(s, 1, Receiving);
    run := Extend([], run, LoopHead(1), s1);
    var s2 := SetCall(s1, 0, Call(Trying(1), -1, None, 0));
    run := Extend([], run, NewCall(0), s2);
    run := Extend([], run, Register(0, 0), RegisterCall(s2, 0, 0));
  }

  /** So the mix-up does happen. */
  lemma {:induction false} MixUpHappens() returns (run: seq<State>)
    ensures Run(run) && ReturnedAbout(Last(run), 0, 0) && Last(run).connected
    ensures 1 in Last(run).issued && Last(run).issued[1] == Issue(0, Last(run).generation, 0)
  {
    run := SendingIsReached();
    run := RetryMayReturnOldFailure(run, 0, 0, 1, 1);
  }

  /** A call that made one request only is never told about another: the mix-up takes a retry. */
  lemma {:induction false} SingleAttemptIsExact(run: seq<State>, i: nat, c: CallId, r: RequestId)
    requires Run(run) && i < |run| && c in run[i].calls && run[i].calls[c].phase.Finished?
    requires run[i].calls[c].phase.result.Answer?
    requires forall q :: q in run[i].issued && run[i].issued[q].call == c ==> q == r
    ensures run[i].calls[c].phase.result.message.request == r
  {
    AnswersAreOwn(run, i, c);
  }
}
