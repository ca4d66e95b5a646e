/** What a call of the IPC client returns, and where that comes from, over every run. */
module IpcAnswers {
  import opened Options
  import opened Ipc
  import opened IpcRuns

  // ----- a response reaches its call

  /** Call `c` has sent `r` and waits for it, and the live link's reader is receiving. */
  ghost predicate Awaits(s: State, c: CallId, r: RequestId) {
    c in s.calls && s.calls[c].phase == Waiting(r) && r in s.pending && Blocked(s)
  }

  /** From every reachable state in which a call waits, the response that comes in next is what the call
      returns. */
  lemma {:induction false} ResponseIsReturned(start: seq<State>, c: CallId, r: RequestId, body: int)
      returns (run: seq<State>)
    requires Run(start) && Awaits(Last(start), c, r)
    ensures Run(run) && start <= run && c in Last(run).calls && r !in Last(run).pending
    ensures Last(run).calls[c].phase == Finished(Answer(Reply(r, body))) && Last(run).calls[c].sends == 1
  {
    RunInv(start, |start| - 1);
    var s := Last(start);
    assert CallOk(s, c) && PendingOk(s, r);
    var s1 := Resolved(SetReader(s, s.generation, AtHead), r, body);
    run := Extend(start, start, Receive(s.generation, r, body), s1);
    var s2 := Delivered(s1, r);
    run := Extend(start, run, Deliver(r), s2);
    run := TellsWaiting(start, run, c, r);
  }

  /** A call that waits and has a message returns it. */
  lemma {:induction false} TellsWaiting(start: seq<State>, mid: seq<State>, c: CallId, r: RequestId)
      returns (run: seq<State>)
    requires Run(mid) && start <= mid && c in Last(mid).calls && Last(mid).calls[c].phase == Waiting(r)
    requires Last(mid).calls[c].message.Some? && r !in Last(mid).pending
    ensures Run(run) && start <= run && c in Last(run).calls && r !in Last(run).pending
    ensures Last(run).calls[c].phase == Finished(Answer(Last(mid).calls[c].message.value))
    ensures Last(run).calls[c].sends == Last(mid).calls[c].sends
  {
    var s := Last(mid);
    var s1 := SetPhase(s, c, Leaving(r, s.calls[c].message));
    run := Extend(start, mid, Wake(c), s1);
    run := Extend(start, run, Leave(c), Left(s1, c));
  }

  /** A call whose wait runs out says so, and its entry is gone. */
  lemma {:induction false} TimeOutIsReturned(start: seq<State>, c: CallId, r: RequestId) returns (run: seq<State>)
    requires Run(start) && c in Last(start).calls && Last(start).calls[c].phase == Waiting(r)
    ensures Run(run) && start <= run && c in Last(run).calls && Last(run).calls[c].phase == Finished(TimedOut)
    ensures r in Last(run).pending ==> Last(run).pending[r] != c
  {
    var s := Last(start);
    var s1 := SetPhase(s, c, Leaving(r, None));
    run := Extend(start, start, TimeOut(c), s1);
    run := Extend(start, run, Leave(c), Left(s1, c));
  }

  /** A first call connects, sends its request and returns the response. */
  lemma {:induction false} FirstCallIsAnswered(body: int) returns (run: seq<State>)
    ensures Run(run) && 0 in Last(run).calls && Last(run).calls[0].phase == Finished(Answer(Reply(0, body)))
  {
    run := SendingIsReached();
    var s := Last(run);
    var s1 := SetCall(s, 0, s.calls[0].(phase := Waiting(0), sends := s.calls[0].sends + 1));
    run := Extend([], run, SendOk(0), s1);
    run := ResponseIsReturned(run, 0, 0, body);
  }

  // ----- where a message comes from

  /** Message `m` is on its way to call `c`, held by it, or returned. */
  ghost predicate Tells(s: State, c: CallId, m: Message) {
    || (m.request in s.flights && s.flights[m.request] == Flight(c, m))
    || (c in s.calls && Has(s.calls[c], m))
  }

  predicate Has(call: Call, m: Message) {
    call.message == Some(m) || (call.phase.Leaving? && call.phase.message == Some(m))
    || call.phase == Finished(Answer(m))
  }

  /** Step `l` finds the entry of a request of call `c` and sends it message `m`: a response that was
      received, the loss of the connection the request was made on, or a close. */
  ghost predicate Sends(s: State, l: Label, c: CallId, m: Message) {
    && m.request in s.pending && s.pending[m.request] == c && m.request in s.issued
    && match l
       case Receive(_, r, body) => m == Reply(r, body)
       case ReaderDrops(g) => m.LinkLost? && s.issued[m.request].generation == g
       case CallDrops(d) => m.LinkLost? && d in s.calls && s.issued[m.request].generation == s.calls[d].generation
       case CloseDrops(_) => m.ClientClosed?
       case _ => false
  }

  /** Exactly such a step tells a call something new. */
  lemma {:induction false} StepSends(s: State, l: Label, c: CallId, m: Message)
    requires Inv(s) && Enabled(s, l) && !Tells(s, c, m)
    ensures Tells(Apply(s, l), c, m) <==> Sends(s, l, c, m)
  {
    assert m.request in s.pending ==> PendingOk(s, m.request);
    if l.OfCall() && !l.CallDrops? {
      CallTellsNone(s, l, c, m);
    } else if l.CallDrops? {
      CallDropTells(s, l.call, c, m);
    } else {
      OtherTells(s, l, c, m);
    }
  }

  lemma {:induction false} CallTellsNone(s: State, l: Label, c: CallId, m: Message)
    requires Enabled(s, l) && l.OfCall() && !l.CallDrops? && !Tells(s, c, m)
    ensures !Tells(Apply(s, l), c, m)
  {
    CallKeeps(s, l);
  }

  lemma {:induction false} CallDropTells(s: State, d: CallId, c: CallId, m: Message)
    requires Inv(s) && Enabled(s, CallDrops(d)) && !Tells(s, c, m)
    requires m.request in s.pending ==> PendingOk(s, m.request)
    ensures Tells(Apply(s, CallDrops(d)), c, m) <==> Sends(s, CallDrops(d), c, m)
  {
    assert CallOk(s, d);
    DropTells(s, s.calls[d].phase.socket, s.calls[d].generation, c, m);
  }

  /** Retiring a connection tells the calls that ride it of the loss, and no others. */
  lemma {:induction false} DropTells(s: State, socket: SocketId, g: nat, c: CallId, m: Message)
    requires Inv(s) && SocketOf(s, g, socket) && !Tells(s, c, m)
    requires m.request in s.pending ==> PendingOk(s, m.request)
    ensures Tells(Drop(s, Some(socket), Some(g)), c, m) <==>
              && m.request in s.pending && s.pending[m.request] == c && m.LinkLost?
              && s.issued[m.request].generation == g
  {
    DropIs(s, g, socket);
  }

  lemma {:induction false} OtherTells(s: State, l: Label, c: CallId, m: Message)
    requires Inv(s) && Enabled(s, l) && !l.OfCall() && !Tells(s, c, m)
    requires m.request in s.pending ==> PendingOk(s, m.request)
    ensures Tells(Apply(s, l), c, m) <==> Sends(s, l, c, m)
  {
    match l
    case Deliver(r) => DeliveryTells(s, r, c, m);
    case Receive(g, r, body) => ReceiptTells(s, g, r, body, c, m);
    case ReaderDrops(g) => DropTells(s, s.readers[g].socket, g, c, m);
    case CloseDrops(k) => CloseTells(s, k, c, m);
    case _ => QuietStep(s, l);
  }

  /** The remaining steps reach no call. */
  lemma {:induction false} QuietStep(s: State, l: Label)
    requires Enabled(s, l) && !l.OfCall() && !l.Deliver? && !l.Receive? && !l.ReaderDrops? && !l.CloseDrops?
    ensures Apply(s, l).calls == s.calls && Apply(s, l).flights == s.flights
  {
    if l.OfReader() { QuietReader(s, l); } else { QuietLink(s, l); }
  }

  lemma {:induction false} QuietReader(s: State, l: Label)
    requires Enabled(s, l) && l.OfReader() && !l.Receive? && !l.ReaderDrops?
    ensures Apply(s, l).calls == s.calls && Apply(s, l).flights == s.flights
  {
    assert l.reader in s.readers;
  }

  lemma {:induction false} QuietLink(s: State, l: Label)
    requires Enabled(s, l) && l.OfLink() && !l.Deliver? && !l.CloseDrops?
    ensures Apply(s, l).calls == s.calls && Apply(s, l).flights == s.flights
  {
  }

  lemma {:induction false} ReceiptTells(s: State, g: nat, r: RequestId, body: int, c: CallId, m: Message)
    requires Inv(s) && Enabled(s, Receive(g, r, body)) && !Tells(s, c, m)
    requires m.request in s.pending ==> PendingOk(s, m.request)
    ensures Tells(Apply(s, Receive(g, r, body)), c, m) <==> Sends(s, Receive(g, r, body), c, m)
  {
  }

  lemma {:induction false} CloseTells(s: State, k: CloserId, c: CallId, m: Message)
    requires Inv(s) && Enabled(s, CloseDrops(k)) && !Tells(s, c, m)
    requires m.request in s.pending ==> PendingOk(s, m.request)
    ensures Tells(Apply(s, CloseDrops(k)), c, m) <==> Sends(s, CloseDrops(k), c, m)
  {
    CloseDropIs(s, s.closers[k]);
  }

  lemma {:induction false} DeliveryTells(s: State, r: RequestId, c: CallId, m: Message)
    requires Inv(s) && Enabled(s, Deliver(r)) && !Tells(s, c, m)
    ensures !Tells(Apply(s, Deliver(r)), c, m)
  {
    assert FlightOk(s, r);
  }

  /** Step `i` of the run sent call `c` message `m`. */
  ghost predicate SentAt(run: seq<State>, i: nat, c: CallId, m: Message)
    requires i + 1 < |run|
  {
    exists l :: Enabled(run[i], l) && run[i + 1] == Apply(run[i], l) && Sends(run[i], l, c, m)
  }

  /** Whatever a call is told was sent to it by some step of the run: a reply is a response that was
      received while the call's entry was there, word for word; a loss is that of the connection the
      request was made on; and the news of a close comes from a close. */
  lemma {:induction false} MessageHasCause(run: seq<State>, k: nat, c: CallId, m: Message)
    requires Run(run) && k < |run| && Tells(run[k], c, m)
    ensures exists i :: 0 <= i < k && SentAt(run, i, c, m)
    decreases k
  {
    if k > 0 {
      if Tells(run[k - 1], c, m) {
        MessageHasCause(run, k - 1, c, m);
      } else {
        var l := StepLabel(run, k - 1);
        StepSends(run[k - 1], l, c, m);
        assert SentAt(run, k - 1, c, m);
      }
    }
  }

  /** The step between two states of a run. */
  lemma {:induction false} StepLabel(run: seq<State>, i: nat) returns (l: Label)
    requires Run(run) && i + 1 < |run|
    ensures Inv(run[i]) && Enabled(run[i], l) && run[i + 1] == Apply(run[i], l)
  {
    RunInv(run, i);
    RunStep(run, i);
    l :| Enabled(run[i], l) && run[i + 1] == Apply(run[i], l);
  }

  // ----- what a call returns

  /** Step `l` ends call `c` with `result`. */
  ghost predicate Ends(s: State, l: Label, c: CallId, result: Result) {
    c in s.calls &&
    var p := s.calls[c].phase;
    match l
    case Leave(d) => d == c && p.Leaving? && result == if p.message.Some? then Answer(p.message.value) else TimedOut
    case Miss(d) => d == c && p == Trying(2) && result == NotConnected
    case Refuse(d) => d == c && p.Trying? && result == Refused
    case CallDrops(d) => d == c && p.Unlinked? && p.attempt == 2 && result == SendFailed
    case _ => false
  }

  lemma {:induction false} StepEnds(s: State, l: Label, c: CallId)
    requires Inv(s) && Enabled(s, l) && (c in s.calls ==> !s.calls[c].phase.Finished?)
    requires c in Apply(s, l).calls && Apply(s, l).calls[c].phase.Finished?
    ensures Ends(s, l, c, Apply(s, l).calls[c].phase.result)
  {
    assert c in s.calls ==> CallOk(s, c);
    if !l.OfCall() { OthersKeepPhase(s, l, c); }
    else if l.CallDrops? { DropEnds(s, l.call, c); }
    else { CallEnds(s, l, c); }
  }

  lemma {:induction false} OthersKeepPhase(s: State, l: Label, c: CallId)
    requires Enabled(s, l) && !l.OfCall()
    ensures c in Apply(s, l).calls <==> c in s.calls
    ensures c in s.calls ==> Apply(s, l).calls[c].phase == s.calls[c].phase
  {
    if !l.Deliver? { OthersKeepCalls(s, l); }
  }

  lemma {:induction false} OthersKeepCalls(s: State, l: Label)
    requires Enabled(s, l) && !l.OfCall() && !l.Deliver?
    ensures Apply(s, l).calls == s.calls
  {
    if !l.Receive? && !l.ReaderDrops? && !l.CloseDrops? { QuietStep(s, l); }
  }

  lemma {:induction false} DropEnds(s: State, d: CallId, c: CallId)
    requires Enabled(s, CallDrops(d)) && (c in s.calls ==> CallOk(s, c) && !s.calls[c].phase.Finished?)
    requires c in Apply(s, CallDrops(d)).calls && Apply(s, CallDrops(d)).calls[c].phase.Finished?
    ensures Ends(s, CallDrops(d), c, Apply(s, CallDrops(d)).calls[c].phase.result)
  {
  }

  lemma {:induction false} CallEnds(s: State, l: Label, c: CallId)
    requires Enabled(s, l) && l.OfCall() && !l.CallDrops?
    requires c in s.calls ==> CallOk(s, c) && !s.calls[c].phase.Finished?
    requires c in Apply(s, l).calls && Apply(s, l).calls[c].phase.Finished?
    ensures Ends(s, l, c, Apply(s, l).calls[c].phase.result)
  {
    CallKeeps(s, l);
    assert l.call == c;
    if !l.Leave? && !l.Miss? && !l.Refuse? { GoesOn(s, l); }
  }

  /** The other steps of a call do not end it. */
  lemma {:induction false} GoesOn(s: State, l: Label)
    requires Enabled(s, l) && l.OfCall() && !l.CallDrops? && !l.Leave? && !l.Miss? && !l.Refuse?
    ensures l.call in Apply(s, l).calls && !Apply(s, l).calls[l.call].phase.Finished?
  {
  }

  lemma {:induction false} StaysFinished(s: State, l: Label, c: CallId)
    requires Enabled(s, l) && c in s.calls && s.calls[c].phase.Finished?
    ensures c in Apply(s, l).calls && Apply(s, l).calls[c].phase == s.calls[c].phase
  {
    if !l.OfCall() { OthersKeepPhase(s, l, c); }
  }

  ghost predicate EndedAt(run: seq<State>, i: nat, c: CallId, result: Result)
    requires i + 1 < |run|
  {
    exists l :: Enabled(run[i], l) && run[i + 1] == Apply(run[i], l) && Ends(run[i], l, c, result)
  }

  /** A call is over once: with the message it left with or a timeout; without a link twice; with a send
      that failed twice; or refused. */
  lemma {:induction false} ResultHasCause(run: seq<State>, k: nat, c: CallId)
    requires Run(run) && k < |run| && c in run[k].calls && run[k].calls[c].phase.Finished?
    ensures exists i :: 0 <= i < k && EndedAt(run, i, c, run[k].calls[c].phase.result)
    decreases k
  {
    if k > 0 {
      var l := StepLabel(run, k - 1);
      var s := run[k - 1];
      if c in s.calls && s.calls[c].phase.Finished? {
        StaysFinished(s, l, c);
        ResultHasCause(run, k - 1, c);
      } else {
        StepEnds(s, l, c);
        assert EndedAt(run, k - 1, c, run[k].calls[c].phase.result);
      }
    }
  }

  // ----- a rejected token

  /** Only a rejected token latches the refusal, and nothing takes it back. */
  lemma {:induction false} StepLatches(s: State, l: Label)
    requires Enabled(s, l)
    ensures Apply(s, l).authFailed <==> s.authFailed || l.TokenRejected?
  {
    if l.OfCall() { CallLatches(s, l); } else if l.OfReader() { ReaderLatches(s, l); }
  }

  lemma {:induction false} CallLatches(s: State, l: Label)
    requires Enabled(s, l) && l.OfCall()
    ensures Apply(s, l).authFailed == s.authFailed
  {
    if l.CallDrops? { DropLatches(s, l.call); }
  }

  lemma {:induction false} DropLatches(s: State, c: CallId)
    requires Enabled(s, CallDrops(c))
    ensures Apply(s, CallDrops(c)).authFailed == s.authFailed
  {
  }

  lemma {:induction false} ReaderLatches(s: State, l: Label)
    requires Enabled(s, l) && l.OfReader()
    ensures Apply(s, l).authFailed == s.authFailed
  {
  }

  /** A client that was refused stays refused and never connects again; and it was refused because its
      token was. */
  lemma {:induction false} RefusedForGood(run: seq<State>, i: nat, k: nat)
    requires Run(run) && i <= k < |run|
    ensures run[i].authFailed ==> run[k].authFailed && !Enabled(run[k], BeginConnect)
    ensures run[k].authFailed && !run[i].authFailed ==> exists j :: i <= j < k && RejectedAt(run, j)
    decreases k
  {
    if i < k {
      RefusedForGood(run, i, k - 1);
      var l := StepLabel(run, k - 1);
      StepLatches(run[k - 1], l);
      if l.TokenRejected? { assert RejectedAt(run, k - 1); }
    }
  }

  ghost predicate RejectedAt(run: seq<State>, j: nat)
    requires j + 1 < |run|
  {
    Enabled(run[j], TokenRejected) && run[j + 1] == Apply(run[j], TokenRejected)
  }
}
