/** Shutdown wakes every worker that waits for a job, as long as its last sweep does not come first. */
module JobShutdown {
  import opened Options
  import opened JobQueue
  import opened JobRuns
  import opened JobOutcomes

  /** The workers that are blocked until something is queued. */
  ghost function Waiters(s: State): set<WorkerId> { set w | w in s.workers && s.workers[w].Waiting? }

  /** Until the sweep there is a marker, in the queue or still to come, for every worker that waits. */
  ghost predicate Enough(s: State) {
    && (s.shutdown.Draining? ==> |Waiters(s)| <= s.markers)
    && (s.shutdown.Posting? ==> |Waiters(s)| <= |s.queue| + s.markers)
  }

  /** Once the stop flag is set, no worker begins to wait. */
  lemma {:induction false} NoneBegins(s: State, l: Label)
    requires Local(s) && Enabled(s, l) && s.stopping
    ensures Waiters(Apply(s, l)) <= Waiters(s)
    ensures l.Get? ==> Waiters(Apply(s, l)) == Waiters(s) - {l.worker} && l.worker in Waiters(s)
  {
    if l.OfWorker() { WorkerBegins(s, l); }
    else if l.OfShutdown() { ShutdownKeepsWorkers(s, l); }
    else if l.OfCaller() { CallerKeepsWorkers(s, l); }
    else { HouseKeepsWorkers(s, l); }
  }

  lemma {:induction false} WorkerBegins(s: State, l: Label)
    requires Enabled(s, l) && l.OfWorker() && s.stopping
    ensures Waiters(Apply(s, l)) <= Waiters(s)
    ensures l.Get? ==> Waiters(Apply(s, l)) == Waiters(s) - {l.worker} && l.worker in Waiters(s)
  {
  }

  lemma {:induction false} ShutdownKeepsWorkers(s: State, l: Label)
    requires Enabled(s, l) && l.OfShutdown() && s.stopping
    ensures Apply(s, l).workers == s.workers
  {
  }

  lemma {:induction false} CallerKeepsWorkers(s: State, l: Label)
    requires Enabled(s, l) && l.OfCaller() && s.stopping
    ensures Apply(s, l).workers == s.workers
  {
  }

  lemma {:induction false} HouseKeepsWorkers(s: State, l: Label)
    requires Enabled(s, l) && !l.OfWorker() && !l.OfShutdown() && !l.OfCaller() && s.stopping
    ensures Apply(s, l).workers == s.workers
  {
  }

  lemma {:induction false} Fewer(a: set<WorkerId>, b: set<WorkerId>)
    requires a <= b
    ensures |a| <= |b|
  {
    assert b == a + (b - a);
  }

  /** What the steps do to the queue and the markers while shutdown posts them. */
  lemma {:induction false} PostingStep(s: State, l: Label)
    requires Local(s) && Enabled(s, l) && s.shutdown.Posting?
    ensures var t := Apply(s, l);
      |t.queue| + t.markers == |s.queue| + s.markers - if l.Get? then 1 else 0
  {
    if l.ReadDiscard? { DiscardsNone(s, l.job); }
  }

  lemma {:induction false} DiscardsNone(s: State, j: JobId)
    requires Local(s) && Enabled(s, ReadDiscard(j)) && s.shutdown.Posting?
    ensures Apply(s, ReadDiscard(j)).queue == s.queue && Apply(s, ReadDiscard(j)).markers == s.markers
  {
    assert Some(j) !in s.queue;
  }

  lemma {:induction false} EnoughStep(s: State, l: Label)
    requires Local(s) && Enabled(s, l) && Enough(s)
    ensures Enough(Apply(s, l))
  {
    var t := Apply(s, l);
    if s.stopping {
      NoneBegins(s, l);
      Fewer(Waiters(t), Waiters(s));
      if s.shutdown.Posting? { PostingStep(s, l); }
      if s.shutdown.Draining? { DrainingStep(s, l); }
      if !s.shutdown.Posting? && !s.shutdown.Draining? { StaysDrained(s, l); }
    } else if l.Stop? {
      Fewer(Waiters(t), Active(s));
    } else {
      NotCalledYet(s, l);
    }
  }

  lemma {:induction false} DrainingStep(s: State, l: Label)
    requires Enabled(s, l) && s.shutdown.Draining?
    ensures Apply(s, l).markers == s.markers
    ensures Apply(s, l).shutdown.Draining? || Apply(s, l).shutdown.Posting?
  {
  }

  lemma {:induction false} StaysDrained(s: State, l: Label)
    requires Enabled(s, l) && (s.shutdown.Sweeping? || s.shutdown.Finished?)
    ensures Apply(s, l).shutdown.Sweeping? || Apply(s, l).shutdown.Finished?
  {
    if !l.OfShutdown() { OthersKeepShutdown(s, l); }
  }

  lemma {:induction false} NotCalledYet(s: State, l: Label)
    requires Local(s) && Enabled(s, l) && !s.stopping && !l.Stop?
    ensures Apply(s, l).shutdown.NotCalled?
  {
    if !l.OfShutdown() { OthersKeepShutdown(s, l); }
  }

  lemma {:induction false} RunHasEnough(run: seq<State>, i: nat)
    requires Run(run) && i < |run|
    ensures Enough(run[i])
    decreases i
  {
    if i > 0 {
      RunHasEnough(run, i - 1);
      var l := StepLabel(run, i - 1);
      EnoughStep(run[i - 1], l);
    }
  }

  /** When all markers are posted, each worker that still waits has one of its own in the queue. */
  lemma {:induction false} WaitersAreWoken(run: seq<State>, i: nat)
    requires Run(run) && i < |run| && Enabled(run[i], PostDone)
    ensures |Waiters(run[i])| <= |run[i].queue| && forall x :: x in run[i].queue ==> x.None?
  {
    RunHasEnough(run, i);
    RunInv(run, i);
  }

  /** No worker that does not wait when the stop flag is set ever waits again. */
  lemma {:induction false} NoneWaitsAgain(run: seq<State>, i: nat, k: nat)
    requires Run(run) && i <= k < |run| && run[i].stopping
    ensures Waiters(run[k]) <= Waiters(run[i]) && run[k].stopping
    decreases k
  {
    RunGrows(run, i, k);
    if i < k {
      NoneWaitsAgain(run, i, k - 1);
      var l := StepLabel(run, k - 1);
      NoneBegins(run[k - 1], l);
    }
  }

  /** The sweep can take every marker before a worker that waits wakes up. */
  lemma {:induction false} SweepsAll(start: seq<State>, w: WorkerId) returns (run: seq<State>)
    requires Run(start) && Last(start).shutdown == Sweeping(None) && w in Waiters(Last(start))
    ensures Run(run) && start <= run && LeftWaiting(Last(run), w)
    decreases |Last(start).queue|
  {
    if Last(start).queue == [] {
      run := Extend(start, SweepEmpty);
    } else {
      run := SweepsOne(start, w);
      run := SweepsAll(run, w);
    }
  }

  lemma {:induction false} SweepsOne(start: seq<State>, w: WorkerId) returns (run: seq<State>)
    requires Run(start) && Last(start).shutdown == Sweeping(None) && w in Waiters(Last(start))
    requires Last(start).queue != []
    ensures Run(run) && start <= run && Last(run).shutdown == Sweeping(None) && w in Waiters(Last(run))
    ensures |Last(run).queue| < |Last(start).queue|
  {
    run := Extend(start, SweepGet);
    RunInv(run, |run| - 1);
    run := Extend(run, SweepDone);
  }

  /** Shutdown is over, and the worker waits for a marker that will not come. */
  ghost predicate LeftWaiting(s: State, w: WorkerId) {
    s.shutdown.Finished? && s.queue == [] && w in Waiters(s)
  }

  /** A worker may be left waiting if and only if it still waits when the sweep begins. */
  lemma {:induction false} StrandedExactly(start: seq<State>, w: WorkerId)
    requires Run(start) && Enabled(Last(start), PostDone)
    ensures (exists run :: Run(run) && start <= run && LeftWaiting(Last(run), w)) <==> w in Waiters(Last(start))
  {
    RunInv(start, |start| - 1);
    if run :| Run(run) && start <= run && LeftWaiting(Last(run), w) {
      NoneWaitsAgain(run, |start| - 1, |run| - 1);
    }
    if w in Waiters(Last(start)) {
      var run := Extend(start, PostDone);
      run := SweepsAll(run, w);
    }
  }

  /** One worker waits, there is no job, and shutdown has come to `stage`. */
  ghost predicate Alone(s: State, queue: seq<Option<JobId>>, stage: Shutdown, markers: nat) {
    s.workers == map[0 := Waiting] && s.queue == queue && s.shutdown == stage && s.markers == markers
  }

  lemma {:induction false} AloneStops(waits: seq<State>) returns (run: seq<State>)
    requires Run(waits) && Alone(Last(waits), [], NotCalled, 0)
    ensures Run(run) && Alone(Last(run), [], Draining(None), 1)
  {
    assert Active(Last(waits)) == {0};
    run := Extend(waits, Stop);
  }

  lemma {:induction false} AloneWaits() returns (run: seq<State>)
    ensures Run(run) && Alone(Last(run), [], NotCalled, 0)
  {
    run := [State(1, 1, 0, map[], {}, {}, [], 0, map[0 := AtHead], 1, 0, false, NotCalled, 0, {}, {})];
    run := Extend(run, TestStop(0));
  }

  /** And one that is slow to wake is left waiting, in a run from the start. */
  lemma {:induction false} SweepMayStrand() returns (run: seq<State>)
    ensures Run(run) && LeftWaiting(Last(run), 0)
  {
    run := AloneWaits();
    run := AloneStops(run);
    run := Extend(run, DrainEmpty);
    assert Alone(Last(run), [], Posting, 1);
    run := Extend(run, Post);
    assert Alone(Last(run), [None], Posting, 0);
    run := Extend(run, PostDone);
    run := SweepsAll(run, 0);
  }
}
