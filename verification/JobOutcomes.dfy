/** What a job settles with and who is told, over every run of the job queue. */
module JobOutcomes {
  import opened Options
  import opened JobQueue
  import opened JobRuns

  // ----- where an outcome comes from

  /** Step `l` settles job `j`: its handler returned, its time ran out, or the queue is shutting down. */
  ghost predicate SettledBy(s: State, l: Label, j: JobId, outcome: Outcome)
    requires j in s.jobs
  {
    match l
    case Return(w, given) => w in s.workers && s.workers[w] == InHandler(j) && outcome == given
    case ReadExpire(i) => i == j && s.jobs[j].caller.Reading? && outcome == Raised(TimeoutError)
    case Abandon(i) => i == j && RanOut(s, j) && outcome == Raised(TimeoutError)
    case Recheck(w) =>
      w in s.workers && s.workers[w] == Taken(j) && s.stopping && outcome == Raised(ShutDownError)
    case DrainDone => s.shutdown == Draining(Some(Some(j))) && s.stopping && outcome == Raised(ShutDownError)
    case _ => false
  }

  /** The handler of `j` has run longer than the timeout. */
  ghost predicate RanOut(s: State, j: JobId)
    requires j in s.jobs
  {
    s.jobs[j].startedAt.Some? && s.clock - s.jobs[j].startedAt.value > s.timeout
  }

  /** A step settles a job if and only if it is one of those, and then with that outcome. */
  lemma {:induction false} StepSettles(s: State, l: Label, j: JobId)
    requires Local(s) && Enabled(s, l) && j in s.jobs && !s.jobs[j].Settled()
    ensures j in Apply(s, l).jobs
    ensures forall o :: SettledBy(s, l, j, o) ==> Apply(s, l).jobs[j].outcome == Some(o)
    ensures Apply(s, l).jobs[j].Settled() ==> SettledBy(s, l, j, Apply(s, l).jobs[j].outcome.value)
  {
    if l.OfWorker() { WorkerSettles(s, l, j); }
    else if l.OfCaller() { CallerSettles(s, l, j); }
    else if l.OfShutdown() { ShutdownSettles(s, l, j); }
    else { HouseSettles(s, l, j); }
  }

  lemma {:induction false} WorkerSettles(s: State, l: Label, j: JobId)
    requires Local(s) && Enabled(s, l) && l.OfWorker() && j in s.jobs && !s.jobs[j].Settled()
    ensures j in Apply(s, l).jobs
    ensures forall o :: SettledBy(s, l, j, o) ==> Apply(s, l).jobs[j].outcome == Some(o)
    ensures Apply(s, l).jobs[j].Settled() ==> SettledBy(s, l, j, Apply(s, l).jobs[j].outcome.value)
  {
    if !l.Return? && !l.Recheck? { LoopSettlesNone(s, l, j); }
  }

  lemma {:induction false} LoopSettlesNone(s: State, l: Label, j: JobId)
    requires Enabled(s, l) && l.OfWorker() && !l.Return? && !l.Recheck? && j in s.jobs
    ensures j in Apply(s, l).jobs && Apply(s, l).jobs[j].outcome == s.jobs[j].outcome
  {
  }

  lemma {:induction false} CallerSettles(s: State, l: Label, j: JobId)
    requires Enabled(s, l) && l.OfCaller() && j in s.jobs && !s.jobs[j].Settled()
    ensures j in Apply(s, l).jobs
    ensures forall o :: SettledBy(s, l, j, o) ==> Apply(s, l).jobs[j].outcome == Some(o)
    ensures Apply(s, l).jobs[j].Settled() ==> SettledBy(s, l, j, Apply(s, l).jobs[j].outcome.value)
  {
    if !l.ReadExpire? { RequestSettlesNone(s, l, j); }
  }

  lemma {:induction false} RequestSettlesNone(s: State, l: Label, j: JobId)
    requires Enabled(s, l) && l.OfCaller() && !l.ReadExpire? && j in s.jobs
    ensures j in Apply(s, l).jobs && Apply(s, l).jobs[j].outcome == s.jobs[j].outcome
  {
  }

  lemma {:induction false} ShutdownSettles(s: State, l: Label, j: JobId)
    requires Local(s) && Enabled(s, l) && l.OfShutdown() && j in s.jobs && !s.jobs[j].Settled()
    ensures j in Apply(s, l).jobs
    ensures forall o :: SettledBy(s, l, j, o) ==> Apply(s, l).jobs[j].outcome == Some(o)
    ensures Apply(s, l).jobs[j].Settled() ==> SettledBy(s, l, j, Apply(s, l).jobs[j].outcome.value)
  {
    if !l.DrainDone? { TurnsSettleNone(s, l, j); }
  }

  lemma {:induction false} TurnsSettleNone(s: State, l: Label, j: JobId)
    requires Enabled(s, l) && l.OfShutdown() && !l.DrainDone? && j in s.jobs
    ensures j in Apply(s, l).jobs && Apply(s, l).jobs[j].outcome == s.jobs[j].outcome
  {
  }

  lemma {:induction false} HouseSettles(s: State, l: Label, j: JobId)
    requires Local(s) && Enabled(s, l) && !l.OfWorker() && !l.OfCaller() && !l.OfShutdown()
    requires j in s.jobs && !s.jobs[j].Settled()
    ensures j in Apply(s, l).jobs
    ensures forall o :: SettledBy(s, l, j, o) ==> Apply(s, l).jobs[j].outcome == Some(o)
    ensures Apply(s, l).jobs[j].Settled() ==> SettledBy(s, l, j, Apply(s, l).jobs[j].outcome.value)
  {
  }

  /** Step `i` of the run is the one that settled `j` with `outcome`. */
  ghost predicate SettledAt(run: seq<State>, i: nat, j: JobId, outcome: Outcome)
    requires i + 1 < |run|
  {
    && j in run[i].jobs && !run[i].jobs[j].Settled()
    && exists l :: Enabled(run[i], l) && run[i + 1] == Apply(run[i], l) && SettledBy(run[i], l, j, outcome)
  }

  /** A settled job has the outcome its handler returned, or a timeout that had passed, or the
      shutdown error of a queue that was stopping: some step of the run put it there. */
  lemma {:induction false} OutcomeHasCause(run: seq<State>, k: nat, j: JobId)
    requires Run(run) && k < |run| && j in run[k].jobs && run[k].jobs[j].Settled()
    ensures exists i :: 0 <= i < k && SettledAt(run, i, j, run[k].jobs[j].outcome.value)
    decreases k
  {
    CauseBefore(run, k, j);
    if j in run[k - 1].jobs && run[k - 1].jobs[j].Settled() {
      OutcomeHasCause(run, k - 1, j);
    }
  }

  lemma {:induction false} CauseBefore(run: seq<State>, k: nat, j: JobId)
    requires Run(run) && k < |run| && j in run[k].jobs && run[k].jobs[j].Settled()
    ensures k > 0
    ensures var o := run[k].jobs[j].outcome.value;
      || SettledAt(run, k - 1, j, o)
      || (j in run[k - 1].jobs && run[k - 1].jobs[j].outcome == Some(o))
  {
    if k > 0 {
      var l := StepLabel(run, k - 1);
      if j !in run[k - 1].jobs {
        NewJob(run[k - 1], l, j);
      } else if run[k - 1].jobs[j].Settled() {
        SettlesOnce(run, k - 1, k, j);
      } else {
        StepSettles(run[k - 1], l, j);
      }
    }
  }

  /** The step between two states of a run. */
  lemma {:induction false} StepLabel(run: seq<State>, i: nat) returns (l: Label)
    requires Run(run) && i + 1 < |run|
    ensures Local(run[i]) && Enabled(run[i], l) && run[i + 1] == Apply(run[i], l)
  {
    RunInv(run, i);
    RunStep(run, i);
    l :| Enabled(run[i], l) && run[i + 1] == Apply(run[i], l);
  }

  /** A job that was not there was submitted: it waits in the queue, and its caller as asked for. */
  lemma {:induction false} NewJob(s: State, l: Label, j: JobId)
    requires Enabled(s, l) && j !in s.jobs && j in Apply(s, l).jobs
    ensures l.Submit? && l.job == j
    ensures Apply(s, l).jobs[j]
         == Job(Queued, None, false, false, None, if l.persist then Inline else Reading, 0, InQueue, 0, 0)
  {
    if l.OfWorker() { WorkerAddsNone(s, l, j); }
    else if l.OfShutdown() { ShutdownAddsNone(s, l, j); }
    else if l.OfCaller() { CallerAdds(s, l, j); }
  }

  lemma {:induction false} WorkerAddsNone(s: State, l: Label, j: JobId)
    requires Enabled(s, l) && l.OfWorker() && j !in s.jobs
    ensures j !in Apply(s, l).jobs
  {
  }

  lemma {:induction false} ShutdownAddsNone(s: State, l: Label, j: JobId)
    requires Enabled(s, l) && l.OfShutdown() && j !in s.jobs
    ensures j !in Apply(s, l).jobs
  {
  }

  lemma {:induction false} CallerAdds(s: State, l: Label, j: JobId)
    requires Enabled(s, l) && l.OfCaller() && j !in s.jobs && j in Apply(s, l).jobs
    ensures l.Submit? && l.job == j
    ensures Apply(s, l).jobs[j]
         == Job(Queued, None, false, false, None, if l.persist then Inline else Reading, 0, InQueue, 0, 0)
  {
  }

  // ----- when a job was started

  /** Step `i` of the run is the one that started `j`: a worker that had looked at the stop flag
      again went into its handler. */
  ghost predicate StartedAt(run: seq<State>, i: nat, j: JobId)
    requires i + 1 < |run|
  {
    && j in run[i].jobs && run[i].jobs[j].startedAt.None? && !run[i].jobs[j].Settled()
    && exists w {:trigger Start(w)} :: Enabled(run[i], Start(w)) && run[i].workers[w] == Ready(j)
                                       && run[i + 1] == Apply(run[i], Start(w))
  }

  lemma {:induction false} StepStarts(s: State, l: Label, j: JobId)
    requires Local(s) && Enabled(s, l) && j in s.jobs
    ensures j in Apply(s, l).jobs
    ensures Apply(s, l).jobs[j].startedAt != s.jobs[j].startedAt ==>
              && l.Start? && s.workers[l.worker] == Ready(j) && !s.jobs[j].Settled()
              && s.jobs[j].startedAt.None? && Apply(s, l).jobs[j].startedAt == Some(s.clock)
  {
    if l.OfWorker() { WorkerStarts(s, l, j); }
    else if l.OfShutdown() { ShutdownKeepsCaller(s, l, j); }
    else if l.OfCaller() { CallerStartsNone(s, l, j); }
  }

  lemma {:induction false} WorkerStarts(s: State, l: Label, j: JobId)
    requires Local(s) && Enabled(s, l) && l.OfWorker() && j in s.jobs
    ensures j in Apply(s, l).jobs
    ensures Apply(s, l).jobs[j].startedAt != s.jobs[j].startedAt ==>
              && l.Start? && s.workers[l.worker] == Ready(j) && !s.jobs[j].Settled()
              && s.jobs[j].startedAt.None? && Apply(s, l).jobs[j].startedAt == Some(s.clock)
  {
    assert WorkerOk(s, l.worker);
  }

  lemma {:induction false} CallerStartsNone(s: State, l: Label, j: JobId)
    requires Enabled(s, l) && l.OfCaller() && j in s.jobs
    ensures j in Apply(s, l).jobs && Apply(s, l).jobs[j].startedAt == s.jobs[j].startedAt
  {
  }

  /** A start time on a job is the clock of the step that started it. */
  lemma {:induction false} StartHasCause(run: seq<State>, k: nat, j: JobId)
    requires Run(run) && k < |run| && j in run[k].jobs && run[k].jobs[j].startedAt.Some?
    ensures exists i :: 0 <= i < k && StartedAt(run, i, j) && run[k].jobs[j].startedAt == Some(run[i].clock)
    decreases k
  {
    StartBefore(run, k, j);
    if j in run[k - 1].jobs && run[k - 1].jobs[j].startedAt == run[k].jobs[j].startedAt {
      StartHasCause(run, k - 1, j);
    }
  }

  lemma {:induction false} StartBefore(run: seq<State>, k: nat, j: JobId)
    requires Run(run) && k < |run| && j in run[k].jobs && run[k].jobs[j].startedAt.Some?
    ensures k > 0
    ensures || (StartedAt(run, k - 1, j) && run[k].jobs[j].startedAt == Some(run[k - 1].clock))
            || (j in run[k - 1].jobs && run[k - 1].jobs[j].startedAt == run[k].jobs[j].startedAt)
  {
    if k > 0 {
      var l := StepLabel(run, k - 1);
      if j !in run[k - 1].jobs { NewJob(run[k - 1], l, j); } else { StepStarts(run[k - 1], l, j); }
    }
  }

  /** The watchdog only gives up on a job that was started more than the timeout ago. */
  lemma {:induction false} WatchdogIsPatient(run: seq<State>, k: nat, j: JobId)
    requires Run(run) && k < |run| && Enabled(run[k], Abandon(j))
    ensures exists i :: 0 <= i < k && StartedAt(run, i, j) && run[k].clock - run[i].clock > run[k].timeout
  {
    RunInv(run, k);
    StartHasCause(run, k, j);
  }

  /** And it does give up on every such job: its next pass settles it with a timeout. */
  lemma {:induction false} WatchdogGivesUp(start: seq<State>, j: JobId) returns (run: seq<State>)
    requires Run(start) && j in Last(start).jobs && RanOut(Last(start), j) && !Last(start).jobs[j].Settled()
    ensures Run(run) && j in Last(run).jobs && Last(run).jobs[j].outcome == Some(Raised(TimeoutError))
    ensures Last(run).jobs[j].status == Failed
  {
    RunInv(start, |start| - 1);
    assert JobOk(Last(start), j);
    assert WorkerOk(Last(start), Last(start).jobs[j].runner);
    run := Extend(start, Scan);
    run := Extend(run, Abandon(j));
  }

  // ----- who is told

  /** What a handler returns is what its job's caller is answered, if it still waits. */
  lemma {:induction false} HandlerAnswersCaller(start: seq<State>, w: WorkerId, j: JobId, o: Outcome)
      returns (run: seq<State>)
    requires Run(start) && w in Last(start).workers && Last(start).workers[w] == InHandler(j)
    requires j in Last(start).jobs && !Last(start).jobs[j].Settled()
    requires Last(start).jobs[j].caller.Reading? || Last(start).jobs[j].caller.Inline?
    ensures Run(run) && j in Last(run).jobs && Last(run).jobs[j].caller == Answered(o)
    ensures Last(run).jobs[j].status == if o.Value? then Done else Failed
  {
    run := Extend(start, Return(w, o));
    run := Extend(run, AnswerDone(j));
  }

  /** A request that only reads waits for its answer or raises; one that may be polled waits inline
      and may then be given the job's id. */
  predicate Serves(caller: Caller, persist: bool) {
    caller.Answered? || if persist then caller.Inline? || caller.Claimed? || caller.GotId?
                        else caller.Reading? || caller.Expired? || caller.Discarded? || caller.TimedOut?
  }

  lemma {:induction false} StepServes(s: State, l: Label, j: JobId, persist: bool)
    requires Enabled(s, l) && j in s.jobs && Serves(s.jobs[j].caller, persist)
    ensures j in Apply(s, l).jobs && Serves(Apply(s, l).jobs[j].caller, persist)
  {
    if l.OfCaller() { CallerServes(s, l, j, persist); } else { OthersKeepCaller(s, l, j); }
  }

  lemma {:induction false} CallerServes(s: State, l: Label, j: JobId, persist: bool)
    requires Enabled(s, l) && l.OfCaller() && j in s.jobs && Serves(s.jobs[j].caller, persist)
    ensures j in Apply(s, l).jobs && Serves(Apply(s, l).jobs[j].caller, persist)
  {
    if l.ReadExpire? || l.ReadDiscard? { ReadServes(s, l, j, persist); }
  }

  lemma {:induction false} ReadServes(s: State, l: Label, j: JobId, persist: bool)
    requires Enabled(s, l) && (l.ReadExpire? || l.ReadDiscard?) && j in s.jobs && Serves(s.jobs[j].caller, persist)
    ensures j in Apply(s, l).jobs && Serves(Apply(s, l).jobs[j].caller, persist)
  {
  }

  lemma {:induction false} KeepsServing(run: seq<State>, i: nat, k: nat, j: JobId, persist: bool)
    requires Run(run) && i <= k < |run| && j in run[i].jobs && Serves(run[i].jobs[j].caller, persist)
    ensures j in run[k].jobs && Serves(run[k].jobs[j].caller, persist)
    decreases k
  {
    if i < k {
      KeepsServing(run, i, k - 1, j, persist);
      var l := StepLabel(run, k - 1);
      StepServes(run[k - 1], l, j, persist);
    }
  }

  /** A read is never handed an id, and its job is never marked for polling; a job that may be
      polled is never given up by its caller; and a caller that was answered leaves no record. */
  lemma {:induction false} ServedAsSubmitted(run: seq<State>, i: nat, k: nat, j: JobId, persist: bool)
    requires Run(run) && i < k < |run| && Enabled(run[i], Submit(j, persist))
    requires run[i + 1] == Apply(run[i], Submit(j, persist))
    ensures j in run[k].jobs && Serves(run[k].jobs[j].caller, persist)
    ensures !persist ==> !run[k].jobs[j].persisted
    ensures var caller := run[k].jobs[j].caller;
      caller.Answered? || caller.TimedOut? ==> run[k].jobs[j].Settled() && j !in run[k].registry
  {
    KeepsServing(run, i + 1, k, j, persist);
    RunInv(run, k);
    assert JobOk(run[k], j);
  }
}
