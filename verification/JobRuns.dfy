/** What holds in every run of the job queue's steps, whatever their order. */
module JobRuns {
  import opened Options
  import opened JobQueue

  ghost predicate Inv(s: State) { Local(s) && Counted(s) }

  lemma {:induction false} InitInv(s: State)
    requires Init(s)
    ensures Inv(s)
  {
    assert Active(s) == s.workers.Keys && Stuck(s) == {} && Owing(s) == {};
    Numbered(s.workers.Keys, s.limit);
  }

  lemma {:induction false} Numbered(a: set<nat>, n: nat)
    requires forall w: nat :: w in a <==> w < n
    ensures |a| == n
  {
    if n == 0 {
      assert a == {};
    } else {
      Numbered(a - {n - 1}, n - 1);
    }
  }

  ghost predicate Step(s: State, s': State) {
    exists l :: Enabled(s, l) && s' == Apply(s, l)
  }

  lemma {:induction false} StepInv(s: State, s': State)
    requires Inv(s) && Step(s, s')
    ensures Inv(s')
  {
    var l :| Enabled(s, l) && s' == Apply(s, l);
    LocalStep(s, l);
    CountStep(s, l);
  }

  /** A run: any interleaving of steps from an initial state. */
  ghost predicate Run(run: seq<State>) {
    && run != [] && Init(run[0])
    && forall i {:trigger Step(run[i], run[i + 1])} :: 0 <= i < |run| - 1 ==> Step(run[i], run[i + 1])
  }

  lemma {:induction false} RunStep(run: seq<State>, i: nat)
    requires Run(run) && i + 1 < |run|
    ensures Step(run[i], run[i + 1])
  {
  }

  lemma {:induction false} RunInv(run: seq<State>, i: nat)
    requires Run(run) && i < |run|
    ensures Inv(run[i])
    decreases i
  {
    if i == 0 {
      InitInv(run[0]);
    } else {
      RunInv(run, i - 1);
      NextInv(run, i - 1);
    }
  }

  lemma {:induction false} NextInv(run: seq<State>, i: nat)
    requires Run(run) && i + 1 < |run| && Inv(run[i])
    ensures Inv(run[i + 1])
  {
    RunStep(run, i);
    StepInv(run[i], run[i + 1]);
  }

  /** What no step undoes in a job: an outcome, a claim, a count, a reply. */
  ghost predicate Kept(job: Job, job': Job) {
    && (job.Settled() ==>
          && job'.outcome == job.outcome && job'.status == job.status
          && job'.persisted == job.persisted && job'.abandoned == job.abandoned)
    && (job.persisted ==> job'.persisted)
    && job.finishes <= job'.finishes && job.completions <= job'.completions
    && (job.caller.Answered? || job.caller.TimedOut? || job.caller.GotId? ==> job'.caller == job.caller)
  }

  ghost predicate JobsGrow(s: State, s': State) {
    && (s.stopping ==> s'.stopping) && s.limit == s'.limit && s.jobs.Keys <= s'.jobs.Keys
    && forall j {:trigger Kept(s.jobs[j], s'.jobs[j])} :: j in s.jobs ==> Kept(s.jobs[j], s'.jobs[j])
  }

  ghost predicate StaysRetired(s: State, s': State, w: WorkerId) {
    w in s.workers && s.workers[w].Retired? ==> w in s'.workers && s'.workers[w].Retired?
  }

  /** What no step undoes. */
  ghost predicate Grows(s: State, s': State) {
    && JobsGrow(s, s') && (s.shutdown.Drained() ==> s'.shutdown.Drained())
    && forall w {:trigger StaysRetired(s, s', w)} :: StaysRetired(s, s', w)
  }

  lemma {:induction false} CallerGrows(s: State, l: Label)
    requires Enabled(s, l) && l.OfCaller()
    ensures JobsGrow(s, Apply(s, l))
  {
    if l.ReadExpire? || l.ReadDiscard? { ReadGrows(s, l); } else { RequestGrows(s, l); }
  }

  lemma {:induction false} ReadGrows(s: State, l: Label)
    requires Enabled(s, l) && (l.ReadExpire? || l.ReadDiscard?)
    ensures JobsGrow(s, Apply(s, l))
  {
  }

  lemma {:induction false} RequestGrows(s: State, l: Label)
    requires Enabled(s, l) && l.OfCaller() && !l.ReadExpire? && !l.ReadDiscard?
    ensures JobsGrow(s, Apply(s, l))
  {
  }

  lemma {:induction false} WorkerGrows(s: State, l: Label)
    requires Enabled(s, l) && l.OfWorker()
    ensures JobsGrow(s, Apply(s, l))
  {
    if l.Recheck? || l.Start? || l.Return? { HandlerGrows(s, l); }
  }

  lemma {:induction false} HandlerGrows(s: State, l: Label)
    requires Enabled(s, l) && (l.Recheck? || l.Start? || l.Return?)
    ensures JobsGrow(s, Apply(s, l))
  {
  }

  lemma {:induction false} ShutdownGrows(s: State, l: Label)
    requires Enabled(s, l) && l.OfShutdown()
    ensures JobsGrow(s, Apply(s, l))
  {
    if l.DrainDone? { DrainGrows(s); } else if l.SweepDone? { SweepGrows(s); } else { TurnGrows(s, l); }
  }

  lemma {:induction false} DrainGrows(s: State)
    requires Enabled(s, DrainDone)
    ensures JobsGrow(s, Apply(s, DrainDone))
  {
  }

  lemma {:induction false} SweepGrows(s: State)
    requires Enabled(s, SweepDone)
    ensures JobsGrow(s, Apply(s, SweepDone))
  {
  }

  lemma {:induction false} TurnGrows(s: State, l: Label)
    requires Enabled(s, l) && l.OfShutdown() && !l.DrainDone? && !l.SweepDone?
    ensures JobsGrow(s, Apply(s, l))
  {
  }

  lemma {:induction false} HouseGrows(s: State, l: Label)
    requires Enabled(s, l) && !l.OfCaller() && !l.OfWorker() && !l.OfShutdown()
    ensures JobsGrow(s, Apply(s, l))
  {
  }

  lemma {:induction false} JobsStep(s: State, l: Label)
    requires Enabled(s, l)
    ensures JobsGrow(s, Apply(s, l))
  {
    if l.OfCaller() { CallerGrows(s, l); }
    else if l.OfWorker() { WorkerGrows(s, l); }
    else if l.OfShutdown() { ShutdownGrows(s, l); }
    else { HouseGrows(s, l); }
  }

  lemma {:induction false} WorkerRetired(s: State, l: Label, w: WorkerId)
    requires Local(s) && Enabled(s, l) && w in s.workers && s.workers[w].Retired?
    ensures w in Apply(s, l).workers && Apply(s, l).workers[w].Retired?
  {
    assert WorkerOk(s, w);
  }

  lemma {:induction false} ShutdownAdvances(s: State, l: Label)
    requires Enabled(s, l) && s.shutdown.Drained()
    ensures Apply(s, l).shutdown.Drained()
  {
    if !l.OfShutdown() { OthersKeepShutdown(s, l); }
  }

  lemma {:induction false} OthersKeepShutdown(s: State, l: Label)
    requires Enabled(s, l) && !l.OfShutdown()
    ensures Apply(s, l).shutdown == s.shutdown
  {
  }

  lemma {:induction false} StepGrows(s: State, s': State)
    requires Inv(s) && Step(s, s')
    ensures Grows(s, s')
  {
    var l :| Enabled(s, l) && s' == Apply(s, l);
    JobsStep(s, l);
    if s.shutdown.Drained() { ShutdownAdvances(s, l); }
    forall w ensures StaysRetired(s, s', w) {
      if w in s.workers && s.workers[w].Retired? { WorkerRetired(s, l, w); }
    }
  }

  lemma {:induction false} GrowsTransitive(a: State, b: State, c: State)
    requires Grows(a, b) && Grows(b, c)
    ensures Grows(a, c)
  {
    forall j | j in a.jobs ensures Kept(a.jobs[j], c.jobs[j]) {
      assert Kept(a.jobs[j], b.jobs[j]) && Kept(b.jobs[j], c.jobs[j]);
    }
    forall w ensures StaysRetired(a, c, w) { assert StaysRetired(a, b, w) && StaysRetired(b, c, w); }
  }

  lemma {:induction false} RunGrows(run: seq<State>, i: nat, k: nat)
    requires Run(run) && i <= k < |run|
    ensures Grows(run[i], run[k])
    decreases k
  {
    if i == k {
      GrowsFrom(run[i]);
    } else {
      RunGrows(run, i, k - 1);
      RunGrowsOn(run, run[i], k);
    }
  }

  lemma {:induction false} GrowsFrom(s: State)
    ensures Grows(s, s)
  {
  }

  lemma {:induction false} RunGrowsOn(run: seq<State>, a: State, k: nat)
    requires Run(run) && 0 < k < |run| && Grows(a, run[k - 1])
    ensures Grows(a, run[k])
  {
    RunStepGrows(run, k);
    GrowsTransitive(a, run[k - 1], run[k]);
  }

  lemma {:induction false} RunStepGrows(run: seq<State>, k: nat)
    requires Run(run) && 0 < k < |run|
    ensures Grows(run[k - 1], run[k])
  {
    RunInv(run, k - 1);
    RunStep(run, k - 1);
    StepGrows(run[k - 1], run[k]);
  }

  // ----- what every run guarantees

  /** Before shutdown the pool has its configured size: the workers still in their loop are
      the limit plus one replacement per handler given up on, so exactly the limit are not
      lost to such a handler; and no more than one extra pool is ever started. */
  lemma {:induction false} PoolKeepsItsSize(run: seq<State>, i: nat)
    requires Run(run) && i < |run| && !run[i].stopping
    ensures |Active(run[i])| == run[i].limit + run[i].surplus
    ensures run[i].surplus == |Stuck(run[i])| && 0 <= run[i].surplus <= run[i].limit
    ensures |Active(run[i]) - Stuck(run[i])| == run[i].limit == run[0].limit
  {
    var s := run[i];
    RunInv(run, i);
    RunGrows(run, 0, i);
    assert Stuck(s) <= Active(s);
    assert |Active(s) - Stuck(s)| == |Active(s)| - |Stuck(s)|;
  }

  /** A job settles once: whatever happens later - a late result, the watchdog, shutdown -
      its outcome and status never change. An answer a caller was given is that outcome, and a
      caller's reply is final. A reader whose wait ran out raises a timeout instead, also if the
      job settled otherwise in that moment; its own settling then changes nothing. */
  lemma {:induction false} SettlesOnce(run: seq<State>, i: nat, k: nat, j: JobId)
    requires Run(run) && i <= k < |run| && j in run[i].jobs && run[i].jobs[j].Settled()
    ensures j in run[k].jobs && run[k].jobs[j].outcome == run[i].jobs[j].outcome
    ensures run[k].jobs[j].status == run[i].jobs[j].status ==
              (if run[i].jobs[j].outcome.value.Value? then Done else Failed)
    ensures run[k].jobs[j].caller.Answered? ==> run[i].jobs[j].outcome == Some(run[k].jobs[j].caller.outcome)
    ensures var caller := run[i].jobs[j].caller;
      caller.Answered? || caller.TimedOut? || caller.GotId? ==> run[k].jobs[j].caller == caller
  {
    RunGrows(run, i, k);
    assert Kept(run[i].jobs[j], run[k].jobs[j]);
    RunInv(run, i);
    RunInv(run, k);
    assert JobOk(run[i], j) && JobOk(run[k], j);
  }

  lemma {:induction false} OnlyExpiry(s: State, l: Label, j: JobId)
    requires Enabled(s, l) && j in s.jobs && s.jobs[j].caller.Reading?
    requires j in Apply(s, l).jobs && Apply(s, l).jobs[j].caller.Expired?
    ensures l == ReadExpire(j)
  {
    if !l.OfCaller() { OthersKeepCaller(s, l, j); }
  }

  lemma {:induction false} OthersKeepCaller(s: State, l: Label, j: JobId)
    requires Enabled(s, l) && !l.OfCaller() && j in s.jobs
    ensures j in Apply(s, l).jobs && Apply(s, l).jobs[j].caller == s.jobs[j].caller
  {
    if l.OfWorker() { WorkerKeepsCaller(s, l, j); }
    else if l.OfShutdown() { ShutdownKeepsCaller(s, l, j); }
  }

  lemma {:induction false} WorkerKeepsCaller(s: State, l: Label, j: JobId)
    requires Enabled(s, l) && l.OfWorker() && j in s.jobs
    ensures j in Apply(s, l).jobs && Apply(s, l).jobs[j].caller == s.jobs[j].caller
  {
  }

  lemma {:induction false} ShutdownKeepsCaller(s: State, l: Label, j: JobId)
    requires Enabled(s, l) && l.OfShutdown() && j in s.jobs
    ensures j in Apply(s, l).jobs && Apply(s, l).jobs[j].caller == s.jobs[j].caller
    ensures Apply(s, l).jobs[j].startedAt == s.jobs[j].startedAt
  {
    if l.DrainDone? { DrainKeepsCaller(s, j); }
    else if l.SweepDone? { SweepKeepsCaller(s, j); }
    else { TurnKeepsCaller(s, l, j); }
  }

  lemma {:induction false} DrainKeepsCaller(s: State, j: JobId)
    requires Enabled(s, DrainDone) && j in s.jobs
    ensures j in Apply(s, DrainDone).jobs && Apply(s, DrainDone).jobs[j].caller == s.jobs[j].caller
    ensures Apply(s, DrainDone).jobs[j].startedAt == s.jobs[j].startedAt
  {
  }

  lemma {:induction false} SweepKeepsCaller(s: State, j: JobId)
    requires Enabled(s, SweepDone) && j in s.jobs
    ensures j in Apply(s, SweepDone).jobs && Apply(s, SweepDone).jobs[j].caller == s.jobs[j].caller
    ensures Apply(s, SweepDone).jobs[j].startedAt == s.jobs[j].startedAt
  {
  }

  lemma {:induction false} TurnKeepsCaller(s: State, l: Label, j: JobId)
    requires Enabled(s, l) && l.OfShutdown() && !l.DrainDone? && !l.SweepDone? && j in s.jobs
    ensures j in Apply(s, l).jobs && Apply(s, l).jobs[j].caller == s.jobs[j].caller
    ensures Apply(s, l).jobs[j].startedAt == s.jobs[j].startedAt
  {
  }

  lemma {:induction false} ExpirySettles(s: State, j: JobId)
    requires Enabled(s, ReadExpire(j))
    ensures var outcome := s.jobs[j].outcome;
      Apply(s, ReadExpire(j)).jobs[j].outcome == if outcome.Some? then outcome else Some(Raised(TimeoutError))
  {
  }

  lemma {:induction false} ExpiryStep(s: State, t: State, j: JobId)
    requires Step(s, t) && j in s.jobs && s.jobs[j].caller.Reading? && j in t.jobs && t.jobs[j].caller.Expired?
    ensures var outcome := s.jobs[j].outcome;
      t.jobs[j].outcome == if outcome.Some? then outcome else Some(Raised(TimeoutError))
  {
    var l :| Enabled(s, l) && t == Apply(s, l);
    OnlyExpiry(s, l, j);
    ExpirySettles(s, j);
  }

  /** A reader whose wait runs out raises a timeout. Its job's outcome is that timeout, for ever, if and
      only if the job was not settled in any other way by then. */
  lemma {:induction false} ReaderTimesOutExactly(run: seq<State>, i: nat, k: nat, j: JobId)
    requires Run(run) && i < k < |run| && j in run[i].jobs && run[i].jobs[j].caller.Reading?
    requires j in run[i + 1].jobs && run[i + 1].jobs[j].caller.Expired?
    ensures j in run[k].jobs
    ensures run[k].jobs[j].outcome == Some(Raised(TimeoutError)) <==>
              !run[i].jobs[j].Settled() || run[i].jobs[j].outcome == Some(Raised(TimeoutError))
  {
    RunStep(run, i);
    ExpiryStep(run[i], run[i + 1], j);
    SettlesOnce(run, i + 1, k, j);
  }

  /** A worker took `j` and has not reported it. */
  ghost predicate InHand(s: State, j: JobId) {
    exists w :: w in s.workers && s.workers[w].Owes() && s.workers[w].HasJob() && s.workers[w].job == j
  }

  /** Each submitted item is reported to the queue at most once, and it is unreported exactly
      while it is queued (once), in one worker's hands, or in the hands of shutdown; the
      queue's own count of unfinished tasks is exactly the number of unreported items. */
  lemma {:induction false} ReportedOnce(run: seq<State>, i: nat, j: JobId)
    requires Run(run) && i < |run| && j in run[i].jobs
    ensures run[i].jobs[j].completions <= 1
    ensures run[i].jobs[j].completions == 0 <==>
              (Some(j) in run[i].queue || run[i].shutdown.Holds(j) || InHand(run[i], j))
    ensures run[i].unfinished == |run[i].queue| + |Owing(run[i])| + One(run[i].shutdown.Owes())
    ensures run[i].unfinished >= 0
  {
    var s := run[i];
    RunInv(run, i);
    assert JobOk(s, j);
    if InHand(s, j) {
      var w :| w in s.workers && s.workers[w].Owes() && s.workers[w].HasJob() && s.workers[w].job == j;
      assert WorkerOk(s, w);
    }
  }

  /** A caller holds a job id only for a job marked before it settled; settling it then issues
      the finish hook exactly once, and a job nobody may poll never gets one. */
  lemma {:induction false} FinishedOnce(run: seq<State>, i: nat, j: JobId)
    requires Run(run) && i < |run| && j in run[i].jobs
    ensures var s, job := run[i], run[i].jobs[j];
      && (job.caller.GotId? ==> job.persisted)
      && (!job.Settled() ==> j in s.registry)
      && job.finishes + One(j in s.due) == One(job.persisted && job.Settled())
    ensures forall k :: i <= k < |run| && run[i].jobs[j].Settled() && !run[i].jobs[j].persisted ==>
              j in run[k].jobs && run[k].jobs[j].finishes == 0 && !run[k].jobs[j].caller.GotId?
  {
    RunInv(run, i);
    assert JobOk(run[i], j);
    forall k | i <= k < |run| && run[i].jobs[j].Settled() && !run[i].jobs[j].persisted
      ensures j in run[k].jobs && run[k].jobs[j].finishes == 0 && !run[k].jobs[j].caller.GotId?
    {
      RunGrows(run, i, k);
      assert Kept(run[i].jobs[j], run[k].jobs[j]);
      RunInv(run, k);
      assert JobOk(run[k], j);
    }
  }

  /** Once shutdown has drained the queue, every job not yet settled is in a worker's hands,
      none is queued again, and the final sweep only ever takes markers. */
  lemma {:induction false} ShutdownStrandsNothing(run: seq<State>, i: nat, j: JobId)
    requires Run(run) && i < |run| && j in run[i].jobs && !run[i].jobs[j].Settled()
    requires run[i].shutdown.Posting? || run[i].shutdown.Sweeping? || run[i].shutdown.Finished?
    ensures Some(j) !in run[i].queue && forall x :: x in run[i].queue ==> x.None?
    ensures InHand(run[i], j)
    ensures forall k, x :: i <= k < |run| && x in run[k].queue ==> x.None?
  {
    RunInv(run, i);
    assert JobOk(run[i], j);
    forall k | i <= k < |run| ensures forall x :: x in run[k].queue ==> x.None? {
      RunGrows(run, i, k);
      RunInv(run, k);
    }
  }

  // ----- a reader that times out on a job with a value

  function Last(run: seq<State>): State
    requires run != []
  {
    run[|run| - 1]
  }

  lemma {:induction false} Extend(run: seq<State>, l: Label) returns (longer: seq<State>)
    requires Run(run) && Enabled(Last(run), l)
    ensures Run(longer) && run <= longer && Last(longer) == Apply(Last(run), l)
  {
    var t := Apply(Last(run), l);
    longer := run + [t];
    assert Step(Last(run), t);
    forall i | 0 <= i < |longer| - 1 ensures Step(longer[i], longer[i + 1]) {
      if i < |run| - 1 { RunStep(run, i); }
    }
  }

  /** Job 0 is a read whose caller waits, and worker 0 is in `phase` with it. */
  ghost predicate ReadAt(s: State, phase: Phase, settled: Option<Outcome>) {
    0 in s.jobs && s.jobs[0].caller.Reading? && s.jobs[0].outcome == settled && 0 in s.workers && s.workers[0] == phase
    && !s.stopping && s.queue == []
  }

  lemma {:induction false} ReadTaken() returns (run: seq<State>)
    ensures Run(run) && ReadAt(Last(run), Taken(0), None)
  {
    run := [State(1, 1, 0, map[], {}, {}, [], 0, map[0 := AtHead], 1, 0, false, NotCalled, 0, {}, {})];
    run := Extend(run, Submit(0, false));
    run := ReadGot(run);
  }

  lemma {:induction false} ReadGot(submitted: seq<State>) returns (run: seq<State>)
    requires Run(submitted)
    requires var s := Last(submitted);
      && 0 in s.jobs && s.jobs[0].caller.Reading? && s.jobs[0].outcome.None? && 0 in s.workers && s.workers[0] == AtHead
      && !s.stopping && s.queue == [Some(0)]
    ensures Run(run) && ReadAt(Last(run), Taken(0), None)
  {
    run := Extend(submitted, TestStop(0));
    run := Extend(run, Get(0));
  }

  lemma {:induction false} ReadReturned(taken: seq<State>, outcome: Outcome) returns (run: seq<State>)
    requires Run(taken) && ReadAt(Last(taken), Taken(0), None)
    ensures Run(run) && ReadAt(Last(run), Returned(0), Some(outcome))
  {
    run := Extend(taken, Recheck(0));
    assert ReadAt(Last(run), Ready(0), None);
    run := Extend(run, Start(0));
    assert ReadAt(Last(run), InHandler(0), None);
    run := Extend(run, Return(0, outcome));
  }

  /** The handler returns a value just before the reader's wait runs out, and the reader raises. */
  lemma {:induction false} TimedOutWithValue() returns (run: seq<State>)
    ensures Run(run) && 0 in Last(run).jobs
    ensures Last(run).jobs[0].caller.TimedOut? && Last(run).jobs[0].outcome == Some(Value(7))
  {
    run := ReadTaken();
    run := ReadReturned(run, Value(7));
    run := Extend(run, ReadExpire(0));
    run := Extend(run, ReadDiscard(0));
    run := Extend(run, ReadRaise(0));
  }
}
