/** The background job queue as a labelled step system. Every step is one block that the
    program runs under a lock (or one queue operation); handlers, threads and the clock
    are the nondeterminism of which step comes next. */
module JobQueue {
  import opened Options

  type JobId = nat
  type WorkerId = nat

  datatype Error = HandlerError(code: int) | TimeoutError | ShutDownError
  datatype Outcome = Value(value: int) | Raised(error: Error)
  datatype Status = Queued | Running | Done | Failed

  /** Where the request thread that submitted a job stands. */
  datatype Caller =
    | Reading          // a read: waits up to the job timeout
    | Expired          // the read timed out and settled the job
    | Discarded        // ... and took it out of the queue
    | TimedOut         // ... and raised
    | Inline           // waits for the inline window
    | Claimed          // window over: the job is marked for polling
    | GotId            // answered with the job id
    | Answered(outcome: Outcome)

  /** Where a submitted item is, between `put` and `task_done`. */
  datatype Place = InQueue | AtWorker(worker: WorkerId) | AtShutdown | Reported

  /** The last four fields only record history: the worker that started the job, where its
      item is, and how often the finish hook and `task_done` were called for it. */
  datatype Job = Job(status: Status, outcome: Option<Outcome>, persisted: bool, abandoned: bool,
                     startedAt: Option<nat>, caller: Caller,
                     runner: WorkerId, place: Place, finishes: nat, completions: nat)
  {
    predicate Settled() { outcome.Some? }
  }

  /** Where a worker stands in its loop. */
  datatype Phase =
    | AtHead                 // about to test the stop flag
    | Waiting                // in `queue.get`
    | Sentinel               // took the shutdown marker
    | Taken(job: JobId)      // took a job
    | Ready(job: JobId)      // looked at the stop flag again
    | InHandler(job: JobId)  // runs the handler
    | Returned(job: JobId)   // settled, or found it settled
    | Completed(job: JobId)  // reported `task_done`
    | Retired                // left the loop
  {
    /** Owes the queue a `task_done`. */
    predicate Owes() { Sentinel? || Taken? || Ready? || InHandler? || Returned? }
    predicate HasJob() { Taken? || Ready? || InHandler? || Returned? || Completed? }
    /** Between starting a job and letting go of it. */
    predicate Inside() { InHandler? || Returned? || Completed? }
  }

  /** The shutdown call: draining (perhaps with a job in hand), posting markers, sweeping. */
  datatype Shutdown =
    | NotCalled
    | Draining(held: Option<Option<JobId>>)
    | Posting
    | Sweeping(held: Option<Option<JobId>>)
    | Finished
  {
    predicate Owes() { (Draining? || Sweeping?) && held.Some? }
    /** Past the draining of the queue. */
    predicate Drained() { Posting? || Sweeping? || Finished? }
    predicate Holds(j: JobId) { (Draining? || Sweeping?) && held == Some(Some(j)) }
  }

  /** `markers` is how many shutdown markers are still to be posted: one for each worker there was when
      the stop flag was set. */
  datatype State = State(
    limit: nat, timeout: nat, clock: nat,
    jobs: map<JobId, Job>, registry: set<JobId>, running: set<JobId>,
    queue: seq<Option<JobId>>, unfinished: int,
    workers: map<WorkerId, Phase>, workerSeq: nat, surplus: int,
    stopping: bool, shutdown: Shutdown, markers: nat,
    watched: set<JobId>, due: set<JobId>)

  datatype Label =
    | Tick(elapsed: nat)
    | Submit(job: JobId, persist: bool)
    | AnswerDone(job: JobId)
    | ReadExpire(job: JobId) | ReadDiscard(job: JobId) | ReadRaise(job: JobId)
    | Claim(job: JobId) | PersistRow(job: JobId)
    | TestStop(worker: WorkerId) | Get(worker: WorkerId) | Recheck(worker: WorkerId)
    | Start(worker: WorkerId) | Return(worker: WorkerId, outcome: Outcome)
    | TaskDone(worker: WorkerId) | LetGo(worker: WorkerId)
    | Scan | Abandon(job: JobId) | Finish(job: JobId) | Reap(expired: set<JobId>)
    | Stop | DrainGet | DrainDone | DrainEmpty | Post | PostDone | SweepGet | SweepDone | SweepEmpty
  {
    predicate OfCaller() {
      Submit? || AnswerDone? || ReadExpire? || ReadDiscard? || ReadRaise? || Claim? || PersistRow?
    }
    predicate OfWorker() { TestStop? || Get? || Recheck? || Start? || Return? || TaskDone? || LetGo? }
    predicate OfShutdown() {
      Stop? || DrainGet? || DrainDone? || DrainEmpty? || Post? || PostDone? || SweepGet? || SweepDone? || SweepEmpty?
    }
  }

  ghost predicate Init(s: State) {
    && s.limit >= 1 && s.jobs == map[] && s.registry == {} && s.running == {}
    && s.queue == [] && s.unfinished == 0
    && s.workerSeq == s.limit && s.surplus == 0
    && (forall w: nat :: w in s.workers <==> w < s.limit)
    && (forall w :: w in s.workers ==> s.workers[w] == AtHead)
    && !s.stopping && s.shutdown == NotCalled && s.watched == {} && s.due == {}
  }

  // ----- the locked blocks

  /** The locked part of `_settle`: the first caller records the outcome; a timeout of a
      started job also gives its worker up and starts a replacement, while one is allowed. */
  function Settle(s: State, j: JobId, outcome: Outcome, timedOut: bool): State
    requires j in s.jobs
  {
    var job := s.jobs[j];
    if job.Settled() then s else
      var abandon := timedOut && job.startedAt.Some? && !s.stopping && s.surplus < s.limit;
      var settled := job.(outcome := Some(outcome), abandoned := abandon,
                          status := if outcome.Value? then Done else Failed);
      var s1 := s.(jobs := s.jobs[j := settled], due := if job.persisted then s.due + {j} else s.due);
      if abandon then
        s1.(surplus := s.surplus + 1, workers := s.workers[s.workerSeq := AtHead], workerSeq := s.workerSeq + 1)
      else
        s1
  }

  /** Removes the first queue entry that is `j`. */
  function Without(queue: seq<Option<JobId>>, j: JobId): seq<Option<JobId>> {
    if queue == [] then []
    else if queue[0] == Some(j) then queue[1..]
    else [queue[0]] + Without(queue[1..], j)
  }

  function SetCaller(s: State, j: JobId, caller: Caller): State
    requires j in s.jobs
  {
    s.(jobs := s.jobs[j := s.jobs[j].(caller := caller)])
  }

  function SetWorker(s: State, w: WorkerId, phase: Phase): State {
    s.(workers := s.workers[w := phase])
  }

  /** `task_done` for the item of job `j`. */
  function Complete(s: State, j: JobId): State
    requires j in s.jobs
  {
    s.(jobs := s.jobs[j := s.jobs[j].(completions := s.jobs[j].completions + 1, place := Reported)],
       unfinished := s.unfinished - 1)
  }

  function Move(s: State, item: Option<JobId>, place: Place): State {
    if item.Some? && item.value in s.jobs
    then s.(jobs := s.jobs[item.value := s.jobs[item.value].(place := place)]) else s
  }

  function CompleteItem(s: State, item: Option<JobId>): State
    requires item.Some? ==> item.value in s.jobs
  {
    if item.Some? then Complete(s, item.value) else s.(unfinished := s.unfinished - 1)
  }

  ghost predicate Overdue(s: State, j: JobId)
    requires j in s.jobs
  {
    s.jobs[j].status == Running && s.jobs[j].startedAt.Some? && s.clock - s.jobs[j].startedAt.value > s.timeout
  }

  ghost predicate WorkerAt(s: State, w: WorkerId) {
    w in s.workers && (s.workers[w].HasJob() ==> s.workers[w].job in s.jobs)
  }

  ghost predicate HeldKnown(s: State) {
    (s.shutdown.Draining? || s.shutdown.Sweeping?) ==>
      s.shutdown.held.Some? && s.shutdown.held.value.Some? ==> s.shutdown.held.value.value in s.jobs
  }

  /** Workers that have not left their loop. */
  ghost function Active(s: State): set<WorkerId> {
    set w | w in s.workers && !s.workers[w].Retired?
  }

  // ----- the steps

  function Submitted(s: State, j: JobId, persist: bool): State {
    s.(jobs := s.jobs[j := Job(Queued, None, false, false, None, if persist then Inline else Reading,
                               0, InQueue, 0, 0)],
       registry := s.registry + {j}, queue := s.queue + [Some(j)], unfinished := s.unfinished + 1)
  }

  /** The caller leaves with `caller`, and the record is dropped. */
  function Left(s: State, j: JobId, caller: Caller): State
    requires j in s.jobs
  {
    SetCaller(s, j, caller).(registry := s.registry - {j})
  }

  function Dropped(s: State, j: JobId): State
    requires j in s.jobs
  {
    var s1 := SetCaller(s, j, Discarded);
    if Some(j) in s.queue then Complete(s1, j).(queue := Without(s.queue, j)) else s1
  }

  function MarkedForPolling(s: State, j: JobId): State
    requires j in s.jobs
  {
    s.(jobs := s.jobs[j := s.jobs[j].(persisted := true, caller := Claimed)])
  }

  function Got(s: State, w: WorkerId): State
    requires s.queue != []
  {
    var item := s.queue[0];
    Move(SetWorker(s, w, if item.None? then Sentinel else Taken(item.value)).(queue := s.queue[1..]),
         item, AtWorker(w))
  }

  function Started(s: State, w: WorkerId, j: JobId): State
    requires j in s.jobs
  {
    if s.jobs[j].Settled() then SetWorker(Complete(s, j), w, AtHead)
    else SetWorker(s, w, InHandler(j)).(
      jobs := s.jobs[j := s.jobs[j].(status := Running, startedAt := Some(s.clock), runner := w)],
      running := s.running + {j})
  }

  function LeftHandler(s: State, w: WorkerId, j: JobId): State
    requires j in s.jobs
  {
    SetWorker(s, w, if s.jobs[j].abandoned then Retired else AtHead).(
      running := s.running - {j}, surplus := if s.jobs[j].abandoned then s.surplus - 1 else s.surplus)
  }

  function FinishCalled(s: State, j: JobId): State
    requires j in s.jobs
  {
    s.(jobs := s.jobs[j := s.jobs[j].(finishes := s.jobs[j].finishes + 1)], due := s.due - {j})
  }

  function ShutdownGot(s: State): State
    requires s.queue != [] && (s.shutdown.Draining? || s.shutdown.Sweeping?)
  {
    Move(s.(queue := s.queue[1..], shutdown := s.shutdown.(held := Some(s.queue[0]))), s.queue[0], AtShutdown)
  }

  ghost predicate Enabled(s: State, l: Label) {
    match l
    case Tick(_) => true
    case Submit(j, _) => !s.stopping && j !in s.jobs
    case AnswerDone(j) => j in s.jobs && (s.jobs[j].caller.Reading? || s.jobs[j].caller.Inline?) && s.jobs[j].Settled()
    case ReadExpire(j) => j in s.jobs && s.jobs[j].caller.Reading?
    case ReadDiscard(j) => j in s.jobs && s.jobs[j].caller.Expired?
    case ReadRaise(j) => j in s.jobs && s.jobs[j].caller.Discarded?
    case Claim(j) => j in s.jobs && s.jobs[j].caller.Inline?
    case PersistRow(j) => j in s.jobs && s.jobs[j].caller.Claimed?
    case TestStop(w) => WorkerAt(s, w) && s.workers[w].AtHead?
    case Get(w) => WorkerAt(s, w) && s.workers[w].Waiting? && s.queue != []
    case Recheck(w) => WorkerAt(s, w) && s.workers[w].Taken?
    case Start(w) => WorkerAt(s, w) && s.workers[w].Ready?
    case Return(w, _) => WorkerAt(s, w) && s.workers[w].InHandler?
    case TaskDone(w) => WorkerAt(s, w) && (s.workers[w].Returned? || s.workers[w].Sentinel?)
    case LetGo(w) => WorkerAt(s, w) && s.workers[w].Completed?
    case Scan => true
    case Abandon(j) => j in s.watched && j in s.jobs
    case Finish(j) => j in s.due && j in s.jobs
    case Reap(expired) => forall j :: j in expired ==> j in s.jobs && s.jobs[j].Settled()
    case Stop => s.shutdown.NotCalled?
    case DrainGet => s.shutdown == Draining(None) && s.queue != []
    case DrainDone => s.shutdown.Draining? && s.shutdown.held.Some? && HeldKnown(s)
    case DrainEmpty => s.shutdown == Draining(None) && s.queue == []
    case Post => s.shutdown.Posting? && s.markers > 0
    case PostDone => s.shutdown.Posting? && s.markers == 0
    case SweepGet => s.shutdown == Sweeping(None) && s.queue != []
    case SweepDone => s.shutdown.Sweeping? && s.shutdown.held.Some? && HeldKnown(s)
    case SweepEmpty => s.shutdown == Sweeping(None) && s.queue == []
  }

  ghost function Apply(s: State, l: Label): State
    requires Enabled(s, l)
  {
    match l
    case Tick(d) => s.(clock := s.clock + d)
    case Submit(j, persist) => Submitted(s, j, persist)
    case AnswerDone(j) => Left(s, j, Answered(s.jobs[j].outcome.value))
    case ReadExpire(j) => SetCaller(Settle(s, j, Raised(TimeoutError), true), j, Expired)
    case ReadDiscard(j) => Dropped(s, j)
    case ReadRaise(j) => Left(s, j, TimedOut)
    case Claim(j) =>
      if s.jobs[j].Settled() then Left(s, j, Answered(s.jobs[j].outcome.value)) else MarkedForPolling(s, j)
    case PersistRow(j) => SetCaller(s, j, GotId)
    case TestStop(w) => SetWorker(s, w, if s.stopping then Retired else Waiting)
    case Get(w) => Got(s, w)
    case Recheck(w) =>
      var j := s.workers[w].job;
      SetWorker(if s.stopping then Settle(s, j, Raised(ShutDownError), false) else s, w, Ready(j))
    case Start(w) => Started(s, w, s.workers[w].job)
    case Return(w, outcome) =>
      SetWorker(Settle(s, s.workers[w].job, outcome, false), w, Returned(s.workers[w].job))
    case TaskDone(w) =>
      if s.workers[w].Sentinel? then SetWorker(s, w, Retired).(unfinished := s.unfinished - 1)
      else SetWorker(Complete(s, s.workers[w].job), w, Completed(s.workers[w].job))
    case LetGo(w) => LeftHandler(s, w, s.workers[w].job)
    case Scan => s.(watched := set j | j in s.running && j in s.jobs && Overdue(s, j) && !s.jobs[j].Settled())
    case Abandon(j) => Settle(s, j, Raised(TimeoutError), true).(watched := s.watched - {j})
    case Finish(j) => FinishCalled(s, j)
    case Reap(expired) => s.(registry := s.registry - expired)
    case Stop => s.(stopping := true, shutdown := Draining(None), markers := |Active(s)|)
    case DrainGet => ShutdownGot(s)
    case DrainDone =>
      var item := s.shutdown.held.value;
      var s1 := if item.Some? then Settle(s, item.value, Raised(ShutDownError), false) else s;
      CompleteItem(s1, item).(shutdown := Draining(None))
    case DrainEmpty => s.(shutdown := Posting)
    case Post => s.(queue := s.queue + [None], unfinished := s.unfinished + 1, markers := s.markers - 1)
    case PostDone => s.(shutdown := Sweeping(None))
    case SweepGet => ShutdownGot(s)
    case SweepDone => CompleteItem(s, s.shutdown.held.value).(shutdown := Sweeping(None))
    case SweepEmpty => s.(shutdown := Finished)
  }

  // ----- the invariant

  /** What the fields of one job say together. */
  ghost predicate Coherent(job: Job) {
    && (job.status.Running? <==> job.startedAt.Some? && !job.Settled())
    && (job.Settled() ==> job.status == if job.outcome.value.Value? then Done else Failed)
    && (job.abandoned ==> job.Settled() && job.startedAt.Some?)
    && (job.persisted <==> job.caller.Claimed? || job.caller.GotId?)
    && (job.caller.Answered? ==> job.outcome == Some(job.caller.outcome))
    && (job.caller.Expired? || job.caller.Discarded? || job.caller.TimedOut? ==> job.Settled())
    && job.completions == (if job.place == Reported then 1 else 0)
    && (job.place == InQueue ==> job.startedAt.None?)
    && (job.place == Reported ==> job.Settled())
  }

  ghost predicate JobOk(s: State, j: JobId)
    requires j in s.jobs
  {
    var job := s.jobs[j];
    && Coherent(job)
    && (!job.Settled() ==> j in s.registry)
    && (job.caller.Answered? || job.caller.TimedOut? ==> j !in s.registry)
    // a job started and not settled is inside the handler of the worker that started it
    && (job.startedAt.Some? && !job.Settled() ==>
          job.runner in s.workers && s.workers[job.runner] == InHandler(j))
    && (j in s.running ==> job.runner in s.workers && s.workers[job.runner].Inside() && s.workers[job.runner].job == j)
    // one finish per settled job that a caller may poll, and none otherwise
    && job.finishes + (if j in s.due then 1 else 0) == (if job.Settled() && job.persisted then 1 else 0)
    // the item is in exactly one place
    && (job.place == InQueue <==> Some(j) in s.queue)
    && (job.place == AtShutdown <==> s.shutdown.Holds(j))
    && (job.place.AtWorker? ==> var w := job.place.worker;
          w in s.workers && s.workers[w].Owes() && s.workers[w].HasJob() && s.workers[w].job == j)
  }

  ghost predicate WorkerOk(s: State, w: WorkerId)
    requires w in s.workers
  {
    var p := s.workers[w];
    && w < s.workerSeq
    && (p.HasJob() ==> p.job in s.jobs)
    && (p.HasJob() && p.Owes() ==> s.jobs[p.job].place == AtWorker(w))
    && (p.Inside() ==> s.jobs[p.job].runner == w && s.jobs[p.job].startedAt.Some? && p.job in s.running)
    && (p.Returned? || p.Completed? ==> s.jobs[p.job].Settled())
    && (p.Taken? || p.Ready? ==> s.jobs[p.job].startedAt.None?)
    && (p.Completed? ==> s.jobs[p.job].place == Reported)
    && (p.Sentinel? ==> s.stopping)
  }

  /** No job is queued twice. */
  ghost predicate Distinct(queue: seq<Option<JobId>>) {
    forall i, k :: 0 <= i < k < |queue| && queue[i].Some? ==> queue[i] != queue[k]
  }

  ghost predicate QueueOk(s: State) {
    && (forall x :: x in s.queue ==> if x.Some? then x.value in s.jobs else s.stopping)
    && Distinct(s.queue)
  }

  ghost predicate ShutdownOk(s: State) {
    && (s.stopping <==> !s.shutdown.NotCalled?)
    && (s.shutdown.Posting? || s.shutdown.Sweeping? || s.shutdown.Finished? ==>
          forall x :: x in s.queue ==> x.None?)
    && (s.shutdown.Draining? && s.shutdown.held.Some? && s.shutdown.held.value.Some? ==>
          s.shutdown.held.value.value in s.jobs)
    && (s.shutdown.Sweeping? && s.shutdown.held.Some? ==> s.shutdown.held.value.None?)
  }

  ghost predicate SetsOk(s: State) {
    && s.registry <= s.jobs.Keys && s.running <= s.jobs.Keys && s.due <= s.jobs.Keys
    && forall j :: j in s.watched ==>
         j in s.jobs && s.jobs[j].startedAt.Some? && s.clock - s.jobs[j].startedAt.value > s.timeout
  }

  /** The part of the invariant that does not count. */
  ghost predicate Local(s: State) {
    && (forall j {:trigger JobOk(s, j)} :: j in s.jobs ==> JobOk(s, j))
    && (forall w {:trigger WorkerOk(s, w)} :: w in s.workers ==> WorkerOk(s, w))
    && QueueOk(s) && ShutdownOk(s) && SetsOk(s)
  }

  // ----- every step keeps the local invariant

  lemma {:induction false} Know(s: State, j: JobId)
    requires Local(s) && j in s.jobs
    ensures JobOk(s, j)
    ensures s.jobs[j].runner in s.workers ==> WorkerOk(s, s.jobs[j].runner)
    ensures s.jobs[j].place.AtWorker? ==> WorkerOk(s, s.jobs[j].place.worker)
  {
    assert JobOk(s, j);
    assert s.jobs[j].runner in s.workers ==> WorkerOk(s, s.jobs[j].runner);
    assert s.jobs[j].place.AtWorker? ==> WorkerOk(s, s.jobs[j].place.worker);
  }

  lemma {:induction false} KnowWorker(s: State, w: WorkerId)
    requires Local(s) && w in s.workers
    ensures WorkerOk(s, w) && (s.workers[w].HasJob() ==> JobOk(s, s.workers[w].job))
  {
    assert WorkerOk(s, w);
    assert s.workers[w].HasJob() ==> JobOk(s, s.workers[w].job);
  }

  /** Whether settling `j` by a timeout gives its worker up. */
  predicate GivesUp(s: State, j: JobId, timedOut: bool)
    requires j in s.jobs
  {
    !s.jobs[j].Settled() && timedOut && s.jobs[j].startedAt.Some? && !s.stopping && s.surplus < s.limit
  }

  lemma {:induction false} LocalSettle(s: State, j: JobId, outcome: Outcome, timedOut: bool)
    requires Local(s) && j in s.jobs
    ensures Local(Settle(s, j, outcome, timedOut))
    ensures Settle(s, j, outcome, timedOut).jobs[j].Settled()
  {
    if GivesUp(s, j, timedOut) {
      LocalGiveUp(s, j, outcome);
    } else if !s.jobs[j].Settled() {
      LocalRecord(s, j, outcome, timedOut);
    }
  }

  lemma {:induction false} LocalGiveUp(s: State, j: JobId, outcome: Outcome)
    requires Local(s) && j in s.jobs && GivesUp(s, j, true)
    ensures Local(Settle(s, j, outcome, true))
  {
    var s' := Settle(s, j, outcome, true);
    Know(s, j);
    forall k | k in s'.jobs ensures JobOk(s', k) { Know(s, k); }
    forall v | v in s'.workers ensures WorkerOk(s', v) { if v in s.workers { KnowWorker(s, v); } }
  }

  lemma {:induction false} LocalRecord(s: State, j: JobId, outcome: Outcome, timedOut: bool)
    requires Local(s) && j in s.jobs && !s.jobs[j].Settled() && !GivesUp(s, j, timedOut)
    ensures Local(Settle(s, j, outcome, timedOut))
  {
    var s' := Settle(s, j, outcome, timedOut);
    Know(s, j);
    forall k | k in s'.jobs ensures JobOk(s', k) { Know(s, k); }
    forall v | v in s'.workers ensures WorkerOk(s', v) { KnowWorker(s, v); }
  }

  lemma {:induction false} LocalSubmit(s: State, j: JobId, persist: bool)
    requires Local(s) && !s.stopping && j !in s.jobs
    ensures Local(Submitted(s, j, persist))
  {
    var s' := Submitted(s, j, persist);
    forall k | k in s'.jobs ensures JobOk(s', k) { if k != j { Know(s, k); } }
    forall v | v in s'.workers ensures WorkerOk(s', v) { KnowWorker(s, v); }
  }

  lemma {:induction false} LocalLeft(s: State, j: JobId, caller: Caller)
    requires Local(s) && j in s.jobs && s.jobs[j].Settled() && !s.jobs[j].persisted
    requires caller == TimedOut || caller == Answered(s.jobs[j].outcome.value)
    ensures Local(Left(s, j, caller))
  {
    var s' := Left(s, j, caller);
    Know(s, j);
    forall k | k in s'.jobs ensures JobOk(s', k) { Know(s, k); }
    forall v | v in s'.workers ensures WorkerOk(s', v) { KnowWorker(s, v); }
  }

  lemma {:induction false} LocalCaller(s: State, j: JobId, caller: Caller)
    requires Local(s) && j in s.jobs
    requires (s.jobs[j].caller.Reading? && caller.Expired? && s.jobs[j].Settled()) ||
             (s.jobs[j].caller.Expired? && caller.Discarded?) || (s.jobs[j].caller.Claimed? && caller.GotId?)
    ensures Local(SetCaller(s, j, caller))
  {
    var s' := SetCaller(s, j, caller);
    Know(s, j);
    forall k | k in s'.jobs ensures JobOk(s', k) { Know(s, k); }
    forall v | v in s'.workers ensures WorkerOk(s', v) { KnowWorker(s, v); }
  }

  lemma {:induction false} LocalClaim(s: State, j: JobId)
    requires Local(s) && j in s.jobs && s.jobs[j].caller.Inline? && !s.jobs[j].Settled()
    ensures Local(MarkedForPolling(s, j))
  {
    var s' := MarkedForPolling(s, j);
    Know(s, j);
    forall k | k in s'.jobs ensures JobOk(s', k) { Know(s, k); }
    forall v | v in s'.workers ensures WorkerOk(s', v) { KnowWorker(s, v); }
  }

  lemma {:induction false} LocalFinish(s: State, j: JobId)
    requires Local(s) && j in s.jobs && j in s.due
    ensures Local(FinishCalled(s, j))
  {
    var s' := FinishCalled(s, j);
    Know(s, j);
    forall k | k in s'.jobs ensures JobOk(s', k) { Know(s, k); }
    forall v | v in s'.workers ensures WorkerOk(s', v) { KnowWorker(s, v); }
  }

  lemma {:induction false} WithoutProps(queue: seq<Option<JobId>>, j: JobId)
    requires Some(j) in queue && Distinct(queue)
    ensures |Without(queue, j)| == |queue| - 1 && Distinct(Without(queue, j))
    ensures forall x :: x in Without(queue, j) <==> x in queue && x != Some(j)
  {
    var head, rest := queue[0], queue[1..];
    assert queue == [head] + rest;
    DistinctTail(queue);
    if head != Some(j) {
      WithoutProps(rest, j);
      DistinctCons(head, Without(rest, j));
    }
  }

  lemma {:induction false} DistinctTail(queue: seq<Option<JobId>>)
    requires Distinct(queue) && queue != []
    ensures Distinct(queue[1..]) && (queue[0].Some? ==> queue[0] !in queue[1..])
  {
    assert forall i :: 0 <= i < |queue| - 1 ==> queue[1..][i] == queue[i + 1];
  }

  /** Discarding takes out the first entry of a job and leaves the others in their order. */
  lemma {:induction false} WithoutKeepsOrder(queue: seq<Option<JobId>>, j: JobId) returns (i: nat)
    requires Some(j) in queue
    ensures i < |queue| && queue[i] == Some(j) && Some(j) !in queue[..i]
    ensures Without(queue, j) == queue[..i] + queue[i + 1..]
  {
    if queue[0] == Some(j) {
      i := 0;
    } else {
      var head, rest := queue[0], queue[1..];
      assert queue == [head] + rest;
      var k := WithoutKeepsOrder(rest, j);
      i := k + 1;
      SlicesCons(head, rest, k);
    }
  }

  lemma {:induction false} SlicesCons<T>(head: T, rest: seq<T>, k: nat)
    requires k < |rest|
    ensures ([head] + rest)[..k + 1] == [head] + rest[..k] && ([head] + rest)[k + 2..] == rest[k + 1..]
    ensures [head] + (rest[..k] + rest[k + 1..]) == [head] + rest[..k] + rest[k + 1..]
  {
  }

  lemma {:induction false} DistinctCons(head: Option<JobId>, rest: seq<Option<JobId>>)
    requires Distinct(rest) && (head.None? || head !in rest)
    ensures Distinct([head] + rest)
  {
  }

  lemma {:induction false} LocalDiscard(s: State, j: JobId)
    requires Local(s) && j in s.jobs && s.jobs[j].caller.Expired? && Some(j) in s.queue
    ensures Local(Dropped(s, j))
  {
    var s' := Dropped(s, j);
    Know(s, j);
    WithoutProps(s.queue, j);
    forall k | k in s'.jobs ensures JobOk(s', k) { Know(s, k); }
    forall v | v in s'.workers ensures WorkerOk(s', v) { KnowWorker(s, v); }
  }

  lemma {:induction false} LocalPhase(s: State, w: WorkerId, phase: Phase)
    requires Local(s) && w in s.workers
    requires
      || (s.workers[w].AtHead? && (phase == Waiting || (s.stopping && phase == Retired)))
      || (s.workers[w].Taken? && phase == Ready(s.workers[w].job))
      || (s.workers[w].InHandler? && phase == Returned(s.workers[w].job)
          && s.workers[w].job in s.jobs && s.jobs[s.workers[w].job].Settled())
    ensures Local(SetWorker(s, w, phase))
  {
    var s' := SetWorker(s, w, phase);
    KnowWorker(s, w);
    forall k | k in s'.jobs ensures JobOk(s', k) { Know(s, k); }
    forall v | v in s'.workers ensures WorkerOk(s', v) { KnowWorker(s, v); }
  }

  lemma {:induction false} LocalGet(s: State, w: WorkerId)
    requires Local(s) && w in s.workers && s.workers[w].Waiting? && s.queue != []
    ensures Local(Got(s, w))
  {
    var s' := Got(s, w);
    KnowWorker(s, w);
    QueueHead(s);
    forall k | k in s'.jobs ensures JobOk(s', k) { Know(s, k); }
    forall v | v in s'.workers ensures WorkerOk(s', v) { KnowWorker(s, v); }
  }

  lemma {:induction false} QueueHead(s: State)
    requires Local(s) && s.queue != []
    ensures s.queue[0].Some? ==> s.queue[0].value in s.jobs && JobOk(s, s.queue[0].value) && s.queue[0] !in s.queue[1..]
    ensures s.queue[0].None? ==> s.stopping
    ensures Distinct(s.queue[1..]) && forall x :: x in s.queue[1..] ==> x in s.queue
    ensures forall x :: x in s.queue <==> x == s.queue[0] || x in s.queue[1..]
  {
    assert s.queue == [s.queue[0]] + s.queue[1..];
    assert s.queue[0] in s.queue;
    if s.queue[0].Some? { assert JobOk(s, s.queue[0].value); }
  }

  lemma {:induction false} LocalStart(s: State, w: WorkerId, j: JobId)
    requires Local(s) && w in s.workers && s.workers[w] == Ready(j) && j in s.jobs && !s.jobs[j].Settled()
    ensures Local(Started(s, w, j))
  {
    var s' := Started(s, w, j);
    KnowWorker(s, w);
    Know(s, j);
    forall k | k in s'.jobs ensures JobOk(s', k) { Know(s, k); }
    forall v | v in s'.workers ensures WorkerOk(s', v) { KnowWorker(s, v); }
  }

  lemma {:induction false} LocalSkip(s: State, w: WorkerId, j: JobId)
    requires Local(s) && w in s.workers && s.workers[w] == Ready(j) && j in s.jobs && s.jobs[j].Settled()
    ensures Local(Started(s, w, j))
  {
    var s' := Started(s, w, j);
    KnowWorker(s, w);
    Know(s, j);
    forall k | k in s'.jobs ensures JobOk(s', k) { Know(s, k); }
    forall v | v in s'.workers ensures WorkerOk(s', v) { KnowWorker(s, v); }
  }

  lemma {:induction false} LocalReport(s: State, w: WorkerId, j: JobId)
    requires Local(s) && w in s.workers && s.workers[w] == Returned(j) && j in s.jobs
    ensures Local(SetWorker(Complete(s, j), w, Completed(j)))
  {
    var s' := SetWorker(Complete(s, j), w, Completed(j));
    KnowWorker(s, w);
    Know(s, j);
    forall k | k in s'.jobs ensures JobOk(s', k) { Know(s, k); }
    forall v | v in s'.workers ensures WorkerOk(s', v) { KnowWorker(s, v); }
  }

  lemma {:induction false} LocalSentinel(s: State, w: WorkerId)
    requires Local(s) && w in s.workers && s.workers[w].Sentinel?
    ensures Local(SetWorker(s, w, Retired).(unfinished := s.unfinished - 1))
  {
    var s' := SetWorker(s, w, Retired).(unfinished := s.unfinished - 1);
    KnowWorker(s, w);
    forall k | k in s'.jobs ensures JobOk(s', k) { Know(s, k); }
    forall v | v in s'.workers ensures WorkerOk(s', v) { KnowWorker(s, v); }
  }

  lemma {:induction false} LocalLetGo(s: State, w: WorkerId, j: JobId)
    requires Local(s) && w in s.workers && s.workers[w] == Completed(j) && j in s.jobs
    ensures Local(LeftHandler(s, w, j))
  {
    var s' := LeftHandler(s, w, j);
    KnowWorker(s, w);
    Know(s, j);
    forall k | k in s'.jobs ensures JobOk(s', k) { Know(s, k); }
    forall v | v in s'.workers ensures WorkerOk(s', v) { KnowWorker(s, v); }
  }

  lemma {:induction false} LocalShutdownGot(s: State)
    requires Local(s) && s.queue != [] && (s.shutdown == Draining(None) || s.shutdown == Sweeping(None))
    ensures Local(ShutdownGot(s))
  {
    var s' := ShutdownGot(s);
    QueueHead(s);
    forall k | k in s'.jobs ensures JobOk(s', k) { Know(s, k); }
    forall v | v in s'.workers ensures WorkerOk(s', v) { KnowWorker(s, v); }
  }

  lemma {:induction false} LocalDrained(s: State)
    requires Local(s) && (s.shutdown.Draining? || s.shutdown.Sweeping?) && s.shutdown.held.Some? && HeldKnown(s)
    requires s.shutdown.held.value.Some? ==> s.jobs[s.shutdown.held.value.value].Settled()
    ensures Local(CompleteItem(s, s.shutdown.held.value).(shutdown := s.shutdown.(held := None)))
  {
    var item := s.shutdown.held.value;
    if item.Some? {
      LocalDrainedJob(s, item.value);
    } else {
      var s' := CompleteItem(s, item).(shutdown := s.shutdown.(held := None));
      forall k | k in s'.jobs ensures JobOk(s', k) { Know(s, k); }
      forall v | v in s'.workers ensures WorkerOk(s', v) { KnowWorker(s, v); }
    }
  }

  lemma {:induction false} LocalDrainedJob(s: State, j: JobId)
    requires Local(s) && s.shutdown.Draining? && s.shutdown.held == Some(Some(j)) && j in s.jobs && s.jobs[j].Settled()
    ensures Local(Complete(s, j).(shutdown := Draining(None)))
  {
    var s' := Complete(s, j).(shutdown := Draining(None));
    Know(s, j);
    forall k | k in s'.jobs ensures JobOk(s', k) { Know(s, k); }
    forall v | v in s'.workers ensures WorkerOk(s', v) { KnowWorker(s, v); }
  }

  lemma {:induction false} LocalClock(s: State, clock: nat)
    requires Local(s) && s.clock <= clock
    ensures Local(s.(clock := clock))
  {
    var s' := s.(clock := clock);
    forall k | k in s'.jobs ensures JobOk(s', k) { Know(s, k); }
    forall v | v in s'.workers ensures WorkerOk(s', v) { KnowWorker(s, v); }
  }

  lemma {:induction false} LocalSets(s: State, registry: set<JobId>, watched: set<JobId>)
    requires Local(s) && registry <= s.registry
    requires forall j :: j in s.jobs && !s.jobs[j].Settled() && j in s.registry ==> j in registry
    requires forall j :: j in watched ==>
               j in s.watched || (j in s.jobs && Overdue(s, j))
    ensures Local(s.(registry := registry, watched := watched))
  {
    var s' := s.(registry := registry, watched := watched);
    forall k | k in s'.jobs ensures JobOk(s', k) { Know(s, k); }
    forall v | v in s'.workers ensures WorkerOk(s', v) { KnowWorker(s, v); }
  }

  lemma {:induction false} LocalStop(s: State)
    requires Local(s) && s.shutdown.NotCalled?
    ensures Local(s.(stopping := true, shutdown := Draining(None), markers := |Active(s)|))
  {
    var s' := s.(stopping := true, shutdown := Draining(None), markers := |Active(s)|);
    forall k | k in s'.jobs ensures JobOk(s', k) { Know(s, k); }
    forall v | v in s'.workers ensures WorkerOk(s', v) { KnowWorker(s, v); }
  }

  lemma {:induction false} LocalPost(s: State)
    requires Local(s) && s.shutdown.Posting? && s.markers > 0
    ensures Local(s.(queue := s.queue + [None], unfinished := s.unfinished + 1, markers := s.markers - 1))
  {
    var s' := s.(queue := s.queue + [None], unfinished := s.unfinished + 1, markers := s.markers - 1);
    forall k | k in s'.jobs ensures JobOk(s', k) { Know(s, k); }
    forall v | v in s'.workers ensures WorkerOk(s', v) { KnowWorker(s, v); }
  }

  lemma {:induction false} LocalTurn(s: State, shutdown: Shutdown)
    requires Local(s) && (forall x :: x in s.queue ==> x.None?)
    requires (s.shutdown == Draining(None) && shutdown.Posting?) ||
             (s.shutdown.Posting? && shutdown == Sweeping(None)) ||
             (s.shutdown == Sweeping(None) && shutdown.Finished?)
    ensures Local(s.(shutdown := shutdown))
  {
    var s' := s.(shutdown := shutdown);
    forall k | k in s'.jobs ensures JobOk(s', k) { Know(s, k); }
    forall v | v in s'.workers ensures WorkerOk(s', v) { KnowWorker(s, v); }
  }

  lemma {:induction false} LocalStep(s: State, l: Label)
    requires Local(s) && Enabled(s, l)
    ensures Local(Apply(s, l))
  {
    if l.OfShutdown() { LocalShutdownStep(s, l); }
    else if l.OfWorker() { LocalWorkerStep(s, l); }
    else if l.OfCaller() { LocalCallerStep(s, l); }
    else { LocalHouseStep(s, l); }
  }

  lemma {:induction false} LocalCallerStep(s: State, l: Label)
    requires Local(s) && Enabled(s, l) && l.OfCaller()
    ensures Local(Apply(s, l))
  {
    match l
    case Submit(j, persist) => LocalSubmit(s, j, persist);
    case AnswerDone(j) => Know(s, j); LocalLeft(s, j, Answered(s.jobs[j].outcome.value));
    case ReadExpire(j) =>
      LocalSettle(s, j, Raised(TimeoutError), true);
      LocalCaller(Settle(s, j, Raised(TimeoutError), true), j, Expired);
    case ReadDiscard(j) => if Some(j) in s.queue { LocalDiscard(s, j); } else { LocalCaller(s, j, Discarded); }
    case ReadRaise(j) => Know(s, j); LocalLeft(s, j, TimedOut);
    case Claim(j) =>
      Know(s, j);
      if s.jobs[j].Settled() { LocalLeft(s, j, Answered(s.jobs[j].outcome.value)); } else { LocalClaim(s, j); }
    case PersistRow(j) => LocalCaller(s, j, GotId);
  }

  lemma {:induction false} LocalHouseStep(s: State, l: Label)
    requires Local(s) && Enabled(s, l) && !l.OfShutdown() && !l.OfWorker() && !l.OfCaller()
    ensures Local(Apply(s, l))
  {
    match l
    case Tick(d) => LocalClock(s, s.clock + d);
    case Finish(j) => LocalFinish(s, j);
    case Reap(expired) => LocalSets(s, s.registry - expired, s.watched);
    case Scan => LocalSets(s, s.registry, Apply(s, l).watched);
    case Abandon(j) =>
      LocalSettle(s, j, Raised(TimeoutError), true);
      LocalSets(Settle(s, j, Raised(TimeoutError), true), s.registry, s.watched - {j});
  }

  lemma {:induction false} LocalShutdownStep(s: State, l: Label)
    requires Local(s) && Enabled(s, l) && l.OfShutdown()
    ensures Local(Apply(s, l))
  {
    match l
    case Stop => LocalStop(s);
    case DrainGet => LocalShutdownGot(s);
    case DrainDone =>
      var item := s.shutdown.held.value;
      if item.Some? { LocalSettle(s, item.value, Raised(ShutDownError), false); }
      LocalDrained(if item.Some? then Settle(s, item.value, Raised(ShutDownError), false) else s);
    case DrainEmpty => LocalTurn(s, Posting);
    case Post => LocalPost(s);
    case PostDone => LocalTurn(s, Sweeping(None));
    case SweepGet => LocalShutdownGot(s);
    case SweepDone => LocalDrained(s);
    case SweepEmpty => LocalTurn(s, Finished);
  }

  lemma {:induction false} LocalWorkerStep(s: State, l: Label)
    requires Local(s) && Enabled(s, l) && l.OfWorker()
    ensures Local(Apply(s, l))
  {
    var w := l.worker;
    match l
    case TestStop(_) => LocalPhase(s, w, if s.stopping then Retired else Waiting);
    case Get(_) => LocalGet(s, w);
    case Recheck(_) =>
      var j := s.workers[w].job;
      LocalSettle(s, j, Raised(ShutDownError), false);
      LocalPhase(if s.stopping then Settle(s, j, Raised(ShutDownError), false) else s, w, Ready(j));
    case Start(_) =>
      var j := s.workers[w].job;
      if s.jobs[j].Settled() { LocalSkip(s, w, j); } else { LocalStart(s, w, j); }
    case Return(_, outcome) =>
      var j := s.workers[w].job;
      LocalSettle(s, j, outcome, false);
      LocalPhase(Settle(s, j, outcome, false), w, Returned(j));
    case TaskDone(_) =>
      if s.workers[w].Sentinel? { LocalSentinel(s, w); } else { LocalReport(s, w, s.workers[w].job); }
    case LetGo(_) => LocalLetGo(s, w, s.workers[w].job);
  }

  // ----- counting workers and items

  /** Workers inside a handler that was given up on. */
  ghost function Stuck(s: State): set<WorkerId> {
    set w | w in s.workers && IsStuck(s, s.workers[w])
  }

  ghost predicate IsStuck(s: State, p: Phase) {
    p.Inside() && p.job in s.jobs && s.jobs[p.job].abandoned
  }

  ghost function Owing(s: State): set<WorkerId> {
    set w | w in s.workers && s.workers[w].Owes()
  }

  function One(b: bool): int { if b then 1 else 0 }

  ghost predicate Counted(s: State) {
    && s.surplus == |Stuck(s)| && s.surplus <= s.limit
    && (!s.stopping ==> |Active(s)| == s.limit + s.surplus)
    && s.unfinished == |s.queue| + |Owing(s)| + One(s.shutdown.Owes())
  }

  /** Every job a worker is inside is known, and `s'` abandoned the same ones. */
  ghost predicate SameAbandoned(s: State, s': State) {
    && (forall j :: j in s.jobs ==> j in s'.jobs && s'.jobs[j].abandoned == s.jobs[j].abandoned)
    && (forall v :: v in s.workers && s.workers[v].Inside() ==> s.workers[v].job in s.jobs)
  }

  /** What one worker's move does to the three counts. */
  lemma {:induction false} CountMove(s: State, s': State, w: WorkerId)
    requires w in s.workers && w in s'.workers && s'.workers == s.workers[w := s'.workers[w]] && SameAbandoned(s, s')
    ensures |Active(s')| == |Active(s)| + One(!s'.workers[w].Retired?) - One(!s.workers[w].Retired?)
    ensures |Stuck(s')| == |Stuck(s)| + One(IsStuck(s', s'.workers[w])) - One(IsStuck(s, s.workers[w]))
    ensures |Owing(s')| == |Owing(s)| + One(s'.workers[w].Owes()) - One(s.workers[w].Owes())
  {
    Toggle(Active(s), Active(s'), w);
    Toggle(Stuck(s), Stuck(s'), w);
    Toggle(Owing(s), Owing(s'), w);
  }

  lemma {:induction false} Toggle(a: set<WorkerId>, b: set<WorkerId>, w: WorkerId)
    requires forall v :: v != w ==> (v in a <==> v in b)
    ensures |b| == |a| + One(w in b) - One(w in a)
  {
    assert a - {w} == b - {w};
    assert |a - {w}| == |a| - One(w in a) && |b - {w}| == |b| - One(w in b);
  }

  lemma {:induction false} CountSame(s: State, s': State)
    requires s'.workers == s.workers && SameAbandoned(s, s')
    ensures Active(s') == Active(s) && Stuck(s') == Stuck(s) && Owing(s') == Owing(s)
  {
  }

  lemma {:induction false} InsideKnown(s: State)
    requires Local(s)
    ensures SameAbandoned(s, s)
  {
    forall v | v in s.workers && s.workers[v].Inside() ensures s.workers[v].job in s.jobs {
      KnowWorker(s, v);
    }
  }

  /** Giving a handler up adds one stuck worker and one replacement; nothing else moves. */
  lemma {:induction false} CountSettle(s: State, j: JobId, outcome: Outcome, timedOut: bool)
    requires Local(s) && Counted(s) && j in s.jobs
    ensures Counted(Settle(s, j, outcome, timedOut))
    ensures !timedOut ==> SameAbandoned(s, Settle(s, j, outcome, timedOut))
  {
    var s' := Settle(s, j, outcome, timedOut);
    InsideKnown(s);
    Know(s, j);
    if GivesUp(s, j, timedOut) {
      var r, n := s.jobs[j].runner, s.workerSeq;
      forall v | v in s.workers ensures v != n && (s.workers[v].Inside() && s.workers[v].job == j ==> v == r) {
        KnowWorker(s, v);
      }
      Toggle(Stuck(s), Stuck(s'), r);
      Toggle(Active(s), Active(s'), n);
      assert Owing(s') == Owing(s);
    } else {
      CountSame(s, s');
    }
  }

  lemma {:induction false} CountTimeout(s: State, l: Label)
    requires Local(s) && Counted(s) && Enabled(s, l) && (l.ReadExpire? || l.Abandon?)
    ensures Counted(Apply(s, l))
  {
    var s1 := Settle(s, l.job, Raised(TimeoutError), true);
    CountSettle(s, l.job, Raised(TimeoutError), true);
    LocalSettle(s, l.job, Raised(TimeoutError), true);
    InsideKnown(s1);
    CountSame(s1, Apply(s, l));
  }

  lemma {:induction false} CountCallerStep(s: State, l: Label)
    requires Local(s) && Counted(s) && Enabled(s, l) && l.OfCaller()
    ensures Counted(Apply(s, l))
  {
    if l.ReadExpire? {
      CountTimeout(s, l);
    } else {
      InsideKnown(s);
      if l.ReadDiscard? && Some(l.job) in s.queue { WithoutProps(s.queue, l.job); }
      CountSame(s, Apply(s, l));
    }
  }

  lemma {:induction false} CountHouseStep(s: State, l: Label)
    requires Local(s) && Counted(s) && Enabled(s, l) && !l.OfShutdown() && !l.OfWorker() && !l.OfCaller()
    ensures Counted(Apply(s, l))
  {
    if l.Abandon? {
      CountTimeout(s, l);
    } else {
      InsideKnown(s);
      CountSame(s, Apply(s, l));
    }
  }

  lemma {:induction false} CountDrained(s: State, j: JobId)
    requires Local(s) && Counted(s) && j in s.jobs && s.shutdown == Draining(Some(Some(j)))
    ensures Counted(Complete(Settle(s, j, Raised(ShutDownError), false), j).(shutdown := Draining(None)))
  {
    CountSettle(s, j, Raised(ShutDownError), false);
    CountSame(s, Complete(Settle(s, j, Raised(ShutDownError), false), j).(shutdown := Draining(None)));
  }

  lemma {:induction false} CountShutdownStep(s: State, l: Label)
    requires Local(s) && Counted(s) && Enabled(s, l) && l.OfShutdown()
    ensures Counted(Apply(s, l))
  {
    if l.DrainDone? && s.shutdown.held.value.Some? {
      CountDrained(s, s.shutdown.held.value.value);
    } else {
      InsideKnown(s);
      CountSame(s, Apply(s, l));
    }
  }

  lemma {:induction false} CountStarted(s: State, w: WorkerId, j: JobId)
    requires Counted(s) && SameAbandoned(s, s) && w in s.workers && s.workers[w] == Ready(j)
    requires j in s.jobs && Coherent(s.jobs[j])
    ensures Counted(Started(s, w, j))
  {
    CountMove(s, Started(s, w, j), w);
  }

  lemma {:induction false} CountReported(s: State, w: WorkerId, j: JobId)
    requires Counted(s) && SameAbandoned(s, s) && w in s.workers && s.workers[w] == Returned(j) && j in s.jobs
    ensures Counted(SetWorker(Complete(s, j), w, Completed(j)))
  {
    CountMove(s, SetWorker(Complete(s, j), w, Completed(j)), w);
  }

  lemma {:induction false} CountLetGo(s: State, w: WorkerId, j: JobId)
    requires Counted(s) && SameAbandoned(s, s) && w in s.workers && s.workers[w] == Completed(j) && j in s.jobs
    ensures Counted(LeftHandler(s, w, j))
  {
    CountMove(s, LeftHandler(s, w, j), w);
  }

  lemma {:induction false} CountSentinel(s: State, w: WorkerId)
    requires Counted(s) && SameAbandoned(s, s) && w in s.workers && s.workers[w].Sentinel? && s.stopping
    ensures Counted(SetWorker(s, w, Retired).(unfinished := s.unfinished - 1))
  {
    CountMove(s, SetWorker(s, w, Retired).(unfinished := s.unfinished - 1), w);
  }

  lemma {:induction false} CountPhase(s: State, w: WorkerId, phase: Phase)
    requires Counted(s) && SameAbandoned(s, s) && w in s.workers
    requires
      || (s.workers[w].AtHead? && (phase == Waiting || (s.stopping && phase == Retired)))
      || (s.workers[w].Taken? && phase == Ready(s.workers[w].job))
      || (s.workers[w].InHandler? && phase == Returned(s.workers[w].job))
    ensures Counted(SetWorker(s, w, phase))
  {
    CountMove(s, SetWorker(s, w, phase), w);
  }

  lemma {:induction false} CountGot(s: State, w: WorkerId)
    requires Counted(s) && SameAbandoned(s, s) && w in s.workers && s.workers[w].Waiting? && s.queue != []
    ensures Counted(Got(s, w))
  {
    CountMove(s, Got(s, w), w);
  }

  lemma {:induction false} CountWorkerStep(s: State, l: Label)
    requires Local(s) && Counted(s) && Enabled(s, l) && l.OfWorker()
    ensures Counted(Apply(s, l))
  {
    var w := l.worker;
    InsideKnown(s);
    KnowWorker(s, w);
    match l
    case TestStop(_) => CountPhase(s, w, if s.stopping then Retired else Waiting);
    case Get(_) => CountGot(s, w);
    case Recheck(_) =>
      var j := s.workers[w].job;
      CountSettle(s, j, Raised(ShutDownError), false);
      CountPhase(if s.stopping then Settle(s, j, Raised(ShutDownError), false) else s, w, Ready(j));
    case Start(_) => CountStarted(s, w, s.workers[w].job);
    case Return(_, outcome) =>
      var j := s.workers[w].job;
      CountSettle(s, j, outcome, false);
      CountPhase(Settle(s, j, outcome, false), w, Returned(j));
    case TaskDone(_) =>
      if s.workers[w].Sentinel? { CountSentinel(s, w); } else { CountReported(s, w, s.workers[w].job); }
    case LetGo(_) => CountLetGo(s, w, s.workers[w].job);
  }

  lemma {:induction false} CountStep(s: State, l: Label)
    requires Local(s) && Counted(s) && Enabled(s, l)
    ensures Counted(Apply(s, l))
  {
    if l.OfShutdown() { CountShutdownStep(s, l); }
    else if l.OfWorker() { CountWorkerStep(s, l); }
    else if l.OfCaller() { CountCallerStep(s, l); }
    else { CountHouseStep(s, l); }
  }
}
