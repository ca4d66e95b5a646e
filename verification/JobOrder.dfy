/** Jobs are taken in the order they were submitted, whatever the interleaving. */
module JobOrder {
  import opened Options
  import opened JobQueue
  import opened JobRuns
  import opened JobOutcomes

  /** Both are queued, `a` nearer to the head. */
  ghost predicate Ahead(queue: seq<Option<JobId>>, a: JobId, b: JobId) {
    exists p, q :: 0 <= p < q < |queue| && queue[p] == Some(a) && queue[q] == Some(b)
  }

  /** The job was reported without having started: its caller gave it up. */
  ghost predicate Withdrawn(s: State, b: JobId) {
    b in s.jobs && s.jobs[b].place == Reported && s.jobs[b].startedAt.None?
  }

  /** As long as `a` is queued, `b` is queued behind it, unless its caller gave it up. */
  ghost predicate WaitsFor(s: State, a: JobId, b: JobId) {
    Some(a) in s.queue ==> Ahead(s.queue, a, b) || Withdrawn(s, b)
  }

  // ----- what can happen to the queue

  lemma {:induction false} AheadTail(queue: seq<Option<JobId>>, a: JobId, b: JobId)
    requires queue != [] && Distinct(queue) && Ahead(queue, a, b)
    ensures Some(a) in queue[1..] ==> Ahead(queue[1..], a, b)
  {
    var p, q :| 0 <= p < q < |queue| && queue[p] == Some(a) && queue[q] == Some(b);
    if p == 0 {
      assert forall i :: 0 < i < |queue| ==> queue[i] != queue[0];
    } else {
      assert queue[1..][p - 1] == Some(a) && queue[1..][q - 1] == Some(b);
    }
  }

  lemma {:induction false} AheadSnoc(queue: seq<Option<JobId>>, x: Option<JobId>, a: JobId, b: JobId)
    requires Ahead(queue, a, b)
    ensures Ahead(queue + [x], a, b)
  {
    var p, q :| 0 <= p < q < |queue| && queue[p] == Some(a) && queue[q] == Some(b);
    assert (queue + [x])[p] == Some(a) && (queue + [x])[q] == Some(b);
  }

  lemma {:induction false} AheadWithout(queue: seq<Option<JobId>>, j: JobId, a: JobId, b: JobId)
    requires Some(j) in queue && Ahead(queue, a, b) && j != a && j != b
    ensures Ahead(Without(queue, j), a, b)
  {
    var p, q :| 0 <= p < q < |queue| && queue[p] == Some(a) && queue[q] == Some(b);
    var i := WithoutKeepsOrder(queue, j);
    var less := Without(queue, j);
    assert less[if p < i then p else p - 1] == Some(a) && less[if q < i then q else q - 1] == Some(b);
  }

  // ----- every step keeps the order

  lemma {:induction false} StaysWithdrawn(s: State, l: Label, b: JobId)
    requires Inv(s) && Enabled(s, l) && Withdrawn(s, b)
    ensures Withdrawn(Apply(s, l), b)
  {
    var t := Apply(s, l);
    StepStarts(s, l, b);
    if l.Start? { assert WorkerOk(s, l.worker); }
    JobsStep(s, l);
    LocalStep(s, l);
    assert Kept(s.jobs[b], t.jobs[b]);
    assert JobOk(s, b) && JobOk(t, b);
  }

  /** The steps that change the queue. */
  predicate Queues(l: Label) {
    l.Submit? || l.ReadDiscard? || l.Get? || l.DrainGet? || l.SweepGet? || l.Post?
  }

  lemma {:induction false} OthersKeepQueue(s: State, l: Label)
    requires Enabled(s, l) && !Queues(l)
    ensures Apply(s, l).queue == s.queue
  {
  }

  lemma {:induction false} QueueStep(s: State, l: Label, a: JobId, b: JobId)
    requires Inv(s) && Enabled(s, l) && Queues(l) && a in s.jobs && b in s.jobs && a != b
    requires WaitsFor(s, a, b) && Some(a) in Apply(s, l).queue && !Withdrawn(Apply(s, l), b)
    ensures Ahead(Apply(s, l).queue, a, b)
  {
    if Withdrawn(s, b) {
      StaysWithdrawn(s, l, b);
    } else if l.ReadDiscard? {
      DiscardStep(s, l.job, a, b);
    } else if l.Submit? || l.Post? {
      AheadSnoc(s.queue, if l.Submit? then Some(l.job) else None, a, b);
    } else {
      assert Apply(s, l).queue == s.queue[1..];
      AheadTail(s.queue, a, b);
    }
  }

  lemma {:induction false} DiscardStep(s: State, j: JobId, a: JobId, b: JobId)
    requires Inv(s) && Enabled(s, ReadDiscard(j)) && a in s.jobs && b in s.jobs && a != b
    requires WaitsFor(s, a, b) && !Withdrawn(s, b)
    requires Some(a) in Apply(s, ReadDiscard(j)).queue && !Withdrawn(Apply(s, ReadDiscard(j)), b)
    ensures Ahead(Apply(s, ReadDiscard(j)).queue, a, b)
  {
    if Some(j) in s.queue {
      WithoutProps(s.queue, j);
      assert JobOk(s, j) && JobOk(s, b);
      AheadWithout(s.queue, j, a, b);
    }
  }

  lemma {:induction false} OrderStep(s: State, l: Label, a: JobId, b: JobId)
    requires Inv(s) && Enabled(s, l) && a in s.jobs && b in s.jobs && a != b && WaitsFor(s, a, b)
    ensures WaitsFor(Apply(s, l), a, b)
  {
    if !Queues(l) {
      OthersKeepQueue(s, l);
      if Withdrawn(s, b) { StaysWithdrawn(s, l, b); }
    } else if Some(a) in Apply(s, l).queue && !Withdrawn(Apply(s, l), b) {
      QueueStep(s, l, a, b);
    }
  }

  /** A job queued behind another is not taken before it: as long as the earlier one is queued, the
      later one has not started. */
  lemma {:induction false} FirstComeFirstTaken(run: seq<State>, i: nat, k: nat, a: JobId, b: JobId)
    requires Run(run) && i <= k < |run| && Ahead(run[i].queue, a, b)
    ensures a in run[k].jobs && b in run[k].jobs && WaitsFor(run[k], a, b)
    ensures Some(a) in run[k].queue ==> run[k].jobs[b].startedAt.None?
    decreases k
  {
    RunInv(run, k);
    if i < k {
      FirstComeFirstTaken(run, i, k - 1, a, b);
      OrderKept(run, i, k, a, b);
    } else {
      BothKnown(run[i], a, b);
    }
    assert JobOk(run[k], b);
  }

  lemma {:induction false} BothKnown(s: State, a: JobId, b: JobId)
    requires Inv(s) && Ahead(s.queue, a, b)
    ensures a in s.jobs && b in s.jobs && a != b
  {
  }

  lemma {:induction false} OrderKept(run: seq<State>, i: nat, k: nat, a: JobId, b: JobId)
    requires Run(run) && i < k < |run| && Ahead(run[i].queue, a, b)
    requires a in run[k - 1].jobs && b in run[k - 1].jobs && WaitsFor(run[k - 1], a, b)
    ensures a in run[k].jobs && b in run[k].jobs && WaitsFor(run[k], a, b)
  {
    RunInv(run, i);
    BothKnown(run[i], a, b);
    RunInv(run, k - 1);
    RunGrows(run, k - 1, k);
    var l := StepLabel(run, k - 1);
    OrderStep(run[k - 1], l, a, b);
  }
}
