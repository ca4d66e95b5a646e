/** The guard that stops capture when a resource limit is exceeded on two consecutive samples
    and starts it again after a cooldown, once every limit is well under. */
module ResourceGuard {

  datatype Kind = Cpu | Ram | Storage

  const KINDS: seq<Kind> := [Cpu, Ram, Storage]
  const TRIP_SAMPLES := 2

  /** One value per kind of resource. */
  datatype PerKind<T> = PerKind(cpu: T, ram: T, storage: T) {
    function Of(k: Kind): T {
      match k case Cpu => cpu case Ram => ram case Storage => storage
    }
    function With(k: Kind, v: T): PerKind<T> {
      match k case Cpu => this.(cpu := v) case Ram => this.(ram := v) case Storage => this.(storage := v)
    }
  }

  /** The settings, within their bounds; a limit of 0 is off. */
  datatype Config = Config(limits: PerKind<real>, resumePercent: real, cooldown: real) {
    ghost predicate Ok() {
      && (forall k: Kind :: limits.Of(k) >= 0.0)
      && 10.0 <= resumePercent <= 99.0 && 0.0 <= cooldown <= 3600.0
    }
  }

  /** One measurement pass: the settings in force, what was measured, and when. */
  datatype Sample = Sample(config: Config, measured: PerKind<real>, now: real) {
    predicate Exceeds(k: Kind) {
      config.limits.Of(k) != 0.0 && measured.Of(k) > config.limits.Of(k)
    }

    predicate BelowResume(k: Kind) {
      config.limits.Of(k) == 0.0 || measured.Of(k) < config.limits.Of(k) * config.resumePercent / 100.0
    }
  }

  /** What the guard told the sniffer, and when; a start carries the cooldown it waited for. */
  datatype Act = Stop(at: real) | Start(at: real, cooldown: real)

  datatype State = State(over: PerKind<nat>, paused: bool, since: real, acts: seq<Act>)

  const INITIAL := State(PerKind(0, 0, 0), false, 0.0, [])

  function Count(n: nat, exceeds: bool): nat { if exceeds then n + 1 else 0 }

  function Counted(over: PerKind<nat>, x: Sample): PerKind<nat> {
    PerKind(Count(over.cpu, x.Exceeds(Cpu)), Count(over.ram, x.Exceeds(Ram)), Count(over.storage, x.Exceeds(Storage)))
  }

  ghost predicate Trips(over: PerKind<nat>) { exists k: Kind :: over.Of(k) == TRIP_SAMPLES }

  ghost predicate AllBelow(x: Sample) { forall k: Kind :: x.BelowResume(k) }

  /** One pass of the guard. */
  ghost function Next(s: State, x: Sample): State {
    var over := Counted(s.over, x);
    if Trips(over) && !s.paused then
      State(over, true, x.now, s.acts + [Stop(x.now)])
    else if s.paused && x.now - s.since >= x.config.cooldown && AllBelow(x) then
      State(over, false, 0.0, s.acts + [Start(x.now, x.config.cooldown)])
    else
      s.(over := over)
  }

  class Guard {
    var over: PerKind<nat>
    var pausedByGuard: bool
    var pausedSince: real
    ghost var acts: seq<Act>

    constructor ()
      ensures Abstract() == INITIAL
    {
      over := PerKind(0, 0, 0);
      pausedByGuard, pausedSince, acts := false, 0.0, [];
    }

    ghost function Abstract(): State
      reads this
    {
      State(over, pausedByGuard, pausedSince, acts)
    }

    method TakeSample(x: Sample) returns (exceeded: seq<Kind>)
      modifies this
      ensures Abstract() == Next(old(Abstract()), x)
      ensures forall k: Kind :: k in exceeded <==> over.Of(k) == TRIP_SAMPLES
    {
      exceeded := CountKinds(x);
      if exceeded != [] && !pausedByGuard {
        assert over.Of(exceeded[0]) == TRIP_SAMPLES;
        pausedByGuard, pausedSince := true, x.now;
        acts := acts + [Stop(x.now)];
      } else if pausedByGuard && x.now - pausedSince >= x.config.cooldown {
        var below := BelowResume(x);
        if below {
          pausedByGuard, pausedSince := false, 0.0;
          acts := acts + [Start(x.now, x.config.cooldown)];
        }
      }
    }

    /** The loop over the kinds: consecutive samples over the limit, and which just reached two. */
    method CountKinds(x: Sample) returns (exceeded: seq<Kind>)
      modifies this`over
      ensures over == Counted(old(over), x)
      ensures forall k: Kind :: k in exceeded <==> over.Of(k) == TRIP_SAMPLES
    {
      exceeded := [];
      ghost var before := over;
      for i := 0 to |KINDS|
        invariant forall k: Kind :: over.Of(k) == if Index(k) < i then Counted(before, x).Of(k) else before.Of(k)
        invariant forall k: Kind :: k in exceeded <==> Index(k) < i && over.Of(k) == TRIP_SAMPLES
      {
        var kind := KINDS[i];
        var limit := x.config.limits.Of(kind);
        if limit != 0.0 && x.measured.Of(kind) > limit {
          over := over.With(kind, over.Of(kind) + 1);
          if over.Of(kind) == TRIP_SAMPLES {
            exceeded := exceeded + [kind];
          }
        } else {
          over := over.With(kind, 0);
        }
      }
      assert over == PerKind(over.Of(Cpu), over.Of(Ram), over.Of(Storage));
    }

    method BelowResume(x: Sample) returns (below: bool)
      ensures below <==> AllBelow(x)
    {
      for i := 0 to |KINDS|
        invariant forall k: Kind :: Index(k) < i ==> x.BelowResume(k)
      {
        var limit := x.config.limits.Of(KINDS[i]);
        if limit != 0.0 && x.measured.Of(KINDS[i]) >= limit * x.config.resumePercent / 100.0 {
          assert !x.BelowResume(KINDS[i]);
          return false;
        }
      }
      return true;
    }
  }

  function Index(k: Kind): nat {
    match k case Cpu => 0 case Ram => 1 case Storage => 2
  }

  // ----- whole runs

  /** The guard after a run of samples. */
  ghost function After(run: seq<Sample>): State {
    if run == [] then INITIAL else Next(After(run[..|run| - 1]), run[|run| - 1])
  }

  /** Samples of a run: settings within bounds, and a clock that never goes back. */
  ghost predicate Run(run: seq<Sample>) {
    && (forall i :: 0 <= i < |run| ==> run[i].config.Ok() && run[i].now >= 0.0)
    && (forall i, j :: 0 <= i < j < |run| ==> run[i].now <= run[j].now)
  }

  /** On how many samples in a row, up to the last, `k` exceeded its limit. */
  function Streak(run: seq<Sample>, k: Kind): nat {
    if run != [] && run[|run| - 1].Exceeds(k) then Streak(run[..|run| - 1], k) + 1 else 0
  }

  /** Stops and starts strictly alternate, beginning with a stop, and each start comes at least
      its cooldown after the stop before it. */
  ghost predicate Alternating(acts: seq<Act>) {
    && (forall i :: 0 <= i < |acts| ==> (acts[i].Stop? <==> i % 2 == 0))
    && (forall i :: 0 < i < |acts| && acts[i].Start? ==> acts[i].at - acts[i - 1].at >= acts[i].cooldown)
  }

  ghost predicate Consistent(s: State) {
    && Alternating(s.acts) && (s.paused <==> |s.acts| % 2 == 1)
    && (s.paused ==> s.since == s.acts[|s.acts| - 1].at)
    && (!s.paused ==> forall k: Kind :: s.over.Of(k) < TRIP_SAMPLES)
  }

  /** Below its resume share is below its limit. */
  lemma {:induction false} BelowIsUnder(x: Sample, k: Kind)
    requires x.config.Ok() && x.BelowResume(k)
    ensures !x.Exceeds(k)
  {
    var limit, p := x.config.limits.Of(k), x.config.resumePercent;
    assert limit * p <= limit * 100.0;
  }

  lemma {:induction false} NextConsistent(s: State, x: Sample)
    requires Consistent(s) && x.config.Ok()
    ensures Consistent(Next(s, x))
  {
    var s' := Next(s, x);
    if s.paused && !s'.paused {
      forall k: Kind ensures s'.over.Of(k) == 0 { BelowIsUnder(x, k); }
    }
    if !s.paused && !s'.paused {
      forall k: Kind ensures s'.over.Of(k) < TRIP_SAMPLES {
        assert s.over.Of(k) < TRIP_SAMPLES && s'.over.Of(k) != TRIP_SAMPLES;
      }
    }
  }

  /** In every run: stops and starts alternate, starts keep their cooldown, and while capture is
      not paused no counter has reached two, so the test for exactly two never misses one. */
  lemma {:induction false} GuardInvariant(run: seq<Sample>)
    requires Run(run)
    ensures Consistent(After(run))
  {
    if run != [] {
      GuardInvariant(run[..|run| - 1]);
      NextConsistent(After(run[..|run| - 1]), run[|run| - 1]);
    }
  }

  /** A counter is always the length of the current streak. */
  lemma {:induction false} CountersAreStreaks(run: seq<Sample>, k: Kind)
    ensures After(run).over.Of(k) == Streak(run, k)
  {
    if run != [] { CountersAreStreaks(run[..|run| - 1], k); }
  }

  /** Capture is stopped exactly when, not being paused, some limit is exceeded on this sample
      and was exceeded on the one before. */
  lemma {:induction false} TripsOnSecondBreach(run: seq<Sample>, x: Sample)
    requires Run(run + [x]) && !After(run).paused
    ensures After(run + [x]).paused <==>
              run != [] && exists k: Kind :: x.Exceeds(k) && run[|run| - 1].Exceeds(k)
  {
    assert (run + [x])[..|run|] == run;
    assert Run(run);
    GuardInvariant(run);
    forall k: Kind ensures Counted(After(run).over, x).Of(k) == TRIP_SAMPLES <==>
                             run != [] && x.Exceeds(k) && run[|run| - 1].Exceeds(k)
    {
      CountersAreStreaks(run, k);
    }
  }

  lemma {:induction false} StopIsTimed(run: seq<Sample>, x: Sample)
    requires !After(run).paused
    ensures var before, after := After(run), After(run + [x]);
      after.acts == before.acts + if after.paused then [Stop(x.now)] else []
  {
    assert (run + [x])[..|run|] == run;
  }

  /** Capture is started again exactly when the cooldown has passed since the stop and every
      limit in force is under its resume share; all counters are then zero. */
  lemma {:induction false} ResumesWhenClear(run: seq<Sample>, x: Sample)
    requires Run(run + [x]) && After(run).paused
    ensures var acts := After(run).acts;
      && acts != [] && acts[|acts| - 1].Stop?
      && (!After(run + [x]).paused <==> x.now - acts[|acts| - 1].at >= x.config.cooldown && AllBelow(x))
    ensures !After(run + [x]).paused ==> forall k: Kind :: After(run + [x]).over.Of(k) == 0
    ensures var before, after := After(run), After(run + [x]);
      after.acts == before.acts + if after.paused then [] else [Start(x.now, x.config.cooldown)]
  {
    assert (run + [x])[..|run|] == run && (run + [x])[|run|] == x;
    assert Run(run);
    GuardInvariant(run);
    if AllBelow(x) {
      forall k: Kind ensures !x.Exceeds(k) { BelowIsUnder(x, k); }
    }
  }

  /** Sample `j` of the run is why the guard acted as it did. */
  ghost predicate Earned(run: seq<Sample>, act: Act, j: nat)
    requires j < |run|
  {
    match act
    case Stop(at) => at == run[j].now && j > 0 && exists k: Kind :: run[j].Exceeds(k) && run[j - 1].Exceeds(k)
    case Start(at, cooldown) => at == run[j].now && cooldown == run[j].config.cooldown && AllBelow(run[j])
  }

  /** Every stop and every start carries the time of a sample that called for it. */
  lemma {:induction false} ActsAreEarned(run: seq<Sample>, i: nat)
    requires Run(run) && i < |After(run).acts|
    ensures exists j :: 0 <= j < |run| && Earned(run, After(run).acts[i], j)
  {
    var before, x := run[..|run| - 1], run[|run| - 1];
    assert run == before + [x] && Run(before);
    LastActEarned(before, x);
    if i < |After(before).acts| {
      ActsAreEarned(before, i);
      EarnedLater(before, x, After(before).acts[i]);
    }
  }

  lemma {:induction false} LastActEarned(run: seq<Sample>, x: Sample)
    requires Run(run) && Run(run + [x])
    ensures var before, after := After(run).acts, After(run + [x]).acts;
      after == before || (after[..|after| - 1] == before && Earned(run + [x], after[|after| - 1], |run|))
  {
    if After(run).paused { ResumesWhenClear(run, x); } else { TripsOnSecondBreach(run, x); StopIsTimed(run, x); }
  }

  lemma {:induction false} EarnedLater(run: seq<Sample>, x: Sample, act: Act)
    requires exists j :: 0 <= j < |run| && Earned(run, act, j)
    ensures exists j :: 0 <= j < |run + [x]| && Earned(run + [x], act, j)
  {
    var j :| 0 <= j < |run| && Earned(run, act, j);
    assert Earned(run + [x], act, j);
  }
}
