/** From when the wait window of a batch runs. */
module SchedulerWindow {
  import opened Scheduler
  import opened SchedulerSafety
  import opened SchedulerLiveness

  /** The deadline of the window, running or ticked. */
  function Deadline(t: Timer): int {
    if t.Idle? then 0 else t.deadline
  }

  ghost predicate QueueArrived(s: State) {
    && |s.arrived| == |s.models|
    && (forall j :: 0 <= j < |s.arrived| ==> s.arrived[j] <= s.now)
    && (forall i :: 0 <= i < |s.queue| ==> s.queue[i] < |s.arrived|)
  }

  /** The first job of a waiting batch arrived no later than it was pulled. */
  ghost predicate BatchArrived(s: State) {
    s.batch != [] ==> s.batch[0] < |s.arrived| && s.arrived[s.batch[0]] <= s.firstPulled
  }

  lemma QueueShrinks(s: State, t: State)
    requires QueueArrived(s) && t.arrived == s.arrived && t.models == s.models && t.now == s.now
    requires t.queue == s.queue || (s.queue != [] && t.queue == s.queue[1..])
    ensures QueueArrived(t)
  {}

  lemma QueueArrivedStep(c: Config, s: State, step: Step)
    requires QueueArrived(s) && Enabled(c, s, step)
    ensures QueueArrived(Apply(c, s, step))
  {
    var t := Apply(c, s, step);
    if step.Submit? || step.Advance? {
      assert QueueArrived(t);
    } else {
      OnlySubmitNumbers(c, s, step);
      assert t.queue == (if step.Pull? || step.DrainPull? then s.queue[1..] else s.queue) && t.now == s.now;
      QueueShrinks(s, t);
    }
  }

  lemma BatchArrivedStep(c: Config, s: State, step: Step)
    requires QueueArrived(s) && BatchArrived(s) && Enabled(c, s, step)
    ensures BatchArrived(Apply(c, s, step))
  {
    var t := Apply(c, s, step);
    match step
    case Submit(_) => assert t.batch == s.batch && t.firstPulled == s.firstPulled && s.arrived <= t.arrived;
    case Pull =>
      if t.batch != [] {
        assert t.batch[0] == if s.batch == [] then s.queue[0] else s.batch[0];
      }
    case Tick => assert t.batch == [];
    case ObserveStop => assert t.batch == [];
    case _ => assert t.batch == s.batch && t.firstPulled == s.firstPulled && t.arrived == s.arrived;
  }

  lemma {:induction false} ArrivedAlways(c: Config, s: State, steps: seq<Step>)
    requires QueueArrived(s) && BatchArrived(s) && Feasible(c, s, steps)
    ensures QueueArrived(Run(c, s, steps)) && BatchArrived(Run(c, s, steps))
    decreases |steps|
  {
    if steps != [] {
      QueueArrivedStep(c, s, steps[0]);
      BatchArrivedStep(c, s, steps[0]);
      ArrivedAlways(c, Apply(c, s, steps[0]), steps[1..]);
    }
  }

  /** In every reachable state the deadline of a waiting batch lies MaxWait after its first job was pulled, so never
      before MaxWait after that job arrived, and at that very moment exactly when the job was pulled as it arrived. */
  lemma WindowRunsFromPull(raw: Config, steps: seq<Step>)
    requires Feasible(New(raw), START, steps)
    ensures var c := New(raw); var s := Reach(raw, steps);
            s.batch != [] ==>
              && s.batch[0] < |s.arrived|
              && Deadline(s.timer) == s.firstPulled + c.maxWait >= s.arrived[s.batch[0]] + c.maxWait
              && (Deadline(s.timer) == s.arrived[s.batch[0]] + c.maxWait <==> s.firstPulled == s.arrived[s.batch[0]])
  {
    NoStaleTick(raw, steps);
    ArrivedAlways(New(raw), START, steps);
  }

  /** The documented window: MaxWait since the first job of the batch arrived. */
  ghost predicate AsDocumented(c: Config, s: State) {
    s.batch != [] ==> s.batch[0] < |s.arrived| && Deadline(s.timer) == s.arrived[s.batch[0]] + c.maxWait
  }

  ghost predicate AlwaysAsDocumented(raw: Config) {
    forall steps :: Feasible(New(raw), START, steps) ==> AsDocumented(New(raw), Reach(raw, steps))
  }

  /** A job that has to wait in the queue gets that much more time: the deadline can be any time late. */
  lemma LateWindow(raw: Config, dt: nat) returns (steps: seq<Step>)
    requires raw.maxBatchSize >= 2
    ensures Feasible(New(raw), START, steps)
    ensures var c := New(raw); var s := Reach(raw, steps);
            && s.batch == [0] && s.arrived == [0]
            && s.timer == Armed(s.arrived[s.batch[0]] + c.maxWait + dt)
  {
    var c := New(raw);
    steps := [Submit("m"), Advance(dt), Pull];
    var s1 := Apply(c, START, Submit("m"));
    var s2 := Apply(c, s1, Advance(dt));
    var s3 := Apply(c, s2, Pull);
    assert steps[1..] == [Advance(dt), Pull] && steps[1..][1..] == [Pull] && steps[1..][1..][1..] == [];
    assert Feasible(c, s2, [Pull]) && Run(c, s2, [Pull]) == s3;
    assert Feasible(c, s1, [Advance(dt), Pull]) && Run(c, s1, [Advance(dt), Pull]) == s3;
  }

  /** The window runs as documented on all runs if and only if batches have size one, that is, if no batch ever
      waits. */
  lemma DocumentedWindowIff(raw: Config)
    ensures AlwaysAsDocumented(raw) <==> raw.maxBatchSize <= 1
  {
    if raw.maxBatchSize <= 1 {
      forall steps | Feasible(New(raw), START, steps)
        ensures AsDocumented(New(raw), Reach(raw, steps))
      {
        NoStaleTick(raw, steps);
      }
    } else {
      var steps := LateWindow(raw, 1);
      assert !AsDocumented(New(raw), Reach(raw, steps));
    }
  }

  /** At most one flush is added, and time and arrivals go on. */
  ghost predicate GoesOn(s: State, t: State) {
    s.now <= t.now && s.arrived <= t.arrived && s.flushes <= t.flushes && |t.flushes| <= |s.flushes| + 1
  }

  lemma TimeGoesOn(c: Config, s: State, step: Step)
    requires Enabled(c, s, step)
    ensures GoesOn(s, Apply(c, s, step))
  {
    var t := Apply(c, s, step);
    match step
    case Submit(_) => assert GoesOn(s, t);
    case Advance(_) => assert GoesOn(s, t);
    case Pull => assert GoesOn(s, t);
    case Tick => assert GoesOn(s, t);
    case ObserveStop => assert GoesOn(s, t);
    case DrainPull => assert GoesOn(s, t);
    case _ => assert GoesOn(s, t);
  }

  /** While a batch waits, later pulls leave its window as it is. */
  lemma WindowStays(c: Config, s: State, step: Step)
    requires TimerSound(c, s) && s.batch != [] && Enabled(c, s, step) && Apply(c, s, step).flushes == s.flushes
    ensures var t := Apply(c, s, step);
            t.batch != [] && t.firstPulled == s.firstPulled && Deadline(t.timer) == Deadline(s.timer)
  {
    var t := Apply(c, s, step);
    match step
    case Pull => assert s.batch <= t.batch;
    case Tick =>
    case ObserveStop =>
    case DrainPull =>
    case _ => assert t.batch == s.batch && t.firstPulled == s.firstPulled;
  }

  /** The deadline of a waiting batch never moves: it is the one its first job set, for as long as no flush is made. */
  lemma {:induction false} DeadlineNeverMoves(c: Config, s: State, steps: seq<Step>)
    requires Usable(c) && Inv(c, s) && s.batch != [] && Feasible(c, s, steps)
    requires Run(c, s, steps).flushes == s.flushes
    ensures Deadline(Run(c, s, steps).timer) == Deadline(s.timer) == s.firstPulled + c.maxWait
    ensures Run(c, s, steps).batch != [] && Run(c, s, steps).firstPulled == s.firstPulled
    decreases |steps|
  {
    if steps != [] {
      var t := Apply(c, s, steps[0]);
      TimeGoesOn(c, s, steps[0]);
      FlushesGrow(c, t, steps[1..]);
      WindowStays(c, s, steps[0]);
      InvStep(c, s, steps[0]);
      DeadlineNeverMoves(c, t, steps[1..]);
    }
  }

  // ---------------------------------------------------------------- flushes

  /** A flush that was not made before its first job had arrived and been pulled, nor lies in the future. */
  ghost predicate FlushArrived(s: State, f: Flush) {
    f.jobs != [] && f.jobs[0] < |s.arrived| && s.arrived[f.jobs[0]] <= f.firstPulled <= f.at <= s.now
  }

  ghost predicate FlushesArrived(s: State) {
    forall i :: 0 <= i < |s.flushes| ==> FlushArrived(s, s.flushes[i])
  }

  lemma PullFlushArrived(c: Config, s: State)
    requires TimerSound(c, s) && QueueArrived(s) && BatchArrived(s) && Enabled(c, s, Pull)
    requires |Apply(c, s, Pull).flushes| > |s.flushes|
    ensures var t := Apply(c, s, Pull); FlushArrived(t, t.flushes[|s.flushes|])
  {
    var t := Apply(c, s, Pull);
    var f := t.flushes[|s.flushes|];
    assert f.jobs == s.batch + [s.queue[0]] && f.at == s.now == t.now && t.arrived == s.arrived;
    assert f.jobs[0] == if s.batch == [] then s.queue[0] else s.batch[0];
    assert f.firstPulled == if s.batch == [] then s.now else s.firstPulled;
  }

  lemma BatchFlushArrived(s: State, t: State, f: Flush)
    requires BatchArrived(s) && s.firstPulled <= s.now && s.batch != []
    requires f.jobs == s.batch && f.firstPulled == s.firstPulled && f.at == s.now
    requires t.arrived == s.arrived && t.now == s.now
    ensures FlushArrived(t, f)
  {}

  lemma LastFlushArrived(c: Config, s: State, step: Step)
    requires TimerSound(c, s) && QueueArrived(s) && BatchArrived(s) && Enabled(c, s, step)
    requires |Apply(c, s, step).flushes| > |s.flushes|
    ensures var t := Apply(c, s, step); FlushArrived(t, t.flushes[|s.flushes|])
  {
    var t := Apply(c, s, step);
    match step
    case Pull => PullFlushArrived(c, s);
    case Tick => BatchFlushArrived(s, t, t.flushes[|s.flushes|]);
    case ObserveStop => BatchFlushArrived(s, t, t.flushes[|s.flushes|]);
    case DrainPull =>
      var f := t.flushes[|s.flushes|];
      assert f.jobs == [s.queue[0]] && f.firstPulled == f.at == s.now == t.now && t.arrived == s.arrived;
  }

  lemma AllArrived(s: State, t: State)
    requires FlushesArrived(s) && GoesOn(s, t)
    requires |t.flushes| > |s.flushes| ==> FlushArrived(t, t.flushes[|s.flushes|])
    ensures FlushesArrived(t)
  {
    forall i | 0 <= i < |s.flushes|
      ensures FlushArrived(t, t.flushes[i])
    {
      assert FlushArrived(s, s.flushes[i]) && t.flushes[i] == s.flushes[i];
    }
  }

  lemma FlushesArrivedStep(c: Config, s: State, step: Step)
    requires TimerSound(c, s) && QueueArrived(s) && BatchArrived(s) && Enabled(c, s, step) && FlushesArrived(s)
    ensures FlushesArrived(Apply(c, s, step))
  {
    var t := Apply(c, s, step);
    TimeGoesOn(c, s, step);
    if |t.flushes| > |s.flushes| {
      LastFlushArrived(c, s, step);
    }
    AllArrived(s, t);
  }

  lemma {:induction false} FlushesArrivedAlways(c: Config, s: State, steps: seq<Step>)
    requires Usable(c) && Inv(c, s) && QueueArrived(s) && BatchArrived(s) && FlushesArrived(s) && Feasible(c, s, steps)
    ensures FlushesArrived(Run(c, s, steps))
    decreases |steps|
  {
    if steps != [] {
      InvStep(c, s, steps[0]);
      QueueArrivedStep(c, s, steps[0]);
      BatchArrivedStep(c, s, steps[0]);
      FlushesArrivedStep(c, s, steps[0]);
      FlushesArrivedAlways(c, Apply(c, s, steps[0]), steps[1..]);
    }
  }

  /** On every run, a batch flushed for time was flushed when its first job had waited for MaxWait at least. */
  lemma NoEarlyTimeFlush(raw: Config, steps: seq<Step>, i: nat)
    requires Feasible(New(raw), START, steps) && i < |Reach(raw, steps).flushes|
    ensures var s := Reach(raw, steps); var f := s.flushes[i];
            && f.jobs != [] && f.jobs[0] < |s.arrived| && s.arrived[f.jobs[0]] <= f.at <= s.now
            && (f.reason == Time ==> s.arrived[f.jobs[0]] + New(raw).maxWait <= f.at)
  {
    StartInv(New(raw));
    FlushesArrivedAlways(New(raw), START, steps);
    NothingLostOrReordered(raw, steps);
    assert FlushArrived(Reach(raw, steps), Reach(raw, steps).flushes[i]);
    assert FlushJustified(New(raw), Reach(raw, steps).flushes[i]);
  }

  predicate Stopping(r: Reason) {
    r == Shutdown || r == Drain
  }

  /** Flushes by size and time first, then after the stop signal one last batch and the queue job by job. */
  ghost predicate StopsLast(s: State) {
    && (s.mode != Running ==> s.stopRequested)
    && (forall i :: 0 <= i < |s.flushes| && Stopping(s.flushes[i].reason) ==> s.mode != Running)
    && (forall i, j :: 0 <= i < j < |s.flushes| && Stopping(s.flushes[i].reason) ==> s.flushes[j].reason == Drain)
  }

  lemma StopsLastFlush(s: State, t: State)
    requires StopsLast(s) && t.stopRequested == s.stopRequested && |t.flushes| == |s.flushes| + 1
    requires t.flushes[..|s.flushes|] == s.flushes && (t.mode != Running ==> s.stopRequested)
    requires s.mode != Running ==> t.mode == s.mode && t.flushes[|s.flushes|].reason == Drain
    requires t.mode == Running ==> !Stopping(t.flushes[|s.flushes|].reason)
    ensures StopsLast(t)
  {
    forall i | 0 <= i < |s.flushes|
      ensures t.flushes[i] == s.flushes[i]
    {}
  }

  lemma StopsLastStep(c: Config, s: State, step: Step)
    requires Enabled(c, s, step) && StopsLast(s)
    ensures StopsLast(Apply(c, s, step))
  {
    var t := Apply(c, s, step);
    if |t.flushes| > |s.flushes| {
      TimeGoesOn(c, s, step);
      match step
      case Pull => StopsLastFlush(s, t);
      case Tick => StopsLastFlush(s, t);
      case ObserveStop => StopsLastFlush(s, t);
      case DrainPull => StopsLastFlush(s, t);
    } else {
      TimeGoesOn(c, s, step);
      assert t.flushes == s.flushes;
    }
  }

  lemma {:induction false} StopsLastAlways(c: Config, s: State, steps: seq<Step>)
    requires Feasible(c, s, steps) && StopsLast(s)
    ensures StopsLast(Run(c, s, steps))
    decreases |steps|
  {
    if steps != [] {
      StopsLastStep(c, s, steps[0]);
      StopsLastAlways(c, Apply(c, s, steps[0]), steps[1..]);
    }
  }

  /** The order of flushes on every run. */
  lemma StopFlushesOnce(raw: Config, steps: seq<Step>)
    requires Feasible(New(raw), START, steps)
    ensures StopsLast(Reach(raw, steps))
  {
    StopsLastAlways(New(raw), START, steps);
  }
}
