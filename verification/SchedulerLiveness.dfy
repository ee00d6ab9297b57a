/** How the scheduler makes progress: how long a batch can wait, and that stopping drains. */
module SchedulerLiveness {
  import opened Collections
  import opened Scheduler
  import opened SchedulerSafety

  /** Steps taken by the batcher goroutine itself. */
  predicate ByBatcher(step: Step) {
    step.Pull? || step.Tick? || step.ObserveStop? || step.Acquire? || step.DrainPull? || step.DrainExit?
  }

  /** Steps that are neither clients, the caller of Stop, nor the passage of time. */
  predicate BySystem(step: Step) {
    !step.Submit? && !step.Advance? && !step.RequestStop?
  }

  function Count(p: Step -> bool, steps: seq<Step>): nat {
    if steps == [] then 0 else (if p(steps[0]) then 1 else 0) + Count(p, steps[1..])
  }

  // ---------------------------------------------------------------- waiting batches

  /** `s`'s waiting batch, possibly grown, is the first flush made after `s`. */
  ghost predicate FlushedSince(s: State, t: State) {
    && |s.flushes| < |t.flushes|
    && s.batch <= t.flushes[|s.flushes|].jobs
  }

  lemma {:induction false} FlushesGrow(c: Config, s: State, steps: seq<Step>)
    requires Feasible(c, s, steps)
    ensures s.flushes <= Run(c, s, steps).flushes
    decreases |steps|
  {
    if steps != [] {
      FlushesGrow(c, Apply(c, s, steps[0]), steps[1..]);
    }
  }

  /** A step taken while a tick is in the channel and a batch waits: either the batch goes out now, or it
      grew by a batcher step and the tick is still there, or the step was not the batcher's. */
  lemma PendingStep(c: Config, s: State, step: Step)
    requires Usable(c) && Bounded(c, s) && Enabled(c, s, step) && s.timer.Pending? && s.batch != []
    ensures var t := Apply(c, s, step);
            || FlushedSince(s, t)
            || (&& t.timer == s.timer && t.flushes == s.flushes && s.batch <= t.batch
                && |t.batch| == |s.batch| + (if ByBatcher(step) then 1 else 0))
  {
    var t := Apply(c, s, step);
    if ByBatcher(step) && t.flushes != s.flushes {
      assert t.flushes[|s.flushes|].jobs == t.unsent;
      assert s.batch <= t.unsent;
    }
  }

  /** Once the tick of a waiting batch is in the channel, the batch is flushed within
      MaxBatchSize - |batch| further batcher steps, whichever ready case select prefers. */
  lemma {:induction false} TickedBatchGoesOut(c: Config, s: State, steps: seq<Step>)
    requires Usable(c) && Inv(c, s) && Feasible(c, s, steps)
    requires s.timer.Pending? && s.batch != []
    requires Count(ByBatcher, steps) >= c.maxBatchSize - |s.batch|
    ensures FlushedSince(s, Run(c, s, steps))
    decreases |steps|
  {
    var step := steps[0];
    var t := Apply(c, s, step);
    PendingStep(c, s, step);
    if FlushedSince(s, t) {
      FlushesGrow(c, t, steps[1..]);
    } else {
      InvStep(c, s, step);
      TickedBatchGoesOut(c, t, steps[1..]);
    }
  }

  /** The select is never stuck with a ticked batch: the tick itself can be received. */
  lemma TickedBatchNotStuck(c: Config, s: State)
    requires Usable(c) && Inv(c, s) && s.timer.Pending? && s.batch != []
    ensures Enabled(c, s, Tick) && FlushedSince(s, Apply(c, s, Tick))
  {
    var t := Apply(c, s, Tick);
    assert t.flushes[|s.flushes|].jobs == s.batch;
  }

  /** In every reachable state a waiting batch has its own window running, measured from the moment its
      first job was pulled, or exactly that window's tick in the channel; never a stale tick. */
  lemma NoStaleTick(raw: Config, steps: seq<Step>)
    requires Feasible(New(raw), START, steps)
    ensures var c := New(raw); var s := Reach(raw, steps);
            s.batch != [] ==>
              && AtSelect(s) && |s.batch| < c.maxBatchSize
              && (|| s.timer == Armed(s.firstPulled + c.maxWait)
                  || (s.timer == Pending(s.firstPulled + c.maxWait) && s.firstPulled + c.maxWait <= s.now))
  {
    Reachable(raw, steps);
  }

  // ---------------------------------------------------------------- stopping

  /** What is left to do, weighted so that every system step uses some of it up. */
  function Remaining(s: State): nat {
    (match s.mode case Running => 2 case Draining => 1 case Exited => 0)
    + 6 * |s.queue| + 3 * |s.batch| + 3 * |s.unsent| + 2 * |s.calling| + |s.leaving|
    + (match s.timer case Idle => 0 case Armed(_) => 2 case Pending(_) => 1)
  }

  lemma UnsentNotCalling(s: State)
    requires Ordered(s) && Numbered(s) && Completed(s) && s.unsent != []
    ensures s.unsent[0] !in s.calling
  {
    UnsentNotHanded(s);
    assert s.unsent[0] !in ToSet(s.handed);
  }

  function Work(step: Step): nat {
    if BySystem(step) then 1 else 0
  }

  /** This step leaves less to do, one piece of work less if the system took it. */
  ghost predicate UsesUpWork(c: Config, s: State, step: Step)
    requires Enabled(c, s, step)
  {
    Remaining(Apply(c, s, step)) + Work(step) <= Remaining(s)
  }

  lemma PullUsesUpWork(c: Config, s: State)
    requires Enabled(c, s, Pull)
    ensures UsesUpWork(c, s, Pull)
  {
    var t := Apply(c, s, Pull);
    assert |t.queue| == |s.queue| - 1 && |t.batch| + |t.unsent| == |s.batch| + 1;
    assert t.mode == s.mode && t.calling == s.calling && t.leaving == s.leaving;
  }

  lemma FlushUsesUpWork(c: Config, s: State)
    requires AtSelect(s)
    ensures Enabled(c, s, Tick) ==> UsesUpWork(c, s, Tick)
    ensures Enabled(c, s, ObserveStop) ==> UsesUpWork(c, s, ObserveStop)
  {}

  lemma AcquireUsesUpWork(c: Config, s: State)
    requires Enabled(c, s, Acquire) && s.unsent[0] !in s.calling
    ensures UsesUpWork(c, s, Acquire)
  {
    assert |s.calling + {s.unsent[0]}| == |s.calling| + 1;
  }

  lemma DrainUsesUpWork(c: Config, s: State)
    ensures Enabled(c, s, DrainPull) ==> UsesUpWork(c, s, DrainPull)
    ensures Enabled(c, s, DrainExit) ==> UsesUpWork(c, s, DrainExit)
    ensures Enabled(c, s, Fire) ==> UsesUpWork(c, s, Fire)
  {}

  lemma CloseUsesUpWork(c: Config, s: State, step: Step)
    requires Enabled(c, s, step) && SlotsHeld(c, s) && (step.Fail? || step.Respond?)
    ensures UsesUpWork(c, s, step)
  {
    var t := Apply(c, s, step);
    assert t.calling == s.calling - {step.j} && t.leaving == s.leaving + {step.j};
    assert |t.calling| == |s.calling| - 1 && |t.leaving| == |s.leaving| + 1;
    assert t.queue == s.queue && t.batch == s.batch && t.unsent == s.unsent && t.timer == s.timer && t.mode == s.mode;
  }

  lemma ReleaseUsesUpWork(c: Config, s: State, j: JobId)
    requires Enabled(c, s, Release(j))
    ensures UsesUpWork(c, s, Release(j))
  {
    assert |s.leaving - {j}| == |s.leaving| - 1;
  }

  lemma SystemStepsUseUpWork(c: Config, s: State, step: Step)
    requires Enabled(c, s, step) && !step.Submit? && SlotsHeld(c, s)
    requires step.Acquire? ==> s.unsent[0] !in s.calling
    ensures Remaining(Apply(c, s, step)) + Work(step) <= Remaining(s)
  {
    match step
    case Advance(_) => assert UsesUpWork(c, s, step);
    case RequestStop => assert UsesUpWork(c, s, step);
    case Pull => PullUsesUpWork(c, s);
    case Tick => FlushUsesUpWork(c, s);
    case ObserveStop => FlushUsesUpWork(c, s);
    case Acquire => AcquireUsesUpWork(c, s);
    case DrainPull => DrainUsesUpWork(c, s);
    case DrainExit => DrainUsesUpWork(c, s);
    case Fire => DrainUsesUpWork(c, s);
    case Release(j) => ReleaseUsesUpWork(c, s, j);
    case Fail(_, _) => CloseUsesUpWork(c, s, step);
    case Respond(_, _) => CloseUsesUpWork(c, s, step);
    case Submit(_) =>
  }

  lemma InvStepUsesUpWork(c: Config, s: State, step: Step)
    requires Usable(c) && Inv(c, s) && Enabled(c, s, step) && !step.Submit?
    ensures Inv(c, Apply(c, s, step))
    ensures Remaining(Apply(c, s, step)) + Work(step) <= Remaining(s)
  {
    if step.Acquire? {
      UnsentNotCalling(s);
    }
    SystemStepsUseUpWork(c, s, step);
    InvStep(c, s, step);
  }

  ghost predicate NoSubmit(steps: seq<Step>) {
    forall i :: 0 <= i < |steps| ==> !steps[i].Submit?
  }

  lemma CountFirst(p: Step -> bool, steps: seq<Step>)
    requires steps != []
    ensures Count(p, steps) == (if p(steps[0]) then 1 else 0) + Count(p, steps[1..])
  {}

  /** Without further submissions, no scheduling of batcher, timer and workers takes more system steps than
      the work that was left: termination needs no fairness from select. */
  lemma {:induction false} DrainTerminates(c: Config, s: State, steps: seq<Step>)
    requires Usable(c) && Inv(c, s) && Feasible(c, s, steps) && NoSubmit(steps)
    ensures Count(BySystem, steps) + Remaining(Run(c, s, steps)) <= Remaining(s)
    decreases |steps|
  {
    if steps != [] {
      InvStepUsesUpWork(c, s, steps[0]);
      DrainTerminates(c, Apply(c, s, steps[0]), steps[1..]);
      CountFirst(BySystem, steps);
    }
  }

  ghost predicate Quiescent(c: Config, s: State) {
    forall step :: BySystem(step) ==> !Enabled(c, s, step)
  }

  /** After Stop, something can move until the batcher has returned and every worker is done. */
  lemma StoppedMoves(c: Config, s: State) returns (step: Step)
    requires Usable(c) && Bounded(c, s) && s.stopRequested
    requires s.mode != Exited || s.calling != {} || s.leaving != {}
    ensures BySystem(step) && Enabled(c, s, step)
  {
    if s.calling != {} {
      var j :| j in s.calling;
      step := Fail(j, "");
    } else if s.leaving != {} {
      var j :| j in s.leaving;
      step := Release(j);
    } else if s.unsent != [] {
      step := Acquire;
    } else if s.mode == Running {
      step := ObserveStop;
    } else {
      step := if s.queue != [] then DrainPull else DrainExit;
    }
  }

  lemma StoppedRest(c: Config, s: State)
    requires Usable(c) && Bounded(c, s) && s.stopRequested && Quiescent(c, s)
    ensures s.mode == Exited && s.calling == {} && s.leaving == {}
  {
    if s.mode != Exited || s.calling != {} || s.leaving != {} {
      var step := StoppedMoves(c, s);
    }
  }

  lemma {:induction false} NoSubmitKeepsAccepted(c: Config, s: State, steps: seq<Step>)
    requires Feasible(c, s, steps)
    requires NoSubmit(steps)
    ensures Run(c, s, steps).accepted == s.accepted
    ensures s.stopRequested ==> Run(c, s, steps).stopRequested
    ensures s.mode == Exited ==> Run(c, s, steps).acceptedAtExit == s.acceptedAtExit
    ensures (s.mode != Exited && Run(c, s, steps).mode == Exited) ==>
              Run(c, s, steps).acceptedAtExit == |s.accepted|
    decreases |steps|
  {
    if steps != [] {
      NoSubmitKeepsAccepted(c, Apply(c, s, steps[0]), steps[1..]);
    }
  }

  lemma SameElements<T>(a: seq<T>, b: seq<T>)
    requires Distinct(a) && Distinct(b) && ToSet(a) == ToSet(b)
    ensures multiset(a) == multiset(b)
  {
    forall x
      ensures multiset(a)[x] == multiset(b)[x]
    {
      DistinctMultiplicity(a, x);
      DistinctMultiplicity(b, x);
      assert x in multiset(a) <==> x in ToSet(a);
      assert x in multiset(b) <==> x in ToSet(b);
    }
  }

  /** Stop drains: when clients stop submitting before the batcher returns, every run from there that
      comes to rest has handed every accepted job to a worker, in order, and completed each exactly once. */
  lemma StopDrainsEverything(c: Config, s: State, steps: seq<Step>)
    requires Usable(c) && Inv(c, s) && s.stopRequested && s.mode != Exited
    requires Feasible(c, s, steps) && Quiescent(c, Run(c, s, steps))
    requires NoSubmit(steps)
    ensures var t := Run(c, s, steps);
            && t.mode == Exited
            && t.handed == s.accepted
            && multiset(t.closed) == multiset(s.accepted)
            && forall j :: j in s.accepted ==> (j in t.errs <==> j !in t.responses)
  {
    var t := Run(c, s, steps);
    InvAlways(c, s, steps);
    NoSubmitKeepsAccepted(c, s, steps);
    StoppedRest(c, t);
    assert t.accepted[..|t.accepted|] == t.accepted;
    assert forall j :: j in t.handed ==> j in ToSet(t.handed);
    assert Distinct(t.handed);
    SameElements(t.closed, t.handed);
  }

  lemma EitherSide<T>(a: seq<T>, b: seq<T>, i: nat)
    requires Distinct(a + b) && i < |a + b|
    ensures (a + b)[i] in a <==> i < |a|
    ensures (a + b)[i] in b <==> i >= |a|
  {
    var s := a + b;
    if i < |a| {
      assert forall k :: 0 <= k < |b| ==> b[k] == s[|a| + k];
    } else {
      assert s[i] == b[i - |a|];
      assert forall k :: 0 <= k < |a| ==> a[k] == s[k];
    }
  }

  /** After the exit the accepted jobs are those handed over and those left in the queue. */
  lemma AfterExit(raw: Config, steps: seq<Step>)
    requires Feasible(New(raw), START, steps)
    requires Reach(raw, steps).mode == Exited && Reach(raw, steps).calling == {}
    ensures var s := Reach(raw, steps);
            && s.accepted == s.handed + s.queue && Distinct(s.accepted) && |s.handed| == s.acceptedAtExit
            && ToSet(s.closed) == ToSet(s.handed)
  {
    Reachable(raw, steps);
    var s := Reach(raw, steps);
    assert s.unsent == [] && s.batch == [] && s.handed + [] + [] == s.handed;
  }

  lemma SameMembers<T>(a: seq<T>, b: seq<T>, x: T)
    requires ToSet(a) == ToSet(b)
    ensures x in a <==> x in b
  {
    assert x in a <==> x in ToSet(a);
    assert x in b <==> x in ToSet(b);
  }

  /** Submit does not look at the stop signal, so acceptance is no promise of service: once the batcher has
      returned and the workers are done, an accepted job was served if and only if it was accepted before
      the batcher returned. Later ones stay queued whatever happens next. */
  lemma ServedIffAcceptedBeforeExit(raw: Config, steps: seq<Step>, i: nat)
    requires Feasible(New(raw), START, steps)
    requires Reach(raw, steps).mode == Exited && Reach(raw, steps).calling == {}
    requires i < |Reach(raw, steps).accepted|
    ensures var s := Reach(raw, steps);
            && (s.accepted[i] in s.closed <==> i < s.acceptedAtExit)
            && (i >= s.acceptedAtExit <==> s.accepted[i] in s.queue)
  {
    AfterExit(raw, steps);
    var s := Reach(raw, steps);
    EitherSide(s.handed, s.queue, i);
    SameMembers(s.closed, s.handed, s.accepted[i]);
  }

  lemma RunFour(c: Config, s: State, a: Step, b: Step, d: Step, e: Step)
    requires Enabled(c, s, a) && Enabled(c, Apply(c, s, a), b)
    requires Enabled(c, Apply(c, Apply(c, s, a), b), d)
    requires Enabled(c, Apply(c, Apply(c, Apply(c, s, a), b), d), e)
    ensures Feasible(c, s, [a, b, d, e])
    ensures Run(c, s, [a, b, d, e]) == Apply(c, Apply(c, Apply(c, Apply(c, s, a), b), d), e)
  {
    assert [a, b, d, e][1..] == [b, d, e] && [b, d, e][1..] == [d, e] && [d, e][1..] == [e];
    assert [e][1..] == [];
    var s1 := Apply(c, s, a);
    var s2 := Apply(c, s1, b);
    var s3 := Apply(c, s2, d);
    assert Feasible(c, s3, [e]) && Run(c, s3, [e]) == Apply(c, s3, e);
    assert Feasible(c, s2, [d, e]) && Run(c, s2, [d, e]) == Apply(c, s3, e);
    assert Feasible(c, s1, [b, d, e]) && Run(c, s1, [b, d, e]) == Apply(c, s3, e);
  }

  /** The witness: stop an idle scheduler, let the batcher return, submit. */
  lemma OrphanedJob(raw: Config)
    ensures var steps := [RequestStop, ObserveStop, DrainExit, Submit("m")];
            && Feasible(New(raw), START, steps)
            && Reach(raw, steps).accepted == [0] && Reach(raw, steps).handed == []
            && Quiescent(New(raw), Reach(raw, steps))
  {
    var c := New(raw);
    var s1 := Apply(c, START, RequestStop);
    var s2 := Apply(c, s1, ObserveStop);
    var s3 := Apply(c, s2, DrainExit);
    var s4 := Apply(c, s3, Submit("m"));
    RunFour(c, START, RequestStop, ObserveStop, DrainExit, Submit("m"));
  }

  // ---------------------------------------------------------------- mixed models

  ghost predicate OneModel(s: State, f: Flush) {
    forall i, j :: 0 <= i < |f.jobs| && 0 <= j < |f.jobs| && f.jobs[i] < |s.models| && f.jobs[j] < |s.models|
                   ==> s.models[f.jobs[i]] == s.models[f.jobs[j]]
  }

  /** Whether every batch any run can flush holds jobs of one model only. */
  ghost predicate NeverMixes(raw: Config) {
    forall steps, k ::
      Feasible(New(raw), START, steps) && 0 <= k < |Reach(raw, steps).flushes|
      ==> OneModel(Reach(raw, steps), Reach(raw, steps).flushes[k])
  }

  lemma SingletonFlush(raw: Config, steps: seq<Step>, k: nat)
    requires raw.maxBatchSize <= 1 && Feasible(New(raw), START, steps) && k < |Reach(raw, steps).flushes|
    ensures |Reach(raw, steps).flushes[k].jobs| == 1
  {
    NothingLostOrReordered(raw, steps);
    assert FlushJustified(New(raw), Reach(raw, steps).flushes[k]);
  }

  lemma TwoModels(s: State, f: Flush)
    requires s.models == ["a", "b"] && f.jobs == [0, 1]
    ensures !OneModel(s, f)
  {
    assert s.models[f.jobs[0]] == "a" && s.models[f.jobs[1]] == "b" && "a"[0] != "b"[0];
  }

  lemma PullsTwo(c: Config) returns (s: State)
    requires Usable(c) && c.maxBatchSize >= 2
    ensures var steps := [Submit("a"), Pull, Submit("b"), Pull];
            Feasible(c, START, steps) && s == Run(c, START, steps)
    ensures s.models == ["a", "b"] && s.mode == Running
    ensures if c.maxBatchSize == 2 then |s.flushes| == 1 && s.flushes[0].jobs == [0, 1]
            else s.batch == [0, 1] && s.unsent == [] && s.flushes == []
  {
    var s1 := Apply(c, START, Submit("a"));
    var s2 := Apply(c, s1, Pull);
    var s3 := Apply(c, s2, Submit("b"));
    RunFour(c, START, Submit("a"), Pull, Submit("b"), Pull);
    s := Apply(c, s3, Pull);
  }

  lemma MixedRun(c: Config) returns (steps: seq<Step>)
    requires Usable(c) && c.maxBatchSize >= 2
    ensures Feasible(c, START, steps)
    ensures var s := Run(c, START, steps);
            && s.models == ["a", "b"] && |s.flushes| == 1 && s.flushes[0].jobs == [0, 1]
  {
    steps := [Submit("a"), Pull, Submit("b"), Pull];
    var s := PullsTwo(c);
    if c.maxBatchSize > 2 {
      var more := [Advance(0), RequestStop, ObserveStop, Advance(0)];
      RunFour(c, s, Advance(0), RequestStop, ObserveStop, Advance(0));
      RunAppend(c, START, steps, more);
      steps := steps + more;
    }
  }

  /** The comment promises batches of one model; the code keeps that promise exactly when MaxBatchSize is
      1 (or unset), that is, when it does not batch. */
  lemma NeverMixesIffNoBatching(raw: Config)
    ensures NeverMixes(raw) <==> raw.maxBatchSize <= 1
  {
    if raw.maxBatchSize <= 1 {
      forall steps, k | Feasible(New(raw), START, steps) && 0 <= k < |Reach(raw, steps).flushes|
        ensures OneModel(Reach(raw, steps), Reach(raw, steps).flushes[k])
      {
        SingletonFlush(raw, steps, k);
      }
    } else {
      var steps := MixedRun(New(raw));
      TwoModels(Reach(raw, steps), Reach(raw, steps).flushes[0]);
    }
  }
}
