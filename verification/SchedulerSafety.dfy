/** What every reachable state of the scheduler satisfies. */
module SchedulerSafety {
  import opened Collections
  import opened Scheduler

  ghost function FlushedJobs(flushes: seq<Flush>): seq<seq<JobId>> {
    seq(|flushes|, i requires 0 <= i < |flushes| => flushes[i].jobs)
  }

  /** No job is lost, duplicated or reordered. */
  ghost predicate Ordered(s: State) {
    s.accepted == s.handed + s.unsent + s.batch + s.queue
  }

  /** The flushed batches cut a prefix of the accepted sequence. */
  ghost predicate FlushesCut(s: State) {
    Flatten(FlushedJobs(s.flushes)) == s.handed + s.unsent
  }

  ghost predicate Numbered(s: State) {
    && (forall i, j :: 0 <= i < j < |s.accepted| ==> s.accepted[i] < s.accepted[j])
    && (forall i :: 0 <= i < |s.accepted| ==> s.accepted[i] < |s.models|)
    && |s.accepted| + |s.rejected| == |s.models|
  }

  /** Why each batch was flushed, and how large it was. */
  ghost predicate FlushJustified(c: Config, f: Flush) {
    && 1 <= |f.jobs| <= c.maxBatchSize
    && (f.reason == Size ==> |f.jobs| == c.maxBatchSize)
    && (f.reason == Time ==> f.firstPulled + c.maxWait <= f.at)
    && (f.reason == Drain ==> |f.jobs| == 1)
  }

  ghost predicate Justified(c: Config, s: State) {
    forall i :: 0 <= i < |s.flushes| ==> FlushJustified(c, s.flushes[i])
  }

  ghost predicate Bounded(c: Config, s: State) {
    && |s.queue| <= c.queueCapacity
    && |s.batch| < c.maxBatchSize
    && |s.unsent| <= c.maxBatchSize
    && (s.batch != [] ==> AtSelect(s))
    && (s.mode == Exited ==> s.unsent == [])
  }

  ghost predicate SlotsHeld(c: Config, s: State) {
    && s.calling !! s.leaving
    && |s.calling| + |s.leaving| <= c.workers
  }

  /** A waiting batch always has its own deadline running, or exactly that tick in the channel. */
  ghost predicate TimerSound(c: Config, s: State) {
    && (s.timer.Pending? ==> s.timer.deadline <= s.now)
    && (s.batch != [] ==>
          && s.timer != Idle
          && s.timer.deadline == s.firstPulled + c.maxWait
          && s.firstPulled <= s.now)
  }

  /** Done is closed once per finished job, and a finished job has exactly one of Err and Response. */
  ghost predicate Completed(s: State) {
    && Distinct(s.closed)
    && s.calling !! ToSet(s.closed)
    && s.calling + ToSet(s.closed) == ToSet(s.handed)
    && s.leaving <= ToSet(s.closed)
    && s.errs.Keys !! s.responses.Keys
    && s.errs.Keys + s.responses.Keys == ToSet(s.closed)
  }

  ghost predicate ExitRecorded(s: State) {
    s.mode == Exited ==> s.acceptedAtExit <= |s.accepted| && s.handed == s.accepted[..s.acceptedAtExit]
  }

  ghost predicate Inv(c: Config, s: State) {
    && Ordered(s) && FlushesCut(s) && Numbered(s) && Bounded(c, s) && Justified(c, s)
    && SlotsHeld(c, s) && TimerSound(c, s) && Completed(s) && ExitRecorded(s)
  }

  lemma FlushedAppend(flushes: seq<Flush>, f: Flush)
    ensures Flatten(FlushedJobs(flushes + [f])) == Flatten(FlushedJobs(flushes)) + f.jobs
  {
    var all := FlushedJobs(flushes + [f]);
    assert all[..|all| - 1] == FlushedJobs(flushes);
  }

  /** Moving jobs rightmost-first between neighbouring stages leaves the whole line as it was. */
  lemma LineKept<T>(done: seq<T>, u: seq<T>, b: seq<T>, q: seq<T>, u': seq<T>, b': seq<T>, q': seq<T>)
    requires u' + b' + q' == u + b + q
    ensures done + u' + b' + q' == done + u + b + q
  {
    assert done + u' + b' + q' == done + (u' + b' + q');
    assert done + u + b + q == done + (u + b + q);
  }

  lemma OrderedPull(c: Config, s: State)
    requires Ordered(s) && Enabled(c, s, Pull)
    ensures Ordered(Apply(c, s, Pull))
  {
    var t := Apply(c, s, Pull);
    var b' := s.batch + [s.queue[0]];
    assert s.queue == [s.queue[0]] + s.queue[1..];
    if |b'| >= c.maxBatchSize {
      assert t.unsent == b' && t.batch == [];
      LineKept(s.handed, [], s.batch, s.queue, b', [], s.queue[1..]);
    } else {
      assert t.unsent == [] && t.batch == b';
      LineKept(s.handed, [], s.batch, s.queue, [], b', s.queue[1..]);
    }
  }

  /** A flush moves the waiting batch into dispatchBatch. */
  lemma OrderedFlush(s: State, t: State)
    requires Ordered(s) && (s.batch != [] ==> s.unsent == [])
    requires t.accepted == s.accepted && t.handed == s.handed && t.queue == s.queue && t.batch == []
    requires t.unsent == if s.batch == [] then s.unsent else s.batch
    ensures Ordered(t)
  {
    LineKept(s.handed, s.unsent, s.batch, s.queue, t.unsent, [], s.queue);
  }

  /** The steps that move no job between the queue, the batch, the unsent rest and the workers. */
  predicate StaysInLine(step: Step) {
    step.Advance? || step.Fire? || step.RequestStop? || step.DrainExit? || step.Fail? || step.Respond? || step.Release?
  }

  lemma LineFrame(c: Config, s: State, step: Step)
    requires Enabled(c, s, step) && StaysInLine(step)
    ensures var t := Apply(c, s, step);
            && t.accepted == s.accepted && t.handed == s.handed && t.unsent == s.unsent && t.batch == s.batch
            && t.queue == s.queue && t.flushes == s.flushes
  {}

  lemma OrderedStep(c: Config, s: State, step: Step)
    requires Ordered(s) && Enabled(c, s, step)
    requires s.batch != [] ==> AtSelect(s)
    ensures Ordered(Apply(c, s, step))
  {
    var t := Apply(c, s, step);
    match step
    case Submit(_) =>
      assert t.accepted == t.handed + t.unsent + t.batch + t.queue;
    case Pull =>
      OrderedPull(c, s);
    case Tick =>
      OrderedFlush(s, t);
    case ObserveStop =>
      OrderedFlush(s, t);
    case DrainPull =>
      LineKept(s.handed, s.unsent, s.batch, s.queue, [s.queue[0]], s.batch, s.queue[1..]);
    case Acquire =>
      assert s.handed + s.unsent == t.handed + t.unsent;
    case _ =>
      LineFrame(c, s, step);
  }

  lemma FlushGrows(s: State, t: State)
    requires FlushesCut(s) && s.unsent == [] && t.handed == s.handed
    requires |t.flushes| == |s.flushes| + 1 && t.flushes[..|s.flushes|] == s.flushes
    requires t.flushes[|s.flushes|].jobs == t.unsent
    ensures FlushesCut(t)
  {
    var f := t.flushes[|s.flushes|];
    assert t.flushes == s.flushes + [f];
    FlushedAppend(s.flushes, f);
    assert s.handed + s.unsent == s.handed;
  }

  lemma FlushesCutFrame(s: State, t: State)
    requires FlushesCut(s) && t.flushes == s.flushes && t.handed + t.unsent == s.handed + s.unsent
    ensures FlushesCut(t)
  {}

  lemma FlushesCutPull(c: Config, s: State)
    requires FlushesCut(s) && Enabled(c, s, Pull)
    ensures FlushesCut(Apply(c, s, Pull))
  {
    var t := Apply(c, s, Pull);
    if t.flushes == s.flushes {
      assert t.unsent == s.unsent && t.handed == s.handed;
      FlushesCutFrame(s, t);
    } else {
      FlushGrows(s, t);
    }
  }

  lemma FlushesCutFlush(s: State, t: State)
    requires FlushesCut(s) && s.unsent == [] && t.handed == s.handed
    requires s.batch == [] ==> t.flushes == s.flushes && t.unsent == s.unsent
    requires s.batch != [] ==>
      && |t.flushes| == |s.flushes| + 1 && t.flushes[..|s.flushes|] == s.flushes
      && t.flushes[|s.flushes|].jobs == t.unsent
    ensures FlushesCut(t)
  {
    if s.batch == [] {
      FlushesCutFrame(s, t);
    } else {
      FlushGrows(s, t);
    }
  }

  lemma FlushesCutStep(c: Config, s: State, step: Step)
    requires FlushesCut(s) && Enabled(c, s, step)
    ensures FlushesCut(Apply(c, s, step))
  {
    var t := Apply(c, s, step);
    match step
    case Submit(_) =>
      FlushesCutFrame(s, t);
    case Acquire =>
      assert t.handed + t.unsent == s.handed + s.unsent;
      FlushesCutFrame(s, t);
    case Pull =>
      FlushesCutPull(c, s);
    case Tick =>
      FlushesCutFlush(s, t);
    case ObserveStop =>
      FlushesCutFlush(s, t);
    case DrainPull =>
      FlushGrows(s, t);
    case _ =>
      LineFrame(c, s, step);
      FlushesCutFrame(s, t);
  }

  predicate SameNumbers(s: State, t: State) {
    t.accepted == s.accepted && t.rejected == s.rejected && t.models == s.models && t.arrived == s.arrived
  }

  lemma OnlySubmitNumbers(c: Config, s: State, step: Step)
    requires Enabled(c, s, step) && !step.Submit?
    ensures SameNumbers(s, Apply(c, s, step))
  {
    var t := Apply(c, s, step);
    match step
    case Pull => assert SameNumbers(s, t);
    case Tick => assert SameNumbers(s, t);
    case ObserveStop => assert SameNumbers(s, t);
    case Acquire => assert SameNumbers(s, t);
    case DrainPull => assert SameNumbers(s, t);
    case _ =>
  }

  lemma NumberedStep(c: Config, s: State, step: Step)
    requires Numbered(s) && Enabled(c, s, step)
    ensures Numbered(Apply(c, s, step))
  {
    if !step.Submit? {
      OnlySubmitNumbers(c, s, step);
    }
  }

  lemma BoundedStep(c: Config, s: State, step: Step)
    requires Usable(c) && Bounded(c, s) && Enabled(c, s, step)
    ensures Bounded(c, Apply(c, s, step))
  {}

  lemma TimerSoundStep(c: Config, s: State, step: Step)
    requires Usable(c) && TimerSound(c, s) && Enabled(c, s, step)
    ensures TimerSound(c, Apply(c, s, step))
  {}

  lemma JustifiedStep(c: Config, s: State, step: Step)
    requires Usable(c) && Justified(c, s) && Bounded(c, s) && TimerSound(c, s) && Enabled(c, s, step)
    ensures Justified(c, Apply(c, s, step))
  {
    var t := Apply(c, s, step);
    if |t.flushes| > |s.flushes| {
      assert FlushJustified(c, t.flushes[|s.flushes|]);
    }
  }

  predicate SameWorkers(s: State, t: State) {
    && t.calling == s.calling && t.leaving == s.leaving && t.handed == s.handed
    && t.closed == s.closed && t.errs == s.errs && t.responses == s.responses
  }

  /** Only Acquire, a closing goroutine and Release move worker slots or touch a job handed over. */
  lemma WorkersFrame(c: Config, s: State, step: Step)
    requires Enabled(c, s, step) && !step.Acquire? && !step.Fail? && !step.Respond? && !step.Release?
    ensures SameWorkers(s, Apply(c, s, step))
  {
    var t := Apply(c, s, step);
    match step
    case Submit(_) => assert SameWorkers(s, t);
    case Pull => assert SameWorkers(s, t);
    case Tick => assert SameWorkers(s, t);
    case ObserveStop => assert SameWorkers(s, t);
    case DrainPull => assert SameWorkers(s, t);
    case _ => assert SameWorkers(s, t);
  }

  lemma SlotsHeldStep(c: Config, s: State, step: Step)
    requires SlotsHeld(c, s) && Enabled(c, s, step)
    requires step.Acquire? ==> s.unsent[0] !in s.leaving
    ensures SlotsHeld(c, Apply(c, s, step))
  {
    var t := Apply(c, s, step);
    match step
    case Acquire =>
      assert t.calling == s.calling + {s.unsent[0]} && t.leaving == s.leaving;
    case Fail(j, _) =>
      assert t.calling == s.calling - {j} && t.leaving == s.leaving + {j};
    case Respond(j, _) =>
      assert t.calling == s.calling - {j} && t.leaving == s.leaving + {j};
    case Release(j) =>
      assert t.calling == s.calling && t.leaving == s.leaving - {j};
    case _ =>
      WorkersFrame(c, s, step);
  }

  lemma ExitRecordedStep(c: Config, s: State, step: Step)
    requires Ordered(s) && Bounded(c, s) && ExitRecorded(s) && Enabled(c, s, step)
    ensures ExitRecorded(Apply(c, s, step))
  {}

  /** A job still waiting for a slot has not been handed over yet. */
  lemma UnsentNotHanded(s: State)
    requires Ordered(s) && Numbered(s) && s.unsent != []
    ensures s.unsent[0] !in s.handed
  {
    var n := |s.handed|;
    assert s.accepted[n] == s.unsent[0];
    assert forall i :: 0 <= i < n ==> s.accepted[i] == s.handed[i];
  }

  lemma CompletedAcquire(s: State, j: JobId)
    requires Completed(s) && j !in s.handed
    ensures Completed(s.(handed := s.handed + [j], calling := s.calling + {j}))
  {
    assert ToSet(s.handed + [j]) == ToSet(s.handed) + {j};
    assert j !in ToSet(s.handed);
  }

  lemma CompletedClose(s: State, t: State, j: JobId, outcome: string)
    requires Completed(s) && j in s.calling
    requires t == s.(calling := s.calling - {j}, leaving := s.leaving + {j}, closed := s.closed + [j],
                     errs := s.errs[j := outcome])
          || t == s.(calling := s.calling - {j}, leaving := s.leaving + {j}, closed := s.closed + [j],
                     responses := s.responses[j := outcome])
    ensures Completed(t)
  {
    assert ToSet(s.closed + [j]) == ToSet(s.closed) + {j};
    assert j !in ToSet(s.closed);
    assert t.errs.Keys + t.responses.Keys == s.errs.Keys + s.responses.Keys + {j};
  }

  lemma CompletedFrame(s: State, t: State)
    requires Completed(s)
    requires t.handed == s.handed && t.closed == s.closed && t.calling == s.calling
    requires t.leaving <= s.leaving && t.errs == s.errs && t.responses == s.responses
    ensures Completed(t)
  {}

  lemma CompletedStep(c: Config, s: State, step: Step)
    requires Completed(s) && Enabled(c, s, step)
    requires step.Acquire? ==> s.unsent[0] !in s.handed
    ensures Completed(Apply(c, s, step))
  {
    var t := Apply(c, s, step);
    match step
    case Acquire =>
      CompletedAcquire(s, s.unsent[0]);
      CompletedFrame(s.(handed := t.handed, calling := t.calling), t);
    case Fail(j, err) =>
      CompletedClose(s, t, j, err);
    case Respond(j, response) =>
      CompletedClose(s, t, j, response);
    case Release(j) =>
      assert t == s.(leaving := s.leaving - {j});
      CompletedFrame(s, t);
    case _ =>
      WorkersFrame(c, s, step);
      CompletedFrame(s, t);
  }

  lemma InvStep(c: Config, s: State, step: Step)
    requires Usable(c) && Inv(c, s) && Enabled(c, s, step)
    ensures Inv(c, Apply(c, s, step))
  {
    if step.Acquire? {
      UnsentNotHanded(s);
      assert s.unsent[0] !in ToSet(s.handed);
    }
    OrderedStep(c, s, step);
    FlushesCutStep(c, s, step);
    NumberedStep(c, s, step);
    BoundedStep(c, s, step);
    TimerSoundStep(c, s, step);
    JustifiedStep(c, s, step);
    SlotsHeldStep(c, s, step);
    CompletedStep(c, s, step);
    ExitRecordedStep(c, s, step);
  }

  /** The invariant holds along every run. */
  lemma {:induction false} InvAlways(c: Config, s: State, steps: seq<Step>)
    requires Usable(c) && Inv(c, s) && Feasible(c, s, steps)
    ensures Inv(c, Run(c, s, steps))
    decreases |steps|
  {
    if steps != [] {
      InvStep(c, s, steps[0]);
      InvAlways(c, Apply(c, s, steps[0]), steps[1..]);
    }
  }

  lemma StartInv(c: Config)
    requires Usable(c)
    ensures Inv(c, START)
  {
    assert ToSet<JobId>([]) == {};
  }

  ghost function Reach(raw: Config, steps: seq<Step>): State
    requires Feasible(New(raw), START, steps)
  {
    Run(New(raw), START, steps)
  }

  lemma Reachable(raw: Config, steps: seq<Step>)
    requires Feasible(New(raw), START, steps)
    ensures Inv(New(raw), Reach(raw, steps))
  {
    StartInv(New(raw));
    InvAlways(New(raw), START, steps);
  }

  lemma PrefixOfAccepted(s: State)
    requires Ordered(s)
    ensures s.handed + s.unsent <= s.accepted
  {
    assert s.accepted == (s.handed + s.unsent) + (s.batch + s.queue);
  }

  /** First-in first-out, no loss, no duplication, whatever the interleaving. */
  lemma NothingLostOrReordered(raw: Config, steps: seq<Step>)
    requires Feasible(New(raw), START, steps)
    ensures var s := Reach(raw, steps);
            && s.accepted == s.handed + s.unsent + s.batch + s.queue
            && Distinct(s.accepted)
            && Flatten(FlushedJobs(s.flushes)) == s.handed + s.unsent
            && Flatten(FlushedJobs(s.flushes)) <= s.accepted
            && forall i :: 0 <= i < |s.flushes| ==> FlushJustified(New(raw), s.flushes[i])
  {
    Reachable(raw, steps);
    PrefixOfAccepted(Reach(raw, steps));
  }

  /** At most Workers calls run, and the accepted but unfinished jobs fit in the queue, one batch
      and the worker slots. */
  lemma BoundedLoad(raw: Config, steps: seq<Step>)
    requires Feasible(New(raw), START, steps)
    ensures var c := New(raw); var s := Reach(raw, steps);
            && |s.calling| + |s.leaving| <= c.workers
            && |s.accepted| - |s.closed| <= c.queueCapacity + c.maxBatchSize + c.workers
            && |s.accepted| + |s.rejected| == |s.models|
  {
    Reachable(raw, steps);
    var s := Reach(raw, steps);
    DistinctCardinality(s.closed);
    assert forall i :: 0 <= i < |s.handed| ==> s.handed[i] == s.accepted[i];
    DistinctCardinality(s.handed);
    assert |s.handed| == |s.calling| + |s.closed|;
  }

  /** Submit sheds a job exactly when the queue already holds its capacity. */
  lemma ShedExactlyWhenFull(raw: Config, steps: seq<Step>, model: string)
    requires Feasible(New(raw), START, steps)
    ensures var c := New(raw); var s := Reach(raw, steps); var t := Apply(c, s, Submit(model));
            && (t.rejected != s.rejected <==> |s.queue| == c.queueCapacity)
            && (t.rejected != s.rejected ==> t.queue == s.queue && t.accepted == s.accepted)
            && (t.rejected == s.rejected ==>
                  t.accepted == s.accepted + [|s.models|] && t.queue == s.queue + [|s.models|])
            && t.models == s.models + [model] && t.arrived == s.arrived + [s.now]
  {
    Reachable(raw, steps);
  }

  // ---------------------------------------------------------------- outcomes

  predicate ErrIs(s: State, j: JobId, err: string) {
    j in s.errs && s.errs[j] == err
  }

  predicate ResponseIs(s: State, j: JobId, response: string) {
    j in s.responses && s.responses[j] == response
  }

  /** What a step writes at job j. */
  ghost predicate Writes(s: State, t: State, step: Step, j: JobId, text: string) {
    && (ErrIs(t, j, text) <==> ErrIs(s, j, text) || step == Fail(j, text))
    && (ResponseIs(t, j, text) <==> ResponseIs(s, j, text) || step == Respond(j, text))
  }

  lemma MapsWrite(s: State, t: State, step: Step, j: JobId, text: string)
    requires step.Fail? || step.Respond? ==> step.j !in s.errs && step.j !in s.responses
    requires t.errs == if step.Fail? then s.errs[step.j := step.err] else s.errs
    requires t.responses == if step.Respond? then s.responses[step.j := step.response] else s.responses
    ensures Writes(s, t, step, j, text)
  {}

  lemma NoOutcomeYet(s: State, j: JobId)
    requires Completed(s) && j in s.calling
    ensures j !in s.errs && j !in s.responses
  {
    assert j !in ToSet(s.closed);
  }

  /** Only the goroutine of job j writes its outcome, and what it writes is what its call came to. */
  lemma OutcomeStep(c: Config, s: State, step: Step, j: JobId, text: string)
    requires Completed(s) && Enabled(c, s, step)
    ensures Writes(s, Apply(c, s, step), step, j, text)
  {
    match step
    case Fail(k, _) =>
      NoOutcomeYet(s, k);
      MapsWrite(s, Apply(c, s, step), step, j, text);
    case Respond(k, _) =>
      NoOutcomeYet(s, k);
      MapsWrite(s, Apply(c, s, step), step, j, text);
    case Acquire =>
      MapsWrite(s, Apply(c, s, step), step, j, text);
    case Release(_) =>
      MapsWrite(s, Apply(c, s, step), step, j, text);
    case _ =>
      WorkersFrame(c, s, step);
      MapsWrite(s, Apply(c, s, step), step, j, text);
  }

  lemma WritesThen(s: State, t: State, u: State, steps: seq<Step>, j: JobId, text: string)
    requires steps != [] && Writes(s, t, steps[0], j, text)
    requires ErrIs(u, j, text) <==> ErrIs(t, j, text) || Fail(j, text) in steps[1..]
    requires ResponseIs(u, j, text) <==> ResponseIs(t, j, text) || Respond(j, text) in steps[1..]
    ensures ErrIs(u, j, text) <==> ErrIs(s, j, text) || Fail(j, text) in steps
    ensures ResponseIs(u, j, text) <==> ResponseIs(s, j, text) || Respond(j, text) in steps
  {
    assert steps == [steps[0]] + steps[1..];
  }

  lemma {:induction false} OutcomeAlways(c: Config, s: State, steps: seq<Step>, j: JobId, text: string)
    requires Usable(c) && Inv(c, s) && Feasible(c, s, steps)
    ensures ErrIs(Run(c, s, steps), j, text) <==> ErrIs(s, j, text) || Fail(j, text) in steps
    ensures ResponseIs(Run(c, s, steps), j, text) <==> ResponseIs(s, j, text) || Respond(j, text) in steps
    decreases |steps|
  {
    if steps != [] {
      var t := Apply(c, s, steps[0]);
      OutcomeStep(c, s, steps[0], j, text);
      InvStep(c, s, steps[0]);
      OutcomeAlways(c, t, steps[1..], j, text);
      WritesThen(s, t, Run(c, s, steps), steps, j, text);
    }
  }

  /** After any run a job's Err is an error exactly when its call failed with that error, and its Response is a
      response exactly when its call returned that response. */
  lemma OutcomeIsTheCalls(raw: Config, steps: seq<Step>, j: JobId, text: string)
    requires Feasible(New(raw), START, steps)
    ensures var s := Reach(raw, steps);
            && ((j in s.errs && s.errs[j] == text) <==> Fail(j, text) in steps)
            && ((j in s.responses && s.responses[j] == text) <==> Respond(j, text) in steps)
  {
    StartInv(New(raw));
    OutcomeAlways(New(raw), START, steps, j, text);
  }

  /** Once its Done is closed, a job has exactly one of Err and Response, and Done is closed once: Err if its call
      failed, Response if it returned. */
  lemma CompletedOnce(raw: Config, steps: seq<Step>, j: JobId)
    requires Feasible(New(raw), START, steps)
    ensures var s := Reach(raw, steps);
            && multiset(s.closed)[j] <= 1
            && (j in s.closed <==> j in s.handed && j !in s.calling)
            && (j in s.closed <==> (j in s.errs || j in s.responses))
            && !(j in s.errs && j in s.responses)
            && (j in s.errs ==> Fail(j, s.errs[j]) in steps)
            && (j in s.responses ==> Respond(j, s.responses[j]) in steps)
  {
    Reachable(raw, steps);
    var s := Reach(raw, steps);
    DistinctMultiplicity(s.closed, j);
    assert j in s.closed <==> j in ToSet(s.closed);
    assert j in s.handed <==> j in ToSet(s.handed);
    if j in s.errs {
      OutcomeIsTheCalls(raw, steps, j, s.errs[j]);
    }
    if j in s.responses {
      OutcomeIsTheCalls(raw, steps, j, s.responses[j]);
    }
  }
}
