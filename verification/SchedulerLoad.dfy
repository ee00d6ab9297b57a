/** The bounds on the scheduler's load are reached: nothing is held back below them. */
module SchedulerLoad {
  import opened Scheduler
  import opened SchedulerSafety
  import opened SchedulerLiveness

  ghost predicate Reaches(c: Config, steps: seq<Step>, s: State) {
    Feasible(c, START, steps) && Run(c, START, steps) == s
  }

  lemma OneStep(c: Config, steps: seq<Step>, s: State, step: Step)
    requires Reaches(c, steps, s) && Enabled(c, s, step)
    ensures Reaches(c, steps + [step], Apply(c, s, step))
  {
    var t := Apply(c, s, step);
    assert Feasible(c, t, [step][1..]) && Run(c, t, [step][1..]) == t;
    RunAppend(c, START, steps, [step]);
  }

  /** Nothing has finished: `dispatched` jobs hold slots, `pulled` are with the batcher, `queued` in the queue. */
  ghost predicate Loaded(s: State, dispatched: nat, pulled: nat, queued: nat) {
    && s.mode == Running && s.closed == [] && s.leaving == {}
    && |s.calling| == dispatched && |s.batch| + |s.unsent| == pulled && |s.queue| == queued
    && |s.accepted| == dispatched + pulled + queued
  }

  lemma SubmitLoads(c: Config, steps: seq<Step>, s: State, d: nat, p: nat, q: nat) returns (t: State)
    requires Reaches(c, steps, s) && Loaded(s, d, p, q) && q < c.queueCapacity
    ensures Reaches(c, steps + [Submit("m")], t) && Loaded(t, d, p, q + 1)
    ensures t.batch == s.batch && t.unsent == s.unsent && t.timer == s.timer && t.queue != []
  {
    t := Apply(c, s, Submit("m"));
    OneStep(c, steps, s, Submit("m"));
  }

  /** A queued job joins the batch, or fills it up and has it flushed. */
  lemma PullLoads(c: Config, steps: seq<Step>, s: State, d: nat, p: nat, q: nat) returns (t: State)
    requires Usable(c) && Reaches(c, steps, s) && Loaded(s, d, p, q) && q >= 1
    requires s.unsent == [] && p < c.maxBatchSize
    ensures Reaches(c, steps + [Pull], t) && Loaded(t, d, p + 1, q - 1)
    ensures if p + 1 == c.maxBatchSize then t.batch == [] else t.unsent == []
    ensures p == 0 && c.maxBatchSize > 1 ==> t.timer == Armed(t.now + c.maxWait)
  {
    t := Apply(c, s, Pull);
    OneStep(c, steps, s, Pull);
  }

  /** When a batch is waiting, the timer can run out and flush it. */
  lemma TimeFlushes(c: Config, steps: seq<Step>, s: State, d: nat, p: nat) returns (steps': seq<Step>, t: State)
    requires Usable(c) && Reaches(c, steps, s) && Loaded(s, d, p, 0) && p >= 1
    requires s.unsent == [] && s.timer == Armed(s.now + c.maxWait)
    ensures Reaches(c, steps', t) && Loaded(t, d, p, 0) && t.batch == []
  {
    var s1 := Apply(c, s, Advance(c.maxWait));
    OneStep(c, steps, s, Advance(c.maxWait));
    var s2 := Apply(c, s1, Fire);
    OneStep(c, steps + [Advance(c.maxWait)], s1, Fire);
    t := Apply(c, s2, Tick);
    OneStep(c, steps + [Advance(c.maxWait)] + [Fire], s2, Tick);
    steps' := steps + [Advance(c.maxWait)] + [Fire] + [Tick];
  }

  lemma StartedInv(c: Config, steps: seq<Step>, s: State)
    requires Usable(c) && Reaches(c, steps, s)
    ensures Inv(c, s)
  {
    StartInv(c);
    InvAlways(c, START, steps);
  }

  lemma AcquireLoads(c: Config, steps: seq<Step>, s: State, d: nat, p: nat) returns (t: State)
    requires Usable(c) && Reaches(c, steps, s) && Loaded(s, d, p, 0) && s.batch == [] && p >= 1 && d < c.workers
    ensures Reaches(c, steps + [Acquire], t) && Loaded(t, d + 1, p - 1, 0) && t.batch == []
  {
    t := Apply(c, s, Acquire);
    OneStep(c, steps, s, Acquire);
    StartedInv(c, steps, s);
    UnsentNotCalling(s);
    assert t.calling == s.calling + {s.unsent[0]};
  }

  /** One more job gets a slot, by itself. */
  lemma Dispatch(c: Config, steps: seq<Step>, s: State, d: nat) returns (steps': seq<Step>, t: State)
    requires Usable(c) && Reaches(c, steps, s) && Loaded(s, d, 0, 0) && d < c.workers
    ensures Reaches(c, steps', t) && Loaded(t, d + 1, 0, 0)
  {
    var s1 := SubmitLoads(c, steps, s, d, 0, 0);
    steps' := steps + [Submit("m")];
    var s2 := PullLoads(c, steps', s1, d, 0, 1);
    steps' := steps' + [Pull];
    if c.maxBatchSize > 1 {
      steps', s2 := TimeFlushes(c, steps', s2, d, 1);
    }
    t := AcquireLoads(c, steps', s2, d, 1);
    steps' := steps' + [Acquire];
  }

  lemma {:induction false} FillSlots(c: Config, n: nat) returns (steps: seq<Step>, s: State)
    requires Usable(c) && n <= c.workers
    ensures Reaches(c, steps, s) && Loaded(s, n, 0, 0)
  {
    if n == 0 {
      steps, s := [], START;
    } else {
      steps, s := FillSlots(c, n - 1);
      steps, s := Dispatch(c, steps, s, n - 1);
    }
  }

  /** With all slots taken, n jobs wait with the batcher. */
  lemma {:induction false} FillBatch(c: Config, n: nat) returns (steps: seq<Step>, s: State)
    requires Usable(c) && n <= c.maxBatchSize
    ensures Reaches(c, steps, s) && Loaded(s, c.workers, n, 0) && (n < c.maxBatchSize ==> s.unsent == [])
  {
    if n == 0 {
      steps, s := FillSlots(c, c.workers);
    } else {
      steps, s := FillBatch(c, n - 1);
      s := SubmitLoads(c, steps, s, c.workers, n - 1, 0);
      steps := steps + [Submit("m")];
      s := PullLoads(c, steps, s, c.workers, n - 1, 1);
      steps := steps + [Pull];
    }
  }

  lemma {:induction false} FillQueue(c: Config, n: nat) returns (steps: seq<Step>, s: State)
    requires Usable(c) && n <= c.queueCapacity
    ensures Reaches(c, steps, s) && Loaded(s, c.workers, c.maxBatchSize, n)
  {
    if n == 0 {
      steps, s := FillBatch(c, c.maxBatchSize);
    } else {
      steps, s := FillQueue(c, n - 1);
      s := SubmitLoads(c, steps, s, c.workers, c.maxBatchSize, n - 1);
      steps := steps + [Submit("m")];
    }
  }

  /** For every configuration a run reaches both bounds at once: Workers dispatches at work, and as many accepted and
      unfinished jobs as slots, one batch and the queue hold. The next job is shed. */
  lemma BoundsReached(raw: Config) returns (steps: seq<Step>)
    ensures Feasible(New(raw), START, steps)
    ensures var c := New(raw); var s := Reach(raw, steps);
            && |s.calling| == c.workers && |s.queue| == c.queueCapacity
            && |s.accepted| - |s.closed| == c.queueCapacity + c.maxBatchSize + c.workers
            && |Apply(c, s, Submit("m")).rejected| == |s.rejected| + 1
  {
    var s;
    steps, s := FillQueue(New(raw), New(raw).queueCapacity);
  }
}
