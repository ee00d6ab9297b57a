/** The micro-batching scheduler as a transition system. Every goroutine action that another
    goroutine can observe is one step; a run is a list of steps, so a statement about all runs
    covers every interleaving of submitters, batcher, timer, workers and Stop, and every choice
    `select` can make among ready cases. */
module Scheduler {
  type JobId = nat

  /** Durations and the clock are in one integer unit. */
  datatype Config = Config(maxBatchSize: int, maxWait: int, queueCapacity: int, workers: int)

  /** 25 milliseconds, in nanoseconds. */
  const DEFAULT_WAIT := 25_000_000
  const DEFAULT_CAPACITY := 1024
  const DEFAULT_WORKERS := 8

  predicate Usable(c: Config) {
    c.maxBatchSize >= 1 && c.maxWait >= 1 && c.queueCapacity >= 1 && c.workers >= 1
  }

  /** The knobs after New has replaced the unusable ones. */
  function New(raw: Config): (c: Config)
    ensures Usable(c)
    ensures c.maxBatchSize == if raw.maxBatchSize >= 1 then raw.maxBatchSize else 1
    ensures c.maxWait == if raw.maxWait >= 1 then raw.maxWait else 25_000_000
    ensures c.queueCapacity == if raw.queueCapacity >= 1 then raw.queueCapacity else 1024
    ensures c.workers == if raw.workers >= 1 then raw.workers else 8
  {
    Config(
      if raw.maxBatchSize <= 0 then 1 else raw.maxBatchSize,
      if raw.maxWait <= 0 then DEFAULT_WAIT else raw.maxWait,
      if raw.queueCapacity <= 0 then DEFAULT_CAPACITY else raw.queueCapacity,
      if raw.workers <= 0 then DEFAULT_WORKERS else raw.workers)
  }

  /** The wait-window timer: stopped or consumed, running, or fired with its tick in the channel. */
  datatype Timer = Idle | Armed(deadline: int) | Pending(deadline: int)

  /** Where the batcher is: in the outer select loop, in the shutdown drain loop, or returned.
      While `unsent` is nonempty it is inside dispatchBatch instead. */
  datatype Mode = Running | Draining | Exited

  datatype Reason = Size | Time | Shutdown | Drain

  datatype Flush = Flush(jobs: seq<JobId>, reason: Reason, firstPulled: int, at: int)

  datatype State = State(
    now: int,
    stopRequested: bool,
    mode: Mode,
    queue: seq<JobId>,
    batch: seq<JobId>,
    firstPulled: int,               // when the first job of `batch` was pulled
    unsent: seq<JobId>,             // rest of the flushed batch that has no worker slot yet
    timer: Timer,
    calling: set<JobId>,            // goroutines inside the dispatcher, each holding a slot
    leaving: set<JobId>,            // goroutines that closed Done and still hold their slot
    errs: map<JobId, string>,       // Job.Err
    responses: map<JobId, string>,  // Job.Response
    // histories
    models: seq<string>,            // Job.Model of every submission; a JobId indexes it
    arrived: seq<int>,              // when each submission was made
    accepted: seq<JobId>,
    rejected: seq<JobId>,
    flushes: seq<Flush>,
    handed: seq<JobId>,             // jobs given a worker slot, in order
    closed: seq<JobId>,             // every close(j.Done), in order
    acceptedAtExit: nat)            // |accepted| when the batcher returned

  datatype Step =
    | Submit(model: string)
    | Advance(dt: nat)
    | Fire
    | RequestStop
    | Pull
    | Tick
    | ObserveStop
    | Acquire
    | DrainPull
    | DrainExit
    | Fail(j: JobId, err: string)
    | Respond(j: JobId, response: string)
    | Release(j: JobId)

  const START: State :=
    State(0, false, Running, [], [], 0, [], Idle, {}, {}, map[], map[], [], [], [], [], [], [], [], 0)

  predicate AtSelect(s: State) {
    s.mode == Running && s.unsent == []
  }

  predicate Enabled(c: Config, s: State, step: Step) {
    match step
    case Submit(_) => true
    case Advance(_) => true
    case Fire => s.timer.Armed? && s.timer.deadline <= s.now
    case RequestStop => true
    case Pull => AtSelect(s) && s.queue != []
    case Tick => AtSelect(s) && s.timer.Pending?
    case ObserveStop => AtSelect(s) && s.stopRequested
    case Acquire => s.unsent != [] && |s.calling| + |s.leaving| < c.workers
    case DrainPull => s.mode == Draining && s.unsent == [] && s.queue != []
    case DrainExit => s.mode == Draining && s.unsent == [] && s.queue == []
    case Fail(j, _) => j in s.calling
    case Respond(j, _) => j in s.calling
    case Release(j) => j in s.leaving
  }

  /** The closure `flush`: nothing on an empty batch, otherwise the batch goes to dispatchBatch. */
  function FlushBatch(s: State, reason: Reason): State {
    if s.batch == [] then s
    else s.(batch := [], unsent := s.batch,
            flushes := s.flushes + [Flush(s.batch, reason, s.firstPulled, s.now)])
  }

  function Apply(c: Config, s: State, step: Step): State
    requires Enabled(c, s, step)
  {
    match step
    case Submit(model) =>
      var j := |s.models|;
      var s' := s.(models := s.models + [model], arrived := s.arrived + [s.now]);
      if |s.queue| < c.queueCapacity
      then s'.(queue := s.queue + [j], accepted := s.accepted + [j])
      else s'.(rejected := s.rejected + [j])
    case Advance(dt) => s.(now := s.now + dt)
    case Fire => s.(timer := Pending(s.timer.deadline))
    case RequestStop => s.(stopRequested := true)
    case Pull =>
      var armed := if s.batch == [] then s.(timer := Armed(s.now + c.maxWait), firstPulled := s.now) else s;
      var s' := armed.(queue := s.queue[1..], batch := s.batch + [s.queue[0]]);
      if |s'.batch| >= c.maxBatchSize then FlushBatch(s', Size) else s'
    case Tick => FlushBatch(s.(timer := Idle), Time)
    case ObserveStop => FlushBatch(s.(mode := Draining), Shutdown)
    case Acquire =>
      var j := s.unsent[0];
      s.(unsent := s.unsent[1..], handed := s.handed + [j], calling := s.calling + {j})
    case DrainPull =>
      s.(queue := s.queue[1..], unsent := [s.queue[0]],
         flushes := s.flushes + [Flush([s.queue[0]], Drain, s.now, s.now)])
    case DrainExit => s.(mode := Exited, acceptedAtExit := |s.accepted|)
    case Fail(j, err) =>
      s.(calling := s.calling - {j}, leaving := s.leaving + {j},
         errs := s.errs[j := err], closed := s.closed + [j])
    case Respond(j, response) =>
      s.(calling := s.calling - {j}, leaving := s.leaving + {j},
         responses := s.responses[j := response], closed := s.closed + [j])
    case Release(j) => s.(leaving := s.leaving - {j})
  }

  /** Each step of the list is enabled when its turn comes. */
  predicate Feasible(c: Config, s: State, steps: seq<Step>)
    decreases |steps|
  {
    steps == [] || (Enabled(c, s, steps[0]) && Feasible(c, Apply(c, s, steps[0]), steps[1..]))
  }

  function Run(c: Config, s: State, steps: seq<Step>): State
    requires Feasible(c, s, steps)
    decreases |steps|
  {
    if steps == [] then s else Run(c, Apply(c, s, steps[0]), steps[1..])
  }

  lemma {:induction false} RunAppend(c: Config, s: State, a: seq<Step>, b: seq<Step>)
    requires Feasible(c, s, a) && Feasible(c, Run(c, s, a), b)
    ensures Feasible(c, s, a + b) && Run(c, s, a + b) == Run(c, Run(c, s, a), b)
    decreases |a|
  {
    if a == [] {
      assert a + b == b;
    } else {
      assert (a + b)[0] == a[0] && (a + b)[1..] == a[1..] + b;
      RunAppend(c, Apply(c, s, a[0]), a[1..], b);
    }
  }
}
