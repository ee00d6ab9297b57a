/** The mock backend's lock-free maximum: handlers count themselves in, publish the count with a
    compare-and-swap loop, serve, and count themselves out. Loads, adds and swaps are atomic. */
module MockBackend {
  /** Where a handler is. `cur` is what its own increment returned. */
  datatype Handler =
    | Looping(cur: int)           // about to load the maximum
    | Loaded(cur: int, seen: int) // about to compare
    | Serving
    | Gone

  datatype State = State(inFlight: int, maxInFlight: int, peak: int, handlers: seq<Handler>)

  datatype Step =
    | Enter
    | Load(h: nat)
    | Compare(h: nat) // leave when cur <= seen, else compare-and-swap
    | Exit(h: nat)

  const START := State(0, 0, 0, [])

  predicate Enabled(s: State, step: Step) {
    match step
    case Enter => true
    case Load(h) => h < |s.handlers| && s.handlers[h].Looping?
    case Compare(h) => h < |s.handlers| && s.handlers[h].Loaded?
    case Exit(h) => h < |s.handlers| && s.handlers[h].Serving?
  }

  function Apply(s: State, step: Step): State
    requires Enabled(s, step)
  {
    match step
    case Enter =>
      var cur := s.inFlight + 1;
      s.(inFlight := cur, peak := if cur > s.peak then cur else s.peak, handlers := s.handlers + [Looping(cur)])
    case Load(h) => s.(handlers := s.handlers[h := Loaded(s.handlers[h].cur, s.maxInFlight)])
    case Compare(h) =>
      var cur, seen := s.handlers[h].cur, s.handlers[h].seen;
      if cur <= seen then s.(handlers := s.handlers[h := Serving])
      else if s.maxInFlight == seen then s.(maxInFlight := cur, handlers := s.handlers[h := Serving])
      else s.(handlers := s.handlers[h := Looping(cur)])
    case Exit(h) => s.(inFlight := s.inFlight - 1, handlers := s.handlers[h := Gone])
  }

  predicate Feasible(s: State, steps: seq<Step>)
    decreases |steps|
  {
    steps == [] || (Enabled(s, steps[0]) && Feasible(Apply(s, steps[0]), steps[1..]))
  }

  function Run(s: State, steps: seq<Step>): State
    requires Feasible(s, steps)
    decreases |steps|
  {
    if steps == [] then s else Run(Apply(s, steps[0]), steps[1..])
  }

  predicate InLoop(h: Handler) {
    h.Looping? || h.Loaded?
  }

  /** A handler still in the loop whose own count exceeds v. */
  predicate Above(h: Handler, v: int) {
    InLoop(h) && h.cur > v
  }

  function CountAbove(hs: seq<Handler>, v: int): nat {
    if hs == [] then 0
    else CountAbove(hs[..|hs| - 1], v) + (if Above(hs[|hs| - 1], v) then 1 else 0)
  }

  function CountInLoop(hs: seq<Handler>): nat {
    if hs == [] then 0
    else CountInLoop(hs[..|hs| - 1]) + (if InLoop(hs[|hs| - 1]) then 1 else 0)
  }

  lemma {:induction false} CountUpdate(hs: seq<Handler>, i: nat, h: Handler, v: int)
    requires i < |hs|
    ensures CountAbove(hs[i := h], v)
         == CountAbove(hs, v) - (if Above(hs[i], v) then 1 else 0) + (if Above(h, v) then 1 else 0)
    decreases |hs|
  {
    var n := |hs| - 1;
    if i < n {
      CountUpdate(hs[..n], i, h, v);
      assert hs[i := h][..n] == hs[..n][i := h];
    } else {
      assert hs[i := h][..n] == hs[..n];
    }
  }

  lemma {:induction false} AboveInLoop(hs: seq<Handler>, v: int)
    ensures CountAbove(hs, v) <= CountInLoop(hs)
  {
    if hs != [] {
      AboveInLoop(hs[..|hs| - 1], v);
    }
  }

  ghost predicate Covered(s: State, v: int) {
    s.inFlight - v <= CountAbove(s.handlers, v)
  }

  /** At every level from the published maximum up, what is in flight beyond it is still in the loop. */
  ghost predicate AllCovered(s: State) {
    forall v :: s.maxInFlight <= v ==> Covered(s, v)
  }

  /** A loaded maximum was published, and no handler's own count exceeds the true peak. */
  ghost predicate Honest(s: State) {
    && s.inFlight <= s.peak
    && 0 <= s.maxInFlight <= s.peak
    && forall i :: 0 <= i < |s.handlers| ==>
         && (s.handlers[i].Loaded? ==> s.handlers[i].seen <= s.maxInFlight)
         && (InLoop(s.handlers[i]) ==> s.handlers[i].cur <= s.peak)
  }

  /** The peak is published, or the handler that saw it is still in the loop. */
  ghost predicate PeakKept(s: State) {
    s.peak <= s.maxInFlight || exists i :: 0 <= i < |s.handlers| && InLoop(s.handlers[i]) && s.handlers[i].cur == s.peak
  }

  lemma AllCoveredStep(s: State, step: Step)
    requires AllCovered(s) && Honest(s) && Enabled(s, step)
    ensures AllCovered(Apply(s, step))
  {
    var t := Apply(s, step);
    forall v | t.maxInFlight <= v
      ensures Covered(t, v)
    {
      assert Covered(s, v);
      match step
      case Enter =>
        assert t.handlers[..|s.handlers|] == s.handlers;
      case Load(h) => CountUpdate(s.handlers, h, t.handlers[h], v);
      case Compare(h) => CountUpdate(s.handlers, h, t.handlers[h], v);
      case Exit(h) => CountUpdate(s.handlers, h, t.handlers[h], v);
    }
  }

  lemma PeakKeptStep(s: State, step: Step)
    requires PeakKept(s) && Honest(s) && Enabled(s, step)
    ensures PeakKept(Apply(s, step)) && Honest(Apply(s, step))
    ensures Apply(s, step).maxInFlight >= s.maxInFlight && Apply(s, step).peak >= s.peak
  {
    var t := Apply(s, step);
    if t.peak > t.maxInFlight {
      if step.Enter? && t.peak > s.peak {
        assert t.handlers[|s.handlers|] == Looping(t.peak);
      } else {
        var i :| 0 <= i < |s.handlers| && InLoop(s.handlers[i]) && s.handlers[i].cur == s.peak;
        assert InLoop(t.handlers[i]) && t.handlers[i].cur == t.peak;
      }
    }
  }

  lemma {:induction false} Invariant(s: State, steps: seq<Step>)
    requires AllCovered(s) && Honest(s) && PeakKept(s) && Feasible(s, steps)
    ensures var t := Run(s, steps);
            && AllCovered(t) && Honest(t) && PeakKept(t)
            && t.maxInFlight >= s.maxInFlight && t.peak >= s.peak >= s.inFlight
    decreases |steps|
  {
    if steps != [] {
      AllCoveredStep(s, steps[0]);
      PeakKeptStep(s, steps[0]);
      Invariant(Apply(s, steps[0]), steps[1..]);
    }
  }

  /** Under any interleaving the maximum never decreases, and what is in flight beyond it is bounded by the
      handlers that have counted themselves in and not left the loop. */
  lemma MaximumSound(steps: seq<Step>, more: seq<Step>)
    requires Feasible(START, steps) && Feasible(Run(START, steps), more)
    ensures var s := Run(START, steps);
            && s.inFlight <= s.maxInFlight + CountInLoop(s.handlers)
            && s.maxInFlight <= Run(s, more).maxInFlight
  {
    Invariant(START, steps);
    var s := Run(START, steps);
    Invariant(s, more);
    assert Covered(s, s.maxInFlight);
    AboveInLoop(s.handlers, s.maxInFlight);
  }

  /** No prefix of the run had more in flight than the peak. */
  lemma {:induction false} PeakIsPeak(s: State, steps: seq<Step>, k: nat)
    requires AllCovered(s) && Honest(s) && PeakKept(s) && Feasible(s, steps) && k <= |steps|
    ensures Feasible(s, steps[..k]) && Run(s, steps[..k]).inFlight <= Run(s, steps).peak
    decreases k
  {
    if k == 0 {
      Invariant(s, steps);
    } else {
      AllCoveredStep(s, steps[0]);
      PeakKeptStep(s, steps[0]);
      PeakIsPeak(Apply(s, steps[0]), steps[1..], k - 1);
      assert steps[..k][0] == steps[0] && steps[..k][1..] == steps[1..][..k - 1];
    }
  }

  /** The peak was reached: it is the starting one, or some prefix of the run had that many in flight. */
  lemma {:induction false} PeakReached(s: State, steps: seq<Step>) returns (k: nat)
    requires Feasible(s, steps)
    ensures k <= |steps| && Feasible(s, steps[..k])
    ensures Run(s, steps).peak == s.peak || Run(s, steps).peak == Run(s, steps[..k]).inFlight
    decreases |steps|
  {
    k := 0;
    if steps != [] {
      var t := Apply(s, steps[0]);
      var j := PeakReached(t, steps[1..]);
      k := if Run(s, steps).peak == t.peak then 1 else j + 1;
      assert steps[..k][0] == steps[0] && steps[..k][1..] == steps[1..][..k - 1];
      assert Run(s, steps[..k]) == Run(t, steps[1..][..k - 1]);
    }
  }

  /** Whenever no handler is in the loop, the published maximum is the largest number of requests that were
      in flight at any moment of the run. */
  lemma MaximumExactAtRest(steps: seq<Step>) returns (k: nat)
    requires Feasible(START, steps)
    requires forall i :: 0 <= i < |Run(START, steps).handlers| ==> !InLoop(Run(START, steps).handlers[i])
    ensures k <= |steps| && Feasible(START, steps[..k])
    ensures Run(START, steps).maxInFlight == Run(START, steps[..k]).inFlight
    ensures forall j :: 0 <= j <= |steps| ==>
              Feasible(START, steps[..j]) && Run(START, steps[..j]).inFlight <= Run(START, steps).maxInFlight
  {
    Invariant(START, steps);
    k := PeakReached(START, steps);
    if Run(START, steps).peak == 0 {
      k := 0;
    }
    forall j | 0 <= j <= |steps|
      ensures Feasible(START, steps[..j]) && Run(START, steps[..j]).inFlight <= Run(START, steps).maxInFlight
    {
      PeakIsPeak(START, steps, j);
    }
  }
}
