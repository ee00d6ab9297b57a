/** Every interleaving of requests, body closes and health probes over a pool of backends. */
module RouterRuns {
  import opened Router

  /** The health-relevant events of one backend, oldest first. */
  datatype HealthEvent = ProbeOk | ProbeFail | RequestFail | BodyClose

  datatype BackendState = BackendState(healthy: bool, failures: int, inFlight: int, history: seq<HealthEvent>)

  /** A request on a backend: its upstream call is pending, it failed and the failure is not yet recorded,
      its response body is open, or it is over. */
  datatype Phase = Pending(b: nat) | Failing(b: nat) | Open(b: nat) | Ended(b: nat)

  /** Requests are numbered by the order of their calls. */
  datatype State = State(threshold: int, backends: seq<BackendState>, requests: seq<Phase>)

  datatype Step =
    | Call(b: nat)              // doOnce adds one in flight and calls
    | CallFails(r: nat)         // doOnce gives it back and returns an error
    | RecordFailure(r: nat)     // Do marks the failure
    | CallReturns(r: nat)       // doOnce returns a wrapped body
    | Close(r: nat)             // the body is closed, again or for the first time
    | Probe(b: nat, ok: bool)

  function Start(threshold: int, n: nat): State {
    State(threshold, seq(n, _ => BackendState(true, 0, 0, [])), [])
  }

  predicate Enabled(s: State, step: Step) {
    match step
    case Call(b) => b < |s.backends|
    case CallFails(r) => r < |s.requests| && s.requests[r].Pending? && s.requests[r].b < |s.backends|
    case RecordFailure(r) => r < |s.requests| && s.requests[r].Failing? && s.requests[r].b < |s.backends|
    case CallReturns(r) => r < |s.requests| && s.requests[r].Pending?
    case Close(r) => r < |s.requests| && (s.requests[r].Open? || s.requests[r].Ended?) && s.requests[r].b < |s.backends|
    case Probe(b, _) => b < |s.backends|
  }

  function Update(s: State, b: nat, f: BackendState, requests: seq<Phase>): State
    requires b < |s.backends|
  {
    s.(backends := s.backends[b := f], requests := requests)
  }

  function Apply(s: State, step: Step): State
    requires Enabled(s, step)
  {
    match step
    case Call(b) =>
      var k := s.backends[b];
      Update(s, b, k.(inFlight := k.inFlight + 1), s.requests + [Pending(b)])
    case CallFails(r) =>
      var b := s.requests[r].b;
      var k := s.backends[b];
      Update(s, b, k.(inFlight := k.inFlight - 1), s.requests[r := Failing(b)])
    case RecordFailure(r) =>
      var b := s.requests[r].b;
      var k := s.backends[b];
      Update(s, b, k.(failures := k.failures + 1, history := k.history + [RequestFail]), s.requests[r := Ended(b)])
    case CallReturns(r) => s.(requests := s.requests[r := Open(s.requests[r].b)])
    case Close(r) =>
      var b := s.requests[r].b;
      var k := s.backends[b];
      if s.requests[r].Ended? then s
      else Update(s, b, k.(inFlight := k.inFlight - 1, failures := 0, history := k.history + [BodyClose]),
                  s.requests[r := Ended(b)])
    case Probe(b, ok) =>
      var k := s.backends[b];
      var (healthy, failures) := Probed(k.healthy, k.failures, ok, s.threshold);
      Update(s, b, k.(healthy := healthy, failures := failures,
                      history := k.history + [if ok then ProbeOk else ProbeFail]), s.requests)
  }

  predicate Feasible(s: State, steps: seq<Step>)
    decreases |steps|
  {
    steps == [] || (Enabled(s, steps[0]) && Feasible(Apply(s, steps[0]), steps[1..]))
  }

  function Run(s: State, steps: seq<Step>): State
    requires Feasible(s, steps)
    decreases |steps|
  {
    if steps == [] then s else Run(Apply(s, steps[0]), steps[1..])
  }

  // ---------------------------------------------------------------- in-flight accounting

  /** The request holds a slot of backend b: its call is pending or its body is open. */
  predicate Holds(p: Phase, b: nat) {
    p == Pending(b) || p == Open(b)
  }

  function Holding(requests: seq<Phase>, b: nat): nat {
    if requests == [] then 0
    else Holding(requests[..|requests| - 1], b) + (if Holds(requests[|requests| - 1], b) then 1 else 0)
  }

  lemma {:induction false} HoldingUpdate(requests: seq<Phase>, r: nat, p: Phase, b: nat)
    requires r < |requests|
    ensures Holding(requests[r := p], b)
         == Holding(requests, b) - (if Holds(requests[r], b) then 1 else 0) + (if Holds(p, b) then 1 else 0)
    decreases |requests|
  {
    var n := |requests| - 1;
    if r < n {
      HoldingUpdate(requests[..n], r, p, b);
      assert requests[r := p][..n] == requests[..n][r := p];
    } else {
      assert requests[r := p][..n] == requests[..n];
    }
  }

  ghost predicate Accounted(s: State) {
    forall b :: 0 <= b < |s.backends| ==> s.backends[b].inFlight == Holding(s.requests, b)
  }

  lemma AccountedStep(s: State, step: Step)
    requires Accounted(s) && Enabled(s, step)
    ensures Accounted(Apply(s, step))
  {
    var t := Apply(s, step);
    forall b | 0 <= b < |t.backends|
      ensures t.backends[b].inFlight == Holding(t.requests, b)
    {
      match step
      case Call(k) =>
        assert t.requests[..|s.requests|] == s.requests;
      case CallFails(r) => HoldingUpdate(s.requests, r, Failing(s.requests[r].b), b);
      case RecordFailure(r) => HoldingUpdate(s.requests, r, Ended(s.requests[r].b), b);
      case CallReturns(r) => HoldingUpdate(s.requests, r, Open(s.requests[r].b), b);
      case Close(r) => HoldingUpdate(s.requests, r, Ended(s.requests[r].b), b);
      case Probe(_, _) =>
    }
  }

  // ---------------------------------------------------------------- health

  /** Failures counted since the last reset: a successful probe or a body close. */
  function SinceReset(h: seq<HealthEvent>): nat {
    if h == [] then 0
    else
      var n := |h| - 1;
      match h[n]
      case ProbeOk => 0
      case BodyClose => 0
      case _ => SinceReset(h[..n]) + 1
  }

  /** A failed probe, with no successful probe after it, found the threshold reached. */
  ghost predicate TrippedAt(h: seq<HealthEvent>, threshold: int, p: nat) {
    && p < |h| && h[p] == ProbeFail && SinceReset(h[..p + 1]) >= threshold
    && forall q :: p < q < |h| ==> h[q] != ProbeOk
  }

  ghost predicate Tripped(h: seq<HealthEvent>, threshold: int) {
    exists p: nat :: TrippedAt(h, threshold, p)
  }

  lemma TrippedEarlier(h: seq<HealthEvent>, e: HealthEvent, threshold: int, p: nat)
    requires p < |h|
    ensures TrippedAt(h + [e], threshold, p) <==> e != ProbeOk && TrippedAt(h, threshold, p)
  {
    var h' := h + [e];
    assert h'[..p + 1] == h[..p + 1] && h'[|h|] == e;
    assert forall q :: p < q < |h| ==> h'[q] == h[q];
  }

  lemma TrippedNow(h: seq<HealthEvent>, e: HealthEvent, threshold: int)
    ensures TrippedAt(h + [e], threshold, |h|) <==> e == ProbeFail && SinceReset(h) + 1 >= threshold
  {
    var h' := h + [e];
    assert h'[..|h|] == h && h'[..|h| + 1] == h';
  }

  /** A successful probe clears the mark, a failed one may set it, anything else leaves it as it was. */
  lemma TrippedLast(h: seq<HealthEvent>, e: HealthEvent, threshold: int)
    ensures Tripped(h + [e], threshold) <==>
              (e != ProbeOk && (Tripped(h, threshold) || (e == ProbeFail && SinceReset(h) + 1 >= threshold)))
  {
    TrippedNow(h, e, threshold);
    forall p: nat | p < |h|
      ensures TrippedAt(h + [e], threshold, p) <==> e != ProbeOk && TrippedAt(h, threshold, p)
    {
      TrippedEarlier(h, e, threshold, p);
    }
  }

  ghost predicate HealthSound(k: BackendState, threshold: int) {
    && k.failures == SinceReset(k.history)
    && (!k.healthy <==> Tripped(k.history, threshold))
  }

  lemma HealthEventStep(k: BackendState, e: HealthEvent, threshold: int, k': BackendState)
    requires HealthSound(k, threshold) && k'.history == k.history + [e]
    requires k'.failures == (if e == ProbeOk || e == BodyClose then 0 else k.failures + 1)
    requires k'.healthy ==
      (if e == ProbeOk then true else if e == ProbeFail then k.healthy && k.failures + 1 < threshold else k.healthy)
    ensures HealthSound(k', threshold)
  {
    TrippedLast(k.history, e, threshold);
    assert k'.history[..|k.history|] == k.history;
  }

  ghost predicate AllHealthSound(s: State) {
    forall b :: 0 <= b < |s.backends| ==> HealthSound(s.backends[b], s.threshold)
  }

  lemma AllHealthSoundStep(s: State, step: Step)
    requires AllHealthSound(s) && Enabled(s, step)
    ensures AllHealthSound(Apply(s, step))
  {
    var t := Apply(s, step);
    forall b | 0 <= b < |t.backends|
      ensures HealthSound(t.backends[b], t.threshold)
    {
      var k, k' := s.backends[b], t.backends[b];
      assert HealthSound(k, s.threshold);
      if k'.history != k.history {
        HealthEventStep(k, k'.history[|k.history|], s.threshold, k');
      }
    }
  }

  lemma {:induction false} Invariant(s: State, steps: seq<Step>)
    requires Accounted(s) && AllHealthSound(s) && Feasible(s, steps)
    ensures Accounted(Run(s, steps)) && AllHealthSound(Run(s, steps))
    ensures Run(s, steps).threshold == s.threshold && |Run(s, steps).backends| == |s.backends|
    decreases |steps|
  {
    if steps != [] {
      AccountedStep(s, steps[0]);
      AllHealthSoundStep(s, steps[0]);
      Invariant(Apply(s, steps[0]), steps[1..]);
    }
  }

  lemma StartSound(threshold: int, n: nat)
    ensures Accounted(Start(threshold, n)) && AllHealthSound(Start(threshold, n))
  {}

  /** In every reachable state a backend's in-flight count is the number of its pending calls and of its
      responses returned and not yet closed; so it is never negative, and closing twice changes nothing. */
  lemma InFlightConserved(threshold: int, n: nat, steps: seq<Step>, b: nat)
    requires Feasible(Start(threshold, n), steps) && b < n
    ensures var s := Run(Start(threshold, n), steps);
            && |s.backends| == n
            && s.backends[b].inFlight == Holding(s.requests, b) >= 0
  {
    StartSound(threshold, n);
    Invariant(Start(threshold, n), steps);
  }

  /** In every reachable state a backend is unhealthy exactly when, since its last successful probe, some
      failed probe found at least FailureThreshold failures, of probes or of requests and itself included,
      since the last reset by a successful probe or a body close. */
  lemma UnhealthyExactlyWhen(threshold: int, n: nat, steps: seq<Step>, b: nat)
    requires Feasible(Start(threshold, n), steps) && b < n
    ensures var s := Run(Start(threshold, n), steps);
            && |s.backends| == n
            && (!s.backends[b].healthy <==> Tripped(s.backends[b].history, threshold))
            && s.backends[b].failures == SinceReset(s.backends[b].history)
  {
    StartSound(threshold, n);
    Invariant(Start(threshold, n), steps);
  }

  // ---------------------------------------------------------------- "consecutive probes"

  /** The documented rule: FailureThreshold consecutive failed probes take a backend down until the next
      successful one. */
  function FailedProbesInARow(h: seq<HealthEvent>): nat {
    if h == [] then 0
    else
      var n := |h| - 1;
      match h[n]
      case ProbeOk => 0
      case ProbeFail => FailedProbesInARow(h[..n]) + 1
      case _ => FailedProbesInARow(h[..n])
  }

  ghost predicate DocumentedDownAt(h: seq<HealthEvent>, threshold: int, p: nat) {
    && p < |h| && h[p] == ProbeFail && FailedProbesInARow(h[..p + 1]) >= threshold
    && forall q :: p < q < |h| ==> h[q] != ProbeOk
  }

  ghost predicate DocumentedDown(h: seq<HealthEvent>, threshold: int) {
    exists p: nat :: DocumentedDownAt(h, threshold, p)
  }

  ghost predicate DocumentHolds(threshold: int, n: nat, steps: seq<Step>, b: nat)
    requires Feasible(Start(threshold, n), steps)
  {
    var s := Run(Start(threshold, n), steps);
    b < |s.backends| && (!s.backends[b].healthy <==> DocumentedDown(s.backends[b].history, threshold))
  }

  /** On every run, a backend is down exactly when the documented rule says so. */
  ghost predicate AgreesWithDocument(threshold: int) {
    forall n: nat, steps, b: nat ::
      Feasible(Start(threshold, n), steps) && b < n ==> DocumentHolds(threshold, n, steps, b)
  }

  lemma LowThreshold(h: seq<HealthEvent>, threshold: int)
    requires threshold <= 1
    ensures Tripped(h, threshold) <==> DocumentedDown(h, threshold)
  {
    forall p: nat | p < |h| && h[p] == ProbeFail
      ensures SinceReset(h[..p + 1]) >= 1 && FailedProbesInARow(h[..p + 1]) >= 1
    {
      assert h[..p + 1][p] == ProbeFail;
    }
    if p: nat :| TrippedAt(h, threshold, p) {
      assert DocumentedDownAt(h, threshold, p);
    }
    if p: nat :| DocumentedDownAt(h, threshold, p) {
      assert TrippedAt(h, threshold, p);
    }
  }

  function RequestFails(n: nat): (h: seq<HealthEvent>)
    ensures |h| == n && forall i :: 0 <= i < n ==> h[i] == RequestFail
  {
    seq(n, _ => RequestFail)
  }

  lemma {:induction false} OnlyRequestFailures(n: nat)
    ensures var h := RequestFails(n); SinceReset(h) == n && FailedProbesInARow(h) == 0
  {
    if n > 0 {
      OnlyRequestFailures(n - 1);
      assert RequestFails(n)[..n - 1] == RequestFails(n - 1);
    }
  }

  lemma {:induction false} RunAppend(s: State, a: seq<Step>, b: seq<Step>)
    requires Feasible(s, a) && Feasible(Run(s, a), b)
    ensures Feasible(s, a + b) && Run(s, a + b) == Run(Run(s, a), b)
    decreases |a|
  {
    if a == [] {
      assert a + b == b;
    } else {
      assert (a + b)[0] == a[0] && (a + b)[1..] == a[1..] + b;
      RunAppend(Apply(s, a[0]), a[1..], b);
    }
  }

  lemma OneStep(s: State, step: Step)
    requires Enabled(s, step)
    ensures Feasible(s, [step]) && Run(s, [step]) == Apply(s, step)
  {
    assert [step][1..] == [];
  }

  /** One backend on which m requests have failed, one after the other. */
  ghost predicate AfterFailures(s: State, threshold: int, m: nat) {
    s.threshold == threshold && |s.requests| == m && s.backends == [BackendState(true, m, 0, RequestFails(m))]
  }

  lemma OneFailureMore(s: State, threshold: int, m: nat)
    requires AfterFailures(s, threshold, m)
    ensures var steps := [Call(0), CallFails(m), RecordFailure(m)];
            Feasible(s, steps) && AfterFailures(Run(s, steps), threshold, m + 1)
  {
    var steps := [Call(0), CallFails(m), RecordFailure(m)];
    var s1 := Apply(s, Call(0));
    var s2 := Apply(s1, CallFails(m));
    var s3 := Apply(s2, RecordFailure(m));
    assert steps[1..] == [CallFails(m), RecordFailure(m)] && steps[1..][1..] == [RecordFailure(m)];
    OneStep(s2, RecordFailure(m));
    assert Feasible(s1, steps[1..]) && Run(s1, steps[1..]) == s3;
    assert RequestFails(m) + [RequestFail] == RequestFails(m + 1);
  }

  lemma {:induction false} FailingRequests(threshold: int, m: nat) returns (steps: seq<Step>)
    ensures Feasible(Start(threshold, 1), steps) && AfterFailures(Run(Start(threshold, 1), steps), threshold, m)
  {
    if m == 0 {
      steps := [];
      assert Start(threshold, 1).backends == [BackendState(true, 0, 0, [])];
    } else {
      var before := FailingRequests(threshold, m - 1);
      OneFailureMore(Run(Start(threshold, 1), before), threshold, m - 1);
      steps := before + [Call(0), CallFails(m - 1), RecordFailure(m - 1)];
      RunAppend(Start(threshold, 1), before, [Call(0), CallFails(m - 1), RecordFailure(m - 1)]);
    }
  }

  /** Request failures one short of the threshold, then a single failed probe: the backend is down, though no two
      probes in a row have failed. */
  lemma DownAfterOneProbe(threshold: int) returns (steps: seq<Step>)
    requires threshold >= 2
    ensures Feasible(Start(threshold, 1), steps)
    ensures var s := Run(Start(threshold, 1), steps);
            && |s.backends| == 1 && !s.backends[0].healthy
            && s.backends[0].history == RequestFails(threshold - 1) + [ProbeFail]
  {
    var before := FailingRequests(threshold, threshold - 1);
    var s := Run(Start(threshold, 1), before);
    var probe := [Probe(0, false)];
    OneStep(s, Probe(0, false));
    steps := before + probe;
    RunAppend(Start(threshold, 1), before, probe);
  }

  lemma NotDocumentedDown(threshold: int)
    requires threshold >= 2
    ensures !DocumentedDown(RequestFails(threshold - 1) + [ProbeFail], threshold)
  {
    var h := RequestFails(threshold - 1);
    var h' := h + [ProbeFail];
    OnlyRequestFailures(threshold - 1);
    assert h'[..|h|] == h && h'[..|h| + 1] == h';
    forall p: nat
      ensures !DocumentedDownAt(h', threshold, p)
    {
      assert p == |h| ==> FailedProbesInARow(h'[..p + 1]) == 1;
    }
  }

  /** The code follows the documented rule on every run if and only if the threshold is at most one: from two on,
      request failures count as well and take a backend down with a single failed probe. */
  lemma DocumentedRuleIff(threshold: int)
    ensures AgreesWithDocument(threshold) <==> threshold <= 1
  {
    if threshold <= 1 {
      forall n: nat, steps, b: nat | Feasible(Start(threshold, n), steps) && b < n
        ensures DocumentHolds(threshold, n, steps, b)
      {
        UnhealthyExactlyWhen(threshold, n, steps, b);
        LowThreshold(Run(Start(threshold, n), steps).backends[b].history, threshold);
      }
    } else {
      var steps := DownAfterOneProbe(threshold);
      NotDocumentedDown(threshold);
      assert !DocumentHolds(threshold, 1, steps, 0);
    }
  }
}
