/** Backends, response bodies and the router that forwards to them. */
module Router {
  import opened Collections
  import opened Selection
  import opened Failover
  import opened RetryLoop

  function Probed(healthy: bool, failures: int, ok: bool, threshold: int): (bool, int) {
    if ok then (true, 0) else (healthy && failures + 1 < threshold, failures + 1)
  }

  class Backend {
    const name: string
    const weight: int
    var failures: int
    var lastFailAt: int
    var healthy: bool
    var inFlight: int

    constructor (name: string, weight: int)
      ensures this.name == name && this.weight == if weight >= 1 then weight else 1
      ensures healthy && failures == 0 && lastFailAt == 0 && inFlight == 0
    {
      this.name := name;
      this.weight := if weight <= 0 then 1 else weight;
      failures, lastFailAt, healthy, inFlight := 0, 0, true, 0;
    }

    method MarkFailure(now: int)
      modifies this`failures, this`lastFailAt
      ensures failures == old(failures) + 1 && lastFailAt == now
    {
      failures := failures + 1;
      lastFailAt := now;
    }

    method MarkSuccess()
      modifies this`failures
      ensures failures == 0
    {
      failures := 0;
    }

    /** A probe's verdict, taken as one atomic step. */
    method RecordHealth(ok: bool, threshold: int)
      modifies this`failures, this`healthy
      ensures (healthy, failures) == Probed(old(healthy), old(failures), ok, threshold)
    {
      if ok {
        failures := 0;
        if !healthy {
          healthy := true;
        }
        return;
      }
      failures := failures + 1;
      if failures >= threshold && healthy {
        healthy := false;
      }
    }

    function Vitals(): Vitals
      reads this
    {
      RetryLoop.Vitals(healthy, failures, lastFailAt, inFlight)
    }
  }

  // ---------------------------------------------------------------- response bodies

  class UpstreamBody {
    var closes: nat

    constructor ()
      ensures closes == 0
    {
      closes := 0;
    }

    /** `fault` is what the connection makes of it. */
    method Close(fault: Option<string>) returns (err: Option<string>)
      modifies this
      ensures closes == old(closes) + 1 && err == fault
    {
      closes := closes + 1;
      err := fault;
    }
  }

  /** What closing a doubly wrapped body has done so far. */
  datatype Ledger = Ledger(closed: bool, fired: bool, innerCloses: nat, cancels: nat, inFlight: int, failures: int)

  function CloseCounting(l: Ledger): Ledger {
    if l.closed then l
    else l.(closed := true, innerCloses := l.innerCloses + 1, inFlight := l.inFlight - 1, failures := 0)
  }

  function CloseWrapped(l: Ledger): Ledger {
    var l' := CloseCounting(l);
    if l'.fired then l' else l'.(fired := true, cancels := l'.cancels + 1)
  }

  /** The router's wrapper: the first Close settles the in-flight count. */
  class CountingBody {
    const inner: UpstreamBody
    const backend: Backend
    var closed: bool

    constructor (inner: UpstreamBody, backend: Backend)
      ensures this.inner == inner && this.backend == backend && !closed
    {
      this.inner, this.backend, closed := inner, backend, false;
    }

    method Close(fault: Option<string>) returns (err: Option<string>)
      modifies this, inner, backend`inFlight, backend`failures
      ensures Ledger(closed, false, inner.closes, 0, backend.inFlight, backend.failures)
           == CloseCounting(old(Ledger(closed, false, inner.closes, 0, backend.inFlight, backend.failures)))
      ensures err == if old(closed) then None else fault
    {
      if closed {
        return None;
      }
      closed := true;
      backend.inFlight := backend.inFlight - 1;
      backend.MarkSuccess();
      err := inner.Close(fault);
    }
  }

  /** The scheduler's wrapper: every Close is passed on, the context is cancelled once. */
  class CancelOnClose {
    const body: CountingBody
    var fired: bool
    var cancels: nat

    constructor (body: CountingBody)
      ensures this.body == body && !fired && cancels == 0
    {
      this.body, fired, cancels := body, false, 0;
    }

    ghost function State(): Ledger
      reads this, body, body.inner, body.backend
    {
      Ledger(body.closed, fired, body.inner.closes, cancels, body.backend.inFlight, body.backend.failures)
    }

    method Close(fault: Option<string>) returns (err: Option<string>)
      modifies this, body, body.inner, body.backend`inFlight, body.backend`failures
      ensures State() == CloseWrapped(old(State()))
      ensures err == if old(body.closed) then None else fault
    {
      err := body.Close(fault);
      if !fired {
        fired := true;
        cancels := cancels + 1;
      }
    }
  }

  function CloseTimes(l: Ledger, n: nat): Ledger {
    if n == 0 then l else CloseWrapped(CloseTimes(l, n - 1))
  }

  /** Closing any positive number of times settles everything exactly once. */
  lemma {:induction false} ClosedOnce(l: Ledger, n: nat)
    requires n >= 1 && !l.closed && !l.fired
    ensures CloseTimes(l, n) == Ledger(true, true, l.innerCloses + 1, l.cancels + 1, l.inFlight - 1, 0)
  {
    if n > 1 {
      ClosedOnce(l, n - 1);
    }
  }

  // ---------------------------------------------------------------- the router

  /** Chosen is the only index its contract allows. */
  lemma ChosenUnique(ws: seq<int>, x: int, i: nat)
    requires i < |ws|
    requires forall k :: 0 < k <= i ==> Prefix(ws, k) <= x
    requires x < Prefix(ws, i + 1) || (i == |ws| - 1 && Sum(ws) <= x)
    ensures Chosen(ws, x) == i
  {
    var c := Chosen(ws, x);
    var afterChosen, afterI := Prefix(ws, c + 1), Prefix(ws, i + 1);
  }

  class Router {
    const backends: seq<Backend>
    const roundRobin: bool
    const retryAttempts: int
    var rrIdx: nat

    ghost predicate Valid() {
      && backends != []
      && (forall i :: 0 <= i < |backends| ==> backends[i].weight >= 1)
      && forall i, j :: 0 <= i < j < |backends| ==> backends[i] != backends[j]
    }

    constructor (backends: seq<Backend>, roundRobin: bool, retryAttempts: int)
      requires backends != []
      requires forall i :: 0 <= i < |backends| ==> backends[i].weight >= 1
      requires forall i, j :: 0 <= i < j < |backends| ==> backends[i] != backends[j]
      ensures Valid() && this.backends == backends && this.roundRobin == roundRobin
      ensures this.retryAttempts == retryAttempts && rrIdx == 0
    {
      this.backends, this.roundRobin, this.retryAttempts, rrIdx := backends, roundRobin, retryAttempts, 0;
    }

    ghost function Fleet(): (fleet: seq<Named>)
      ensures |fleet| == |backends|
      ensures forall i :: 0 <= i < |backends| ==> fleet[i] == Named(backends[i].name, backends[i].weight)
    {
      seq(|backends|, i requires 0 <= i < |backends| => Named(backends[i].name, backends[i].weight))
    }

    ghost function Now(): (w: World)
      reads this, backends
      ensures |w.vitals| == |backends| && w.index == rrIdx
      ensures forall i :: 0 <= i < |backends| ==> w.vitals[i] == backends[i].Vitals()
    {
      World(seq(|backends|, i requires 0 <= i < |backends| reads backends => backends[i].Vitals()), rrIdx)
    }

    ghost function Pool(): (vs: seq<View>)
      reads this, backends
      ensures |vs| == |backends|
      ensures forall i :: 0 <= i < |backends| ==>
                vs[i] == View(backends[i].name, backends[i].weight, backends[i].healthy, backends[i].inFlight)
    {
      PoolOf(Fleet(), Now())
    }

    /** The weighted draw as the loop makes it, by subtracting weights. */
    method WeightedPick(bs: seq<Backend>, random: nat) returns (k: nat)
      requires bs != []
      ensures k < |bs|
      ensures k == PickWeighted(seq(|bs|, i requires 0 <= i < |bs| => bs[i].weight), random)
    {
      ghost var ws := seq(|bs|, i requires 0 <= i < |bs| => bs[i].weight);
      var total := 0;
      for i := 0 to |bs|
        invariant total == Prefix(ws, i)
      {
        total := total + bs[i].weight;
      }
      if total <= 0 {
        return Intn(random, |bs|);
      }
      var x := Intn(random, total);
      ghost var draw := x;
      k := |bs| - 1;
      for i := 0 to |bs|
        invariant x == draw - Prefix(ws, i)
        invariant forall j :: 0 < j <= i ==> Prefix(ws, j) <= draw
      {
        x := x - bs[i].weight;
        if x < 0 {
          ChosenUnique(ws, draw, i);
          return i;
        }
      }
    }

    method HealthyCandidates(exclude: set<string>) returns (cs: seq<nat>)
      ensures cs == Candidates(Pool(), exclude)
    {
      ghost var vs := Pool();
      cs := [];
      for i := 0 to |backends|
        invariant cs == Candidates(vs[..i], exclude)
      {
        assert vs[..i + 1][..i] == vs[..i];
        if !(backends[i].name in exclude) {
          if backends[i].healthy {
            cs := cs + [i];
          }
        }
      }
      assert vs[..|vs|] == vs;
    }

    method LastResort(exclude: set<string>) returns (choice: Option<nat>)
      ensures choice == FirstAllowed(Pool(), exclude, 0)
    {
      ghost var vs := Pool();
      for i := 0 to |backends|
        invariant FirstAllowed(vs, exclude, 0) == FirstAllowed(vs, exclude, i)
      {
        if backends[i].name !in exclude {
          return Some(i);
        }
      }
      return None;
    }

    method TwoChoices(cs: seq<nat>, r1: nat, r2: nat) returns (k: nat)
      requires |cs| >= 2 && forall k :: 0 <= k < |cs| ==> cs[k] < |backends|
      ensures k == cs[LessLoadedOfTwo(Select(Pool(), cs), r1, r2)]
    {
      var candidates := seq(|cs|, k requires 0 <= k < |cs| && cs[k] < |backends| => backends[cs[k]]);
      assert seq(|cs|, k requires 0 <= k < |cs| => candidates[k].weight) == Weights(Select(Pool(), cs));
      var a := WeightedPick(candidates, r1);
      var c := WeightedPick(candidates, r2);
      if a == c {
        c := if a == 0 then 1 else 0;
      }
      k := if candidates[a].inFlight <= candidates[c].inFlight then cs[a] else cs[c];
    }

    method ByTurns(cs: seq<nat>) returns (choice: Option<nat>)
      requires cs != []
      ensures choice == Some(cs[rrIdx % |cs|])
    {
      choice := Some(cs[rrIdx % |cs|]);
    }

    /** A choice among the healthy candidates, if any; by turns it uses the round-robin index. */
    method Choose(cs: seq<nat>, ghost vs: seq<View>, exclude: set<string>, r1: nat, r2: nat)
      returns (choice: Option<nat>)
      requires vs == Pool() && cs == Candidates(vs, exclude)
      ensures choice == Pick(vs, exclude, roundRobin, Luck(rrIdx, r1, r2))
    {
      ghost var pick := Pick(vs, exclude, roundRobin, Luck(rrIdx, r1, r2));
      PickCases(vs, exclude, roundRobin, Luck(rrIdx, r1, r2), cs);
      if |cs| == 0 {
        choice := LastResort(exclude);
        assert choice == pick;
      } else if roundRobin {
        choice := ByTurns(cs);
        assert choice == pick;
      } else if |cs| == 1 {
        choice := Some(cs[0]);
        assert choice == pick;
      } else {
        var k := TwoChoices(cs, r1, r2);
        choice := Some(k);
        assert choice == pick;
      }
    }

    /** A pick by turns uses up the round-robin index. */
    method UseIndex(cs: seq<nat>, ghost vs: seq<View>, exclude: set<string>)
      requires cs == Candidates(vs, exclude)
      modifies this`rrIdx
      ensures Now() == Advanced(vs, exclude, roundRobin, old(Now()))
    {
      if roundRobin && |cs| > 0 {
        rrIdx := rrIdx + 1;
      }
    }

    /** pick: an index into `backends`, with the random values given. */
    method PickBackend(exclude: set<string>, r1: nat, r2: nat) returns (choice: Option<nat>)
      modifies this`rrIdx
      ensures choice == Pick(old(Pool()), exclude, roundRobin, Luck(old(rrIdx), r1, r2))
      ensures Now() == Advanced(old(Pool()), exclude, roundRobin, old(Now()))
    {
      ghost var vs := Pool();
      var cs := HealthyCandidates(exclude);
      choice := Choose(cs, vs, exclude, r1, r2);
      UseIndex(cs, vs, exclude);
    }

    /** doOnce: one upstream call; on success the body carries the obligation to give the slot back. */
    method DoOnce(b: Backend, reply: Reply) returns (body: CountingBody?)
      requires b in backends
      modifies b`inFlight
      ensures body == null <==> reply.Broken? || 500 <= reply.code <= 599
      ensures body == null ==> b.inFlight == old(b.inFlight)
      ensures body != null ==>
        fresh(body) && fresh(body.inner) && body.backend == b && !body.closed && b.inFlight == old(b.inFlight) + 1
    {
      b.inFlight := b.inFlight + 1;
      if reply.Broken? {
        b.inFlight := b.inFlight - 1;
        return null;
      }
      var inner := new UpstreamBody();
      if reply.code / 100 == 5 {
        var err := inner.Close(None);
        b.inFlight := b.inFlight - 1;
        return null;
      }
      body := new CountingBody(inner, b);
    }

    /** One upstream call of backend k, and the mark a failure leaves. */
    method CallBackend(k: nat, reply: Reply, failedAt: int) returns (body: CountingBody?)
      requires Valid() && k < |backends|
      modifies backends`failures, backends`lastFailAt, backends`inFlight
      ensures body != null <==> Failure(reply).None?
      ensures body != null ==> fresh(body) && body.backend == backends[k] && !body.closed
      ensures Now() == Called(old(Now()), k, reply, failedAt)
    {
      FailureIff(reply);
      body := DoOnce(backends[k], reply);
      if body == null {
        backends[k].MarkFailure(failedAt);
      }
    }

    /** What others do between two attempts. */
    method Meanwhile(others: seq<Other>)
      requires Valid()
      modifies this`rrIdx, backends`failures, backends`lastFailAt, backends`healthy, backends`inFlight
      ensures Now() == Disturbed(old(Now()), others)
    {
      assert others[..0] == [];
      for i := 0 to |others|
        invariant Now() == Disturbed(old(Now()), others[..i])
      {
        assert others[..i + 1][..i] == others[..i];
        ghost var before := Now();
        match others[i]
        case Picked =>
          rrIdx := rrIdx + 1;
        case Changed(b, healthy, failures, lastFailAt, moved) =>
          if b < |backends| {
            backends[b].healthy, backends[b].failures, backends[b].lastFailAt := healthy, failures, lastFailAt;
            backends[b].inFlight := backends[b].inFlight + moved;
          }
        assert Now() == Touched(before, others[i]);
      }
      assert others[..|others|] == others;
    }

    /** One pass of Do's loop: pick, and call what was picked. */
    method Attempt(ghost g: Given, chance: Chance, ghost i: nat, ghost calls: seq<nat>, tried: set<string>,
                   ghost lastErr: Option<CallError>)
      returns (choice: Option<nat>, body: CountingBody?)
      requires Valid() && g.fleet == Fleet() && g.rr == roundRobin && g.Fits()
      requires i < |g.chances| && g.chances[i] == chance && InLoop(g, i, Going(calls, tried, lastErr), Now())
      modifies this`rrIdx, backends`failures, backends`lastFailAt, backends`healthy, backends`inFlight
      ensures choice.Some? ==> choice.value < |backends|
      ensures body != null <==> choice.Some? && Failure(chance.reply).None?
      ensures choice.None? ==> LoopEnds(g, Outcome(calls, GiveUp(lastErr).result), Now())
      ensures body != null ==>
        && fresh(body) && body.backend == backends[choice.value] && !body.closed
        && LoopEnds(g, Outcome(calls + [choice.value], Served(choice.value, chance.reply.code)), Now())
      ensures choice.Some? && body == null ==>
        InLoop(g, i + 1, Going(calls + [choice.value], tried + {backends[choice.value].name}, Failure(chance.reply)),
               Now())
    {
      LoopTurn(g, i, calls, tried, lastErr, Now());
      Meanwhile(chance.others);
      choice := PickBackend(tried, chance.r1, chance.r2);
      body := null;
      if choice.Some? {
        body := CallBackend(choice.value, chance.reply, chance.failedAt);
      }
    }

    /** Do. `chances` holds what each attempt meets: what others did to the pool since the last one, what the pick
        draws and what the call comes back with. */
    method Do(chances: seq<Chance>) returns (calls: seq<nat>, result: Result, body: CountingBody?)
      requires Valid() && |chances| == Attempts(retryAttempts)
      modifies this`rrIdx, backends`failures, backends`lastFailAt, backends`healthy, backends`inFlight
      ensures LoopEnds(old(Given(Fleet(), roundRobin, Now(), chances)), Outcome(calls, result), Now())
      ensures StoppedRight(RepliesOf(chances), Outcome(calls, result))
      ensures body != null <==> result.Served?
      ensures result.Served? ==>
        fresh(body) && result.backend < |backends| && body.backend == backends[result.backend] && !body.closed
    {
      var attempts := Attempts(retryAttempts);
      var tried: set<string> := {};
      var lastErr: Option<CallError> := None;
      ghost var g := Given(Fleet(), roundRobin, Now(), chances);
      calls, body := [], null;
      for i := 0 to attempts
        invariant body == null && InLoop(g, i, Going(calls, tried, lastErr), Now())
      {
        var choice;
        choice, body := Attempt(g, chances[i], i, calls, tried, lastErr);
        if choice == None {
          result := GiveUp(lastErr).result;
          DoStopsRight(g, Outcome(calls, result), Now());
          return;
        }
        if body != null {
          calls := calls + [choice.value];
          result := Served(choice.value, chances[i].reply.code);
          DoStopsRight(g, Outcome(calls, result), Now());
          return;
        }
        tried := tried + {backends[choice.value].name};
        calls := calls + [choice.value];
        lastErr := Failure(chances[i].reply);
      }
      LoopDone(g, calls, tried, lastErr, Now());
      result := GiveUp(lastErr).result;
      DoStopsRight(g, Outcome(calls, result), Now());
    }
  }
}
