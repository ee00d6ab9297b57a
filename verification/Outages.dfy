/** How much a cluster with failing Redis calls admits. */
module Outages {
  import opened TokenBucket
  import opened MemoryLimiter
  import opened RedisScript
  import opened VirtualClock
  import opened RedisLimiter

  // ---------------------------------------------------------------- who admitted what

  /** Requests admitted for `key` by events i..j-1. */
  function AdmittedIn(events: seq<Event>, ds: seq<bool>, key: string, i: nat, j: nat): nat
    requires i <= j <= |events| == |ds|
    decreases j
  {
    if i == j then 0
    else AdmittedIn(events, ds, key, i, j - 1) + (if ds[j - 1] && events[j - 1].key == key then 1 else 0)
  }

  function ByRedis(events: seq<Event>, ds: seq<bool>, key: string, i: nat, j: nat): nat
    requires i <= j <= |events| == |ds|
    decreases j
  {
    if i == j then 0
    else ByRedis(events, ds, key, i, j - 1) + (if ds[j - 1] && OnRedis(events[j - 1], key) then 1 else 0)
  }

  function ByFallback(events: seq<Event>, ds: seq<bool>, key: string, r: nat, i: nat, j: nat): nat
    requires i <= j <= |events| == |ds|
    decreases j
  {
    if i == j then 0
    else ByFallback(events, ds, key, r, i, j - 1) + (if ds[j - 1] && OnFallback(events[j - 1], key, r) then 1 else 0)
  }

  /** Admissions by the fallbacks of replicas 0..n-1. */
  function ByFallbacks(events: seq<Event>, ds: seq<bool>, key: string, n: nat, i: nat, j: nat): nat
    requires i <= j <= |events| == |ds|
  {
    if n == 0 then 0 else ByFallbacks(events, ds, key, n - 1, i, j) + ByFallback(events, ds, key, n - 1, i, j)
  }

  lemma {:induction false} FallbacksLast(events: seq<Event>, ds: seq<bool>, key: string, n: nat, i: nat, j: nat)
    requires i < j <= |events| == |ds|
    ensures var e := events[j - 1];
            ByFallbacks(events, ds, key, n, i, j)
              == ByFallbacks(events, ds, key, n, i, j - 1)
                 + (if ds[j - 1] && e.Asked? && e.key == key && e.replica < n then 1 else 0)
  {
    if n > 0 {
      FallbacksLast(events, ds, key, n - 1, i, j);
    }
  }

  lemma {:induction false} NoEvents(events: seq<Event>, ds: seq<bool>, key: string, n: nat, i: nat)
    requires i <= |events| == |ds|
    ensures ByFallbacks(events, ds, key, n, i, i) == 0
  {
    if n > 0 {
      NoEvents(events, ds, key, n - 1, i);
    }
  }

  ghost predicate Among(events: seq<Event>, n: nat) {
    forall i :: 0 <= i < |events| ==> events[i].replica < n
  }

  /** Every admission came from the shared bucket or from one replica's fallback. */
  lemma {:induction false} AdmissionsSplit(events: seq<Event>, ds: seq<bool>, key: string, n: nat, i: nat, j: nat)
    requires i <= j <= |events| == |ds| && Among(events, n)
    ensures AdmittedIn(events, ds, key, i, j)
         == ByRedis(events, ds, key, i, j) + ByFallbacks(events, ds, key, n, i, j)
    decreases j
  {
    if i == j {
      NoEvents(events, ds, key, n, i);
    } else {
      AdmissionsSplit(events, ds, key, n, i, j - 1);
      FallbacksLast(events, ds, key, n, i, j);
    }
  }

  // ---------------------------------------------------------------- who pays

  /** How many calls the script has had on `key` before event i, and a fallback. */
  function RedisAt(events: seq<Event>, key: string, i: nat): nat
    requires i <= |events|
  {
    |RedisCalls(events[..i], key)|
  }

  function FallbackAt(events: seq<Event>, key: string, r: nat, i: nat): nat
    requires i <= |events|
  {
    |FallbackTimes(events[..i], key, r)|
  }

  lemma {:induction false} CallsPrefix(events: seq<Event>, key: string, r: nat, i: nat)
    requires i <= |events|
    ensures RedisCalls(events[..i], key) <= RedisCalls(events, key)
    ensures FallbackTimes(events[..i], key, r) <= FallbackTimes(events, key, r)
    decreases |events|
  {
    if i == |events| {
      assert events[..i] == events;
    } else {
      var n := |events| - 1;
      CallsPrefix(events[..n], key, r, i);
      assert events[..n][..i] == events[..i];
    }
  }

  lemma AtNext(events: seq<Event>, key: string, r: nat, i: nat)
    requires i < |events|
    ensures RedisCalls(events[..i + 1], key) == RedisCalls(events[..i], key)
              + (if OnRedis(events[i], key) then [Tick(Millis(events[i].stamp), Millis(events[i].server))] else [])
    ensures FallbackTimes(events[..i + 1], key, r) == FallbackTimes(events[..i], key, r)
              + (if OnFallback(events[i], key, r) then [events[i].at] else [])
  {
    assert events[..i + 1][..i] == events[..i];
  }

  lemma RedisAtNext(events: seq<Event>, key: string, i: nat)
    requires i < |events|
    ensures RedisAt(events, key, i + 1) == if OnRedis(events[i], key) then RedisAt(events, key, i) + 1
                                           else RedisAt(events, key, i)
  {
    AtNext(events, key, 0, i);
  }

  lemma FallbackAtNext(events: seq<Event>, key: string, r: nat, i: nat)
    requires i < |events|
    ensures FallbackAt(events, key, r, i + 1) == if OnFallback(events[i], key, r) then FallbackAt(events, key, r, i) + 1
                                                 else FallbackAt(events, key, r, i)
  {
    AtNext(events, key, r, i);
  }

  lemma {:induction false} EvalAt(p: Params, calls: seq<Tick>, k: nat)
    requires k < |calls|
    ensures Eval(p, calls).1[k] == Script(p, Eval(p, calls[..k]).0, calls[k]).1
    decreases |calls|
  {
    var n := |calls| - 1;
    if k < n {
      EvalAt(p, calls[..n], k);
      assert calls[..n][..k] == calls[..k];
    }
  }

  lemma {:induction false} ServeAt(p: Params, ts: seq<int>, k: nat)
    requires k < |ts|
    ensures Serve(p, ts).1[k] == Allow(p, Serve(p, ts[..k]).0, ts[k]).1
    decreases |ts|
  {
    var n := |ts| - 1;
    if k < n {
      ServeAt(p, ts[..n], k);
      assert ts[..n][..k] == ts[..k];
    }
  }

  /** An event of the script is a call of its key's own run, and decides as that call does if its reply arrives. */
  lemma RedisDecision(cfg: Config, events: seq<Event>, i: nat)
    requires i < |events| && events[i].Scripted?
    ensures var key := events[i].key; var k := RedisAt(events, key, i);
            && RedisAt(events, key, i + 1) == k + 1 && k < |RedisCalls(events, key)|
            && ServeAll(cfg, events).1[i]
                 == (events[i].answered && Eval(cfg.Scaled(MILLIS), RedisCalls(events, key)).1[k])
  {
    var key := events[i].key;
    var calls, before := RedisCalls(events, key), RedisCalls(events[..i], key);
    AtNext(events, key, 0, i);
    CallsPrefix(events, key, 0, i + 1);
    EvalAt(cfg.Scaled(MILLIS), calls, |before|);
    assert calls[..|before|] == before;
    DecisionIsAlone(cfg, events, i);
  }

  lemma FallbackDecision(cfg: Config, events: seq<Event>, i: nat)
    requires i < |events| && events[i].Asked?
    ensures var (key, r) := (events[i].key, events[i].replica); var k := FallbackAt(events, key, r, i);
            && FallbackAt(events, key, r, i + 1) == k + 1 && k < |FallbackTimes(events, key, r)|
            && ServeAll(cfg, events).1[i] == Serve(cfg.Scaled(NANOS), FallbackTimes(events, key, r)).1[k]
  {
    var key, r := events[i].key, events[i].replica;
    var ts, before := FallbackTimes(events, key, r), FallbackTimes(events[..i], key, r);
    AtNext(events, key, r, i);
    CallsPrefix(events, key, r, i + 1);
    ServeAt(cfg.Scaled(NANOS), ts, |before|);
    assert ts[..|before|] == before;
    DecisionIsAlone(cfg, events, i);
  }

  ghost predicate AllAnswered(events: seq<Event>) {
    forall i :: 0 <= i < |events| && events[i].Scripted? ==> events[i].answered
  }

  lemma CountsGrow(events: seq<Event>, key: string, r: nat, i: nat, j: nat)
    requires i <= j <= |events|
    ensures RedisAt(events, key, i) <= RedisAt(events, key, j) <= |RedisCalls(events, key)|
    ensures FallbackAt(events, key, r, i) <= FallbackAt(events, key, r, j) <= |FallbackTimes(events, key, r)|
  {
    CallsPrefix(events[..j], key, r, i);
    CallsPrefix(events, key, r, j);
    assert events[..j][..i] == events[..i];
  }

  /** What the shared bucket granted over events i..j-1, in thousandths of a request. */
  function RedisGrants(cfg: Config, events: seq<Event>, key: string, i: nat, j: nat): int
    requires i <= j <= |events|
  {
    CountsGrow(events, key, 0, i, j);
    var p := cfg.Scaled(MILLIS);
    Spent(p, Eval(p, RedisCalls(events, key)).1, RedisAt(events, key, i), RedisAt(events, key, j))
  }

  function FallbackGrants(cfg: Config, events: seq<Event>, key: string, r: nat, i: nat, j: nat): int
    requires i <= j <= |events|
  {
    CountsGrow(events, key, r, i, j);
    var p := cfg.Scaled(NANOS);
    Spent(p, Serve(p, FallbackTimes(events, key, r)).1, FallbackAt(events, key, r, i), FallbackAt(events, key, r, j))
  }

  lemma SpentNext(p: Params, ds: seq<bool>, a: nat, b: nat, counts: bool)
    requires a <= b <= |ds| && (counts ==> b < |ds|)
    ensures Spent(p, ds, a, if counts then b + 1 else b)
         == Spent(p, ds, a, b) + if counts && ds[b] then p.unit else 0
  {}

  lemma RedisGrantsNext(cfg: Config, events: seq<Event>, key: string, i: nat, j: nat)
    requires i < j <= |events|
    requires OnRedis(events[j - 1], key) ==> RedisAt(events, key, j - 1) < |RedisCalls(events, key)|
    ensures RedisGrants(cfg, events, key, i, j) == RedisGrants(cfg, events, key, i, j - 1)
              + if OnRedis(events[j - 1], key)
                   && Eval(cfg.Scaled(MILLIS), RedisCalls(events, key)).1[RedisAt(events, key, j - 1)]
                then MILLIS else 0
  {
    var p := cfg.Scaled(MILLIS);
    var ds, a, b := Eval(p, RedisCalls(events, key)).1, RedisAt(events, key, i), RedisAt(events, key, j - 1);
    RedisAtNext(events, key, j - 1);
    CountsGrow(events, key, 0, i, j - 1);
    SpentNext(p, ds, a, b, OnRedis(events[j - 1], key));
    assert RedisGrants(cfg, events, key, i, j - 1) == Spent(p, ds, a, b);
    assert RedisGrants(cfg, events, key, i, j) == Spent(p, ds, a, RedisAt(events, key, j));
  }

  /** What Redis admitted was paid for by the shared bucket; a lost reply wastes a token. */
  lemma {:induction false} RedisPays(cfg: Config, events: seq<Event>, key: string, i: nat, j: nat)
    requires i <= j <= |events|
    ensures var paid := ByRedis(events, ServeAll(cfg, events).1, key, i, j) * MILLIS;
            && paid <= RedisGrants(cfg, events, key, i, j)
            && (AllAnswered(events) ==> paid == RedisGrants(cfg, events, key, i, j))
    decreases j
  {
    if i < j {
      RedisPays(cfg, events, key, i, j - 1);
      if OnRedis(events[j - 1], key) {
        RedisDecision(cfg, events, j - 1);
      }
      RedisGrantsNext(cfg, events, key, i, j);
    }
  }

  lemma FallbackGrantsNext(cfg: Config, events: seq<Event>, key: string, r: nat, i: nat, j: nat)
    requires i < j <= |events|
    requires OnFallback(events[j - 1], key, r) ==> FallbackAt(events, key, r, j - 1) < |FallbackTimes(events, key, r)|
    ensures FallbackGrants(cfg, events, key, r, i, j) == FallbackGrants(cfg, events, key, r, i, j - 1)
              + if OnFallback(events[j - 1], key, r)
                   && Serve(cfg.Scaled(NANOS), FallbackTimes(events, key, r)).1[FallbackAt(events, key, r, j - 1)]
                then NANOS else 0
  {
    var p := cfg.Scaled(NANOS);
    var ds := Serve(p, FallbackTimes(events, key, r)).1;
    var a, b := FallbackAt(events, key, r, i), FallbackAt(events, key, r, j - 1);
    FallbackAtNext(events, key, r, j - 1);
    CountsGrow(events, key, r, i, j - 1);
    SpentNext(p, ds, a, b, OnFallback(events[j - 1], key, r));
    assert FallbackGrants(cfg, events, key, r, i, j - 1) == Spent(p, ds, a, b);
    assert FallbackGrants(cfg, events, key, r, i, j) == Spent(p, ds, a, FallbackAt(events, key, r, j));
  }

  /** What a fallback admitted was paid for by its bucket. */
  lemma {:induction false} FallbackPays(cfg: Config, events: seq<Event>, key: string, r: nat, i: nat, j: nat)
    requires i <= j <= |events|
    ensures ByFallback(events, ServeAll(cfg, events).1, key, r, i, j) * NANOS
         == FallbackGrants(cfg, events, key, r, i, j)
    decreases j
  {
    if i < j {
      FallbackPays(cfg, events, key, r, i, j - 1);
      if OnFallback(events[j - 1], key, r) {
        FallbackDecision(cfg, events, j - 1);
      }
      FallbackGrantsNext(cfg, events, key, r, i, j);
    }
  }

  // ---------------------------------------------------------------- the bound

  /** burst + rps * T, in thousandths of a request, for T in milliseconds. */
  function Quota(cfg: Config, millis: int): int {
    cfg.Effective().burst * MILLIS + cfg.Effective().rps * millis
  }

  /** How far the shared bucket's virtual clock moves over events i..j-1. */
  function RedisSpan(cfg: Config, events: seq<Event>, key: string, i: nat, j: nat): int
    requires i <= j <= |events|
  {
    CountsGrow(events, key, 0, i, j);
    Span(cfg.Scaled(MILLIS), RedisCalls(events, key), RedisAt(events, key, i), RedisAt(events, key, j))
  }

  /** How much time passes between the first and the last of these events on a fallback. */
  function FallbackSpan(events: seq<Event>, key: string, r: nat, i: nat, j: nat): int
    requires i <= j <= |events|
  {
    CountsGrow(events, key, r, i, j);
    var ts := FallbackTimes(events, key, r);
    var (a, b) := (FallbackAt(events, key, r, i), FallbackAt(events, key, r, j));
    if a == b then 0 else ts[b - 1] - ts[a]
  }

  /** None of the fallbacks 0..n-1 sees more time pass than this. */
  ghost predicate SpansWithin(events: seq<Event>, key: string, n: nat, i: nat, j: nat, span: int)
    requires i <= j <= |events|
  {
    forall r: nat :: r < n ==> FallbackSpan(events, key, r, i, j) <= span
  }

  /** A fallback reads a monotonic clock under its lock. */
  ghost predicate Steady(events: seq<Event>, key: string) {
    forall r: nat :: Nondecreasing(FallbackTimes(events, key, r))
  }

  lemma RedisQuota(cfg: Config, events: seq<Event>, key: string, i: nat, j: nat, millis: nat)
    requires i <= j <= |events| && RedisSpan(cfg, events, key, i, j) <= millis
    ensures ByRedis(events, ServeAll(cfg, events).1, key, i, j) * MILLIS <= Quota(cfg, millis)
  {
    var p := cfg.Scaled(MILLIS);
    RedisPays(cfg, events, key, i, j);
    CountsGrow(events, key, 0, i, j);
    SpanBound(p, RedisCalls(events, key), RedisAt(events, key, i), RedisAt(events, key, j));
    GainMonotone(p.rate, RedisSpan(cfg, events, key, i, j), millis);
  }

  lemma Rescale(rate: int, millis: int)
    ensures rate * (millis * NANOS_PER_MILLI) == (rate * millis) * NANOS_PER_MILLI
  {}

  lemma StretchSpent(p: Params, ts: seq<int>, a: nat, b: nat)
    requires p.Valid() && Nondecreasing(ts) && a <= b <= |ts|
    ensures Spent(p, Serve(p, ts).1, a, b) <= p.cap + p.rate * (if a == b then 0 else ts[b - 1] - ts[a])
  {
    if a < b {
      WindowBound(p, ts, a, b - 1);
    } else {
      assert p.rate * 0 == 0;
    }
  }

  lemma FallbackQuota(cfg: Config, events: seq<Event>, key: string, r: nat, i: nat, j: nat, millis: nat)
    requires i <= j <= |events| && Steady(events, key)
    requires FallbackSpan(events, key, r, i, j) <= millis * NANOS_PER_MILLI
    ensures ByFallback(events, ServeAll(cfg, events).1, key, r, i, j) * MILLIS <= Quota(cfg, millis)
  {
    var p := cfg.Scaled(NANOS);
    FallbackPays(cfg, events, key, r, i, j);
    CountsGrow(events, key, r, i, j);
    StretchSpent(p, FallbackTimes(events, key, r), FallbackAt(events, key, r, i), FallbackAt(events, key, r, j));
    GainMonotone(p.rate, FallbackSpan(events, key, r, i, j), millis * NANOS_PER_MILLI);
    Rescale(p.rate, millis);
  }

  function Shares(n: nat, share: int): int {
    if n == 0 then 0 else Shares(n - 1, share) + share
  }

  lemma {:induction false} SharesIs(n: nat, share: int)
    ensures Shares(n, share) == n * share
  {
    if n > 0 {
      SharesIs(n - 1, share);
      assert n * share == (n - 1) * share + share;
    }
  }

  lemma {:induction false} SharesAdd(events: seq<Event>, ds: seq<bool>, key: string, n: nat, i: nat, j: nat, share: int)
    requires i <= j <= |events| == |ds|
    requires forall r: nat :: r < n ==> ByFallback(events, ds, key, r, i, j) * MILLIS <= share
    ensures ByFallbacks(events, ds, key, n, i, j) * MILLIS <= Shares(n, share)
  {
    if n > 0 {
      SharesAdd(events, ds, key, n - 1, i, j, share);
    }
  }

  lemma FallbacksQuota(cfg: Config, events: seq<Event>, key: string, n: nat, i: nat, j: nat, millis: nat)
    requires i <= j <= |events| && Steady(events, key)
    requires SpansWithin(events, key, n, i, j, millis * NANOS_PER_MILLI)
    ensures ByFallbacks(events, ServeAll(cfg, events).1, key, n, i, j) * MILLIS <= Shares(n, Quota(cfg, millis))
  {
    forall r: nat | r < n
      ensures ByFallback(events, ServeAll(cfg, events).1, key, r, i, j) * MILLIS <= Quota(cfg, millis)
    {
      FallbackQuota(cfg, events, key, r, i, j, millis);
    }
    SharesAdd(events, ServeAll(cfg, events).1, key, n, i, j, Quota(cfg, millis));
  }

  /** N replicas, any configuration, any pattern of Redis failures, any clocks on replicas and server, scripts in any
      order: over a stretch of the run in which the shared bucket's virtual clock and each fallback's own clock move
      by at most T milliseconds, at most (N + 1) * (burst + rps * T) requests of one key are admitted. */
  lemma OutageBound(cfg: Config, events: seq<Event>, key: string, n: nat, i: nat, j: nat, millis: nat)
    requires i <= j <= |events| && Among(events, n) && Steady(events, key)
    requires RedisSpan(cfg, events, key, i, j) <= millis
    requires SpansWithin(events, key, n, i, j, millis * NANOS_PER_MILLI)
    ensures AdmittedIn(events, ServeAll(cfg, events).1, key, i, j) * MILLIS <= (n + 1) * Quota(cfg, millis)
  {
    AdmissionsSplit(events, ServeAll(cfg, events).1, key, n, i, j);
    RedisQuota(cfg, events, key, i, j, millis);
    FallbacksQuota(cfg, events, key, n, i, j, millis);
    SharesIs(n + 1, Quota(cfg, millis));
  }
}
