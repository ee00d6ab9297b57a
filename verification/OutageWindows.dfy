/** The bound on a cluster in windows of time, and exactly when it holds. */
module OutageWindows {
  import opened Collections
  import opened TokenBucket
  import opened MemoryLimiter
  import opened RedisScript
  import opened VirtualClock
  import opened ClockSkew
  import opened RedisLimiter
  import opened Outages

  // ---------------------------------------------------------------- one clock

  /** When an event takes effect, on a clock all share. */
  function Moment(e: Event): int {
    if e.Scripted? then e.server else e.at
  }

  ghost predicate InOrder(events: seq<Event>) {
    forall i, j :: 0 <= i <= j < |events| ==> Moment(events[i]) <= Moment(events[j])
  }

  /** Every script runs at most `delay` milliseconds after its replica has read the clock for the stamp. */
  ghost predicate Prompt(events: seq<Event>, delay: nat) {
    forall i :: 0 <= i < |events| && events[i].Scripted? ==>
      Millis(events[i].server) - delay <= Millis(events[i].stamp) <= Millis(events[i].server)
  }

  predicate Within(e: Event, key: string, lo: int, hi: int) {
    e.key == key && lo <= Moment(e) <= hi
  }

  /** Requests admitted for `key` in [lo, hi]. */
  function Admitted(events: seq<Event>, ds: seq<bool>, key: string, lo: int, hi: int): nat
    requires |events| == |ds|
  {
    if events == [] then 0
    else
      var n := |events| - 1;
      Admitted(events[..n], ds[..n], key, lo, hi) + (if ds[n] && Within(events[n], key, lo, hi) then 1 else 0)
  }

  /** Events i..j-1 are those of the window. */
  ghost predicate IsWindow(events: seq<Event>, lo: int, hi: int, i: nat, j: nat) {
    && i <= j <= |events|
    && (forall k :: 0 <= k < i ==> Moment(events[k]) < lo)
    && (forall k :: i <= k < j ==> lo <= Moment(events[k]) <= hi)
    && (forall k :: j <= k < |events| ==> hi < Moment(events[k]))
  }

  lemma {:induction false} FirstAfter(events: seq<Event>, t: int) returns (i: nat)
    requires InOrder(events)
    ensures i <= |events|
    ensures forall k :: 0 <= k < i ==> Moment(events[k]) < t
    ensures forall k :: i <= k < |events| ==> t <= Moment(events[k])
    decreases |events|
  {
    i := |events|;
    if events != [] && t <= Moment(events[i - 1]) {
      i := FirstAfter(events[..i - 1], t);
    }
  }

  lemma WindowIsStretch(events: seq<Event>, lo: int, hi: int) returns (i: nat, j: nat)
    requires InOrder(events) && lo <= hi
    ensures IsWindow(events, lo, hi, i, j)
  {
    i := FirstAfter(events, lo);
    var n := FirstAfter(events[i..], hi + 1);
    j := i + n;
    forall k | i <= k < |events|
      ensures lo <= Moment(events[k]) && (k < j <==> Moment(events[k]) <= hi)
    {
      assert events[k] == events[i..][k - i];
    }
  }

  lemma {:induction false} AdmittedUpTo(events: seq<Event>, ds: seq<bool>, key: string, lo: int, hi: int,
                                        i: nat, j: nat, n: nat)
    requires |events| == |ds| && IsWindow(events, lo, hi, i, j) && n <= |events|
    ensures Admitted(events[..n], ds[..n], key, lo, hi)
         == if n <= i then 0 else AdmittedIn(events, ds, key, i, if n <= j then n else j)
  {
    if n > 0 {
      AdmittedUpTo(events, ds, key, lo, hi, i, j, n - 1);
      assert events[..n][..n - 1] == events[..n - 1] && ds[..n][..n - 1] == ds[..n - 1];
    }
  }

  lemma {:induction false} AsksInOrder(events: seq<Event>, key: string, r: nat)
    requires InOrder(events)
    ensures Nondecreasing(FallbackTimes(events, key, r))
    ensures forall k :: 0 <= k < |FallbackTimes(events, key, r)| ==>
              FallbackTimes(events, key, r)[k] <= Moment(events[|events| - 1])
    decreases |events|
  {
    if events != [] {
      AsksInOrder(events[..|events| - 1], key, r);
    }
  }

  lemma InOrderIsSteady(events: seq<Event>, key: string)
    requires InOrder(events)
    ensures Steady(events, key)
  {
    forall r: nat
      ensures Nondecreasing(FallbackTimes(events, key, r))
    {
      AsksInOrder(events, key, r);
    }
  }

  /** The times of the window's own events on one fallback and on the script lie in the window. */
  lemma {:induction false} AsksWithin(events: seq<Event>, key: string, r: nat, lo: int, hi: int, i: nat, j: nat, k: nat)
    requires i <= j <= |events| && forall m :: i <= m < j ==> lo <= Moment(events[m]) <= hi
    requires FallbackAt(events, key, r, i) <= k < FallbackAt(events, key, r, j)
    ensures k < |FallbackTimes(events, key, r)| && lo <= FallbackTimes(events, key, r)[k] <= hi
    decreases j
  {
    AtNext(events, key, r, j - 1);
    CallsPrefix(events, key, r, j);
    if k < FallbackAt(events, key, r, j - 1) {
      AsksWithin(events, key, r, lo, hi, i, j - 1, k);
    }
  }

  lemma MillisMonotone(a: int, b: int)
    requires a <= b
    ensures Millis(a) <= Millis(b)
  {}

  lemma {:induction false} ScriptsWithin(events: seq<Event>, key: string, lo: int, hi: int, i: nat, j: nat, k: nat)
    requires i <= j <= |events| && forall m :: i <= m < j ==> lo <= Moment(events[m]) <= hi
    requires RedisAt(events, key, i) <= k < RedisAt(events, key, j)
    ensures k < |RedisCalls(events, key)| && Millis(lo) <= RedisCalls(events, key)[k].server <= Millis(hi)
    decreases j
  {
    AtNext(events, key, 0, j - 1);
    CallsPrefix(events, key, 0, j);
    if k < RedisAt(events, key, j - 1) {
      ScriptsWithin(events, key, lo, hi, i, j - 1, k);
    } else {
      MillisMonotone(lo, events[j - 1].server);
      MillisMonotone(events[j - 1].server, hi);
    }
  }

  lemma MillisLater(lo: int, millis: nat)
    ensures Millis(lo + millis * NANOS_PER_MILLI) == Millis(lo) + millis
  {}

  lemma MillisBack(millis: int)
    ensures Millis(millis * NANOS_PER_MILLI) == millis
  {}

  /** The scripts on a key run in the order of their stamps. */
  ghost predicate StampOrder(events: seq<Event>, key: string) {
    forall i, j :: 0 <= i <= j < |events| && OnRedis(events[i], key) && OnRedis(events[j], key) ==>
      Millis(events[i].stamp) <= Millis(events[j].stamp)
  }

  /** Scripts that run in the millisecond of their stamp cannot overtake one another. */
  lemma PromptInOrder(events: seq<Event>, key: string)
    requires InOrder(events) && Prompt(events, 0)
    ensures StampOrder(events, key)
  {
    forall i, j | 0 <= i <= j < |events| && OnRedis(events[i], key) && OnRedis(events[j], key)
      ensures Millis(events[i].stamp) <= Millis(events[j].stamp)
    {
      MillisMonotone(Moment(events[i]), Moment(events[j]));
    }
  }

  /** The event a call of the script comes from. */
  lemma {:induction false} CallOrigin(events: seq<Event>, key: string, k: nat) returns (i: nat)
    requires k < |RedisCalls(events, key)|
    ensures i < |events| && OnRedis(events[i], key)
    ensures RedisCalls(events, key)[k] == Tick(Millis(events[i].stamp), Millis(events[i].server))
    decreases |events|
  {
    var n := |events| - 1;
    if k < |RedisCalls(events[..n], key)| {
      i := CallOrigin(events[..n], key, k);
    } else {
      i := n;
    }
  }

  lemma {:induction false} CallsDelayed(events: seq<Event>, key: string, delay: nat)
    requires Prompt(events, delay) && StampOrder(events, key)
    ensures Delayed(RedisCalls(events, key), delay)
    decreases |events|
  {
    if events != [] {
      var n := |events| - 1;
      var before := RedisCalls(events[..n], key);
      CallsDelayed(events[..n], key, delay);
      if OnRedis(events[n], key) {
        forall k | 0 <= k < |before|
          ensures before[k].now <= Millis(events[n].stamp)
        {
          var i := CallOrigin(events[..n], key, k);
        }
      } else {
        assert RedisCalls(events, key) == before;
      }
    }
  }

  lemma FallbackWindow(events: seq<Event>, key: string, r: nat, lo: int, hi: int, i: nat, j: nat)
    requires lo <= hi && IsWindow(events, lo, hi, i, j)
    ensures FallbackSpan(events, key, r, i, j) <= hi - lo
  {
    CountsGrow(events, key, r, i, j);
    var a, b := FallbackAt(events, key, r, i), FallbackAt(events, key, r, j);
    if a < b {
      AsksWithin(events, key, r, lo, hi, i, j, a);
      AsksWithin(events, key, r, lo, hi, i, j, b - 1);
    }
  }

  lemma RedisWindow(cfg: Config, events: seq<Event>, key: string, lo: int, hi: int, i: nat, j: nat, delay: nat)
    requires Prompt(events, delay) && StampOrder(events, key) && lo <= hi && IsWindow(events, lo, hi, i, j)
    requires cfg.Effective().burst * MILLIS <= cfg.Effective().rps * (GONE - delay)
    ensures RedisSpan(cfg, events, key, i, j) <= Millis(hi) - Millis(lo) + delay
  {
    CountsGrow(events, key, 0, i, j);
    MillisMonotone(lo, hi);
    var a, b := RedisAt(events, key, i), RedisAt(events, key, j);
    if a < b {
      CallsDelayed(events, key, delay);
      DelayedSpan(cfg.Scaled(MILLIS), RedisCalls(events, key), delay, a, b);
      ScriptsWithin(events, key, lo, hi, i, j, a);
      ScriptsWithin(events, key, lo, hi, i, j, b - 1);
    }
  }

  // ---------------------------------------------------------------- the bound in windows

  ghost predicate OneClockRun(events: seq<Event>, delay: nat, n: nat) {
    InOrder(events) && Prompt(events, delay) && Among(events, n)
  }

  lemma QuotaLonger(cfg: Config, millis: int, delay: int)
    ensures Quota(cfg, millis + delay) == Quota(cfg, millis) + cfg.Effective().rps * delay
  {}

  lemma AsksQuota(cfg: Config, events: seq<Event>, key: string, lo: int, millis: nat, n: nat, i: nat, j: nat)
    requires InOrder(events) && IsWindow(events, lo, lo + millis * NANOS_PER_MILLI, i, j)
    ensures ByFallbacks(events, ServeAll(cfg, events).1, key, n, i, j) * MILLIS <= Shares(n, Quota(cfg, millis))
  {
    InOrderIsSteady(events, key);
    forall r: nat | r < n
      ensures FallbackSpan(events, key, r, i, j) <= millis * NANOS_PER_MILLI
    {
      FallbackWindow(events, key, r, lo, lo + millis * NANOS_PER_MILLI, i, j);
    }
    FallbacksQuota(cfg, events, key, n, i, j, millis);
  }

  lemma ScriptsQuota(cfg: Config, events: seq<Event>, key: string, lo: int, millis: nat, delay: nat, i: nat, j: nat)
    requires Prompt(events, delay) && StampOrder(events, key)
    requires IsWindow(events, lo, lo + millis * NANOS_PER_MILLI, i, j)
    requires cfg.Effective().burst * MILLIS <= cfg.Effective().rps * (GONE - delay)
    ensures ByRedis(events, ServeAll(cfg, events).1, key, i, j) * MILLIS
         <= Quota(cfg, millis) + cfg.Effective().rps * delay
  {
    MillisLater(lo, millis);
    RedisWindow(cfg, events, key, lo, lo + millis * NANOS_PER_MILLI, i, j, delay);
    RedisQuota(cfg, events, key, i, j, millis + delay);
    QuotaLonger(cfg, millis, delay);
  }

  lemma DelayedStretch(cfg: Config, events: seq<Event>, key: string, lo: int, millis: nat, n: nat, delay: nat,
                       i: nat, j: nat)
    requires OneClockRun(events, delay, n) && StampOrder(events, key)
    requires IsWindow(events, lo, lo + millis * NANOS_PER_MILLI, i, j)
    requires cfg.Effective().burst * MILLIS <= cfg.Effective().rps * (GONE - delay)
    ensures AdmittedIn(events, ServeAll(cfg, events).1, key, i, j) * MILLIS
         <= Shares(n, Quota(cfg, millis)) + Quota(cfg, millis) + cfg.Effective().rps * delay
  {
    AdmissionsSplit(events, ServeAll(cfg, events).1, key, n, i, j);
    ScriptsQuota(cfg, events, key, lo, millis, delay, i, j);
    AsksQuota(cfg, events, key, lo, millis, n, i, j);
  }

  /** A window's admissions are those of its stretch of events. */
  lemma WindowAdmits(cfg: Config, events: seq<Event>, key: string, lo: int, hi: int, i: nat, j: nat)
    requires IsWindow(events, lo, hi, i, j)
    ensures Admitted(events, ServeAll(cfg, events).1, key, lo, hi)
         == AdmittedIn(events, ServeAll(cfg, events).1, key, i, j)
  {
    var ds := ServeAll(cfg, events).1;
    AdmittedUpTo(events, ds, key, lo, hi, i, j, |events|);
    assert events[..|events|] == events && ds[..|ds|] == ds;
  }

  /** What N replicas admit in any window of T milliseconds on one clock, when scripts run in the order of their stamps
      and at most `delay` milliseconds late: the quota and the refill of the delay, as long as the refill of an hour
      less the delay covers the burst. */
  lemma DelayedBound(cfg: Config, events: seq<Event>, key: string, lo: int, millis: nat, n: nat, delay: nat)
    requires OneClockRun(events, delay, n) && StampOrder(events, key)
    requires cfg.Effective().burst * MILLIS <= cfg.Effective().rps * (GONE - delay)
    ensures Admitted(events, ServeAll(cfg, events).1, key, lo, lo + millis * NANOS_PER_MILLI) * MILLIS
         <= (n + 1) * Quota(cfg, millis) + cfg.Effective().rps * delay
  {
    var i, j := WindowIsStretch(events, lo, lo + millis * NANOS_PER_MILLI);
    WindowAdmits(cfg, events, key, lo, lo + millis * NANOS_PER_MILLI, i, j);
    DelayedStretch(cfg, events, key, lo, millis, n, delay, i, j);
    SharesIs(n + 1, Quota(cfg, millis));
  }

  /** On one clock, a window of T milliseconds admits at most (N + 1) * (burst + rps * T) requests of this key. */
  ghost predicate QuotaKept(cfg: Config, events: seq<Event>, key: string, lo: int, millis: nat, n: nat) {
    Admitted(events, ServeAll(cfg, events).1, key, lo, lo + millis * NANOS_PER_MILLI) * MILLIS
      <= (n + 1) * Quota(cfg, millis)
  }

  /** When scripts run in the millisecond of their stamp and an hour of refill covers the burst. */
  lemma WindowKept(cfg: Config, events: seq<Event>, key: string, lo: int, millis: nat, n: nat)
    requires OneClockRun(events, 0, n) && HourCovers(cfg)
    ensures QuotaKept(cfg, events, key, lo, millis, n)
  {
    PromptInOrder(events, key);
    DelayedBound(cfg, events, key, lo, millis, n, 0);
    assert cfg.Effective().rps * 0 == 0;
  }
}
