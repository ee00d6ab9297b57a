/** Runs of a cluster that show what its window bound needs. */
module OutageRuns {
  import opened Collections
  import opened TokenBucket
  import opened MemoryLimiter
  import opened RedisScript
  import opened ClockSkew
  import opened RedisLimiter
  import opened Outages
  import opened OutageWindows

  // ---------------------------------------------------------------- building runs

  /** Scripts of one replica, all answered. */
  function ScriptedAll(key: string, calls: seq<Tick>): (es: seq<Event>)
    ensures |es| == |calls|
    ensures forall i :: 0 <= i < |calls| ==>
              es[i] == Scripted(0, key, calls[i].now * NANOS_PER_MILLI, calls[i].server * NANOS_PER_MILLI, true)
  {
    seq(|calls|, i requires 0 <= i < |calls| =>
      Scripted(0, key, calls[i].now * NANOS_PER_MILLI, calls[i].server * NANOS_PER_MILLI, true))
  }

  function AskedAll(key: string, ts: seq<int>): (es: seq<Event>)
    ensures |es| == |ts| && forall i :: 0 <= i < |ts| ==> es[i] == Asked(0, key, ts[i])
  {
    seq(|ts|, i requires 0 <= i < |ts| => Asked(0, key, ts[i]))
  }

  lemma {:induction false} ScriptedCalls(key: string, calls: seq<Tick>)
    ensures RedisCalls(ScriptedAll(key, calls), key) == calls && FallbackTimes(ScriptedAll(key, calls), key, 0) == []
    decreases |calls|
  {
    if calls != [] {
      var n := |calls| - 1;
      ScriptedCalls(key, calls[..n]);
      assert ScriptedAll(key, calls)[..n] == ScriptedAll(key, calls[..n]);
      MillisBack(calls[n].now);
      MillisBack(calls[n].server);
    }
  }

  lemma {:induction false} AskedTimes(key: string, ts: seq<int>)
    ensures RedisCalls(AskedAll(key, ts), key) == [] && FallbackTimes(AskedAll(key, ts), key, 0) == ts
    decreases |ts|
  {
    if ts != [] {
      var n := |ts| - 1;
      AskedTimes(key, ts[..n]);
      assert AskedAll(key, ts)[..n] == AskedAll(key, ts[..n]);
    }
  }

  lemma {:induction false} ScriptsAppend(a: seq<Event>, b: seq<Event>, key: string)
    ensures RedisCalls(a + b, key) == RedisCalls(a, key) + RedisCalls(b, key)
    decreases |b|
  {
    if b == [] {
      assert a + b == a;
    } else {
      var n := |b| - 1;
      ScriptsAppend(a, b[..n], key);
      assert (a + b)[..|a| + n] == a + b[..n];
    }
  }

  lemma {:induction false} AsksAppend(a: seq<Event>, b: seq<Event>, key: string)
    ensures FallbackTimes(a + b, key, 0) == FallbackTimes(a, key, 0) + FallbackTimes(b, key, 0)
    decreases |b|
  {
    if b == [] {
      assert a + b == a;
    } else {
      var n := |b| - 1;
      AsksAppend(a, b[..n], key);
      assert (a + b)[..|a| + n] == a + b[..n];
    }
  }

  lemma CallsAppend(a: seq<Event>, b: seq<Event>, key: string)
    ensures RedisCalls(a + b, key) == RedisCalls(a, key) + RedisCalls(b, key)
    ensures FallbackTimes(a + b, key, 0) == FallbackTimes(a, key, 0) + FallbackTimes(b, key, 0)
  {
    ScriptsAppend(a, b, key);
    AsksAppend(a, b, key);
  }

  /** When all scripts are answered, one replica admits what the two buckets grant. */
  lemma AllGranted(cfg: Config, events: seq<Event>, key: string)
    requires AllAnswered(events) && Among(events, 1)
    ensures var p, q := cfg.Scaled(MILLIS), cfg.Scaled(NANOS);
            var admitted := AdmittedIn(events, ServeAll(cfg, events).1, key, 0, |events|);
            exists a: nat, b: nat ::
              && admitted == a + b
              && a * MILLIS == Total(p, Eval(p, RedisCalls(events, key)).1)
              && b * NANOS == Total(q, Serve(q, FallbackTimes(events, key, 0)).1)
  {
    var ds := ServeAll(cfg, events).1;
    AdmissionsSplit(events, ds, key, 1, 0, |events|);
    assert ByFallbacks(events, ds, key, 0, 0, |events|) == 0;
    RedisPays(cfg, events, key, 0, |events|);
    FallbackPays(cfg, events, key, 0, 0, |events|);
    assert events[..0] == [] && events[..|events|] == events;
    var a, b := ByRedis(events, ds, key, 0, |events|), ByFallback(events, ds, key, 0, 0, |events|);
    assert RedisGrants(cfg, events, key, 0, |events|)
        == Total(cfg.Scaled(MILLIS), Eval(cfg.Scaled(MILLIS), RedisCalls(events, key)).1);
    assert FallbackGrants(cfg, events, key, 0, 0, |events|)
        == Total(cfg.Scaled(NANOS), Serve(cfg.Scaled(NANOS), FallbackTimes(events, key, 0)).1);
    assert ByFallbacks(events, ds, key, 1, 0, |events|) == b;
  }

  lemma AllWithin(events: seq<Event>, ds: seq<bool>, key: string, lo: int, hi: int)
    requires |events| == |ds| && forall i :: 0 <= i < |events| ==> lo <= Moment(events[i]) <= hi
    ensures Admitted(events, ds, key, lo, hi) == AdmittedIn(events, ds, key, 0, |events|)
  {
    assert events[..|events|] == events && ds[..|ds|] == ds;
    AdmittedUpTo(events, ds, key, lo, hi, 0, |events|, |events|);
  }

  // ---------------------------------------------------------------- scripts that overtake

  lemma FlickerIsPrompt(events: seq<Event>, calls: seq<Tick>, delay: nat)
    requires Flicker(calls, 0, delay, delay) && events == ScriptedAll("k", calls)
    ensures OneClockRun(events, delay, 1) && AllAnswered(events)
    ensures forall i :: 0 <= i < |events| ==> Moment(events[i]) == delay * NANOS_PER_MILLI
  {
    MillisBack(0);
    MillisBack(delay);
  }

  /** Scripts that run out of the order of their stamps admit any number of requests within one instant, on one clock,
      however short the delay and whatever the configuration. */
  lemma OvertakingAdmitsAny(cfg: Config, delay: nat, k: nat) returns (events: seq<Event>)
    requires delay >= 1
    ensures OneClockRun(events, delay, 1)
    ensures var at := delay * NANOS_PER_MILLI; Admitted(events, ServeAll(cfg, events).1, "k", at, at) >= k
  {
    var p := cfg.Scaled(MILLIS);
    var calls, left, paid := MintMany(p, 0, delay, delay, k);
    events := ScriptedAll("k", calls);
    FlickerIsPrompt(events, calls, delay);
    ScriptedCalls("k", calls);
    AllGranted(cfg, events, "k");
    AllWithin(events, ServeAll(cfg, events).1, "k", delay * NANOS_PER_MILLI, delay * NANOS_PER_MILLI);
    PriceIs(p, k);
  }

  // ---------------------------------------------------------------- scripts that are late, in order

  /** Two bursts at once, and as many requests as the bucket refills in the delay, on scripts that run together at its
      end, in the order of their stamps. */
  function LateRun(c: Config, delay: nat, k: nat): seq<Event>
    requires c.burst >= 1
  {
    AskedAll("k", Repeat(delay * NANOS_PER_MILLI, c.burst))
    + ScriptedAll("k", Repeat(Tick(0, delay), c.burst) + Repeat(Tick(delay, delay), k))
  }

  lemma LateRunShape(c: Config, delay: nat, k: nat)
    requires c.burst >= 1
    ensures var events := LateRun(c, delay, k);
            OneClockRun(events, delay, 1) && AllAnswered(events) && StampOrder(events, "k")
    ensures forall i :: 0 <= i < |LateRun(c, delay, k)| ==>
              Moment(LateRun(c, delay, k)[i]) == delay * NANOS_PER_MILLI
  {
    var events := LateRun(c, delay, k);
    var asks := AskedAll("k", Repeat(delay * NANOS_PER_MILLI, c.burst));
    MillisBack(0);
    MillisBack(delay);
    forall i | 0 <= i < |events|
      ensures Moment(events[i]) == delay * NANOS_PER_MILLI && events[i].replica == 0
      ensures events[i].Scripted? ==>
                events[i].answered && events[i].stamp == (if i < 2 * c.burst then 0 else delay * NANOS_PER_MILLI)
    {
      if i < c.burst {
        assert events[i] == asks[i];
      }
    }
  }

  lemma LateRunCalls(c: Config, delay: nat, k: nat)
    requires c.burst >= 1
    ensures RedisCalls(LateRun(c, delay, k), "k") == Repeat(Tick(0, delay), c.burst) + Repeat(Tick(delay, delay), k)
    ensures FallbackTimes(LateRun(c, delay, k), "k", 0) == Repeat(delay * NANOS_PER_MILLI, c.burst)
  {
    var asks := Repeat(delay * NANOS_PER_MILLI, c.burst);
    var scripts := Repeat(Tick(0, delay), c.burst) + Repeat(Tick(delay, delay), k);
    AskedTimes("k", asks);
    ScriptedCalls("k", scripts);
    CallsAppend(AskedAll("k", asks), ScriptedAll("k", scripts), "k");
  }

  lemma RefilledLate(p: Params, delay: nat)
    requires p.Valid()
    ensures Offered(p, Some(Hash(0, 0, delay + TTL)), Tick(delay, delay)) == Min(p.cap, p.rate * delay)
  {
    assert p.rate * 0 == 0 && delay - 0 == delay;
  }

  lemma LateScripts(p: Params, burst: nat, delay: nat, k: nat)
    requires p.Valid() && burst >= 1 && p.cap == Price(p, burst)
    requires 1 <= k && Price(p, k) <= p.cap && Price(p, k) <= p.rate * delay
    ensures var calls := Repeat(Tick(0, delay), burst) + Repeat(Tick(delay, delay), k);
            Total(p, Eval(p, calls).1) == p.cap + Price(p, k)
  {
    var first := Repeat(Tick(0, delay), burst);
    Burst(p, [], Tick(0, delay), burst, None, 0);
    assert [] + first == first;
    RefilledLate(p, delay);
    Burst(p, first, Tick(delay, delay), k, Some(Hash(0, 0, delay + TTL)), p.cap);
  }

  lemma {:induction false} LeftIsExact(p: Params, level: int, k: nat)
    requires p.Valid() && level >= Price(p, k)
    ensures Left(p, level, k) == level - Price(p, k)
  {
    if k > 0 {
      LeftIsExact(p, level, k - 1);
    }
  }

  /** A new bucket asked at once for all it holds is left with nothing. */
  lemma FirstBurst(p: Params, t: int, burst: nat)
    requires p.Valid() && burst >= 1 && p.cap == Price(p, burst)
    ensures LeavesBucket(p, Repeat(t, burst), Some(Bucket(0, t)), p.cap)
  {
    LeftIsExact(p, p.cap, burst);
    BucketAsked(p, [], t, burst, None, 0);
    assert [] + Repeat(t, burst) == Repeat(t, burst);
  }

  lemma OverQuota(cfg: Config, events: seq<Event>, delay: nat)
    requires var at := delay * NANOS_PER_MILLI;
             Admitted(events, ServeAll(cfg, events).1, "k", at, at) >= 2 * cfg.Effective().burst + 1
    ensures !QuotaKept(cfg, events, "k", delay * NANOS_PER_MILLI, 0, 1)
  {
    assert cfg.Effective().rps * 0 == 0;
  }

  /** The delay is paid for: without any overtaking, such a run admits the two bursts and k requests more at one
      instant, for any k that the delay refills and a burst allows. */
  lemma DelayIsPaid(cfg: Config, delay: nat, k: nat)
    requires 1 <= k <= cfg.Effective().burst && k * MILLIS <= cfg.Effective().rps * delay
    ensures var c := cfg.Effective(); var events := LateRun(c, delay, k); var at := delay * NANOS_PER_MILLI;
            && OneClockRun(events, delay, 1) && StampOrder(events, "k")
            && Admitted(events, ServeAll(cfg, events).1, "k", at, at) == 2 * c.burst + k
            && !QuotaKept(cfg, events, "k", at, 0, 1)
  {
    var c, p, q := cfg.Effective(), cfg.Scaled(MILLIS), cfg.Scaled(NANOS);
    var events, at := LateRun(c, delay, k), delay * NANOS_PER_MILLI;
    LateRunShape(c, delay, k);
    LateRunCalls(c, delay, k);
    PriceIs(p, c.burst);
    PriceIs(p, k);
    PriceIs(q, c.burst);
    LateScripts(p, c.burst, delay, k);
    FirstBurst(q, at, c.burst);
    AllGranted(cfg, events, "k");
    AllWithin(events, ServeAll(cfg, events).1, "k", at, at);
    OverQuota(cfg, events, delay);
  }

  // ---------------------------------------------------------------- an outage around every expiry

  const HALF := TTL / 2

  /** Halfway through idle hour n, and at its end, in nanoseconds. */
  function Middle(n: nat): int
    requires n >= 1
  {
    ((n - 1) * GONE + HALF) * NANOS_PER_MILLI
  }

  function End(n: nat): int {
    n * GONE * NANOS_PER_MILLI
  }

  /** The fallback is emptied halfway and at the end, the shared bucket at the end, when its key is gone. */
  function OneCycle(c: Config, n: nat): seq<Event>
    requires c.burst >= 1 && n >= 1
  {
    AskedAll("k", Repeat(Middle(n), c.burst) + Repeat(End(n), c.burst))
    + ScriptedAll("k", Repeat(Tick(n * GONE, n * GONE), c.burst))
  }

  function Cycles(c: Config, n: nat): seq<Event>
    requires c.burst >= 1
  {
    if n == 0 then AskedAll("k", Repeat(0, c.burst)) + ScriptedAll("k", Repeat(Tick(0, 0), c.burst))
    else Cycles(c, n - 1) + OneCycle(c, n)
  }

  function Bursts(burst: nat, n: nat): seq<Tick> {
    if n == 0 then Repeat(Tick(0, 0), burst)
    else Bursts(burst, n - 1) + Repeat(Tick(n * GONE, n * GONE), burst)
  }

  function Asks(burst: nat, n: nat): seq<int> {
    if n == 0 then Repeat(0, burst)
    else Asks(burst, n - 1) + Repeat(Middle(n), burst) + Repeat(End(n), burst)
  }

  lemma BlockCalls(ts: seq<int>, calls: seq<Tick>)
    ensures var es := AskedAll("k", ts) + ScriptedAll("k", calls);
            RedisCalls(es, "k") == calls && FallbackTimes(es, "k", 0) == ts
  {
    AskedTimes("k", ts);
    ScriptedCalls("k", calls);
    CallsAppend(AskedAll("k", ts), ScriptedAll("k", calls), "k");
  }

  lemma {:induction false} CyclesCalls(c: Config, n: nat)
    requires c.burst >= 1
    ensures RedisCalls(Cycles(c, n), "k") == Bursts(c.burst, n)
    ensures FallbackTimes(Cycles(c, n), "k", 0) == Asks(c.burst, n)
  {
    if n == 0 {
      BlockCalls(Repeat(0, c.burst), Repeat(Tick(0, 0), c.burst));
    } else {
      var ts := Repeat(Middle(n), c.burst) + Repeat(End(n), c.burst);
      CyclesCalls(c, n - 1);
      BlockCalls(ts, Repeat(Tick(n * GONE, n * GONE), c.burst));
      CallsAppend(Cycles(c, n - 1), OneCycle(c, n), "k");
      Assoc(Asks(c.burst, n - 1), Repeat(Middle(n), c.burst), Repeat(End(n), c.burst));
    }
  }

  /** A key that is gone grants a whole burst. */
  lemma BurstWhenGone(p: Params, calls: seq<Tick>, burst: nat, last: int, total: int)
    requires p.Valid() && burst >= 1 && p.cap == Price(p, burst)
    requires Leaves(p, calls, Some(Hash(0, last, last + TTL)), total)
    ensures var at := last + GONE;
            Leaves(p, calls + Repeat(Tick(at, at), burst), Some(Hash(0, at, at + TTL)), total + p.cap)
  {
    var h, at := Some(Hash(0, last, last + TTL)), last + GONE;
    assert Visible(h, at) == None;
    Burst(p, calls, Tick(at, at), burst, h, total);
  }

  lemma FirstScripts(p: Params, burst: nat)
    requires p.Valid() && burst >= 1 && p.cap == Price(p, burst)
    ensures Leaves(p, Repeat(Tick(0, 0), burst), Some(Hash(0, 0, TTL)), p.cap)
  {
    Burst(p, [], Tick(0, 0), burst, None, 0);
    assert [] + Repeat(Tick(0, 0), burst) == Repeat(Tick(0, 0), burst);
  }

  /** The shared bucket grants a burst each time. */
  lemma {:induction false} BurstsGrant(p: Params, burst: nat, n: nat, at: int)
    requires p.Valid() && burst >= 1 && p.cap == Price(p, burst) && at == n * GONE
    ensures Leaves(p, Bursts(burst, n), Some(Hash(0, at, at + TTL)), Shares(n, p.cap) + p.cap)
    decreases n
  {
    if n == 0 {
      FirstScripts(p, burst);
    } else {
      var last := at - GONE;
      BurstsGrant(p, burst, n - 1, last);
      BurstWhenGone(p, Bursts(burst, n - 1), burst, last, Shares(n - 1, p.cap) + p.cap);
    }
  }

  /** Half an hour's refill and a rest of less than a token fit a burst that an hour does not cover. */
  lemma HalfFits(cfg: Config, d: int)
    requires !HourCovers(cfg) && 0 <= d <= (HALF + 1) * NANOS_PER_MILLI
    ensures cfg.Scaled(NANOS).rate * d + NANOS <= cfg.Scaled(NANOS).cap
  {
    GainMonotone(cfg.Scaled(NANOS).rate, d, (HALF + 1) * NANOS_PER_MILLI);
  }

  /** Emptying the bucket after d nanoseconds, when nothing overflows, grants what was left and the refill, but for less
      than a token. */
  lemma Emptied(cfg: Config, ts: seq<int>, last: int, d: int, left: int, total: int) returns (rest: int)
    requires !HourCovers(cfg) && 0 <= d <= (HALF + 1) * NANOS_PER_MILLI && 0 <= left < NANOS
    requires LeavesBucket(cfg.Scaled(NANOS), ts, Some(Bucket(left, last)), total)
    ensures 0 <= rest < NANOS
    ensures var p := cfg.Scaled(NANOS);
            LeavesBucket(p, ts + Repeat(last + d, cfg.Effective().burst), Some(Bucket(rest, last + d)),
                         total + left + p.rate * d - rest)
  {
    var p := cfg.Scaled(NANOS);
    HalfFits(cfg, d);
    GainNonnegative(p.rate, d);
    PriceIs(p, cfg.Effective().burst);
    assert last + d - last == d;
    rest := BucketEmptied(p, ts, last + d, cfg.Effective().burst, Some(Bucket(left, last)), total);
  }

  /** The fallback grants a burst and all the refill, but for less than a token. */
  lemma {:induction false} AsksGrant(cfg: Config, n: nat) returns (left: int, total: int)
    requires !HourCovers(cfg)
    ensures 0 <= left < NANOS
    ensures LeavesBucket(cfg.Scaled(NANOS), Asks(cfg.Effective().burst, n), Some(Bucket(left, End(n))), total)
    ensures total == cfg.Scaled(NANOS).cap + cfg.Scaled(NANOS).rate * End(n) - left
  {
    var p, burst := cfg.Scaled(NANOS), cfg.Effective().burst;
    if n == 0 {
      left, total := 0, p.cap;
      PriceIs(p, burst);
      FirstBurst(p, 0, burst);
      assert p.rate * 0 == 0;
    } else {
      var left0, total0 := AsksGrant(cfg, n - 1);
      var d1, d2 := HALF * NANOS_PER_MILLI, (GONE - HALF) * NANOS_PER_MILLI;
      assert End(n - 1) + d1 == Middle(n) && Middle(n) + d2 == End(n);
      var left1 := Emptied(cfg, Asks(burst, n - 1), End(n - 1), d1, left0, total0);
      left := Emptied(cfg, Asks(burst, n - 1) + Repeat(Middle(n), burst), Middle(n), d2, left1,
                      total0 + left0 + p.rate * d1 - left1);
      total := total0 + left0 + p.rate * d1 - left1 + left1 + p.rate * d2 - left;
      GainAdds(p.rate, End(n - 1), d1);
      GainAdds(p.rate, End(n - 1) + d1, d2);
    }
  }

  // ---------------------------------------------------------------- it is a run

  /** A run on one clock of one replica, all scripts answered in the millisecond of their stamp, within [lo, hi]. */
  ghost predicate CleanRun(es: seq<Event>, lo: int, hi: int) {
    && OneClockRun(es, 0, 1) && AllAnswered(es)
    && forall i :: 0 <= i < |es| ==> lo <= Moment(es[i]) <= hi
  }

  lemma CleanAppend(a: seq<Event>, b: seq<Event>, lo: int, mid: int, hi: int)
    requires CleanRun(a, lo, mid) && CleanRun(b, mid, hi) && lo <= mid <= hi
    ensures CleanRun(a + b, lo, hi)
  {
    var es := a + b;
    forall i | 0 <= i < |es|
      ensures lo <= Moment(es[i]) <= hi && es[i].replica < 1
      ensures i < |a| ==> es[i] == a[i] && Moment(es[i]) <= mid
      ensures i >= |a| ==> es[i] == b[i - |a|] && mid <= Moment(es[i])
    {}
    forall i, j | 0 <= i <= j < |es|
      ensures Moment(es[i]) <= Moment(es[j])
    {
      if j < |a| {
        assert Moment(a[i]) <= Moment(a[j]);
      } else if i >= |a| {
        assert Moment(b[i - |a|]) <= Moment(b[j - |a|]);
      }
    }
  }

  lemma AsksClean(t: int, k: nat, lo: int)
    requires lo <= t
    ensures CleanRun(AskedAll("k", Repeat(t, k)), lo, t)
  {}

  lemma ScriptsClean(ms: int, k: nat)
    ensures CleanRun(ScriptedAll("k", Repeat(Tick(ms, ms), k)), ms * NANOS_PER_MILLI, ms * NANOS_PER_MILLI)
  {}

  lemma AsksAppendAll(a: seq<int>, b: seq<int>)
    ensures AskedAll("k", a + b) == AskedAll("k", a) + AskedAll("k", b)
  {}

  lemma {:induction false} CyclesClean(c: Config, n: nat)
    requires c.burst >= 1
    ensures CleanRun(Cycles(c, n), 0, End(n))
  {
    if n == 0 {
      AsksClean(0, c.burst, 0);
      ScriptsClean(0, c.burst);
      CleanAppend(AskedAll("k", Repeat(0, c.burst)), ScriptedAll("k", Repeat(Tick(0, 0), c.burst)), 0, 0, 0);
    } else {
      var a, b := AskedAll("k", Repeat(Middle(n), c.burst)), AskedAll("k", Repeat(End(n), c.burst));
      CyclesClean(c, n - 1);
      AsksClean(Middle(n), c.burst, End(n - 1));
      AsksClean(End(n), c.burst, Middle(n));
      ScriptsClean(n * GONE, c.burst);
      AsksAppendAll(Repeat(Middle(n), c.burst), Repeat(End(n), c.burst));
      CleanAppend(a, b, End(n - 1), Middle(n), End(n));
      CleanAppend(a + b, ScriptedAll("k", Repeat(Tick(n * GONE, n * GONE), c.burst)), End(n - 1), End(n), End(n));
      CleanAppend(Cycles(c, n - 1), OneCycle(c, n), 0, End(n - 1), End(n));
    }
  }

  // ---------------------------------------------------------------- the exact condition

  const MANY := 1000

  lemma {:induction false} SharesScale(n: nat, share: int)
    ensures Shares(n, share * MILLIS) == Shares(n, share) * MILLIS
  {
    if n > 0 {
      SharesScale(n - 1, share);
    }
  }

  /** What n idle hours with an outage admit: a burst of each bucket, one more of the shared bucket each hour, and the
      fallback's refill, but for less than a token. */
  lemma CyclesAdmit(cfg: Config, n: nat) returns (left: int)
    requires !HourCovers(cfg)
    ensures 0 <= left < NANOS
    ensures var c := cfg.Effective(); var events := Cycles(c, n);
            (Admitted(events, ServeAll(cfg, events).1, "k", 0, End(n)) - Shares(n + 1, c.burst)) * NANOS
              == c.burst * NANOS + c.rps * End(n) - left
  {
    var c, p := cfg.Effective(), cfg.Scaled(MILLIS);
    var events := Cycles(c, n);
    CyclesClean(c, n);
    CyclesCalls(c, n);
    PriceIs(p, c.burst);
    BurstsGrant(p, c.burst, n, n * GONE);
    SharesScale(n + 1, c.burst);
    var total;
    left, total := AsksGrant(cfg, n);
    AllGranted(cfg, events, "k");
    AllWithin(events, ServeAll(cfg, events).1, "k", 0, End(n));
  }

  lemma TooMany(burst: int, rps: int, admitted: int, left: int)
    requires burst * MILLIS > rps * GONE && 0 <= left < NANOS
    requires (admitted - (MANY + 1) * burst) * NANOS == burst * NANOS + rps * End(MANY) - left
    ensures admitted * MILLIS > 2 * (burst * MILLIS + rps * (MANY * GONE))
  {}

  ghost predicate AlwaysKept(cfg: Config, delay: nat) {
    forall events, key, lo, millis: nat, n: nat ::
      OneClockRun(events, delay, n) ==> QuotaKept(cfg, events, key, lo, millis, n)
  }

  /** Many times over, an outage around an idle hour: the shared bucket grants more than the hour refills each time. */
  lemma OutageExceeds(cfg: Config)
    requires !HourCovers(cfg)
    ensures var events := Cycles(cfg.Effective(), MANY);
            OneClockRun(events, 0, 1) && !QuotaKept(cfg, events, "k", 0, MANY * GONE, 1)
  {
    var c := cfg.Effective();
    var events := Cycles(c, MANY);
    CyclesClean(c, MANY);
    var left := CyclesAdmit(cfg, MANY);
    SharesIs(MANY + 1, c.burst);
    TooMany(c.burst, c.rps, Admitted(events, ServeAll(cfg, events).1, "k", 0, End(MANY)), left);
  }

  lemma PromptIsWithinDelay(events: seq<Event>, delay: nat)
    requires OneClockRun(events, 0, 1)
    ensures OneClockRun(events, delay, 1)
  {}

  /** For all runs on one clock in which scripts run at most `delay` milliseconds after their stamp, for all keys,
      windows and numbers of replicas, the bound holds if and only if every script runs in the millisecond of its stamp
      and an hour of refill covers the burst. */
  lemma OutageBoundIff(cfg: Config, delay: nat)
    ensures AlwaysKept(cfg, delay) <==> delay == 0 && HourCovers(cfg)
  {
    if !HourCovers(cfg) {
      OutageExceeds(cfg);
      PromptIsWithinDelay(Cycles(cfg.Effective(), MANY), delay);
    } else if delay > 0 {
      var events := OvertakingAdmitsAny(cfg, delay, 2 * cfg.Effective().burst + 1);
      OverQuota(cfg, events, delay);
    } else {
      forall events, key, lo, millis: nat, n: nat | OneClockRun(events, delay, n)
        ensures QuotaKept(cfg, events, key, lo, millis, n)
      {
        WindowKept(cfg, events, key, lo, millis, n);
      }
    }
  }
}
