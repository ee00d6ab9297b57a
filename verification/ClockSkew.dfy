/** Replicas whose clocks differ: what the script then promises in a window of the server's time. */
module ClockSkew {
  import opened Collections
  import opened TokenBucket
  import opened RedisScript
  import opened VirtualClock

  // ---------------------------------------------------------------- minting

  /** Calls that all reach the server at one instant, stamped one way or the other. */
  ghost predicate Flicker(calls: seq<Tick>, lo: int, hi: int, server: int) {
    forall i :: 0 <= i < |calls| ==> calls[i] in {Tick(lo, server), Tick(hi, server)}
  }

  lemma FlickerMore(calls: seq<Tick>, lo: int, hi: int, server: int, now: int)
    requires Flicker(calls, lo, hi, server) && now in {lo, hi}
    ensures Flicker(calls + [Tick(now, server)], lo, hi, server)
  {}

  /** One more call: what it finds is taken or left. */
  lemma LeavesMore(p: Params, calls: seq<Tick>, call: Tick, h: Option<Hash>, total: int)
    requires Leaves(p, calls, h, total)
    ensures var level := Offered(p, h, call); var paid := if level >= p.unit then p.unit else 0;
            Leaves(p, calls + [call], Some(Hash(level - paid, call.now, call.server + TTL)), total + paid)
  {
    EvalLast(p, calls, call);
    ScriptTakes(p, h, call);
    TotalLast(p, Eval(p, calls).1, Offered(p, h, call) >= p.unit);
  }

  /** Stepping the stamp from lo to hi and back refills the bucket, at no time at all. */
  lemma StepForth(p: Params, level: int, lo: int, hi: int, server: int)
    requires p.Valid() && lo < hi && 0 <= level <= p.cap
    ensures var up := Offered(p, Some(Hash(level, lo, server + TTL)), Tick(hi, server));
            level <= up <= p.cap && (level < p.cap ==> level < up)
    ensures Offered(p, Some(Hash(level, hi, server + TTL)), Tick(lo, server)) == level
  {
    GainMonotone(p.rate, 1, hi - lo);
    assert p.rate * 0 == 0;
  }

  /** Enough steps pay for one more token. */
  lemma {:induction false} MintOne(p: Params, calls: seq<Tick>, lo: int, hi: int, server: int, level: int, total: int)
    returns (more: seq<Tick>, left: int, paid: int)
    requires p.Valid() && lo < hi && Flicker(calls, lo, hi, server) && 0 <= level <= p.cap
    requires Leaves(p, calls, Some(Hash(level, lo, server + TTL)), total)
    ensures Flicker(more, lo, hi, server) && 0 <= left <= p.cap && paid >= total + p.unit
    ensures Leaves(p, more, Some(Hash(left, lo, server + TTL)), paid)
    decreases p.unit - level
  {
    var up := Offered(p, Some(Hash(level, lo, server + TTL)), Tick(hi, server));
    var forth := calls + [Tick(hi, server)];
    StepForth(p, level, lo, hi, server);
    FlickerMore(calls, lo, hi, server, hi);
    LeavesMore(p, calls, Tick(hi, server), Some(Hash(level, lo, server + TTL)), total);
    var kept := if up >= p.unit then up - p.unit else up;
    StepForth(p, kept, lo, hi, server);
    FlickerMore(forth, lo, hi, server, lo);
    LeavesMore(p, forth, Tick(lo, server), Some(Hash(kept, hi, server + TTL)), total + up - kept);
    more := forth + [Tick(lo, server)];
    left := if kept >= p.unit then kept - p.unit else kept;
    paid := total + (up - kept) + (kept - left);
    if up < p.unit {
      more, left, paid := MintOne(p, more, lo, hi, server, up, total);
    }
  }

  lemma FirstCall(p: Params, lo: int, hi: int, server: int)
    requires p.Valid()
    ensures Flicker([Tick(lo, server)], lo, hi, server)
    ensures Leaves(p, [Tick(lo, server)], Some(Hash(p.cap - p.unit, lo, server + TTL)), p.unit)
  {
    LeavesMore(p, [], Tick(lo, server), None, 0);
    assert [] + [Tick(lo, server)] == [Tick(lo, server)];
  }

  /** So two clocks that differ mint any number of tokens within one instant. */
  lemma {:induction false} MintMany(p: Params, lo: int, hi: int, server: int, k: nat)
    returns (calls: seq<Tick>, left: int, paid: int)
    requires p.Valid() && lo < hi
    ensures Flicker(calls, lo, hi, server) && 0 <= left <= p.cap && paid >= Price(p, k)
    ensures Leaves(p, calls, Some(Hash(left, lo, server + TTL)), paid)
  {
    if k == 0 {
      FirstCall(p, lo, hi, server);
      calls, left, paid := [Tick(lo, server)], p.cap - p.unit, p.unit;
    } else {
      calls, left, paid := MintMany(p, lo, hi, server, k - 1);
      calls, left, paid := MintOne(p, calls, lo, hi, server, left, paid);
    }
  }

  // ---------------------------------------------------------------- the wall-clock window

  function Servers(calls: seq<Tick>): (ts: seq<int>)
    ensures |ts| == |calls| && forall i :: 0 <= i < |calls| ==> ts[i] == calls[i].server
  {
    seq(|calls|, i requires 0 <= i < |calls| => calls[i].server)
  }

  /** Two groups of replicas: one on the server's clock, one whose clock differs by d. */
  ghost predicate TwoClocks(calls: seq<Tick>, d: int) {
    && Kept(calls) && Nondecreasing(Servers(calls))
    && forall i :: 0 <= i < |calls| ==> calls[i].now in {calls[i].server, calls[i].server + d}
  }

  /** In no window of the server's time more than burst + rps * T is granted. */
  ghost predicate WindowsKept(p: Params, calls: seq<Tick>) {
    forall lo, hi :: lo <= hi ==>
      SpentIn(p, Servers(calls), Eval(p, calls).1, lo, hi) <= p.cap + p.rate * (hi - lo)
  }

  ghost predicate SkewHarmless(p: Params, d: int) {
    forall calls :: TwoClocks(calls, d) ==> WindowsKept(p, calls)
  }

  lemma {:induction false} SpentAtOnce(p: Params, ts: seq<int>, ds: seq<bool>, t: int)
    requires |ts| == |ds| && forall i :: 0 <= i < |ts| ==> ts[i] == t
    ensures SpentIn(p, ts, ds, t, t) == Total(p, ds)
  {
    SpentInFrom(p, ts, ds, t, t, 0);
  }

  lemma FlickerIsTwoClocks(calls: seq<Tick>, d: int, lo: int, hi: int)
    requires Flicker(calls, lo, hi, 0) && {lo, hi} == {0, d}
    ensures TwoClocks(calls, d)
  {
    forall i | 0 <= i < |calls|
      ensures calls[i].server == 0 && calls[i].now in {0, d}
    {
      assert calls[i].now in {lo, hi};
    }
  }

  /** Clocks that differ, by however little, grant any number of tokens within one instant of the server. */
  lemma SkewMintsTokens(p: Params, d: int, k: nat) returns (calls: seq<Tick>)
    requires p.Valid() && d != 0
    ensures TwoClocks(calls, d)
    ensures SpentIn(p, Servers(calls), Eval(p, calls).1, 0, 0) >= Price(p, k)
  {
    var lo, hi := if d > 0 then 0 else d, if d > 0 then d else 0;
    var left, paid;
    calls, left, paid := MintMany(p, lo, hi, 0, k);
    FlickerIsTwoClocks(calls, d, lo, hi);
    SpentAtOnce(p, Servers(calls), Eval(p, calls).1, 0);
  }

  lemma KeptPrefix(calls: seq<Tick>, n: nat)
    requires Kept(calls) && n <= |calls|
    ensures Kept(calls[..n])
  {}

  lemma FirstInStep(p: Params, t: int)
    requires p.Valid()
    ensures InStep(p, [t])
  {
    assert [] + [t] == [t];
    ServeLast(p, [], t);
    OneClockLast([], t);
    EvalLast(p, OneClock([]), Tick(t, t));
    ScriptTakes(p, None, Tick(t, t));
  }

  lemma KeptStep(p: Params, ts: seq<int>, now: int)
    requires p.Valid() && Nondecreasing(ts) && InStep(p, ts) && ts != []
    requires ts[|ts| - 1] <= now <= ts[|ts| - 1] + TTL
    ensures InStep(p, ts + [now])
  {
    ServeLast(p, ts, now);
    OneClockLast(ts, now);
    EvalLast(p, OneClock(ts), Tick(now, now));
    ScriptTakes(p, Eval(p, OneClock(ts)).0, Tick(now, now));
  }

  lemma KeptNext(p: Params, ts: seq<int>)
    requires p.Valid() && Nondecreasing(ts) && Kept(OneClock(ts)) && |ts| >= 2 && InStep(p, ts[..|ts| - 1])
    ensures InStep(p, ts)
  {
    var n := |ts| - 1;
    assert OneClock(ts)[n].server <= OneClock(ts)[n - 1].server + TTL;
    KeptStep(p, ts[..n], ts[n]);
    assert ts[..n] + [ts[n]] == ts;
  }

  lemma KeptBefore(ts: seq<int>)
    requires ts != [] && Kept(OneClock(ts))
    ensures Kept(OneClock(ts[..|ts| - 1]))
  {
    var n := |ts| - 1;
    assert OneClock(ts)[..n] == OneClock(ts[..n]);
    KeptPrefix(OneClock(ts), n);
  }

  /** Kept calls on one clock are decided as by the plain bucket, whatever the burst. */
  lemma {:induction false} KeptInStep(p: Params, ts: seq<int>)
    requires p.Valid() && Nondecreasing(ts) && Kept(OneClock(ts))
    ensures InStep(p, ts)
    decreases |ts|
  {
    if |ts| == 1 {
      FirstInStep(p, ts[0]);
      assert ts == [ts[0]];
    } else if ts != [] {
      KeptBefore(ts);
      KeptInStep(p, ts[..|ts| - 1]);
      KeptNext(p, ts);
    }
  }

  lemma OneClockHarmless(p: Params, calls: seq<Tick>)
    requires p.Valid() && TwoClocks(calls, 0)
    ensures WindowsKept(p, calls)
  {
    var ts := Servers(calls);
    assert calls == OneClock(ts);
    KeptInStep(p, ts);
    forall lo, hi | lo <= hi
      ensures SpentIn(p, ts, Eval(p, calls).1, lo, hi) <= p.cap + p.rate * (hi - lo)
    {
      TimeWindowBound(p, ts, lo, hi);
    }
  }

  lemma {:induction false} PriceGrows(p: Params, k: nat)
    requires p.Valid()
    ensures Price(p, k) >= k
  {
    if k > 0 {
      PriceGrows(p, k - 1);
    }
  }

  lemma WindowBroken(p: Params, calls: seq<Tick>)
    requires SpentIn(p, Servers(calls), Eval(p, calls).1, 0, 0) > p.cap
    ensures !WindowsKept(p, calls)
  {
    assert p.rate * (0 - 0) == 0;
  }

  /** Windows of the server's time keep their bound on all runs without expiry, for two groups of replicas whose
      clocks differ by d, if and only if d is zero. */
  lemma SkewBoundIff(p: Params, d: int)
    requires p.Valid()
    ensures SkewHarmless(p, d) <==> d == 0
  {
    if d == 0 {
      forall calls | TwoClocks(calls, d)
        ensures WindowsKept(p, calls)
      {
        OneClockHarmless(p, calls);
      }
    } else {
      var calls := SkewMintsTokens(p, d, p.cap + 1);
      PriceGrows(p, p.cap + 1);
      WindowBroken(p, calls);
    }
  }
}
