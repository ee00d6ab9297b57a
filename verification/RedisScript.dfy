/** The Redis script on one key: the lazy bucket with a guard against clocks that go back, and an expiry. */
module RedisScript {
  import opened Collections
  import opened TokenBucket

  const MILLIS := 1000
  const TTL := 3_600_000

  /** Redis serves a key through the millisecond of its expiry, so this long after its last call it is gone. */
  const GONE := TTL + 1

  /** The hash of a key, and when Redis drops it. */
  datatype Hash = Hash(t: int, ts: int, expireAt: int)

  /** A call as the script sees it: ARGV[3], and the server's own clock, which drives the expiry. */
  datatype Tick = Tick(now: int, server: int)

  /** HMGET: an expired key is absent. */
  function Visible(h: Option<Hash>, server: int): Option<Hash> {
    if h.Some? && server <= h.value.expireAt then h else None
  }

  function Script(p: Params, h: Option<Hash>, call: Tick): (Hash, bool) {
    var (tokens, ts) := match Visible(h, call.server)
      case None => (p.cap, call.now)
      case Some(h) => (h.t, h.ts);
    var elapsed := if call.now - ts > 0 then call.now - ts else 0;
    var (b, allowed) := Take(p, Min(p.cap, tokens + p.rate * elapsed), call.now);
    (Hash(b.tokens, call.now, call.server + TTL), allowed)
  }

  function Eval(p: Params, calls: seq<Tick>): (r: (Option<Hash>, seq<bool>))
    ensures |r.1| == |calls| && (r.0.None? <==> calls == [])
  {
    if calls == [] then (None, [])
    else
      var n := |calls| - 1;
      var (h, ds) := Eval(p, calls[..n]);
      var (h', d) := Script(p, h, calls[n]);
      (Some(h'), ds + [d])
  }

  lemma EvalLast(p: Params, calls: seq<Tick>, call: Tick)
    ensures var (h, ds) := Eval(p, calls); var (h', d) := Script(p, h, call);
            Eval(p, calls + [call]) == (Some(h'), ds + [d])
  {
    assert (calls + [call])[..|calls|] == calls;
  }

  /** Every replica and the server on one clock. */
  function OneClock(ts: seq<int>): (calls: seq<Tick>)
    ensures |calls| == |ts| && forall i :: 0 <= i < |ts| ==> calls[i] == Tick(ts[i], ts[i])
  {
    seq(|ts|, i requires 0 <= i < |ts| => Tick(ts[i], ts[i]))
  }

  lemma OneClockLast(ts: seq<int>, t: int)
    ensures OneClock(ts + [t]) == OneClock(ts) + [Tick(t, t)]
  {}

  // ---------------------------------------------------------------- expiry

  lemma {:induction false} TokensInRange(p: Params, ts: seq<int>)
    requires p.Valid() && Nondecreasing(ts) && ts != []
    ensures 0 <= Serve(p, ts).0.value.tokens <= p.cap && Serve(p, ts).0.value.last == ts[|ts| - 1]
    decreases |ts|
  {
    var n := |ts| - 1;
    if n > 0 {
      TokensInRange(p, ts[..n]);
      GainNonnegative(p.rate, ts[n] - ts[n - 1]);
    }
  }

  lemma GainMonotone(rate: int, a: int, b: int)
    requires rate >= 0 && a <= b
    ensures rate * a <= rate * b
  {}

  /** An hour of refill fills the bucket, so whether the key was dropped makes no difference. */
  lemma ExpiryStep(p: Params, b: Bucket, now: int)
    requires p.Valid() && p.cap <= p.rate * GONE && 0 <= b.tokens && b.last <= now
    ensures var (h, d) := Script(p, Some(Hash(b.tokens, b.last, b.last + TTL)), Tick(now, now));
            var (b', d') := Allow(p, Some(b), now);
            d == d' && h == Hash(b'.tokens, now, now + TTL) && b'.last == now
  {
    if now - b.last >= GONE {
      GainMonotone(p.rate, GONE, now - b.last);
    }
  }

  /** The hash and the plain bucket after the same calls. */
  ghost predicate InStep(p: Params, ts: seq<int>) {
    && Eval(p, OneClock(ts)).1 == Serve(p, ts).1
    && (ts != [] ==>
          var b := Serve(p, ts).0.value;
          Eval(p, OneClock(ts)).0 == Some(Hash(b.tokens, b.last, b.last + TTL)) && b.last == ts[|ts| - 1])
  }

  lemma StaysInStep(p: Params, ts: seq<int>, now: int)
    requires p.Valid() && p.cap <= p.rate * GONE && Nondecreasing(ts) && InStep(p, ts)
    requires ts != [] ==> ts[|ts| - 1] <= now
    ensures InStep(p, ts + [now])
  {
    ServeLast(p, ts, now);
    OneClockLast(ts, now);
    EvalLast(p, OneClock(ts), Tick(now, now));
    if ts != [] {
      TokensInRange(p, ts);
      ExpiryStep(p, Serve(p, ts).0.value, now);
    }
  }

  lemma {:induction false} ExpiryHarmless(p: Params, ts: seq<int>)
    requires p.Valid() && Nondecreasing(ts) && p.cap <= p.rate * GONE
    ensures InStep(p, ts)
    decreases |ts|
  {
    if ts != [] {
      var n := |ts| - 1;
      ExpiryHarmless(p, ts[..n]);
      StaysInStep(p, ts[..n], ts[n]);
      assert ts[..n] + [ts[n]] == ts;
    }
  }

  // ---------------------------------------------------------------- bursts

  function Repeat<T>(x: T, k: nat): (xs: seq<T>)
    ensures |xs| == k && forall i :: 0 <= i < k ==> xs[i] == x
  {
    seq(k, _ => x)
  }

  lemma OneMore<T>(xs: seq<T>, x: T, k: nat)
    requires k >= 1
    ensures xs + Repeat(x, k) == (xs + Repeat(x, k - 1)) + [x]
  {}

  /** The price of k tokens. */
  function Price(p: Params, k: nat): int {
    if k == 0 then 0 else Price(p, k - 1) + p.unit
  }

  lemma {:induction false} PriceIs(p: Params, k: nat)
    ensures Price(p, k) == k * p.unit
  {
    if k > 0 {
      PriceIs(p, k - 1);
      assert k * p.unit == (k - 1) * p.unit + p.unit;
    }
  }

  lemma {:induction false} PriceMonotone(p: Params, a: nat, b: nat)
    requires p.Valid() && a <= b
    ensures Price(p, a) <= Price(p, b)
    decreases b
  {
    if a < b {
      PriceMonotone(p, a, b - 1);
    }
  }

  /** Everything a list of decisions granted, in scaled tokens. */
  function Total(p: Params, ds: seq<bool>): int {
    Spent(p, ds, 0, |ds|)
  }

  lemma TotalLast(p: Params, ds: seq<bool>, d: bool)
    ensures Total(p, ds + [d]) == Total(p, ds) + if d then p.unit else 0
  {
    SpentPrefix(p, ds, ds + [d], 0, |ds|);
  }

  /** What a call finds in the hash. */
  function Offered(p: Params, h: Option<Hash>, call: Tick): int {
    match Visible(h, call.server)
    case None => p.cap
    case Some(h) => Min(p.cap, h.t + p.rate * (if call.now > h.ts then call.now - h.ts else 0))
  }

  lemma ScriptTakes(p: Params, h: Option<Hash>, call: Tick)
    ensures var (b, d) := Take(p, Offered(p, h, call), call.now);
            Script(p, h, call) == (Hash(b.tokens, call.now, call.server + TTL), d)
  {
    assert call.now - call.now == 0 && p.rate * 0 == 0;
  }

  lemma OfferedAgain(p: Params, level: int, call: Tick)
    requires level <= p.cap
    ensures Offered(p, Some(Hash(level, call.now, call.server + TTL)), call) == level
    ensures OfferedAt(p, Some(Bucket(level, call.now)), call.now) == level
  {
    assert call.now - call.now == 0 && p.rate * 0 == 0;
  }

  /** After these calls the hash is this, and this much was granted. */
  ghost predicate Leaves(p: Params, calls: seq<Tick>, h: Option<Hash>, total: int) {
    Eval(p, calls).0 == h && Total(p, Eval(p, calls).1) == total
  }

  lemma LeavesLast(p: Params, calls: seq<Tick>, call: Tick, h: Option<Hash>, total: int)
    requires Leaves(p, calls, h, total) && Offered(p, h, call) >= p.unit
    ensures Leaves(p, calls + [call], Some(Hash(Offered(p, h, call) - p.unit, call.now, call.server + TTL)),
                   total + p.unit)
  {
    EvalLast(p, calls, call);
    ScriptTakes(p, h, call);
    TotalLast(p, Eval(p, calls).1, true);
  }

  /** k calls at one instant take k tokens, when there are that many. */
  lemma {:induction false} Burst(p: Params, calls: seq<Tick>, call: Tick, k: nat, h: Option<Hash>, total: int)
    requires p.Valid() && k >= 1 && Leaves(p, calls, h, total) && Price(p, k) <= Offered(p, h, call) <= p.cap
    ensures Leaves(p, calls + Repeat(call, k),
                   Some(Hash(Offered(p, h, call) - Price(p, k), call.now, call.server + TTL)), total + Price(p, k))
    decreases k
  {
    OneMore(calls, call, k);
    assert Price(p, k) == Price(p, k - 1) + p.unit;
    if k == 1 {
      assert calls + Repeat(call, 0) == calls;
      LeavesLast(p, calls, call, h, total);
    } else {
      PriceMonotone(p, 0, k - 1);
      var left := Offered(p, h, call) - Price(p, k - 1);
      Burst(p, calls, call, k - 1, h, total);
      OfferedAgain(p, left, call);
      LeavesLast(p, calls + Repeat(call, k - 1), call, Some(Hash(left, call.now, call.server + TTL)),
                 total + Price(p, k - 1));
    }
  }

  ghost predicate LeavesBucket(p: Params, ts: seq<int>, b: Option<Bucket>, total: int) {
    Serve(p, ts).0 == b && Total(p, Serve(p, ts).1) == total
  }

  /** What is left of a level after k calls at one instant, each taking a token while there is one. */
  function Left(p: Params, level: int, k: nat): int {
    if k == 0 then level
    else
      var left := Left(p, level, k - 1);
      if left >= p.unit then left - p.unit else left
  }

  lemma {:induction false} LeftShape(p: Params, level: int, k: nat)
    requires p.Valid() && level >= 0
    ensures 0 <= Left(p, level, k) <= level
    ensures Left(p, level, k) < p.unit || Left(p, level, k) == level - Price(p, k)
  {
    if k > 0 {
      LeftShape(p, level, k - 1);
    }
  }

  lemma BucketAskedOnce(p: Params, ts: seq<int>, t: int, b: Option<Bucket>, total: int)
    requires LeavesBucket(p, ts, b, total)
    ensures var level := OfferedAt(p, b, t); var left := Left(p, level, 1);
            LeavesBucket(p, ts + [t], Some(Bucket(left, t)), total + level - left)
  {
    ServeLast(p, ts, t);
    TotalLast(p, Serve(p, ts).1, OfferedAt(p, b, t) >= p.unit);
    assert Left(p, OfferedAt(p, b, t), 0) == OfferedAt(p, b, t);
  }

  lemma LeftOneMore(p: Params, level: int, k: nat)
    requires k >= 1
    ensures Left(p, level, k) == Left(p, Left(p, level, k - 1), 1)
  {
    assert Left(p, Left(p, level, k - 1), 0) == Left(p, level, k - 1);
  }

  /** k calls at one instant take what there is. */
  lemma {:induction false} BucketAsked(p: Params, ts: seq<int>, t: int, k: nat, b: Option<Bucket>, total: int)
    requires p.Valid() && k >= 1 && LeavesBucket(p, ts, b, total) && 0 <= OfferedAt(p, b, t) <= p.cap
    ensures var level := OfferedAt(p, b, t); var left := Left(p, level, k);
            LeavesBucket(p, ts + Repeat(t, k), Some(Bucket(left, t)), total + level - left)
    decreases k
  {
    var level := OfferedAt(p, b, t);
    OneMore(ts, t, k);
    if k == 1 {
      assert ts + Repeat(t, 0) == ts;
      BucketAskedOnce(p, ts, t, b, total);
    } else {
      var left := Left(p, level, k - 1);
      BucketAsked(p, ts, t, k - 1, b, total);
      LeftShape(p, level, k - 1);
      OfferedAgain(p, left, Tick(t, t));
      BucketAskedOnce(p, ts + Repeat(t, k - 1), t, Some(Bucket(left, t)), total + level - left);
      LeftOneMore(p, level, k);
    }
  }

  /** As many calls as the bucket can hold tokens leave less than one. */
  lemma BucketEmptied(p: Params, ts: seq<int>, t: int, k: nat, b: Option<Bucket>, total: int) returns (left: int)
    requires p.Valid() && k >= 1 && LeavesBucket(p, ts, b, total) && 0 <= OfferedAt(p, b, t) <= p.cap
    requires p.cap == Price(p, k)
    ensures 0 <= left < p.unit
    ensures LeavesBucket(p, ts + Repeat(t, k), Some(Bucket(left, t)), total + OfferedAt(p, b, t) - left)
  {
    left := Left(p, OfferedAt(p, b, t), k);
    LeftShape(p, OfferedAt(p, b, t), k);
    BucketAsked(p, ts, t, k, b, total);
  }

  // ---------------------------------------------------------------- the exact condition

  ghost predicate NeverTellsApart(p: Params) {
    forall ts :: Nondecreasing(ts) ==> Eval(p, OneClock(ts)).1 == Serve(p, ts).1
  }

  /** An hour of refill covers the burst: the refill of the time after which a key is gone fills the bucket. */
  predicate HourCovers(cfg: Config) {
    cfg.Effective().burst * MILLIS <= cfg.Effective().rps * GONE
  }

  /** In numbers: 3,600,001 milliseconds of refill. */
  lemma HourInNumbers(cfg: Config)
    ensures HourCovers(cfg) <==> cfg.Effective().burst * 1000 <= cfg.Effective().rps * 3_600_001
  {}

  /** A burst of at most 3600 times the rate is covered. */
  lemma HourSuffices(cfg: Config)
    requires cfg.Effective().burst <= 3600 * cfg.Effective().rps
    ensures HourCovers(cfg)
  {}

  /** A burst, an hour without a call, and a burst again. */
  function TwoBursts(burst: nat): (ts: seq<int>)
    ensures |ts| == 2 * burst && Nondecreasing(ts) && forall i :: 0 <= i < |ts| ==> ts[i] in {0, GONE}
    ensures OneClock(ts) == Repeat(Tick(0, 0), burst) + Repeat(Tick(GONE, GONE), burst)
  {
    Repeat(0, burst) + Repeat(GONE, burst)
  }

  /** The expired key grants both bursts in full. */
  lemma BothBursts(p: Params, burst: nat)
    requires p.Valid() && burst >= 1 && p.cap == Price(p, burst)
    ensures Leaves(p, OneClock(TwoBursts(burst)), Some(Hash(0, GONE, GONE + TTL)), p.cap + p.cap)
  {
    Burst(p, [], Tick(0, 0), burst, None, 0);
    assert [] + Repeat(Tick(0, 0), burst) == Repeat(Tick(0, 0), burst);
    Burst(p, Repeat(Tick(0, 0), burst), Tick(GONE, GONE), burst, Some(Hash(0, 0, TTL)), p.cap);
  }

  lemma WholeBound(p: Params, ts: seq<int>, length: int)
    requires p.Valid() && Nondecreasing(ts) && ts != [] && ts[|ts| - 1] - ts[0] == length
    ensures Total(p, Serve(p, ts).1) <= p.cap + p.rate * length
  {
    WindowBound(p, ts, 0, |ts| - 1);
  }

  /** The plain bucket cannot. */
  lemma ExpiryRefillsTooMuch(p: Params, burst: nat)
    requires p.Valid() && burst >= 1 && p.cap == Price(p, burst) && p.rate * GONE < p.cap
    ensures var ts := TwoBursts(burst);
            Total(p, Eval(p, OneClock(ts)).1) == p.cap + p.cap > p.cap + p.rate * GONE >= Total(p, Serve(p, ts).1)
  {
    var ts := TwoBursts(burst);
    BothBursts(p, burst);
    WholeBound(p, ts, GONE);
  }

  /** On one clock the script with its one-hour expiry decides every run as the bucket that never expires
      if and only if an hour of refill covers the burst. */
  lemma ExpiryInvisibleIff(cfg: Config)
    ensures NeverTellsApart(cfg.Scaled(MILLIS))
       <==> cfg.Effective().burst * 1000 <= cfg.Effective().rps * 3_600_001
  {
    HourInNumbers(cfg);
    var p := cfg.Scaled(MILLIS);
    if HourCovers(cfg) {
      forall ts | Nondecreasing(ts)
        ensures Eval(p, OneClock(ts)).1 == Serve(p, ts).1
      {
        ExpiryHarmless(p, ts);
      }
    } else {
      PriceIs(p, cfg.Effective().burst);
      ExpiryRefillsTooMuch(p, cfg.Effective().burst);
    }
  }
}
