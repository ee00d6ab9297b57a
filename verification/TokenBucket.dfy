/** The bucket arithmetic both limiters share, in exact integers: a level counts tokens times clock ticks
    per second, so `unit` (the ticks in one second) is one token and a tick refills `rate` (RPS). */
module TokenBucket {
  import opened Collections

  const DEFAULT_RPS := 10

  datatype Params = Params(rate: int, cap: int, unit: int) {
    ghost predicate Valid() {
      rate >= 1 && unit >= 1 && cap >= unit
    }
  }

  datatype Config = Config(rps: int, burst: int) {
    /** The defaults of Config.effective. */
    function Effective(): (c: Config)
      ensures c.rps >= 1 && c.burst >= 1
      ensures c.rps == if rps > 0 then rps else 10
      ensures c.burst == if burst > 0 then burst else 2 * c.rps
    {
      var r := if rps <= 0 then DEFAULT_RPS else rps;
      Config(r, if burst <= 0 then r * 2 else burst)
    }

    function Scaled(unit: int): (p: Params)
      requires unit >= 1
      ensures p.Valid()
    {
      var c := Effective();
      Params(c.rps, c.burst * unit, unit)
    }
  }

  datatype Bucket = Bucket(tokens: int, last: int)

  /** One token if there is one. */
  function Take(p: Params, level: int, now: int): (Bucket, bool) {
    if level >= p.unit then (Bucket(level - p.unit, now), true) else (Bucket(level, now), false)
  }

  /** What a call finds in the bucket: the level refilled for the time since the last call, and capped. */
  function OfferedAt(p: Params, b: Option<Bucket>, now: int): int {
    match b
    case None => p.cap
    case Some(b) => Min(p.cap, b.tokens + p.rate * (now - b.last))
  }

  /** The lazy bucket: refill for the time since the last call, cap, deduct; O(1) state. */
  function Allow(p: Params, b: Option<Bucket>, now: int): (Bucket, bool) {
    Take(p, OfferedAt(p, b, now), now)
  }

  /** The lazy bucket on a list of call times: its final state and every decision. */
  function Serve(p: Params, ts: seq<int>): (r: (Option<Bucket>, seq<bool>))
    ensures |r.1| == |ts| && (r.0.None? <==> ts == [])
  {
    if ts == [] then (None, [])
    else
      var n := |ts| - 1;
      var (b, ds) := Serve(p, ts[..n]);
      var (b', d) := Allow(p, b, ts[n]);
      (Some(b'), ds + [d])
  }

  lemma ServeLast(p: Params, ts: seq<int>, t: int)
    ensures var (b, ds) := Serve(p, ts); var (b', d) := Allow(p, b, t);
            Serve(p, ts + [t]) == (Some(b'), ds + [d])
  {
    assert (ts + [t])[..|ts|] == ts;
  }

  // ---------------------------------------------------------------- the definition by windows

  ghost predicate Nondecreasing(ts: seq<int>) {
    forall i, j :: 0 <= i <= j < |ts| ==> ts[i] <= ts[j]
  }

  /** What calls i..j-1 were granted, in scaled tokens. */
  function Spent(p: Params, ds: seq<bool>, i: nat, j: nat): int
    requires i <= j <= |ds|
    decreases j
  {
    if i == j then 0 else Spent(p, ds, i, j - 1) + (if ds[j - 1] then p.unit else 0)
  }

  /** What the window that opens at call i still allows when call n arrives. */
  function Headroom(p: Params, ts: seq<int>, ds: seq<bool>, i: nat, n: nat): int
    requires i <= n < |ts| && n <= |ds|
  {
    p.cap + p.rate * (ts[n] - ts[i]) - Spent(p, ds, i, n)
  }

  /** The definition of rate limiting: call n may pass when every window ending with it stays within
      burst + rps * length, itself included. */
  predicate FitsEveryWindow(p: Params, ts: seq<int>, ds: seq<bool>, n: nat)
    requires n < |ts| && n <= |ds|
  {
    forall i :: 0 <= i <= n ==> p.unit <= Headroom(p, ts, ds, i, n)
  }

  function WindowDecisions(p: Params, ts: seq<int>): (ds: seq<bool>)
    ensures |ds| == |ts|
  {
    if ts == [] then []
    else
      var n := |ts| - 1;
      var ds := WindowDecisions(p, ts[..n]);
      ds + [FitsEveryWindow(p, ts, ds, n)]
  }

  lemma {:induction false} SpentPrefix(p: Params, ds: seq<bool>, ds': seq<bool>, i: nat, j: nat)
    requires i <= j <= |ds| && ds <= ds'
    ensures Spent(p, ds, i, j) == Spent(p, ds', i, j)
    decreases j
  {
    if i < j {
      SpentPrefix(p, ds, ds', i, j - 1);
    }
  }

  lemma GainAdds(rate: int, a: int, b: int)
    ensures rate * a + rate * b == rate * (a + b)
  {}

  /** The level after the last refill is the least headroom over all windows. */
  ghost predicate LeastHeadroom(p: Params, ts: seq<int>, ds: seq<bool>, n: nat, level: int)
    requires n < |ts| && n <= |ds|
  {
    && (forall i :: 0 <= i <= n ==> level <= Headroom(p, ts, ds, i, n))
    && (exists i :: 0 <= i <= n && level == Headroom(p, ts, ds, i, n))
  }

  /** The level the bucket shows call n, after the refill and before the decision. */
  function LevelAt(p: Params, ts: seq<int>): int
    requires ts != []
  {
    OfferedAt(p, Serve(p, ts[..|ts| - 1]).0, ts[|ts| - 1])
  }

  lemma HeadroomMoves(p: Params, ts: seq<int>, ds: seq<bool>, i: nat, n: nat)
    requires i <= n < |ts| - 1 && n < |ds|
    ensures Headroom(p, ts, ds, i, n + 1)
         == Headroom(p, ts[..n + 1], ds[..n], i, n) + p.rate * (ts[n + 1] - ts[n]) - (if ds[n] then p.unit else 0)
  {
    SpentPrefix(p, ds[..n], ds, i, n);
    GainAdds(p.rate, ts[n] - ts[i], ts[n + 1] - ts[n]);
    assert Spent(p, ds, i, n + 1) == Spent(p, ds, i, n) + (if ds[n] then p.unit else 0);
  }

  /** Paying for call n - 1 and refilling until call n moves the least headroom the way the bucket moves. */
  lemma LeastMoves(p: Params, ts: seq<int>, ds: seq<bool>, n: nat, level: int, left: int)
    requires 1 <= n < |ts| && |ds| == n
    requires LeastHeadroom(p, ts[..n], ds[..n - 1], n - 1, level)
    requires left == level - (if ds[n - 1] then p.unit else 0)
    ensures LeastHeadroom(p, ts, ds, n, Min(p.cap, left + p.rate * (ts[n] - ts[n - 1])))
  {
    var before, earlier := ts[..n], ds[..n - 1];
    var gain := p.rate * (ts[n] - ts[n - 1]);
    assert Headroom(p, ts, ds, n, n) == p.cap;
    forall i | 0 <= i < n
      ensures Headroom(p, ts, ds, i, n) == Headroom(p, before, earlier, i, n - 1) + (left - level) + gain
    {
      HeadroomMoves(p, ts, ds, i, n - 1);
    }
    var k :| 0 <= k <= n - 1 && level == Headroom(p, before, earlier, k, n - 1);
    assert Headroom(p, ts, ds, k, n) == left + gain;
  }

  lemma BucketBefore(p: Params, ts: seq<int>, n: nat)
    requires 1 <= n < |ts|
    ensures var (b, ds) := Serve(p, ts[..n]); var level := LevelAt(p, ts[..n]);
            && ds == Serve(p, ts[..n - 1]).1 + [level >= p.unit]
            && b == Some(Bucket(level - (if level >= p.unit then p.unit else 0), ts[n - 1]))
  {
    assert ts[..n][..n - 1] == ts[..n - 1];
  }

  /** The O(1) state is the minimum over all windows. */
  lemma {:induction false} LevelIsLeastHeadroom(p: Params, ts: seq<int>)
    requires p.Valid() && Nondecreasing(ts) && ts != []
    ensures LeastHeadroom(p, ts, Serve(p, ts[..|ts| - 1]).1, |ts| - 1, LevelAt(p, ts))
    decreases |ts|
  {
    var n := |ts| - 1;
    if n == 0 {
      assert Headroom(p, ts, [], 0, 0) == p.cap;
    } else {
      var (b, ds) := Serve(p, ts[..n]);
      LevelIsLeastHeadroom(p, ts[..n]);
      BucketBefore(p, ts, n);
      assert ts[..n][..n - 1] == ts[..n - 1] && ds[..n - 1] == Serve(p, ts[..n - 1]).1;
      LeastMoves(p, ts, ds, n, LevelAt(p, ts[..n]), b.value.tokens);
    }
  }

  /** The lazy bucket refines the definition: on nondecreasing call times it decides every call as the
      check of every window would. */
  lemma {:induction false} LazyIsEveryWindow(p: Params, ts: seq<int>)
    requires p.Valid() && Nondecreasing(ts)
    ensures Serve(p, ts).1 == WindowDecisions(p, ts)
    decreases |ts|
  {
    if ts != [] {
      var n := |ts| - 1;
      LazyIsEveryWindow(p, ts[..n]);
      LevelIsLeastHeadroom(p, ts);
    }
  }

  lemma GainNonnegative(rate: int, dt: int)
    requires rate >= 0 && dt >= 0
    ensures rate * dt >= 0
  {}

  /** A grant to the last call fits every window that ends with it. */
  lemma GrantFits(p: Params, ts: seq<int>, i: nat)
    requires p.Valid() && Nondecreasing(ts) && i < |ts| && Serve(p, ts).1[|ts| - 1]
    ensures Spent(p, Serve(p, ts).1, i, |ts|) <= p.cap + p.rate * (ts[|ts| - 1] - ts[i])
  {
    var n := |ts| - 1;
    var earlier := Serve(p, ts[..n]).1;
    LevelIsLeastHeadroom(p, ts);
    SpentPrefix(p, earlier, Serve(p, ts).1, i, n);
    assert p.unit <= LevelAt(p, ts) <= Headroom(p, ts, earlier, i, n);
  }

  /** A window that grew by a refused call. */
  lemma RefusalFits(p: Params, ts: seq<int>, ds: seq<bool>, i: nat)
    requires p.Valid() && Nondecreasing(ts) && i < |ts| - 1 && |ds| == |ts| && !ds[|ts| - 1]
    requires Spent(p, ds, i, |ts| - 1) <= p.cap + p.rate * (ts[|ts| - 2] - ts[i])
    ensures Spent(p, ds, i, |ts|) <= p.cap + p.rate * (ts[|ts| - 1] - ts[i])
  {
    var n := |ts| - 1;
    GainAdds(p.rate, ts[n - 1] - ts[i], ts[n] - ts[n - 1]);
    GainNonnegative(p.rate, ts[n] - ts[n - 1]);
  }

  /** Calls i..j, both ends included, are granted at most burst plus the refill of the time between them. */
  lemma {:induction false} WindowBound(p: Params, ts: seq<int>, i: nat, j: nat)
    requires p.Valid() && Nondecreasing(ts) && i <= j < |ts|
    ensures Spent(p, Serve(p, ts).1, i, j + 1) <= p.cap + p.rate * (ts[j] - ts[i])
    decreases |ts|, j
  {
    var n := |ts| - 1;
    var ds := Serve(p, ts).1;
    if j < n {
      WindowBound(p, ts[..n], i, j);
      SpentPrefix(p, Serve(p, ts[..n]).1, ds, i, j + 1);
    } else if ds[n] {
      GrantFits(p, ts, i);
    } else if i == n {
      assert Spent(p, ds, n, n + 1) == Spent(p, ds, n, n);
      assert p.rate * (ts[n] - ts[n]) == 0;
    } else {
      WindowBound(p, ts[..n], i, n - 1);
      SpentPrefix(p, Serve(p, ts[..n]).1, ds, i, n);
      RefusalFits(p, ts, ds, i);
    }
  }

  // ---------------------------------------------------------------- windows of time

  /** Scaled tokens granted at times in [lo, hi]. */
  function SpentIn(p: Params, ts: seq<int>, ds: seq<bool>, lo: int, hi: int): int
    requires |ts| == |ds|
  {
    if ts == [] then 0
    else
      var n := |ts| - 1;
      SpentIn(p, ts[..n], ds[..n], lo, hi) + (if ds[n] && lo <= ts[n] <= hi then p.unit else 0)
  }

  lemma {:induction false} SpentInFrom(p: Params, ts: seq<int>, ds: seq<bool>, lo: int, hi: int, i: nat)
    requires |ts| == |ds| && i <= |ts|
    requires forall k :: 0 <= k < i ==> ts[k] < lo
    requires forall k :: i <= k < |ts| ==> lo <= ts[k] <= hi
    ensures SpentIn(p, ts, ds, lo, hi) == Spent(p, ds, i, |ds|)
    decreases |ts|
  {
    if ts != [] {
      var n := |ts| - 1;
      if i <= n {
        SpentInFrom(p, ts[..n], ds[..n], lo, hi, i);
        SpentPrefix(p, ds[..n], ds, i, n);
      } else {
        SpentInFrom(p, ts[..n], ds[..n], lo, hi, n);
      }
    }
  }

  lemma FirstAtOrAfter(ts: seq<int>, lo: int) returns (i: nat)
    requires Nondecreasing(ts)
    ensures i <= |ts|
    ensures forall k :: 0 <= k < i ==> ts[k] < lo
    ensures forall k :: i <= k < |ts| ==> lo <= ts[k]
  {
    i := |ts|;
    while i > 0 && lo <= ts[i - 1]
      invariant i <= |ts|
      invariant forall k :: i <= k < |ts| ==> lo <= ts[k]
    {
      i := i - 1;
    }
  }

  /** Every window of time [lo, hi] admits at most burst + rps * (hi - lo). */
  lemma {:induction false} TimeWindowBound(p: Params, ts: seq<int>, lo: int, hi: int)
    requires p.Valid() && Nondecreasing(ts) && lo <= hi
    ensures SpentIn(p, ts, Serve(p, ts).1, lo, hi) <= p.cap + p.rate * (hi - lo)
    decreases |ts|
  {
    GainNonnegative(p.rate, hi - lo);
    if ts != [] {
      var n := |ts| - 1;
      if ts[n] > hi {
        TimeWindowBound(p, ts[..n], lo, hi);
      } else {
        var i := FirstAtOrAfter(ts, lo);
        var ds := Serve(p, ts).1;
        SpentInFrom(p, ts, ds, lo, hi, i);
        if i <= n {
          WindowBound(p, ts, i, n);
          GainAdds(p.rate, ts[n] - ts[i], (hi - lo) - (ts[n] - ts[i]));
          GainNonnegative(p.rate, (hi - lo) - (ts[n] - ts[i]));
        }
      }
    }
  }

  // ---------------------------------------------------------------- one bucket per key

  datatype Call = Call(key: string, now: int)

  function AllowKey(p: Params, buckets: map<string, Bucket>, call: Call): (map<string, Bucket>, bool) {
    var b := if call.key in buckets then Some(buckets[call.key]) else None;
    var (b', d) := Allow(p, b, call.now);
    (buckets[call.key := b'], d)
  }

  function ServeKeys(p: Params, calls: seq<Call>): (r: (map<string, Bucket>, seq<bool>))
    ensures |r.1| == |calls|
  {
    if calls == [] then (map[], [])
    else
      var n := |calls| - 1;
      var (m, ds) := ServeKeys(p, calls[..n]);
      var (m', d) := AllowKey(p, m, calls[n]);
      (m', ds + [d])
  }

  function TimesOf(calls: seq<Call>, key: string): seq<int> {
    if calls == [] then []
    else
      var n := |calls| - 1;
      TimesOf(calls[..n], key) + (if calls[n].key == key then [calls[n].now] else [])
  }

  function DecisionsOf(calls: seq<Call>, ds: seq<bool>, key: string): seq<bool>
    requires |calls| == |ds|
  {
    if calls == [] then []
    else
      var n := |calls| - 1;
      DecisionsOf(calls[..n], ds[..n], key) + (if calls[n].key == key then [ds[n]] else [])
  }

  /** Keys do not interfere: a key's decisions, and its bucket, are those of the run restricted to it. */
  lemma {:induction false} KeysAreIndependent(p: Params, calls: seq<Call>, key: string)
    ensures var (m, ds) := ServeKeys(p, calls);
            var (b, alone) := Serve(p, TimesOf(calls, key));
            && DecisionsOf(calls, ds, key) == alone
            && (key in m <==> b.Some?)
            && (key in m ==> m[key] == b.value)
    decreases |calls|
  {
    if calls != [] {
      var n := |calls| - 1;
      KeysAreIndependent(p, calls[..n], key);
      var ds := ServeKeys(p, calls).1;
      assert ds[..n] == ServeKeys(p, calls[..n]).1;
      var ts := TimesOf(calls, key);
      if calls[n].key == key {
        assert ts[..|ts| - 1] == TimesOf(calls[..n], key);
      } else {
        assert ts == TimesOf(calls[..n], key);
      }
    }
  }

  lemma {:induction false} TimesOfNondecreasing(calls: seq<Call>, key: string)
    requires forall i, j :: 0 <= i <= j < |calls| ==> calls[i].now <= calls[j].now
    ensures Nondecreasing(TimesOf(calls, key))
    ensures forall t :: t in TimesOf(calls, key) ==> t <= calls[|calls| - 1].now
    decreases |calls|
  {
    if calls != [] {
      var n := |calls| - 1;
      TimesOfNondecreasing(calls[..n], key);
      var before := TimesOf(calls[..n], key);
      assert forall i :: 0 <= i < |before| ==> before[i] in before;
    }
  }
}
