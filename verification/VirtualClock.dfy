/** The script under any clocks at all: it is the every-window limiter on a virtual clock. */
module VirtualClock {
  import opened Collections
  import opened TokenBucket
  import opened RedisScript

  /** The milliseconds of refill that fill an empty bucket, counted up from k, which gives `level`. */
  function FillFrom(p: Params, k: nat, level: int): nat
    requires p.Valid()
    decreases p.cap - level
  {
    if level >= p.cap then k else FillFrom(p, k + 1, level + p.rate)
  }

  function Fill(p: Params): nat
    requires p.Valid()
  {
    FillFrom(p, 0, 0)
  }

  lemma {:induction false} FillFromFills(p: Params, k: nat, level: int)
    requires p.Valid() && level == p.rate * k && level < p.cap + p.rate
    ensures p.cap <= p.rate * FillFrom(p, k, level) < p.cap + p.rate
    decreases p.cap - level
  {
    if level < p.cap {
      assert p.rate * (k + 1) == p.rate * k + p.rate;
      FillFromFills(p, k + 1, level + p.rate);
    }
  }

  lemma FillFills(p: Params)
    requires p.Valid()
    ensures p.cap <= p.rate * Fill(p) < p.cap + p.rate
  {
    assert p.rate * 0 == 0;
    FillFromFills(p, 0, 0);
  }

  /** How far a call moves the virtual clock: as far as the stamp moved forward, but when the key has expired at
      least as far as fills the bucket. */
  function Move(p: Params, before: Tick, call: Tick): (m: int)
    requires p.Valid()
    ensures m >= 0
  {
    var forward := if call.now > before.now then call.now - before.now else 0;
    if call.server > before.server + TTL && forward < Fill(p) then Fill(p) else forward
  }

  function Moved(p: Params, v: int, before: Tick, call: Tick): int
    requires p.Valid()
  {
    v + Move(p, before, call)
  }

  function Virtual(p: Params, calls: seq<Tick>): (vs: seq<int>)
    requires p.Valid()
    ensures |vs| == |calls|
  {
    if calls == [] then []
    else
      var n := |calls| - 1;
      var vs := Virtual(p, calls[..n]);
      vs + [if n == 0 then 0 else Moved(p, vs[n - 1], calls[n - 1], calls[n])]
  }

  lemma {:induction false} VirtualNondecreasing(p: Params, calls: seq<Tick>)
    requires p.Valid()
    ensures Nondecreasing(Virtual(p, calls))
    decreases |calls|
  {
    if calls != [] {
      VirtualNondecreasing(p, calls[..|calls| - 1]);
    }
  }

  lemma VirtualLast(p: Params, calls: seq<Tick>, call: Tick)
    requires p.Valid() && calls != []
    ensures Virtual(p, calls + [call])
         == Virtual(p, calls) + [Moved(p, Virtual(p, calls)[|calls| - 1], calls[|calls| - 1], call)]
  {
    var n, all := |calls|, calls + [call];
    assert all[..n] == calls;
    assert Virtual(p, all) == Virtual(p, all[..n]) + [Moved(p, Virtual(p, all[..n])[n - 1], all[n - 1], all[n])];
  }

  /** The hash a bucket on the virtual clock amounts to after this call. */
  function HashAfter(b: Bucket, call: Tick): Hash {
    Hash(b.tokens, call.now, call.server + TTL)
  }

  lemma ScriptStep(p: Params, b: Bucket, before: Tick, call: Tick)
    requires p.Valid() && 0 <= b.tokens <= p.cap
    ensures var (b', d) := Allow(p, Some(b), Moved(p, b.last, before, call));
            Script(p, Some(HashAfter(b, before)), call) == (HashAfter(b', call), d)
  {
    var m := Move(p, before, call);
    assert b.last + m - b.last == m;
    if call.server > before.server + TTL {
      FillFills(p);
      GainMonotone(p.rate, Fill(p), m);
      assert p.rate * 0 == 0;
    }
  }

  lemma FirstScript(p: Params, call: Tick)
    requires p.Valid()
    ensures var (b, d) := Take(p, p.cap, 0); Script(p, None, call) == (HashAfter(b, call), d)
  {
    assert call.now - call.now == 0 && p.rate * 0 == 0;
  }

  /** The script on these calls agrees with the bucket on their virtual clock. */
  ghost predicate Agrees(p: Params, calls: seq<Tick>)
    requires p.Valid()
  {
    var vs := Virtual(p, calls);
    && Eval(p, calls).1 == Serve(p, vs).1
    && (calls != [] ==> Eval(p, calls).0 == Some(HashAfter(Serve(p, vs).0.value, calls[|calls| - 1])))
  }

  lemma AgreesOnOne(p: Params, call: Tick)
    requires p.Valid()
    ensures Agrees(p, [call])
  {
    assert [] + [call] == [call] && [call][..0] == [];
    EvalLast(p, [], call);
    assert Virtual(p, [call]) == [] + [0];
    ServeLast(p, [], 0);
    FirstScript(p, call);
  }

  lemma AgreesOnOneMore(p: Params, calls: seq<Tick>, call: Tick)
    requires p.Valid() && calls != [] && Agrees(p, calls)
    ensures Agrees(p, calls + [call])
  {
    var vs := Virtual(p, calls);
    var b := Serve(p, vs).0.value;
    VirtualNondecreasing(p, calls);
    TokensInRange(p, vs);
    EvalLast(p, calls, call);
    VirtualLast(p, calls, call);
    ServeLast(p, vs, Moved(p, vs[|vs| - 1], calls[|calls| - 1], call));
    ScriptStep(p, b, calls[|calls| - 1], call);
  }

  lemma {:induction false} AlwaysAgrees(p: Params, calls: seq<Tick>)
    requires p.Valid()
    ensures Agrees(p, calls)
    decreases |calls|
  {
    if |calls| == 1 {
      assert calls == [calls[0]];
      AgreesOnOne(p, calls[0]);
    } else if calls != [] {
      var n := |calls| - 1;
      AlwaysAgrees(p, calls[..n]);
      AgreesOnOneMore(p, calls[..n], calls[n]);
      assert calls[..n] + [calls[n]] == calls;
    }
  }

  /** Whatever the clocks of replicas and server do, and whenever keys expire, the script is the every-window
      limiter on the virtual clock. */
  lemma ScriptIsEveryWindow(p: Params, calls: seq<Tick>)
    requires p.Valid()
    ensures Eval(p, calls).1 == WindowDecisions(p, Virtual(p, calls))
  {
    AlwaysAgrees(p, calls);
    VirtualNondecreasing(p, calls);
    LazyIsEveryWindow(p, Virtual(p, calls));
  }

  /** How far the virtual clock moves over calls i..j-1. */
  function Span(p: Params, calls: seq<Tick>, i: nat, j: nat): int
    requires p.Valid() && i <= j <= |calls|
  {
    if i == j then 0 else Virtual(p, calls)[j - 1] - Virtual(p, calls)[i]
  }

  /** Any stretch of calls is granted at most burst plus the refill of that span. */
  lemma SpanBound(p: Params, calls: seq<Tick>, i: nat, j: nat)
    requires p.Valid() && i <= j <= |calls|
    ensures Spent(p, Eval(p, calls).1, i, j) <= p.cap + p.rate * Span(p, calls, i, j)
  {
    if i < j {
      var vs := Virtual(p, calls);
      AlwaysAgrees(p, calls);
      VirtualNondecreasing(p, calls);
      WindowBound(p, vs, i, j - 1);
      assert Span(p, calls, i, j) == vs[j - 1] - vs[i];
      assert Eval(p, calls).1 == Serve(p, vs).1;
    } else {
      assert p.rate * 0 == 0;
    }
  }

  // ---------------------------------------------------------------- without expiry

  /** No call found its key expired. */
  ghost predicate Kept(calls: seq<Tick>) {
    forall i :: 0 < i < |calls| ==> calls[i].server <= calls[i - 1].server + TTL
  }

  /** The sum of the forward moves of ARGV[3] so far. */
  function Forward(calls: seq<Tick>): (vs: seq<int>)
    ensures |vs| == |calls|
  {
    if calls == [] then []
    else
      var n := |calls| - 1;
      var vs := Forward(calls[..n]);
      vs + [if n == 0 then 0 else
            vs[n - 1] + (if calls[n].now > calls[n - 1].now then calls[n].now - calls[n - 1].now else 0)]
  }

  lemma {:induction false} VirtualIsForward(p: Params, calls: seq<Tick>)
    requires p.Valid() && Kept(calls)
    ensures Virtual(p, calls) == Forward(calls)
    decreases |calls|
  {
    if calls != [] {
      VirtualIsForward(p, calls[..|calls| - 1]);
    }
  }

  /** Without expiry the virtual clock adds up the forward moves: a clock that steps back and forth mints tokens for
      each step forth. */
  lemma SkewedClocks(p: Params, calls: seq<Tick>)
    requires p.Valid() && Kept(calls)
    ensures Eval(p, calls).1 == WindowDecisions(p, Forward(calls))
  {
    VirtualIsForward(p, calls);
    ScriptIsEveryWindow(p, calls);
  }

  lemma {:induction false} FirstIsZero(calls: seq<Tick>)
    requires calls != []
    ensures Forward(calls)[0] == 0
    decreases |calls|
  {
    if |calls| > 1 {
      FirstIsZero(calls[..|calls| - 1]);
    }
  }

  lemma WholeSpan(p: Params, calls: seq<Tick>)
    requires p.Valid() && Kept(calls) && calls != []
    ensures Span(p, calls, 0, |calls|) == Forward(calls)[|calls| - 1]
  {
    VirtualIsForward(p, calls);
    FirstIsZero(calls);
  }

  /** Hence the grants of any such run are at most burst plus the refill of all forward moves. */
  lemma SkewedTotal(p: Params, calls: seq<Tick>)
    requires p.Valid() && Kept(calls) && calls != []
    ensures Total(p, Eval(p, calls).1) <= p.cap + p.rate * Forward(calls)[|calls| - 1]
  {
    WholeSpan(p, calls);
    SpanBound(p, calls, 0, |calls|);
  }

  // ---------------------------------------------------------------- stamps in order

  /** Scripts run in the order of their stamps, each at most `delay` after its own, on one clock. */
  ghost predicate Delayed(calls: seq<Tick>, delay: nat) {
    && (forall i :: 0 <= i < |calls| ==> calls[i].server - delay <= calls[i].now <= calls[i].server)
    && (forall i, j :: 0 <= i <= j < |calls| ==> calls[i].now <= calls[j].now)
  }

  lemma FillWithin(p: Params, m: int)
    requires p.Valid() && p.cap <= p.rate * m
    ensures Fill(p) <= m
  {
    FillFills(p);
    if Fill(p) > m {
      assert p.rate * (m + 1) == p.rate * m + p.rate;
      GainMonotone(p.rate, m + 1, Fill(p));
    }
  }

  /** An expiry then takes long enough on the stamps as well. */
  lemma MoveIsForward(p: Params, before: Tick, call: Tick, delay: nat)
    requires p.Valid() && p.cap <= p.rate * (GONE - delay)
    requires before.now <= call.now && before.now <= before.server && call.server - delay <= call.now
    ensures Move(p, before, call) == call.now - before.now
  {
    FillWithin(p, GONE - delay);
  }

  lemma {:induction false} DelayedVirtual(p: Params, calls: seq<Tick>, delay: nat, n: nat)
    requires p.Valid() && Delayed(calls, delay) && p.cap <= p.rate * (GONE - delay) && n < |calls|
    ensures Virtual(p, calls)[n] == calls[n].now - calls[0].now
    decreases |calls|, n
  {
    var m := |calls| - 1;
    if n < m {
      DelayedVirtual(p, calls[..m], delay, n);
    } else if m > 0 {
      DelayedVirtual(p, calls[..m], delay, m - 1);
      MoveIsForward(p, calls[m - 1], calls[m], delay);
    }
  }

  /** The virtual clock is that of the stamps when the refill of an hour, less the delay, covers the burst. */
  lemma DelayedSpan(p: Params, calls: seq<Tick>, delay: nat, i: nat, j: nat)
    requires p.Valid() && Delayed(calls, delay) && p.cap <= p.rate * (GONE - delay) && i < j <= |calls|
    ensures Span(p, calls, i, j) == calls[j - 1].now - calls[i].now
  {
    DelayedVirtual(p, calls, delay, i);
    DelayedVirtual(p, calls, delay, j - 1);
  }
}
