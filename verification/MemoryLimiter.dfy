/** The per-process limiter: one lazily created bucket per key. */
module MemoryLimiter {
  import opened TokenBucket

  /** Nanoseconds per second, the resolution of the monotonic clock. */
  const NANOS := 1_000_000_000

  datatype Answer = Answer(allowed: bool) | MissingKey

  class MemoryLimiter {
    const cfg: Config
    var buckets: map<string, Bucket>

    constructor (cfg: Config)
      ensures this.cfg == cfg && buckets == map[]
    {
      this.cfg := cfg;
      buckets := map[];
    }

    method Allow(key: string, now: int) returns (answer: Answer)
      modifies this
      ensures key == "" ==> answer == MissingKey && buckets == old(buckets)
      ensures key != "" ==>
        answer.Answer? && (buckets, answer.allowed) == AllowKey(cfg.Scaled(NANOS), old(buckets), Call(key, now))
    {
      if key == "" {
        return MissingKey;
      }
      var c := cfg.Effective();
      var full := c.burst * NANOS;
      if key !in buckets {
        buckets := buckets[key := Bucket(full, now)];
      }
      var b := buckets[key];
      var elapsed := now - b.last;
      var tokens := b.tokens + c.rps * elapsed;
      if tokens > full {
        tokens := full;
      }
      if tokens >= NANOS {
        buckets := buckets[key := Bucket(tokens - NANOS, now)];
        assert buckets == old(buckets)[key := Bucket(tokens - NANOS, now)];
        return Answer(true);
      }
      buckets := buckets[key := Bucket(tokens, now)];
      assert buckets == old(buckets)[key := Bucket(tokens, now)];
      return Answer(false);
    }
  }

  /** What a key can get out of one process in any window of time, whatever the other keys do. */
  lemma KeyWindowBound(cfg: Config, calls: seq<Call>, key: string, lo: int, hi: int)
    requires forall i, j :: 0 <= i <= j < |calls| ==> calls[i].now <= calls[j].now
    requires lo <= hi
    ensures var p := cfg.Scaled(NANOS); var ds := ServeKeys(p, calls).1; var ts := TimesOf(calls, key);
            && DecisionsOf(calls, ds, key) == WindowDecisions(p, ts)
            && SpentIn(p, ts, WindowDecisions(p, ts), lo, hi) <= p.cap + p.rate * (hi - lo)
  {
    var p := cfg.Scaled(NANOS);
    TimesOfNondecreasing(calls, key);
    KeysAreIndependent(p, calls, key);
    LazyIsEveryWindow(p, TimesOf(calls, key));
    TimeWindowBound(p, TimesOf(calls, key), lo, hi);
  }
}
