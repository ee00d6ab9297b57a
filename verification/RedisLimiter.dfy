/** The distributed limiter: replicas sharing one Redis, each with its own fallback buckets. */
module RedisLimiter {
  import opened Collections
  import opened TokenBucket
  import opened MemoryLimiter
  import opened RedisScript

  /** What happened to the script call: it answered, its reply was lost after it ran, or it never ran. */
  datatype Outcome = Answered | ReplyLost | Unreachable

  const NANOS_PER_MILLI := 1_000_000

  /** Clocks are in nanoseconds; stamps and Redis's expiry count whole milliseconds. */
  function Millis(at: int): int {
    at / NANOS_PER_MILLI
  }

  function HashOf(data: map<string, Hash>, key: string): Option<Hash> {
    if key in data then Some(data[key]) else None
  }

  /** The script on one key, stamped by a replica and run by the server. */
  function ScriptOn(cfg: Config, data: map<string, Hash>, key: string, stamp: int, server: int): (Hash, bool) {
    Script(cfg.Scaled(MILLIS), HashOf(data, key), Tick(Millis(stamp), Millis(server)))
  }

  /** One call on the shared hashes and one replica's fallback: the new states and the decision. The replica reads
      its clock for the stamp, the server its own when the script runs, and the replica again for the fallback. */
  function AllowShared(cfg: Config, data: map<string, Hash>, buckets: map<string, Bucket>,
                       key: string, stamp: int, server: int, at: int, outcome: Outcome)
    : (map<string, Hash>, map<string, Bucket>, bool)
  {
    var (h, d) := ScriptOn(cfg, data, key, stamp, server);
    var (m, d') := AllowKey(cfg.Scaled(NANOS), buckets, Call(key, at));
    match outcome
    case Answered => (data[key := h], buckets, d)
    case ReplyLost => (data[key := h], m, d')
    case Unreachable => (data, m, d')
  }

  class RedisServer {
    var data: map<string, Hash>

    constructor ()
      ensures data == map[]
    {
      data := map[];
    }

    /** allowScript: atomic on one key. */
    method EvalAllow(key: string, rps: int, burst: int, now: int, server: int) returns (allowed: int)
      modifies this
      ensures var (h, d) := Script(Params(rps, burst * MILLIS, MILLIS), HashOf(old(data), key), Tick(now, server));
              data == old(data)[key := h] && allowed == (if d then 1 else 0)
    {
      var tokens, ts := burst * MILLIS, now;
      if key in data && server <= data[key].expireAt {
        tokens, ts := data[key].t, data[key].ts;
      }
      var elapsed := if 0 < now - ts then now - ts else 0;
      tokens := Min(burst * MILLIS, tokens + elapsed * rps);
      allowed := 0;
      if tokens >= MILLIS {
        tokens := tokens - MILLIS;
        allowed := 1;
      }
      data := data[key := Hash(tokens, now, server + TTL)];
    }
  }

  class RedisLimiter {
    const cfg: Config
    const client: RedisServer
    const fallback: MemoryLimiter

    constructor (cfg: Config, client: RedisServer)
      ensures this.cfg == cfg && this.client == client
      ensures fresh(fallback) && fallback.cfg == cfg && fallback.buckets == map[]
    {
      this.cfg := cfg;
      this.client := client;
      fallback := new MemoryLimiter(cfg);
    }

    method Allow(key: string, stamp: int, server: int, at: int, outcome: Outcome) returns (answer: Answer)
      requires fallback.cfg == cfg
      modifies client, fallback
      ensures key == "" ==>
        answer == MissingKey && client.data == old(client.data) && fallback.buckets == old(fallback.buckets)
      ensures key != "" ==>
        var st := AllowShared(cfg, old(client.data), old(fallback.buckets), key, stamp, server, at, outcome);
        && client.data == st.0 && fallback.buckets == st.1 && answer == Answer(st.2)
    {
      if key == "" {
        return MissingKey;
      }
      var c := cfg.Effective();
      var now := Millis(stamp);
      if !outcome.Unreachable? {
        var v := client.EvalAllow(key, c.rps, c.burst, now, Millis(server));
        if outcome.Answered? {
          return Answer(v == 1);
        }
      }
      answer := fallback.Allow(key, at);
    }
  }

  // ---------------------------------------------------------------- one replica

  /** One call of Allow. */
  datatype Request = Request(key: string, stamp: int, server: int, at: int, outcome: Outcome)

  /** The calls of one replica that has Redis to itself. */
  function AllowAll(cfg: Config, rs: seq<Request>): (r: (map<string, Hash>, map<string, Bucket>, seq<bool>))
    ensures |r.2| == |rs|
  {
    if rs == [] then (map[], map[], [])
    else
      var n := |rs| - 1;
      var (data, buckets, ds) := AllowAll(cfg, rs[..n]);
      var e := rs[n];
      var (data', buckets', d) := AllowShared(cfg, data, buckets, e.key, e.stamp, e.server, e.at, e.outcome);
      (data', buckets', ds + [d])
  }

  /** What the fallback is asked when Redis never answers. */
  function AsAsked(rs: seq<Request>): (calls: seq<Call>)
    ensures |calls| == |rs| && forall i :: 0 <= i < |rs| ==> calls[i] == Call(rs[i].key, rs[i].at)
  {
    seq(|rs|, i requires 0 <= i < |rs| => Call(rs[i].key, rs[i].at))
  }

  /** A replica that gets no reply decides as the limiter in memory, whether its scripts ran or not. */
  lemma {:induction false} UnansweredIsMemory(cfg: Config, rs: seq<Request>)
    requires forall i :: 0 <= i < |rs| ==> rs[i].outcome != Answered
    ensures var (_, buckets, ds) := AllowAll(cfg, rs);
            (buckets, ds) == ServeKeys(cfg.Scaled(NANOS), AsAsked(rs))
  {
    if rs != [] {
      var n := |rs| - 1;
      UnansweredIsMemory(cfg, rs[..n]);
      assert AsAsked(rs)[..n] == AsAsked(rs[..n]);
    }
  }

  /** The ticks of the scripts that ran. */
  function AsScripted(rs: seq<Request>): (calls: seq<Tick>)
    ensures |calls| == |rs| && forall i :: 0 <= i < |rs| ==> calls[i] == Tick(Millis(rs[i].stamp), Millis(rs[i].server))
  {
    seq(|rs|, i requires 0 <= i < |rs| => Tick(Millis(rs[i].stamp), Millis(rs[i].server)))
  }

  /** A replica that gets every reply decides as the script, key by key, and its fallback stays unused. */
  lemma {:induction false} AnsweredIsScript(cfg: Config, rs: seq<Request>, key: string)
    requires forall i :: 0 <= i < |rs| ==> rs[i].outcome == Answered && rs[i].key == key
    ensures var (data, buckets, ds) := AllowAll(cfg, rs);
            buckets == map[] && (HashOf(data, key), ds) == Eval(cfg.Scaled(MILLIS), AsScripted(rs))
  {
    if rs != [] {
      var n := |rs| - 1;
      AnsweredIsScript(cfg, rs[..n], key);
      assert AsScripted(rs)[..n] == AsScripted(rs[..n]);
    }
  }

  // ---------------------------------------------------------------- runs of N replicas

  /** What the calls of all replicas do, in the order in which it takes effect: a script run by the server, whose
      reply arrives or is lost, or a fallback asked. Calls overlap freely, so the events of one call need not be
      neighbours, and scripts need not run in the order of their stamps. */
  datatype Event =
    | Scripted(replica: nat, key: string, stamp: int, server: int, answered: bool)
    | Asked(replica: nat, key: string, at: int)

  datatype Cluster = Cluster(data: map<string, Hash>, fallbacks: map<nat, map<string, Bucket>>) {
    function Fallback(r: nat): map<string, Bucket> {
      if r in fallbacks then fallbacks[r] else map[]
    }
  }

  /** The new state, and whether the event admits a request. */
  function Serve1(cfg: Config, cl: Cluster, e: Event): (Cluster, bool) {
    match e
    case Scripted(_, key, stamp, server, answered) =>
      var (h, d) := ScriptOn(cfg, cl.data, key, stamp, server);
      (Cluster(cl.data[key := h], cl.fallbacks), answered && d)
    case Asked(r, key, at) =>
      var (m, d) := AllowKey(cfg.Scaled(NANOS), cl.Fallback(r), Call(key, at));
      (Cluster(cl.data, cl.fallbacks[r := m]), d)
  }

  function ServeAll(cfg: Config, events: seq<Event>): (r: (Cluster, seq<bool>))
    ensures |r.1| == |events|
  {
    if events == [] then (Cluster(map[], map[]), [])
    else
      var n := |events| - 1;
      var (cl, ds) := ServeAll(cfg, events[..n]);
      var (cl', d) := Serve1(cfg, cl, events[n]);
      (cl', ds + [d])
  }

  lemma ServeAllLast(cfg: Config, events: seq<Event>, e: Event)
    ensures var (cl, ds) := ServeAll(cfg, events); var (cl', d) := Serve1(cfg, cl, e);
            ServeAll(cfg, events + [e]) == (cl', ds + [d])
  {
    assert (events + [e])[..|events|] == events;
  }

  /** The events of one call when no other comes between them. */
  function EventsOf(r: nat, key: string, stamp: int, server: int, at: int, outcome: Outcome): seq<Event> {
    match outcome
    case Answered => [Scripted(r, key, stamp, server, true)]
    case ReplyLost => [Scripted(r, key, stamp, server, false), Asked(r, key, at)]
    case Unreachable => [Asked(r, key, at)]
  }

  /** The cluster after some events in a row, and what the last of them decides. */
  function ServeEach(cfg: Config, cl: Cluster, es: seq<Event>): (Cluster, bool) {
    if es == [] then (cl, false)
    else
      var n := |es| - 1;
      Serve1(cfg, ServeEach(cfg, cl, es[..n]).0, es[n])
  }

  lemma ServeOne(cfg: Config, cl: Cluster, e: Event)
    ensures ServeEach(cfg, cl, [e]) == Serve1(cfg, cl, e)
  {
    assert [e][..0] == [];
  }

  lemma ServeTwo(cfg: Config, cl: Cluster, e: Event, f: Event)
    ensures ServeEach(cfg, cl, [e, f]) == Serve1(cfg, Serve1(cfg, cl, e).0, f)
  {
    assert [e, f][..1] == [e];
    ServeOne(cfg, cl, e);
  }

  /** What Allow does is what its events do; the last of them carries the answer. */
  lemma AllowIsItsEvents(cfg: Config, cl: Cluster, r: nat, key: string, stamp: int, server: int, at: int,
                         outcome: Outcome)
    ensures var (data, buckets, d) := AllowShared(cfg, cl.data, cl.Fallback(r), key, stamp, server, at, outcome);
            var (cl', d') := ServeEach(cfg, cl, EventsOf(r, key, stamp, server, at, outcome));
            && cl'.data == data && cl'.Fallback(r) == buckets && d' == d
            && forall q: nat :: q != r ==> cl'.Fallback(q) == cl.Fallback(q)
  {
    match outcome
    case Answered => ServeOne(cfg, cl, Scripted(r, key, stamp, server, true));
    case ReplyLost => ServeTwo(cfg, cl, Scripted(r, key, stamp, server, false), Asked(r, key, at));
    case Unreachable => ServeOne(cfg, cl, Asked(r, key, at));
  }

  // ---------------------------------------------------------------- one key

  predicate OnRedis(e: Event, key: string) {
    e.Scripted? && e.key == key
  }

  predicate OnFallback(e: Event, key: string, r: nat) {
    e.Asked? && e.key == key && e.replica == r
  }

  /** The calls of the script on `key`. */
  function RedisCalls(events: seq<Event>, key: string): seq<Tick> {
    if events == [] then []
    else
      var n := |events| - 1;
      RedisCalls(events[..n], key)
      + (if OnRedis(events[n], key) then [Tick(Millis(events[n].stamp), Millis(events[n].server))] else [])
  }

  /** When the fallback of replica r was asked for `key`. */
  function FallbackTimes(events: seq<Event>, key: string, r: nat): seq<int> {
    if events == [] then []
    else
      var n := |events| - 1;
      FallbackTimes(events[..n], key, r) + (if OnFallback(events[n], key, r) then [events[n].at] else [])
  }

  function BucketOf(buckets: map<string, Bucket>, key: string): Option<Bucket> {
    if key in buckets then Some(buckets[key]) else None
  }

  /** What one event does to the state of one key, and what it leaves alone. */
  lemma OneEvent(cfg: Config, cl: Cluster, e: Event, key: string, r: nat)
    ensures var cl' := Serve1(cfg, cl, e).0;
            && HashOf(cl'.data, key)
                 == (if OnRedis(e, key) then
                       Some(Script(cfg.Scaled(MILLIS), HashOf(cl.data, key), Tick(Millis(e.stamp), Millis(e.server))).0)
                     else HashOf(cl.data, key))
            && BucketOf(cl'.Fallback(r), key)
                 == (if OnFallback(e, key, r) then Some(Allow(cfg.Scaled(NANOS), BucketOf(cl.Fallback(r), key), e.at).0)
                     else BucketOf(cl.Fallback(r), key))
  {}

  lemma {:induction false} RedisAlone(cfg: Config, events: seq<Event>, key: string)
    ensures HashOf(ServeAll(cfg, events).0.data, key) == Eval(cfg.Scaled(MILLIS), RedisCalls(events, key)).0
    decreases |events|
  {
    if events != [] {
      var n := |events| - 1;
      var before, e := RedisCalls(events[..n], key), events[n];
      RedisAlone(cfg, events[..n], key);
      OneEvent(cfg, ServeAll(cfg, events[..n]).0, e, key, 0);
      if OnRedis(e, key) {
        EvalLast(cfg.Scaled(MILLIS), before, Tick(Millis(e.stamp), Millis(e.server)));
      } else {
        assert RedisCalls(events, key) == before;
      }
    }
  }

  lemma {:induction false} FallbackAlone(cfg: Config, events: seq<Event>, key: string, r: nat)
    ensures BucketOf(ServeAll(cfg, events).0.Fallback(r), key)
         == Serve(cfg.Scaled(NANOS), FallbackTimes(events, key, r)).0
    decreases |events|
  {
    if events != [] {
      var n := |events| - 1;
      var before, e := FallbackTimes(events[..n], key, r), events[n];
      FallbackAlone(cfg, events[..n], key, r);
      OneEvent(cfg, ServeAll(cfg, events[..n]).0, e, key, r);
      if OnFallback(e, key, r) {
        ServeLast(cfg.Scaled(NANOS), before, e.at);
      } else {
        assert FallbackTimes(events, key, r) == before;
      }
    }
  }

  /** Each key of the shared store, and of each fallback, evolves as if it were alone. */
  lemma KeyAlone(cfg: Config, events: seq<Event>, key: string, r: nat)
    ensures var cl := ServeAll(cfg, events).0;
            && HashOf(cl.data, key) == Eval(cfg.Scaled(MILLIS), RedisCalls(events, key)).0
            && BucketOf(cl.Fallback(r), key) == Serve(cfg.Scaled(NANOS), FallbackTimes(events, key, r)).0
  {
    RedisAlone(cfg, events, key);
    FallbackAlone(cfg, events, key, r);
  }

  /** What event n decides, from the calls of its own key alone. */
  function DecisionAlone(cfg: Config, events: seq<Event>, n: nat): bool
    requires n < |events|
  {
    var e := events[n];
    if e.Scripted? then
      e.answered && Script(cfg.Scaled(MILLIS), Eval(cfg.Scaled(MILLIS), RedisCalls(events[..n], e.key)).0,
                           Tick(Millis(e.stamp), Millis(e.server))).1
    else
      Allow(cfg.Scaled(NANOS), Serve(cfg.Scaled(NANOS), FallbackTimes(events[..n], e.key, e.replica)).0, e.at).1
  }

  lemma {:induction false} DecisionIsAlone(cfg: Config, events: seq<Event>, n: nat)
    requires n < |events|
    ensures ServeAll(cfg, events).1[n] == DecisionAlone(cfg, events, n)
    decreases |events|
  {
    var m := |events| - 1;
    if n < m {
      DecisionIsAlone(cfg, events[..m], n);
      assert events[..m][..n] == events[..n];
    } else {
      KeyAlone(cfg, events[..n], events[n].key, events[n].replica);
    }
  }

  /** The run of one key. */
  function Only(events: seq<Event>, key: string): seq<Event> {
    if events == [] then []
    else
      var n := |events| - 1;
      Only(events[..n], key) + (if events[n].key == key then [events[n]] else [])
  }

  /** The decisions on that key's events. */
  function DecisionsOf(events: seq<Event>, ds: seq<bool>, key: string): seq<bool>
    requires |events| == |ds|
  {
    if events == [] then []
    else
      var n := |events| - 1;
      DecisionsOf(events[..n], ds[..n], key) + (if events[n].key == key then [ds[n]] else [])
  }

  lemma {:induction false} OnlySame(events: seq<Event>, key: string, r: nat)
    ensures RedisCalls(Only(events, key), key) == RedisCalls(events, key)
    ensures FallbackTimes(Only(events, key), key, r) == FallbackTimes(events, key, r)
    decreases |events|
  {
    if events != [] {
      var n := |events| - 1;
      OnlySame(events[..n], key, r);
      var before := Only(events[..n], key);
      if events[n].key == key {
        assert (before + [events[n]])[..|before|] == before;
      } else {
        assert Only(events, key) == before;
      }
    }
  }

  /** Each key's decisions are those of the run restricted to that key. */
  lemma {:induction false} KeyDecidesAlone(cfg: Config, events: seq<Event>, key: string)
    ensures DecisionsOf(events, ServeAll(cfg, events).1, key) == ServeAll(cfg, Only(events, key)).1
    decreases |events|
  {
    if events != [] {
      var n := |events| - 1;
      var e, before := events[n], Only(events[..n], key);
      KeyDecidesAlone(cfg, events[..n], key);
      assert ServeAll(cfg, events).1[..n] == ServeAll(cfg, events[..n]).1;
      if e.key == key {
        DecisionIsAlone(cfg, events, n);
        DecisionIsAlone(cfg, before + [e], |before|);
        assert (before + [e])[..|before|] == before;
        OnlySame(events[..n], key, e.replica);
        ServeAllLast(cfg, before, e);
      } else {
        assert Only(events, key) == before;
      }
    }
  }
}
