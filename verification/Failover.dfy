/** The retry loop of `Do` as a function of what each attempt meets. */
module Failover {
  import opened Collections
  import opened Selection

  /** What an upstream call came back with. */
  datatype Reply = Broken(err: string) | Status(code: nat)

  datatype CallError = Transport(err: string) | Upstream5xx(code: nat) | NoHealthyBackends

  /** Only transport errors and 5xx count as failures. */
  function Failure(reply: Reply): Option<CallError> {
    match reply
    case Broken(err) => Some(Transport(err))
    case Status(code) => if code / 100 == 5 then Some(Upstream5xx(code)) else None
  }

  /** What makes Do try another backend: no answer, or a status from 500 to 599. */
  predicate Faulty(reply: Reply) {
    reply.Broken? || 500 <= reply.code <= 599
  }

  lemma FailureIff(reply: Reply)
    ensures Failure(reply).Some? <==> Faulty(reply)
    ensures reply.Broken? ==> Failure(reply) == Some(Transport(reply.err))
    ensures reply.Status? && Faulty(reply) ==> Failure(reply) == Some(Upstream5xx(reply.code))
  {}

  /** One attempt: the pool as pick finds it, its random draws, and the reply if a call is made. Other
      requests and health probes may have changed the pool between attempts. */
  datatype Turn = Turn(pool: seq<View>, luck: Luck, reply: Reply)

  datatype Result = Served(backend: nat, code: nat) | Error(err: CallError)

  /** The backends called, in order, and what Do returns. */
  datatype Outcome = Outcome(calls: seq<nat>, result: Result)

  function Attempts(configured: int): (n: nat)
    ensures n == if configured >= 1 then configured else 1
  {
    if configured < 1 then 1 else configured
  }

  /** A way to choose among the names not tried yet. */
  type Picker = (Turn, set<string>) -> Option<nat>

  function PickWith(roundRobin: bool): Picker {
    (t: Turn, tried: set<string>) => Pick(t.pool, tried, roundRobin, t.luck)
  }

  /** What the loop needs of pick: it finds an untried backend when there is one, healthy ones first. */
  ghost predicate SoundChoice(t: Turn, tried: set<string>, choice: Option<nat>) {
    match choice
    case None => forall i :: 0 <= i < |t.pool| ==> t.pool[i].name in tried
    case Some(k) =>
      && k < |t.pool| && t.pool[k].name !in tried
      && (!t.pool[k].healthy ==> forall i :: 0 <= i < |t.pool| && t.pool[i].healthy ==> t.pool[i].name in tried)
  }

  ghost predicate Sound(pick: Picker) {
    forall t, tried :: SoundChoice(t, tried, pick(t, tried))
  }

  lemma PickIsSound(roundRobin: bool)
    ensures Sound(PickWith(roundRobin))
  {
    forall t: Turn, tried
      ensures SoundChoice(t, tried, PickWith(roundRobin)(t, tried))
    {
      assert PickWith(roundRobin)(t, tried) == Pick(t.pool, tried, roundRobin, t.luck);
    }
  }

  function GiveUp(lastErr: Option<CallError>): Outcome {
    Outcome([], Error(if lastErr.Some? then lastErr.value else NoHealthyBackends))
  }

  /** Turns left, names tried and last error are the loop's variables. */
  function DoFrom(pick: Picker, turns: seq<Turn>, tried: set<string>, lastErr: Option<CallError>): Outcome
    decreases |turns|
  {
    if turns == [] then GiveUp(lastErr)
    else
      var t := turns[0];
      match pick(t, tried)
      case None => GiveUp(lastErr)
      case Some(k) =>
        if Failure(t.reply).None? then Outcome([k], Served(k, t.reply.code))
        else
          var tried' := if k < |t.pool| then tried + {t.pool[k].name} else tried;
          var rest := DoFrom(pick, turns[1..], tried', Failure(t.reply));
          Outcome([k] + rest.calls, rest.result)
  }

  /** The same backends throughout, whatever happens to their health and load. */
  ghost predicate SameFleet(turns: seq<Turn>, names: seq<string>) {
    forall i :: 0 <= i < |turns| ==>
      |turns[i].pool| == |names| && forall k :: 0 <= k < |names| ==> turns[i].pool[k].name == names[k]
  }

  ghost predicate HealthFixed(turns: seq<Turn>, healthy: seq<bool>) {
    forall i :: 0 <= i < |turns| ==>
      |turns[i].pool| == |healthy| && forall k :: 0 <= k < |healthy| ==> turns[i].pool[k].healthy == healthy[k]
  }

  /** At most one call per turn, to backends of the fleet, no name twice and none already tried. */
  ghost predicate FreshCalls(calls: seq<nat>, names: seq<string>, tried: set<string>) {
    && (forall i :: 0 <= i < |calls| ==> calls[i] < |names| && names[calls[i]] !in tried)
    && (forall i, j :: 0 <= i < j < |calls| ==> names[calls[i]] != names[calls[j]])
  }

  lemma FreshFirst(k: nat, calls: seq<nat>, names: seq<string>, tried: set<string>)
    requires k < |names| && names[k] !in tried && FreshCalls(calls, names, tried + {names[k]})
    ensures FreshCalls([k] + calls, names, tried)
  {
    var all := [k] + calls;
    assert forall i :: 1 <= i < |all| ==> all[i] == calls[i - 1];
  }

  /** Do never calls one name twice and makes at most as many calls as it has attempts, whatever probes and
      other requests do meanwhile. */
  lemma {:induction false} NeverTwice(pick: Picker, turns: seq<Turn>, names: seq<string>, tried: set<string>,
                                      lastErr: Option<CallError>)
    requires Sound(pick) && SameFleet(turns, names)
    ensures var o := DoFrom(pick, turns, tried, lastErr);
            |o.calls| <= |turns| && FreshCalls(o.calls, names, tried)
    decreases |turns|
  {
    if turns != [] {
      var t := turns[0];
      var choice := pick(t, tried);
      assert SoundChoice(t, tried, choice);
      if choice.Some? {
        var k := choice.value;
        assert t.pool[k].name == names[k];
        if Failure(t.reply).Some? {
          NeverTwice(pick, turns[1..], names, tried + {names[k]}, Failure(t.reply));
          FreshFirst(k, DoFrom(pick, turns[1..], tried + {names[k]}, Failure(t.reply)).calls, names, tried);
        }
      }
    }
  }

  lemma {:induction false} FirstSuccess(pick: Picker, turns: seq<Turn>, tried: set<string>,
                                          lastErr: Option<CallError>)
    requires Sound(pick)
    ensures var o := DoFrom(pick, turns, tried, lastErr);
            && |o.calls| <= |turns|
            && (o.result.Served? ==>
                  && o.calls != [] && o.result.backend == o.calls[|o.calls| - 1]
                  && turns[|o.calls| - 1].reply == Status(o.result.code)
                  && !Faulty(turns[|o.calls| - 1].reply))
            && (forall i :: 0 <= i < |o.calls| - (if o.result.Served? then 1 else 0) ==> Faulty(turns[i].reply))
    decreases |turns|
  {
    if turns != [] {
      var t := turns[0];
      var choice := pick(t, tried);
      assert SoundChoice(t, tried, choice);
      FailureIff(t.reply);
      if choice.Some? && Failure(t.reply).Some? {
        var tried' := tried + {t.pool[choice.value].name};
        FirstSuccess(pick, turns[1..], tried', Failure(t.reply));
        assert DoFrom(pick, turns, tried, lastErr).calls
            == [choice.value] + DoFrom(pick, turns[1..], tried', Failure(t.reply)).calls;
      }
    }
  }

  lemma {:induction false} LastError(pick: Picker, turns: seq<Turn>, tried: set<string>, lastErr: Option<CallError>)
    requires Sound(pick)
    ensures var o := DoFrom(pick, turns, tried, lastErr);
            && |o.calls| <= |turns|
            && (o.result.Error? && lastErr.Some? ==>
                  Some(o.result.err) == if o.calls == [] then lastErr else Failure(turns[|o.calls| - 1].reply))
    decreases |turns|
  {
    if turns != [] {
      var t := turns[0];
      var choice := pick(t, tried);
      assert SoundChoice(t, tried, choice);
      if choice.Some? && Failure(t.reply).Some? {
        LastError(pick, turns[1..], tried + {t.pool[choice.value].name}, Failure(t.reply));
      }
    }
  }

  /** The calls meet these replies in turn: each is faulty but a successful last one, whose backend and status are what
      Do returns. */
  ghost predicate StoppedRight(replies: seq<Reply>, o: Outcome) {
    && |o.calls| <= |replies|
    && (forall i :: 0 <= i < |o.calls| ==>
          Faulty(replies[i]) || (i == |o.calls| - 1 && o.result == Served(o.calls[i], replies[i].code)))
    && (o.result.Served? ==> o.calls != [] && !Faulty(replies[|o.calls| - 1]))
    && (o.result.Error? && o.calls != [] ==>
          match replies[|o.calls| - 1]
          case Broken(err) => o.result.err == Transport(err)
          case Status(code) => o.result.err == Upstream5xx(code))
  }

  function Replies(turns: seq<Turn>): (replies: seq<Reply>)
    ensures |replies| == |turns| && forall i :: 0 <= i < |turns| ==> replies[i] == turns[i].reply
  {
    seq(|turns|, i requires 0 <= i < |turns| => turns[i].reply)
  }

  /** Do stops at the first reply that is neither a broken call nor a 5xx, and returns that reply; without one it tries
      on, and its error is that of its last call. */
  lemma StopsAtSuccess(pick: Picker, turns: seq<Turn>)
    requires Sound(pick)
    ensures StoppedRight(Replies(turns), DoFrom(pick, turns, {}, None))
  {
    var o := DoFrom(pick, turns, {}, None);
    FirstSuccess(pick, turns, {}, None);
    if o.result.Error? && o.calls != [] {
      var t := turns[0];
      var k := pick(t, {}).value;
      assert SoundChoice(t, {}, pick(t, {}));
      var tried := {} + {t.pool[k].name};
      LastError(pick, turns[1..], tried, Failure(t.reply));
      var rest := DoFrom(pick, turns[1..], tried, Failure(t.reply));
      assert o == Outcome([k] + rest.calls, rest.result);
      FailureIff(turns[|o.calls| - 1].reply);
    }
  }

  /** With health fixed during the call, an unhealthy backend is called only after every healthy name has been
      tried: healthy backends come first. */
  lemma {:induction false} HealthyFirst(pick: Picker, turns: seq<Turn>, names: seq<string>, healthy: seq<bool>,
                                        tried: set<string>, lastErr: Option<CallError>, j: nat, h: nat)
    requires Sound(pick) && SameFleet(turns, names) && HealthFixed(turns, healthy) && |healthy| == |names|
    requires j < |DoFrom(pick, turns, tried, lastErr).calls|
    requires h < |names| && healthy[h] && names[h] !in tried
    requires DoFrom(pick, turns, tried, lastErr).calls[j] < |names|
    requires !healthy[DoFrom(pick, turns, tried, lastErr).calls[j]]
    ensures exists i :: 0 <= i < j && DoFrom(pick, turns, tried, lastErr).calls[i] < |names|
                        && names[DoFrom(pick, turns, tried, lastErr).calls[i]] == names[h]
    decreases |turns|
  {
    var t := turns[0];
    assert SoundChoice(t, tried, pick(t, tried));
    var k := pick(t, tried).value;
    var o := DoFrom(pick, turns, tried, lastErr);
    assert o.calls[0] == k;
    assert t.pool[h].healthy && t.pool[h].name == names[h];
    assert t.pool[k].healthy == healthy[k];
    if j == 0 {
      assert false;
    } else if names[k] == names[h] {
      assert names[o.calls[0]] == names[h];
    } else {
      var tried' := tried + {names[k]};
      var rest := DoFrom(pick, turns[1..], tried', Failure(t.reply));
      assert o.calls == [k] + rest.calls;
      HealthyFirst(pick, turns[1..], names, healthy, tried', Failure(t.reply), j - 1, h);
      var i :| 0 <= i < j - 1 && rest.calls[i] < |names| && names[rest.calls[i]] == names[h];
      assert o.calls[i + 1] == rest.calls[i];
    }
  }

  /** When Do gives up before its attempts run out, every name has been tried. */
  lemma {:induction false} GivesUpExhausted(pick: Picker, turns: seq<Turn>, names: seq<string>, tried: set<string>,
                                            lastErr: Option<CallError>, k: nat)
    requires Sound(pick) && SameFleet(turns, names) && k < |names| && names[k] !in tried
    requires var o := DoFrom(pick, turns, tried, lastErr); o.result.Error? && |o.calls| < |turns|
    ensures var o := DoFrom(pick, turns, tried, lastErr);
            exists i :: 0 <= i < |o.calls| && o.calls[i] < |names| && names[o.calls[i]] == names[k]
    decreases |turns|
  {
    var t := turns[0];
    var o := DoFrom(pick, turns, tried, lastErr);
    var choice := pick(t, tried);
    assert SoundChoice(t, tried, choice);
    assert t.pool[k].name == names[k];
    var m := choice.value;
    assert o.calls[0] == m && t.pool[m].name == names[m];
    if names[m] != names[k] {
      var rest := DoFrom(pick, turns[1..], tried + {names[m]}, Failure(t.reply));
      assert o.calls == [m] + rest.calls;
      GivesUpExhausted(pick, turns[1..], names, tried + {names[m]}, Failure(t.reply), k);
      var i :| 0 <= i < |rest.calls| && rest.calls[i] < |names| && names[rest.calls[i]] == names[k];
      assert o.calls[i + 1] == rest.calls[i];
    }
  }

  ghost function Indices(n: nat): set<nat> {
    set k: nat | k < n && Between(0, k, n)
  }

  lemma {:induction false} IndexCount(n: nat)
    ensures |Indices(n)| == n
  {
    if n > 0 {
      IndexCount(n - 1);
      assert Indices(n) == Indices(n - 1) + {n - 1};
    } else {
      assert Indices(0) == {};
    }
  }

  lemma SubsetFull(a: set<nat>, b: set<nat>)
    requires a <= b && |a| >= |b|
    ensures a == b
  {
    assert b == a + (b - a);
  }

  /** Failover is complete: with distinct names and an attempt for each, an error means every backend was
      called, and every call failed. */
  lemma FailoverComplete(pick: Picker, turns: seq<Turn>, names: seq<string>)
    requires Sound(pick) && SameFleet(turns, names) && Distinct(names) && |turns| >= |names|
    requires DoFrom(pick, turns, {}, None).result.Error?
    ensures var calls := DoFrom(pick, turns, {}, None).calls;
            && |calls| <= |turns| && Distinct(calls) && ToSet(calls) == Indices(|names|)
            && forall i :: 0 <= i < |calls| ==> Faulty(turns[i].reply)
  {
    var o := DoFrom(pick, turns, {}, None);
    NeverTwice(pick, turns, names, {}, None);
    FirstSuccess(pick, turns, {}, None);
    if |o.calls| < |turns| {
      forall k: nat | k < |names|
        ensures k in o.calls
      {
        GivesUpExhausted(pick, turns, names, {}, None, k);
      }
    } else {
      DistinctCardinality(o.calls);
      IndexCount(|names|);
      SubsetFull(ToSet(o.calls), Indices(|names|));
    }
  }

  /** Every run with an attempt per backend that ends in an error has called every backend. */
  ghost predicate AlwaysComplete(pick: Picker, names: seq<string>) {
    forall turns :: SameFleet(turns, names) && |turns| >= |names| && DoFrom(pick, turns, {}, None).result.Error? ==>
      ToSet(DoFrom(pick, turns, {}, None).calls) == Indices(|names|)
  }

  lemma {:induction false} AllBroken(pick: Picker, turns: seq<Turn>, tried: set<string>, lastErr: Option<CallError>)
    requires forall i :: 0 <= i < |turns| ==> turns[i].reply.Broken?
    ensures DoFrom(pick, turns, tried, lastErr).result.Error?
    decreases |turns|
  {
    if turns != [] {
      var t := turns[0];
      var choice := pick(t, tried);
      if choice.Some? {
        var tried' := if choice.value < |t.pool| then tried + {t.pool[choice.value].name} else tried;
        AllBroken(pick, turns[1..], tried', Failure(t.reply));
      }
    }
  }

  /** Every backend healthy, every call refused. */
  ghost function Blackout(names: seq<string>): (turns: seq<Turn>)
    ensures SameFleet(turns, names) && |turns| == |names|
    ensures forall i :: 0 <= i < |turns| ==> turns[i].reply.Broken?
  {
    var pool := seq(|names|, i requires 0 <= i < |names| => View(names[i], 1, true, 0));
    seq(|names|, _ => Turn(pool, Luck(0, 0, 0), Broken("refused")))
  }

  lemma NamesakeMissed(calls: seq<nat>, names: seq<string>, i: nat, j: nat)
    requires FreshCalls(calls, names, {}) && i < j < |names| && names[i] == names[j]
    ensures i !in calls || j !in calls
  {}

  /** Exclusion is by name, so failover reaches every backend exactly when no two share a name; New does not
      check that they do not. */
  lemma CompleteIffNamesDistinct(pick: Picker, names: seq<string>)
    requires Sound(pick)
    ensures AlwaysComplete(pick, names) <==> Distinct(names)
  {
    if Distinct(names) {
      forall turns | SameFleet(turns, names) && |turns| >= |names| && DoFrom(pick, turns, {}, None).result.Error?
        ensures ToSet(DoFrom(pick, turns, {}, None).calls) == Indices(|names|)
      {
        FailoverComplete(pick, turns, names);
      }
    } else {
      var turns := Blackout(names);
      AllBroken(pick, turns, {}, None);
      NeverTwice(pick, turns, names, {}, None);
      var calls := DoFrom(pick, turns, {}, None).calls;
      var i, j :| 0 <= i < j < |names| && names[i] == names[j];
      NamesakeMissed(calls, names, i, j);
      assert i in Indices(|names|) && j in Indices(|names|);
      assert ToSet(calls) != Indices(|names|);
    }
  }

  /** The "no healthy backends" error is unreachable for a router that has a backend. */
  lemma {:induction false} NoBackendUnreachable(pick: Picker, turns: seq<Turn>, names: seq<string>)
    requires Sound(pick) && SameFleet(turns, names) && names != [] && turns != []
    ensures var o := DoFrom(pick, turns, {}, None);
            && 1 <= |o.calls| <= |turns|
            && (o.result.Error? ==> Failure(turns[|o.calls| - 1].reply) == Some(o.result.err))
  {
    var t := turns[0];
    assert t.pool[0].name == names[0];
    assert SoundChoice(t, {}, pick(t, {}));
    var k := pick(t, {}).value;
    if Failure(t.reply).Some? {
      var tried := {} + {t.pool[k].name};
      LastError(pick, turns[1..], tried, Failure(t.reply));
      var rest := DoFrom(pick, turns[1..], tried, Failure(t.reply));
      assert DoFrom(pick, turns, {}, None) == Outcome([k] + rest.calls, rest.result);
    }
  }
}
