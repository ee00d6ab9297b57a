/** The retry loop of `Do` as it runs: its variables, the pool others change under it, and how the two agree with the
    recursive definition. */
module RetryLoop {
  import opened Collections
  import opened Selection
  import opened Failover

  // ---------------------------------------------------------------- the loop over its turns

  /** The loop of Do between two iterations: still going, with its variables, or returned. */
  datatype Progress =
    | Going(calls: seq<nat>, tried: set<string>, lastErr: Option<CallError>)
    | Returned(outcome: Outcome)

  function Iterate(rr: bool, v: Progress, t: Turn): Progress {
    match v
    case Returned(_) => v
    case Going(calls, tried, lastErr) =>
      match Pick(t.pool, tried, rr, t.luck)
      case None => Returned(Outcome(calls, GiveUp(lastErr).result))
      case Some(k) =>
        if Failure(t.reply).None? then Returned(Outcome(calls + [k], Served(k, t.reply.code)))
        else Going(calls + [k], tried + {t.pool[k].name}, Failure(t.reply))
  }

  /** The loop run over the turns met so far. */
  function Follow(rr: bool, met: seq<Turn>): Progress {
    if met == [] then Going([], {}, None) else Iterate(rr, Follow(rr, met[..|met| - 1]), met[|met| - 1])
  }

  function LoopResult(rr: bool, turns: seq<Turn>): Outcome {
    match Follow(rr, turns)
    case Returned(outcome) => outcome
    case Going(calls, _, lastErr) => Outcome(calls, GiveUp(lastErr).result)
  }

  /** The calls made already, then what the rest comes to. */
  function After(calls: seq<nat>, rest: Outcome): Outcome {
    Outcome(calls + rest.calls, rest.result)
  }

  /** What Do returns from this point of the loop, by the recursive definition, given the turns to come. */
  function Finish(rr: bool, v: Progress, future: seq<Turn>): Outcome {
    if v.Returned? then v.outcome else After(v.calls, DoFrom(PickWith(rr), future, v.tried, v.lastErr))
  }

  lemma Regrouped<T>(a: seq<T>, b: seq<T>)
    requires a != []
    ensures a[..|a| - 1] + ([a[|a| - 1]] + b) == a + b
  {}

  lemma DoHead(rr: bool, tried: set<string>, lastErr: Option<CallError>, t: Turn, future: seq<Turn>)
    ensures DoFrom(PickWith(rr), [t] + future, tried, lastErr) ==
      match Pick(t.pool, tried, rr, t.luck)
      case None => GiveUp(lastErr)
      case Some(k) =>
        if Failure(t.reply).None? then Outcome([k], Served(k, t.reply.code))
        else
          var rest := DoFrom(PickWith(rr), future, tried + {t.pool[k].name}, Failure(t.reply));
          Outcome([k] + rest.calls, rest.result)
  {
    assert ([t] + future)[0] == t && ([t] + future)[1..] == future;
    assert PickWith(rr)(t, tried) == Pick(t.pool, tried, rr, t.luck);
  }

  lemma AfterGivingUp(calls: seq<nat>, lastErr: Option<CallError>)
    ensures After(calls, GiveUp(lastErr)) == Outcome(calls, GiveUp(lastErr).result)
  {
    assert calls + [] == calls;
  }

  lemma AfterOneMore(calls: seq<nat>, k: nat, rest: Outcome)
    ensures After(calls, Outcome([k] + rest.calls, rest.result)) == After(calls + [k], rest)
  {
    assert calls + ([k] + rest.calls) == calls + [k] + rest.calls;
  }

  lemma DoStep(rr: bool, v: Progress, t: Turn, future: seq<Turn>)
    ensures Finish(rr, v, [t] + future) == Finish(rr, Iterate(rr, v, t), future)
  {
    if v.Going? {
      DoHead(rr, v.tried, v.lastErr, t, future);
      match Pick(t.pool, v.tried, rr, t.luck)
      case None =>
        AfterGivingUp(v.calls, v.lastErr);
      case Some(k) =>
        if Failure(t.reply).Some? {
          AfterOneMore(v.calls, k, DoFrom(PickWith(rr), future, v.tried + {t.pool[k].name}, Failure(t.reply)));
        }
    }
  }

  /** From any point of the loop, the rest of it is the recursive definition on the turns to come. */
  lemma {:induction false} FollowIsDo(rr: bool, met: seq<Turn>, future: seq<Turn>)
    ensures DoFrom(PickWith(rr), met + future, {}, None) == Finish(rr, Follow(rr, met), future)
    decreases |met|
  {
    if met == [] {
      assert [] + future == future;
    } else {
      var n := |met| - 1;
      FollowIsDo(rr, met[..n], [met[n]] + future);
      Regrouped(met, future);
      DoStep(rr, Follow(rr, met[..n]), met[n], future);
    }
  }

  /** The loop returns what the recursive definition says. */
  lemma LoopIsDo(rr: bool, turns: seq<Turn>)
    ensures LoopResult(rr, turns) == DoFrom(PickWith(rr), turns, {}, None)
  {
    FollowIsDo(rr, turns, []);
    assert turns + [] == turns;
    if Follow(rr, turns).Going? {
      assert Follow(rr, turns).calls + [] == Follow(rr, turns).calls;
    }
  }

  // ---------------------------------------------------------------- the pool under the loop

  /** What does not change about a backend, and what does. */
  datatype Named = Named(name: string, weight: int)

  datatype Vitals = Vitals(healthy: bool, failures: int, lastFailAt: int, inFlight: int)

  /** Everything Do reads or changes: the backends' vitals and the round-robin index. */
  datatype World = World(vitals: seq<Vitals>, index: nat)

  /** What anything else may do between two attempts: requests, closes and probes change a backend, picks move the
      index. */
  datatype Other = Changed(b: nat, healthy: bool, failures: int, lastFailAt: int, moved: int) | Picked

  function Touched(w: World, o: Other): (r: World)
    ensures |r.vitals| == |w.vitals|
  {
    match o
    case Picked => w.(index := w.index + 1)
    case Changed(b, healthy, failures, lastFailAt, moved) =>
      if b >= |w.vitals| then w
      else w.(vitals := w.vitals[b := Vitals(healthy, failures, lastFailAt, w.vitals[b].inFlight + moved)])
  }

  function Disturbed(w: World, others: seq<Other>): (r: World)
    ensures |r.vitals| == |w.vitals|
  {
    if others == [] then w else Touched(Disturbed(w, others[..|others| - 1]), others[|others| - 1])
  }

  function PoolOf(fleet: seq<Named>, w: World): (pool: seq<View>)
    requires |fleet| == |w.vitals|
    ensures |pool| == |fleet|
    ensures forall k :: 0 <= k < |fleet| ==>
              pool[k] == View(fleet[k].name, fleet[k].weight, w.vitals[k].healthy, w.vitals[k].inFlight)
  {
    seq(|fleet|, k requires 0 <= k < |fleet| =>
      View(fleet[k].name, fleet[k].weight, w.vitals[k].healthy, w.vitals[k].inFlight))
  }

  /** What an attempt meets: what others did since the last one, the two random values, the reply to its call, and the
      time a failure is marked with. */
  datatype Chance = Chance(others: seq<Other>, r1: nat, r2: nat, reply: Reply, failedAt: int)

  /** A call of backend k: a failure is marked, a success holds a slot. */
  function Called(w: World, k: nat, reply: Reply, failedAt: int): (r: World)
    requires k < |w.vitals|
    ensures |r.vitals| == |w.vitals|
  {
    var v := w.vitals[k];
    if Failure(reply).Some? then w.(vitals := w.vitals[k := v.(failures := v.failures + 1, lastFailAt := failedAt)])
    else w.(vitals := w.vitals[k := v.(inFlight := v.inFlight + 1)])
  }

  /** A pick moves the round-robin index when it uses it. */
  function Advanced(pool: seq<View>, exclude: set<string>, rr: bool, w: World): World {
    if rr && Candidates(pool, exclude) != [] then w.(index := w.index + 1) else w
  }

  /** The world after the turn that found the loop at v and the world at w. */
  function Settled(fleet: seq<Named>, rr: bool, v: Progress, w: World, c: Chance): (r: World)
    requires |fleet| == |w.vitals|
    ensures |r.vitals| == |w.vitals|
  {
    if v.Returned? then w
    else
      var pool := PoolOf(fleet, w);
      var next := Advanced(pool, v.tried, rr, w);
      match Pick(pool, v.tried, rr, Luck(w.index, c.r1, c.r2))
      case None => next
      case Some(k) => Called(next, k, c.reply, c.failedAt)
  }

  /** What a call of Do depends on. */
  datatype Given = Given(fleet: seq<Named>, rr: bool, world: World, chances: seq<Chance>) {
    ghost predicate Fits() {
      |fleet| == |world.vitals|
    }

    /** The world as attempt i's pick finds it; once Do has returned it is left as it was. */
    function Found(i: nat, v: Progress, w: World): (r: World)
      requires i < |chances|
      ensures |r.vitals| == |w.vitals|
    {
      if v.Returned? then w else Disturbed(w, chances[i].others)
    }

    function TurnAt(i: nat, w: World): Turn
      requires i < |chances| && |w.vitals| == |fleet|
    {
      Turn(PoolOf(fleet, w), Luck(w.index, chances[i].r1, chances[i].r2), chances[i].reply)
    }

    /** The first n turns, and the world after them. */
    function Dealt(n: nat): (r: (seq<Turn>, World))
      requires n <= |chances| && Fits()
      ensures |r.0| == n && |r.1.vitals| == |fleet|
    {
      if n == 0 then ([], world)
      else
        var (turns, before) := Dealt(n - 1);
        var v := Follow(rr, turns);
        var w := Found(n - 1, v, before);
        (turns + [TurnAt(n - 1, w)], Settled(fleet, rr, v, w, chances[n - 1]))
    }
  }

  /** Before turn i the loop has these variables and leaves the world like this. */
  ghost predicate InLoop(g: Given, i: nat, v: Progress, w: World)
    requires i <= |g.chances| && g.Fits()
  {
    var (turns, after) := g.Dealt(i);
    Follow(g.rr, turns) == v && after == w
  }

  /** The whole loop comes to this outcome and leaves the world like this. */
  ghost predicate LoopEnds(g: Given, outcome: Outcome, w: World)
    requires g.Fits()
  {
    var (turns, after) := g.Dealt(|g.chances|);
    LoopResult(g.rr, turns) == outcome && after == w
  }

  lemma LoopDone(g: Given, calls: seq<nat>, tried: set<string>, lastErr: Option<CallError>, w: World)
    requires g.Fits() && InLoop(g, |g.chances|, Going(calls, tried, lastErr), w)
    ensures LoopEnds(g, Outcome(calls, GiveUp(lastErr).result), w)
  {}

  lemma FollowLast(rr: bool, met: seq<Turn>, t: Turn)
    ensures Follow(rr, met + [t]) == Iterate(rr, Follow(rr, met), t)
  {
    assert (met + [t])[..|met|] == met;
  }

  lemma InLoopNext(g: Given, i: nat, v: Progress, w: World)
    requires g.Fits() && i < |g.chances| && InLoop(g, i, v, w)
    ensures var found := g.Found(i, v, w);
            && |found.vitals| == |g.fleet|
            && InLoop(g, i + 1, Iterate(g.rr, v, g.TurnAt(i, found)), Settled(g.fleet, g.rr, v, found, g.chances[i]))
  {
    FollowLast(g.rr, g.Dealt(i).0, g.TurnAt(i, g.Found(i, v, w)));
  }

  lemma InLoopBefore(g: Given, i: nat, v: Progress, w: World) returns (u: Progress, before: World)
    requires g.Fits() && i < |g.chances| && InLoop(g, i + 1, v, w)
    ensures InLoop(g, i, u, before) && |before.vitals| == |g.fleet|
    ensures var found := g.Found(i, u, before);
            && v == Iterate(g.rr, u, g.TurnAt(i, found)) && w == Settled(g.fleet, g.rr, u, found, g.chances[i])
  {
    var dealt := g.Dealt(i);
    u, before := Follow(g.rr, dealt.0), dealt.1;
    InLoopNext(g, i, u, before);
  }

  /** Turns after the return change nothing. */
  lemma {:induction false} ReturnedStays(g: Given, i: nat, v: Progress, w: World)
    requires g.Fits() && i <= |g.chances| && v.Returned? && InLoop(g, i, v, w)
    ensures LoopEnds(g, v.outcome, w)
    decreases |g.chances| - i
  {
    if i < |g.chances| {
      InLoopNext(g, i, v, w);
      ReturnedStays(g, i + 1, v, w);
    }
  }

  /** What the pick and the reply of turn i make of the loop: it goes on with new variables, or this is how it ends. */
  lemma LoopTurn(g: Given, i: nat, calls: seq<nat>, tried: set<string>, lastErr: Option<CallError>, w: World)
    requires g.Fits() && i < |g.chances| && |w.vitals| == |g.fleet|
    requires InLoop(g, i, Going(calls, tried, lastErr), w)
    ensures var c := g.chances[i];
            var found := Disturbed(w, c.others);
            var pool := PoolOf(g.fleet, found);
            var choice := Pick(pool, tried, g.rr, Luck(found.index, c.r1, c.r2));
            var next := Advanced(pool, tried, g.rr, found);
            && (choice.None? ==> LoopEnds(g, Outcome(calls, GiveUp(lastErr).result), next))
            && (choice.Some? && Failure(c.reply).None? ==>
                  LoopEnds(g, Outcome(calls + [choice.value], Served(choice.value, c.reply.code)),
                           Called(next, choice.value, c.reply, c.failedAt)))
            && (choice.Some? && Failure(c.reply).Some? ==>
                  InLoop(g, i + 1, Going(calls + [choice.value], tried + {pool[choice.value].name}, Failure(c.reply)),
                         Called(next, choice.value, c.reply, c.failedAt)))
  {
    var v := Going(calls, tried, lastErr);
    var found := Disturbed(w, g.chances[i].others);
    InLoopNext(g, i, v, w);
    var v' := Iterate(g.rr, v, g.TurnAt(i, found));
    if v'.Returned? {
      ReturnedStays(g, i + 1, v', Settled(g.fleet, g.rr, v, found, g.chances[i]));
    }
  }

  // ---------------------------------------------------------------- failover, of the loop

  function Names(fleet: seq<Named>): (names: seq<string>)
    ensures |names| == |fleet| && forall k :: 0 <= k < |fleet| ==> names[k] == fleet[k].name
  {
    seq(|fleet|, k requires 0 <= k < |fleet| => fleet[k].name)
  }

  ghost predicate OfFleet(t: Turn, fleet: seq<Named>, c: Chance) {
    && t.reply == c.reply && |t.pool| == |fleet|
    && forall k :: 0 <= k < |fleet| ==> t.pool[k].name == fleet[k].name
  }

  lemma {:induction false} DealtFleet(g: Given, n: nat)
    requires g.Fits() && n <= |g.chances|
    ensures forall i :: 0 <= i < n ==> OfFleet(g.Dealt(n).0[i], g.fleet, g.chances[i])
  {
    if n > 0 {
      DealtFleet(g, n - 1);
      var (turns, before) := g.Dealt(n - 1);
      var w := g.Found(n - 1, Follow(g.rr, turns), before);
      assert g.Dealt(n).0 == turns + [g.TurnAt(n - 1, w)];
      assert OfFleet(g.TurnAt(n - 1, w), g.fleet, g.chances[n - 1]);
    }
  }

  /** What Do does, others changing the pool under it as they may: at most one call an attempt and none to a name
      twice; and with distinct names and an attempt for each, an error means that every backend was called and
      failed. */
  lemma DoFailsOver(g: Given, outcome: Outcome, w: World)
    requires g.Fits() && LoopEnds(g, outcome, w)
    ensures |outcome.calls| <= |g.chances| && FreshCalls(outcome.calls, Names(g.fleet), {})
    ensures outcome.result.Error? && Distinct(Names(g.fleet)) && |g.chances| >= |g.fleet| ==>
              && Distinct(outcome.calls) && ToSet(outcome.calls) == Indices(|g.fleet|)
              && forall i :: 0 <= i < |outcome.calls| ==> Faulty(g.chances[i].reply)
  {
    var turns := g.Dealt(|g.chances|).0;
    LoopIsDo(g.rr, turns);
    PickIsSound(g.rr);
    DealtFleet(g, |g.chances|);
    NeverTwice(PickWith(g.rr), turns, Names(g.fleet), {}, None);
    if outcome.result.Error? && Distinct(Names(g.fleet)) && |g.chances| >= |g.fleet| {
      FailoverComplete(PickWith(g.rr), turns, Names(g.fleet));
    }
  }

  function RepliesOf(chances: seq<Chance>): (replies: seq<Reply>)
    ensures |replies| == |chances| && forall i :: 0 <= i < |chances| ==> replies[i] == chances[i].reply
  {
    seq(|chances|, i requires 0 <= i < |chances| => chances[i].reply)
  }

  /** Do returns the first reply that is neither a broken call nor a 5xx, whatever others do to the pool meanwhile;
      its error is that of its last call. */
  lemma DoStopsRight(g: Given, outcome: Outcome, w: World)
    requires g.Fits() && LoopEnds(g, outcome, w)
    ensures StoppedRight(RepliesOf(g.chances), outcome)
  {
    var turns := g.Dealt(|g.chances|).0;
    LoopIsDo(g.rr, turns);
    PickIsSound(g.rr);
    DealtFleet(g, |g.chances|);
    StopsAtSuccess(PickWith(g.rr), turns);
    assert Replies(turns) == RepliesOf(g.chances);
  }

  /** Nor does Do call an unhealthy backend while a healthy name is left, when health is fixed meanwhile. */
  lemma DoPrefersHealthy(g: Given, outcome: Outcome, w: World, healthy: seq<bool>, j: nat, h: nat)
    requires g.Fits() && LoopEnds(g, outcome, w)
    requires |healthy| == |g.fleet| && HealthFixed(g.Dealt(|g.chances|).0, healthy)
    requires j < |outcome.calls| && outcome.calls[j] < |g.fleet| && !healthy[outcome.calls[j]]
    requires h < |g.fleet| && healthy[h]
    ensures exists i :: 0 <= i < j && outcome.calls[i] < |g.fleet| && g.fleet[outcome.calls[i]].name == g.fleet[h].name
  {
    var turns, names := g.Dealt(|g.chances|).0, Names(g.fleet);
    LoopIsDo(g.rr, turns);
    PickIsSound(g.rr);
    DealtFleet(g, |g.chances|);
    HealthyFirst(PickWith(g.rr), turns, names, healthy, {}, None, j, h);
    var i :| 0 <= i < j && outcome.calls[i] < |names| && names[outcome.calls[i]] == names[h];
  }

  // ---------------------------------------------------------------- the loop's own effect

  /** How much others have moved backend k's in-flight count. */
  function Moved(others: seq<Other>, k: nat): int {
    if others == [] then 0
    else
      var o := others[|others| - 1];
      Moved(others[..|others| - 1], k) + (if o.Changed? && o.b == k then o.moved else 0)
  }

  function MovedBefore(chances: seq<Chance>, n: nat, k: nat): int
    requires n <= |chances|
  {
    if n == 0 then 0 else MovedBefore(chances, n - 1, k) + Moved(chances[n - 1].others, k)
  }

  lemma {:induction false} DisturbedMoves(w: World, others: seq<Other>, k: nat)
    requires k < |w.vitals|
    ensures Disturbed(w, others).vitals[k].inFlight == w.vitals[k].inFlight + Moved(others, k)
  {
    if others != [] {
      DisturbedMoves(w, others[..|others| - 1], k);
    }
  }

  /** The loop has moved in-flight counts by this much: by nothing while it goes on, by one slot on the server of its
      success. */
  function OwnSlot(v: Progress, k: nat): int {
    if v.Returned? && v.outcome.result.Served? && v.outcome.result.backend == k then 1 else 0
  }

  lemma CalledSlot(w: World, j: nat, reply: Reply, at: int, k: nat)
    requires j < |w.vitals| && k < |w.vitals|
    ensures Called(w, j, reply, at).vitals[k].inFlight
         == w.vitals[k].inFlight + if Failure(reply).None? && j == k then 1 else 0
  {}

  lemma TurnSlot(fleet: seq<Named>, rr: bool, u: Progress, w: World, c: Chance, k: nat)
    requires u.Going? && |fleet| == |w.vitals| && k < |fleet|
    ensures var v := Iterate(rr, u, Turn(PoolOf(fleet, w), Luck(w.index, c.r1, c.r2), c.reply));
            Settled(fleet, rr, u, w, c).vitals[k].inFlight == w.vitals[k].inFlight + OwnSlot(v, k)
  {
    var pool := PoolOf(fleet, w);
    match Pick(pool, u.tried, rr, Luck(w.index, c.r1, c.r2))
    case None =>
    case Some(j) => CalledSlot(Advanced(pool, u.tried, rr, w), j, c.reply, c.failedAt, k);
  }

  /** Counting what others did before turn n, and the loop's own slot. */
  ghost predicate Owned(g: Given, n: nat, v: Progress, w: World, k: nat)
    requires g.Fits() && n <= |g.chances| && |w.vitals| == |g.fleet| && k < |g.fleet|
  {
    w.vitals[k].inFlight == g.world.vitals[k].inFlight + MovedBefore(g.chances, n, k) + OwnSlot(v, k)
  }

  lemma OwnedNext(g: Given, i: nat, u: Progress, before: World, k: nat)
    requires g.Fits() && i < |g.chances| && |before.vitals| == |g.fleet| && k < |g.fleet|
    requires u.Going? && Owned(g, i, u, before, k)
    ensures var w := Disturbed(before, g.chances[i].others);
            Owned(g, i + 1, Iterate(g.rr, u, g.TurnAt(i, w)), Settled(g.fleet, g.rr, u, w, g.chances[i]), k)
  {
    DisturbedMoves(before, g.chances[i].others, k);
    TurnSlot(g.fleet, g.rr, u, Disturbed(before, g.chances[i].others), g.chances[i], k);
  }

  /** How many turns the loop has used: one for each call, and one for a pick that found nobody. */
  function Used(v: Progress): nat {
    match v
    case Going(calls, _, _) => |calls|
    case Returned(o) => |o.calls| + if o.result.Error? then 1 else 0
  }

  lemma UsesOneTurn(rr: bool, u: Progress, t: Turn)
    requires u.Going?
    ensures Used(Iterate(rr, u, t)) == Used(u) + 1
  {}

  /** After i turns: those used, and the slots owned. */
  ghost predicate Settles(g: Given, i: nat, v: Progress, w: World, k: nat)
    requires g.Fits() && i <= |g.chances| && |w.vitals| == |g.fleet| && k < |g.fleet|
  {
    Used(v) <= i && (v.Going? ==> Used(v) == i) && Owned(g, Used(v), v, w, k)
  }

  lemma SettlesGoing(g: Given, i: nat, u: Progress, before: World, k: nat)
    requires g.Fits() && i < |g.chances| && |before.vitals| == |g.fleet| && k < |g.fleet|
    requires u.Going? && Settles(g, i, u, before, k)
    ensures var w := Disturbed(before, g.chances[i].others);
            Settles(g, i + 1, Iterate(g.rr, u, g.TurnAt(i, w)), Settled(g.fleet, g.rr, u, w, g.chances[i]), k)
  {
    UsesOneTurn(g.rr, u, g.TurnAt(i, Disturbed(before, g.chances[i].others)));
    OwnedNext(g, i, u, before, k);
  }

  lemma SettlesNext(g: Given, i: nat, u: Progress, before: World, k: nat)
    requires g.Fits() && i < |g.chances| && |before.vitals| == |g.fleet| && k < |g.fleet|
    requires Settles(g, i, u, before, k)
    ensures var w := g.Found(i, u, before);
            Settles(g, i + 1, Iterate(g.rr, u, g.TurnAt(i, w)), Settled(g.fleet, g.rr, u, w, g.chances[i]), k)
  {
    if u.Going? {
      SettlesGoing(g, i, u, before, k);
    }
  }

  lemma {:induction false} SlotsOwned(g: Given, i: nat, v: Progress, w: World, k: nat)
    requires g.Fits() && i <= |g.chances| && InLoop(g, i, v, w) && k < |g.fleet|
    ensures Settles(g, i, v, w, k)
  {
    if i > 0 {
      var u, before := InLoopBefore(g, i - 1, v, w);
      SlotsOwned(g, i - 1, u, before, k);
      SettlesNext(g, i - 1, u, before, k);
    }
  }

  /** The turns a whole loop met: its calls, and the last pick when that found nobody before the attempts ran out. */
  function TurnsMet(outcome: Outcome, attempts: nat): nat {
    |outcome.calls| + if outcome.result.Error? && |outcome.calls| < attempts then 1 else 0
  }

  lemma SlotOfOne(g: Given, outcome: Outcome, w: World, k: nat)
    requires g.Fits() && LoopEnds(g, outcome, w) && k < |g.fleet|
    ensures var n := TurnsMet(outcome, |g.chances|);
            && n <= |g.chances|
            && w.vitals[k].inFlight == g.world.vitals[k].inFlight + MovedBefore(g.chances, n, k)
                 + if outcome.result.Served? && outcome.result.backend == k then 1 else 0
  {
    var v := Follow(g.rr, g.Dealt(|g.chances|).0);
    SlotsOwned(g, |g.chances|, v, w, k);
    if v.Going? {
      assert outcome == Outcome(v.calls, GiveUp(v.lastErr).result);
    } else {
      assert outcome == v.outcome;
    }
  }

  /** When Do is over, every backend's in-flight count has moved by what others did before the turns the loop met, plus
      one on the server of a success; failed calls leave nothing behind. */
  lemma DoOwnsOneSlot(g: Given, outcome: Outcome, w: World)
    requires g.Fits() && LoopEnds(g, outcome, w)
    ensures var n := TurnsMet(outcome, |g.chances|);
            && n <= |g.chances|
            && forall k :: 0 <= k < |g.fleet| ==>
                 w.vitals[k].inFlight == g.world.vitals[k].inFlight + MovedBefore(g.chances, n, k)
                   + if outcome.result.Served? && outcome.result.backend == k then 1 else 0
  {
    var n := TurnsMet(outcome, |g.chances|);
    DoFailsOver(g, outcome, w);
    forall k | 0 <= k < |g.fleet|
      ensures w.vitals[k].inFlight == g.world.vitals[k].inFlight + MovedBefore(g.chances, n, k)
                + if outcome.result.Served? && outcome.result.backend == k then 1 else 0
    {
      SlotOfOne(g, outcome, w, k);
    }
  }

  // ---------------------------------------------------------------- a quiet pool

  /** One more for backend k. */
  function Bump(counts: seq<int>, k: nat): (r: seq<int>)
    ensures |r| == |counts|
  {
    if k < |counts| then counts[k := counts[k] + 1] else counts
  }

  /** One more for every call in the list. */
  function BumpAll(counts: seq<int>, calls: seq<nat>): (r: seq<int>)
    ensures |r| == |counts|
  {
    if calls == [] then counts else Bump(BumpAll(counts, calls[..|calls| - 1]), calls[|calls| - 1])
  }

  lemma BumpLast(counts: seq<int>, calls: seq<nat>, k: nat)
    ensures BumpAll(counts, calls + [k]) == Bump(BumpAll(counts, calls), k)
  {
    assert (calls + [k])[..|calls|] == calls;
  }

  /** Every backend's count has grown by the number of its calls. */
  lemma {:induction false} BumpAllCounts(counts: seq<int>, calls: seq<nat>, k: nat)
    requires k < |counts|
    ensures BumpAll(counts, calls)[k] == counts[k] + multiset(calls)[k]
  {
    if calls != [] {
      var n := |calls| - 1;
      BumpAllCounts(counts, calls[..n], k);
      assert calls == calls[..n] + [calls[n]];
    }
  }

  /** The calls that failed: all but a successful last one. */
  function Failed(calls: seq<nat>, result: Result): seq<nat> {
    if result.Served? && calls != [] then calls[..|calls| - 1] else calls
  }

  lemma FailedBefore(calls: seq<nat>, k: nat, code: nat)
    ensures Failed(calls + [k], Served(k, code)) == calls
  {}

  function FailuresIn(w: World): (r: seq<int>)
    ensures |r| == |w.vitals| && forall k :: 0 <= k < |r| ==> r[k] == w.vitals[k].failures
  {
    seq(|w.vitals|, k requires 0 <= k < |w.vitals| => w.vitals[k].failures)
  }

  ghost predicate Quiet(g: Given) {
    forall i :: 0 <= i < |g.chances| ==> g.chances[i].others == []
  }

  function CallsOf(v: Progress): seq<nat> {
    if v.Going? then v.calls else Failed(v.outcome.calls, v.outcome.result)
  }

  lemma CalledFailures(w: World, k: nat, reply: Reply, at: int)
    requires k < |w.vitals|
    ensures FailuresIn(Called(w, k, reply, at))
         == if Failure(reply).Some? then Bump(FailuresIn(w), k) else FailuresIn(w)
  {}

  lemma QuietTurn(g: Given, i: nat, u: Progress, before: World)
    requires g.Fits() && Quiet(g) && i < |g.chances| && u.Going? && |before.vitals| == |g.fleet|
    requires FailuresIn(before) == BumpAll(FailuresIn(g.world), u.calls)
    ensures FailuresIn(Settled(g.fleet, g.rr, u, before, g.chances[i]))
         == BumpAll(FailuresIn(g.world), CallsOf(Iterate(g.rr, u, g.TurnAt(i, before))))
  {
    var c := g.chances[i];
    var pool := PoolOf(g.fleet, before);
    match Pick(pool, u.tried, g.rr, Luck(before.index, c.r1, c.r2))
    case None =>
    case Some(k) =>
      CalledFailures(Advanced(pool, u.tried, g.rr, before), k, c.reply, c.failedAt);
      BumpLast(FailuresIn(g.world), u.calls, k);
      if Failure(c.reply).None? {
        FailedBefore(u.calls, k, c.reply.code);
      }
  }

  /** The world's failures are the first ones and one for each failed call so far. */
  ghost predicate Charged(g: Given, v: Progress, w: World) {
    FailuresIn(w) == BumpAll(FailuresIn(g.world), CallsOf(v))
  }

  lemma QuietNext(g: Given, i: nat, u: Progress, before: World, v: Progress, w: World)
    requires g.Fits() && Quiet(g) && i < |g.chances| && |before.vitals| == |g.fleet| && Charged(g, u, before)
    requires var found := g.Found(i, u, before);
             v == Iterate(g.rr, u, g.TurnAt(i, found)) && w == Settled(g.fleet, g.rr, u, found, g.chances[i])
    ensures Charged(g, v, w)
  {
    if u.Going? {
      assert g.Found(i, u, before) == before;
      QuietTurn(g, i, u, before);
    }
  }

  lemma {:induction false} QuietFailures(g: Given, i: nat, v: Progress, w: World)
    requires g.Fits() && Quiet(g) && i <= |g.chances| && InLoop(g, i, v, w)
    ensures Charged(g, v, w)
  {
    if i > 0 {
      var u, before := InLoopBefore(g, i - 1, v, w);
      QuietFailures(g, i - 1, u, before);
      QuietNext(g, i - 1, u, before, v, w);
    }
  }

  /** In a quiet pool each failed call adds one failure to its backend, and nothing else does. */
  lemma QuietDoFailures(g: Given, outcome: Outcome, w: World)
    requires g.Fits() && Quiet(g) && LoopEnds(g, outcome, w)
    ensures FailuresIn(w) == BumpAll(FailuresIn(g.world), Failed(outcome.calls, outcome.result))
  {
    var (turns, after) := g.Dealt(|g.chances|);
    QuietFailures(g, |g.chances|, Follow(g.rr, turns), w);
  }
}
