/** The round-robin strategy over many picks. */
module RoundRobin {
  import opened Collections
  import opened Selection
  import opened RetryLoop

  /** n picks in a row from a pool that does not change, and the world after them. */
  function Picks(pool: seq<View>, exclude: set<string>, w: World, n: nat): (r: (seq<Option<nat>>, World))
    ensures |r.0| == n
  {
    if n == 0 then ([], w)
    else
      var (before, v) := Picks(pool, exclude, w, n - 1);
      (before + [Pick(pool, exclude, true, Luck(v.index, 0, 0))], Advanced(pool, exclude, true, v))
  }

  lemma Distribute(a: int, b: int, m: int)
    ensures (a - b) * m == a * m - b * m
  {}

  lemma ModOf(x: nat, rounds: nat, r: nat, m: nat)
    requires r < m && x == rounds * m + r
    ensures x % m == r
  {
    var d := x / m - rounds;
    Distribute(x / m, rounds, m);
    assert d * m == r - x % m;
    assert d >= 1 ==> d * m >= m;
    assert d <= -1 ==> d * m <= -1 * m;
  }

  /** x modulo m, round by round. */
  function Wrapped(x: nat, m: nat): (r: nat)
    requires m >= 1
    ensures r < m
  {
    if x < m then x else Wrapped(x - m, m)
  }

  lemma {:induction false} WrappedIsMod(x: nat, m: nat)
    requires m >= 1
    ensures Wrapped(x, m) == x % m
  {
    if x >= m {
      WrappedIsMod(x - m, m);
      ModOf(x, (x - m) / m + 1, (x - m) % m, m);
    }
  }

  /** The candidate whose turn it is. */
  function AtTurn(cs: seq<nat>, turn: nat): nat
    requires cs != []
  {
    cs[Wrapped(turn, |cs|)]
  }

  lemma PickAtTurn(pool: seq<View>, exclude: set<string>, cs: seq<nat>, w: World)
    requires cs == Candidates(pool, exclude) && cs != []
    ensures Pick(pool, exclude, true, Luck(w.index, 0, 0)) == Some(AtTurn(cs, w.index))
    ensures Advanced(pool, exclude, true, w) == w.(index := w.index + 1)
  {
    WrappedIsMod(w.index, |cs|);
  }

  lemma {:induction false} IndexMoves(pool: seq<View>, exclude: set<string>, cs: seq<nat>, w: World, n: nat)
    requires cs == Candidates(pool, exclude) && cs != []
    ensures Picks(pool, exclude, w, n).1 == w.(index := w.index + n)
  {
    if n > 0 {
      IndexMoves(pool, exclude, cs, w, n - 1);
      PickAtTurn(pool, exclude, cs, w.(index := w.index + (n - 1)));
    }
  }

  lemma EarlierPick(pool: seq<View>, exclude: set<string>, w: World, n: nat, i: nat)
    requires i < n
    ensures Picks(pool, exclude, w, n + 1).0[i] == Picks(pool, exclude, w, n).0[i]
  {}

  lemma LastIs(pool: seq<View>, exclude: set<string>, w: World, i: nat)
    ensures Picks(pool, exclude, w, i + 1).0[i]
         == Pick(pool, exclude, true, Luck(Picks(pool, exclude, w, i).1.index, 0, 0))
  {}

  lemma LastPick(pool: seq<View>, exclude: set<string>, cs: seq<nat>, w: World, i: nat)
    requires cs == Candidates(pool, exclude) && cs != []
    ensures Picks(pool, exclude, w, i + 1).0[i] == Some(AtTurn(cs, w.index + i))
  {
    LastIs(pool, exclude, w, i);
    IndexMoves(pool, exclude, cs, w, i);
    PickAtTurn(pool, exclude, cs, Picks(pool, exclude, w, i).1);
  }

  /** Pick i falls to the candidate whose turn that is. */
  lemma {:induction false} InTurn(pool: seq<View>, exclude: set<string>, cs: seq<nat>, w: World, n: nat, i: nat)
    requires cs == Candidates(pool, exclude) && cs != [] && i < n
    ensures Picks(pool, exclude, w, n).0[i] == Some(AtTurn(cs, w.index + i))
  {
    if i < n - 1 {
      EarlierPick(pool, exclude, w, n - 1, i);
      InTurn(pool, exclude, cs, w, n - 1, i);
    } else {
      LastPick(pool, exclude, cs, w, i);
    }
  }

  /** Candidate r's turn comes within every round. */
  lemma TurnComes(x: nat, r: nat, m: nat) returns (i: nat)
    requires r < m
    ensures i < m && Wrapped(x + i, m) == r
  {
    i := if x % m <= r then r - x % m else r + m - x % m;
    var rounds := if x % m <= r then x / m else x / m + 1;
    assert x + i == rounds * m + r;
    ModOf(x + i, rounds, r, m);
    WrappedIsMod(x + i, m);
  }

  /** Less than one round apart, two turns are different. */
  lemma OtherTurn(x: nat, y: nat, m: nat)
    requires m >= 1 && x < y < x + m
    ensures x % m != y % m
  {
    var d := y / m - x / m;
    Distribute(y / m, x / m, m);
    assert y - x == d * m + (y % m - x % m);
    assert d >= 1 ==> d * m >= m;
    assert d <= 0 ==> d * m <= 0;
  }

  lemma TurnsApart(cs: seq<nat>, x: nat, y: nat)
    requires x < y < x + |cs| && forall i, j :: 0 <= i < j < |cs| ==> cs[i] < cs[j]
    ensures AtTurn(cs, x) != AtTurn(cs, y)
  {
    OtherTurn(x, y, |cs|);
    WrappedIsMod(x, |cs|);
    WrappedIsMod(y, |cs|);
  }

  /** These picks were made in turn, the first of them at this index. */
  ghost predicate MadeInTurn(cs: seq<nat>, index: nat, picks: seq<Option<nat>>) {
    cs != [] && forall i :: 0 <= i < |picks| ==> picks[i] == Some(AtTurn(cs, index + i))
  }

  lemma RoundIsFair(cs: seq<nat>, index: nat, round: seq<Option<nat>>, r: nat)
    requires MadeInTurn(cs, index, round) && |round| == |cs|
    requires r < |cs| && forall i, j :: 0 <= i < j < |cs| ==> cs[i] < cs[j]
    ensures Distinct(round) && Some(cs[r]) in round
  {
    var k := TurnComes(index, r, |cs|);
    assert round[k] == Some(cs[r]);
    forall i, j | 0 <= i < j < |round|
      ensures round[i] != round[j]
    {
      TurnsApart(cs, index + i, index + j);
    }
  }

  /** By the round-robin strategy all picks from an unchanging pool are made in turn. */
  lemma AllInTurn(pool: seq<View>, exclude: set<string>, cs: seq<nat>, w: World, n: nat)
    requires cs == Candidates(pool, exclude) && cs != []
    ensures MadeInTurn(cs, w.index, Picks(pool, exclude, w, n).0)
  {
    forall i | 0 <= i < n
      ensures Picks(pool, exclude, w, n).0[i] == Some(AtTurn(cs, w.index + i))
    {
      InTurn(pool, exclude, cs, w, n, i);
    }
  }

  /** Any |cs| picks in a row that are made in turn choose every candidate, each exactly once. */
  lemma EachOncePerRound(cs: seq<nat>, index: nat, picks: seq<Option<nat>>, from: nat, r: nat)
    requires MadeInTurn(cs, index, picks) && from + |cs| <= |picks|
    requires r < |cs| && forall i, j :: 0 <= i < j < |cs| ==> cs[i] < cs[j]
    ensures Distinct(picks[from..from + |cs|]) && Some(cs[r]) in picks[from..from + |cs|]
  {
    var round, start := picks[from..from + |cs|], index + from;
    forall i | 0 <= i < |round|
      ensures round[i] == Some(AtTurn(cs, start + i))
    {
      assert round[i] == picks[from + i];
    }
    RoundIsFair(cs, start, round, r);
  }
}
