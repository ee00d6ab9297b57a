/** Which backend `pick` chooses: the arithmetic of weighted power-of-two-choices on a snapshot of the pool. */
module Selection {
  import opened Collections

  /** What pick reads of one backend. */
  datatype View = View(name: string, weight: int, healthy: bool, load: int)

  /** The running total of the first k weights. */
  function Prefix(ws: seq<int>, k: nat): int
    requires k <= |ws|
  {
    if k == 0 then 0 else Prefix(ws, k - 1) + ws[k - 1]
  }

  function Sum(ws: seq<int>): int {
    Prefix(ws, |ws|)
  }

  /** rand.Intn: some value below n, decided by the source of randomness. */
  function Intn(random: nat, n: int): nat
    requires n >= 1
  {
    random % n
  }

  function ChosenFrom(ws: seq<int>, x: int, from: nat): (i: nat)
    requires from < |ws|
    ensures from <= i < |ws|
    ensures forall k :: from < k <= i ==> Prefix(ws, k) <= x
    ensures x < Prefix(ws, i + 1) || (i == |ws| - 1 && Sum(ws) <= x)
    decreases |ws| - from
  {
    if x < Prefix(ws, from + 1) || from == |ws| - 1 then from else ChosenFrom(ws, x, from + 1)
  }

  /** The first index whose running total of weights exceeds x, the last index if none does. */
  function Chosen(ws: seq<int>, x: int): (i: nat)
    requires ws != []
    ensures i < |ws|
    ensures forall k :: 0 < k <= i ==> Prefix(ws, k) <= x
    ensures x < Prefix(ws, i + 1) || (i == |ws| - 1 && Sum(ws) <= x)
  {
    ChosenFrom(ws, x, 0)
  }

  function PickWeighted(ws: seq<int>, random: nat): (i: nat)
    requires ws != []
    ensures i < |ws|
  {
    if Sum(ws) <= 0 then Intn(random, |ws|) else Chosen(ws, Intn(random, Sum(ws)))
  }

  function Weights(vs: seq<View>): (ws: seq<int>)
    ensures |ws| == |vs| && forall i :: 0 <= i < |vs| ==> ws[i] == vs[i].weight
  {
    seq(|vs|, i requires 0 <= i < |vs| => vs[i].weight)
  }

  /** The indices of the healthy backends whose names are not excluded, in configuration order. */
  function Candidates(vs: seq<View>, exclude: set<string>): (cs: seq<nat>)
    ensures forall k :: 0 <= k < |cs| ==> cs[k] < |vs| && vs[cs[k]].healthy && vs[cs[k]].name !in exclude
    ensures forall i, j :: 0 <= i < j < |cs| ==> cs[i] < cs[j]
    ensures forall i :: 0 <= i < |vs| && vs[i].healthy && vs[i].name !in exclude ==> i in cs
  {
    if vs == [] then []
    else
      var n := |vs| - 1;
      var cs := Candidates(vs[..n], exclude);
      if vs[n].healthy && vs[n].name !in exclude then cs + [n] else cs
  }

  /** The last resort: the first backend not excluded, whatever its health. */
  function FirstAllowed(vs: seq<View>, exclude: set<string>, from: nat): (r: Option<nat>)
    requires from <= |vs|
    ensures r.Some? ==> from <= r.value < |vs| && vs[r.value].name !in exclude
    ensures r.Some? ==> forall i :: from <= i < r.value ==> vs[i].name in exclude
    ensures r.None? ==> forall i :: from <= i < |vs| ==> vs[i].name in exclude
    decreases |vs| - from
  {
    if from == |vs| then None
    else if vs[from].name !in exclude then Some(from)
    else FirstAllowed(vs, exclude, from + 1)
  }

  function Select(vs: seq<View>, cs: seq<nat>): (r: seq<View>)
    requires forall k :: 0 <= k < |cs| ==> cs[k] < |vs|
    ensures |r| == |cs| && forall k :: 0 <= k < |cs| ==> r[k] == vs[cs[k]]
  {
    seq(|cs|, k requires 0 <= k < |cs| => vs[cs[k]])
  }

  /** Two weighted draws, forced apart, and the less loaded of the two (the first on a tie). */
  function LessLoadedOfTwo(vs: seq<View>, r1: nat, r2: nat): (i: nat)
    requires |vs| >= 2
    ensures i < |vs|
  {
    var a := PickWeighted(Weights(vs), r1);
    var c := PickWeighted(Weights(vs), r2);
    var c' := if a == c then (if a == 0 then 1 else 0) else c;
    if vs[a].load <= vs[c'].load then a else c'
  }

  /** The round-robin index and the two random values a pick may consume. */
  datatype Luck = Luck(rrIdx: nat, r1: nat, r2: nat)

  function Pick(vs: seq<View>, exclude: set<string>, roundRobin: bool, luck: Luck): (r: Option<nat>)
    ensures r.Some? ==> r.value < |vs| && vs[r.value].name !in exclude
    ensures r.None? <==> forall i :: 0 <= i < |vs| ==> vs[i].name in exclude
    ensures r.Some? && !vs[r.value].healthy ==>
              forall i :: 0 <= i < |vs| && vs[i].healthy ==> vs[i].name in exclude
  {
    var cs := Candidates(vs, exclude);
    if cs == [] then FirstAllowed(vs, exclude, 0)
    else if roundRobin then Some(cs[luck.rrIdx % |cs|])
    else if |cs| == 1 then Some(cs[0])
    else Some(cs[LessLoadedOfTwo(Select(vs, cs), luck.r1, luck.r2)])
  }

  /** The branches of a pick among these candidates. */
  lemma PickCases(vs: seq<View>, exclude: set<string>, roundRobin: bool, luck: Luck, cs: seq<nat>)
    requires cs == Candidates(vs, exclude)
    ensures var choice := Pick(vs, exclude, roundRobin, luck);
            && (cs == [] ==> choice == FirstAllowed(vs, exclude, 0))
            && (cs != [] && roundRobin ==> choice == Some(cs[luck.rrIdx % |cs|]))
            && (|cs| == 1 && !roundRobin ==> choice == Some(cs[0]))
            && (|cs| >= 2 && !roundRobin ==> choice == Some(cs[LessLoadedOfTwo(Select(vs, cs), luck.r1, luck.r2)]))
  {}

  // ---------------------------------------------------------------- balance

  /** Some other backend's load is within g of backend i's. */
  ghost predicate HasPeer(vs: seq<View>, i: nat, g: int)
    requires i < |vs|
  {
    exists j :: 0 <= j < |vs| && j != i && vs[i].load <= vs[j].load + g
  }

  /** With two or more candidates some other candidate carries at least the picked one's load. */
  lemma NeverTheSoleMaximum(vs: seq<View>, r1: nat, r2: nat)
    requires |vs| >= 2
    ensures HasPeer(vs, LessLoadedOfTwo(vs, r1, r2), 0)
  {
    var a := PickWeighted(Weights(vs), r1);
    var c := PickWeighted(Weights(vs), r2);
    var c' := if a == c then (if a == 0 then 1 else 0) else c;
    var i := LessLoadedOfTwo(vs, r1, r2);
    var j := if i == a then c' else a;
    assert j != i && vs[i].load <= vs[j].load;
  }

  /** The most loaded backend leads the second most loaded by at most g. */
  ghost predicate LeadAtMost(vs: seq<View>, g: int) {
    forall i :: 0 <= i < |vs| ==> HasPeer(vs, i, g)
  }

  /** Pick and increment, for a list of random pairs, with no completion in between. */
  function Route(vs: seq<View>, randoms: seq<(nat, nat)>): (r: seq<View>)
    requires |vs| >= 2
    ensures |r| == |vs|
    decreases |randoms|
  {
    if randoms == [] then vs
    else
      var i := LessLoadedOfTwo(vs, randoms[0].0, randoms[0].1);
      Route(vs[i := vs[i].(load := vs[i].load + 1)], randoms[1..])
  }

  lemma LeadStep(vs: seq<View>, i: nat, g: int)
    requires g >= 1 && LeadAtMost(vs, g) && i < |vs| && HasPeer(vs, i, 0)
    ensures LeadAtMost(vs[i := vs[i].(load := vs[i].load + 1)], g)
  {
    var ws := vs[i := vs[i].(load := vs[i].load + 1)];
    var j :| 0 <= j < |vs| && j != i && vs[i].load <= vs[j].load + 0;
    forall k | 0 <= k < |ws|
      ensures HasPeer(ws, k, g)
    {
      if k == i {
        assert ws[k].load <= ws[j].load + g;
      } else {
        assert HasPeer(vs, k, g);
        var m :| 0 <= m < |vs| && m != k && vs[k].load <= vs[m].load + g;
        assert ws[k].load <= ws[m].load + g;
      }
    }
  }

  /** However the draws fall, the lead of the most loaded backend never exceeds max(initial lead, 1). */
  lemma {:induction false} LeadNeverGrows(vs: seq<View>, randoms: seq<(nat, nat)>, g: int)
    requires |vs| >= 2 && g >= 1 && LeadAtMost(vs, g)
    ensures LeadAtMost(Route(vs, randoms), g)
    decreases |randoms|
  {
    if randoms != [] {
      var i := LessLoadedOfTwo(vs, randoms[0].0, randoms[0].1);
      NeverTheSoleMaximum(vs, randoms[0].0, randoms[0].1);
      LeadStep(vs, i, g);
      LeadNeverGrows(vs[i := vs[i].(load := vs[i].load + 1)], randoms[1..], g);
    }
  }

  // ---------------------------------------------------------------- proportional selection

  ghost predicate Positive(ws: seq<int>) {
    forall i :: 0 <= i < |ws| ==> ws[i] >= 1
  }

  lemma {:induction false} PrefixGrows(ws: seq<int>, i: nat, j: nat)
    requires Positive(ws) && i <= j <= |ws|
    ensures Prefix(ws, j) >= Prefix(ws, i) + (j - i)
    decreases j
  {
    if i < j {
      PrefixGrows(ws, i, j - 1);
    }
  }

  /** A draw below the total lands in exactly one backend's stretch of the running totals; the final
      fallback of the loop is never used. */
  lemma ChosenStretch(ws: seq<int>, x: nat, i: nat)
    requires Positive(ws) && x < Sum(ws) && i < |ws|
    ensures Chosen(ws, x) == i <==> Prefix(ws, i) <= x < Prefix(ws, i + 1)
    ensures x < Prefix(ws, Chosen(ws, x) + 1)
  {
    var c := Chosen(ws, x);
    assert Prefix(ws, c) <= x;
    if c < i {
      PrefixGrows(ws, c + 1, i);
    } else if i < c {
      assert Prefix(ws, i + 1) <= x;
    }
  }

  predicate Between(lo: int, x: int, hi: int) {
    lo <= x < hi
  }

  ghost function Interval(lo: int, hi: int): set<int> {
    set x: int | lo <= x < hi && Between(lo, x, hi)
  }

  lemma {:induction false} IntervalSize(lo: int, hi: int)
    requires lo <= hi
    ensures |Interval(lo, hi)| == hi - lo
    decreases hi - lo
  {
    if lo < hi {
      IntervalSize(lo, hi - 1);
      assert Interval(lo, hi) == Interval(lo, hi - 1) + {hi - 1};
    } else {
      assert Interval(lo, hi) == {};
    }
  }

  /** The values of rand.Intn(total) for which weightedPick returns backend i. */
  ghost function DrawsFor(ws: seq<int>, i: nat): set<int>
    requires ws != []
  {
    set x: int | 0 <= x < Sum(ws) && Chosen(ws, x) == i
  }

  lemma DrawsAreStretch(ws: seq<int>, i: nat)
    requires Positive(ws) && i < |ws|
    ensures DrawsFor(ws, i) == Interval(Prefix(ws, i), Prefix(ws, i + 1))
  {
    PrefixGrows(ws, 0, i);
    PrefixGrows(ws, i + 1, |ws|);
    forall x | 0 <= x < Sum(ws)
      ensures Chosen(ws, x) == i <==> x in Interval(Prefix(ws, i), Prefix(ws, i + 1))
    {
      ChosenStretch(ws, x, i);
    }
  }

  /** Exactly Weight_i of the equally likely draws choose backend i. */
  lemma DrawsPerBackend(ws: seq<int>, i: nat)
    requires Positive(ws) && i < |ws|
    ensures |DrawsFor(ws, i)| == ws[i]
  {
    DrawsAreStretch(ws, i);
    PrefixGrows(ws, i, i + 1);
    IntervalSize(Prefix(ws, i), Prefix(ws, i + 1));
  }

  // ---------------------------------------------------------------- disjoint parts

  ghost predicate Apart(parts: seq<set<int>>) {
    forall i, j :: 0 <= i < j < |parts| ==> parts[i] !! parts[j]
  }

  /** The union of those of the first n parts that are kept. */
  ghost function Union(parts: seq<set<int>>, keep: seq<bool>, n: nat): set<int>
    requires n <= |parts| == |keep|
  {
    if n == 0 then {} else Union(parts, keep, n - 1) + (if keep[n - 1] then parts[n - 1] else {})
  }

  ghost function Pairs(a: set<int>, b: set<int>): set<(int, int)> {
    set x, y | x in a && y in b :: (x, y)
  }

  /** The pairs from one and the same of those parts. */
  ghost function Squares(parts: seq<set<int>>, keep: seq<bool>, n: nat): set<(int, int)>
    requires n <= |parts| == |keep|
  {
    if n == 0 then {}
    else Squares(parts, keep, n - 1) + (if keep[n - 1] then Pairs(parts[n - 1], parts[n - 1]) else {})
  }

  lemma {:induction false} UnionHas(parts: seq<set<int>>, keep: seq<bool>, n: nat, x: int, j: nat)
    requires n <= |parts| == |keep| && Apart(parts) && j < |parts| && x in parts[j]
    ensures x in Union(parts, keep, n) <==> j < n && keep[j]
  {
    if n > 0 {
      UnionHas(parts, keep, n - 1, x, j);
    }
  }

  lemma {:induction false} SquaresHas(parts: seq<set<int>>, keep: seq<bool>, n: nat, x: int, y: int, j: nat)
    requires n <= |parts| == |keep| && Apart(parts) && j < |parts| && x in parts[j]
    ensures (x, y) in Squares(parts, keep, n) <==> j < n && keep[j] && y in parts[j]
  {
    if n > 0 {
      SquaresHas(parts, keep, n - 1, x, y, j);
    }
  }

  lemma {:induction false} UnionWithin(parts: seq<set<int>>, keep: seq<bool>, n: nat, x: int) returns (j: nat)
    requires n <= |parts| == |keep| && x in Union(parts, keep, n)
    ensures j < n && x in parts[j]
  {
    if x in Union(parts, keep, n - 1) {
      j := UnionWithin(parts, keep, n - 1, x);
    } else {
      j := n - 1;
    }
  }

  lemma {:induction false} SquaresWithin(parts: seq<set<int>>, keep: seq<bool>, n: nat, p: (int, int)) returns (j: nat)
    requires n <= |parts| == |keep| && p in Squares(parts, keep, n)
    ensures j < n && p.0 in parts[j]
  {
    if p in Squares(parts, keep, n - 1) {
      j := SquaresWithin(parts, keep, n - 1, p);
    } else {
      j := n - 1;
    }
  }

  function Kept(ws: seq<int>, keep: seq<bool>, n: nat): int
    requires n <= |ws| == |keep|
  {
    if n == 0 then 0 else Kept(ws, keep, n - 1) + (if keep[n - 1] then ws[n - 1] else 0)
  }

  function KeptSquares(ws: seq<int>, keep: seq<bool>, n: nat): int
    requires n <= |ws| == |keep|
  {
    if n == 0 then 0 else KeptSquares(ws, keep, n - 1) + (if keep[n - 1] then ws[n - 1] * ws[n - 1] else 0)
  }

  ghost predicate Sized(parts: seq<set<int>>, ws: seq<int>) {
    |parts| == |ws| && forall j :: 0 <= j < |ws| ==> |parts[j]| == ws[j]
  }

  lemma NextIsNew(parts: seq<set<int>>, keep: seq<bool>, n: nat)
    requires n < |parts| == |keep| && Apart(parts)
    ensures Union(parts, keep, n) !! parts[n]
  {
    var next := parts[n];
    forall x | x in next
      ensures x !in Union(parts, keep, n)
    {
      UnionHas(parts, keep, n, x, n);
    }
  }

  lemma {:induction false} UnionSize(parts: seq<set<int>>, ws: seq<int>, keep: seq<bool>, n: nat)
    requires Apart(parts) && Sized(parts, ws) && n <= |ws| == |keep|
    ensures |Union(parts, keep, n)| == Kept(ws, keep, n)
  {
    if n > 0 {
      UnionSize(parts, ws, keep, n - 1);
      NextIsNew(parts, keep, n - 1);
    }
  }

  lemma {:induction false} RowSize(x: int, b: set<int>)
    ensures |Pairs({x}, b)| == |b|
    decreases |b|
  {
    if b == {} {
      assert Pairs({x}, b) == {};
    } else {
      var y := AnyOf(b);
      RowSize(x, b - {y});
      assert Pairs({x}, b) == Pairs({x}, b - {y}) + {(x, y)};
    }
  }

  lemma OneRowMore(m: nat, n: int)
    ensures (m + 1) * n == m * n + n
  {}

  lemma {:induction false} PairsSize(a: set<int>, b: set<int>)
    ensures |Pairs(a, b)| == |a| * |b|
    decreases |a|
  {
    if a == {} {
      assert Pairs(a, b) == {};
    } else {
      var x := AnyOf(a);
      PairsSize(a - {x}, b);
      RowSize(x, b);
      assert Pairs(a, b) == Pairs(a - {x}, b) + Pairs({x}, b);
      assert Pairs(a - {x}, b) !! Pairs({x}, b);
      OneRowMore(|a - {x}|, |b|);
    }
  }

  lemma NextSquareIsNew(parts: seq<set<int>>, keep: seq<bool>, n: nat)
    requires n < |parts| == |keep| && Apart(parts)
    ensures Squares(parts, keep, n) !! Pairs(parts[n], parts[n])
  {
    var next := Pairs(parts[n], parts[n]);
    forall p | p in next
      ensures p !in Squares(parts, keep, n)
    {
      SquaresHas(parts, keep, n, p.0, p.1, n);
    }
  }

  lemma SquareSize(part: set<int>, w: int)
    requires |part| == w
    ensures |Pairs(part, part)| == w * w
  {
    PairsSize(part, part);
  }

  lemma DisjointSize<T>(a: set<T>, b: set<T>)
    requires a !! b
    ensures |a + b| == |a| + |b|
  {}

  lemma NextSquare(parts: seq<set<int>>, keep: seq<bool>, w: int, n: nat)
    requires n < |parts| == |keep| && Apart(parts) && |parts[n]| == w
    ensures |Squares(parts, keep, n + 1)| == |Squares(parts, keep, n)| + (if keep[n] then w * w else 0)
  {
    SquareSize(parts[n], w);
    NextSquareIsNew(parts, keep, n);
    DisjointSize(Squares(parts, keep, n), Pairs(parts[n], parts[n]));
    assert Squares(parts, keep, n) + {} == Squares(parts, keep, n);
  }

  lemma {:induction false} SquaresSize(parts: seq<set<int>>, ws: seq<int>, keep: seq<bool>, n: nat)
    requires Apart(parts) && Sized(parts, ws) && n <= |ws| == |keep|
    ensures |Squares(parts, keep, n)| == KeptSquares(ws, keep, n)
  {
    if n > 0 {
      SquaresSize(parts, ws, keep, n - 1);
      NextSquare(parts, keep, ws[n - 1], n - 1);
    }
  }

  // ---------------------------------------------------------------- two draws

  /** The first candidate that is not this one. */
  function FirstOther(a: nat): nat {
    if a == 0 then 1 else 0
  }

  /** Whichever candidates two draws choose, the pick is one of the pair they stand for (the first candidate that is not
      the chosen one takes the place of a repeated draw), the less loaded of it, and the first drawn on a tie. */
  lemma TwoChoicesRule(vs: seq<View>, r1: nat, r2: nat, c: nat)
    requires |vs| >= 2 && Sum(Weights(vs)) >= 1
    requires var ws := Weights(vs); var a := Chosen(ws, r1 % Sum(ws));
             c == if Chosen(ws, r2 % Sum(ws)) != a then Chosen(ws, r2 % Sum(ws)) else FirstOther(a)
    ensures var a := Chosen(Weights(vs), r1 % Sum(Weights(vs))); var i := LessLoadedOfTwo(vs, r1, r2);
            && a != c && i in {a, c} && vs[i].load <= vs[a].load && vs[i].load <= vs[c].load
            && (vs[a].load == vs[c].load ==> i == a)
  {
    var ws := Weights(vs);
    assert PickWeighted(ws, r1) == Chosen(ws, r1 % Sum(ws)) && PickWeighted(ws, r2) == Chosen(ws, r2 % Sum(ws));
  }

  /** So with two or more candidates pick returns the less loaded of two that the draws choose by weight. */
  lemma PickOfTwo(vs: seq<View>, exclude: set<string>, luck: Luck, cs: seq<nat>, ws: seq<int>, a: nat, c: nat)
    requires cs == Candidates(vs, exclude) && |cs| >= 2 && ws == Weights(Select(vs, cs)) && Sum(ws) >= 1
    requires a == Chosen(ws, luck.r1 % Sum(ws))
    requires c == if Chosen(ws, luck.r2 % Sum(ws)) != a then Chosen(ws, luck.r2 % Sum(ws)) else FirstOther(a)
    ensures var choice := Pick(vs, exclude, false, luck);
            && a != c && choice in {Some(cs[a]), Some(cs[c])}
            && vs[choice.value].load <= vs[cs[a]].load && vs[choice.value].load <= vs[cs[c]].load
            && (vs[cs[a]].load == vs[cs[c]].load ==> choice == Some(cs[a]))
  {
    TwoChoicesRule(Select(vs, cs), luck.r1, luck.r2, c);
  }

  /** Candidate j loses to i: it is more loaded, or no less loaded when i is drawn first. */
  predicate Loses(vs: seq<View>, i: nat, first: bool, j: nat) {
    i < |vs| && j < |vs| && j != i && (if first then vs[j].load >= vs[i].load else vs[j].load > vs[i].load)
  }

  function Losers(vs: seq<View>, i: nat, first: bool): (keep: seq<bool>)
    ensures |keep| == |vs| && forall j :: 0 <= j < |vs| ==> keep[j] == Loses(vs, i, first, j)
  {
    seq(|vs|, j requires 0 <= j < |vs| => Loses(vs, i, first, j))
  }

  /** Two draws of candidate a come to i: a itself when the first other candidate is no less loaded, and that one when
      it is less loaded. */
  predicate WinsDouble(vs: seq<View>, i: nat, a: nat) {
    if a == i then Loses(vs, i, true, FirstOther(i)) else i == FirstOther(a) && Loses(vs, i, false, a)
  }

  function Doubles(vs: seq<View>, i: nat): (keep: seq<bool>)
    ensures |keep| == |vs| && forall a :: 0 <= a < |vs| ==> keep[a] == WinsDouble(vs, i, a)
  {
    seq(|vs|, a requires 0 <= a < |vs| => WinsDouble(vs, i, a))
  }

  /** A first draw of a and a second of c come to i. */
  predicate Comes(vs: seq<View>, i: nat, a: nat, c: nat) {
    if a == c then WinsDouble(vs, i, a) else (a == i && Loses(vs, i, true, c)) || (c == i && Loses(vs, i, false, a))
  }

  lemma DuelPicks(vs: seq<View>, i: nat, a: nat, c: nat, c': nat, pick: nat)
    requires |vs| >= 2 && i < |vs| && a < |vs| && c < |vs| && c' == (if c != a then c else FirstOther(a))
    requires pick in {a, c'} && vs[pick].load <= vs[a].load && vs[pick].load <= vs[c'].load
    requires vs[a].load == vs[c'].load ==> pick == a
    ensures pick == i <==> Comes(vs, i, a, c)
  {}

  lemma BelowItself(x: nat, n: nat)
    requires x < n
    ensures x % n == x
  {}

  /** What one pair of draws picks. */
  lemma PairPicks(vs: seq<View>, i: nat, x: nat, y: nat)
    requires |vs| >= 2 && i < |vs| && x < Sum(Weights(vs)) && y < Sum(Weights(vs))
    ensures LessLoadedOfTwo(vs, x, y) == i <==> Comes(vs, i, Chosen(Weights(vs), x), Chosen(Weights(vs), y))
  {
    var a, c := Chosen(Weights(vs), x), Chosen(Weights(vs), y);
    var c' := if c != a then c else FirstOther(a);
    BelowItself(x, Sum(Weights(vs)));
    BelowItself(y, Sum(Weights(vs)));
    TwoChoicesRule(vs, x, y, c');
    DuelPicks(vs, i, a, c, c', LessLoadedOfTwo(vs, x, y));
  }

  /** The pairs of draws below the total for which the two-choices rule returns candidate i. */
  ghost function PairsFor(vs: seq<View>, i: nat): set<(int, int)>
    requires |vs| >= 2
  {
    set x: nat, y: nat | x in Interval(0, Sum(Weights(vs))) && y in Interval(0, Sum(Weights(vs)))
                         && LessLoadedOfTwo(vs, x, y) == i :: (x, y)
  }

  /** The draws, parted by the candidate they choose. */
  ghost function Parts(ws: seq<int>): (parts: seq<set<int>>)
    ensures |parts| == |ws| && forall j :: 0 <= j < |ws| ==> parts[j] == DrawsFor(ws, j)
  {
    seq(|ws|, j requires 0 <= j < |ws| => DrawsFor(ws, j))
  }

  lemma PartsSized(ws: seq<int>)
    requires Positive(ws)
    ensures Apart(Parts(ws)) && Sized(Parts(ws), ws)
  {
    forall j | 0 <= j < |ws|
      ensures |Parts(ws)[j]| == ws[j]
    {
      DrawsPerBackend(ws, j);
    }
  }

  lemma InPart(ws: seq<int>, x: int, j: nat)
    requires j < |ws|
    ensures x in Parts(ws)[j] <==> 0 <= x < Sum(ws) && Chosen(ws, x) == j
  {}

  /** The pairs that pick i by the first draw, by the second, and by a repeated one. */
  ghost function ByFirst(vs: seq<View>, i: nat): set<(int, int)>
    requires i < |vs|
  {
    Pairs(Parts(Weights(vs))[i], Union(Parts(Weights(vs)), Losers(vs, i, true), |vs|))
  }

  ghost function BySecond(vs: seq<View>, i: nat): set<(int, int)>
    requires i < |vs|
  {
    Pairs(Union(Parts(Weights(vs)), Losers(vs, i, false), |vs|), Parts(Weights(vs))[i])
  }

  ghost function ByBoth(vs: seq<View>, i: nat): set<(int, int)> {
    Squares(Parts(Weights(vs)), Doubles(vs, i), |vs|)
  }

  lemma PairIn(vs: seq<View>, i: nat, x: int, y: int, a: nat, c: nat)
    requires |vs| >= 2 && i < |vs| && a < |vs| && c < |vs| && Apart(Parts(Weights(vs)))
    requires x in Parts(Weights(vs))[a] && y in Parts(Weights(vs))[c]
    ensures (x, y) in ByFirst(vs, i) <==> a == i && Loses(vs, i, true, c)
    ensures (x, y) in BySecond(vs, i) <==> c == i && Loses(vs, i, false, a)
    ensures (x, y) in ByBoth(vs, i) <==> a == c && WinsDouble(vs, i, a)
  {
    var parts := Parts(Weights(vs));
    UnionHas(parts, Losers(vs, i, true), |vs|, y, c);
    UnionHas(parts, Losers(vs, i, false), |vs|, x, a);
    SquaresHas(parts, Doubles(vs, i), |vs|, x, y, a);
  }

  /** The candidates that a pair in one of the three sets draws. */
  lemma PairDraws(vs: seq<View>, i: nat, p: (int, int)) returns (a: nat, c: nat)
    requires i < |vs| && Apart(Parts(Weights(vs)))
    requires p in ByFirst(vs, i) + BySecond(vs, i) + ByBoth(vs, i)
    ensures a < |vs| && c < |vs| && p.0 in Parts(Weights(vs))[a] && p.1 in Parts(Weights(vs))[c]
  {
    var parts := Parts(Weights(vs));
    if p in ByFirst(vs, i) {
      a := i;
      c := UnionWithin(parts, Losers(vs, i, true), |vs|, p.1);
    } else if p in BySecond(vs, i) {
      a := UnionWithin(parts, Losers(vs, i, false), |vs|, p.0);
      c := i;
    } else {
      a := SquaresWithin(parts, Doubles(vs, i), |vs|, p);
      SquaresHas(parts, Doubles(vs, i), |vs|, p.0, p.1, a);
      c := a;
    }
  }

  lemma DrawnPair(vs: seq<View>, i: nat, x: nat, y: nat)
    requires |vs| >= 2 && i < |vs| && Apart(Parts(Weights(vs)))
    requires x < Sum(Weights(vs)) && y < Sum(Weights(vs))
    ensures LessLoadedOfTwo(vs, x, y) == i <==> (x, y) in ByFirst(vs, i) + BySecond(vs, i) + ByBoth(vs, i)
    ensures !((x, y) in ByFirst(vs, i) && (x, y) in BySecond(vs, i))
    ensures !((x, y) in ByFirst(vs, i) + BySecond(vs, i) && (x, y) in ByBoth(vs, i))
  {
    var a, c := Chosen(Weights(vs), x), Chosen(Weights(vs), y);
    InPart(Weights(vs), x, a);
    InPart(Weights(vs), y, c);
    PairPicks(vs, i, x, y);
    PairIn(vs, i, x, y, a, c);
  }

  lemma OnlyDraws(vs: seq<View>, i: nat, p: (int, int))
    requires i < |vs| && Apart(Parts(Weights(vs)))
    requires p in ByFirst(vs, i) + BySecond(vs, i) + ByBoth(vs, i)
    ensures 0 <= p.0 < Sum(Weights(vs)) && 0 <= p.1 < Sum(Weights(vs))
  {
    var a, c := PairDraws(vs, i, p);
    InPart(Weights(vs), p.0, a);
    InPart(Weights(vs), p.1, c);
  }

  lemma PairSplit(vs: seq<View>, i: nat, p: (int, int))
    requires |vs| >= 2 && i < |vs| && Apart(Parts(Weights(vs)))
    ensures p in PairsFor(vs, i) <==> p in ByFirst(vs, i) + BySecond(vs, i) + ByBoth(vs, i)
    ensures !(p in ByFirst(vs, i) && p in BySecond(vs, i))
    ensures !(p in ByFirst(vs, i) + BySecond(vs, i) && p in ByBoth(vs, i))
  {
    var total := Sum(Weights(vs));
    if 0 <= p.0 < total && 0 <= p.1 < total {
      DrawnPair(vs, i, p.0, p.1);
    } else if p in ByFirst(vs, i) + BySecond(vs, i) + ByBoth(vs, i) {
      OnlyDraws(vs, i, p);
    }
  }

  /** A pair picks i by its first draw, by its second, or by a repeated one. */
  lemma PairsSplit(vs: seq<View>, i: nat)
    requires |vs| >= 2 && i < |vs| && Positive(Weights(vs))
    ensures PairsFor(vs, i) == ByFirst(vs, i) + BySecond(vs, i) + ByBoth(vs, i)
    ensures ByFirst(vs, i) !! BySecond(vs, i) && ByFirst(vs, i) + BySecond(vs, i) !! ByBoth(vs, i)
  {
    var ws := Weights(vs);
    PartsSized(ws);
    var first, second, both := ByFirst(vs, i), BySecond(vs, i), ByBoth(vs, i);
    forall p: (int, int)
      ensures p in PairsFor(vs, i) <==> p in first + second + both
      ensures !(p in first && p in second) && !(p in first + second && p in both)
    {
      PairSplit(vs, i, p);
    }
  }

  lemma Factored(w: int, a: int, b: int)
    ensures w * a + b * w == w * (a + b)
  {}

  /** Whatever the loads, this many of the total * total pairs of draws make pick return candidate i: Weight_i times
      what the others no less loaded weigh, Weight_i times what the more loaded weigh, and the repeated draws. */
  lemma PairsByLoad(vs: seq<View>, i: nat)
    requires |vs| >= 2 && i < |vs| && Positive(Weights(vs))
    ensures var ws, n := Weights(vs), |vs|;
            |PairsFor(vs, i)|
              == ws[i] * (Kept(ws, Losers(vs, i, true), n) + Kept(ws, Losers(vs, i, false), n))
                 + KeptSquares(ws, Doubles(vs, i), n)
  {
    var ws, n := Weights(vs), |vs|;
    var parts := Parts(ws);
    PartsSized(ws);
    UnionSize(parts, ws, Losers(vs, i, true), n);
    UnionSize(parts, ws, Losers(vs, i, false), n);
    PairsSize(parts[i], Union(parts, Losers(vs, i, true), n));
    PairsSize(Union(parts, Losers(vs, i, false), n), parts[i]);
    SquaresSize(parts, ws, Doubles(vs, i), n);
    PairsSplit(vs, i);
    Factored(ws[i], Kept(ws, Losers(vs, i, true), n), Kept(ws, Losers(vs, i, false), n));
  }

  ghost predicate EqualLoads(vs: seq<View>) {
    forall j, k :: 0 <= j < |vs| && 0 <= k < |vs| ==> vs[j].load == vs[k].load
  }

  lemma {:induction false} EqualShares(vs: seq<View>, i: nat, n: nat)
    requires |vs| >= 2 && i < |vs| && n <= |vs| && EqualLoads(vs)
    ensures var ws := Weights(vs);
            && Kept(ws, Losers(vs, i, true), n) == Prefix(ws, n) - (if i < n then ws[i] else 0)
            && Kept(ws, Losers(vs, i, false), n) == 0
            && KeptSquares(ws, Doubles(vs, i), n) == if i < n then ws[i] * ws[i] else 0
  {
    if n > 0 {
      EqualShares(vs, i, n - 1);
    }
  }

  /** With equal loads and at least two candidates, exactly Weight_i * total of the total * total pairs of
      draws make pick return backend i. */
  lemma PairsPerBackend(vs: seq<View>, i: nat)
    requires |vs| >= 2 && i < |vs| && Positive(Weights(vs)) && EqualLoads(vs)
    ensures var total := Sum(Weights(vs)); total >= 1 && |PairsFor(vs, i)| == vs[i].weight * total
  {
    var w, total := vs[i].weight, Sum(Weights(vs));
    PrefixGrows(Weights(vs), 0, |vs|);
    PairsByLoad(vs, i);
    EqualShares(vs, i, |vs|);
    Factored(w, total - w, w);
  }
}
