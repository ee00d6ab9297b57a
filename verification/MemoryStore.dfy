/** Eviction by a stable newest-first sort, on values. */
module Recency {
  /** Times are integers; 0 is Go's zero time. */
  datatype Entry = Entry(model: string, content: string, raw: string, createdAt: int)

  datatype MemEntry = MemEntry(vec: seq<real>, entry: Entry)

  function Time(e: MemEntry): int {
    e.entry.createdAt
  }

  /** x goes after everything at least as new. */
  function Insert(s: seq<MemEntry>, x: MemEntry): (r: seq<MemEntry>)
    ensures |r| == |s| + 1
  {
    var n := |s| - 1;
    if s == [] then [x]
    else if Time(s[n]) < Time(x) then Insert(s[..n], x) + [s[n]]
    else s + [x]
  }

  /** The stable newest-first order of a sequence of insertions. */
  function Sort(s: seq<MemEntry>): (r: seq<MemEntry>)
    ensures |r| == |s|
  {
    if s == [] then [] else Insert(Sort(s[..|s| - 1]), s[|s| - 1])
  }

  ghost predicate NewestFirst(s: seq<MemEntry>) {
    forall i, j :: 0 <= i < j < |s| ==> Time(s[i]) >= Time(s[j])
  }

  /** The entries of one instant, in order. */
  function AtTime(s: seq<MemEntry>, t: int): seq<MemEntry> {
    if s == [] then []
    else
      var n := |s| - 1;
      if Time(s[n]) == t then AtTime(s[..n], t) + [s[n]] else AtTime(s[..n], t)
  }

  /** A stable sort keeps the order of entries of the same instant, and loses none. */
  ghost predicate StablySorted(s: seq<MemEntry>, r: seq<MemEntry>) {
    NewestFirst(r) && forall t :: AtTime(r, t) == AtTime(s, t)
  }

  /** Inserting adds x and nothing else. */
  lemma {:induction false} InsertAdds(s: seq<MemEntry>, x: MemEntry)
    ensures multiset(Insert(s, x)) == multiset(s) + multiset{x}
  {
    var n := |s| - 1;
    if s != [] && Time(s[n]) < Time(x) {
      InsertAdds(s[..n], x);
      assert s == s[..n] + [s[n]];
    }
  }

  lemma InsertMember(s: seq<MemEntry>, x: MemEntry, i: nat)
    requires i <= |s|
    ensures Insert(s, x)[i] == x || Insert(s, x)[i] in s
  {
    InsertAdds(s, x);
    assert Insert(s, x)[i] in multiset(Insert(s, x));
  }

  lemma {:induction false} InsertSorted(s: seq<MemEntry>, x: MemEntry)
    requires NewestFirst(s)
    ensures NewestFirst(Insert(s, x)) && multiset(Insert(s, x)) == multiset(s) + multiset{x}
  {
    var n := |s| - 1;
    InsertAdds(s, x);
    if s != [] && Time(s[n]) < Time(x) {
      InsertSorted(s[..n], x);
      forall i | 0 <= i < |s|
        ensures Time(Insert(s[..n], x)[i]) >= Time(s[n])
      {
        InsertMember(s[..n], x, i);
      }
    }
  }

  /** Below the last entry's time nothing is that old; above the last inserted, the tail holds nothing that new. */
  lemma NothingThatNew(s: seq<MemEntry>, t: int)
    ensures s != [] && Time(s[|s| - 1]) != t ==> AtTime(s, t) == AtTime(s[..|s| - 1], t)
  {}

  lemma {:induction false} InsertStable(s: seq<MemEntry>, x: MemEntry, t: int)
    requires NewestFirst(s)
    ensures AtTime(Insert(s, x), t) == AtTime(s, t) + (if Time(x) == t then [x] else [])
  {
    var n := |s| - 1;
    if s != [] && Time(s[n]) < Time(x) {
      InsertStable(s[..n], x, t);
      assert Insert(s, x)[..n + 1] == Insert(s[..n], x);
      if Time(x) == t {
        NothingThatNew(s, t);
        NothingThatNew(s[..n], t);
      }
    } else {
      assert Insert(s, x)[..|s|] == s;
    }
  }

  lemma {:induction false} SortSorted(s: seq<MemEntry>)
    ensures NewestFirst(Sort(s)) && multiset(Sort(s)) == multiset(s)
  {
    if s != [] {
      var n := |s| - 1;
      SortSorted(s[..n]);
      InsertSorted(Sort(s[..n]), s[n]);
      assert s == s[..n] + [s[n]];
    }
  }

  lemma {:induction false} SortAtTime(s: seq<MemEntry>, t: int)
    ensures AtTime(Sort(s), t) == AtTime(s, t)
  {
    if s != [] {
      var n := |s| - 1;
      SortAtTime(s[..n], t);
      SortSorted(s[..n]);
      InsertStable(Sort(s[..n]), s[n], t);
    }
  }

  /** Sort is a stable newest-first sort. */
  lemma SortIsStable(s: seq<MemEntry>)
    ensures StablySorted(s, Sort(s)) && multiset(Sort(s)) == multiset(s)
  {
    SortSorted(s);
    forall t
      ensures AtTime(Sort(s), t) == AtTime(s, t)
    {
      SortAtTime(s, t);
    }
  }

  lemma {:induction false} AtTimeMembers(s: seq<MemEntry>, t: int)
    ensures AtTime(s, t) != [] <==> exists i :: 0 <= i < |s| && Time(s[i]) == t
    ensures s != [] && Time(s[|s| - 1]) == t ==> AtTime(s, t) != [] && AtTime(s, t)[|AtTime(s, t)| - 1] == s[|s| - 1]
  {
    if s != [] {
      AtTimeMembers(s[..|s| - 1], t);
    }
  }

  /** Stability and order leave no freedom: whatever algorithm sort.SliceStable uses, its result is this one. */
  lemma {:induction false} StableSortUnique(a: seq<MemEntry>, b: seq<MemEntry>)
    requires NewestFirst(a) && NewestFirst(b) && forall t :: AtTime(a, t) == AtTime(b, t)
    ensures a == b
    decreases |a|
  {
    if a != [] {
      var n := |a| - 1;
      var t := Time(a[n]);
      AtTimeMembers(a, t);
      AtTimeMembers(b, t);
      var m := |b| - 1;
      var t' := Time(b[m]);
      AtTimeMembers(b, t');
      AtTimeMembers(a, t');
      assert t == t';
      assert a[n] == b[m];
      forall u
        ensures AtTime(a[..n], u) == AtTime(b[..m], u)
      {
        assert AtTime(a, u) == AtTime(b, u);
        if u == t {
          assert AtTime(a, u)[..|AtTime(a, u)| - 1] == AtTime(a[..n], u);
          assert AtTime(b, u)[..|AtTime(b, u)| - 1] == AtTime(b[..m], u);
        }
      }
      StableSortUnique(a[..n], b[..m]);
    }
  }

  function Take(m: nat, s: seq<MemEntry>): seq<MemEntry> {
    if |s| <= m then s else s[..m]
  }

  // ---------------------------------------------------------------- streaming eviction

  /** Put: append, and over capacity sort and truncate. */
  function PutOne(m: nat, es: seq<MemEntry>, x: MemEntry): seq<MemEntry> {
    if |es + [x]| > m then Sort(es + [x])[..m] else es + [x]
  }

  /** The store after a history of Puts. */
  function Retained(m: nat, history: seq<MemEntry>): seq<MemEntry> {
    if history == [] then [] else PutOne(m, Retained(m, history[..|history| - 1]), history[|history| - 1])
  }

  lemma {:induction false} SortOfSorted(s: seq<MemEntry>)
    requires NewestFirst(s)
    ensures Sort(s) == s
  {
    if s != [] {
      SortOfSorted(s[..|s| - 1]);
    }
  }

  /** An insertion into a prefix agrees on what the prefix's length keeps. */
  lemma InsertPrefix(m: nat, s: seq<MemEntry>, x: MemEntry)
    requires NewestFirst(s) && m < |s|
    ensures Take(m, Insert(s[..|s| - 1], x)) == Take(m, Insert(s, x))
  {
    var n := |s| - 1;
    if Time(s[n]) < Time(x) {
      assert Insert(s, x)[..n + 1] == Insert(s[..n], x);
    } else {
      assert Insert(s[..n], x) == s[..n] + [x];
    }
  }

  lemma {:induction false} TakeInsert(m: nat, s: seq<MemEntry>, x: MemEntry)
    requires NewestFirst(s)
    ensures Take(m, Insert(Take(m, s), x)) == Take(m, Insert(s, x))
    decreases |s|
  {
    if |s| > m {
      var n := |s| - 1;
      assert Take(m, s[..n]) == Take(m, s);
      TakeInsert(m, s[..n], x);
      InsertPrefix(m, s, x);
    }
  }

  /** The store holds, up to order, the first maxSize entries of the stable newest-first sort of everything ever
      put, whatever the timestamps. */
  lemma {:induction false} RetainedIsTopOfHistory(m: nat, history: seq<MemEntry>)
    ensures var es := Retained(m, history); var top := Take(m, Sort(history));
            Sort(es) == top && multiset(es) == multiset(top)
  {
    var es := Retained(m, history);
    if history != [] {
      var n := |history| - 1;
      var before, x := Retained(m, history[..n]), history[n];
      RetainedIsTopOfHistory(m, history[..n]);
      SortIsStable(history[..n]);
      TakeInsert(m, Sort(history[..n]), x);
      assert (before + [x])[..|before|] == before;
      assert Sort(before + [x]) == Insert(Sort(before), x);
      SortIsStable(before + [x]);
      if |before + [x]| > m {
        assert NewestFirst(es);
        SortOfSorted(es);
      }
    }
    SortIsStable(es);
  }

  lemma OverflowSorts(m: nat, es: seq<MemEntry>, x: MemEntry)
    requires |es| >= m
    ensures NewestFirst(PutOne(m, es, x)) && |PutOne(m, es, x)| == m
  {
    SortIsStable(es + [x]);
  }

  lemma RoomAppends(m: nat, history: seq<MemEntry>)
    requires history != [] && |history| <= m && Retained(m, history[..|history| - 1]) == history[..|history| - 1]
    ensures Retained(m, history) == history
  {
    assert history == history[..|history| - 1] + [history[|history| - 1]];
  }

  /** In order too: a store that never overflowed holds its puts as they came; afterwards it is the head of the sort. */
  lemma {:induction false} RetainedExactly(m: nat, history: seq<MemEntry>)
    ensures Retained(m, history) == if |history| <= m then history else Sort(history)[..m]
  {
    if history != [] {
      var n := |history| - 1;
      RetainedExactly(m, history[..n]);
      if |history| <= m {
        RoomAppends(m, history);
      } else {
        OverflowSorts(m, Retained(m, history[..n]), history[n]);
        RetainedIsTopOfHistory(m, history);
        SortOfSorted(Retained(m, history));
      }
    }
  }

  lemma {:induction false} OldestLast(s: seq<MemEntry>, t: int)
    requires NewestFirst(s)
    ensures (exists e :: e in multiset(s) && Time(e) < t) <==> s != [] && Time(s[|s| - 1]) < t
  {
    if s != [] {
      assert s[|s| - 1] in multiset(s);
      forall e | e in multiset(s)
        ensures Time(e) >= Time(s[|s| - 1])
      {
        var i :| 0 <= i < |s| && s[i] == e;
      }
    }
  }

  lemma InsertFull(s: seq<MemEntry>, x: MemEntry)
    ensures Insert(s, x)[..|s|] == if s != [] && Time(s[|s| - 1]) < Time(x) then Insert(s[..|s| - 1], x) else s
  {}

  lemma WithoutLast(s: seq<MemEntry>)
    requires s != []
    ensures multiset(s[..|s| - 1]) == multiset(s) - multiset{s[|s| - 1]}
  {
    assert s == s[..|s| - 1] + [s[|s| - 1]];
  }

  lemma ReplaceLast(s: seq<MemEntry>, x: MemEntry)
    requires s != []
    ensures multiset(Insert(s[..|s| - 1], x)) == multiset(s) - multiset{s[|s| - 1]} + multiset{x}
  {
    InsertAdds(s[..|s| - 1], x);
    WithoutLast(s);
  }

  /** What a Put into a full store keeps. */
  lemma PutIntoFull(m: nat, es: seq<MemEntry>, x: MemEntry)
    requires |es| == m
    ensures NewestFirst(Sort(es)) && multiset(Sort(es)) == multiset(es)
    ensures m > 0 && Time(Sort(es)[m - 1]) < Time(x) ==>
              multiset(PutOne(m, es, x)) == multiset(es) - multiset{Sort(es)[m - 1]} + multiset{x}
    ensures !(m > 0 && Time(Sort(es)[m - 1]) < Time(x)) ==> multiset(PutOne(m, es, x)) == multiset(es)
  {
    SortIsStable(es);
    var s := Sort(es);
    assert (es + [x])[..m] == es;
    InsertFull(s, x);
    if m > 0 {
      ReplaceLast(s, x);
    }
  }

  /** Over capacity, the store stays as it was, up to order, exactly when no retained entry is strictly older than
      the newcomer. */
  lemma NewcomerEvictedIff(m: nat, es: seq<MemEntry>, x: MemEntry)
    requires |es| == m
    ensures multiset(PutOne(m, es, x)) == multiset(es) <==> forall e :: e in multiset(es) ==> Time(e) >= Time(x)
  {
    PutIntoFull(m, es, x);
    var s := Sort(es);
    OldestLast(s, Time(x));
    if m > 0 && Time(s[m - 1]) < Time(x) {
      var last := s[m - 1];
      assert last in multiset(es) && last != x;
      assert multiset(PutOne(m, es, x))[x] == multiset(es)[x] + 1;
    }
  }
}

/** The in-process store and its exact nearest-neighbour scan. */
module MemoryStore {
  import opened Collections
  import opened Recency
  import opened Vectors

  /** cosineDot: vectors of different dimension are as far apart as can be. */
  function Similarity(a: seq<real>, b: seq<real>): real {
    if |a| != |b| then -1.0 else Dot(a, b)
  }

  predicate Fresh(e: MemEntry, freshUntil: int) {
    Time(e) >= freshUntil
  }

  /** What a lookup sees: the best similarity among fresh entries, -1 if none is better. */
  ghost predicate IsBest(es: seq<MemEntry>, vec: seq<real>, freshUntil: int, sim: real) {
    && sim >= -1.0
    && (forall i :: 0 <= i < |es| && Fresh(es[i], freshUntil) ==> Similarity(vec, es[i].vec) <= sim)
    && (sim > -1.0 ==> exists i :: 0 <= i < |es| && Fresh(es[i], freshUntil) && Similarity(vec, es[i].vec) == sim)
  }

  /** The first fresh entry of that similarity. */
  ghost predicate FirstAtBest(es: seq<MemEntry>, vec: seq<real>, freshUntil: int, sim: real, i: nat) {
    && i < |es| && Fresh(es[i], freshUntil) && Similarity(vec, es[i].vec) == sim
    && forall j :: 0 <= j < i && Fresh(es[j], freshUntil) ==> Similarity(vec, es[j].vec) < sim
  }

  /** What a scan with this threshold returns: its best similarity, and on a hit the first entry that attains it. */
  ghost predicate AnswersWith(es: seq<MemEntry>, vec: seq<real>, freshUntil: int, threshold: real,
                              hit: Option<Entry>, sim: real) {
    && IsBest(es, vec, freshUntil, sim)
    && (hit.Some? <==> sim > -1.0 && sim >= threshold)
    && (hit.Some? ==> exists i: nat :: FirstAtBest(es, vec, freshUntil, sim, i) && hit.value == es[i].entry)
  }

  ghost predicate Answers(es: seq<MemEntry>, vec: seq<real>, freshUntil: int, threshold: real, hit: Option<Entry>) {
    exists sim :: AnswersWith(es, vec, freshUntil, threshold, hit, sim)
  }

  const DEFAULT_SIZE := 10_000

  class MemoryStore {
    var entries: seq<MemEntry>
    const maxSize: nat

    constructor (maxSize: int)
      ensures entries == [] && this.maxSize == if maxSize > 0 then maxSize else 10_000
    {
      entries := [];
      this.maxSize := if maxSize <= 0 then DEFAULT_SIZE else maxSize;
    }

    method Put(vec: seq<real>, entry: Entry)
      modifies this
      ensures entries == PutOne(maxSize, old(entries), MemEntry(vec, entry))
    {
      entries := entries + [MemEntry(vec, entry)];
      if |entries| > maxSize {
        entries := Sort(entries);
        entries := entries[..maxSize];
      }
    }

    method CosineDot(a: seq<real>, b: seq<real>) returns (s: real)
      ensures s == Similarity(a, b)
      ensures s == if |a| == |b| then Dot(a, b) else -1.0
    {
      if |a| != |b| {
        return -1.0;
      }
      s := 0.0;
      for i := 0 to |a|
        invariant s == Dot(a[..i], b[..i])
      {
        assert a[..i + 1][..i] == a[..i] && b[..i + 1][..i] == b[..i];
        s := s + a[i] * b[i];
      }
      assert a[..|a|] == a && b[..|b|] == b;
    }

    method Nearest(vec: seq<real>, threshold: real, freshUntil: int) returns (hit: Option<Entry>, sim: real)
      ensures AnswersWith(entries, vec, freshUntil, threshold, hit, sim)
      ensures hit.Some? ==> hit.value.createdAt >= freshUntil
      ensures hit.Some? ==>
        exists e :: e in entries && e.entry == hit.value && |e.vec| == |vec| && Dot(vec, e.vec) == sim
    {
      sim := -1.0;
      hit := None;
      ghost var at: nat := 0;
      for i := 0 to |entries|
        invariant IsBest(entries[..i], vec, freshUntil, sim)
        invariant hit.Some? <==> sim > -1.0
        invariant hit.Some? ==> FirstAtBest(entries[..i], vec, freshUntil, sim, at) && hit.value == entries[at].entry
      {
        var e := entries[i];
        if !(Time(e) < freshUntil) {
          var s := CosineDot(vec, e.vec);
          if s > sim {
            sim, hit, at := s, Some(e.entry), i;
            assert entries[..i + 1][at] == e;
          }
        }
        assert entries[..i + 1] == entries[..i] + [e];
      }
      assert entries[..|entries|] == entries;
      if hit == None || sim < threshold {
        hit := None;
      }
    }
  }

  /** There is only one best similarity. */
  lemma BestUnique(es: seq<MemEntry>, vec: seq<real>, freshUntil: int, s1: real, s2: real)
    requires IsBest(es, vec, freshUntil, s1) && IsBest(es, vec, freshUntil, s2)
    ensures s1 == s2
  {}

  // ---------------------------------------------------------------- expired entries

  /** The entries created at freshUntil or later, in order. */
  function Unexpired(es: seq<MemEntry>, freshUntil: int): seq<MemEntry> {
    if es == [] then []
    else
      var n := |es| - 1;
      Unexpired(es[..n], freshUntil) + (if es[n].entry.createdAt >= freshUntil then [es[n]] else [])
  }

  /** The scan, entry by entry. */
  function Scan(es: seq<MemEntry>, vec: seq<real>, freshUntil: int): (Option<Entry>, real) {
    if es == [] then (None, -1.0)
    else
      var n := |es| - 1;
      var (best, sim) := Scan(es[..n], vec, freshUntil);
      var s := Similarity(vec, es[n].vec);
      if Fresh(es[n], freshUntil) && s > sim then (Some(es[n].entry), s) else (best, sim)
  }

  ghost predicate HasFirst(es: seq<MemEntry>, vec: seq<real>, freshUntil: int, sim: real, entry: Entry) {
    exists i: nat :: FirstAtBest(es, vec, freshUntil, sim, i) && entry == es[i].entry
  }

  lemma FirstInMore(es: seq<MemEntry>, x: MemEntry, vec: seq<real>, freshUntil: int, sim: real, entry: Entry)
    requires HasFirst(es, vec, freshUntil, sim, entry)
    ensures HasFirst(es + [x], vec, freshUntil, sim, entry)
  {
    var i: nat :| FirstAtBest(es, vec, freshUntil, sim, i) && entry == es[i].entry;
    assert FirstAtBest(es + [x], vec, freshUntil, sim, i);
  }

  lemma LastIsFirst(es: seq<MemEntry>, x: MemEntry, vec: seq<real>, freshUntil: int, sim: real)
    requires IsBest(es, vec, freshUntil, sim) && Fresh(x, freshUntil) && Similarity(vec, x.vec) > sim
    ensures IsBest(es + [x], vec, freshUntil, Similarity(vec, x.vec))
    ensures HasFirst(es + [x], vec, freshUntil, Similarity(vec, x.vec), x.entry)
  {
    assert (es + [x])[|es|] == x;
    assert FirstAtBest(es + [x], vec, freshUntil, Similarity(vec, x.vec), |es|);
  }

  lemma {:induction false} ScanFinds(es: seq<MemEntry>, vec: seq<real>, freshUntil: int)
    ensures var (best, sim) := Scan(es, vec, freshUntil);
            && IsBest(es, vec, freshUntil, sim) && (best.Some? <==> sim > -1.0)
            && (best.Some? ==> HasFirst(es, vec, freshUntil, sim, best.value))
  {
    if es != [] {
      var n := |es| - 1;
      var (best, sim) := Scan(es[..n], vec, freshUntil);
      ScanFinds(es[..n], vec, freshUntil);
      assert es == es[..n] + [es[n]];
      if Fresh(es[n], freshUntil) && Similarity(vec, es[n].vec) > sim {
        LastIsFirst(es[..n], es[n], vec, freshUntil, sim);
      } else if best.Some? {
        FirstInMore(es[..n], es[n], vec, freshUntil, sim, best.value);
      }
    }
  }

  lemma FirstUnique(es: seq<MemEntry>, vec: seq<real>, freshUntil: int, sim: real, x: Entry, y: Entry)
    requires HasFirst(es, vec, freshUntil, sim, x) && HasFirst(es, vec, freshUntil, sim, y)
    ensures x == y
  {
    var i: nat :| FirstAtBest(es, vec, freshUntil, sim, i) && x == es[i].entry;
    var j: nat :| FirstAtBest(es, vec, freshUntil, sim, j) && y == es[j].entry;
    assert i == j;
  }

  lemma {:induction false} ScanUnexpired(es: seq<MemEntry>, vec: seq<real>, freshUntil: int)
    ensures Scan(Unexpired(es, freshUntil), vec, freshUntil) == Scan(es, vec, freshUntil)
  {
    if es != [] {
      var n := |es| - 1;
      var before := Unexpired(es[..n], freshUntil);
      ScanUnexpired(es[..n], vec, freshUntil);
      assert (before + [es[n]])[..|before|] == before;
      assert before + [] == before;
    }
  }

  /** There is one answer, that of the scan. */
  lemma AnswerIsScan(es: seq<MemEntry>, vec: seq<real>, freshUntil: int, threshold: real, hit: Option<Entry>, sim: real)
    requires AnswersWith(es, vec, freshUntil, threshold, hit, sim)
    ensures var (best, s) := Scan(es, vec, freshUntil); sim == s && hit == if s >= threshold then best else None
  {
    var (best, s) := Scan(es, vec, freshUntil);
    ScanFinds(es, vec, freshUntil);
    BestUnique(es, vec, freshUntil, sim, s);
    if hit.Some? {
      assert HasFirst(es, vec, freshUntil, sim, hit.value);
      FirstUnique(es, vec, freshUntil, sim, hit.value, best.value);
    }
  }

  /** Expired entries play no part: stores that hold the same unexpired entries give the same answer, however many
      entries created before freshUntil either holds besides. */
  lemma ExpiredIrrelevant(a: seq<MemEntry>, b: seq<MemEntry>, vec: seq<real>, freshUntil: int, threshold: real,
                          hitA: Option<Entry>, simA: real, hitB: Option<Entry>, simB: real)
    requires Unexpired(a, freshUntil) == Unexpired(b, freshUntil)
    requires AnswersWith(a, vec, freshUntil, threshold, hitA, simA)
    requires AnswersWith(b, vec, freshUntil, threshold, hitB, simB)
    ensures hitA == hitB && simA == simB
    ensures hitA.Some? ==> hitA.value.createdAt >= freshUntil
  {
    AnswerIsScan(a, vec, freshUntil, threshold, hitA, simA);
    AnswerIsScan(b, vec, freshUntil, threshold, hitB, simB);
    ScanUnexpired(a, vec, freshUntil);
    ScanUnexpired(b, vec, freshUntil);
  }

  // ---------------------------------------------------------------- eviction hides nothing fresh

  function CountFresh(s: seq<MemEntry>, freshUntil: int): nat {
    if s == [] then 0
    else
      var n := |s| - 1;
      CountFresh(s[..n], freshUntil) + (if Fresh(s[n], freshUntil) then 1 else 0)
  }

  lemma {:induction false} CountFreshInsert(s: seq<MemEntry>, x: MemEntry, freshUntil: int)
    ensures CountFresh(Insert(s, x), freshUntil) == CountFresh(s, freshUntil) + (if Fresh(x, freshUntil) then 1 else 0)
  {
    var n := |s| - 1;
    if s != [] && Time(s[n]) < Time(x) {
      CountFreshInsert(s[..n], x, freshUntil);
      assert Insert(s, x)[..n + 1] == Insert(s[..n], x);
    } else {
      assert Insert(s, x)[..|s|] == s;
    }
  }

  lemma {:induction false} CountFreshSort(s: seq<MemEntry>, freshUntil: int)
    ensures CountFresh(Sort(s), freshUntil) == CountFresh(s, freshUntil)
  {
    if s != [] {
      CountFreshSort(s[..|s| - 1], freshUntil);
      CountFreshInsert(Sort(s[..|s| - 1]), s[|s| - 1], freshUntil);
    }
  }

  lemma {:induction false} CountFreshPrefix(s: seq<MemEntry>, freshUntil: int, k: nat)
    requires k <= |s| && forall i :: 0 <= i < k ==> Fresh(s[i], freshUntil)
    ensures CountFresh(s, freshUntil) >= k
    decreases |s|
  {
    if s != [] {
      CountFreshPrefix(s[..|s| - 1], freshUntil, if k == |s| then k - 1 else k);
    }
  }

  /** In a newest-first sequence the fresh entries come first. */
  lemma FreshInTop(m: nat, s: seq<MemEntry>, freshUntil: int, i: nat)
    requires NewestFirst(s) && i < |s| && Fresh(s[i], freshUntil) && CountFresh(s, freshUntil) <= m
    ensures s[i] in Take(m, s)
  {
    CountFreshPrefix(s, freshUntil, i + 1);
    assert Take(m, s)[i] == s[i];
  }

  lemma SameMembers(a: seq<MemEntry>, b: seq<MemEntry>, e: MemEntry)
    requires multiset(a) == multiset(b)
    ensures e in a <==> e in b
  {
    assert e in a <==> e in multiset(a);
    assert e in b <==> e in multiset(b);
  }

  /** When at most maxSize entries of the history are fresh, the store still holds every one of them. */
  lemma FreshKept(m: nat, history: seq<MemEntry>, freshUntil: int, e: MemEntry)
    requires CountFresh(history, freshUntil) <= m && Fresh(e, freshUntil)
    ensures e in Retained(m, history) <==> e in history
  {
    var s := Sort(history);
    RetainedIsTopOfHistory(m, history);
    SortIsStable(history);
    CountFreshSort(history, freshUntil);
    SameMembers(Retained(m, history), Take(m, s), e);
    SameMembers(history, s, e);
    if e in s {
      var i: nat :| i < |s| && s[i] == e;
      FreshInTop(m, s, freshUntil, i);
    }
  }

  lemma BestByMembership(a: seq<MemEntry>, b: seq<MemEntry>, vec: seq<real>, freshUntil: int, sim: real)
    requires forall e :: Fresh(e, freshUntil) ==> (e in a <==> e in b)
    ensures IsBest(a, vec, freshUntil, sim) ==> IsBest(b, vec, freshUntil, sim)
  {
    if IsBest(a, vec, freshUntil, sim) {
      forall i | 0 <= i < |b| && Fresh(b[i], freshUntil)
        ensures Similarity(vec, b[i].vec) <= sim
      {
        assert b[i] in a;
      }
      if sim > -1.0 {
        var i :| 0 <= i < |a| && Fresh(a[i], freshUntil) && Similarity(vec, a[i].vec) == sim;
        assert a[i] in b;
      }
    }
  }

  /** Then a lookup in the store answers as a scan of everything ever put: the same best similarity, hence the
      same hit or miss. */
  lemma LookupIsFullScan(m: nat, history: seq<MemEntry>, vec: seq<real>, freshUntil: int, sim: real)
    requires CountFresh(history, freshUntil) <= m
    ensures IsBest(Retained(m, history), vec, freshUntil, sim) <==> IsBest(history, vec, freshUntil, sim)
  {
    forall e | Fresh(e, freshUntil)
      ensures e in Retained(m, history) <==> e in history
    {
      FreshKept(m, history, freshUntil, e);
    }
    BestByMembership(Retained(m, history), history, vec, freshUntil, sim);
    BestByMembership(history, Retained(m, history), vec, freshUntil, sim);
  }

  lemma FirstOfEquals(es: seq<MemEntry>, vec: seq<real>, freshUntil: int, sim: real, i: nat, e: MemEntry)
    requires FirstAtBest(es, vec, freshUntil, sim, i)
    requires e in es && Fresh(e, freshUntil) && Similarity(vec, e.vec) == sim
    ensures e !in es[..i] && (NewestFirst(es) ==> Time(es[i]) >= Time(e))
  {
    var j :| 0 <= j < |es| && es[j] == e;
    assert j >= i;
  }

  /** Of equally similar entries the first put answers while the store has not overflowed, and afterwards one that none
      of the others is newer than. */
  lemma TieBreak(m: nat, history: seq<MemEntry>, vec: seq<real>, freshUntil: int, sim: real, i: nat, e: MemEntry)
    requires FirstAtBest(Retained(m, history), vec, freshUntil, sim, i)
    requires e in Retained(m, history) && Fresh(e, freshUntil) && Similarity(vec, e.vec) == sim
    ensures |history| <= m ==> i < |history| && history[i] == Retained(m, history)[i] && e !in history[..i]
    ensures |history| > m ==> Time(Retained(m, history)[i]) >= Time(e)
  {
    RetainedExactly(m, history);
    FirstOfEquals(Retained(m, history), vec, freshUntil, sim, i, e);
    SortIsStable(history);
  }
}
