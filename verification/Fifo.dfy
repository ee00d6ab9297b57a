/** When eviction is first-in first-out, as the store's comment calls it. */
module Fifo {
  import opened Collections
  import opened Recency

  /** What first-in first-out eviction keeps: the last m puts. */
  function Latest(m: nat, h: seq<MemEntry>): seq<MemEntry> {
    if |h| <= m then h else h[|h| - m..]
  }

  /** The store holds the last m puts, up to order. */
  ghost predicate IsFifo(m: nat, h: seq<MemEntry>) {
    multiset(Retained(m, h)) == multiset(Latest(m, h))
  }

  /** Everything first-in first-out evicts is strictly older than everything it keeps. */
  ghost predicate EvictedAreOlder(m: nat, h: seq<MemEntry>) {
    forall i, j :: 0 <= i < |h| - m <= j < |h| ==> Time(h[i]) < Time(h[j])
  }

  // ---------------------------------------------------------------- older entries sort behind

  lemma {:induction false} AtTimeAppend(a: seq<MemEntry>, b: seq<MemEntry>, t: int)
    ensures AtTime(a + b, t) == AtTime(a, t) + AtTime(b, t)
  {
    if b == [] {
      assert a + b == a;
    } else {
      var n := |b| - 1;
      assert (a + b)[..|a| + n] == a + b[..n];
      AtTimeAppend(a, b[..n], t);
    }
  }

  ghost predicate AllOlder(a: seq<MemEntry>, b: seq<MemEntry>) {
    forall i, j :: 0 <= i < |a| && 0 <= j < |b| ==> Time(a[i]) < Time(b[j])
  }

  lemma OneSideAtTime(a: seq<MemEntry>, b: seq<MemEntry>, t: int)
    requires AllOlder(a, b)
    ensures AtTime(a, t) == [] || AtTime(b, t) == []
  {
    AtTimeMembers(a, t);
    AtTimeMembers(b, t);
  }

  lemma SortedMembers(s: seq<MemEntry>, i: nat) returns (k: nat)
    requires i < |s|
    ensures k < |s| && Sort(s)[i] == s[k]
  {
    SortIsStable(s);
    assert Sort(s)[i] in multiset(s);
    k :| 0 <= k < |s| && s[k] == Sort(s)[i];
  }

  lemma SortedApart(a: seq<MemEntry>, b: seq<MemEntry>)
    requires AllOlder(a, b)
    ensures NewestFirst(Sort(b) + Sort(a))
  {
    SortIsStable(a);
    SortIsStable(b);
    forall i, j | 0 <= i < |a| && 0 <= j < |b|
      ensures Time(Sort(a)[i]) < Time(Sort(b)[j])
    {
      var p := SortedMembers(a, i);
      var q := SortedMembers(b, j);
    }
  }

  lemma AtTimeSwaps(a: seq<MemEntry>, b: seq<MemEntry>, a': seq<MemEntry>, b': seq<MemEntry>, t: int)
    requires AllOlder(a, b) && AtTime(a', t) == AtTime(a, t) && AtTime(b', t) == AtTime(b, t)
    ensures AtTime(b' + a', t) == AtTime(a + b, t)
  {
    AtTimeAppend(b', a', t);
    AtTimeAppend(a, b, t);
    OneSideAtTime(a, b, t);
  }

  lemma SortOlderFirst(a: seq<MemEntry>, b: seq<MemEntry>)
    requires AllOlder(a, b)
    ensures Sort(a + b) == Sort(b) + Sort(a)
  {
    SortIsStable(a);
    SortIsStable(b);
    SortIsStable(a + b);
    SortedApart(a, b);
    forall t
      ensures AtTime(Sort(b) + Sort(a), t) == AtTime(a + b, t)
    {
      AtTimeSwaps(a, b, Sort(a), Sort(b), t);
    }
    StableSortUnique(Sort(a + b), Sort(b) + Sort(a));
  }

  lemma FifoWhenOlder(m: nat, h: seq<MemEntry>)
    requires EvictedAreOlder(m, h)
    ensures IsFifo(m, h)
  {
    RetainedIsTopOfHistory(m, h);
    SortIsStable(h);
    if |h| > m {
      var a, b := h[..|h| - m], h[|h| - m..];
      assert h == a + b;
      SortOlderFirst(a, b);
      SortIsStable(b);
      assert (Sort(b) + Sort(a))[..m] == Sort(b);
    }
  }

  /** Strictly increasing timestamps are enough. */
  lemma FifoWhenIncreasing(m: nat, h: seq<MemEntry>)
    requires forall i, j :: 0 <= i < j < |h| ==> Time(h[i]) < Time(h[j])
    ensures IsFifo(m, h)
  {
    FifoWhenOlder(m, h);
  }

  // ---------------------------------------------------------------- equal times keep their order

  lemma {:induction false} AtTimeHas(s: seq<MemEntry>, t: int, e: MemEntry)
    ensures e in AtTime(s, t) <==> e in s && Time(e) == t
  {
    if s != [] {
      var n := |s| - 1;
      AtTimeHas(s[..n], t, e);
      assert e in s <==> e in s[..n] || e == s[n];
    }
  }

  lemma {:induction false} AtTimeDistinct(s: seq<MemEntry>, t: int)
    requires Distinct(s)
    ensures Distinct(AtTime(s, t))
  {
    if s != [] {
      var n := |s| - 1;
      AtTimeDistinct(s[..n], t);
      AtTimeHas(s[..n], t, s[n]);
      assert s[n] !in s[..n];
    }
  }

  /** Where an entry stands among those of its instant: behind those before it, ahead of those after. */
  lemma AtTimeOrder(s: seq<MemEntry>, p: nat, q: nat, t: int) returns (k: nat)
    requires p < q < |s| && Time(s[p]) == t && Time(s[q]) == t
    ensures k <= |AtTime(s, t)| && s[p] in AtTime(s, t)[..k] && s[q] in AtTime(s, t)[k..]
  {
    var a, b := s[..q], s[q..];
    assert s == a + b;
    AtTimeAppend(a, b, t);
    assert a[p] == s[p] && b[0] == s[q];
    AtTimeHas(a, t, s[p]);
    AtTimeHas(b, t, s[q]);
    k := |AtTime(a, t)|;
    assert AtTime(s, t)[..k] == AtTime(a, t) && AtTime(s, t)[k..] == AtTime(b, t);
  }

  /** In a sequence without repetition two elements cannot stand both ways round. */
  lemma OneOrder(s: seq<MemEntry>, x: MemEntry, y: MemEntry, j: nat, k: nat)
    requires Distinct(s) && j <= |s| && k <= |s|
    requires x in s[..j] && y in s[j..] && y in s[..k]
    ensures x !in s[k..]
  {}

  lemma SortKeepsOrder(h: seq<MemEntry>, i: nat, j: nat, p: nat, q: nat)
    requires Distinct(h) && i < j < |h| && Time(h[i]) == Time(h[j])
    requires p < |h| && q < |h| && Sort(h)[p] == h[j] && Sort(h)[q] == h[i]
    ensures q < p
  {
    var t := Time(h[i]);
    SortIsStable(h);
    if p == q {
      assert false;
    } else if p < q {
      var k := AtTimeOrder(h, i, j, t);
      var k' := AtTimeOrder(Sort(h), p, q, t);
      AtTimeDistinct(h, t);
      assert AtTime(Sort(h), t) == AtTime(h, t);
      OneOrder(AtTime(h, t), h[i], h[j], k, k');
      assert false;
    }
  }

  lemma TopKeepsNewer(m: nat, h: seq<MemEntry>, i: nat, j: nat)
    requires Distinct(h) && i < j < |h| && m < |h|
    requires h[j] in Sort(h)[..m] && h[i] !in Sort(h)[..m]
    ensures Time(h[i]) < Time(h[j])
  {
    SortIsStable(h);
    var p :| 0 <= p < m && Sort(h)[p] == h[j];
    assert h[i] in multiset(h);
    assert h[i] in multiset(Sort(h));
    var q :| 0 <= q < |h| && Sort(h)[q] == h[i];
    assert q >= m;
    if Time(h[i]) == Time(h[j]) {
      SortKeepsOrder(h, i, j, p, q);
    }
  }

  lemma OlderWhenFifo(m: nat, h: seq<MemEntry>)
    requires Distinct(h) && IsFifo(m, h)
    ensures EvictedAreOlder(m, h)
  {
    RetainedIsTopOfHistory(m, h);
    SortIsStable(h);
    if |h| > m {
      var top, last := Sort(h)[..m], h[|h| - m..];
      assert multiset(top) == multiset(last);
      forall i, j | 0 <= i < |h| - m <= j < |h|
        ensures Time(h[i]) < Time(h[j])
      {
        assert last[j - (|h| - m)] == h[j];
        assert h[j] in multiset(last) && h[i] !in last;
        assert h[j] in multiset(top) && h[i] !in multiset(top);
        TopKeepsNewer(m, h, i, j);
      }
    }
  }

  /** Eviction is first-in first-out on a history if and only if all that is evicted is strictly older than all
      that is kept. */
  lemma FifoIff(m: nat, h: seq<MemEntry>)
    requires Distinct(h)
    ensures IsFifo(m, h) <==> EvictedAreOlder(m, h)
  {
    if IsFifo(m, h) {
      OlderWhenFifo(m, h);
    } else if EvictedAreOlder(m, h) {
      FifoWhenOlder(m, h);
    }
  }

  /** After every single Put of a history the store holds its last m puts. */
  ghost predicate FifoThroughout(m: nat, h: seq<MemEntry>) {
    forall n :: 0 <= n <= |h| ==> IsFifo(m, h[..n])
  }

  /** Timestamps increase, except that the last m puts may come in any order among themselves. */
  ghost predicate IncreasesUpToLast(m: nat, h: seq<MemEntry>) {
    forall i, j :: 0 <= i < j < |h| && i + m < |h| ==> Time(h[i]) < Time(h[j])
  }

  lemma PrefixDistinct(h: seq<MemEntry>, n: nat)
    requires Distinct(h) && n <= |h|
    ensures Distinct(h[..n])
  {}

  /** It does so throughout a history if and only if the timestamps increase, but for the last m puts among
      themselves. */
  lemma FifoThroughoutIff(m: nat, h: seq<MemEntry>)
    requires Distinct(h) && m >= 1
    ensures FifoThroughout(m, h) <==> IncreasesUpToLast(m, h)
  {
    if FifoThroughout(m, h) {
      forall i, j | 0 <= i < j < |h| && i + m < |h|
        ensures Time(h[i]) < Time(h[j])
      {
        var n := if j > i + m then j + 1 else i + m + 1;
        PrefixDistinct(h, n);
        assert IsFifo(m, h[..n]);
        FifoIff(m, h[..n]);
        assert h[..n][i] == h[i] && h[..n][j] == h[j];
      }
    }
    if IncreasesUpToLast(m, h) {
      forall n | 0 <= n <= |h|
        ensures IsFifo(m, h[..n])
      {
        FifoWhenOlder(m, h[..n]);
      }
    }
  }

  lemma ThreePuts(x: MemEntry, y: MemEntry, z: MemEntry)
    requires Time(y) < Time(x) < Time(z)
    ensures Retained(2, [x, y, z]) == [z, x]
  {
    assert [x, y, z][..2] == [x, y] && [x, y][..1] == [x] && [x][..0] == [];
    assert Retained(2, [x]) == [x] && Retained(2, [x, y]) == [x, y];
    assert Retained(2, [x, y, z]) == PutOne(2, [x, y], z) && [x, y] + [z] == [x, y, z];
    assert Sort([x]) == [x] && Sort([x, y]) == [x, y];
    assert Insert([x, y], z) == Insert([x], z) + [y] && Insert([x], z) == [z, x];
  }

  /** Two entries and a third that is the newest of all: the second, though put after the first, is the one
      evicted. */
  lemma SecondEvicted(x: MemEntry, y: MemEntry, z: MemEntry)
    requires Time(x) == 5 && Time(y) == 3 && Time(z) == 7
    ensures Retained(2, [x, y, z]) == [z, x] && !IsFifo(2, [x, y, z])
  {
    var h := [x, y, z];
    ThreePuts(x, y, z);
    assert h[0] == x && h[1] == y && !EvictedAreOlder(2, h);
    FifoIff(2, h);
  }
}
