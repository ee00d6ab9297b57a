/** The semantic cache: an embedder, a store, a threshold and a lifetime. */
module Cache {
  import opened Collections
  import opened Tokenizer
  import opened Text
  import opened Vectors
  import opened Embedder
  import opened Recency
  import opened MemoryStore

  ghost predicate AllNormal(es: seq<MemEntry>) {
    forall i :: 0 <= i < |es| ==> Dot(es[i].vec, es[i].vec) <= 1.0
  }

  /** Store stamps an entry that has no time yet. */
  function Stamped(entry: Entry, now: int): Entry {
    if entry.createdAt == 0 then entry.(createdAt := now) else entry
  }

  lemma PutNormal(m: nat, es: seq<MemEntry>, x: MemEntry)
    requires AllNormal(es) && Dot(x.vec, x.vec) <= 1.0
    ensures AllNormal(PutOne(m, es, x))
  {
    SortIsStable(es + [x]);
    var r := PutOne(m, es, x);
    forall i | 0 <= i < |r|
      ensures Dot(r[i].vec, r[i].vec) <= 1.0
    {
      assert Sort(es + [x])[i] in multiset(es + [x]) || r == es + [x];
      assert r[i] in es + [x];
    }
  }

  class Cache {
    const emb: HashingEmbedder
    const store: MemoryStore?
    const threshold: real
    const ttl: int

    ghost predicate Valid()
      reads store
    {
      emb.dim >= 1 && (store != null ==> AllNormal(store.entries))
    }

    constructor (emb: HashingEmbedder, store: MemoryStore?, threshold: real, ttl: int)
      requires emb.dim >= 1 && (store != null ==> AllNormal(store.entries))
      ensures Valid() && this.emb == emb && this.store == store && this.threshold == threshold && this.ttl == ttl
    {
      this.emb, this.store, this.threshold, this.ttl := emb, store, threshold, ttl;
    }

    /** Only the vector, the times and the threshold decide: the model name is not consulted. */
    method Lookup(prompt: string, norm: real, now: int) returns (hit: Option<Entry>)
      requires Valid() && IsNorm(Counts(Tokens(prompt), emb.dim), norm)
      ensures store == null ==> hit == None
      ensures store != null ==>
        Answers(store.entries, Unit(Counts(Tokens(prompt), emb.dim), norm), now - ttl, threshold, hit)
      ensures hit.Some? ==> now <= hit.value.createdAt + ttl
    {
      if store == null {
        return None;
      }
      var vec := emb.Embed(prompt, norm);
      var freshUntil := now - ttl;
      var sim;
      hit, sim := store.Nearest(vec, threshold, freshUntil);
      assert AnswersWith(store.entries, vec, freshUntil, threshold, hit, sim);
    }

    method Store(prompt: string, entry: Entry, norm: real, now: int)
      requires Valid() && IsNorm(Counts(Tokens(prompt), emb.dim), norm)
      modifies store
      ensures Valid()
      ensures store != null ==>
        store.entries == PutOne(store.maxSize, old(store.entries),
                                MemEntry(Unit(Counts(Tokens(prompt), emb.dim), norm), Stamped(entry, now)))
    {
      if store == null {
        return;
      }
      var entry' := entry;
      if entry'.createdAt == 0 {
        entry' := entry'.(createdAt := now);
      }
      var vec := emb.Embed(prompt, norm);
      UnitLength(Counts(Tokens(prompt), emb.dim), norm);
      PutNormal(store.maxSize, store.entries, MemEntry(vec, entry'));
      store.Put(vec, entry');
    }
  }

  /** Prompts with the same words, whatever their order and messages, have the same vector. */
  lemma SameWordsSameVector(a: seq<Message>, b: seq<Message>, dim: nat, na: real, nb: real)
    requires dim >= 1 && multiset(MessageTokens(a)) == multiset(MessageTokens(b))
    requires IsNorm(Counts(Tokens(TrimSpace(Flat(a))), dim), na)
    requires IsNorm(Counts(Tokens(TrimSpace(Flat(b))), dim), nb)
    ensures Unit(Counts(Tokens(TrimSpace(Flat(a))), dim), na) == Unit(Counts(Tokens(TrimSpace(Flat(b))), dim), nb)
    ensures na == nb
  {
    PromptTokens(a);
    PromptTokens(b);
    CountsOfBag(MessageTokens(a), MessageTokens(b), dim);
    NormUnique(Counts(MessageTokens(a), dim), na, nb);
  }

  /** A fresh entry stored under the query's own nonzero vector makes the lookup hit at any threshold up to one,
      at the largest similarity there can be, with an entry stored under that very vector. */
  lemma ExactVectorHits(es: seq<MemEntry>, vec: seq<real>, freshUntil: int, threshold: real, hit: Option<Entry>, k: nat)
    requires AllNormal(es) && Dot(vec, vec) == 1.0 && threshold <= 1.0
    requires k < |es| && es[k].vec == vec && Fresh(es[k], freshUntil)
    requires Answers(es, vec, freshUntil, threshold, hit)
    ensures IsBest(es, vec, freshUntil, 1.0)
    ensures hit.Some?
    ensures exists i: nat :: FirstAtBest(es, vec, freshUntil, 1.0, i) && es[i].vec == vec && hit.value == es[i].entry
  {
    var sim :| AnswersWith(es, vec, freshUntil, threshold, hit, sim);
    forall i | 0 <= i < |es| && Fresh(es[i], freshUntil)
      ensures Similarity(vec, es[i].vec) <= 1.0
      ensures Similarity(vec, es[i].vec) == 1.0 ==> es[i].vec == vec
    {
      if |vec| == |es[i].vec| {
        UnitMaximum(vec, es[i].vec);
      }
    }
    assert Similarity(vec, es[k].vec) == 1.0;
    var j :| 0 <= j < |es| && Fresh(es[j], freshUntil) && Similarity(vec, es[j].vec) == sim;
    assert sim == 1.0;
  }

  /** A stored completion answers its own prompt until its lifetime is over, to the instant, and then no more: counted
      from the time it came with, or from the store when it came with none. The other entries are too far from the
      prompt to answer. */
  lemma AnswersUntilTtl(m: nat, es: seq<MemEntry>, vec: seq<real>, entry: Entry, storedAt: int, now: int, ttl: int,
                        threshold: real, hit: Option<Entry>)
    requires |es| < m && Dot(vec, vec) == 1.0 && threshold <= 1.0
    requires forall i :: 0 <= i < |es| ==> Similarity(vec, es[i].vec) < threshold
    requires Answers(PutOne(m, es, MemEntry(vec, Stamped(entry, storedAt))), vec, now - ttl, threshold, hit)
    ensures var since := if entry.createdAt == 0 then storedAt else entry.createdAt;
            hit == if now <= since + ttl then Some(entry.(createdAt := since)) else None
  {
    var all := PutOne(m, es, MemEntry(vec, Stamped(entry, storedAt)));
    var sim :| AnswersWith(all, vec, now - ttl, threshold, hit, sim);
    var last := |es|;
    assert Similarity(vec, all[last].vec) == 1.0;
    if Fresh(all[last], now - ttl) {
      assert sim >= 1.0;
    }
    assert forall i :: 0 <= i < last ==> all[i] == es[i];
    if hit.Some? {
      var i: nat :| FirstAtBest(all, vec, now - ttl, sim, i) && hit.value == all[i].entry;
    }
  }

  /** After a completion is stored under one conversation, a conversation with the same bag of words hits while
      that entry is retained and fresh. */
  lemma SameWordsHit(a: seq<Message>, b: seq<Message>, dim: nat, na: real, nb: real, es: seq<MemEntry>, k: nat,
                     freshUntil: int, threshold: real, hit: Option<Entry>)
    requires dim >= 1 && multiset(MessageTokens(a)) == multiset(MessageTokens(b))
    requires IsNorm(Counts(Tokens(TrimSpace(Flat(a))), dim), na) && na > 0.0
    requires IsNorm(Counts(Tokens(TrimSpace(Flat(b))), dim), nb)
    requires AllNormal(es) && threshold <= 1.0
    requires k < |es| && es[k].vec == Unit(Counts(Tokens(TrimSpace(Flat(a))), dim), na) && Fresh(es[k], freshUntil)
    requires Answers(es, Unit(Counts(Tokens(TrimSpace(Flat(b))), dim), nb), freshUntil, threshold, hit)
    ensures hit.Some?
    ensures exists i: nat :: i < |es| && es[i].vec == es[k].vec && Fresh(es[i], freshUntil) && hit.value == es[i].entry
  {
    SameWordsSameVector(a, b, dim, na, nb);
    UnitLength(Counts(Tokens(TrimSpace(Flat(a))), dim), na);
    ExactVectorHits(es, es[k].vec, freshUntil, threshold, hit, k);
  }
}
