/**
 The cache of visited (set, state) pairs: buckets of entries indexed by the hash of
 their bitset. It stands for the sequence of pairs in the order they were added.
 */
module Cache {
  import opened History
  import B = Bitset

  datatype CacheEntry<+S> = CacheEntry(linearized: array<B.Word>, state: S)

  type Buckets<S> = map<B.Word, seq<CacheEntry<S>>>

  /** e sits in the bucket of its hash and stands for a recorded pair. */
  ghost predicate Filed<S>(e: CacheEntry<S>, hash: B.Word, frozen: set<array<B.Word>>, len: nat, pairs: seq<(set<nat>, S)>)
    reads frozen
  {
    && e.linearized in frozen
    && e.linearized.Length == len
    && B.HashOf(e.linearized[..]) == hash
    && (B.Members(e.linearized[..]), e.state) in pairs
  }

  ghost predicate Stored<S>(cache: Buckets<S>, hash: B.Word, i: nat, frozen: set<array<B.Word>>, p: (set<nat>, S))
    reads frozen
  {
    && hash in cache && i < |cache[hash]|
    && cache[hash][i].linearized in frozen
    && (B.Members(cache[hash][i].linearized[..]), cache[hash][i].state) == p
  }

  ghost predicate IsStored<S>(cache: Buckets<S>, frozen: set<array<B.Word>>, p: (set<nat>, S))
    reads frozen
  {
    exists hash, i: nat :: Stored(cache, hash, i, frozen, p)
  }

  /** The buckets hold exactly the pairs; their bitsets are those of `frozen`. */
  ghost predicate Holds<S>(cache: Buckets<S>, frozen: set<array<B.Word>>, len: nat, pairs: seq<(set<nat>, S)>)
    reads frozen
  {
    && (forall hash, i | hash in cache && 0 <= i < |cache[hash]| :: Filed(cache[hash][i], hash, frozen, len, pairs))
    && (forall p | p in pairs :: IsStored(cache, frozen, p))
  }

  ghost predicate Matches<S, I, O>(m: Model<S, I, O>, entry: CacheEntry<S>, p: (set<nat>, S))
    reads entry.linearized
  {
    p.0 == B.Members(entry.linearized[..]) && m.equal(entry.state, p.1)
  }

  /** Nothing in the bucket of the hash matches, so no recorded pair does. */
  lemma MissInBucket<S, I, O>(m: Model<S, I, O>, cache: Buckets<S>, entry: CacheEntry<S>,
                              frozen: set<array<B.Word>>, pairs: seq<(set<nat>, S)>, p: (set<nat>, S))
    requires Holds(cache, frozen, entry.linearized.Length, pairs)
    requires p in pairs
    requires var hash := B.HashOf(entry.linearized[..]);
      hash in cache ==> forall j | 0 <= j < |cache[hash]| :: !SameAs(m, entry, cache[hash][j])
    ensures !Matches(m, entry, p)
  {
    assert IsStored(cache, frozen, p);
    var h, i: nat :| Stored(cache, h, i, frozen, p);
    assert Filed(cache[h][i], h, frozen, entry.linearized.Length, pairs);
    B.WordsDetermine(entry.linearized[..], cache[h][i].linearized[..]);
  }

  /** The same words and an equal state. */
  ghost predicate SameAs<S, I, O>(m: Model<S, I, O>, entry: CacheEntry<S>, elem: CacheEntry<S>)
    reads entry.linearized, elem.linearized
  {
    elem.linearized[..] == entry.linearized[..] && m.equal(entry.state, elem.state)
  }

  lemma FoundInBucket<S, I, O>(m: Model<S, I, O>, cache: Buckets<S>, entry: CacheEntry<S>,
                               frozen: set<array<B.Word>>, pairs: seq<(set<nat>, S)>, hash: B.Word, i: nat)
    requires Holds(cache, frozen, entry.linearized.Length, pairs)
    requires hash in cache && i < |cache[hash]| && SameAs(m, entry, cache[hash][i])
    ensures exists p :: p in pairs && Matches(m, entry, p)
  {
    hide B.Members; hide B.HashOf; hide IsStored;
    var elem := cache[hash][i];
    assert Filed(elem, hash, frozen, entry.linearized.Length, pairs);
    assert Matches(m, entry, (B.Members(elem.linearized[..]), elem.state));
  }

  lemma NotInBucket<S, I, O>(m: Model<S, I, O>, cache: Buckets<S>, entry: CacheEntry<S>,
                             frozen: set<array<B.Word>>, pairs: seq<(set<nat>, S)>, bucket: seq<CacheEntry<S>>)
    requires Holds(cache, frozen, entry.linearized.Length, pairs)
    requires var hash := B.HashOf(entry.linearized[..]); bucket == if hash in cache then cache[hash] else []
    requires forall j | 0 <= j < |bucket| :: !SameAs(m, entry, bucket[j])
    ensures !exists p :: p in pairs && Matches(m, entry, p)
  {
    hide Holds; hide Matches; hide B.HashOf;
    forall p | p in pairs ensures !Matches(m, entry, p) {
      MissInBucket(m, cache, entry, frozen, pairs, p);
    }
  }

  /** Looking in one bucket finds a match exactly when some recorded pair is one. */
  method CacheContains<S, I, O>(m: Model<S, I, O>, cache: Buckets<S>, entry: CacheEntry<S>,
                                ghost frozen: set<array<B.Word>>, ghost pairs: seq<(set<nat>, S)>)
    returns (found: bool)
    requires Holds(cache, frozen, entry.linearized.Length, pairs)
    ensures found <==> exists p :: p in pairs && Matches(m, entry, p)
  {
    hide Holds; hide Matches; hide B.HashOf; hide B.Members;
    var hash := B.Hash(entry.linearized);
    var bucket := if hash in cache then cache[hash] else [];
    for i := 0 to |bucket|
      invariant forall j | 0 <= j < i :: !SameAs(m, entry, bucket[j])
    {
      var elem := bucket[i];
      var same := B.Equals(entry.linearized, elem.linearized);
      if same && m.equal(entry.state, elem.state) {
        FoundInBucket(m, cache, entry, frozen, pairs, hash, i);
        return true;
      }
    }
    NotInBucket(m, cache, entry, frozen, pairs, bucket);
    return false;
  }

  /** Appends an entry to the bucket of its hash. */
  method Add<S>(cache: Buckets<S>, entry: CacheEntry<S>, ghost frozen: set<array<B.Word>>, ghost pairs: seq<(set<nat>, S)>)
    returns (cache': Buckets<S>)
    requires Holds(cache, frozen, entry.linearized.Length, pairs)
    ensures Holds(cache', frozen + {entry.linearized}, entry.linearized.Length,
                  pairs + [(B.Members(entry.linearized[..]), entry.state)])
  {
    hide B.Members; hide B.HashOf;
    var hash := B.Hash(entry.linearized);
    var bucket := if hash in cache then cache[hash] else [];
    cache' := cache[hash := bucket + [entry]];
    ghost var added := (B.Members(entry.linearized[..]), entry.state);
    ghost var frozen' := frozen + {entry.linearized};
    forall h, i | h in cache' && 0 <= i < |cache'[h]|
      ensures Filed(cache'[h][i], h, frozen', entry.linearized.Length, pairs + [added])
    {
      if h != hash || i < |bucket| {
        assert Filed(cache[h][i], h, frozen, entry.linearized.Length, pairs);
      }
    }
    forall p | p in pairs + [added] ensures IsStored(cache', frozen', p) {
      if p in pairs {
        assert IsStored(cache, frozen, p);
        var h, i: nat :| Stored(cache, h, i, frozen, p);
        assert Stored(cache', h, i, frozen', p);
      } else {
        assert Stored(cache', hash, |bucket|, frozen', p);
      }
    }
  }
}
