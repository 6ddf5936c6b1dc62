/** What a worker computes in a map task and in a reduce task. */
module Worker {
  import opened Sorting
  import opened Grouping

  lemma InBucketSnoc(ihash: Hash, n: nat, kvs: seq<KeyValue>, i: nat, b: nat)
    requires n > 0 && i < |kvs|
    ensures InBucket(ihash, n, kvs[..i + 1], b) ==
      InBucket(ihash, n, kvs[..i], b) + (if BucketOf(ihash, n, kvs[i].key) == b then [kvs[i]] else [])
  {
    assert kvs[..i + 1] == kvs[..i] + [kvs[i]];
    InBucketAppend(ihash, n, kvs[..i], [kvs[i]], b);
  }

  lemma ValuesSnoc(kvs: seq<KeyValue>, i: nat, k: string)
    requires i < |kvs|
    ensures ValuesOf(kvs[..i + 1], k) == ValuesOf(kvs[..i], k) + (if kvs[i].key == k then [kvs[i].value] else [])
  {
    assert kvs[..i + 1] == kvs[..i] + [kvs[i]];
    ValuesAppend(kvs[..i], [kvs[i]], k);
  }

  /** The first i pairs have been put into their buckets. */
  ghost predicate Bucketed(ihash: Hash, n: nat, kvs: seq<KeyValue>, i: nat, buckets: seq<seq<KeyValue>>)
    requires n > 0 && i <= |kvs|
  {
    |buckets| == n && forall b: nat | b < n :: buckets[b] == InBucket(ihash, n, kvs[..i], b)
  }

  lemma BucketNone(ihash: Hash, n: nat, kvs: seq<KeyValue>)
    requires n > 0
    ensures Bucketed(ihash, n, kvs, 0, seq(n, _ => []))
  {
  }

  lemma BucketOne(ihash: Hash, n: nat, kvs: seq<KeyValue>, i: nat, buckets: seq<seq<KeyValue>>)
    requires n > 0 && i < |kvs| && Bucketed(ihash, n, kvs, i, buckets)
    ensures var b := ihash(kvs[i].key) % n; Bucketed(ihash, n, kvs, i + 1, buckets[b := buckets[b] + [kvs[i]]])
  {
    hide InBucket;
    forall b: nat | b < n {
      InBucketSnoc(ihash, n, kvs, i, b);
    }
  }

  /** Every pair, as often as it occurs, is in the bucket that its key's hash names and in no other. */
  lemma BucketAll(ihash: Hash, n: nat, kvs: seq<KeyValue>, buckets: seq<seq<KeyValue>>)
    requires n > 0 && Bucketed(ihash, n, kvs, |kvs|, buckets)
    ensures |buckets| == n && forall b: nat | b < n :: buckets[b] == InBucket(ihash, n, kvs, b)
    ensures forall b: nat, x | b < n :: multiset(buckets[b])[x] == if ihash(x.key) % n == b then multiset(kvs)[x] else 0
  {
    hide InBucket;
    assert kvs[..|kvs|] == kvs;
    forall b: nat, x | b < n
      ensures multiset(buckets[b])[x] == if ihash(x.key) % n == b then multiset(kvs)[x] else 0
    {
      BucketCount(ihash, n, kvs, b, x);
    }
  }

  method BucketContents(ihash: Hash, keyValues: seq<KeyValue>, nBuckets: nat) returns (buckets: seq<seq<KeyValue>>)
    requires nBuckets > 0
    ensures |buckets| == nBuckets
    ensures forall b: nat | b < nBuckets :: buckets[b] == InBucket(ihash, nBuckets, keyValues, b)
    ensures forall b: nat, x | b < nBuckets ::
      multiset(buckets[b])[x] == if ihash(x.key) % nBuckets == b then multiset(keyValues)[x] else 0
  {
    hide InBucket;
    buckets := seq(nBuckets, _ => []);
    BucketNone(ihash, nBuckets, keyValues);
    for i := 0 to |keyValues|
      invariant Bucketed(ihash, nBuckets, keyValues, i, buckets)
    {
      var kv := keyValues[i];
      var bucket := ihash(kv.key) % nBuckets;
      BucketOne(ihash, nBuckets, keyValues, i, buckets);
      buckets := buckets[bucket := buckets[bucket] + [kv]];
    }
    BucketAll(ihash, nBuckets, keyValues, buckets);
  }

  lemma KeysSnoc(kvs: seq<KeyValue>, i: nat)
    requires i < |kvs|
    ensures KeysOf(kvs[..i + 1]) == KeysOf(kvs[..i]) + {kvs[i].key}
  {
    assert kvs[..i + 1] == kvs[..i] + [kvs[i]];
    KeysAppend(kvs[..i], [kvs[i]]);
  }

  function Lookup(grouped: map<string, seq<string>>, k: string): (vs: seq<string>)
  {
    if k in grouped then grouped[k] else []
  }

  method GroupByKey(keyValues: seq<KeyValue>) returns (grouped: map<string, seq<string>>)
    ensures grouped.Keys == KeysOf(keyValues)
    ensures forall k :: Lookup(grouped, k) == ValuesOf(keyValues, k)
  {
    grouped := map[];
    assert KeysOf(keyValues[..0]) == {} && forall k :: ValuesOf(keyValues[..0], k) == [];
    hide ValuesOf;
    hide KeysOf;
    for i := 0 to |keyValues|
      invariant grouped.Keys == KeysOf(keyValues[..i])
      invariant forall k :: Lookup(grouped, k) == ValuesOf(keyValues[..i], k)
    {
      var kv := keyValues[i];
      KeysSnoc(keyValues, i);
      ghost var before := grouped;
      grouped := grouped[kv.key := Lookup(grouped, kv.key) + [kv.value]];
      forall k ensures Lookup(grouped, k) == ValuesOf(keyValues[..i + 1], k) {
        ValuesSnoc(keyValues, i, k);
        assert Lookup(before, k) == ValuesOf(keyValues[..i], k);
      }
    }
    assert keyValues[..|keyValues|] == keyValues;
  }

  method ReduceContents(grouped: map<string, seq<string>>, reducef: Reducer) returns (reduced: seq<KeyValue>)
    ensures IsTable(reduced, map k | k in grouped :: reducef(k, grouped[k]))
  {
    var sortedKeys := SortedKeys(grouped.Keys);
    reduced := [];
    for i := 0 to |sortedKeys|
      invariant |reduced| == i
      invariant forall j | 0 <= j < i ::
        sortedKeys[j] in grouped && reduced[j] == KeyValue(sortedKeys[j], reducef(sortedKeys[j], grouped[sortedKeys[j]]))
    {
      var key := sortedKeys[i];
      assert key in grouped.Keys;
      var values := grouped[key];
      reduced := reduced + [KeyValue(key, reducef(key, values))];
    }
    forall k ensures k in grouped.Keys <==> k in KeysOf(reduced) {
      if k in grouped.Keys {
        assert k in sortedKeys;
        var j :| 0 <= j < |sortedKeys| && sortedKeys[j] == k;
        KeyThere(reduced, j);
      } else if k in KeysOf(reduced) {
        var j := KeyFrom(reduced, k);
      }
    }
  }

  /** The computing part of a reduce task: what becomes of the fetched pairs. */
  method ReducePairs(mappedContents: seq<KeyValue>, reducef: Reducer) returns (reduced: seq<KeyValue>)
    ensures IsTable(reduced, Reduced(reducef, mappedContents))
  {
    hide IsTable;
    hide ValuesOf;
    hide KeysOf;
    var grouped := GroupByKey(mappedContents);
    reduced := ReduceContents(grouped, reducef);
    assert forall k | k in grouped :: grouped[k] == Lookup(grouped, k);
    assert Reduced(reducef, mappedContents) == map k | k in grouped :: reducef(k, grouped[k]);
  }
}
