/**
 What a MapReduce job computes: pairs grouped by key and each group reduced. The
 distributed workers bucket, group and reduce; the sequential program sorts and scans.
 Both are proved against the same map from keys to reduced values.
 */
module Grouping {
  import opened Sorting

  datatype KeyValue = KeyValue(key: string, value: string)

  type Reducer = (string, seq<string>) -> string

  /** The values of key k, in order. */
  function ValuesOf(kvs: seq<KeyValue>, k: string): (vs: seq<string>)
  {
    if kvs == [] then []
    else (if kvs[0].key == k then [kvs[0].value] else []) + ValuesOf(kvs[1..], k)
  }

  function KeysOf(kvs: seq<KeyValue>): (keys: set<string>)
  {
    if kvs == [] then {} else {kvs[0].key} + KeysOf(kvs[1..])
  }

  lemma {:induction false} KeyThere(kvs: seq<KeyValue>, i: nat)
    requires i < |kvs|
    ensures kvs[i].key in KeysOf(kvs)
  {
    if i > 0 {
      KeyThere(kvs[1..], i - 1);
    }
  }

  lemma {:induction false} KeyFrom(kvs: seq<KeyValue>, k: string) returns (i: nat)
    requires k in KeysOf(kvs)
    ensures i < |kvs| && kvs[i].key == k
  {
    if kvs[0].key == k {
      i := 0;
    } else {
      i := KeyFrom(kvs[1..], k);
      i := i + 1;
    }
  }

  /** What the reduce function makes of each key's values. */
  ghost function Reduced(reducef: Reducer, kvs: seq<KeyValue>): (m: map<string, string>)
    ensures m.Keys == KeysOf(kvs)
  {
    map k | k in KeysOf(kvs) :: reducef(k, ValuesOf(kvs, k))
  }

  ghost predicate OrderInsensitive(reducef: Reducer)
  {
    forall k, vs, ws :: multiset(vs) == multiset(ws) ==> reducef(k, vs) == reducef(k, ws)
  }

  /** out lists exactly the entries of m, in strictly increasing key order. */
  ghost predicate IsTable(out: seq<KeyValue>, m: map<string, string>)
  {
    && (forall i, j | 0 <= i < j < |out| :: StringLess(out[i].key, out[j].key))
    && (forall i | 0 <= i < |out| :: out[i].key in m && m[out[i].key] == out[i].value)
    && m.Keys == KeysOf(out)
  }

  // ---- order of pairs does not matter ---------------------------------------------

  function OfKey(x: KeyValue, k: string): (values: seq<string>)
  {
    if x.key == k then [x.value] else []
  }

  lemma ValuesCons(x: KeyValue, rest: seq<KeyValue>, k: string)
    ensures ValuesOf([x] + rest, k) == OfKey(x, k) + ValuesOf(rest, k)
  {
    assert ([x] + rest)[1..] == rest;
  }

  lemma {:induction false} ValuesAppend(a: seq<KeyValue>, b: seq<KeyValue>, k: string)
    ensures ValuesOf(a + b, k) == ValuesOf(a, k) + ValuesOf(b, k)
  {
    if a == [] {
      assert a + b == b;
    } else {
      hide ValuesOf; hide OfKey;
      assert a == [a[0]] + a[1..] && a + b == [a[0]] + (a[1..] + b);
      ValuesCons(a[0], a[1..], k);
      ValuesCons(a[0], a[1..] + b, k);
      ValuesAppend(a[1..], b, k);
      Associative(OfKey(a[0], k), ValuesOf(a[1..], k), ValuesOf(b, k));
    }
  }

  lemma {:induction false} KeysAppend(a: seq<KeyValue>, b: seq<KeyValue>)
    ensures KeysOf(a + b) == KeysOf(a) + KeysOf(b)
  {
    if a == [] {
      assert a + b == b;
    } else {
      assert (a + b)[0] == a[0] && (a + b)[1..] == a[1..] + b;
      KeysAppend(a[1..], b);
    }
  }

  lemma {:induction false} ValuesCount(kvs: seq<KeyValue>, k: string, v: string)
    ensures multiset(ValuesOf(kvs, k))[v] == multiset(kvs)[KeyValue(k, v)]
  {
    if kvs != [] {
      hide ValuesOf;
      assert kvs == [kvs[0]] + kvs[1..];
      ValuesCount(kvs[1..], k, v);
      ValuesCons(kvs[0], kvs[1..], k);
      assert multiset(OfKey(kvs[0], k))[v] == multiset([kvs[0]])[KeyValue(k, v)];
      assert multiset(kvs) == multiset([kvs[0]]) + multiset(kvs[1..]);
      assert multiset(ValuesOf(kvs, k)) == multiset(OfKey(kvs[0], k)) + multiset(ValuesOf(kvs[1..], k));
    }
  }

  /** A rearrangement of the pairs reduces to the same map. */
  lemma ReducedRearranged(reducef: Reducer, a: seq<KeyValue>, b: seq<KeyValue>)
    requires OrderInsensitive(reducef) && multiset(a) == multiset(b)
    ensures Reduced(reducef, a) == Reduced(reducef, b)
  {
    forall k ensures multiset(ValuesOf(a, k)) == multiset(ValuesOf(b, k)) {
      forall v ensures multiset(ValuesOf(a, k))[v] == multiset(ValuesOf(b, k))[v] {
        ValuesCount(a, k, v);
        ValuesCount(b, k, v);
      }
    }
    SameKeys(a, b);
    SameKeys(b, a);
  }

  lemma SameKeys(a: seq<KeyValue>, b: seq<KeyValue>)
    requires multiset(a) == multiset(b)
    ensures KeysOf(a) <= KeysOf(b)
  {
    forall k | k in KeysOf(a) ensures k in KeysOf(b) {
      var i := KeyFrom(a, k);
      assert a[i] in multiset(b);
      var j :| 0 <= j < |b| && b[j] == a[i];
      KeyThere(b, j);
    }
  }

  // ---- a table is determined by its map --------------------------------------------

  lemma {:induction false} TableUnique(a: seq<KeyValue>, b: seq<KeyValue>, m: map<string, string>)
    requires IsTable(a, m) && IsTable(b, m)
    ensures a == b
    decreases |a|
  {
    assert KeysOf(a) == KeysOf(b);
    if a != [] && b != [] {
      hide IsTable;
      hide KeysOf;
      FirstKeys(a, b, m);
      var rest := map k | k in m && k != a[0].key :: m[k];
      TableTail(a, m, rest);
      TableTail(b, m, rest);
      TableUnique(a[1..], b[1..], rest);
      assert a == [a[0]] + a[1..] && b == [b[0]] + b[1..];
    }
  }

  lemma FirstKeys(a: seq<KeyValue>, b: seq<KeyValue>, m: map<string, string>)
    requires IsTable(a, m) && IsTable(b, m) && a != [] && b != []
    ensures a[0] == b[0]
  {
    KeyThere(a, 0);
    KeyThere(b, 0);
    var i := KeyFrom(b, a[0].key);
    var j := KeyFrom(a, b[0].key);
    StringLessTotal(a[0].key, b[0].key);
  }

  lemma TableTail(a: seq<KeyValue>, m: map<string, string>, rest: map<string, string>)
    requires IsTable(a, m) && a != []
    requires rest == map k | k in m && k != a[0].key :: m[k]
    ensures IsTable(a[1..], rest)
  {
    forall i | 0 <= i < |a[1..]| ensures a[1..][i].key != a[0].key {
      assert StringLess(a[0].key, a[i + 1].key);
      StringLessTotal(a[0].key, a[0].key);
    }
    forall k | k in KeysOf(a[1..]) ensures k != a[0].key {
      var i := KeyFrom(a[1..], k);
    }
  }

  // ---- buckets ------------------------------------------------------------------------

  type Hash = string -> nat

  function BucketOf(ihash: Hash, n: nat, k: string): (b: nat)
    requires n > 0
    ensures b < n
  {
    ihash(k) % n
  }

  /** The pairs whose key hashes to bucket b, in order. */
  function InBucket(ihash: Hash, n: nat, kvs: seq<KeyValue>, b: nat): (r: seq<KeyValue>)
    requires n > 0
  {
    if kvs == [] then []
    else (if BucketOf(ihash, n, kvs[0].key) == b then [kvs[0]] else []) + InBucket(ihash, n, kvs[1..], b)
  }

  function IfIn(ihash: Hash, n: nat, x: KeyValue, b: nat): (kvs: seq<KeyValue>)
    requires n > 0
  {
    if BucketOf(ihash, n, x.key) == b then [x] else []
  }

  lemma InBucketCons(ihash: Hash, n: nat, x: KeyValue, rest: seq<KeyValue>, b: nat)
    requires n > 0
    ensures InBucket(ihash, n, [x] + rest, b) == IfIn(ihash, n, x, b) + InBucket(ihash, n, rest, b)
  {
    assert ([x] + rest)[1..] == rest;
  }

  lemma {:induction false} InBucketAppend(ihash: Hash, n: nat, x: seq<KeyValue>, y: seq<KeyValue>, b: nat)
    requires n > 0
    ensures InBucket(ihash, n, x + y, b) == InBucket(ihash, n, x, b) + InBucket(ihash, n, y, b)
  {
    if x == [] {
      assert x + y == y;
    } else {
      hide InBucket; hide IfIn;
      assert x == [x[0]] + x[1..] && x + y == [x[0]] + (x[1..] + y);
      InBucketCons(ihash, n, x[0], x[1..], b);
      InBucketCons(ihash, n, x[0], x[1..] + y, b);
      InBucketAppend(ihash, n, x[1..], y, b);
      Associative(IfIn(ihash, n, x[0], b), InBucket(ihash, n, x[1..], b), InBucket(ihash, n, y, b));
    }
  }

  /** A key's values all stay together in its bucket, and no other bucket has any. */
  lemma {:induction false} ValuesInBucket(ihash: Hash, n: nat, kvs: seq<KeyValue>, b: nat, k: string)
    requires n > 0
    ensures ValuesOf(InBucket(ihash, n, kvs, b), k) == if BucketOf(ihash, n, k) == b then ValuesOf(kvs, k) else []
  {
    if kvs != [] {
      ValuesInBucket(ihash, n, kvs[1..], b, k);
      if BucketOf(ihash, n, kvs[0].key) == b {
        assert InBucket(ihash, n, kvs, b)[1..] == InBucket(ihash, n, kvs[1..], b);
      } else {
        assert InBucket(ihash, n, kvs, b) == InBucket(ihash, n, kvs[1..], b);
      }
    }
  }

  lemma {:induction false} KeysInBucket(ihash: Hash, n: nat, kvs: seq<KeyValue>, b: nat)
    requires n > 0
    ensures KeysOf(InBucket(ihash, n, kvs, b)) == set k | k in KeysOf(kvs) && BucketOf(ihash, n, k) == b
  {
    if kvs != [] {
      KeysInBucket(ihash, n, kvs[1..], b);
      if BucketOf(ihash, n, kvs[0].key) == b {
        assert InBucket(ihash, n, kvs, b)[1..] == InBucket(ihash, n, kvs[1..], b);
      } else {
        assert InBucket(ihash, n, kvs, b) == InBucket(ihash, n, kvs[1..], b);
      }
    }
  }

  /** Reducing one bucket gives the whole result restricted to the keys of that bucket. */
  lemma ReducedBucket(reducef: Reducer, ihash: Hash, n: nat, kvs: seq<KeyValue>, b: nat)
    requires n > 0
    ensures Reduced(reducef, InBucket(ihash, n, kvs, b)) ==
      map k | k in Reduced(reducef, kvs) && BucketOf(ihash, n, k) == b :: Reduced(reducef, kvs)[k]
  {
    KeysInBucket(ihash, n, kvs, b);
    forall k ensures BucketOf(ihash, n, k) == b ==> ValuesOf(InBucket(ihash, n, kvs, b), k) == ValuesOf(kvs, k) {
      ValuesInBucket(ihash, n, kvs, b, k);
    }
  }

  ghost function AllBuckets(ihash: Hash, n: nat, kvs: seq<KeyValue>, upto: nat): (m: multiset<KeyValue>)
    requires n > 0
  {
    if upto == 0 then multiset{}
    else AllBuckets(ihash, n, kvs, upto - 1) + multiset(InBucket(ihash, n, kvs, upto - 1))
  }

  /** No pair is lost or duplicated by bucketing. */
  lemma BucketsPartition(ihash: Hash, n: nat, kvs: seq<KeyValue>)
    requires n > 0
    ensures AllBuckets(ihash, n, kvs, n) == multiset(kvs)
  {
    forall x ensures AllBuckets(ihash, n, kvs, n)[x] == multiset(kvs)[x] {
      BucketsCount(ihash, n, kvs, n, x);
    }
  }

  lemma {:induction false} BucketCount(ihash: Hash, n: nat, kvs: seq<KeyValue>, b: nat, x: KeyValue)
    requires n > 0
    ensures multiset(InBucket(ihash, n, kvs, b))[x] == if BucketOf(ihash, n, x.key) == b then multiset(kvs)[x] else 0
  {
    if kvs != [] {
      BucketCount(ihash, n, kvs[1..], b, x);
      assert kvs == [kvs[0]] + kvs[1..];
    }
  }

  lemma {:induction false} BucketsCount(ihash: Hash, n: nat, kvs: seq<KeyValue>, upto: nat, x: KeyValue)
    requires n > 0
    ensures AllBuckets(ihash, n, kvs, upto)[x] == if BucketOf(ihash, n, x.key) < upto then multiset(kvs)[x] else 0
  {
    hide InBucket;
    hide BucketOf;
    if upto > 0 {
      BucketsCount(ihash, n, kvs, upto - 1, x);
      BucketCount(ihash, n, kvs, upto - 1, x);
      var (front, last) := (AllBuckets(ihash, n, kvs, upto - 1), multiset(InBucket(ihash, n, kvs, upto - 1)));
      assert (front + last)[x] == front[x] + last[x];
    }
  }
}
