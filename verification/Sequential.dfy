/** The sequential program: gather all pairs, sort them by key, reduce each run of equal keys. */
module Sequential {
  import opened Sorting
  import opened Grouping

  /** An input file: its name and its contents. */
  datatype File = File(name: string, content: string)

  type Mapper = (string, string) -> seq<KeyValue>

  /** The pairs of all files, in file order. */
  function Gather(mapf: Mapper, files: seq<File>): (kvs: seq<KeyValue>)
  {
    if files == [] then []
    else Gather(mapf, files[..|files| - 1]) + mapf(files[|files| - 1].name, files[|files| - 1].content)
  }

  predicate ByKey(a: KeyValue, b: KeyValue)
  {
    StringLess(a.key, b.key)
  }

  lemma ByKeyOrder()
    ensures StrictOrder(ByKey)
  {
    StringOrder();
  }

  lemma {:induction false} ValuesOfRun(kvs: seq<KeyValue>, k: string)
    requires forall i | 0 <= i < |kvs| :: kvs[i].key == k
    ensures |ValuesOf(kvs, k)| == |kvs|
    ensures forall i | 0 <= i < |kvs| :: ValuesOf(kvs, k)[i] == kvs[i].value
  {
    if kvs != [] {
      ValuesOfRun(kvs[1..], k);
    }
  }

  lemma {:induction false} NoValues(kvs: seq<KeyValue>, k: string)
    requires forall i | 0 <= i < |kvs| :: kvs[i].key != k
    ensures ValuesOf(kvs, k) == []
  {
    if kvs != [] {
      NoValues(kvs[1..], k);
    }
  }

  ghost predicate IsRun(kvs: seq<KeyValue>, i: nat, j: nat)
  {
    && i < j <= |kvs|
    && (forall x | i <= x < j :: kvs[x].key == kvs[i].key)
    && (j < |kvs| ==> kvs[j].key != kvs[i].key)
    && (i > 0 ==> kvs[i - 1].key != kvs[i].key)
  }

  lemma RunOrder(kvs: seq<KeyValue>, i: nat, j: nat)
    requires SortedBy(ByKey, kvs) && IsRun(kvs, i, j)
    ensures forall x | 0 <= x < i :: StringLess(kvs[x].key, kvs[i].key)
    ensures forall x | j <= x < |kvs| :: StringLess(kvs[i].key, kvs[x].key)
  {
    forall x | 0 <= x < i ensures StringLess(kvs[x].key, kvs[i].key) {
      Between(kvs, x, i - 1, i);
    }
    forall x | j <= x < |kvs| ensures StringLess(kvs[i].key, kvs[x].key) {
      After(kvs, i, j, x);
    }
  }

  lemma RunBounds(kvs: seq<KeyValue>, i: nat, j: nat)
    requires IsRun(kvs, i, j)
    ensures i < j <= |kvs|
  {
  }

  lemma RunApart(kvs: seq<KeyValue>, i: nat, j: nat)
    requires SortedBy(ByKey, kvs) && IsRun(kvs, i, j)
    ensures i < j <= |kvs|
    ensures forall x | 0 <= x < |kvs[..i]| :: kvs[..i][x].key != kvs[i].key
    ensures forall x | 0 <= x < |kvs[j..]| :: kvs[j..][x].key != kvs[i].key
  {
    hide SortedBy; hide StringLess;
    RunOrder(kvs, i, j);
    StringLessTotal(kvs[i].key, kvs[i].key);
  }

  /** In sorted pairs the values of a key are those of one unbroken run. */
  lemma RunHasAll(kvs: seq<KeyValue>, i: nat, j: nat)
    requires SortedBy(ByKey, kvs) && IsRun(kvs, i, j)
    ensures ValuesOf(kvs, kvs[i].key) == ValuesOf(kvs[i..j], kvs[i].key)
  {
    hide ValuesOf; hide SortedBy; hide StringLess; hide IsRun;
    RunBounds(kvs, i, j);
    var k := kvs[i].key;
    var (a, b, c) := (kvs[..i], kvs[i..j], kvs[j..]);
    RunApart(kvs, i, j);
    NoValues(a, k);
    NoValues(c, k);
    assert kvs == a + (b + c);
    ValuesAppend(a, b + c, k);
    ValuesAppend(b, c, k);
    assert [] + (ValuesOf(b, k) + []) == ValuesOf(b, k);
  }

  lemma Between(kvs: seq<KeyValue>, x: nat, y: nat, i: nat)
    requires SortedBy(ByKey, kvs) && x <= y < i < |kvs| && kvs[y].key != kvs[i].key
    ensures StringLess(kvs[x].key, kvs[i].key)
  {
    StringLessTotal(kvs[y].key, kvs[i].key);
    StringLessTotal(kvs[x].key, kvs[i].key);
    if kvs[x].key == kvs[i].key {
      assert !ByKey(kvs[y], kvs[x]) || x == y;
    }
    if x < y { StringLessTotal(kvs[x].key, kvs[y].key); }
    assert !ByKey(kvs[i], kvs[x]) && !ByKey(kvs[i], kvs[y]);
  }

  lemma After(kvs: seq<KeyValue>, i: nat, j: nat, x: nat)
    requires SortedBy(ByKey, kvs) && i < j <= x < |kvs| && kvs[j].key != kvs[i].key
    ensures StringLess(kvs[i].key, kvs[x].key)
  {
    StringLessTotal(kvs[i].key, kvs[j].key);
    StringLessTotal(kvs[i].key, kvs[x].key);
    assert !ByKey(kvs[j], kvs[i]) && !ByKey(kvs[x], kvs[i]);
    assert x == j || !ByKey(kvs[x], kvs[j]);
  }

  /** Sorting keeps the pairs, so the reduced map of a run's key is that of all pairs. */
  lemma RunReduced(reducef: Reducer, kvs: seq<KeyValue>, i: nat, j: nat, values: seq<string>)
    requires SortedBy(ByKey, kvs) && IsRun(kvs, i, j)
    requires |values| == j - i && forall x | i <= x < j :: values[x - i] == kvs[x].value
    ensures kvs[i].key in Reduced(reducef, kvs) && Reduced(reducef, kvs)[kvs[i].key] == reducef(kvs[i].key, values)
  {
    RunHasAll(kvs, i, j);
    ValuesOfRun(kvs[i..j], kvs[i].key);
    KeyThere(kvs, i);
    hide ValuesOf;
    assert values == ValuesOf(kvs[i..j], kvs[i].key);
  }

  /** out lists what the first i sorted pairs reduce to. */
  ghost predicate TableSoFar(reducef: Reducer, kvs: seq<KeyValue>, i: nat, out: seq<KeyValue>)
    requires i <= |kvs|
  {
    && (forall x, y | 0 <= x < y < |out| :: StringLess(out[x].key, out[y].key))
    && (forall x | 0 <= x < |out| :: out[x].key in Reduced(reducef, kvs) && Reduced(reducef, kvs)[out[x].key] == out[x].value)
    && KeysOf(out) == KeysOf(kvs[..i])
  }

  lemma {:induction false} KeysOfRun(kvs: seq<KeyValue>, k: string)
    requires kvs != [] && forall i | 0 <= i < |kvs| :: kvs[i].key == k
    ensures KeysOf(kvs) == {k}
  {
    if |kvs| > 1 {
      KeysOfRun(kvs[1..], k);
    }
  }

  lemma RunKeys(kvs: seq<KeyValue>, i: nat, j: nat, out: seq<KeyValue>, last: KeyValue)
    requires IsRun(kvs, i, j) && KeysOf(out) == KeysOf(kvs[..i]) && last.key == kvs[i].key
    ensures KeysOf(out + [last]) == KeysOf(kvs[..j])
  {
    KeysOfRun(kvs[i..j], kvs[i].key);
    KeysAppend(out, [last]);
    KeysAppend(kvs[..i], kvs[i..j]);
    assert kvs[..j] == kvs[..i] + kvs[i..j];
  }

  lemma RunAppends(reducef: Reducer, kvs: seq<KeyValue>, i: nat, j: nat, values: seq<string>, out: seq<KeyValue>)
    requires SortedBy(ByKey, kvs) && IsRun(kvs, i, j)
    requires |values| == j - i && forall x | i <= x < j :: values[x - i] == kvs[x].value
    requires TableSoFar(reducef, kvs, i, out)
    ensures TableSoFar(reducef, kvs, j, out + [KeyValue(kvs[i].key, reducef(kvs[i].key, values))])
  {
    var k := kvs[i].key;
    var last := KeyValue(k, reducef(k, values));
    RunReduced(reducef, kvs, i, j, values);
    RunOrder(kvs, i, j);
    RunKeys(kvs, i, j, out, last);
    hide Reduced;
    hide SortedBy;
    hide IsRun;
    forall x | 0 <= x < |out| ensures StringLess(out[x].key, k) {
      KeyThere(out, x);
      var y := KeyFrom(kvs[..i], out[x].key);
    }
    hide KeysOf;
    hide StringLess;
  }

  /** The end of the run of equal keys that starts at i, and the run's values. */
  method ScanRun(intermediate: seq<KeyValue>, i: nat) returns (j: nat, values: seq<string>)
    requires i < |intermediate|
    requires i > 0 ==> intermediate[i - 1].key != intermediate[i].key
    ensures IsRun(intermediate, i, j)
    ensures |values| == j - i && forall x | i <= x < j :: values[x - i] == intermediate[x].value
  {
    j := i + 1;
    while j < |intermediate| && intermediate[j].key == intermediate[i].key
      invariant i < j <= |intermediate|
      invariant forall x | i <= x < j :: intermediate[x].key == intermediate[i].key
    {
      j := j + 1;
    }
    values := [];
    for k := i to j
      invariant |values| == k - i
      invariant forall x | i <= x < k :: values[x - i] == intermediate[x].value
    {
      values := values + [intermediate[k].value];
    }
  }

  /**
   The sequential program. Its output lists each key once, in increasing order, with the
   reduce function's value for all of the key's values.
   */
  method MrSequential(mapf: Mapper, reducef: Reducer, files: seq<File>) returns (out: seq<KeyValue>)
    requires OrderInsensitive(reducef)
    ensures IsTable(out, Reduced(reducef, Gather(mapf, files)))
  {
    var intermediate := [];
    for f := 0 to |files|
      invariant intermediate == Gather(mapf, files[..f])
    {
      assert files[..f + 1][..f] == files[..f];
      intermediate := intermediate + mapf(files[f].name, files[f].content);
    }
    assert files[..|files|] == files;
    ghost var gathered := intermediate;
    ByKeyOrder();
    intermediate := Sort(intermediate, ByKey);
    ReducedRearranged(reducef, intermediate, gathered);
    out := [];
    var i := 0;
    assert TableSoFar(reducef, intermediate, 0, out);
    hide *;
    while i < |intermediate|
      invariant i <= |intermediate|
      invariant 0 < i < |intermediate| ==> intermediate[i - 1].key != intermediate[i].key
      invariant TableSoFar(reducef, intermediate, i, out)
    {
      var j, values := ScanRun(intermediate, i);
      RunAppends(reducef, intermediate, i, j, values, out);
      RunEnds(intermediate, i, j);
      out := out + [KeyValue(intermediate[i].key, reducef(intermediate[i].key, values))];
      i := j;
    }
    TableDone(reducef, intermediate, out);
  }

  lemma RunEnds(kvs: seq<KeyValue>, i: nat, j: nat)
    requires IsRun(kvs, i, j)
    ensures i < j <= |kvs| && (j < |kvs| ==> kvs[j - 1].key != kvs[j].key)
  {
  }

  lemma TableDone(reducef: Reducer, kvs: seq<KeyValue>, out: seq<KeyValue>)
    requires TableSoFar(reducef, kvs, |kvs|, out)
    ensures IsTable(out, Reduced(reducef, kvs))
  {
    assert kvs[..|kvs|] == kvs;
  }
}
