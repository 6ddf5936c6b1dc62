/**
 The key/value model: one key's value as a string, a history split by key, and the
 whole store as the meaning the split has to agree with.
 */
module KvModel {
  import opened History
  import opened Operations
  import opened Sorting

  newtype Byte = x: int | 0 <= x < 256

  /** op 0 is get, 1 is put, anything else is append. */
  datatype KvInput = KvInput(op: Byte, key: string, value: string)

  datatype KvOutput = KvOutput(value: string)

  type KvOp = Operation<KvInput, KvOutput>

  function Step(st: string, inp: KvInput, out: KvOutput): (r: (bool, string))
  {
    if inp.op == 0 then (out.value == st, st)
    else if inp.op == 1 then (true, inp.value)
    else (true, st + inp.value)
  }

  /** The model of a single key. */
  function Kv(): (m: Model<string, KvInput, KvOutput>)
    ensures SameFutures(m)
  {
    Model("", Step, (a, b) => a == b)
  }

  // ---- the whole store ---------------------------------------------------------

  type Store = map<string, string>

  function Get(s: Store, key: string): (v: string)
  {
    if key in s then s[key] else ""
  }

  function StoreStep(s: Store, inp: KvInput, out: KvOutput): (r: (bool, Store))
  {
    var (ok, v) := Step(Get(s, inp.key), inp, out);
    (ok, s[inp.key := v])
  }

  /** A map from keys to strings in which every key starts out empty. */
  function StoreModel(): (m: Model<Store, KvInput, KvOutput>)
  {
    Model(map[], StoreStep, (a, b) => a == b)
  }

  // ---- splitting by key -----------------------------------------------------------

  /** The operations on the given keys, in order. */
  function Keep(ops: seq<KvOp>, keys: set<string>): (r: seq<KvOp>)
  {
    if ops == [] then []
    else (if ops[0].input.key in keys then [ops[0]] else []) + Keep(ops[1..], keys)
  }

  function IfKept(x: KvOp, keys: set<string>): (r: seq<KvOp>)
  {
    if x.input.key in keys then [x] else []
  }

  lemma KeepCons(x: KvOp, rest: seq<KvOp>, keys: set<string>)
    ensures Keep([x] + rest, keys) == IfKept(x, keys) + Keep(rest, keys)
  {
    assert ([x] + rest)[1..] == rest;
  }

  lemma {:induction false} KeepAppend(a: seq<KvOp>, b: seq<KvOp>, keys: set<string>)
    ensures Keep(a + b, keys) == Keep(a, keys) + Keep(b, keys)
  {
    if a == [] {
      assert a + b == b;
    } else {
      hide Keep; hide IfKept;
      assert a == [a[0]] + a[1..] && a + b == [a[0]] + (a[1..] + b);
      KeepCons(a[0], a[1..], keys);
      KeepCons(a[0], a[1..] + b, keys);
      KeepAppend(a[1..], b, keys);
      Associative(IfKept(a[0], keys), Keep(a[1..], keys), Keep(b, keys));
    }
  }

  lemma {:induction false} KeepCount(ops: seq<KvOp>, keys: set<string>, x: KvOp)
    ensures multiset(Keep(ops, keys))[x] == if x.input.key in keys then multiset(ops)[x] else 0
  {
    if ops != [] {
      KeepCount(ops[1..], keys, x);
      assert ops == [ops[0]] + ops[1..];
    }
  }

  lemma {:induction false} KeepMembers(ops: seq<KvOp>, keys: set<string>)
    ensures forall i | 0 <= i < |Keep(ops, keys)| :: Keep(ops, keys)[i] in ops && Keep(ops, keys)[i].input.key in keys
  {
    if ops != [] {
      KeepMembers(ops[1..], keys);
    }
  }

  /** Dropping operations keeps an order that respects real time. */
  lemma {:induction false} KeepRespectsTime(ops: seq<KvOp>, keys: set<string>)
    requires RespectsTime(ops)
    ensures RespectsTime(Keep(ops, keys))
  {
    if ops != [] {
      assert forall i | 0 <= i < |ops[1..]| :: ops[1..][i] == ops[i + 1];
      KeepRespectsTime(ops[1..], keys);
      KeepMembers(ops[1..], keys);
    }
  }

  lemma KeepSnoc(ops: seq<KvOp>, i: nat, keys: set<string>)
    requires i < |ops|
    ensures Keep(ops[..i + 1], keys) == Keep(ops[..i], keys) + (if ops[i].input.key in keys then [ops[i]] else [])
  {
    assert ops[..i + 1] == ops[..i] + [ops[i]];
    KeepAppend(ops[..i], [ops[i]], keys);
  }

  /** One group per key, in key order: the operations on that key, in history order. */
  ghost predicate IsPartition(history: seq<KvOp>, keys: seq<string>, groups: seq<seq<KvOp>>)
  {
    && |groups| == |keys| && StrictlySorted(keys)
    && (forall i | 0 <= i < |keys| :: groups[i] == Keep(history, {keys[i]}) && groups[i] != [])
    && (forall k | k !in keys :: Keep(history, {k}) == [])
  }

  /** The groups say it themselves: one for each key of an operation, complete, in order of the keys. */
  ghost predicate ByKey(history: seq<KvOp>, groups: seq<seq<KvOp>>)
  {
    && (forall i | 0 <= i < |groups| :: groups[i] != [] && groups[i] == Keep(history, {groups[i][0].input.key}))
    && (forall i, j | 0 <= i < j < |groups| ::
          groups[i] != [] && groups[j] != [] && StringLess(groups[i][0].input.key, groups[j][0].input.key))
    && (forall x | x in history :: Keep(history, {x.input.key}) in groups)
  }

  lemma PartitionByKey(history: seq<KvOp>, keys: seq<string>, groups: seq<seq<KvOp>>)
    requires IsPartition(history, keys, groups)
    ensures ByKey(history, groups)
  {
    forall i | 0 <= i < |groups| ensures groups[i] != [] && groups[i][0].input.key == keys[i] {
      KeepMembers(history, {keys[i]});
    }
    forall x | x in history ensures Keep(history, {x.input.key}) in groups {
      var k := x.input.key;
      KeepCount(history, {k}, x);
      assert x in multiset(history);
      assert x in multiset(Keep(history, {k}));
      assert k in keys;
      var i :| 0 <= i < |keys| && keys[i] == k;
      assert groups[i] == Keep(history, {k});
    }
  }

  /** m has the first i operations by key. */
  ghost predicate Grouped(history: seq<KvOp>, i: nat, m: map<string, seq<KvOp>>)
    requires i <= |history|
  {
    && (forall k | k in m :: m[k] == Keep(history[..i], {k}) && m[k] != [])
    && (forall k | k !in m :: Keep(history[..i], {k}) == [])
  }

  lemma NoneGrouped(history: seq<KvOp>)
    ensures Grouped(history, 0, map[])
  {
  }

  lemma GroupOne(history: seq<KvOp>, i: nat, m: map<string, seq<KvOp>>)
    requires i < |history| && Grouped(history, i, m)
    ensures var v := history[i];
      Grouped(history, i + 1, m[v.input.key := (if v.input.key in m then m[v.input.key] else []) + [v]])
  {
    hide Keep;
    forall k {
      KeepSnoc(history, i, {k});
    }
  }

  lemma GroupsArePartition(history: seq<KvOp>, m: map<string, seq<KvOp>>, keys: seq<string>, groups: seq<seq<KvOp>>)
    requires Grouped(history, |history|, m) && StrictlySorted(keys) && (forall k :: k in keys <==> k in m)
    requires |groups| == |keys| && forall j | 0 <= j < |keys| :: keys[j] in m && groups[j] == m[keys[j]]
    ensures IsPartition(history, keys, groups)
  {
    hide Keep; hide StrictlySorted;
    assert history[..|history|] == history;
  }

  method Partition(history: seq<KvOp>) returns (ret: seq<seq<KvOp>>, ghost keys: seq<string>)
    ensures IsPartition(history, keys, ret)
    ensures ByKey(history, ret)
  {
    hide *;
    var m: map<string, seq<KvOp>> := map[];
    NoneGrouped(history);
    for i := 0 to |history|
      invariant Grouped(history, i, m)
    {
      var v := history[i];
      var key := v.input.key;
      GroupOne(history, i, m);
      m := m[key := (if key in m then m[key] else []) + [v]];
    }
    var sorted := SortedKeys(m.Keys);
    keys := sorted;
    ret := [];
    for i := 0 to |sorted|
      invariant |ret| == i
      invariant forall j | 0 <= j < i :: ret[j] == m[sorted[j]]
    {
      assert sorted[i] in m.Keys;
      ret := ret + [m[sorted[i]]];
    }
    GroupsArePartition(history, m, keys, ret);
    PartitionByKey(history, keys, ret);
  }
}
