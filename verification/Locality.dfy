/**
 Why the key/value history may be checked key by key: a history is linearizable as a
 whole exactly when the operations on each key are. The hard half merges one order per
 key into one order of everything that still respects real time.
 */
module Locality {
  import opened History
  import opened Operations
  import opened KvModel

  function On(ops: seq<KvOp>, key: string): (r: seq<KvOp>)
  {
    Keep(ops, {key})
  }

  // ---- from the whole to each key -----------------------------------------------

  /** The store accepts exactly what every key accepts on its own operations. */
  lemma {:induction false} StoreAccepts(s: Store, l: seq<KvOp>)
    ensures Accepts(StoreModel(), s, Bare(l)) <==> forall k :: Accepts(Kv(), Get(s, k), Bare(On(l, k)))
    decreases |l|
  {
    if l != [] {
      var op := l[0];
      var (ok, s') := StoreStep(s, op.input, op.output);
      StoreAccepts(s', l[1..]);
      assert Bare(l)[1..] == Bare(l[1..]);
      forall k
        ensures k != op.input.key ==> On(l, k) == On(l[1..], k) && Get(s', k) == Get(s, k)
        ensures k == op.input.key ==>
          (Accepts(Kv(), Get(s, k), Bare(On(l, k))) <==> ok && Accepts(Kv(), Get(s', k), Bare(On(l[1..], k))))
      {
        if k == op.input.key {
          assert On(l, k) == [op] + On(l[1..], k);
          assert Bare(On(l, k))[1..] == Bare(On(l[1..], k));
        } else {
          assert On(l, k) == [] + On(l[1..], k);
        }
      }
    }
  }

  lemma SameCounts(a: seq<KvOp>, b: seq<KvOp>, keys: set<string>)
    requires multiset(a) == multiset(b)
    ensures multiset(Keep(a, keys)) == multiset(Keep(b, keys))
  {
    forall x ensures multiset(Keep(a, keys))[x] == multiset(Keep(b, keys))[x] {
      KeepCount(a, keys, x);
      KeepCount(b, keys, x);
    }
  }

  lemma WholeToKey(h: seq<KvOp>, k: string)
    requires OpsLinearizable(StoreModel(), h)
    ensures OpsLinearizable(Kv(), On(h, k))
  {
    var l :| IsOrder(StoreModel(), h, l);
    StoreAccepts(map[], l);
    SameCounts(l, h, {k});
    KeepRespectsTime(l, {k});
    assert Accepts(Kv(), Get(map[], k), Bare(On(l, k)));
    assert IsOrder(Kv(), On(h, k), On(l, k));
  }

  // ---- from each key to the whole: points in time ----------------------------------

  /** An operation with the moment at which it takes effect. */
  datatype Stamped = Stamped(op: KvOp, at: int)

  function OpsIn(g: seq<Stamped>): (l: seq<KvOp>)
    ensures |l| == |g| && forall i | 0 <= i < |g| :: l[i] == g[i].op
  {
    if g == [] then [] else [g[0].op] + OpsIn(g[1..])
  }

  /** The moments do not decrease, and each lies between call and return. */
  ghost predicate Timed(g: seq<Stamped>)
  {
    && (forall i, j | 0 <= i < j < |g| :: g[i].at <= g[j].at)
    && (forall i | 0 <= i < |g| :: g[i].op.call <= g[i].at <= g[i].op.ret)
  }

  lemma TimedRespects(g: seq<Stamped>)
    requires Timed(g)
    ensures RespectsTime(OpsIn(g))
  {
  }

  ghost predicate NoneBefore(g: seq<Stamped>, at: int)
  {
    forall i | 0 <= i < |g| :: at <= g[i].at
  }

  lemma PrependTimed(x: Stamped, g: seq<Stamped>)
    requires Timed(g) && NoneBefore(g, x.at) && x.op.call <= x.at <= x.op.ret
    ensures Timed([x] + g)
  {
  }

  /** Each operation takes effect at the latest call so far. */
  function Stamp(l: seq<KvOp>, latest: int): (g: seq<Stamped>)
  {
    if l == [] then []
    else
      var at := if l[0].call > latest then l[0].call else latest;
      [Stamped(l[0], at)] + Stamp(l[1..], at)
  }

  lemma {:induction false} StampTimed(l: seq<KvOp>, latest: int)
    requires RespectsTime(l) && Timely(l)
    requires forall i | 0 <= i < |l| :: latest <= l[i].ret
    ensures Timed(Stamp(l, latest)) && NoneBefore(Stamp(l, latest), latest)
  {
    if l != [] {
      var at := if l[0].call > latest then l[0].call else latest;
      assert forall i | 0 <= i < |l[1..]| :: l[1..][i] == l[i + 1];
      StampTimed(l[1..], at);
      PrependTimed(Stamped(l[0], at), Stamp(l[1..], at));
    }
  }

  lemma {:induction false} StampOps(l: seq<KvOp>, latest: int)
    ensures OpsIn(Stamp(l, latest)) == l
    decreases |l|
  {
    if l != [] {
      var at := if l[0].call > latest then l[0].call else latest;
      StampOps(l[1..], at);
      assert Stamp(l, latest)[1..] == Stamp(l[1..], at);
    }
  }

  // ---- merging ----------------------------------------------------------------------

  function Merge(a: seq<Stamped>, b: seq<Stamped>): (g: seq<Stamped>)
    decreases |a| + |b|
  {
    if a == [] then b
    else if b == [] then a
    else if a[0].at <= b[0].at then [a[0]] + Merge(a[1..], b)
    else [b[0]] + Merge(a, b[1..])
  }

  lemma TailTimed(g: seq<Stamped>)
    requires g != [] && Timed(g)
    ensures Timed(g[1..]) && NoneBefore(g[1..], g[0].at)
  {
  }

  lemma {:induction false} MergeTimed(a: seq<Stamped>, b: seq<Stamped>, at: int)
    requires Timed(a) && Timed(b) && NoneBefore(a, at) && NoneBefore(b, at)
    ensures Timed(Merge(a, b)) && NoneBefore(Merge(a, b), at)
    decreases |a| + |b|
  {
    if a != [] && b != [] {
      if a[0].at <= b[0].at {
        TailTimed(a);
        MergeTimed(a[1..], b, a[0].at);
        PrependTimed(a[0], Merge(a[1..], b));
      } else {
        TailTimed(b);
        MergeTimed(a, b[1..], b[0].at);
        PrependTimed(b[0], Merge(a, b[1..]));
      }
    }
  }

  /** x and the rest: what OpsIn, counting and keeping make of it. */
  lemma Front(x: Stamped, g: seq<Stamped>, k: string)
    ensures OpsIn([x] + g) == [x.op] + OpsIn(g)
    ensures multiset(OpsIn([x] + g)) == multiset{x.op} + multiset(OpsIn(g))
    ensures On(OpsIn([x] + g), k) == OfKey(x.op, k) + On(OpsIn(g), k)
  {
    assert ([x] + g)[1..] == g;
    var l := [x.op] + OpsIn(g);
    assert OpsIn([x] + g) == l;
    assert l[0] == x.op && l[1..] == OpsIn(g);
  }

  function OfKey(x: KvOp, k: string): (r: seq<KvOp>)
  {
    if x.input.key == k then [x] else []
  }

  lemma {:induction false} MergeCounts(a: seq<Stamped>, b: seq<Stamped>)
    ensures multiset(OpsIn(Merge(a, b))) == multiset(OpsIn(a)) + multiset(OpsIn(b))
    decreases |a| + |b|
  {
    if a != [] && b != [] {
      assert a == [a[0]] + a[1..] && b == [b[0]] + b[1..];
      hide OpsIn;
      if a[0].at <= b[0].at {
        MergeCounts(a[1..], b);
        Front(a[0], a[1..], "");
        Front(a[0], Merge(a[1..], b), "");
      } else {
        MergeCounts(a, b[1..]);
        Front(b[0], b[1..], "");
        Front(b[0], Merge(a, b[1..]), "");
      }
    } else {
      assert OpsIn([]) == [];
    }
  }

  lemma FrontKeeps(x: Stamped, g: seq<Stamped>, all: seq<Stamped>, k: string)
    requires all != [] && x == all[0] && g == all[1..]
    ensures On(OpsIn(all), k) == OfKey(x.op, k) + On(OpsIn(g), k)
  {
    assert all == [x] + g;
    Front(x, g, k);
  }

  lemma Joined(first: seq<KvOp>, x: seq<KvOp>, y: seq<KvOp>)
    ensures first + (x + y) == (first + x) + y
    ensures x == [] || first + y == [] ==> first + (x + y) == x + (first + y)
  {
  }

  /** Merging does not reorder the operations of a key that only one side has. */
  lemma {:induction false} MergeKeeps(a: seq<Stamped>, b: seq<Stamped>, k: string)
    requires On(OpsIn(a), k) == [] || On(OpsIn(b), k) == []
    ensures On(OpsIn(Merge(a, b)), k) == On(OpsIn(a), k) + On(OpsIn(b), k)
    decreases |a| + |b|
  {
    if a == [] || b == [] {
      assert On(OpsIn([]), k) == [];
    } else if a[0].at <= b[0].at {
      assert Merge(a, b)[0] == a[0] && Merge(a, b)[1..] == Merge(a[1..], b);
      hide *;
      FrontKeeps(a[0], a[1..], a, k);
      FrontKeeps(a[0], Merge(a[1..], b), Merge(a, b), k);
      MergeKeeps(a[1..], b, k);
      Joined(OfKey(a[0].op, k), On(OpsIn(a[1..]), k), On(OpsIn(b), k));
    } else {
      assert Merge(a, b)[0] == b[0] && Merge(a, b)[1..] == Merge(a, b[1..]);
      hide *;
      FrontKeeps(b[0], b[1..], b, k);
      FrontKeeps(b[0], Merge(a, b[1..]), Merge(a, b), k);
      MergeKeeps(a, b[1..], k);
      Joined(OfKey(b[0].op, k), On(OpsIn(a), k), On(OpsIn(b[1..]), k));
    }
  }

  // ---- one key after the other --------------------------------------------------------

  /** g orders the operations of h on the given keys, and those of each key as its own order does. */
  ghost predicate Merged(h: seq<KvOp>, keys: set<string>, orders: map<string, seq<KvOp>>, g: seq<Stamped>)
  {
    && Timed(g)
    && multiset(OpsIn(g)) == multiset(Keep(h, keys))
    && forall k | k in keys :: k in orders && On(OpsIn(g), k) == orders[k]
  }

  /** The order of one key as moments in time. */
  lemma OneKey(h: seq<KvOp>, k: string, orders: map<string, seq<KvOp>>) returns (g: seq<Stamped>)
    requires Timely(h) && k in orders && IsOrder(Kv(), On(h, k), orders[k])
    ensures Merged(h, {k}, orders, g)
  {
    var l := orders[k];
    KeyOps(h, k, l);
    var latest := Earliest(l);
    StampTimed(l, latest);
    StampOps(l, latest);
    g := Stamp(l, latest);
    hide Timed;
    hide Stamp;
    hide OpsIn;
  }

  lemma KeyOps(h: seq<KvOp>, k: string, l: seq<KvOp>)
    requires Timely(h) && multiset(l) == multiset(On(h, k))
    ensures Timely(l) && On(l, k) == l
  {
    KeepMembers(h, {k});
    forall i | 0 <= i < |l| ensures l[i].call <= l[i].ret && l[i].input.key in {k} {
      assert l[i] in multiset(On(h, k));
    }
    KeepAll(l, {k});
  }

  function Earliest(l: seq<KvOp>): (t: int)
    ensures forall i | 0 <= i < |l| :: t <= l[i].ret
  {
    if l == [] then 0
    else var t := Earliest(l[1..]); if l[0].ret < t then l[0].ret else t
  }

  lemma {:induction false} KeepAll(l: seq<KvOp>, keys: set<string>)
    requires forall i | 0 <= i < |l| :: l[i].input.key in keys
    ensures Keep(l, keys) == l
  {
    if l != [] {
      KeepAll(l[1..], keys);
    }
  }

  lemma {:induction false} KeepNone(l: seq<KvOp>, keys: set<string>)
    requires forall i | 0 <= i < |l| :: l[i].input.key !in keys
    ensures Keep(l, keys) == []
  {
    if l != [] {
      KeepNone(l[1..], keys);
    }
  }

  lemma NothingOn(h: seq<KvOp>, keys: set<string>, g: seq<Stamped>, k: string)
    requires multiset(OpsIn(g)) == multiset(Keep(h, keys)) && k !in keys
    ensures On(OpsIn(g), k) == []
  {
    forall i | 0 <= i < |g| ensures OpsIn(g)[i].input.key !in {k} {
      assert OpsIn(g)[i] in multiset(Keep(h, keys));
      KeepMembers(h, keys);
    }
    KeepNone(OpsIn(g), {k});
  }

  lemma KeepUnion(h: seq<KvOp>, keys: set<string>, k: string)
    requires k !in keys
    ensures multiset(Keep(h, keys + {k})) == multiset(Keep(h, keys)) + multiset(On(h, k))
  {
    forall x ensures multiset(Keep(h, keys + {k}))[x] == (multiset(Keep(h, keys)) + multiset(On(h, k)))[x] {
      KeepCount(h, keys + {k}, x);
      KeepCount(h, keys, x);
      KeepCount(h, {k}, x);
    }
  }

  lemma MergeOne(h: seq<KvOp>, keys: set<string>, orders: map<string, seq<KvOp>>, g: seq<Stamped>, k: string, gk: seq<Stamped>)
    requires k !in keys && Merged(h, keys, orders, g) && Merged(h, {k}, orders, gk)
    ensures Merged(h, keys + {k}, orders, Merge(g, gk))
  {
    var at := if g == [] then (if gk == [] then 0 else gk[0].at)
              else if gk == [] || g[0].at <= gk[0].at then g[0].at else gk[0].at;
    MergeTimed(g, gk, at);
    MergeCounts(g, gk);
    KeepUnion(h, keys, k);
    hide Timed; hide Merge; hide OpsIn; hide On; hide Keep;
    forall k' | k' in keys + {k} ensures k' in orders && On(OpsIn(Merge(g, gk)), k') == orders[k'] {
      MergeOneKey(h, keys, orders, g, k, gk, k');
    }
  }

  lemma MergeOneKey(h: seq<KvOp>, keys: set<string>, orders: map<string, seq<KvOp>>, g: seq<Stamped>, k: string, gk: seq<Stamped>, k': string)
    requires k !in keys && Merged(h, keys, orders, g) && Merged(h, {k}, orders, gk) && k' in keys + {k}
    ensures k' in orders && On(OpsIn(Merge(g, gk)), k') == orders[k']
  {
    hide Timed; hide Merge; hide OpsIn; hide On;
    if k' == k {
      NothingOn(h, keys, g, k);
      MergeKeeps(g, gk, k);
    } else {
      NothingOn(h, {k}, gk, k');
      MergeKeeps(g, gk, k');
    }
  }

  lemma NoKeys(h: seq<KvOp>, orders: map<string, seq<KvOp>>)
    ensures Merged(h, {}, orders, [])
  {
    KeepNone(h, {});
  }

  /** Any orders of the single keys merge into one order of everything that keeps each of them. */
  lemma {:induction false} MergeKeys(h: seq<KvOp>, keys: set<string>, orders: map<string, seq<KvOp>>) returns (g: seq<Stamped>)
    requires Timely(h)
    requires forall k | k in keys :: k in orders && IsOrder(Kv(), On(h, k), orders[k])
    ensures Merged(h, keys, orders, g)
    decreases keys
  {
    hide *;
    if keys == {} {
      g := [];
      NoKeys(h, orders);
    } else {
      var k :| k in keys;
      var front := MergeKeys(h, keys - {k}, orders);
      var gk := OneKey(h, k, orders);
      MergeOne(h, keys - {k}, orders, front, k, gk);
      g := Merge(front, gk);
      assert keys - {k} + {k} == keys;
    }
  }

  function KeysOf(h: seq<KvOp>): (keys: set<string>)
    ensures forall i | 0 <= i < |h| :: h[i].input.key in keys
  {
    if h == [] then {} else {h[0].input.key} + KeysOf(h[1..])
  }

  /**
   Locality: a history of timely operations is linearizable against the whole store
   exactly when its operations on each key are linearizable on their own.
   */
  lemma StoreIffEveryKey(h: seq<KvOp>)
    requires Timely(h)
    ensures OpsLinearizable(StoreModel(), h) <==> forall k :: OpsLinearizable(Kv(), On(h, k))
  {
    if OpsLinearizable(StoreModel(), h) {
      forall k ensures OpsLinearizable(Kv(), On(h, k)) {
        WholeToKey(h, k);
      }
    }
    if forall k :: OpsLinearizable(Kv(), On(h, k)) {
      var l := WholeOrder(h);
      assert IsOrder(StoreModel(), h, l);
    }
  }

  ghost function AnOrder(h: seq<KvOp>, k: string): (l: seq<KvOp>)
    requires OpsLinearizable(Kv(), On(h, k))
    ensures IsOrder(Kv(), On(h, k), l)
  {
    var l :| IsOrder(Kv(), On(h, k), l); l
  }

  lemma WholeOrder(h: seq<KvOp>) returns (l: seq<KvOp>)
    requires Timely(h) && forall k :: OpsLinearizable(Kv(), On(h, k))
    ensures IsOrder(StoreModel(), h, l)
  {
    var keys := KeysOf(h);
    var orders := map k | k in keys :: AnOrder(h, k);
    var g := MergeKeys(h, keys, orders);
    l := OpsIn(g);
    KeepAll(h, keys);
    TimedRespects(g);
    assert RespectsTime(l) && multiset(l) == multiset(h);
    hide Timed; hide OpsIn; hide RespectsTime;
    forall k ensures Accepts(Kv(), Get(map[], k), Bare(On(l, k))) {
      if k !in keys { NothingOn(h, keys, g, k); }
    }
    hide On; hide Accepts; hide Bare;
    StoreAccepts(map[], l);
  }
}
