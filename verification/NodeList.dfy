/**
 The doubly linked list of call and return nodes that the search unlinks and
 relinks in place. All nodes of a run, head first, form the sequence `all`; node i+1
 stands for history entry i. `Links` is the pointer structure as positions in `all`,
 so that what lifting and unlifting do can be stated and proved on values.
 */
module NodeList {
  import opened History
  import opened Search

  // ---- positions still in the list -------------------------------------------

  /** The first live position at or after i, or len. */
  ghost function First(live: set<nat>, i: nat, len: nat): (j: nat)
    requires i <= len
    ensures i <= j <= len
    ensures j < len ==> j in live
    ensures forall k | i <= k < j :: k !in live
    decreases len - i
  {
    if i == len || i in live then i else First(live, i + 1, len)
  }

  lemma {:induction false} FirstWithout(live: set<nat>, c: nat, i: nat, len: nat)
    requires c < len && i <= len
    ensures First(live - {c}, i, len) ==
      if First(live, i, len) == c then First(live, c + 1, len) else First(live, i, len)
    decreases len - i
  {
    if i < len {
      FirstWithout(live, c, i + 1, len);
    }
  }

  /** The live position before c; position 0, the head, is always live. */
  ghost function Pred(live: set<nat>, c: nat): (p: nat)
    requires 0 in live && c > 0
    ensures p < c && p in live
    ensures forall k | p < k < c :: k !in live
  {
    if c - 1 in live then c - 1 else Pred(live, c - 1)
  }

  // ---- the pointer structure ---------------------------------------------------

  /** next[i] and prev[i] are positions; the length of the list stands for nil. */
  datatype Links = Links(next: seq<nat>, prev: seq<nat>)

  ghost predicate LinkAt(l: Links, live: set<nat>, i: nat)
    requires |l.next| == |l.prev| && i < |l.next|
  {
    var j := First(live, i + 1, |l.next|);
    l.next[i] == j && (j < |l.next| ==> l.prev[j] == i)
  }

  /** The links thread exactly the live positions, in order, both ways. */
  ghost predicate Threads(l: Links, live: set<nat>)
  {
    && |l.next| == |l.prev|
    && 0 in live
    && (forall i | i in live :: i < |l.next|)
    && (forall i | i in live :: LinkAt(l, live, i))
  }

  ghost predicate Inner(l: Links, c: nat)
  {
    && |l.next| == |l.prev|
    && c < |l.next|
    && l.prev[c] < |l.next| && l.next[l.prev[c]] == c && l.prev[c] != c
    && l.next[c] <= |l.next| && l.next[c] != c
    && (l.next[c] < |l.next| ==> l.prev[l.next[c]] == c)
  }

  ghost function Unlink(l: Links, c: nat): (r: Links)
    requires Inner(l, c)
  {
    Links(l.next[l.prev[c] := l.next[c]],
          if l.next[c] < |l.next| then l.prev[l.next[c] := l.prev[c]] else l.prev)
  }

  ghost predicate Relinkable(l: Links, c: nat)
  {
    && |l.next| == |l.prev|
    && c < |l.next|
    && l.prev[c] < |l.next|
    && l.prev[c] != c
  }

  ghost function Relink(l: Links, c: nat): (r: Links)
    requires Relinkable(l, c)
  {
    Links(l.next[l.prev[c] := c],
          if l.next[c] < |l.next| then l.prev[l.next[c] := c] else l.prev)
  }

  /** Relinking what was just unlinked restores every pointer of every node. */
  lemma UnlinkUndone(l: Links, c: nat)
    requires Inner(l, c)
    ensures Relinkable(Unlink(l, c), c)
    ensures Relink(Unlink(l, c), c) == l
  {
    var u := Unlink(l, c);
    assert u.next[c] == l.next[c] && u.prev[c] == l.prev[c];
    assert Relink(u, c).next == l.next;
    assert Relink(u, c).prev == l.prev;
  }

  lemma FirstAfterPred(live: set<nat>, c: nat, len: nat)
    requires 0 in live && c in live && 0 < c < len
    ensures First(live, Pred(live, c) + 1, len) == c
  {
    hide First; hide Pred;
    var j := First(live, Pred(live, c) + 1, len);
    assert j >= c && j <= c;
  }

  lemma TheLink(l: Links, live: set<nat>, i: nat)
    requires Threads(l, live)
    ensures |l.next| == |l.prev| && 0 in live
    ensures i in live ==> i < |l.next| && LinkAt(l, live, i)
  {
    hide LinkAt;
  }

  lemma LiveIsInner(l: Links, live: set<nat>, c: nat)
    requires Threads(l, live) && c in live && c > 0
    ensures Inner(l, c)
    ensures l.prev[c] == Pred(live, c)
    ensures l.next[c] == First(live, c + 1, |l.next|)
  {
    hide First; hide Pred; hide Threads;
    TheLink(l, live, 0);
    TheLink(l, live, c);
    TheLink(l, live, Pred(live, c));
    FirstAfterPred(live, c, |l.next|);
  }

  lemma UnlinkAt(l: Links, live: set<nat>, c: nat, i: nat)
    requires Inner(l, c) && l.next[c] == First(live, c + 1, |l.next|) && i < |l.next| && i != c && c < |l.next|
    requires LinkAt(l, live, i)
    ensures LinkAt(Unlink(l, c), live - {c}, i)
  {
    hide First;
    FirstWithout(live, c, i + 1, |l.next|);
    var (u, j) := (Unlink(l, c), First(live, i + 1, |l.next|));
    if i == l.prev[c] {
      assert j == c && u.next[i] == l.next[c];
    } else {
      assert j != c && u.next[i] == j;
    }
  }

  /** Unlinking a live position leaves the list threading the others. */
  lemma UnlinkThreads(l: Links, live: set<nat>, c: nat)
    requires Threads(l, live) && c in live && c > 0
    ensures Inner(l, c)
    ensures Threads(Unlink(l, c), live - {c})
  {
    LiveIsInner(l, live, c);
    hide LinkAt; hide Inner;
    forall i | i in live - {c} ensures LinkAt(Unlink(l, c), live - {c}, i) {
      UnlinkAt(l, live, c, i);
    }
  }

  // ---- the list of a search path -------------------------------------------------

  /** Where the call and the return of each operation stand; position 0 is the head. */
  datatype Layout = Layout(len: nat, call: seq<nat>, ret: seq<nat>)

  ghost predicate ValidLayout(f: Layout)
  {
    && f.len > 0
    && |f.call| == |f.ret|
    && (forall id | 0 <= id < |f.call| :: 0 < f.call[id] < f.ret[id] < f.len)
    && (forall a, b | 0 <= a < |f.call| && 0 <= b < |f.call| && a != b ::
          f.call[a] != f.call[b] && f.ret[a] != f.ret[b] && f.call[a] != f.ret[b])
  }

  ghost predicate ValidPath(f: Layout, path: seq<nat>)
  {
    && ValidLayout(f)
    && Distinct(path)
    && forall i | 0 <= i < |path| :: path[i] < |f.call|
  }

  /** The positions left when the calls and returns of path are taken out. */
  ghost function LiveOf(f: Layout, path: seq<nat>): (live: set<nat>)
    requires ValidPath(f, path)
  {
    if path == [] then Range(f.len)
    else
      var k := |path| - 1;
      LiveOf(f, path[..k]) - {f.call[path[k]]} - {f.ret[path[k]]}
  }

  lemma {:induction false} LiveMeaning(f: Layout, path: seq<nat>, i: nat)
    requires ValidPath(f, path)
    ensures i in LiveOf(f, path) <==>
      i < f.len && forall id | id in path :: i != f.call[id] && i != f.ret[id]
  {
    if path != [] {
      var k := |path| - 1;
      LiveMeaning(f, path[..k], i);
      assert path == path[..k] + [path[k]];
    }
  }

  ghost function Initial(len: nat): (l: Links)
    requires len > 0
    ensures |l.next| == |l.prev| == len
  {
    Links(seq(len, i => i + 1), seq(len, i => if i == 0 then len else i - 1))
  }

  lemma InitialThreads(len: nat)
    requires len > 0
    ensures Threads(Initial(len), Range(len))
  {
    var l, live := Initial(len), Range(len);
    forall i | i in live ensures LinkAt(l, live, i) {
      assert i + 1 < len ==> i + 1 in live;
    }
  }

  /** Both nodes of an operation can be unlinked, the call first. */
  ghost predicate Liftable(l: Links, c: nat, r: nat)
  {
    && Inner(l, c) && l.next[c] < |l.next|
    && Inner(Unlink(l, c), r)
  }

  ghost function Lifted(l: Links, c: nat, r: nat): (u: Links)
    requires Liftable(l, c, r)
    ensures |u.next| == |l.next|
  {
    Unlink(Unlink(l, c), r)
  }

  lemma LiftThreads(l: Links, live: set<nat>, c: nat, r: nat)
    requires Threads(l, live) && 0 < c < r && c in live && r in live
    ensures Liftable(l, c, r)
    ensures Threads(Lifted(l, c, r), live - {c} - {r})
  {
    UnlinkThreads(l, live, c);
    LiveIsInner(l, live, c);
    UnlinkThreads(Unlink(l, c), live - {c}, r);
  }

  /**
   The pointers of every node after lifting the operations of path in turn. They thread
   the original entries minus the calls and returns of path, in order.
   */
  ghost function LinksOf(f: Layout, path: seq<nat>): (l: Links)
    requires ValidPath(f, path)
    ensures |l.next| == f.len
    ensures Threads(l, LiveOf(f, path))
  {
    if path == [] then
      InitialThreads(f.len);
      Initial(f.len)
    else
      var k := |path| - 1;
      LiftNext(f, path[..k], path[k], LinksOf(f, path[..k]));
      Lifted(LinksOf(f, path[..k]), f.call[path[k]], f.ret[path[k]])
  }

  lemma LiftNext(f: Layout, path: seq<nat>, id: nat, l: Links)
    requires ValidPath(f, path) && id < |f.call| && id !in path
    requires Threads(l, LiveOf(f, path))
    ensures Liftable(l, f.call[id], f.ret[id])
    ensures Threads(Lifted(l, f.call[id], f.ret[id]), LiveOf(f, path) - {f.call[id]} - {f.ret[id]})
  {
    LiveMeaning(f, path, f.call[id]);
    LiveMeaning(f, path, f.ret[id]);
    LiftThreads(l, LiveOf(f, path), f.call[id], f.ret[id]);
  }

  lemma LinksAfter(f: Layout, path: seq<nat>, id: nat)
    requires ValidPath(f, path) && id < |f.call| && id !in path
    ensures ValidPath(f, path + [id])
    ensures Liftable(LinksOf(f, path), f.call[id], f.ret[id])
    ensures LinksOf(f, path + [id]) == Lifted(LinksOf(f, path), f.call[id], f.ret[id])
  {
    var after := path + [id];
    assert after[..|path|] == path && after[|path|] == id;
    LiftNext(f, path, id, LinksOf(f, path));
  }

  ghost predicate Unliftable(l: Links, c: nat, r: nat)
  {
    && Relinkable(l, r)
    && Relinkable(Relink(l, r), c)
    && Relink(l, r).next[c] < |l.next|
  }

  ghost function Unlifted(l: Links, c: nat, r: nat): (u: Links)
    requires Unliftable(l, c, r)
  {
    Relink(Relink(l, r), c)
  }

  /**
   Relinking the return and then the call takes back a lift, pointer for pointer,
   also when the two nodes were neighbours.
   */
  lemma LiftUndone(l: Links, c: nat, r: nat)
    requires Liftable(l, c, r)
    ensures Unliftable(Lifted(l, c, r), c, r)
    ensures Unlifted(Lifted(l, c, r), c, r) == l
  {
    UnlinkUndone(l, c);
    UnlinkUndone(Unlink(l, c), r);
  }

  // ---- nodes on the heap -----------------------------------------------------------

  datatype Payload<+I, +O> = Nothing | In(input: I) | Out(output: O)

  class Node<I, O> {
    const value: Payload<I, O>
    const mate: Node?<I, O>  // the return node, for a call; null for a return
    const id: int
    ghost const at: nat  // position among the nodes of the run
    var next: Node?<I, O>
    var prev: Node?<I, O>

    constructor (value: Payload<I, O>, mate: Node?<I, O>, id: int, ghost at: nat)
      ensures this.value == value && this.mate == mate && this.id == id && this.at == at
      ensures next == null && prev == null
    {
      this.value, this.mate, this.id, this.at := value, mate, id, at;
      next, prev := null, null;
    }
  }

  /** Each node knows its own position, so the nodes are distinct. */
  ghost predicate Placed<I, O>(all: seq<Node<I, O>>)
  {
    forall i | 0 <= i < |all| :: all[i].at == i
  }

  ghost function At<I, O>(all: seq<Node<I, O>>, i: nat): (n: Node?<I, O>)
  {
    if i < |all| then all[i] else null
  }

  /** The pointers on the heap are those of l. */
  ghost predicate Points<I, O>(all: seq<Node<I, O>>, l: Links)
    reads all
  {
    && Placed(all)
    && |l.next| == |l.prev| == |all|
    && (forall i | 0 <= i < |all| :: all[i].next == At(all, l.next[i]))
    && (forall i | 0 <= i < |all| :: all[i].prev == At(all, l.prev[i]))
  }

  method Detach<I, O>(n: Node<I, O>, ghost all: seq<Node<I, O>>, ghost l: Links, ghost c: nat)
    requires Points(all, l) && Inner(l, c) && n == At(all, c)
    modifies all
    ensures Points(all, Unlink(l, c))
  {
    assert n.prev == all[l.prev[c]] && n.next == At(all, l.next[c]);
    n.prev.next := n.next;
    if n.next != null {
      n.next.prev := n.prev;
    }
  }

  method Attach<I, O>(n: Node<I, O>, ghost all: seq<Node<I, O>>, ghost l: Links, ghost c: nat)
    requires Points(all, l) && Relinkable(l, c) && n == At(all, c)
    modifies all
    ensures Points(all, Relink(l, c))
  {
    assert n.prev == all[l.prev[c]] && n.next == At(all, l.next[c]);
    n.prev.next := n;
    if n.next != null {
      n.next.prev := n;
    }
  }

  /** Takes the call and the return of operation id out of the list of path. */
  method Lift<I, O>(entry: Node<I, O>, ghost all: seq<Node<I, O>>, ghost f: Layout, ghost path: seq<nat>, ghost id: nat)
    requires ValidPath(f, path) && id < |f.call| && id !in path
    requires Points(all, LinksOf(f, path))
    requires entry == At(all, f.call[id]) && entry.mate == At(all, f.ret[id])
    modifies all
    ensures ValidPath(f, path + [id])
    ensures Points(all, LinksOf(f, path + [id]))
  {
    ghost var l := LinksOf(f, path);
    LinksAfter(f, path, id);
    hide LinksOf;
    hide Points;
    hide Inner;
    Detach(entry, all, l, f.call[id]);
    Detach(entry.mate, all, Unlink(l, f.call[id]), f.ret[id]);
  }

  /** Puts the last lifted call and its return back: every pointer is as it was. */
  method Unlift<I, O>(entry: Node<I, O>, ghost all: seq<Node<I, O>>, ghost f: Layout, ghost path: seq<nat>, ghost id: nat)
    requires ValidPath(f, path) && id < |f.call| && id !in path
    requires ValidPath(f, path + [id]) && Points(all, LinksOf(f, path + [id]))
    requires entry == At(all, f.call[id]) && entry.mate == At(all, f.ret[id])
    modifies all
    ensures Points(all, LinksOf(f, path))
  {
    ghost var l := LinksOf(f, path);
    ghost var c, r := f.call[id], f.ret[id];
    LinksAfter(f, path, id);
    LiftUndone(l, c, r);
    hide LinksOf;
    hide Points;
    hide Relinkable;
    Attach(entry.mate, all, Lifted(l, c, r), r);
    Attach(entry, all, Relink(Lifted(l, c, r), r), c);
  }

  // ---- building the list -------------------------------------------------------------

  ghost function Around<I, O>(n: Node<I, O>, mark: Node?<I, O>): (r: set<object>)
    reads mark
  {
    {n} + (if mark == null then {} else {mark}) +
    (if mark == null || mark.prev == null then {} else {mark.prev})
  }

  method InsertBefore<I, O>(n: Node<I, O>, mark: Node?<I, O>) returns (r: Node<I, O>)
    requires mark != null ==> n != mark && n != mark.prev && mark != mark.prev
    modifies Around(n, mark)
    ensures r == n
    ensures mark != null ==> mark.prev == n && n.next == mark && mark.next == old(mark.next)
    ensures mark != null && old(mark.prev) == null ==> n.prev == old(n.prev)
    ensures mark != null && old(mark.prev) != null ==> n.prev == old(mark.prev) && old(mark.prev).next == n
    ensures mark == null ==> n.next == old(n.next) && n.prev == old(n.prev)
  {
    if mark != null {
      var beforeMark := mark.prev;
      mark.prev := n;
      n.next := mark;
      if beforeMark != null {
        n.prev := beforeMark;
        beforeMark.next := n;
      }
    }
    return n;
  }

  ghost function LayoutOf<I, O>(h: seq<Entry<I, O>>): (f: Layout)
    requires WellFormed(h)
    ensures f.len == |h| + 1 && |f.call| == |f.ret| == Size(h)
  {
    Layout(|h| + 1,
           seq(Size(h), id requires 0 <= id < Size(h) => CallAt(h, id) + 1),
           seq(Size(h), id requires 0 <= id < Size(h) => ReturnAt(h, id) + 1))
  }

  lemma LayoutAt<I, O>(h: seq<Entry<I, O>>, id: nat)
    requires WellFormed(h) && id < Size(h)
    ensures LayoutOf(h).call[id] == CallAt(h, id) + 1
    ensures LayoutOf(h).ret[id] == ReturnAt(h, id) + 1
  {
  }

  lemma LayoutIsValid<I, O>(h: seq<Entry<I, O>>)
    requires WellFormed(h)
    ensures ValidLayout(LayoutOf(h))
  {
  }

  /** What stays fixed about the node of entry i: its id, its value and its mate. */
  ghost predicate Stands<I, O>(h: seq<Entry<I, O>>, nodes: seq<Node?<I, O>>, n: Node?<I, O>, i: nat)
    requires WellFormed(h) && |nodes| == |h| && i < |h|
  {
    && n != null
    && n.at == i + 1
    && n.id == h[i].id
    && match h[i]
       case CallEntry(id, _, _, input) =>
         n.value == In(input) && n.mate == nodes[ReturnAt(h, id)] && n.mate != null
       case ReturnEntry(_, _, _, output) =>
         n.value == Out(output) && n.mate == null
  }

  ghost predicate Matched<I, O>(h: seq<Entry<I, O>>, nodes: seq<Node?<I, O>>, matches: map<int, Node<I, O>>, from: nat)
    requires |nodes| == |h|
  {
    forall j: nat | from <= j < |h| && h[j].ReturnEntry? ::
      h[j].id in matches && matches[h[j].id] == nodes[j]
  }

  method NewNode<I, O>(h: seq<Entry<I, O>>, i: nat, matches: map<int, Node<I, O>>, ghost nodes: seq<Node?<I, O>>)
    returns (entry: Node<I, O>, matches': map<int, Node<I, O>>)
    requires WellFormed(h) && i < |h| == |nodes|
    requires Matched(h, nodes, matches, i + 1)
    ensures fresh(entry) && entry.next == null && entry.prev == null
    ensures Stands(h, nodes, entry, i)
    ensures Matched(h, nodes[i := entry], matches', i)
  {
    var elem := h[i];
    EntryPosition(h, i);
    if elem.ReturnEntry? {
      entry := new Node<I, O>(Out(elem.output), null, elem.id, i + 1);
      matches' := matches[elem.id := entry];
    } else {
      var mate := if elem.id in matches then matches[elem.id] else null;
      entry := new Node<I, O>(In(elem.input), mate, elem.id, i + 1);
      matches' := matches;
      assert h[ReturnAt(h, elem.id)].ReturnEntry?;
    }
  }

  ghost predicate ChainedAt<I, O>(nodes: seq<Node?<I, O>>, from: nat, i: nat)
    requires from <= i < |nodes|
    reads nodes[i]
  {
    && nodes[i] != null
    && nodes[i].at == i + 1
    && nodes[i].next == (if i + 1 < |nodes| then nodes[i + 1] else null)
    && nodes[i].prev == (if i > from then nodes[i - 1] else null)
  }

  /** From `from` on the nodes point to each other in order, and nothing leads out. */
  ghost predicate Chained<I, O>(nodes: seq<Node?<I, O>>, from: nat)
    reads nodes
  {
    forall i: nat | from <= i < |nodes| :: ChainedAt(nodes, from, i)
  }

  method Prepend<I, O>(entry: Node<I, O>, root: Node?<I, O>, ghost nodes: seq<Node?<I, O>>, ghost i: nat)
    requires i < |nodes| && Chained(nodes, i + 1)
    requires root == (if i + 1 < |nodes| then nodes[i + 1] else null)
    requires entry.at == i + 1 && entry.next == null && entry.prev == null
    modifies entry, root
    ensures Chained(nodes[i := entry], i)
  {
    assert root != null ==> ChainedAt(nodes, i + 1, i + 1);
    var _ := InsertBefore(entry, root);
    ghost var after := nodes[i := entry];
    forall j: nat | i <= j < |after| ensures ChainedAt(after, i, j) {
      if j > i { assert old(ChainedAt(nodes, i + 1, j)); }
    }
  }

  ghost predicate StandsFrom<I, O>(h: seq<Entry<I, O>>, nodes: seq<Node?<I, O>>, from: nat)
    requires WellFormed(h) && |nodes| == |h|
  {
    forall j: nat | from <= j < |h| :: Stands(h, nodes, nodes[j], j)
  }

  lemma StandsPrepend<I, O>(h: seq<Entry<I, O>>, nodes: seq<Node?<I, O>>, n: Node<I, O>, i: nat)
    requires WellFormed(h) && i < |nodes| == |h|
    requires StandsFrom(h, nodes, i + 1) && Stands(h, nodes, n, i)
    ensures StandsFrom(h, nodes[i := n], i)
  {
    forall j: nat | i <= j < |h| && h[j].CallEntry?
      ensures ReturnAt(h, h[j].id) != i
    {
      EntryPosition(h, j);
    }
  }

  lemma NothingStands<I, O>(h: seq<Entry<I, O>>, nodes: seq<Node?<I, O>>)
    requires WellFormed(h) && |nodes| == |h|
    ensures StandsFrom(h, nodes, |h|) && Matched(h, nodes, map[], |h|) && Chained(nodes, |h|)
  {
    hide WellFormed;
  }

  /** Builds the list from the back, pairing each call with its return. */
  method MakeLinkedEntries<I, O>(h: seq<Entry<I, O>>) returns (root: Node?<I, O>, ghost nodes: seq<Node?<I, O>>)
    requires WellFormed(h)
    ensures |nodes| == |h| && StandsFrom(h, nodes, 0) && Chained(nodes, 0)
    ensures forall i | 0 <= i < |nodes| :: fresh(nodes[i])
    ensures root == (if |h| > 0 then nodes[0] else null)
  {
    hide *;
    root := null;
    var matches: map<int, Node<I, O>> := map[];
    nodes := seq(|h|, _ => null);
    NothingStands(h, nodes);
    var i := |h|;
    while i > 0
      invariant 0 <= i <= |h| == |nodes|
      invariant StandsFrom(h, nodes, i) && Matched(h, nodes, matches, i)
      invariant Chained(nodes, i)
      invariant forall j | i <= j < |nodes| :: fresh(nodes[j])
      invariant root == (if i < |nodes| then nodes[i] else null)
    {
      i := i - 1;
      var entry;
      entry, matches := NewNode(h, i, matches, nodes);
      StandsPrepend(h, nodes, entry, i);
      Prepend(entry, root, nodes, i);
      root := entry;
      nodes := nodes[i := entry];
    }
  }

  /** The nodes of a run, head first, stand for the entries of h. */
  ghost predicate StandsIn<I, O>(h: seq<Entry<I, O>>, all: seq<Node<I, O>>)
    requires WellFormed(h)
  {
    && |all| == |h| + 1
    && all[0].mate == null
    && StandsFrom(h, all[1..], 0)
  }

  ghost predicate HeadedAt<I, O>(nodes: seq<Node?<I, O>>, head: Node<I, O>, i: nat)
    requires i < |nodes|
    reads nodes[i]
  {
    && nodes[i] != null && nodes[i].at == i + 1
    && nodes[i].next == (if i + 1 < |nodes| then nodes[i + 1] else null)
    && nodes[i].prev == (if i > 0 then nodes[i - 1] else head)
  }

  /** A head in front of chained nodes gives the initial pointers. */
  lemma HeadPoints<I, O>(all: seq<Node<I, O>>, nodes: seq<Node?<I, O>>)
    requires |all| == |nodes| + 1 && forall i | 0 <= i < |nodes| :: all[i + 1] == nodes[i]
    requires all[0].at == 0 && all[0].prev == null
    requires all[0].next == (if |nodes| > 0 then nodes[0] else null)
    requires forall i: nat | i < |nodes| :: HeadedAt(nodes, all[0], i)
    ensures Points(all, Initial(|all|))
  {
    forall i | 0 <= i < |all|
      ensures all[i].at == i
      ensures all[i].next == At(all, Initial(|all|).next[i])
      ensures all[i].prev == At(all, Initial(|all|).prev[i])
    {
      if i > 0 {
        assert HeadedAt(nodes, all[0], i - 1);
        assert i > 1 ==> all[i - 1] == nodes[i - 2];
        assert i < |nodes| ==> all[i + 1] == nodes[i];
      }
    }
  }

  ghost function NonNull<I, O>(nodes: seq<Node?<I, O>>): (r: seq<Node<I, O>>)
    requires Chained(nodes, 0)
    reads nodes
    ensures r == nodes
  {
    assert forall i: nat | i < |nodes| :: ChainedAt(nodes, 0, i) && nodes[i] != null;
    seq(|nodes|, i requires 0 <= i < |nodes| && nodes[i] != null => nodes[i])
  }

  /** Puts the head node, which has no operation, in front of the list. */
  method AddHead<I, O>(root: Node?<I, O>, ghost nodes: seq<Node?<I, O>>)
    returns (head: Node<I, O>, ghost all: seq<Node<I, O>>)
    requires Chained(nodes, 0)
    requires root == (if |nodes| > 0 then nodes[0] else null)
    modifies root
    ensures fresh(head) && head.mate == null
    ensures |all| == |nodes| + 1 && head == all[0] && all[1..] == nodes
    ensures Points(all, Initial(|nodes| + 1))
  {
    hide Points;
    hide Initial;
    head := new Node<I, O>(Nothing, null, -1, 0);
    all := [head] + NonNull(nodes);
    assert root != null ==> ChainedAt(nodes, 0, 0);
    var _ := InsertBefore(head, root);
    forall i: nat | i < |nodes| ensures HeadedAt(nodes, head, i) {
      assert old(ChainedAt(nodes, 0, i));
    }
    HeadPoints(all, nodes);
  }

  method Length<I, O>(root: Node?<I, O>, ghost nodes: seq<Node?<I, O>>) returns (l: nat)
    requires Chained(nodes, 0)
    requires root == (if |nodes| > 0 then nodes[0] else null)
    ensures l == |nodes|
  {
    l := 0;
    var n := root;
    assert forall i: nat | i < |nodes| :: nodes[i] != null by {
      forall i: nat | i < |nodes| ensures nodes[i] != null { assert ChainedAt(nodes, 0, i); }
    }
    while n != null
      invariant l <= |nodes|
      invariant n == (if l < |nodes| then nodes[l] else null)
      decreases |nodes| - l
    {
      assert l < |nodes| ==> ChainedAt(nodes, 0, l);
      n := n.next;
      l := l + 1;
    }
  }
}
