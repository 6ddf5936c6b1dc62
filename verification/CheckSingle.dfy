/**
 The linearizability search itself: an iterative backtracking walk over the linked
 list, with an explicit stack, a bitset of chosen operations and a cache of visited
 (set, state) pairs.
 */
module CheckSingle {
  import opened History
  import opened Search
  import opened NodeList
  import opened Moves
  import B = Bitset
  import C = Cache

  // ---- one call ---------------------------------------------------------------------------

  /** The node at the cursor is a call: its value, id and mate are those of the operation. */
  lemma CallNode<I, O>(h: seq<Entry<I, O>>, all: seq<Node<I, O>>, i: nat)
    requires WellFormed(h) && StandsIn(h, all) && i < |h|
    ensures all[i + 1].at == i + 1 && all[i + 1].id == h[i].id
    ensures h[i].CallEntry? <==> all[i + 1].mate != null
    ensures h[i].CallEntry? ==>
      && all[i + 1] == all[CallAt(h, h[i].id) + 1]
      && all[i + 1].mate == all[ReturnAt(h, h[i].id) + 1]
      && all[i + 1].value == In(OpOf(h, h[i].id).input)
      && all[i + 1].mate.value == Out(OpOf(h, h[i].id).output)
  {
    assert Stands(h, all[1..], all[1..][i], i);
    EntryPosition(h, i);
    if h[i].CallEntry? {
      var r := ReturnAt(h, h[i].id);
      assert Stands(h, all[1..], all[1..][r], r);
    }
  }

  /** Some recorded pair has this set and a state equal to s. */
  ghost predicate Hit<S, I, O>(m: Model<S, I, O>, pairs: seq<(set<nat>, S)>, done: set<nat>, s: S)
  {
    exists p :: p in pairs && p.0 == done && m.equal(s, p.1)
  }

  // ---- recording prefixes ---------------------------------------------------------------

  datatype CallsEntry<S, I, O> = CallsEntry(entry: Node<I, O>, state: S)

  method RecordLongest<S, I, O>(calls: seq<CallsEntry<S, I, O>>, longest: Longest, ghost path: seq<nat>)
    returns (longest': Longest)
    requires |calls| == |path|
    requires forall d | 0 <= d < |path| :: calls[d].entry.id == path[d] && path[d] < |longest|
    ensures |longest'| == |longest|
    ensures forall i: nat | i < |longest| :: longest'[i] == Recorded(longest, path, i)
    ensures forall i: nat | i < |longest| ::
      longest'[i] == if i in path && (longest[i].None? || |longest[i].value| < |path|) then Some(path) else longest[i]
  {
    longest' := longest;
    var callsLen := |calls|;
    var ids: seq<nat> := [];
    var made := false;
    for d := 0 to callsLen
      invariant |longest'| == |longest|
      invariant made ==> ids == path
      invariant forall i: nat | i < |longest| ::
        longest'[i] == if i in path[..d] then Recorded(longest, path, i) else longest[i]
    {
      var v := calls[d];
      if longest'[v.entry.id].None? || callsLen > |longest'[v.entry.id].value| {
        if !made {
          ids := seq(callsLen, k requires 0 <= k < callsLen => calls[k].entry.id);
          made := true;
        }
        longest' := longest'[v.entry.id := Some(ids)];
      }
    }
  }

  // ---- the search loop -------------------------------------------------------------------------

  lemma ListNext<I, O>(h: seq<Entry<I, O>>, all: seq<Node<I, O>>, path: seq<nat>, i: nat)
    requires WellFormed(h) && ValidPath(LayoutOf(h), path) && |all| == |h| + 1
    requires Points(all, LinksOf(LayoutOf(h), path))
    requires i < |h| && h[i].id !in path
    ensures all[i + 1].next == At(all, NextIndex(h, path, i + 1) + 1)
  {
    hide *;
    LiveEntry(h, path, i);
    NextNode(h, all, path, i + 1);
  }

  lemma ListFirst<I, O>(h: seq<Entry<I, O>>, all: seq<Node<I, O>>, path: seq<nat>)
    requires WellFormed(h) && ValidPath(LayoutOf(h), path) && |all| == |h| + 1
    requires Points(all, LinksOf(LayoutOf(h), path))
    ensures all[0].next == At(all, NextIndex(h, path, 0) + 1)
    ensures all[0].next == null <==> |path| == Size(h)
  {
    LiveMeaning(LayoutOf(h), path, 0);
    NextNode(h, all, path, 0);
    EmptyList(h, path);
  }

  /** The stack holds, level by level, the node of the chosen call and the state before it. */
  ghost predicate StackOk<S, I, O>(h: seq<Entry<I, O>>, all: seq<Node<I, O>>, calls: seq<CallsEntry<S, I, O>>, path: seq<nat>, states: seq<S>)
    requires WellFormed(h) && |all| == |h| + 1
  {
    && |calls| == |path|
    && |states| == |path| + 1
    && forall d | 0 <= d < |path| ::
      path[d] < Size(h) && calls[d].entry == all[CallAt(h, path[d]) + 1] && calls[d].state == states[d]
  }

  /** The list on the heap is that of the path, and entry is the node at the cursor. */
  ghost predicate ListSync<I, O>(h: seq<Entry<I, O>>, all: seq<Node<I, O>>, headEntry: Node<I, O>, entry: Node?<I, O>, path: seq<nat>, cursor: nat)
    requires WellFormed(h) && ValidPath(LayoutOf(h), path)
    reads all
  {
    && StandsIn(h, all)
    && |all| == |h| + 1
    && headEntry == all[0]
    && entry == At(all, cursor + 1)
    && Points(all, LinksOf(LayoutOf(h), path))
  }

  /**
   The bitset holds exactly the ids on the path and the cache exactly the recorded pairs;
   the bitset is none of those kept in the cache.
   */
  ghost predicate SetsSync<S>(linearized: array<B.Word>, n: nat, path: seq<nat>,
                              cache: C.Buckets<S>, frozen: set<array<B.Word>>, pairs: seq<(set<nat>, S)>)
    reads linearized, frozen
  {
    && B.Members(linearized[..]) == Done(path)
    && n <= B.WORD_BITS * linearized.Length
    && linearized !in frozen
    && C.Holds(cache, frozen, linearized.Length, pairs)
  }

  /** The population count of the bitset is the depth of the stack. */
  lemma PopulationIsDepth<S, I, O>(h: seq<Entry<I, O>>, all: seq<Node<I, O>>, calls: seq<CallsEntry<S, I, O>>, path: seq<nat>, states: seq<S>,
                                   linearized: array<B.Word>, cache: C.Buckets<S>, frozen: set<array<B.Word>>, pairs: seq<(set<nat>, S)>)
    requires WellFormed(h) && |all| == |h| + 1 && ValidPath(LayoutOf(h), path)
    requires StackOk(h, all, calls, path, states) && SetsSync(linearized, Size(h), path, cache, frozen, pairs)
    ensures B.Total(linearized[..]) == |calls|
    ensures forall id: nat :: id in B.Members(linearized[..]) <==> exists d :: 0 <= d < |calls| && path[d] == id
  {
    DoneSize(path);
    B.TotalIsSize(linearized[..]);
  }

  lemma HitIsMatch<S, I, O>(m: Model<S, I, O>, entry: C.CacheEntry<S>, pairs: seq<(set<nat>, S)>, done: set<nat>)
    requires B.Members(entry.linearized[..]) == done
    ensures Hit(m, pairs, done, entry.state) <==> exists p :: p in pairs && C.Matches(m, entry, p)
  {
    hide B.Members;
    if p :| p in pairs && p.0 == done && m.equal(entry.state, p.1) {
      assert C.Matches(m, entry, p);
    }
  }

  /**
   Tries the call of a node: steps the model and looks the new pair up. A pair that is
   new goes into the cache; the bitsets already in the cache are left alone.
   */
  method TryCall<S, I, O>(
    m: Model<S, I, O>, entry: Node<I, O>, state: S, linearized: array<B.Word>, cache: C.Buckets<S>,
    ghost op: Op<I, O>, ghost done: set<nat>, ghost frozen: set<array<B.Word>>, ghost pairs: seq<(set<nat>, S)>)
    returns (push: bool, newState: S, cache': C.Buckets<S>, ghost frozen': set<array<B.Word>>)
    requires entry.mate != null && entry.value == In(op.input) && entry.mate.value == Out(op.output)
    requires 0 <= entry.id < B.WORD_BITS * linearized.Length
    requires B.Members(linearized[..]) == done
    requires C.Holds(cache, frozen, linearized.Length, pairs) && linearized !in frozen
    ensures linearized !in frozen'
    ensures newState == m.step(state, op.input, op.output).1
    ensures push <==> m.step(state, op.input, op.output).0 && !Hit(m, pairs, done + {entry.id}, newState)
    ensures C.Holds(cache', frozen', linearized.Length, if push then pairs + [(done + {entry.id}, newState)] else pairs)
  {
    hide C.Holds; hide C.Matches; hide B.Members; hide Hit;
    push, cache', frozen' := false, cache, frozen;
    var matching := entry.mate;
    var r := m.step(state, entry.value.input, matching.value.output);
    newState := r.1;
    if r.0 {
      var newLinearized := B.Clone(linearized);
      newLinearized := B.Set(newLinearized, entry.id);
      var newEntry := C.CacheEntry(newLinearized, newState);
      var found := C.CacheContains(m, cache, newEntry, frozen, pairs);
      HitIsMatch(m, newEntry, pairs, done + {entry.id});
      if !found {
        cache' := C.Add(cache, newEntry, frozen, pairs);
        frozen' := frozen + {newLinearized};
        push := true;
      }
    }
  }

  /** TryCall beside a list, which it does not touch. */
  method TryOnly<S, I, O>(
    m: Model<S, I, O>, entry: Node<I, O>, state: S, linearized: array<B.Word>, cache: C.Buckets<S>,
    ghost op: Op<I, O>, ghost n: nat, ghost path: seq<nat>, ghost frozen: set<array<B.Word>>, ghost pairs: seq<(set<nat>, S)>,
    ghost all: seq<Node<I, O>>, ghost l: Links)
    returns (push: bool, newState: S, cache': C.Buckets<S>, ghost frozen': set<array<B.Word>>)
    requires entry.mate != null && entry.value == In(op.input) && entry.mate.value == Out(op.output)
    requires 0 <= entry.id < n
    requires SetsSync(linearized, n, path, cache, frozen, pairs) && Points(all, l)
    ensures newState == m.step(state, op.input, op.output).1
    ensures push <==> m.step(state, op.input, op.output).0 && !Hit(m, pairs, Done(path) + {entry.id}, newState)
    ensures SetsSync(linearized, n, path, cache', frozen',
                     if push then pairs + [(Done(path) + {entry.id}, newState)] else pairs)
    ensures Points(all, l)
  {
    hide Points;
    hide C.Holds;
    hide B.Members;
    hide Hit;
    push, newState, cache', frozen' := TryCall(m, entry, state, linearized, cache, op, Done(path), frozen, pairs);
  }

  lemma SyncCall<I, O>(h: seq<Entry<I, O>>, all: seq<Node<I, O>>, headEntry: Node<I, O>, entry: Node<I, O>, path: seq<nat>, cursor: nat)
    requires WellFormed(h) && ValidPath(LayoutOf(h), path) && cursor < |h|
    requires ListSync(h, all, headEntry, entry, path, cursor)
    ensures entry.id == h[cursor].id < Size(h)
    ensures h[cursor].CallEntry? <==> entry.mate != null
    ensures h[cursor].CallEntry? ==>
      && entry == At(all, LayoutOf(h).call[h[cursor].id])
      && entry.mate == At(all, LayoutOf(h).ret[h[cursor].id])
      && entry.value == In(OpOf(h, h[cursor].id).input)
      && entry.mate.value == Out(OpOf(h, h[cursor].id).output)
  {
    hide *;
    EntryId(h, cursor);
    SyncEntry(h, all, headEntry, entry, path, cursor);
    NodesOf(h, all, h[cursor].id);
    CallNode(h, all, cursor);
  }

  lemma SyncEntry<I, O>(h: seq<Entry<I, O>>, all: seq<Node<I, O>>, headEntry: Node<I, O>, entry: Node<I, O>, path: seq<nat>, cursor: nat)
    requires WellFormed(h) && ValidPath(LayoutOf(h), path) && cursor < |h|
    requires ListSync(h, all, headEntry, entry, path, cursor)
    ensures StandsIn(h, all) && |all| == |h| + 1
    ensures entry == all[cursor + 1]
  {
  }

  /** The layout's positions of an operation are those of its two nodes. */
  lemma NodesOf<I, O>(h: seq<Entry<I, O>>, all: seq<Node<I, O>>, id: nat)
    requires WellFormed(h) && id < Size(h) && |all| == |h| + 1
    ensures |LayoutOf(h).call| == |LayoutOf(h).ret| == Size(h)
    ensures LayoutOf(h).call[id] == CallAt(h, id) + 1 && LayoutOf(h).ret[id] == ReturnAt(h, id) + 1
    ensures At(all, LayoutOf(h).call[id]) == all[CallAt(h, id) + 1]
    ensures At(all, LayoutOf(h).ret[id]) == all[ReturnAt(h, id) + 1]
    ensures CallAt(h, id) < |h| && h[CallAt(h, id)].CallEntry? && h[CallAt(h, id)].id == id
  {
    hide WellFormed;
    LayoutAt(h, id);
  }

  /** Moves to the next node of the list. */
  method Advance<I, O>(entry: Node<I, O>,
    ghost h: seq<Entry<I, O>>, ghost all: seq<Node<I, O>>, ghost headEntry: Node<I, O>, ghost path: seq<nat>, ghost cursor: nat)
    returns (entry': Node?<I, O>)
    requires WellFormed(h) && ValidPath(LayoutOf(h), path) && cursor < |h| && h[cursor].id !in path
    requires ListSync(h, all, headEntry, entry, path, cursor)
    ensures ListSync(h, all, headEntry, entry', path, NextIndex(h, path, cursor + 1))
  {
    hide WellFormed;
    hide ValidPath;
    hide LinksOf;
    hide StandsIn;
    hide Points;
    ListNext(h, all, path, cursor);
    entry' := entry.next;
  }

  /** Puts id into the bitset; the cache and the list are not touched. */
  method Mark<S, I, O>(linearized: array<B.Word>, id: nat, ghost n: nat, ghost path: seq<nat>,
    ghost cache: C.Buckets<S>, ghost frozen: set<array<B.Word>>, ghost pairs: seq<(set<nat>, S)>,
    ghost all: seq<Node<I, O>>, ghost l: Links)
    requires SetsSync(linearized, n, path, cache, frozen, pairs) && id < n && Points(all, l)
    modifies linearized
    ensures SetsSync(linearized, n, path + [id], cache, frozen, pairs) && Points(all, l)
  {
    hide Points;
    hide B.Members;
    hide C.Holds;
    var _ := B.Set(linearized, id);
    Prefix(path, id);
  }

  /** Takes id out of the bitset; the cache and the list are not touched. */
  method Unmark<S, I, O>(linearized: array<B.Word>, id: nat, ghost n: nat, ghost path: seq<nat>,
    ghost cache: C.Buckets<S>, ghost frozen: set<array<B.Word>>, ghost pairs: seq<(set<nat>, S)>,
    ghost all: seq<Node<I, O>>, ghost l: Links)
    requires SetsSync(linearized, n, path + [id], cache, frozen, pairs) && id < n && id !in path && Points(all, l)
    modifies linearized
    ensures SetsSync(linearized, n, path, cache, frozen, pairs) && Points(all, l)
  {
    hide Points;
    hide B.Members;
    hide C.Holds;
    var _ := B.Clear(linearized, id);
    Prefix(path, id);
    assert Done(path + [id]) - {id} == Done(path);
  }

  /** Lifts a call; the bitset and the cache are not touched. */
  method LiftOnly<S, I, O>(entry: Node<I, O>, ghost all: seq<Node<I, O>>, ghost f: Layout, ghost path: seq<nat>, ghost id: nat,
    ghost linearized: array<B.Word>, ghost n: nat, ghost ids: seq<nat>,
    ghost cache: C.Buckets<S>, ghost frozen: set<array<B.Word>>, ghost pairs: seq<(set<nat>, S)>)
    requires ValidPath(f, path) && id < |f.call| && id !in path && Points(all, LinksOf(f, path))
    requires entry == At(all, f.call[id]) && entry.mate == At(all, f.ret[id])
    requires SetsSync(linearized, n, ids, cache, frozen, pairs)
    modifies all
    ensures ValidPath(f, path + [id]) && Points(all, LinksOf(f, path + [id]))
    ensures SetsSync(linearized, n, ids, cache, frozen, pairs)
  {
    hide *;
    Lift(entry, all, f, path, id);
  }

  /** Unlifts a call; the bitset and the cache are not touched. */
  method UnliftOnly<S, I, O>(entry: Node<I, O>, ghost all: seq<Node<I, O>>, ghost f: Layout, ghost path: seq<nat>, ghost id: nat,
    ghost linearized: array<B.Word>, ghost n: nat, ghost ids: seq<nat>,
    ghost cache: C.Buckets<S>, ghost frozen: set<array<B.Word>>, ghost pairs: seq<(set<nat>, S)>)
    requires ValidPath(f, path) && id < |f.call| && id !in path
    requires ValidPath(f, path + [id]) && Points(all, LinksOf(f, path + [id]))
    requires entry == At(all, f.call[id]) && entry.mate == At(all, f.ret[id])
    requires SetsSync(linearized, n, ids, cache, frozen, pairs)
    modifies all
    ensures Points(all, LinksOf(f, path))
    ensures SetsSync(linearized, n, ids, cache, frozen, pairs)
  {
    hide *;
    Unlift(entry, all, f, path, id);
  }

  /** Takes the call at the cursor and its return out of the list and starts over. */
  method Choose<S, I, O>(headEntry: Node<I, O>, entry: Node<I, O>, linearized: array<B.Word>,
    ghost h: seq<Entry<I, O>>, ghost all: seq<Node<I, O>>, ghost path: seq<nat>, ghost cursor: nat,
    ghost cache: C.Buckets<S>, ghost frozen: set<array<B.Word>>, ghost pairs: seq<(set<nat>, S)>)
    returns (entry': Node?<I, O>)
    requires WellFormed(h) && ValidPath(LayoutOf(h), path)
    requires cursor < |h| && h[cursor].CallEntry? && h[cursor].id !in path
    requires ListSync(h, all, headEntry, entry, path, cursor)
    requires SetsSync(linearized, Size(h), path, cache, frozen, pairs)
    modifies all, linearized
    ensures ValidPath(LayoutOf(h), path + [h[cursor].id])
    ensures ListSync(h, all, headEntry, entry', path + [h[cursor].id], NextIndex(h, path + [h[cursor].id], 0))
    ensures SetsSync(linearized, Size(h), path + [h[cursor].id], cache, frozen, pairs)
  {
    SyncCall(h, all, headEntry, entry, path, cursor);
    hide WellFormed;
    hide ValidPath;
    hide LinksOf;
    hide StandsIn;
    hide Points;
    hide SetsSync;
    ghost var f, id := LayoutOf(h), h[cursor].id;
    Mark(linearized, entry.id, Size(h), path, cache, frozen, pairs, all, LinksOf(f, path));
    LiftOnly(entry, all, f, path, id, linearized, Size(h), path + [id], cache, frozen, pairs);
    entry' := headEntry.next;
    ListFirst(h, all, path + [id]);
  }

  /** Puts the last chosen call and its return back and moves on from the call. */
  method Undo<S, I, O>(entry: Node<I, O>, linearized: array<B.Word>,
    ghost h: seq<Entry<I, O>>, ghost all: seq<Node<I, O>>, ghost headEntry: Node<I, O>, ghost path: seq<nat>, ghost id: nat,
    ghost cache: C.Buckets<S>, ghost frozen: set<array<B.Word>>, ghost pairs: seq<(set<nat>, S)>)
    returns (entry': Node?<I, O>)
    requires WellFormed(h) && ValidPath(LayoutOf(h), path) && id < Size(h) && id !in path
    requires ValidPath(LayoutOf(h), path + [id])
    requires |all| == |h| + 1 && StandsIn(h, all) && headEntry == all[0]
    requires Points(all, LinksOf(LayoutOf(h), path + [id]))
    requires entry == all[CallAt(h, id) + 1]
    requires SetsSync(linearized, Size(h), path + [id], cache, frozen, pairs)
    modifies all, linearized
    ensures ListSync(h, all, headEntry, entry', path, NextIndex(h, path, CallAt(h, id) + 1))
    ensures SetsSync(linearized, Size(h), path, cache, frozen, pairs)
  {
    hide *;
    ghost var f, c := LayoutOf(h), CallAt(h, id);
    NodesOf(h, all, id);
    CallNode(h, all, c);
    Unmark(linearized, entry.id, Size(h), path, cache, frozen, pairs, all, LinksOf(f, path + [id]));
    UnliftOnly(entry, all, f, path, id, linearized, Size(h), path, cache, frozen, pairs);
    SyncIntro(h, all, headEntry, entry, path, c);
    entry' := Advance(entry, h, all, headEntry, path, c);
  }

  // ---- the whole search -------------------------------------------------------------------

  ghost predicate NeverKilled(kill: nat -> int)
  {
    forall t: nat :: kill(t) == 0
  }

  lemma StartSync<I, O>(h: seq<Entry<I, O>>, all: seq<Node<I, O>>, headEntry: Node<I, O>, entry: Node?<I, O>, nodes: seq<Node?<I, O>>)
    requires WellFormed(h) && |nodes| == |h| && StandsFrom(h, nodes, 0)
    requires |all| == |nodes| + 1 && headEntry == all[0] && all[1..] == nodes && headEntry.mate == null
    requires entry == (if |h| > 0 then nodes[0] else null) && Points(all, Initial(|nodes| + 1))
    ensures |h| / 2 == Size(h) && ValidPath(LayoutOf(h), []) && ListSync(h, all, headEntry, entry, [], 0)
  {
    LayoutIsValid(h);
    hide StandsFrom; hide Points; hide ValidLayout; hide WellFormed;
    assert LinksOf(LayoutOf(h), []) == Initial(|h| + 1);
    assert entry == At(all, 1);
  }

  /** Builds the list with its head in front: nothing is chosen yet. */
  method Prepare<I, O>(h: seq<Entry<I, O>>) returns (headEntry: Node<I, O>, entry: Node?<I, O>, n: nat, ghost all: seq<Node<I, O>>)
    requires WellFormed(h)
    ensures n == Size(h) && ValidPath(LayoutOf(h), [])
    ensures ListSync(h, all, headEntry, entry, [], 0)
    ensures forall i | 0 <= i < |all| :: fresh(all[i])
  {
    hide *;
    ghost var nodes;
    entry, nodes := MakeLinkedEntries(h);
    var len := Length(entry, nodes);
    n := len / 2;
    headEntry, all := AddHead(entry, nodes);
    StartSync(h, all, headEntry, entry, nodes);
  }

  /** What the verdict and the recorded prefixes mean. */
  ghost predicate Verdict<S, I, O>(m: Model<S, I, O>, h: seq<Entry<I, O>>, partial: bool, killed: bool, ok: bool, longest: Longest)
    requires WellFormed(h)
  {
    && PrefixesValid(m, h, longest)
    && (ok ==> Linearizable(m, h))
    && (ok ==> forall i | 0 <= i < |longest| :: longest[i].Some? && IsLinearization(m, h, longest[i].value))
    && (!ok && !killed ==> !Linearizable(m, h))
    && ((ok || (partial && !killed)) ==> Maximal(m, h, longest))
  }

  lemma KilledVerdict<S, I, O>(m: Model<S, I, O>, h: seq<Entry<I, O>>, partial: bool, x: Moment<S>)
    requires WellFormed(h) && Good(m, h, partial, x)
    ensures Verdict(m, h, partial, true, false, x.longest)
  {
  }

  lemma FailVerdict<S, I, O>(m: Model<S, I, O>, h: seq<Entry<I, O>>, partial: bool, x: Moment<S>, killed: bool)
    requires WellFormed(h) && Good(m, h, partial, x)
    requires x.cursor < |h| && h[x.cursor].ReturnEntry? && x.path == []
    ensures Verdict(m, h, partial, killed, false, x.longest) && !Linearizable(m, h)
  {
    EmptyPathRefutes(m, h, partial, x);
  }

  /** No partial linearization is longer than a full one, which has every operation. */
  lemma FullCovers<S, I, O>(m: Model<S, I, O>, h: seq<Entry<I, O>>, path: seq<nat>, longest: Longest)
    requires WellFormed(h) && |path| == Size(h) == |longest| && forall i | 0 <= i < |longest| :: longest[i] == Some(path)
    ensures Maximal(m, h, longest)
  {
    hide WellFormed; hide Size;
    forall p, i: nat | IsPartial(m, h, p) && i < Size(h) && i in p ensures Covers(longest, i, |p|) {
      PartialIsShort(m, h, p);
    }
  }

  lemma PartialIsShort<S, I, O>(m: Model<S, I, O>, h: seq<Entry<I, O>>, p: seq<nat>)
    requires WellFormed(h) && IsPartial(m, h, p)
    ensures |p| <= Size(h)
  {
    hide WellFormed; hide Accepts; hide Before; hide Size;
    DoneSize(p);
    assert Done(p) <= Range(Size(h));
    if Done(p) != Range(Size(h)) { ProperSubset(Done(p), Range(Size(h))); }
  }

  lemma SuccessVerdict<S, I, O>(m: Model<S, I, O>, h: seq<Entry<I, O>>, partial: bool, x: Moment<S>, longest: Longest, killed: bool)
    requires WellFormed(h) && Good(m, h, partial, x) && |x.path| == Size(h)
    requires |longest| == Size(h) && forall i | 0 <= i < |longest| :: longest[i] == Some(x.path)
    ensures Verdict(m, h, partial, killed, true, longest) && Linearizable(m, h)
  {
    hide WellFormed; hide Inv; hide ValidPath; hide CursorOk; hide IsPartial; hide IsLinearization; hide Maximal; hide Size;
    FullPathLinearizes(m, h, partial, x);
    LinearizationIsFullPartial(m, h, x.path);
    PathHasAll(m, h, x.path);
    FullCovers(m, h, x.path, longest);
  }

  lemma PathHasAll<S, I, O>(m: Model<S, I, O>, h: seq<Entry<I, O>>, p: seq<nat>)
    requires WellFormed(h) && IsPartial(m, h, p) && |p| == Size(h)
    ensures forall i: nat | i < Size(h) :: i in p
  {
    hide WellFormed; hide Accepts; hide Before; hide Size;
    AllIds(Size(h), p);
  }

  lemma StackIds<S, I, O>(h: seq<Entry<I, O>>, all: seq<Node<I, O>>, calls: seq<CallsEntry<S, I, O>>, path: seq<nat>, states: seq<S>)
    requires WellFormed(h) && |all| == |h| + 1 && StandsIn(h, all) && StackOk(h, all, calls, path, states)
    ensures forall d | 0 <= d < |path| :: calls[d].entry.id == path[d] && path[d] < Size(h)
  {
    hide WellFormed;
    hide StandsIn;
    forall d | 0 <= d < |path| ensures calls[d].entry.id == path[d] && path[d] < Size(h) {
      CallNode(h, all, CallAt(h, path[d]));
    }
  }

  lemma StepIs<S, I, O>(m: Model<S, I, O>, h: seq<Entry<I, O>>, s: S, id: nat)
    requires WellFormed(h) && id < Size(h)
    ensures StepOf(m, h, s, id) == m.step(s, OpOf(h, id).input, OpOf(h, id).output)
  {
    hide WellFormed;
  }

  /** The call at the cursor is tried and either chosen or skipped. */
  method CallMove<S(!new), I(!new), O(!new)>(m: Model<S, I, O>, headEntry: Node<I, O>, entry: Node<I, O>,
    calls: seq<CallsEntry<S, I, O>>, state: S, linearized: array<B.Word>, cache: C.Buckets<S>,
    ghost h: seq<Entry<I, O>>, ghost partial: bool, ghost x: Moment<S>, ghost all: seq<Node<I, O>>, ghost frozen: set<array<B.Word>>)
    returns (entry': Node?<I, O>, calls': seq<CallsEntry<S, I, O>>, state': S, cache': C.Buckets<S>,
             ghost x': Moment<S>, ghost frozen': set<array<B.Word>>)
    requires WellFormed(h) && SameFutures(m) && Good(m, h, partial, x)
    requires ListSync(h, all, headEntry, entry, x.path, x.cursor)
    requires StackOk(h, all, calls, x.path, x.states) && state == x.states[|x.path|]
    requires SetsSync(linearized, Size(h), x.path, cache, frozen, x.cache)
    requires x.cursor < |h| && entry.mate != null
    modifies all, linearized
    ensures Good(m, h, partial, x') && Left(m, h, partial, x') < Left(m, h, partial, x)
    ensures ListSync(h, all, headEntry, entry', x'.path, x'.cursor)
    ensures StackOk(h, all, calls', x'.path, x'.states) && state' == x'.states[|x'.path|]
    ensures SetsSync(linearized, Size(h), x'.path, cache', frozen', x'.cache)
    ensures x'.longest == x.longest
  {
    hide *;
    GoodFacts(m, h, partial, x);
    SyncCall(h, all, headEntry, entry, x.path, x.cursor);
    SyncFacts(h, all, headEntry, entry, x.path, x.cursor);
    ghost var id := h[x.cursor].id;
    ghost var l := LinksOf(LayoutOf(h), x.path);
    ghost var op := OpOf(h, id);
    StepIs(m, h, state, id);
    var push, newState;
    push, newState, cache', frozen' :=
      TryOnly(m, entry, state, linearized, cache, op, Size(h), x.path, frozen, x.cache, all, l);
    SyncIntro(h, all, headEntry, entry, x.path, x.cursor);
    if push {
      calls', state' := calls + [CallsEntry(entry, state)], newState;
      entry', x' := PushMove(headEntry, entry, linearized, m, h, partial, x, newState, all, calls, cache', frozen');
    } else {
      calls', state' := calls, state;
      FruitlessIntro(m, h, x, op, newState);
      entry', x' := SkipMove(entry, m, h, partial, x, all, headEntry);
    }
  }

  /** The call at the cursor is rejected by the model or leads to a recorded pair. */
  ghost predicate Fruitless<S, I, O>(m: Model<S, I, O>, h: seq<Entry<I, O>>, x: Moment<S>)
    requires WellFormed(h)
  {
    && x.cursor < |h| && h[x.cursor].CallEntry? && h[x.cursor].id < Size(h)
    && h[x.cursor].id !in x.path
    && |x.states| == |x.path| + 1
    && var r := StepOf(m, h, x.states[|x.path|], h[x.cursor].id);
       r.0 ==> Hit(m, x.cache, Done(x.path) + {h[x.cursor].id}, r.1)
  }

  lemma FruitlessIntro<S, I, O>(m: Model<S, I, O>, h: seq<Entry<I, O>>, x: Moment<S>, op: Op<I, O>, s: S)
    requires WellFormed(h) && x.cursor < |h| && h[x.cursor].CallEntry? && h[x.cursor].id < Size(h)
    requires h[x.cursor].id !in x.path && |x.states| == |x.path| + 1
    requires op == OpOf(h, h[x.cursor].id) && s == m.step(x.states[|x.path|], op.input, op.output).1
    requires m.step(x.states[|x.path|], op.input, op.output).0 ==> Hit(m, x.cache, Done(x.path) + {h[x.cursor].id}, s)
    ensures Fruitless(m, h, x)
  {
  }

  lemma FruitlessFacts<S, I, O>(m: Model<S, I, O>, h: seq<Entry<I, O>>, x: Moment<S>)
    requires WellFormed(h) && Fruitless(m, h, x)
    ensures x.cursor < |h| && h[x.cursor].CallEntry? && h[x.cursor].id < Size(h) && h[x.cursor].id !in x.path
  {
    hide WellFormed; hide Hit;
  }

  method SkipMove<S(!new), I(!new), O(!new)>(entry: Node<I, O>,
    ghost m: Model<S, I, O>, ghost h: seq<Entry<I, O>>, ghost partial: bool, ghost x: Moment<S>,
    ghost all: seq<Node<I, O>>, ghost headEntry: Node<I, O>)
    returns (entry': Node?<I, O>, ghost x': Moment<S>)
    requires WellFormed(h) && SameFutures(m) && Good(m, h, partial, x)
    requires ListSync(h, all, headEntry, entry, x.path, x.cursor)
    requires Fruitless(m, h, x)
    ensures Good(m, h, partial, x') && Left(m, h, partial, x') < Left(m, h, partial, x)
    ensures ListSync(h, all, headEntry, entry', x'.path, x'.cursor)
    ensures x'.path == x.path && x'.states == x.states && x'.cache == x.cache && x'.longest == x.longest
  {
    hide *;
    GoodFacts(m, h, partial, x);
    FruitlessFacts(m, h, x);
    entry' := Advance(entry, h, all, headEntry, x.path, x.cursor);
    x' := SkipMoment(m, h, partial, x);
  }

  method PushMove<S, I, O>(headEntry: Node<I, O>, entry: Node<I, O>, linearized: array<B.Word>,
    ghost m: Model<S, I, O>, ghost h: seq<Entry<I, O>>, ghost partial: bool, ghost x: Moment<S>, ghost s: S,
    ghost all: seq<Node<I, O>>, ghost calls: seq<CallsEntry<S, I, O>>, ghost cache: C.Buckets<S>, ghost frozen: set<array<B.Word>>)
    returns (entry': Node?<I, O>, ghost x': Moment<S>)
    requires WellFormed(h) && Good(m, h, partial, x) && ListSync(h, all, headEntry, entry, x.path, x.cursor)
    requires x.cursor < |h| && h[x.cursor].CallEntry? && h[x.cursor].id < Size(h)
    requires StepOf(m, h, x.states[|x.path|], h[x.cursor].id) == (true, s)
    requires |all| == |h| + 1 && StackOk(h, all, calls, x.path, x.states)
    requires SetsSync(linearized, Size(h), x.path, cache, frozen, x.cache + [(Done(x.path) + {h[x.cursor].id}, s)])
    modifies all, linearized
    ensures Good(m, h, partial, x') && Left(m, h, partial, x') < Left(m, h, partial, x)
    ensures ListSync(h, all, headEntry, entry', x'.path, x'.cursor)
    ensures StackOk(h, all, calls + [CallsEntry(entry, x.states[|x.path|])], x'.path, x'.states)
    ensures s == x'.states[|x'.path|] && x'.longest == x.longest
    ensures SetsSync(linearized, Size(h), x'.path, cache, frozen, x'.cache)
  {
    hide *;
    GoodFacts(m, h, partial, x);
    SyncEntry(h, all, headEntry, entry, x.path, x.cursor);
    x' := PushMoment(m, h, partial, x, s, all, calls, entry);
    entry' := Choose(headEntry, entry, linearized, h, all, x.path, x.cursor, cache, frozen, x'.cache);
  }

  lemma SkipMoment<S(!new), I(!new), O(!new)>(m: Model<S, I, O>, h: seq<Entry<I, O>>, partial: bool, x: Moment<S>) returns (y: Moment<S>)
    requires WellFormed(h) && SameFutures(m) && Good(m, h, partial, x)
    requires Fruitless(m, h, x)
    ensures Good(m, h, partial, y) && Left(m, h, partial, y) < Left(m, h, partial, x)
    ensures y.path == x.path && y.states == x.states && y.cache == x.cache && y.longest == x.longest
    ensures ValidPath(LayoutOf(h), x.path) && y.cursor == NextIndex(h, x.path, x.cursor + 1)
  {
    hide WellFormed; hide SameFutures; hide Good; hide Hit; hide Left; hide ValidPath; hide Inv; hide StepOf;
    GoodFacts(m, h, partial, x);
    MissRefutes(m, h, partial, x, h[x.cursor].id);
    SkipGood(m, h, partial, x);
    y := SkipTo(h, x);
  }

  lemma PushMoment<S, I, O>(m: Model<S, I, O>, h: seq<Entry<I, O>>, partial: bool, x: Moment<S>, s: S,
                            all: seq<Node<I, O>>, calls: seq<CallsEntry<S, I, O>>, entry: Node<I, O>) returns (y: Moment<S>)
    requires WellFormed(h) && Good(m, h, partial, x)
    requires x.cursor < |h| && h[x.cursor].CallEntry? && h[x.cursor].id < Size(h)
    requires StepOf(m, h, x.states[|x.path|], h[x.cursor].id) == (true, s)
    requires |all| == |h| + 1 && StackOk(h, all, calls, x.path, x.states) && entry == all[x.cursor + 1]
    ensures Good(m, h, partial, y) && Left(m, h, partial, y) < Left(m, h, partial, x)
    ensures y.path == x.path + [h[x.cursor].id] && y.longest == x.longest
    ensures y.cache == x.cache + [(Done(x.path) + {h[x.cursor].id}, s)]
    ensures |y.states| == |y.path| + 1 && s == y.states[|y.path|]
    ensures ValidPath(LayoutOf(h), y.path) && y.cursor == NextIndex(h, y.path, 0)
    ensures StackOk(h, all, calls + [CallsEntry(entry, x.states[|x.path|])], y.path, y.states)
  {
    hide *;
    PushGood(m, h, partial, x, s);
    PushStack(h, all, calls, x, s, entry);
    y := PushTo(h, x, s);
  }

  lemma GoodFacts<S, I, O>(m: Model<S, I, O>, h: seq<Entry<I, O>>, partial: bool, x: Moment<S>)
    requires WellFormed(h) && Good(m, h, partial, x)
    ensures Inv(m, h, partial, x) && ValidPath(LayoutOf(h), x.path)
    ensures |x.states| == |x.path| + 1 && |x.path| <= Size(h)
    ensures x.cursor < |h| ==> h[x.cursor].id !in x.path
    ensures x.cursor == |h| ==> |x.path| == Size(h)
  {
  }

  lemma SyncFacts<I, O>(h: seq<Entry<I, O>>, all: seq<Node<I, O>>, headEntry: Node<I, O>, entry: Node?<I, O>, path: seq<nat>, cursor: nat)
    requires WellFormed(h) && ValidPath(LayoutOf(h), path)
    requires ListSync(h, all, headEntry, entry, path, cursor)
    ensures StandsIn(h, all) && |all| == |h| + 1 && headEntry == all[0]
    ensures entry == At(all, cursor + 1)
    ensures Points(all, LinksOf(LayoutOf(h), path))
  {
  }

  lemma SyncIntro<I, O>(h: seq<Entry<I, O>>, all: seq<Node<I, O>>, headEntry: Node<I, O>, entry: Node?<I, O>, path: seq<nat>, cursor: nat)
    requires WellFormed(h) && ValidPath(LayoutOf(h), path)
    requires StandsIn(h, all) && |all| == |h| + 1 && headEntry == all[0]
    requires entry == At(all, cursor + 1)
    requires Points(all, LinksOf(LayoutOf(h), path))
    ensures ListSync(h, all, headEntry, entry, path, cursor)
  {
  }

  lemma PushStack<S, I, O>(h: seq<Entry<I, O>>, all: seq<Node<I, O>>, calls: seq<CallsEntry<S, I, O>>, x: Moment<S>, s: S, entry: Node<I, O>)
    requires WellFormed(h) && |all| == |h| + 1 && StackOk(h, all, calls, x.path, x.states)
    requires x.cursor < |h| && h[x.cursor].CallEntry? && ValidPath(LayoutOf(h), x.path + [h[x.cursor].id])
    requires entry == all[x.cursor + 1]
    ensures var y := PushTo(h, x, s);
      && y.path == x.path + [h[x.cursor].id]
      && y.cursor == NextIndex(h, y.path, 0)
      && y.cache == x.cache + [(Done(x.path) + {h[x.cursor].id}, s)]
      && y.longest == x.longest
      && |y.states| == |y.path| + 1
      && s == y.states[|y.path|]
      && StackOk(h, all, calls + [CallsEntry(entry, x.states[|x.path|])], y.path, y.states)
  {
    EntryPosition(h, x.cursor);
    EntryId(h, x.cursor);
    hide WellFormed;
  }

  lemma MissRefutes<S(!new), I(!new), O(!new)>(m: Model<S, I, O>, h: seq<Entry<I, O>>, partial: bool, x: Moment<S>, id: nat)
    requires WellFormed(h) && SameFutures(m) && Good(m, h, partial, x) && id < Size(h) && id !in x.path
    requires StepOf(m, h, x.states[|x.path|], id).0 ==>
      Hit(m, x.cache, Done(x.path) + {id}, StepOf(m, h, x.states[|x.path|], id).1)
    ensures Refuted(m, h, partial, x.longest, Done(x.path), x.states[|x.path|], id)
  {
    hide WellFormed;
    hide SameFutures;
    hide ValidPath;
    hide CursorOk;
    var r := StepOf(m, h, x.states[|x.path|], id);
    if r.0 {
      var p :| p in x.cache && p.0 == Done(x.path) + {id} && m.equal(r.1, p.1);
      hide Inv;
      HitRefutes(m, h, partial, x, id, p.1);
    }
  }

  /** A return at the cursor: record the path if asked to, then undo the last choice. */
  method ReturnMove<S, I, O>(computePartial: bool,
    calls: seq<CallsEntry<S, I, O>>, linearized: array<B.Word>, longest: Longest,
    ghost m: Model<S, I, O>, ghost cache: C.Buckets<S>, ghost headEntry: Node<I, O>, ghost entry: Node<I, O>,
    ghost h: seq<Entry<I, O>>, ghost x: Moment<S>, ghost all: seq<Node<I, O>>, ghost frozen: set<array<B.Word>>)
    returns (entry': Node?<I, O>, calls': seq<CallsEntry<S, I, O>>, state': S, longest': Longest, ghost x': Moment<S>)
    requires WellFormed(h) && Good(m, h, computePartial, x)
    requires ListSync(h, all, headEntry, entry, x.path, x.cursor)
    requires StackOk(h, all, calls, x.path, x.states) && longest == x.longest
    requires SetsSync(linearized, Size(h), x.path, cache, frozen, x.cache)
    requires x.cursor < |h| && entry.mate == null && |calls| > 0
    modifies all, linearized
    ensures Good(m, h, computePartial, x') && Left(m, h, computePartial, x') < Left(m, h, computePartial, x)
    ensures ListSync(h, all, headEntry, entry', x'.path, x'.cursor)
    ensures StackOk(h, all, calls', x'.path, x'.states) && state' == x'.states[|x'.path|]
    ensures SetsSync(linearized, Size(h), x'.path, cache, frozen, x'.cache)
    ensures x'.longest == longest' && (!computePartial ==> longest' == longest)
  {
    SyncCall(h, all, headEntry, entry, x.path, x.cursor);
    GoodFacts(m, h, computePartial, x);
    SyncFacts(h, all, headEntry, entry, x.path, x.cursor);
    longest' := Record(computePartial, calls, longest, m, h, x, all);
    ghost var front, last := StackTop(h, all, calls, x.path, x.states);
    PopGood(m, h, computePartial, x, longest');
    x' := PopTo(h, x, longest');
    PopFields(h, all, calls, x, longest', front, last);
    hide *;
    var callsTop := calls[|calls| - 1];
    state' := callsTop.state;
    calls' := calls[..|calls| - 1];
    entry' := Undo(callsTop.entry, linearized, h, all, headEntry, front, last, cache, frozen, x.cache);
  }

  /** Records the current path as the prefix of its operations, if asked to and if longer. */
  method Record<S, I, O>(computePartial: bool, calls: seq<CallsEntry<S, I, O>>, longest: Longest,
    ghost m: Model<S, I, O>, ghost h: seq<Entry<I, O>>, ghost x: Moment<S>, ghost all: seq<Node<I, O>>)
    returns (longest': Longest)
    requires WellFormed(h) && Good(m, h, computePartial, x) && longest == x.longest
    requires |all| == |h| + 1 && StandsIn(h, all) && StackOk(h, all, calls, x.path, x.states)
    ensures Grows(x.longest, longest') && PrefixesValid(m, h, longest')
    ensures computePartial ==> forall i: nat | i < Size(h) && i in x.path :: Covers(longest', i, |x.path|)
    ensures !computePartial ==> longest' == longest
  {
    GoodFacts(m, h, computePartial, x);
    PathIsPartial(m, h, computePartial, x);
    InvPrefixes(m, h, computePartial, x);
    StackIds(h, all, calls, x.path, x.states);
    longest' := longest;
    assert |calls| == |x.path|;
    hide *;
    if computePartial {
      longest' := RecordLongest(calls, longest, x.path);
    }
    RecordedGood(m, h, computePartial, x.longest, longest', x.path);
  }

  lemma InvPrefixes<S, I, O>(m: Model<S, I, O>, h: seq<Entry<I, O>>, partial: bool, x: Moment<S>)
    requires WellFormed(h) && Inv(m, h, partial, x)
    ensures PrefixesValid(m, h, x.longest) && |x.longest| == Size(h)
  {
  }

  lemma RecordedGood<S, I, O>(m: Model<S, I, O>, h: seq<Entry<I, O>>, partial: bool, longest: Longest, longest': Longest, path: seq<nat>)
    requires WellFormed(h) && PrefixesValid(m, h, longest) && IsPartial(m, h, path)
    requires |longest'| == |longest|
    requires if partial then forall i: nat | i < |longest| :: longest'[i] == Recorded(longest, path, i) else longest' == longest
    ensures Grows(longest, longest') && PrefixesValid(m, h, longest')
    ensures partial ==> forall i: nat | i < Size(h) && i in path :: Covers(longest', i, |path|)
  {
    if partial {
      RecordKeeps(m, h, longest, longest', path);
    }
  }

  lemma StackTop<S, I, O>(h: seq<Entry<I, O>>, all: seq<Node<I, O>>, calls: seq<CallsEntry<S, I, O>>, path: seq<nat>, states: seq<S>)
    returns (front: seq<nat>, last: nat)
    requires WellFormed(h) && |all| == |h| + 1 && StackOk(h, all, calls, path, states)
    requires ValidPath(LayoutOf(h), path) && |calls| > 0
    ensures path == front + [last]
    ensures last < Size(h) && last !in front && ValidPath(LayoutOf(h), front)
    ensures calls[|calls| - 1].entry == all[CallAt(h, last) + 1]
    ensures calls[|calls| - 1].state == states[|front|]
  {
    hide WellFormed;
    PathShrinks(LayoutOf(h), path);
    front, last := path[..|path| - 1], path[|path| - 1];
    assert path == front + [last];
  }

  lemma PopFields<S, I, O>(h: seq<Entry<I, O>>, all: seq<Node<I, O>>, calls: seq<CallsEntry<S, I, O>>, x: Moment<S>, longest: Longest, front: seq<nat>, last: nat)
    requires WellFormed(h) && |all| == |h| + 1 && StackOk(h, all, calls, x.path, x.states)
    requires x.path == front + [last] && last < Size(h)
    requires ValidPath(LayoutOf(h), x.path) && ValidPath(LayoutOf(h), front)
    ensures |x.path| > 0 && x.path[..|x.path| - 1] == front
    ensures var y := PopTo(h, x, longest);
      && y.path == front
      && y.cursor == NextIndex(h, front, CallAt(h, last) + 1)
      && y.cache == x.cache
      && y.longest == longest
      && |y.states| == |front| + 1
      && x.states[|front|] == y.states[|front|]
      && StackOk(h, all, calls[..|calls| - 1], front, y.states)
  {
    hide WellFormed;
    hide ValidPath;
    assert x.path[..|x.path| - 1] == front && x.path[|x.path| - 1] == last;
  }

  lemma KillRead(kill: nat -> int, t: nat)
    requires kill(t) != 0
    ensures !NeverKilled(kill)
  {
  }

  /** While the list is not empty the cursor stands on one of its nodes. */
  lemma AtNode<S, I, O>(m: Model<S, I, O>, h: seq<Entry<I, O>>, partial: bool, x: Moment<S>,
                        all: seq<Node<I, O>>, headEntry: Node<I, O>, entry: Node?<I, O>, calls: seq<CallsEntry<S, I, O>>)
    requires WellFormed(h) && Good(m, h, partial, x) && |all| == |h| + 1 && StackOk(h, all, calls, x.path, x.states)
    requires ListSync(h, all, headEntry, entry, x.path, x.cursor) && headEntry.next != null
    ensures x.cursor < |h| && entry != null && |calls| == |x.path|
    ensures entry.mate == null ==> h[x.cursor].ReturnEntry?
  {
    GoodFacts(m, h, partial, x);
    hide WellFormed;
    hide ValidPath;
    hide Inv;
    hide Points;
    hide StandsIn;
    hide LinksOf;
    ListFirst(h, all, x.path);
    SyncCall(h, all, headEntry, entry, x.path, x.cursor);
  }

  lemma AtEnd<S, I, O>(m: Model<S, I, O>, h: seq<Entry<I, O>>, partial: bool, x: Moment<S>,
                       all: seq<Node<I, O>>, headEntry: Node<I, O>, entry: Node?<I, O>, calls: seq<CallsEntry<S, I, O>>)
    requires WellFormed(h) && Good(m, h, partial, x) && |all| == |h| + 1 && StackOk(h, all, calls, x.path, x.states)
    requires ListSync(h, all, headEntry, entry, x.path, x.cursor) && headEntry.next == null
    ensures |x.path| == Size(h) == |calls| && StandsIn(h, all)
  {
    GoodFacts(m, h, partial, x);
    SyncFacts(h, all, headEntry, entry, x.path, x.cursor);
    hide WellFormed;
    hide ValidPath;
    hide Inv;
    hide Points;
    hide StandsIn;
    hide LinksOf;
    ListFirst(h, all, x.path);
  }

  /**
   The search. kill(t) is the value of the kill flag read in iteration t. A positive
   verdict is always right; so is a negative one, unless the search was killed, that is,
   stopped because it read a flag other than zero. If it is set from the start the search
   stops at once. Prefixes of a history that is refuted are recorded only if asked for.
   */
  method CheckSingle<S(!new), I(!new), O(!new)>(m: Model<S, I, O>, h: seq<Entry<I, O>>, computePartial: bool, kill: nat -> int)
    returns (ok: bool, longest: Longest, ghost killed: bool)
    requires WellFormed(h) && SameFutures(m)
    ensures Verdict(m, h, computePartial, killed, ok, longest)
    ensures killed ==> !ok && !NeverKilled(kill)
    ensures NeverKilled(kill) ==> (ok <==> Linearizable(m, h))
    ensures Size(h) > 0 && kill(0) != 0 ==> killed
    ensures !ok && !computePartial ==> forall i | 0 <= i < |longest| :: longest[i] == None
  {
    killed := false;
    ghost var all, x, frozen;
    var headEntry, entry, n, linearized, cache, calls, state;
    headEntry, entry, n, linearized, cache, calls, longest, state, all, x, frozen := Begin(m, h, computePartial);
    hide *;
    var t := 0;
    while headEntry.next != null
      invariant Good(m, h, computePartial, x)
      invariant ListSync(h, all, headEntry, entry, x.path, x.cursor)
      invariant |all| == |h| + 1 && StackOk(h, all, calls, x.path, x.states)
      invariant |x.states| == |x.path| + 1 && state == x.states[|x.path|] && longest == x.longest
      invariant SetsSync(linearized, Size(h), x.path, cache, frozen, x.cache)
      invariant fresh(linearized) && forall i | 0 <= i < |all| :: fresh(all[i])
      invariant !killed && (t > 0 ==> kill(0) == 0) && (t == 0 ==> x.path == [])
      invariant !computePartial ==> forall i | 0 <= i < |longest| :: longest[i] == None
      decreases Left(m, h, computePartial, x)
    {
      if kill(t) != 0 {
        KillRead(kill, t);
        KilledVerdict(m, h, computePartial, x);
        return false, longest, true;
      }
      t := t + 1;
      AtNode(m, h, computePartial, x, all, headEntry, entry, calls);
      if entry.mate != null {
        entry, calls, state, cache, x, frozen :=
          CallMove(m, headEntry, entry, calls, state, linearized, cache, h, computePartial, x, all, frozen);
      } else {
        if |calls| == 0 {
          FailVerdict(m, h, computePartial, x, killed);
          return false, longest, killed;
        }
        entry, calls, state, longest, x :=
          ReturnMove(computePartial, calls, linearized, longest, m, cache, headEntry, entry, h, x, all, frozen);
      }
    }
    AtEnd(m, h, computePartial, x, all, headEntry, entry, calls);
    StackIds(h, all, calls, x.path, x.states);
    longest := AllTheSame(calls, n, x.path);
    SuccessVerdict(m, h, computePartial, x, longest, killed);
    return true, longest, killed;
  }

  /** Every operation's longest prefix is the complete linearization. */
  method AllTheSame<S, I, O>(calls: seq<CallsEntry<S, I, O>>, n: nat, ghost path: seq<nat>) returns (longest: Longest)
    requires |calls| == |path| && forall d | 0 <= d < |path| :: calls[d].entry.id == path[d]
    ensures |longest| == n && forall i | 0 <= i < n :: longest[i] == Some(path)
  {
    assert forall d | 0 <= d < |calls| :: calls[d].entry.id == path[d] >= 0;
    var ids: seq<nat> := seq(|calls|, i requires 0 <= i < |calls| && calls[i].entry.id >= 0 => calls[i].entry.id);
    assert ids == path;
    longest := seq(n, _ => Some(ids));
  }

  lemma StartIs<S, I, O>(m: Model<S, I, O>, h: seq<Entry<I, O>>, longest: Longest)
    requires WellFormed(h) && |longest| == Size(h) && forall i | 0 <= i < |longest| :: longest[i] == None
    ensures Start(m, h) == Moment([], [m.init], 0, [], longest)
  {
    hide WellFormed; hide Size;
    assert Start(m, h).longest == longest;
  }

  lemma EmptyStack<S, I, O>(h: seq<Entry<I, O>>, all: seq<Node<I, O>>, states: seq<S>)
    requires WellFormed(h) && |all| == |h| + 1 && |states| == 1
    ensures StackOk<S, I, O>(h, all, [], [], states)
  {
    hide WellFormed;
  }

  lemma EmptySets<S>(linearized: array<B.Word>, n: nat)
    requires B.Members(linearized[..]) == {} && n <= B.WORD_BITS * linearized.Length
    ensures SetsSync<S>(linearized, n, [], map[], {}, [])
  {
    hide B.Members;
  }

  /** Everything the loop starts from. */
  method Begin<S, I, O>(m: Model<S, I, O>, h: seq<Entry<I, O>>, ghost partial: bool)
    returns (headEntry: Node<I, O>, entry: Node?<I, O>, n: nat, linearized: array<B.Word>, cache: C.Buckets<S>,
             calls: seq<CallsEntry<S, I, O>>, longest: Longest, state: S,
             ghost all: seq<Node<I, O>>, ghost x: Moment<S>, ghost frozen: set<array<B.Word>>)
    requires WellFormed(h)
    ensures n == Size(h) && Good(m, h, partial, x)
    ensures ListSync(h, all, headEntry, entry, x.path, x.cursor)
    ensures |all| == |h| + 1 && StackOk(h, all, calls, x.path, x.states)
    ensures |x.states| == |x.path| + 1 && state == x.states[|x.path|] && longest == x.longest
    ensures SetsSync(linearized, Size(h), x.path, cache, frozen, x.cache)
    ensures fresh(linearized) && forall i | 0 <= i < |all| :: fresh(all[i])
    ensures x.path == [] && forall i | 0 <= i < |longest| :: longest[i] == None
  {
    hide *;
    headEntry, entry, n, all := Prepare(h);
    linearized := B.NewBitset(n);
    cache, calls, state := map[], [], m.init;
    longest := seq(n, _ => None);
    x, frozen := Start(m, h), {};
    StartGood(m, h, partial);
    StartIs(m, h, longest);
    SyncFacts(h, all, headEntry, entry, [], 0);
    EmptyStack<S, I, O>(h, all, [m.init]);
    EmptySets<S>(linearized, n);
  }
}
