/**
 The data behind the visualization of one partition: the recorded prefixes, longest
 first, replayed through the model, and for each operation a longest prefix that has it.
 */
module Visualization {
  import opened History
  import opened Search
  import opened Sorting

  datatype LinearizationStep<+S> = LinearizationStep(index: nat, state: S)

  /** The state the model is in after the operations, accepted or not. */
  function StateAfter<S, I, O>(m: Model<S, I, O>, s: S, ops: seq<Op<I, O>>): (r: S)
  {
    if ops == [] then s
    else
      var k := |ops| - 1;
      m.step(StateAfter(m, s, ops[..k]), ops[k].input, ops[k].output).1
  }

  /** An accepted sequence is accepted at each of its steps. */
  lemma {:induction false} AcceptedStep<S, I, O>(m: Model<S, I, O>, s: S, ops: seq<Op<I, O>>, j: nat)
    requires Accepts(m, s, ops) && j < |ops|
    ensures m.step(StateAfter(m, s, ops[..j]), ops[j].input, ops[j].output).0
    decreases j
  {
    var s1 := m.step(s, ops[0].input, ops[0].output).1;
    if j > 0 {
      AcceptedStep(m, s1, ops[1..], j - 1);
      StateAfterFirst(m, s, ops[..j]);
      assert ops[1..][..j - 1] == ops[..j][1..];
    }
  }

  lemma {:induction false} StateAfterFirst<S, I, O>(m: Model<S, I, O>, s: S, ops: seq<Op<I, O>>)
    requires ops != []
    ensures StateAfter(m, s, ops) == StateAfter(m, m.step(s, ops[0].input, ops[0].output).1, ops[1..])
    decreases |ops|
  {
    var k := |ops| - 1;
    if k > 0 {
      StateAfterFirst(m, s, ops[..k]);
      assert ops[1..][..k - 1] == ops[..k][1..];
    }
  }

  lemma StateAfterNext<S, I, O>(m: Model<S, I, O>, s: S, ops: seq<Op<I, O>>, j: nat)
    requires j < |ops|
    ensures StateAfter(m, s, ops[..j + 1]) == m.step(StateAfter(m, s, ops[..j]), ops[j].input, ops[j].output).1
  {
    assert ops[..j + 1][..j] == ops[..j];
  }

  /** The values of each operation's call and return. */
  ghost predicate ValuesOk<I, O>(h: seq<Entry<I, O>>, callValue: map<nat, I>, returnValue: map<nat, O>)
    requires WellFormed(h)
  {
    forall id: nat | id < Size(h) ::
      id in callValue && id in returnValue && Op(callValue[id], returnValue[id]) == OpOf(h, id)
  }

  method CollectValues<I, O>(h: seq<Entry<I, O>>) returns (callValue: map<nat, I>, returnValue: map<nat, O>)
    requires WellFormed(h)
    ensures ValuesOk(h, callValue, returnValue)
  {
    callValue, returnValue := map[], map[];
    for i := 0 to |h|
      invariant forall id: nat | id < Size(h) && CallAt(h, id) < i :: id in callValue && callValue[id] == OpOf(h, id).input
      invariant forall id: nat | id < Size(h) && ReturnAt(h, id) < i :: id in returnValue && returnValue[id] == OpOf(h, id).output
    {
      EntryPosition(h, i);
      match h[i]
      case CallEntry(id, _, _, input) => callValue := callValue[id := input];
      case ReturnEntry(id, _, _, output) => returnValue := returnValue[id := output];
    }
  }

  /** lin lists the operations of partial with the state after each. */
  ghost predicate Replayed<S, I, O>(m: Model<S, I, O>, h: seq<Entry<I, O>>, partial: seq<nat>, lin: seq<LinearizationStep<S>>)
    requires WellFormed(h)
  {
    && Ids(h, partial)
    && |lin| == |partial|
    && forall j | 0 <= j < |lin| ::
      lin[j] == LinearizationStep(partial[j], StateAfter(m, m.init, OpsOf(h, partial)[..j + 1]))
  }

  lemma ReplayStart<S, I, O>(m: Model<S, I, O>, h: seq<Entry<I, O>>, callValue: map<nat, I>, returnValue: map<nat, O>, partial: seq<nat>)
    requires WellFormed(h) && ValuesOk(h, callValue, returnValue) && IsPartial(m, h, partial)
    ensures Ids(h, partial) && Accepts(m, m.init, OpsOf(h, partial)) && |OpsOf(h, partial)| == |partial|
    ensures forall j | 0 <= j < |partial| ::
      && partial[j] in callValue && partial[j] in returnValue
      && OpsOf(h, partial)[j] == Op(callValue[partial[j]], returnValue[partial[j]])
    ensures StateAfter(m, m.init, OpsOf(h, partial)[..0]) == m.init
  {
    hide WellFormed; hide Accepts; hide Before;
  }

  lemma ReplayEnd<S, I, O>(m: Model<S, I, O>, h: seq<Entry<I, O>>, partial: seq<nat>, lin: seq<LinearizationStep<S>>)
    requires WellFormed(h) && Ids(h, partial) && |lin| == |partial| == |OpsOf(h, partial)|
    requires forall k | 0 <= k < |partial| :: lin[k] == LinearizationStep(partial[k], StateAfter(m, m.init, OpsOf(h, partial)[..k + 1]))
    ensures Replayed(m, h, partial, lin)
  {
    hide WellFormed; hide StateAfter; hide Ids; hide OpsOf;
  }

  /** Replays a recorded prefix; the branch in which the code panics is never reached. */
  method Replay<S, I, O>(m: Model<S, I, O>, ghost h: seq<Entry<I, O>>, callValue: map<nat, I>, returnValue: map<nat, O>, partial: seq<nat>)
    returns (lin: seq<LinearizationStep<S>>)
    requires WellFormed(h) && ValuesOk(h, callValue, returnValue) && IsPartial(m, h, partial)
    ensures Replayed(m, h, partial, lin)
  {
    hide *;
    lin := [];
    var state := m.init;
    ReplayStart(m, h, callValue, returnValue, partial);
    ghost var ops := OpsOf(h, partial);
    for j := 0 to |partial|
      invariant |lin| == j
      invariant state == StateAfter(m, m.init, ops[..j])
      invariant forall k | 0 <= k < j :: lin[k] == LinearizationStep(partial[k], StateAfter(m, m.init, ops[..k + 1]))
    {
      var histId := partial[j];
      AcceptedStep(m, m.init, ops, j);
      StateAfterNext(m, m.init, ops, j);
      var r := m.step(state, callValue[histId], returnValue[histId]);
      if !r.0 {
        assert false;
      }
      state := r.1;
      lin := lin + [LinearizationStep(histId, state)];
    }
    ReplayEnd(m, h, partial, lin);
  }

  // ---- the largest prefix with each operation ----------------------------------------------

  predicate Longer(a: seq<nat>, b: seq<nat>)
  {
    |a| > |b|
  }

  lemma LongerIsOrder()
    ensures StrictOrder(Longer)
  {
  }

  function SizeOf(largestSize: map<nat, nat>, id: nat): (n: nat)
  {
    if id in largestSize then largestSize[id] else 0
  }

  /** index[id] is a longest of the first n prefixes with id, and the first of them; absent if none has it. */
  ghost predicate LargestAmong(partials: seq<seq<nat>>, n: nat, index: map<nat, nat>)
    requires n <= |partials|
  {
    && (forall id | id in index ::
          && index[id] < n && id in partials[index[id]]
          && (forall k | 0 <= k < n && id in partials[k] :: |partials[k]| <= |partials[index[id]]|)
          && (forall k | 0 <= k < index[id] :: id !in partials[k]))
    && (forall k, id | 0 <= k < n && id in partials[k] :: id in index)
  }

  ghost predicate SizesMatch(partials: seq<seq<nat>>, index: map<nat, nat>, size: map<nat, nat>)
  {
    && index.Keys == size.Keys
    && forall id | id in index :: index[id] < |partials| && size[id] == |partials[index[id]]| > 0
  }

  /** What entering the i-th prefix does: it counts for its operations without a longer one. */
  ghost predicate Entered(partial: seq<nat>, i: nat, index: map<nat, nat>, size: map<nat, nat>, index': map<nat, nat>, size': map<nat, nat>)
  {
    && index.Keys == size.Keys
    && index'.Keys == size'.Keys == index.Keys + Done(partial)
    && forall id | id in index' ::
      if id in partial && SizeOf(size, id) < |partial| then index'[id] == i && size'[id] == |partial|
      else id in index && index'[id] == index[id] && size'[id] == size[id]
  }

  /** Operation id is as it should be once the ids in done have been entered. */
  ghost predicate EntryOk(partial: seq<nat>, done: set<nat>, i: nat, index: map<nat, nat>, size: map<nat, nat>,
                          index': map<nat, nat>, size': map<nat, nat>, id: nat)
    requires id in index' && id in size' && index.Keys == size.Keys
  {
    if id in done && SizeOf(size, id) < |partial| then index'[id] == i && size'[id] == |partial|
    else id in index && index'[id] == index[id] && size'[id] == size[id]
  }

  /** The first j operations of partial have been entered. */
  ghost predicate EnteredUpTo(partial: seq<nat>, j: nat, i: nat, index: map<nat, nat>, size: map<nat, nat>, index': map<nat, nat>, size': map<nat, nat>)
    requires j <= |partial|
  {
    && index'.Keys == size'.Keys == index.Keys + Done(partial[..j])
    && index.Keys == size.Keys
    && forall id | id in index' :: EntryOk(partial, Done(partial[..j]), i, index, size, index', size', id)
  }

  lemma EnterOne(partial: seq<nat>, j: nat, i: nat, index: map<nat, nat>, size: map<nat, nat>, index': map<nat, nat>, size': map<nat, nat>)
    requires j < |partial| && EnteredUpTo(partial, j, i, index, size, index', size')
    ensures var id := partial[j];
      if SizeOf(size', id) < |partial| then EnteredUpTo(partial, j + 1, i, index, size, index'[id := i], size'[id := |partial|])
      else EnteredUpTo(partial, j + 1, i, index, size, index', size')
  {
    hide Done;
    var id := partial[j];
    assert partial[..j + 1] == partial[..j] + [id];
    Prefix(partial[..j], id);
    assert id in index' ==> EntryOk(partial, Done(partial[..j]), i, index, size, index', size', id);
  }

  lemma EnteredNone(partial: seq<nat>, i: nat, index: map<nat, nat>, size: map<nat, nat>)
    requires index.Keys == size.Keys
    ensures EnteredUpTo(partial, 0, i, index, size, index, size)
  {
  }

  lemma EnteredAll(partial: seq<nat>, i: nat, index: map<nat, nat>, size: map<nat, nat>, index': map<nat, nat>, size': map<nat, nat>)
    requires EnteredUpTo(partial, |partial|, i, index, size, index', size')
    ensures Entered(partial, i, index, size, index', size')
  {
    hide SizeOf;
    assert partial[..|partial|] == partial;
    assert forall id :: id in Done(partial) <==> id in partial;
    forall id | id in index' ensures EntryOk(partial, Done(partial), i, index, size, index', size', id) {
    }
  }

  method Enter(partial: seq<nat>, i: nat, index: map<nat, nat>, size: map<nat, nat>) returns (index': map<nat, nat>, size': map<nat, nat>)
    requires index.Keys == size.Keys
    ensures Entered(partial, i, index, size, index', size')
  {
    hide *;
    index', size' := index, size;
    EnteredNone(partial, i, index, size);
    for j := 0 to |partial|
      invariant EnteredUpTo(partial, j, i, index, size, index', size')
    {
      var histId := partial[j];
      EnterOne(partial, j, i, index, size, index', size');
      if SizeOf(size', histId) < |partial| {
        size' := size'[histId := |partial|];
        index' := index'[histId := i];
      }
    }
    EnteredAll(partial, i, index, size, index', size');
  }

  lemma NoLongerLater(partials: seq<seq<nat>>, i: nat, index: map<nat, nat>, size: map<nat, nat>, id: nat)
    requires i < |partials| && SortedBy(Longer, partials)
    requires LargestAmong(partials, i, index) && SizesMatch(partials, index, size)
    requires id in index && id in partials[i]
    ensures SizeOf(size, id) >= |partials[i]|
  {
    assert !Longer(partials[i], partials[index[id]]);
  }

  /** With the prefixes longest first, entering one only adds operations not seen before. */
  ghost predicate Extended(partials: seq<seq<nat>>, i: nat, index: map<nat, nat>, index': map<nat, nat>)
    requires i < |partials|
  {
    && (forall id :: id in index' <==> id in index || id in partials[i])
    && (forall id | id in index' :: index'[id] == if id in index then index[id] else i)
  }

  lemma EnteredExtends(partials: seq<seq<nat>>, i: nat, index: map<nat, nat>, size: map<nat, nat>, index': map<nat, nat>, size': map<nat, nat>)
    requires i < |partials| && SortedBy(Longer, partials)
    requires LargestAmong(partials, i, index) && SizesMatch(partials, index, size)
    requires Entered(partials[i], i, index, size, index', size')
    ensures Extended(partials, i, index, index') && SizesMatch(partials, index', size')
  {
    forall id | id in index && id in partials[i] ensures SizeOf(size, id) >= |partials[i]| {
      NoLongerLater(partials, i, index, size, id);
    }
    hide SortedBy;
    hide LargestAmong;
  }

  lemma LargestExtends(partials: seq<seq<nat>>, i: nat, index: map<nat, nat>, index': map<nat, nat>)
    requires i < |partials| && SortedBy(Longer, partials)
    requires LargestAmong(partials, i, index) && Extended(partials, i, index, index')
    ensures LargestAmong(partials, i + 1, index')
  {
    forall id | id in index'
      ensures index'[id] < i + 1 && id in partials[index'[id]]
      ensures forall k | 0 <= k < i + 1 && id in partials[k] :: |partials[k]| <= |partials[index'[id]]|
      ensures forall k | 0 <= k < index'[id] :: id !in partials[k]
    {
      if id in index {
        assert !Longer(partials[i], partials[index[id]]);
      }
    }
  }

  lemma EnterKeeps(partials: seq<seq<nat>>, i: nat, index: map<nat, nat>, size: map<nat, nat>, index': map<nat, nat>, size': map<nat, nat>)
    requires i < |partials| && SortedBy(Longer, partials)
    requires LargestAmong(partials, i, index) && SizesMatch(partials, index, size)
    requires Entered(partials[i], i, index, size, index', size')
    ensures LargestAmong(partials, i + 1, index') && SizesMatch(partials, index', size')
  {
    hide SortedBy; hide Entered; hide SizesMatch; hide LargestAmong; hide Extended;
    EnteredExtends(partials, i, index, size, index', size');
    LargestExtends(partials, i, index, index');
  }

  /**
   The prefixes, longest first, each replayed, and Largest, which names for each operation in
   some prefix a longest prefix that has it.
   */
  method ComputePartition<S, I, O>(m: Model<S, I, O>, h: seq<Entry<I, O>>, partials: seq<seq<nat>>)
    returns (linearizations: seq<seq<LinearizationStep<S>>>, largest: map<nat, nat>, sorted: seq<seq<nat>>)
    requires WellFormed(h) && forall k | 0 <= k < |partials| :: IsPartial(m, h, partials[k])
    ensures multiset(sorted) == multiset(partials) && SortedBy(Longer, sorted)
    ensures |linearizations| == |sorted|
    ensures forall k | 0 <= k < |sorted| :: Replayed(m, h, sorted[k], linearizations[k])
    ensures LargestAmong(sorted, |sorted|, largest)
  {
    hide *;
    var callValue, returnValue := CollectValues(h);
    LongerIsOrder();
    sorted := Sort(partials, Longer);
    StillPartial(m, h, partials, sorted);
    linearizations, largest := [], map[];
    var largestSize: map<nat, nat> := map[];
    NothingEntered(sorted);
    for i := 0 to |sorted|
      invariant |linearizations| == i
      invariant forall k | 0 <= k < i :: Replayed(m, h, sorted[k], linearizations[k])
      invariant largest.Keys == largestSize.Keys
      invariant LargestAmong(sorted, i, largest) && SizesMatch(sorted, largest, largestSize)
    {
      var lin := Replay(m, h, callValue, returnValue, sorted[i]);
      ghost var (index, size) := (largest, largestSize);
      largest, largestSize := Enter(sorted[i], i, largest, largestSize);
      EnterKeeps(sorted, i, index, size, largest, largestSize);
      SameKeys(sorted, largest, largestSize);
      linearizations := linearizations + [lin];
    }
  }

  lemma NothingEntered(partials: seq<seq<nat>>)
    ensures LargestAmong(partials, 0, map[]) && SizesMatch(partials, map[], map[])
  {
  }

  lemma SameKeys(partials: seq<seq<nat>>, index: map<nat, nat>, size: map<nat, nat>)
    requires SizesMatch(partials, index, size)
    ensures index.Keys == size.Keys
  {
  }

  lemma StillPartial<S, I, O>(m: Model<S, I, O>, h: seq<Entry<I, O>>, partials: seq<seq<nat>>, order: seq<seq<nat>>)
    requires WellFormed(h) && multiset(order) == multiset(partials)
    requires forall k | 0 <= k < |partials| :: IsPartial(m, h, partials[k])
    ensures forall k | 0 <= k < |order| :: IsPartial(m, h, order[k])
  {
    hide WellFormed; hide IsPartial;
    forall k | 0 <= k < |order| ensures IsPartial(m, h, order[k]) {
      assert order[k] in multiset(partials);
    }
  }

  /**
   With the prefixes of an uninterrupted search, Largest names for each operation a
   prefix as long as any partial linearization that has the operation.
   */
  lemma LargestIsMaximal<S, I, O>(m: Model<S, I, O>, h: seq<Entry<I, O>>, longest: Longest, sorted: seq<seq<nat>>, largest: map<nat, nat>, p: seq<nat>, id: nat)
    requires WellFormed(h) && PrefixesValid(m, h, longest) && Maximal(m, h, longest)
    requires forall q :: q in sorted <==> Some(q) in longest
    requires LargestAmong(sorted, |sorted|, largest)
    requires IsPartial(m, h, p) && id in p && id < Size(h)
    ensures id in largest && largest[id] < |sorted|
    ensures IsPartial(m, h, sorted[largest[id]]) && id in sorted[largest[id]] && |p| <= |sorted[largest[id]]|
  {
    assert Covers(longest, id, |p|);
    var q := longest[id].value;
    assert q in sorted;
    var k :| 0 <= k < |sorted| && sorted[k] == q;
    assert id in largest;
    assert sorted[largest[id]] in sorted;
  }
}
