/**
 The moves of the search on values: skipping a call, choosing one, undoing the last
 choice. Each keeps what the search knows and brings its end nearer.
 */
module Moves {
  import opened History
  import opened Search
  import opened NodeList
  import opened Termination

  // ---- the list and the path ----------------------------------------------------------

  lemma LiveEntry<I, O>(h: seq<Entry<I, O>>, path: seq<nat>, i: nat)
    requires WellFormed(h) && ValidPath(LayoutOf(h), path) && i < |h|
    ensures i + 1 in LiveOf(LayoutOf(h), path) <==> h[i].id !in path
  {
    LiveMeaning(LayoutOf(h), path, i + 1);
    EntryPosition(h, i);
    if h[i].id !in path {
      forall id | id in path
        ensures i + 1 != LayoutOf(h).call[id] && i + 1 != LayoutOf(h).ret[id]
      {
        assert IsCall(h, CallAt(h, id), id) && IsReturn(h, ReturnAt(h, id), id);
      }
    }
  }

  /** The entry index of the node that follows position p in the list of path. */
  ghost function NextIndex<I, O>(h: seq<Entry<I, O>>, path: seq<nat>, p: nat): (i: nat)
    requires WellFormed(h) && ValidPath(LayoutOf(h), path) && p <= |h|
    ensures p <= i <= |h|
  {
    First(LiveOf(LayoutOf(h), path), p + 1, |h| + 1) - 1
  }

  lemma NextIndexMeaning<I, O>(h: seq<Entry<I, O>>, path: seq<nat>, p: nat)
    requires WellFormed(h) && ValidPath(LayoutOf(h), path) && p <= |h|
    ensures Gone(h, Done(path), p, NextIndex(h, path, p))
    ensures NextIndex(h, path, p) < |h| ==> h[NextIndex(h, path, p)].id !in path
  {
    var i := NextIndex(h, path, p);
    forall j | p <= j < i && j < |h| ensures h[j].id in path {
      LiveEntry(h, path, j);
    }
    if i < |h| { LiveEntry(h, path, i); }
  }

  lemma NextNode<I, O>(h: seq<Entry<I, O>>, all: seq<Node<I, O>>, path: seq<nat>, p: nat)
    requires WellFormed(h) && ValidPath(LayoutOf(h), path) && |all| == |h| + 1
    requires Points(all, LinksOf(LayoutOf(h), path))
    requires p in LiveOf(LayoutOf(h), path)
    ensures p <= |h|
    ensures all[p].next == At(all, NextIndex(h, path, p) + 1)
  {
    assert LinkAt(LinksOf(LayoutOf(h), path), LiveOf(LayoutOf(h), path), p);
  }

  /** The list is empty exactly when every operation has been chosen. */
  lemma EmptyList<I, O>(h: seq<Entry<I, O>>, path: seq<nat>)
    requires WellFormed(h) && ValidPath(LayoutOf(h), path)
    ensures NextIndex(h, path, 0) == |h| <==> |path| == Size(h)
  {
    NextIndexMeaning(h, path, 0);
    if |path| == Size(h) {
      AllIds(Size(h), path);
    } else if NextIndex(h, path, 0) == |h| {
      forall id: nat | id < Size(h) ensures id in Done(path) {
        assert h[CallAt(h, id)].id == id;
      }
      assert Done(path) == Range(Size(h));
      DoneSize(path);
    }
  }

  // ---- longest prefixes ---------------------------------------------------------------

  /** What recording the current path does to the prefix of operation i. */
  ghost function Recorded(longest: Longest, path: seq<nat>, i: nat): (r: Option<seq<nat>>)
    requires i < |longest|
  {
    if i in path && !Covers(longest, i, |path|) then Some(path) else longest[i]
  }

  lemma RecordKeeps<S, I, O>(m: Model<S, I, O>, h: seq<Entry<I, O>>, longest: Longest, longest': Longest, path: seq<nat>)
    requires WellFormed(h) && PrefixesValid(m, h, longest) && IsPartial(m, h, path)
    requires |longest'| == |longest|
    requires forall i: nat | i < |longest| :: longest'[i] == Recorded(longest, path, i)
    ensures Grows(longest, longest') && PrefixesValid(m, h, longest')
    ensures forall i: nat | i < Size(h) && i in path :: Covers(longest', i, |path|)
  {
  }

  // ---- the moves of the search, on values ------------------------------------------------------

  ghost predicate CursorOk<I, O>(h: seq<Entry<I, O>>, path: seq<nat>, cursor: nat)
  {
    && cursor <= |h|
    && (cursor < |h| ==> h[cursor].id !in path)
    && (cursor == |h| ==> |path| == Size(h))
  }

  /** After a call that is still listed there is always another entry: its return. */
  lemma NextAfterCall<I, O>(h: seq<Entry<I, O>>, path: seq<nat>, id: nat)
    requires WellFormed(h) && ValidPath(LayoutOf(h), path) && id < Size(h) && id !in path
    ensures NextIndex(h, path, CallAt(h, id) + 1) < |h|
    ensures CursorOk(h, path, NextIndex(h, path, CallAt(h, id) + 1))
    ensures Gone(h, Done(path), CallAt(h, id) + 1, NextIndex(h, path, CallAt(h, id) + 1))
  {
    NextIndexMeaning(h, path, CallAt(h, id) + 1);
    assert h[ReturnAt(h, id)].id == id;
  }

  /** What holds of the search on values, and lets its loop end. */
  ghost predicate Good<S, I, O>(m: Model<S, I, O>, h: seq<Entry<I, O>>, partial: bool, x: Moment<S>)
    requires WellFormed(h)
  {
    && Inv(m, h, partial, x)
    && ValidPath(LayoutOf(h), x.path)
    && |x.states| == |x.path| + 1
    && |x.path| <= Size(h)
    && CursorOk(h, x.path, x.cursor)
  }

  ghost function Left<S, I, O>(m: Model<S, I, O>, h: seq<Entry<I, O>>, partial: bool, x: Moment<S>): (w: nat)
    requires WellFormed(h) && Good(m, h, partial, x)
  {
    Budget(LayoutOf(h), x.path, x.cursor + 1)
  }

  ghost function Start<S, I, O>(m: Model<S, I, O>, h: seq<Entry<I, O>>): (x: Moment<S>)
  {
    Moment([], [m.init], 0, [], seq(Size(h), _ => None))
  }

  lemma StartGood<S, I, O>(m: Model<S, I, O>, h: seq<Entry<I, O>>, partial: bool)
    requires WellFormed(h)
    ensures Good(m, h, partial, Start(m, h))
  {
    LayoutIsValid(h);
  }

  /** The moment after skipping the call at the cursor. */
  ghost function SkipTo<S, I, O>(h: seq<Entry<I, O>>, x: Moment<S>): (y: Moment<S>)
    requires WellFormed(h) && ValidPath(LayoutOf(h), x.path) && x.cursor < |h|
  {
    x.(cursor := NextIndex(h, x.path, x.cursor + 1))
  }

  lemma SkipGood<S, I, O>(m: Model<S, I, O>, h: seq<Entry<I, O>>, partial: bool, x: Moment<S>)
    requires WellFormed(h) && Good(m, h, partial, x)
    requires x.cursor < |h| && h[x.cursor].CallEntry?
    requires Refuted(m, h, partial, x.longest, Done(x.path), x.states[|x.path|], h[x.cursor].id)
    ensures Good(m, h, partial, SkipTo(h, x))
    ensures Left(m, h, partial, SkipTo(h, x)) < Left(m, h, partial, x)
  {
    hide Inv; hide Refuted; hide ValidPath; hide WellFormed; hide Gone; hide LayoutOf; hide Size; hide CallAt; hide ReturnAt;
    var next := NextIndex(h, x.path, x.cursor + 1);
    EntryPosition(h, x.cursor);
    EntryId(h, x.cursor);
    NextAfterCall(h, x.path, h[x.cursor].id);
    SkipKeeps(m, h, partial, x, next);
    BudgetSkip(LayoutOf(h), x.path, x.cursor + 1, next + 1);
  }

  /** The moment after choosing the call at the cursor. */
  ghost function PushTo<S, I, O>(h: seq<Entry<I, O>>, x: Moment<S>, s: S): (y: Moment<S>)
    requires WellFormed(h) && x.cursor < |h| && ValidPath(LayoutOf(h), x.path + [h[x.cursor].id])
  {
    Pushed(x, h[x.cursor].id, s, NextIndex(h, x.path + [h[x.cursor].id], 0))
  }

  lemma PushGood<S, I, O>(m: Model<S, I, O>, h: seq<Entry<I, O>>, partial: bool, x: Moment<S>, s: S)
    requires WellFormed(h) && Good(m, h, partial, x)
    requires x.cursor < |h| && h[x.cursor].CallEntry?
    requires StepOf(m, h, x.states[|x.path|], h[x.cursor].id) == (true, s)
    ensures ValidPath(LayoutOf(h), x.path + [h[x.cursor].id])
    ensures Good(m, h, partial, PushTo(h, x, s))
    ensures Left(m, h, partial, PushTo(h, x, s)) < Left(m, h, partial, x)
  {
    hide Inv;
    hide StepOf;
    hide WellFormed;
    var q := h[x.cursor].id;
    var path := x.path + [q];
    EntryPosition(h, x.cursor);
    EntryId(h, x.cursor);
    PathExtends(LayoutOf(h), x.path, q);
    hide ValidPath;
    var next := NextIndex(h, path, 0);
    NextIndexMeaning(h, path, 0);
    Prefix(x.path, q);
    PushKeeps(m, h, partial, x, s, next);
    ShortPath(h, path);
    BudgetPush(LayoutOf(h), x.path, q, next + 1);
    EmptyList(h, path);
  }

  lemma PathExtends(f: Layout, path: seq<nat>, id: nat)
    requires ValidPath(f, path) && id < |f.call| && id !in path
    ensures ValidPath(f, path + [id])
  {
  }

  lemma PathShrinks(f: Layout, path: seq<nat>)
    requires ValidPath(f, path) && |path| > 0
    ensures ValidPath(f, path[..|path| - 1])
    ensures path[|path| - 1] < |f.call| && path[|path| - 1] !in path[..|path| - 1]
  {
  }

  lemma ShortPath<I, O>(h: seq<Entry<I, O>>, path: seq<nat>)
    requires WellFormed(h) && ValidPath(LayoutOf(h), path)
    ensures |path| <= Size(h)
  {
    DoneSize(path);
    assert Done(path) <= Range(Size(h));
    if Done(path) != Range(Size(h)) { ProperSubset(Done(path), Range(Size(h))); }
  }

  /** The moment after undoing the last choice. */
  ghost function PopTo<S, I, O>(h: seq<Entry<I, O>>, x: Moment<S>, longest: Longest): (y: Moment<S>)
    requires WellFormed(h) && |x.path| > 0 && |x.states| == |x.path| + 1
    requires ValidPath(LayoutOf(h), x.path) && ValidPath(LayoutOf(h), x.path[..|x.path| - 1])
  {
    var k := |x.path| - 1;
    Popped(x, longest, NextIndex(h, x.path[..k], CallAt(h, x.path[k]) + 1))
  }

  lemma PopGood<S, I, O>(m: Model<S, I, O>, h: seq<Entry<I, O>>, partial: bool, x: Moment<S>, longest: Longest)
    requires WellFormed(h) && Good(m, h, partial, x) && |x.path| > 0
    requires x.cursor < |h| && h[x.cursor].ReturnEntry?
    requires Grows(x.longest, longest) && PrefixesValid(m, h, longest)
    requires partial ==> forall i: nat | i < Size(h) && i in x.path :: Covers(longest, i, |x.path|)
    ensures ValidPath(LayoutOf(h), x.path[..|x.path| - 1])
    ensures Good(m, h, partial, PopTo(h, x, longest))
    ensures Left(m, h, partial, PopTo(h, x, longest)) < Left(m, h, partial, x)
  {
    hide Inv; hide Grows; hide PrefixesValid; hide Covers; hide WellFormed; hide ValidPath; hide Gone; hide LayoutOf; hide Size;
    PathShrinks(LayoutOf(h), x.path);
    var k := |x.path| - 1;
    var path, q := x.path[..k], x.path[k];
    var next := NextIndex(h, path, CallAt(h, q) + 1);
    NextAfterCall(h, path, q);
    LayoutAt(h, q);
    PopKeeps(m, h, partial, x, longest, next);
    BudgetPop(LayoutOf(h), x.path, x.cursor + 1, next + 1);
  }
}
