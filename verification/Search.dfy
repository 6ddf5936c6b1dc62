/**
 The reasoning behind the backtracking search, on values only: what the search
 knows about its path, its cursor, its cache and its longest prefixes, and why each
 of its moves (skip, push, pop) keeps that knowledge.
 */
module Search {
  import opened History

  function Done(p: seq<nat>): (s: set<nat>)
  {
    set x | x in p
  }

  /** id can go next once `done` is chosen: nothing left out returned before its call. */
  ghost predicate Ready<I, O>(h: seq<Entry<I, O>>, done: set<nat>, id: nat)
    requires WellFormed(h)
  {
    && id < Size(h)
    && id !in done
    && forall b: nat | b < Size(h) && b !in done :: !Before(h, b, id)
  }

  /** e extends `done` one ready operation at a time. */
  ghost predicate Feasible<I, O>(h: seq<Entry<I, O>>, done: set<nat>, e: seq<nat>)
    requires WellFormed(h)
    decreases |e|
  {
    e == [] || (Ready(h, done, e[0]) && Feasible(h, done + {e[0]}, e[1..]))
  }

  lemma {:induction false} FeasibleIds<I, O>(h: seq<Entry<I, O>>, done: set<nat>, e: seq<nat>)
    requires WellFormed(h) && Feasible(h, done, e)
    ensures Ids(h, e)
    ensures Distinct(e)
    ensures forall i | 0 <= i < |e| :: e[i] !in done
    decreases |e|
  {
    if e != [] {
      FeasibleIds(h, done + {e[0]}, e[1..]);
      assert forall i | 1 <= i < |e| :: e[i] == e[1..][i - 1];
    }
  }

  /** The search can go on from (done, s) along e. */
  ghost predicate Runs<S, I, O>(m: Model<S, I, O>, h: seq<Entry<I, O>>, done: set<nat>, s: S, e: seq<nat>)
    requires WellFormed(h)
  {
    && Feasible(h, done, e)
    && Ids(h, e)
    && Accepts(m, s, OpsOf(h, e))
  }

  ghost function StepOf<S, I, O>(m: Model<S, I, O>, h: seq<Entry<I, O>>, s: S, id: nat): (r: (bool, S))
    requires WellFormed(h) && id < Size(h)
  {
    m.step(s, OpOf(h, id).input, OpOf(h, id).output)
  }

  /** Going on along e is one ready, accepted step and then going on along the rest. */
  lemma RunsStep<S, I, O>(m: Model<S, I, O>, h: seq<Entry<I, O>>, done: set<nat>, s: S, e: seq<nat>)
    requires WellFormed(h) && e != []
    ensures Runs(m, h, done, s, e) <==>
      Ready(h, done, e[0]) && StepOf(m, h, s, e[0]).0 &&
      Runs(m, h, done + {e[0]}, StepOf(m, h, s, e[0]).1, e[1..])
  {
    assert e == [e[0]] + e[1..];
    if Ids(h, e) {
      assert OpsOf(h, e)[1..] == OpsOf(h, e[1..]);
    }
  }

  lemma RunsEqual<S(!new), I(!new), O(!new)>(m: Model<S, I, O>, h: seq<Entry<I, O>>, done: set<nat>, s: S, t: S, e: seq<nat>)
    requires WellFormed(h) && SameFutures(m) && m.equal(s, t)
    ensures Runs(m, h, done, s, e) <==> Runs(m, h, done, t, e)
  {
  }

  // ---- partial linearizations are the runs from the initial state -----------

  lemma {:induction false} FeasibleIsClosed<I, O>(h: seq<Entry<I, O>>, done: set<nat>, e: seq<nat>, j: nat, b: nat)
    requires WellFormed(h) && Feasible(h, done, e)
    requires j < |e| && e[j] < Size(h) && b < Size(h) && Before(h, b, e[j])
    ensures b in done || b in e[..j]
    decreases |e|
  {
    if j > 0 {
      FeasibleIsClosed(h, done + {e[0]}, e[1..], j - 1, b);
      assert e[..j] == [e[0]] + e[1..][..j - 1];
    }
  }

  lemma {:induction false} ClosedIsFeasible<I, O>(h: seq<Entry<I, O>>, done: set<nat>, e: seq<nat>)
    requires WellFormed(h) && Ids(h, e) && Distinct(e)
    requires forall i | 0 <= i < |e| :: e[i] !in done
    requires forall j, b: nat | 0 <= j < |e| && b < Size(h) && Before(h, b, e[j]) :: b in done || b in e[..j]
    ensures Feasible(h, done, e)
    decreases |e|
  {
    if e != [] {
      var rest := e[1..];
      forall j, b: nat | 0 <= j < |rest| && b < Size(h) && Before(h, b, rest[j])
        ensures b in done + {e[0]} || b in rest[..j]
      {
        assert rest[j] == e[j + 1];
        assert e[..j + 1] == [e[0]] + rest[..j];
      }
      ClosedIsFeasible(h, done + {e[0]}, rest);
    }
  }

  lemma PartialIsRun<S, I, O>(m: Model<S, I, O>, h: seq<Entry<I, O>>, p: seq<nat>)
    requires WellFormed(h)
    ensures IsPartial(m, h, p) <==> Runs(m, h, {}, m.init, p)
  {
    if IsPartial(m, h, p) {
      ClosedIsFeasible(h, {}, p);
    } else if Runs(m, h, {}, m.init, p) {
      FeasibleIds(h, {}, p);
      forall j, b: nat | 0 <= j < |p| && b < Size(h) && Before(h, b, p[j])
        ensures b in p[..j]
      {
        FeasibleIsClosed(h, {}, p, j, b);
      }
    }
  }

  /** The ids below n. */
  function Range(n: nat): (s: set<nat>)
    ensures |s| == n
    ensures forall b: nat :: b in s <==> b < n
  {
    if n == 0 then {} else Range(n - 1) + {n - 1}
  }

  lemma AllIds(n: nat, p: seq<nat>)
    requires Distinct(p) && |p| == n && forall i | 0 <= i < |p| :: p[i] < n
    ensures forall b: nat | b < n :: b in p
  {
    DoneSize(p);
    assert Done(p) <= Range(n);
    if Done(p) != Range(n) {
      ProperSubset(Done(p), Range(n));
    }
    forall b: nat | b < n ensures b in p {
      assert b in Range(n);
    }
  }

  lemma ProperSubset<T>(a: set<T>, b: set<T>)
    requires a < b
    ensures |a| < |b|
  {
    assert b == a + (b - a);
    assert |b| == |a| + |b - a|;
  }

  lemma {:induction false} DoneSize(p: seq<nat>)
    requires Distinct(p)
    ensures |Done(p)| == |p|
  {
    if p != [] {
      var q := p[..|p| - 1];
      DoneSize(q);
      assert p == q + [p[|p| - 1]];
      assert Done(p) == Done(q) + {p[|p| - 1]};
    }
  }

  /** A linearization is a partial linearization that has every operation. */
  lemma LinearizationIsFullPartial<S, I, O>(m: Model<S, I, O>, h: seq<Entry<I, O>>, p: seq<nat>)
    requires WellFormed(h)
    ensures IsLinearization(m, h, p) <==> IsPartial(m, h, p) && |p| == Size(h)
  {
    if IsPartial(m, h, p) && |p| == Size(h) {
      forall i, j | 0 <= i < j < |p|
        ensures !Before(h, p[j], p[i])
      {
        assert p[j] !in p[..i];
      }
    } else if IsLinearization(m, h, p) {
      AllIds(Size(h), p);
      forall j, b: nat | 0 <= j < |p| && b < Size(h) && Before(h, b, p[j])
        ensures b in p[..j]
      {
        assert b in p;
        var i :| 0 <= i < |p| && p[i] == b;
        assert CallAt(h, b) < ReturnAt(h, b);
        assert i < j;
      }
    }
  }

  // ---- what the search has settled -------------------------------------------

  type Longest = seq<Option<seq<nat>>>

  ghost predicate Covers(longest: Longest, i: nat, k: nat)
    requires i < |longest|
  {
    longest[i].Some? && |longest[i].value| >= k
  }

  /**
   (done, s) has been explored: no run from it reaches a full linearization and, when
   prefixes are recorded, every operation of every run is covered by a prefix as long.
   */
  ghost predicate Settled<S, I, O>(m: Model<S, I, O>, h: seq<Entry<I, O>>, partial: bool, longest: Longest, done: set<nat>, s: S)
    requires WellFormed(h) && |longest| == Size(h)
  {
    forall e | Runs(m, h, done, s, e) ::
      && |done| + |e| < Size(h)
      && (partial ==> forall i: nat | i < Size(h) && (i in done || i in e) :: Covers(longest, i, |done| + |e|))
  }

  ghost predicate Refuted<S, I, O>(m: Model<S, I, O>, h: seq<Entry<I, O>>, partial: bool, longest: Longest, done: set<nat>, s: S, id: nat)
    requires WellFormed(h) && |longest| == Size(h) && id < Size(h)
  {
    StepOf(m, h, s, id).0 ==> Settled(m, h, partial, longest, done + {id}, StepOf(m, h, s, id).1)
  }

  /** Everything still listed before position cursor is a call that leads nowhere. */
  ghost predicate Scanned<S, I, O>(m: Model<S, I, O>, h: seq<Entry<I, O>>, partial: bool, longest: Longest, done: set<nat>, s: S, cursor: nat)
    requires WellFormed(h) && |longest| == Size(h) && cursor <= |h|
  {
    forall i | 0 <= i < cursor && h[i].id !in done ::
      h[i].CallEntry? && Refuted(m, h, partial, longest, done, s, h[i].id)
  }

  /** longest' records prefixes at least as long as longest does. */
  ghost predicate Grows(longest: Longest, longest': Longest)
  {
    && |longest| == |longest'|
    && forall i: nat, k: nat | i < |longest| && Covers(longest, i, k) :: Covers(longest', i, k)
  }

  lemma SettledGrows<S, I, O>(m: Model<S, I, O>, h: seq<Entry<I, O>>, partial: bool, longest: Longest, longest': Longest, done: set<nat>, s: S)
    requires WellFormed(h) && |longest| == Size(h) && Grows(longest, longest')
    requires Settled(m, h, partial, longest, done, s)
    ensures Settled(m, h, partial, longest', done, s)
  {
  }

  lemma ScannedGrows<S, I, O>(m: Model<S, I, O>, h: seq<Entry<I, O>>, partial: bool, longest: Longest, longest': Longest, done: set<nat>, s: S, cursor: nat)
    requires WellFormed(h) && |longest| == Size(h) && Grows(longest, longest') && cursor <= |h|
    requires Scanned(m, h, partial, longest, done, s, cursor)
    ensures Scanned(m, h, partial, longest', done, s, cursor)
  {
    forall i | 0 <= i < cursor && h[i].id !in done
      ensures Refuted(m, h, partial, longest', done, s, h[i].id)
    {
      assert Refuted(m, h, partial, longest, done, s, h[i].id);
      if StepOf(m, h, s, h[i].id).0 {
        SettledGrows(m, h, partial, longest, longest', done + {h[i].id}, StepOf(m, h, s, h[i].id).1);
      }
    }
  }

  /** A run that goes on while the cursor stands on a return starts with a refuted call. */
  lemma RunStartsRefuted<S, I, O>(m: Model<S, I, O>, h: seq<Entry<I, O>>, partial: bool, longest: Longest, done: set<nat>, s: S, cursor: nat, e: seq<nat>)
    requires WellFormed(h) && |longest| == Size(h) && cursor < |h|
    requires Scanned(m, h, partial, longest, done, s, cursor)
    requires h[cursor].ReturnEntry? && h[cursor].id !in done && e != [] && Runs(m, h, done, s, e)
    ensures e[0] < Size(h) && e[0] !in done && Refuted(m, h, partial, longest, done, s, e[0])
    ensures StepOf(m, h, s, e[0]).0 && Runs(m, h, done + {e[0]}, StepOf(m, h, s, e[0]).1, e[1..])
  {
    RunsStep(m, h, done, s, e);
    EntryPosition(h, cursor);
    hide Runs; hide Refuted; hide StepOf;
    assert !Before(h, h[cursor].id, e[0]);
    assert CallAt(h, e[0]) < cursor;
    assert Refuted(m, h, partial, longest, done, s, h[CallAt(h, e[0])].id);
  }

  lemma RunIsSettled<S, I, O>(m: Model<S, I, O>, h: seq<Entry<I, O>>, partial: bool, longest: Longest, done: set<nat>, s: S, cursor: nat, e: seq<nat>)
    requires WellFormed(h) && |longest| == Size(h) && cursor < |h|
    requires Scanned(m, h, partial, longest, done, s, cursor)
    requires h[cursor].ReturnEntry? && h[cursor].id !in done && e != [] && Runs(m, h, done, s, e)
    ensures |done| + |e| < Size(h)
    ensures partial ==> forall i: nat | i < Size(h) && (i in done || i in e) :: Covers(longest, i, |done| + |e|)
  {
    hide WellFormed; hide Scanned; hide Runs; hide StepOf; hide Covers;
    RunStartsRefuted(m, h, partial, longest, done, s, cursor, e);
    var q := e[0];
    assert |done + {q}| == |done| + 1;
    assert e == [q] + e[1..];
    assert forall i: nat | i in done || i in e :: i in done + {q} || i in e[1..];
  }

  /** The cursor stands on a return: every way to go on has been tried. */
  lemma ReturnSettles<S, I, O>(m: Model<S, I, O>, h: seq<Entry<I, O>>, partial: bool, longest: Longest, done: set<nat>, s: S, cursor: nat)
    requires WellFormed(h) && |longest| == Size(h) && cursor < |h|
    requires Scanned(m, h, partial, longest, done, s, cursor)
    requires h[cursor].ReturnEntry? && h[cursor].id !in done
    requires |done| < Size(h)
    requires partial ==> forall i: nat | i < Size(h) && i in done :: Covers(longest, i, |done|)
    ensures Settled(m, h, partial, longest, done, s)
  {
    hide WellFormed; hide Scanned; hide Runs; hide Covers;
    forall e | Runs(m, h, done, s, e)
      ensures |done| + |e| < Size(h)
      ensures partial ==> forall i: nat | i < Size(h) && (i in done || i in e) :: Covers(longest, i, |done| + |e|)
    {
      if e != [] {
        RunIsSettled(m, h, partial, longest, done, s, cursor, e);
      }
    }
  }

  // ---- the invariant of the search loop --------------------------------------

  /**
   One moment of the search: the chosen ids and the states around them, the position
   the cursor stands on, the (set, state) pairs seen so far and the recorded prefixes.
   */
  datatype Moment<S> = Moment(
    path: seq<nat>,
    states: seq<S>,
    cursor: nat,
    cache: seq<(set<nat>, S)>,
    longest: Longest)

  ghost predicate ChainStep<S, I, O>(m: Model<S, I, O>, h: seq<Entry<I, O>>, path: seq<nat>, states: seq<S>, d: int)
    requires WellFormed(h) && 0 <= d < |path| < |states| && path[d] < Size(h)
  {
    StepOf(m, h, states[d], path[d]) == (true, states[d + 1])
  }

  /** The path is a chain of accepted steps from the initial state. */
  ghost predicate Chain<S, I, O>(m: Model<S, I, O>, h: seq<Entry<I, O>>, path: seq<nat>, states: seq<S>)
    requires WellFormed(h)
  {
    && Ids(h, path)
    && Distinct(path)
    && |states| == |path| + 1
    && states[0] == m.init
    && forall d | 0 <= d < |path| :: path[d] < Size(h) && ChainStep(m, h, path, states, d)
  }

  ghost predicate OnPath<S>(c: (set<nat>, S), path: seq<nat>, states: seq<S>)
    requires |states| == |path| + 1
  {
    exists d :: 0 <= d <= |path| && c == (Done(path[..d]), states[d])
  }

  lemma ChainFacts<S, I, O>(m: Model<S, I, O>, h: seq<Entry<I, O>>, path: seq<nat>, states: seq<S>)
    requires WellFormed(h) && Chain(m, h, path, states)
    ensures |states| == |path| + 1 && Ids(h, path) && Distinct(path)
  {
    hide WellFormed; hide ChainStep; hide Ids; hide Distinct;
  }

  ghost predicate PrefixesValid<S, I, O>(m: Model<S, I, O>, h: seq<Entry<I, O>>, longest: Longest)
    requires WellFormed(h)
  {
    && |longest| == Size(h)
    && forall i | 0 <= i < |longest| && longest[i].Some? ::
      IsPartial(m, h, longest[i].value) && i in longest[i].value
  }

  ghost predicate LevelsScanned<S, I, O>(m: Model<S, I, O>, h: seq<Entry<I, O>>, partial: bool, x: Moment<S>)
    requires WellFormed(h) && Chain(m, h, x.path, x.states) && |x.longest| == Size(h)
  {
    forall d | 0 <= d < |x.path| ::
      Scanned(m, h, partial, x.longest, Done(x.path[..d]), x.states[d], CallAt(h, x.path[d]))
  }

  ghost predicate CacheSettled<S, I, O>(m: Model<S, I, O>, h: seq<Entry<I, O>>, partial: bool, x: Moment<S>)
    requires WellFormed(h) && |x.longest| == Size(h) && |x.states| == |x.path| + 1
  {
    forall c | c in x.cache ::
      Settled(m, h, partial, x.longest, c.0, c.1) || OnPath(c, x.path, x.states)
  }

  ghost predicate Inv<S, I, O>(m: Model<S, I, O>, h: seq<Entry<I, O>>, partial: bool, x: Moment<S>)
    requires WellFormed(h)
  {
    && Chain(m, h, x.path, x.states)
    && x.cursor <= |h|
    && PrefixesValid(m, h, x.longest)
    && LevelsScanned(m, h, partial, x)
    && Scanned(m, h, partial, x.longest, Done(x.path), x.states[|x.path|], x.cursor)
    && CacheSettled(m, h, partial, x)
  }

  lemma Prefix(path: seq<nat>, q: nat)
    ensures Done(path + [q]) == Done(path) + {q}
    ensures (path + [q])[..|path|] == path
    ensures forall d | 0 <= d <= |path| :: (path + [q])[..d] == path[..d]
  {
  }

  lemma {:induction false} ChainAccepts<S, I, O>(m: Model<S, I, O>, h: seq<Entry<I, O>>, path: seq<nat>, states: seq<S>, d: nat)
    requires WellFormed(h) && Ids(h, path) && |states| == |path| + 1 && d <= |path|
    requires forall d | 0 <= d < |path| :: path[d] < Size(h) && ChainStep(m, h, path, states, d)
    ensures Accepts(m, states[d], OpsOf(h, path)[d..])
    decreases |path| - d
  {
    if d < |path| {
      ChainAccepts(m, h, path, states, d + 1);
      assert OpsOf(h, path)[d..][1..] == OpsOf(h, path)[d + 1..];
      assert ChainStep(m, h, path, states, d);
    }
  }

  /** The path is at every moment a partial linearization. */
  lemma PathIsPartial<S, I, O>(m: Model<S, I, O>, h: seq<Entry<I, O>>, partial: bool, x: Moment<S>)
    requires WellFormed(h) && Inv(m, h, partial, x)
    ensures IsPartial(m, h, x.path)
  {
    forall j, b: nat | 0 <= j < |x.path| && b < Size(h) && Before(h, b, x.path[j])
      ensures b in x.path[..j]
    {
      assert Scanned(m, h, partial, x.longest, Done(x.path[..j]), x.states[j], CallAt(h, x.path[j]));
      assert h[ReturnAt(h, b)].ReturnEntry?;
    }
    ChainAccepts(m, h, x.path, x.states, 0);
    assert OpsOf(h, x.path)[0..] == OpsOf(h, x.path);
  }

  ghost predicate Gone<I, O>(h: seq<Entry<I, O>>, done: set<nat>, from: nat, to: nat)
  {
    forall i | from <= i < to && i < |h| :: h[i].id in done
  }

  lemma EntryId<I, O>(h: seq<Entry<I, O>>, i: nat)
    requires WellFormed(h) && i < |h|
    ensures h[i].id < Size(h)
  {
  }

  /** Past a refuted call, and past entries that are no longer listed, everything is scanned as well. */
  lemma ScannedOn<S, I, O>(m: Model<S, I, O>, h: seq<Entry<I, O>>, partial: bool, longest: Longest, done: set<nat>, s: S, cursor: nat, next: nat)
    requires WellFormed(h) && |longest| == Size(h) && cursor < next <= |h| && h[cursor].id < Size(h)
    requires Scanned(m, h, partial, longest, done, s, cursor)
    requires h[cursor].CallEntry? && Refuted(m, h, partial, longest, done, s, h[cursor].id)
    requires Gone(h, done, cursor + 1, next)
    ensures Scanned(m, h, partial, longest, done, s, next)
  {
    hide WellFormed; hide Refuted;
    forall i | 0 <= i < next && h[i].id !in done
      ensures h[i].CallEntry? && h[i].id < Size(h) && Refuted(m, h, partial, longest, done, s, h[i].id)
    {
      EntryId(h, i);
      assert i <= cursor;
    }
  }

  /** Moving the cursor past a refuted call. */
  lemma SkipKeeps<S, I, O>(m: Model<S, I, O>, h: seq<Entry<I, O>>, partial: bool, x: Moment<S>, next: nat)
    requires WellFormed(h) && Inv(m, h, partial, x)
    requires x.cursor < next <= |h| && Gone(h, Done(x.path), x.cursor + 1, next)
    requires h[x.cursor].CallEntry?
    requires Refuted(m, h, partial, x.longest, Done(x.path), x.states[|x.path|], h[x.cursor].id)
    ensures Inv(m, h, partial, x.(cursor := next))
  {
    hide WellFormed; hide Chain; hide IsPartial; hide Refuted; hide Settled; hide Scanned; hide Gone; hide OnPath; hide Done;
    EntryId(h, x.cursor);
    ChainFacts(m, h, x.path, x.states);
    ScannedOn(m, h, partial, x.longest, Done(x.path), x.states[|x.path|], x.cursor, next);
    SameButCursor(m, h, partial, x, x.(cursor := next));
  }

  lemma SameButCursor<S, I, O>(m: Model<S, I, O>, h: seq<Entry<I, O>>, partial: bool, x: Moment<S>, y: Moment<S>)
    requires WellFormed(h) && Chain(m, h, x.path, x.states) && |x.longest| == Size(h)
    requires LevelsScanned(m, h, partial, x) && CacheSettled(m, h, partial, x)
    requires y.path == x.path && y.states == x.states && y.cache == x.cache && y.longest == x.longest
    ensures LevelsScanned(m, h, partial, y) && CacheSettled(m, h, partial, y)
  {
    hide WellFormed; hide Chain; hide Settled; hide Scanned; hide OnPath; hide Done;
    ChainFacts(m, h, x.path, x.states);
    forall d | 0 <= d < |y.path|
      ensures Scanned(m, h, partial, y.longest, Done(y.path[..d]), y.states[d], CallAt(h, y.path[d]))
    {
      assert Scanned(m, h, partial, x.longest, Done(x.path[..d]), x.states[d], CallAt(h, x.path[d]));
    }
  }

  /** A cached pair with the same set and an equal state refutes the call at the cursor. */
  lemma HitRefutes<S(!new), I(!new), O(!new)>(m: Model<S, I, O>, h: seq<Entry<I, O>>, partial: bool, x: Moment<S>, id: nat, t: S)
    requires WellFormed(h) && SameFutures(m) && Inv(m, h, partial, x)
    requires id < Size(h) && id !in x.path
    requires (Done(x.path) + {id}, t) in x.cache
    requires m.equal(StepOf(m, h, x.states[|x.path|], id).1, t)
    ensures Refuted(m, h, partial, x.longest, Done(x.path), x.states[|x.path|], id)
  {
    var c := (Done(x.path) + {id}, t);
    assert !OnPath(c, x.path, x.states) by {
      assert forall d | 0 <= d <= |x.path| :: id !in Done(x.path[..d]);
    }
    forall e | Runs(m, h, c.0, StepOf(m, h, x.states[|x.path|], id).1, e)
      ensures Runs(m, h, c.0, t, e)
    {
      RunsEqual(m, h, c.0, StepOf(m, h, x.states[|x.path|], id).1, t, e);
    }
  }

  ghost function Pushed<S>(x: Moment<S>, id: nat, s: S, next: nat): (y: Moment<S>)
  {
    Moment(x.path + [id], x.states + [s], next, x.cache + [(Done(x.path) + {id}, s)], x.longest)
  }

  lemma PushChain<S, I, O>(m: Model<S, I, O>, h: seq<Entry<I, O>>, x: Moment<S>, id: nat, s: S, next: nat)
    requires WellFormed(h) && Chain(m, h, x.path, x.states)
    requires id < Size(h) && id !in x.path
    requires StepOf(m, h, x.states[|x.path|], id) == (true, s)
    ensures Chain(m, h, Pushed(x, id, s, next).path, Pushed(x, id, s, next).states)
  {
    hide WellFormed; hide Size;
    var y := Pushed(x, id, s, next);
    forall d | 0 <= d < |y.path| ensures y.path[d] < Size(h) && ChainStep(m, h, y.path, y.states, d) {
      assert d < |x.path| ==> ChainStep(m, h, x.path, x.states, d);
    }
  }

  lemma PushCache<S, I, O>(m: Model<S, I, O>, h: seq<Entry<I, O>>, partial: bool, x: Moment<S>, id: nat, s: S, next: nat)
    requires WellFormed(h) && |x.longest| == Size(h) && |x.states| == |x.path| + 1
    requires CacheSettled(m, h, partial, x)
    ensures CacheSettled(m, h, partial, Pushed(x, id, s, next))
  {
    var y := Pushed(x, id, s, next);
    Prefix(x.path, id);
    forall c | c in y.cache
      ensures Settled(m, h, partial, y.longest, c.0, c.1) || OnPath(c, y.path, y.states)
    {
      if c in x.cache {
        if OnPath(c, x.path, x.states) {
          var d :| 0 <= d <= |x.path| && c == (Done(x.path[..d]), x.states[d]);
          assert c == (Done(y.path[..d]), y.states[d]);
        }
      } else {
        assert y.path[..|y.path|] == y.path;
        assert c == (Done(y.path[..|y.path|]), y.states[|y.path|]);
      }
    }
  }

  lemma PushLevels<S, I, O>(m: Model<S, I, O>, h: seq<Entry<I, O>>, partial: bool, x: Moment<S>, id: nat, s: S, next: nat)
    requires WellFormed(h) && Chain(m, h, x.path, x.states) && |x.longest| == Size(h) && id < Size(h)
    requires LevelsScanned(m, h, partial, x)
    requires Scanned(m, h, partial, x.longest, Done(x.path), x.states[|x.path|], CallAt(h, id))
    requires Chain(m, h, Pushed(x, id, s, next).path, Pushed(x, id, s, next).states)
    ensures LevelsScanned(m, h, partial, Pushed(x, id, s, next))
  {
    var y := Pushed(x, id, s, next);
    Prefix(x.path, id);
    assert x.path[..|x.path|] == x.path;
    forall d | 0 <= d < |y.path|
      ensures Scanned(m, h, partial, y.longest, Done(y.path[..d]), y.states[d], CallAt(h, y.path[d]))
    {
      if d < |x.path| {
        assert Scanned(m, h, partial, x.longest, Done(x.path[..d]), x.states[d], CallAt(h, x.path[d]));
      }
    }
  }

  lemma AllGone<S, I, O>(m: Model<S, I, O>, h: seq<Entry<I, O>>, partial: bool, longest: Longest, done: set<nat>, s: S, next: nat)
    requires WellFormed(h) && |longest| == Size(h) && next <= |h| && Gone(h, done, 0, next)
    ensures Scanned(m, h, partial, longest, done, s, next)
  {
    hide WellFormed; hide Refuted;
  }

  /** Choosing the call at the cursor. */
  lemma PushKeeps<S, I, O>(m: Model<S, I, O>, h: seq<Entry<I, O>>, partial: bool, x: Moment<S>, s: S, next: nat)
    requires WellFormed(h) && Inv(m, h, partial, x)
    requires x.cursor < |h| && h[x.cursor].CallEntry? && h[x.cursor].id !in x.path
    requires StepOf(m, h, x.states[|x.path|], h[x.cursor].id) == (true, s)
    requires next <= |h| && Gone(h, Done(x.path) + {h[x.cursor].id}, 0, next)
    ensures Inv(m, h, partial, Pushed(x, h[x.cursor].id, s, next))
  {
    hide Settled; hide Scanned; hide Done; hide OnPath; hide LevelsScanned; hide CacheSettled; hide Chain; hide IsPartial;
    var q := h[x.cursor].id;
    EntryPosition(h, x.cursor);
    ChainFacts(m, h, x.path, x.states);
    PushChain(m, h, x, q, s, next);
    PushLevels(m, h, partial, x, q, s, next);
    PushCache(m, h, partial, x, q, s, next);
    Prefix(x.path, q);
    AllGone(m, h, partial, x.longest, Done(x.path) + {q}, s, next);
  }

  ghost function Popped<S>(x: Moment<S>, longest: Longest, next: nat): (y: Moment<S>)
    requires |x.path| > 0 && |x.states| == |x.path| + 1
  {
    Moment(x.path[..|x.path| - 1], x.states[..|x.path|], next, x.cache, longest)
  }

  lemma PopCache<S, I, O>(m: Model<S, I, O>, h: seq<Entry<I, O>>, partial: bool, x: Moment<S>, longest: Longest, next: nat)
    requires WellFormed(h) && |x.longest| == Size(h) && |x.states| == |x.path| + 1 && |x.path| > 0
    requires CacheSettled(m, h, partial, x)
    requires Grows(x.longest, longest)
    requires Settled(m, h, partial, longest, Done(x.path), x.states[|x.path|])
    ensures CacheSettled(m, h, partial, Popped(x, longest, next))
  {
    var y := Popped(x, longest, next);
    forall c | c in y.cache
      ensures Settled(m, h, partial, longest, c.0, c.1) || OnPath(c, y.path, y.states)
    {
      if OnPath(c, x.path, x.states) {
        var d :| 0 <= d <= |x.path| && c == (Done(x.path[..d]), x.states[d]);
        if d == |x.path| {
          assert x.path[..d] == x.path;
        } else {
          assert y.path[..d] == x.path[..d];
          assert c == (Done(y.path[..d]), y.states[d]);
        }
      } else {
        SettledGrows(m, h, partial, x.longest, longest, c.0, c.1);
      }
    }
  }

  lemma GrowsLength(longest: Longest, longest': Longest)
    requires Grows(longest, longest')
    ensures |longest| == |longest'|
  {
  }

  lemma PopChain<S, I, O>(m: Model<S, I, O>, h: seq<Entry<I, O>>, path: seq<nat>, states: seq<S>)
    requires WellFormed(h) && Chain(m, h, path, states) && |path| > 0
    ensures Chain(m, h, path[..|path| - 1], states[..|path|])
  {
    hide WellFormed; hide StepOf; hide Size;
    var (p, q) := (path[..|path| - 1], states[..|path|]);
    forall d | 0 <= d < |p| ensures p[d] < Size(h) && ChainStep(m, h, p, q, d) {
      assert ChainStep(m, h, path, states, d);
    }
  }

  lemma PopLevels<S, I, O>(m: Model<S, I, O>, h: seq<Entry<I, O>>, partial: bool, x: Moment<S>, longest: Longest, next: nat)
    requires WellFormed(h) && Chain(m, h, x.path, x.states) && |x.longest| == Size(h) && |x.path| > 0
    requires LevelsScanned(m, h, partial, x)
    requires Grows(x.longest, longest)
    ensures Chain(m, h, Popped(x, longest, next).path, Popped(x, longest, next).states)
    ensures LevelsScanned(m, h, partial, Popped(x, longest, next))
  {
    hide WellFormed; hide Scanned; hide Grows; hide Done; hide Ids; hide Distinct;
    var y := Popped(x, longest, next);
    PopChain(m, h, x.path, x.states);
    assert |x.longest| == |longest| by { assert Grows(x.longest, longest); GrowsLength(x.longest, longest); }
    forall d | 0 <= d < |y.path|
      ensures Scanned(m, h, partial, longest, Done(y.path[..d]), y.states[d], CallAt(h, y.path[d]))
    {
      assert y.path[..d] == x.path[..d] && y.path[d] == x.path[d] && y.states[d] == x.states[d];
      assert Scanned(m, h, partial, x.longest, Done(x.path[..d]), x.states[d], CallAt(h, x.path[d]));
      ScannedGrows(m, h, partial, x.longest, longest, Done(x.path[..d]), x.states[d], CallAt(h, x.path[d]));
    }
  }

  /** At the level above, the undone call joins the refuted ones. */
  lemma PopCursor<S, I, O>(m: Model<S, I, O>, h: seq<Entry<I, O>>, partial: bool, longest: Longest, done: set<nat>, s: S, id: nat, next: nat)
    requires WellFormed(h) && |longest| == Size(h) && id < Size(h)
    requires Scanned(m, h, partial, longest, done, s, CallAt(h, id))
    requires Refuted(m, h, partial, longest, done, s, id)
    requires CallAt(h, id) < next <= |h| && Gone(h, done, CallAt(h, id) + 1, next)
    ensures Scanned(m, h, partial, longest, done, s, next)
  {
    hide WellFormed; hide Refuted; hide Scanned; hide Gone;
    ScannedOn(m, h, partial, longest, done, s, CallAt(h, id), next);
  }

  /** Undoing the last choice once the cursor stands on a return. */
  lemma PopKeeps<S, I, O>(m: Model<S, I, O>, h: seq<Entry<I, O>>, partial: bool, x: Moment<S>, longest: Longest, next: nat)
    requires WellFormed(h) && Inv(m, h, partial, x)
    requires x.cursor < |h| && h[x.cursor].ReturnEntry? && h[x.cursor].id !in x.path
    requires |x.path| > 0
    requires Grows(x.longest, longest) && PrefixesValid(m, h, longest)
    requires partial ==> forall i: nat | i < Size(h) && i in x.path :: Covers(longest, i, |x.path|)
    requires CallAt(h, x.path[|x.path| - 1]) < next <= |h|
    requires Gone(h, Done(x.path[..|x.path| - 1]), CallAt(h, x.path[|x.path| - 1]) + 1, next)
    ensures Inv(m, h, partial, Popped(x, longest, next))
  {
    hide WellFormed; hide Settled; hide Scanned; hide Gone; hide Grows; hide Refuted; hide Covers; hide Done; hide OnPath;
    hide LevelsScanned; hide CacheSettled;
    var k := |x.path| - 1;
    ReturnIsSettled(m, h, partial, x, longest);
    PopCache(m, h, partial, x, longest, next);
    PopLevels(m, h, partial, x, longest, next);
    LastRefuted(m, h, partial, x, longest);
    PopCursor(m, h, partial, longest, Done(x.path[..k]), x.states[k], x.path[k], next);
  }

  lemma LastRefuted<S, I, O>(m: Model<S, I, O>, h: seq<Entry<I, O>>, partial: bool, x: Moment<S>, longest: Longest)
    requires WellFormed(h) && Chain(m, h, x.path, x.states) && |x.longest| == Size(h) && |x.path| > 0
    requires LevelsScanned(m, h, partial, x)
    requires Grows(x.longest, longest)
    requires Settled(m, h, partial, longest, Done(x.path), x.states[|x.path|])
    ensures var k := |x.path| - 1;
      && Scanned(m, h, partial, longest, Done(x.path[..k]), x.states[k], CallAt(h, x.path[k]))
      && Refuted(m, h, partial, longest, Done(x.path[..k]), x.states[k], x.path[k])
  {
    hide WellFormed; hide Settled; hide Scanned; hide Grows; hide Done; hide Distinct; hide Ids;
    var k := |x.path| - 1;
    assert Scanned(m, h, partial, x.longest, Done(x.path[..k]), x.states[k], CallAt(h, x.path[k]));
    ScannedGrows(m, h, partial, x.longest, longest, Done(x.path[..k]), x.states[k], CallAt(h, x.path[k]));
    Prefix(x.path[..k], x.path[k]);
    assert x.path == x.path[..k] + [x.path[k]];
    assert ChainStep(m, h, x.path, x.states, k);
  }

  lemma ReturnIsSettled<S, I, O>(m: Model<S, I, O>, h: seq<Entry<I, O>>, partial: bool, x: Moment<S>, longest: Longest)
    requires WellFormed(h) && Inv(m, h, partial, x)
    requires x.cursor < |h| && h[x.cursor].ReturnEntry? && h[x.cursor].id !in x.path
    requires Grows(x.longest, longest)
    requires partial ==> forall i: nat | i < Size(h) && i in x.path :: Covers(longest, i, |x.path|)
    ensures Settled(m, h, partial, longest, Done(x.path), x.states[|x.path|])
  {
    ScannedGrows(m, h, partial, x.longest, longest, Done(x.path), x.states[|x.path|], x.cursor);
    DoneSize(x.path);
    assert Done(x.path) < Range(Size(h)) by {
      assert h[x.cursor].id in Range(Size(h)) - Done(x.path);
    }
    ProperSubset(Done(x.path), Range(Size(h)));
    ReturnSettles(m, h, partial, longest, Done(x.path), x.states[|x.path|], x.cursor);
  }

  // ---- what the two ways to stop mean ------------------------------------------

  /** The recorded prefix of each operation is a longest partial linearization with it. */
  ghost predicate Maximal<S, I, O>(m: Model<S, I, O>, h: seq<Entry<I, O>>, longest: Longest)
    requires WellFormed(h) && |longest| == Size(h)
  {
    forall p, i: nat | IsPartial(m, h, p) && i < Size(h) && i in p :: Covers(longest, i, |p|)
  }

  lemma EmptyPathRefutes<S, I, O>(m: Model<S, I, O>, h: seq<Entry<I, O>>, partial: bool, x: Moment<S>)
    requires WellFormed(h) && Inv(m, h, partial, x)
    requires x.cursor < |h| && h[x.cursor].ReturnEntry? && x.path == []
    ensures !Linearizable(m, h)
    ensures partial ==> Maximal(m, h, x.longest)
  {
    ReturnIsSettled(m, h, partial, x, x.longest);
    assert Settled(m, h, partial, x.longest, {}, m.init);
    forall p | IsPartial(m, h, p)
      ensures |p| < Size(h)
      ensures partial ==> forall i: nat | i < Size(h) && i in p :: Covers(x.longest, i, |p|)
    {
      PartialIsRun(m, h, p);
    }
    forall p ensures !IsLinearization(m, h, p) {
      LinearizationIsFullPartial(m, h, p);
    }
  }

  lemma FullPathLinearizes<S, I, O>(m: Model<S, I, O>, h: seq<Entry<I, O>>, partial: bool, x: Moment<S>)
    requires WellFormed(h) && Inv(m, h, partial, x) && |x.path| == Size(h)
    ensures IsLinearization(m, h, x.path)
  {
    PathIsPartial(m, h, partial, x);
    LinearizationIsFullPartial(m, h, x.path);
  }
}
