/**
 Verbose runs from end to end: the searches store their longest prefixes, the collecting
 loop waits for all of them, and the visualization replays what they stored. Also the
 prefixes of searches that were killed by a time-out are good for that.
 */
module Verbose {
  import opened History
  import opened Search
  import opened Visualization
  import CS = CheckSingle
  import CP = CheckParallel

  /** What a search stores and sends when it ends is what CheckSingle promises. */
  ghost predicate FromSearch<S, I, O>(m: Model<S, I, O>, hs: seq<seq<Entry<I, O>>>, c: CP.Config, step: CP.Step)
    requires |hs| == |c.legal| && forall i | 0 <= i < |hs| :: WellFormed(hs[i])
  {
    match step
    case Return(i, longest) => i < |hs| && CS.Verdict(m, hs[i], c.computeInfo, false, c.legal[i], longest)
    case Abandon(i, longest) => i < |hs| && CS.Verdict(m, hs[i], c.computeInfo, true, false, longest)
    case _ => true
  }

  ghost predicate FromSearches<S, I, O>(m: Model<S, I, O>, hs: seq<seq<Entry<I, O>>>, c: CP.Config, steps: seq<CP.Step>)
  {
    && |hs| == |c.legal|
    && (forall i | 0 <= i < |hs| :: WellFormed(hs[i]))
    && (forall t | 0 <= t < |steps| :: FromSearch(m, hs, c, steps[t]))
  }

  /** What a search has stored satisfies what its verdict promises. */
  ghost predicate StoredOk<S, I, O>(m: Model<S, I, O>, h: seq<Entry<I, O>>, c: CP.Config, w: CP.Worker)
    requires WellFormed(h)
  {
    !w.Searching? ==> CS.Verdict(m, h, c.computeInfo, w.killed, w.ok, w.longest)
  }

  ghost predicate AllStoredOk<S, I, O>(m: Model<S, I, O>, hs: seq<seq<Entry<I, O>>>, c: CP.Config, s: CP.State)
    requires forall i | 0 <= i < |hs| :: WellFormed(hs[i])
  {
    |s.workers| == |hs| && forall i | 0 <= i < |hs| :: StoredOk(m, hs[i], c, s.workers[i])
  }

  lemma StoreStep<S, I, O>(m: Model<S, I, O>, hs: seq<seq<Entry<I, O>>>, c: CP.Config, s: CP.State, step: CP.Step)
    requires |hs| == |c.legal| && (forall i | 0 <= i < |hs| :: WellFormed(hs[i])) && AllStoredOk(m, hs, c, s)
    requires CP.Enabled(c, s, step) && FromSearch(m, hs, c, step)
    ensures AllStoredOk(m, hs, c, CP.Apply(c, s, step))
  {
    hide WellFormed; hide CS.Verdict;
  }

  lemma {:induction false} RunStored<S, I, O>(m: Model<S, I, O>, hs: seq<seq<Entry<I, O>>>, c: CP.Config,
                                              run: seq<CP.State>, steps: seq<CP.Step>, t: nat)
    requires CP.IsRun(c, run, steps) && FromSearches(m, hs, c, steps) && t < |run|
    ensures AllStoredOk(m, hs, c, run[t])
  {
    assert |run| == |steps| + 1 && (t > 0 ==> FromSearch(m, hs, c, steps[t - 1]));
    hide WellFormed; hide CS.Verdict;
    if t > 0 {
      hide CP.Enabled; hide CP.Apply; hide AllStoredOk; hide FromSearch; hide CP.IsRun;
      RunStored(m, hs, c, run, steps, t - 1);
      CP.TakesStep(c, run, steps, t - 1);
      StoreStep(m, hs, c, run[t - 1], steps[t - 1]);
    }
  }

  /**
   Whenever a verbose run has its verdict, every search has stored prefixes that are partial
   linearizations, killed or not; those of a search that was not killed are longest ones.
   */
  lemma StoredPrefixes<S, I, O>(m: Model<S, I, O>, hs: seq<seq<Entry<I, O>>>, c: CP.Config,
                                run: seq<CP.State>, steps: seq<CP.Step>, t: nat, i: nat)
    requires CP.IsRun(c, run, steps) && FromSearches(m, hs, c, steps) && t < |run| && i < |hs|
    requires run[t].phase.Finished? && c.computeInfo
    ensures i < |run[t].workers| && !run[t].workers[i].Searching?
    ensures PrefixesValid(m, hs[i], run[t].workers[i].longest)
    ensures !run[t].workers[i].killed ==> Maximal(m, hs[i], run[t].workers[i].longest)
  {
    RunStored(m, hs, c, run, steps, t);
    CP.RunInv(c, run, steps, t);
    hide CP.IsRun; hide WellFormed; hide PrefixesValid; hide Maximal;
    CP.AllStoredAtEnd(c, run[t]);
    hide CP.Inv;
    assert StoredOk(m, hs[i], c, run[t].workers[i]);
  }

  /** The distinct prefixes that a search stored. */
  method PartialsOf(longest: Longest) returns (partials: seq<seq<nat>>)
    ensures forall q :: q in partials <==> Some(q) in longest
  {
    var prefixes: set<seq<nat>> := {};
    for i := 0 to |longest|
      invariant forall q :: q in prefixes <==> Some(q) in longest[..i]
    {
      if longest[i].Some? {
        prefixes := prefixes + {longest[i].value};
      }
      assert longest[..i + 1] == longest[..i] + [longest[i]];
    }
    assert longest[..|longest|] == longest;
    partials := [];
    ghost var all := prefixes;
    while prefixes != {}
      invariant prefixes <= all
      invariant forall q :: q in partials <==> q in all - prefixes
      decreases prefixes
    {
      var q :| q in prefixes;
      partials := partials + [q];
      prefixes := prefixes - {q};
    }
  }

  /** Prefixes longest first, their replays, and a longest one for each operation. */
  datatype Data<S> = Data(linearizations: seq<seq<LinearizationStep<S>>>, largest: map<nat, nat>, sorted: seq<seq<nat>>)

  ghost predicate Shows<S, I, O>(m: Model<S, I, O>, h: seq<Entry<I, O>>, longest: Longest, d: Data<S>)
    requires WellFormed(h)
  {
    && (forall q :: q in d.sorted <==> Some(q) in longest)
    && |d.linearizations| == |d.sorted|
    && (forall k | 0 <= k < |d.sorted| :: Replayed(m, h, d.sorted[k], d.linearizations[k]))
    && LargestAmong(d.sorted, |d.sorted|, d.largest)
  }

  /** Largest names, for every operation that some partial linearization has, a longest one. */
  ghost predicate NamesLongest<S, I, O>(m: Model<S, I, O>, h: seq<Entry<I, O>>, d: Data<S>)
    requires WellFormed(h)
  {
    forall p, id | IsPartial(m, h, p) && id in p :: id in d.largest && d.largest[id] < |d.sorted| && |p| <= |d.sorted[d.largest[id]]|
  }

  method Show<S, I, O>(m: Model<S, I, O>, h: seq<Entry<I, O>>, longest: Longest) returns (d: Data<S>)
    requires WellFormed(h) && PrefixesValid(m, h, longest)
    ensures Shows(m, h, longest, d)
    ensures Maximal(m, h, longest) ==> NamesLongest(m, h, d)
  {
    var partials := PartialsOf(longest);
    StoredArePartial(m, h, longest, partials);
    hide *;
    var linearizations, largest, sorted := ComputePartition(m, h, partials);
    d := Data(linearizations, largest, sorted);
    SameMembers(partials, sorted);
    ShowsIntro(m, h, longest, d);
    if Maximal(m, h, longest) { LongestNamed(m, h, longest, d); }
  }

  lemma ShowsIntro<S, I, O>(m: Model<S, I, O>, h: seq<Entry<I, O>>, longest: Longest, d: Data<S>)
    requires WellFormed(h) && (forall q :: q in d.sorted <==> Some(q) in longest) && |d.linearizations| == |d.sorted|
    requires forall k | 0 <= k < |d.sorted| :: Replayed(m, h, d.sorted[k], d.linearizations[k])
    requires LargestAmong(d.sorted, |d.sorted|, d.largest)
    ensures Shows(m, h, longest, d)
  {
    hide WellFormed; hide Replayed; hide LargestAmong;
  }

  lemma SameMembers(a: seq<seq<nat>>, b: seq<seq<nat>>)
    requires multiset(a) == multiset(b)
    ensures forall q :: q in a <==> q in b
  {
    forall q ensures q in a <==> q in b {
      assert q in a <==> q in multiset(a);
      assert q in b <==> q in multiset(b);
    }
  }

  lemma StoredArePartial<S, I, O>(m: Model<S, I, O>, h: seq<Entry<I, O>>, longest: Longest, partials: seq<seq<nat>>)
    requires WellFormed(h) && PrefixesValid(m, h, longest) && forall q :: q in partials <==> Some(q) in longest
    ensures forall k | 0 <= k < |partials| :: IsPartial(m, h, partials[k])
  {
    hide WellFormed; hide IsPartial;
    forall k | 0 <= k < |partials| ensures IsPartial(m, h, partials[k]) {
      assert partials[k] in partials;
      var i :| 0 <= i < |longest| && longest[i] == Some(partials[k]);
    }
  }

  lemma LongestNamed<S, I, O>(m: Model<S, I, O>, h: seq<Entry<I, O>>, longest: Longest, d: Data<S>)
    requires WellFormed(h) && PrefixesValid(m, h, longest) && Maximal(m, h, longest) && Shows(m, h, longest, d)
    ensures NamesLongest(m, h, d)
  {
    forall p, id | IsPartial(m, h, p) && id in p
      ensures id in d.largest && d.largest[id] < |d.sorted| && |p| <= |d.sorted[d.largest[id]]|
    {
      assert Ids(h, p) && id < Size(h);
      LargestIsMaximal(m, h, longest, d.sorted, d.largest, p, id);
    }
  }

  /** Everything handed over can be shown. */
  lemma AllGood<S, I, O>(m: Model<S, I, O>, hs: seq<seq<Entry<I, O>>>, stored: seq<Longest>,
                         c: CP.Config, run: seq<CP.State>, steps: seq<CP.Step>)
    requires CP.IsRun(c, run, steps) && FromSearches(m, hs, c, steps)
    requires run[|steps|].phase.Finished? && c.computeInfo
    requires |stored| == |hs| == |run[|steps|].workers|
    requires forall i | 0 <= i < |hs| :: !run[|steps|].workers[i].Searching? ==> stored[i] == run[|steps|].workers[i].longest
    ensures forall i | 0 <= i < |hs| :: WellFormed(hs[i]) && PrefixesValid(m, hs[i], stored[i])
    ensures forall i | 0 <= i < |hs| && !run[|steps|].workers[i].Searching? && !run[|steps|].workers[i].killed ::
      WellFormed(hs[i]) && |stored[i]| == Size(hs[i]) && Maximal(m, hs[i], stored[i])
  {
    hide CP.Taken; hide CP.Start; hide WellFormed; hide IsPartial; hide Maximal; hide FromSearch;
    forall i | 0 <= i < |hs|
      ensures PrefixesValid(m, hs[i], stored[i])
      ensures !run[|steps|].workers[i].Searching? && !run[|steps|].workers[i].killed ==> Maximal(m, hs[i], stored[i])
    {
      StoredPrefixes(m, hs, c, run, steps, |steps|, i);
    }
  }

  /**
   The whole of a verbose run: for whatever checkParallel hands over, after any interleaving
   and any time-out, the data can be computed, without reaching the panic.
   */
  method ComputeVisualizationData<S, I, O>(m: Model<S, I, O>, hs: seq<seq<Entry<I, O>>>, stored: seq<Longest>,
                                           ghost c: CP.Config, ghost run: seq<CP.State>, ghost steps: seq<CP.Step>)
    returns (data: seq<Data<S>>)
    requires CP.IsRun(c, run, steps) && FromSearches(m, hs, c, steps)
    requires run[|steps|].phase.Finished? && c.computeInfo
    requires |stored| == |hs| == |run[|steps|].workers|
    requires forall i | 0 <= i < |hs| :: !run[|steps|].workers[i].Searching? ==> stored[i] == run[|steps|].workers[i].longest
    ensures |data| == |hs|
    ensures forall i | 0 <= i < |hs| :: Shows(m, hs[i], stored[i], data[i])
    ensures forall i | 0 <= i < |hs| && !run[|steps|].workers[i].Searching? && !run[|steps|].workers[i].killed ::
      NamesLongest(m, hs[i], data[i])
  {
    hide *;
    CP.RunShape(c, run, steps);
    ghost var final := run[|steps|];
    AllGood(m, hs, stored, c, run, steps);
    data := [];
    for i := 0 to |hs|
      invariant |data| == i
      invariant forall j | 0 <= j < i :: Shows(m, hs[j], stored[j], data[j])
      invariant forall j | 0 <= j < i && !final.workers[j].Searching? && !final.workers[j].killed :: NamesLongest(m, hs[j], data[j])
    {
      var d := Show(m, hs[i], stored[i]);
      data := data + [d];
    }
  }
}
