/**
 The concurrent verdict: one search per partition, results coming in over a channel in
 any order, a kill flag and an optional time-out. Runs are interleavings of the steps
 of the searches and of the collecting loop.
 */
module CheckParallel {
  import opened History
  import opened Search

  datatype Verdict = Ok | Illegal | Unknown

  /** What is fixed during a run: what each search finds if it is left alone, and the options. */
  datatype Config = Config(legal: seq<bool>, computeInfo: bool, hasTimeout: bool)

  /** A search; `Returned` has stored its longest prefixes, `Sent` has also sent its result. */
  datatype Worker =
    | Searching
    | Returned(ok: bool, killed: bool, longest: Longest)
    | Sent(ok: bool, killed: bool, longest: Longest)

  datatype Phase = Looping | AfterLoop | Finished(result: Verdict, readAll: bool)

  /** `results` are the searches whose results wait in the channel, `counted` those the loop took. */
  datatype State = State(
    workers: seq<Worker>,
    results: seq<nat>,
    counted: seq<nat>,
    drained: nat,
    kill: bool,
    ok: bool,
    timedOut: bool,
    phase: Phase)

  function Count(s: State): (n: nat)
  {
    |s.counted| + s.drained
  }

  function Start(c: Config): (s: State)
  {
    State(seq(|c.legal|, _ => Searching), [], [], 0, false, true, false, Looping)
  }

  datatype Step =
    | Return(i: nat, longest: Longest)   // a search runs to its end
    | Abandon(i: nat, longest: Longest)  // a search sees the kill flag and gives up
    | Send(i: nat)
    | Receive
    | Timeout
    | Drain
    | Finish

  /** The step can be taken. */
  predicate Enabled(c: Config, s: State, step: Step)
  {
    match step
    case Return(i, _) => i < |s.workers| && s.workers[i].Searching?
    case Abandon(i, _) => i < |s.workers| && s.workers[i].Searching? && s.kill
    case Send(i) => i < |s.workers| && s.workers[i].Returned?
    case Receive => s.phase.Looping? && s.results != [] && s.results[0] < |s.workers| && s.workers[s.results[0]].Sent?
    case Timeout => s.phase.Looping? && c.hasTimeout
    case Drain => s.phase.AfterLoop? && c.computeInfo && Count(s) < |c.legal| && s.results != []
    case Finish => s.phase.AfterLoop? && (c.computeInfo ==> Count(s) >= |c.legal|)
  }

  function ResultOf(s: State): (v: Verdict)
  {
    if !s.ok then Illegal else if s.timedOut then Unknown else Ok
  }

  /** Every search has stored its prefixes. */
  predicate AllStored(s: State)
  {
    forall i | 0 <= i < |s.workers| :: !s.workers[i].Searching?
  }

  function Apply(c: Config, s: State, step: Step): (s': State)
    requires Enabled(c, s, step) && |s.workers| == |c.legal|
  {
    match step
    case Return(i, longest) => s.(workers := s.workers[i := Returned(c.legal[i], false, longest)])
    case Abandon(i, longest) => s.(workers := s.workers[i := Returned(false, true, longest)])
    case Send(i) =>
      var w := s.workers[i];
      s.(workers := s.workers[i := Sent(w.ok, w.killed, w.longest)], results := s.results + [i])
    case Receive =>
      var ok := s.ok && s.workers[s.results[0]].ok;
      var counted := s.counted + [s.results[0]];
      var s1 := s.(results := s.results[1..], counted := counted, ok := ok);
      if !ok && !c.computeInfo then s1.(kill := true, phase := AfterLoop)
      else if |counted| + s.drained >= |c.legal| then s1.(phase := AfterLoop)
      else s1
    case Timeout => s.(timedOut := true, kill := true, phase := AfterLoop)
    case Drain => s.(results := s.results[1..], drained := s.drained + 1)
    case Finish => s.(phase := Finished(ResultOf(s), c.computeInfo ==> AllStored(s)))
  }

  // ---- what every run keeps ----------------------------------------------------------

  /** Where each search's result is: not sent, in the channel, or taken. */
  ghost predicate Places(c: Config, s: State)
  {
    && |s.workers| == |c.legal|
    && Distinct(s.counted + s.results)
    && (forall i | i in s.counted + s.results :: i < |s.workers| && s.workers[i].Sent?)
    && (s.drained > 0 ==> s.phase != Looping)
    && |s.results| + Count(s) == Sents(s.workers)
  }

  /** How many searches have sent their result. */
  function Sents(ws: seq<Worker>): (n: nat)
    ensures n <= |ws|
    ensures n == |ws| ==> forall i | 0 <= i < |ws| :: ws[i].Sent?
  {
    if ws == [] then 0 else Sents(ws[1..]) + (if ws[0].Sent? then 1 else 0)
  }

  /** Results are what the search found, unless the search saw the kill flag. */
  ghost predicate Honest(c: Config, s: State)
    requires |s.workers| == |c.legal|
  {
    forall i | 0 <= i < |s.workers| && !s.workers[i].Searching? ::
      if s.workers[i].killed then s.kill && !s.workers[i].ok else s.workers[i].ok == c.legal[i]
  }

  /** What the loop has taken came from searches that were not killed, and `ok` sums it up. */
  ghost predicate Tallied(c: Config, s: State)
  {
    && (forall i | i in s.counted :: i < |s.workers| && s.workers[i].Sent? && !s.workers[i].killed)
    && (s.ok <==> forall i | i in s.counted :: i < |c.legal| && c.legal[i])
  }

  /** Why the loop goes on, or why it ended. */
  ghost predicate Phased(c: Config, s: State)
  {
    && (s.timedOut ==> c.hasTimeout)
    && (s.kill <==> s.timedOut || (!s.ok && !c.computeInfo))
    && (s.phase.Looping? ==> !s.kill && !s.timedOut && (Count(s) < |c.legal| || |c.legal| == 0))
    && (!s.phase.Looping? ==> s.timedOut || (!s.ok && !c.computeInfo) || (|s.counted| >= |c.legal| && |c.legal| > 0))
    && (s.phase.Finished? ==> s.phase.result == ResultOf(s) && (c.computeInfo ==> s.phase.readAll && Count(s) >= |c.legal|))
  }

  ghost predicate Inv(c: Config, s: State)
  {
    Places(c, s) && Honest(c, s) && Tallied(c, s) && Phased(c, s)
  }

  lemma StartInv(c: Config)
    ensures Inv(c, Start(c))
  {
    NoneSent(Start(c).workers);
  }

  lemma {:induction false} NoneSent(ws: seq<Worker>)
    requires forall i | 0 <= i < |ws| :: !ws[i].Sent?
    ensures Sents(ws) == 0
  {
    if ws != [] {
      NoneSent(ws[1..]);
    }
  }

  lemma {:induction false} SentsUpdate(ws: seq<Worker>, i: nat, w: Worker)
    requires i < |ws| && !ws[i].Sent?
    ensures Sents(ws[i := w]) == Sents(ws) + (if w.Sent? then 1 else 0)
  {
    if i > 0 {
      SentsUpdate(ws[1..], i - 1, w);
      assert ws[i := w][1..] == ws[1..][i - 1 := w];
    } else {
      assert ws[i := w][1..] == ws[1..];
    }
  }

  lemma SearchPlaces(c: Config, s: State, step: Step)
    requires Places(c, s) && Enabled(c, s, step) && (step.Return? || step.Abandon?)
    ensures Places(c, Apply(c, s, step))
  {
    var s' := Apply(c, s, step);
    SentsUpdate(s.workers, step.i, s'.workers[step.i]);
    hide Sents; hide Distinct;
  }

  lemma SearchKeeps(c: Config, s: State, step: Step)
    requires Inv(c, s) && Enabled(c, s, step) && (step.Return? || step.Abandon?)
    ensures Inv(c, Apply(c, s, step))
  {
    assert |s.workers| == |c.legal|;
    SearchPlaces(c, s, step);
    hide Places; hide ResultOf;
  }

  lemma {:induction false} DistinctSnoc(q: seq<nat>, i: nat)
    requires Distinct(q) && i !in q
    ensures Distinct(q + [i])
  {
  }

  lemma SendPlaces(c: Config, s: State, step: Step)
    requires Places(c, s) && Enabled(c, s, step) && step.Send?
    ensures Places(c, Apply(c, s, step))
  {
    var s' := Apply(c, s, step);
    SentsUpdate(s.workers, step.i, s'.workers[step.i]);
    assert step.i !in s.counted + s.results;
    DistinctSnoc(s.counted + s.results, step.i);
    assert s'.counted + s'.results == (s.counted + s.results) + [step.i];
    hide Sents; hide Distinct;
  }

  lemma SendKeeps(c: Config, s: State, step: Step)
    requires Inv(c, s) && Enabled(c, s, step) && step.Send?
    ensures Inv(c, Apply(c, s, step))
  {
    assert |s.workers| == |c.legal|;
    SendPlaces(c, s, step);
    hide Places; hide ResultOf;
  }

  lemma MoveFirst(a: seq<nat>, b: seq<nat>)
    requires b != []
    ensures (a + [b[0]]) + b[1..] == a + b
  {
    assert b == [b[0]] + b[1..];
  }

  lemma ReceivePlaces(c: Config, s: State)
    requires Places(c, s) && s.phase.Looping? && Enabled(c, s, Receive)
    ensures Places(c, Apply(c, s, Receive))
  {
    hide Sents; hide Distinct;
    var s' := Apply(c, s, Receive);
    MoveFirst(s.counted, s.results);
    assert s'.counted + s'.results == s.counted + s.results;
  }

  /** The result taken is that of a search that was not killed: nothing is killed while the loop runs. */
  lemma ReceiveTallied(c: Config, s: State)
    requires Inv(c, s) && Enabled(c, s, Receive)
    ensures Tallied(c, Apply(c, s, Receive)) && Honest(c, Apply(c, s, Receive))
  {
    var s' := Apply(c, s, Receive);
    var i := s.results[0];
    assert |s.workers| == |c.legal|;
    hide Places; hide ResultOf;
    assert !s.workers[i].killed && s.workers[i].ok == c.legal[i];
    assert forall x :: x in s'.counted <==> x in s.counted || x == i;
  }

  lemma ReceiveKeeps(c: Config, s: State)
    requires Inv(c, s) && Enabled(c, s, Receive)
    ensures Inv(c, Apply(c, s, Receive))
  {
    assert |s.workers| == |c.legal|;
    assert s.drained == 0;
    ReceivePlaces(c, s);
    ReceiveTallied(c, s);
    hide Places; hide Honest; hide Tallied; hide ResultOf;
  }

  lemma DistinctDrop(a: seq<nat>, b: seq<nat>)
    requires Distinct(a + b) && b != []
    ensures Distinct(a + b[1..])
    ensures forall x | x in a + b[1..] :: x in a + b
  {
    var (q, q', k) := (a + b, a + b[1..], |a|);
    assert forall j | 0 <= j < k :: q'[j] == q[j];
    assert forall j | k <= j < |q'| :: q'[j] == q[j + 1];
    forall i, j | 0 <= i < j < |q'| ensures q'[i] != q'[j] {
      var (i0, j0) := (if i < k then i else i + 1, if j < k then j else j + 1);
      assert q[i0] != q[j0];
    }
  }

  lemma DrainKeeps(c: Config, s: State)
    requires Inv(c, s) && Enabled(c, s, Drain)
    ensures Inv(c, Apply(c, s, Drain))
  {
    DistinctDrop(s.counted, s.results);
    hide Distinct; hide Sents; hide ResultOf;
  }

  lemma FinishKeeps(c: Config, s: State)
    requires Inv(c, s) && Enabled(c, s, Finish)
    ensures Inv(c, Apply(c, s, Finish))
  {
    assert |s.workers| == |c.legal|;
    assert c.computeInfo ==> AllStored(s) by {
      if c.computeInfo { assert Sents(s.workers) == |s.workers|; }
    }
    hide Sents; hide Distinct; hide AllStored;
  }

  /** Every step keeps the invariant. */
  lemma StepKeeps(c: Config, s: State, step: Step)
    requires Inv(c, s) && Enabled(c, s, step)
    ensures Inv(c, Apply(c, s, step))
  {
    match step
    case Return(_, _) => SearchKeeps(c, s, step);
    case Abandon(_, _) => SearchKeeps(c, s, step);
    case Send(_) => SendKeeps(c, s, step);
    case Receive => ReceiveKeeps(c, s);
    case Timeout =>
    case Drain => DrainKeeps(c, s);
    case Finish => FinishKeeps(c, s);
  }

  // ---- runs ---------------------------------------------------------------------------

  /** The states of a run: each follows from the one before by an enabled step. */
  predicate Taken(c: Config, run: seq<State>, steps: seq<Step>, t: int)
    requires 0 <= t < |steps| < |run|
  {
    |run[t].workers| == |c.legal| && Enabled(c, run[t], steps[t]) && run[t + 1] == Apply(c, run[t], steps[t])
  }

  ghost predicate IsRun(c: Config, run: seq<State>, steps: seq<Step>)
  {
    && |run| == |steps| + 1
    && run[0] == Start(c)
    && forall t | 0 <= t < |steps| :: Taken(c, run, steps, t)
  }

  lemma RunShape(c: Config, run: seq<State>, steps: seq<Step>)
    requires IsRun(c, run, steps)
    ensures |run| == |steps| + 1 && run[0] == Start(c)
  {
    hide Taken; hide Start;
  }

  lemma TakesStep(c: Config, run: seq<State>, steps: seq<Step>, t: nat)
    requires IsRun(c, run, steps) && t < |steps|
    ensures t + 1 < |run| && |run[t].workers| == |c.legal|
    ensures Enabled(c, run[t], steps[t]) && run[t + 1] == Apply(c, run[t], steps[t])
  {
    hide Enabled; hide Apply; hide Start;
    assert Taken(c, run, steps, t);
  }

  lemma {:induction false} RunInv(c: Config, run: seq<State>, steps: seq<Step>, t: nat)
    requires IsRun(c, run, steps) && t < |run|
    ensures Inv(c, run[t])
  {
    hide *;
    RunShape(c, run, steps);
    if t == 0 {
      StartInv(c);
    } else {
      RunInv(c, run, steps, t - 1);
      TakesStep(c, run, steps, t - 1);
      StepKeeps(c, run[t - 1], steps[t - 1]);
    }
  }

  /** Some result that was counted is that of a partition that is not legal. */
  ghost predicate CountedIllegal(c: Config, s: State)
  {
    exists i :: i in s.counted && i < |c.legal| && !c.legal[i]
  }

  /**
   What a verdict means, for every interleaving and whether or not the time-out fired:
   Illegal exactly if a counted search found its partition not to be legal, else Unknown
   exactly if the time-out fired, else Ok; and Ok only if every partition is legal. No
   result of a killed search is counted. When prefixes are asked for, all searches had
   stored theirs before they were read.
   */
  lemma VerdictMeaning(c: Config, run: seq<State>, steps: seq<Step>, t: nat)
    requires IsRun(c, run, steps) && t < |run| && run[t].phase.Finished?
    ensures run[t].phase.result == Illegal <==> CountedIllegal(c, run[t])
    ensures run[t].phase.result == Unknown <==> run[t].timedOut && !CountedIllegal(c, run[t])
    ensures run[t].phase.result == Ok <==> !run[t].timedOut && !CountedIllegal(c, run[t])
    ensures run[t].phase.result == Ok ==> forall i | 0 <= i < |c.legal| :: c.legal[i]
    ensures forall i | i in run[t].counted :: i < |run[t].workers| && run[t].workers[i].Sent? && !run[t].workers[i].killed
    ensures run[t].timedOut ==> c.hasTimeout
    ensures c.computeInfo ==> run[t].phase.readAll
  {
    hide IsRun;
    RunInv(c, run, steps, t);
    CountedFacts(c, run[t]);
    if run[t].phase.result == Ok {
      assert |run[t].counted| >= |c.legal|;
      AllCounted(c, run[t]);
    }
  }

  lemma CountedFacts(c: Config, s: State)
    requires Inv(c, s)
    ensures s.ok <==> !CountedIllegal(c, s)
    ensures forall i | i in s.counted :: i < |c.legal|
  {
    hide Honest; hide Phased; hide Distinct; hide Sents;
  }

  /** The time-out fired: it is one of the steps taken. */
  lemma {:induction false} TimedOutMeans(c: Config, run: seq<State>, steps: seq<Step>, t: nat)
    requires IsRun(c, run, steps) && t < |run|
    ensures run[t].timedOut <==> exists u :: 0 <= u < t && u < |steps| && steps[u].Timeout?
  {
    hide IsRun;
    RunShape(c, run, steps);
    if t > 0 {
      TimedOutMeans(c, run, steps, t - 1);
      TakesStep(c, run, steps, t - 1);
      OnlyTimeout(c, run[t - 1], steps[t - 1]);
      assert steps[t - 1].Timeout? || !steps[t - 1].Timeout?;
    }
  }

  lemma OnlyTimeout(c: Config, s: State, step: Step)
    requires Enabled(c, s, step) && |s.workers| == |c.legal|
    ensures Apply(c, s, step).timedOut <==> s.timedOut || step.Timeout?
  {
  }

  /**
   When the loop stops, in every run: it goes on exactly until the time-out fires, an illegal
   partition is counted in a run that does not ask for prefixes, or all results are counted.
   The searches that still run are killed exactly in the first two cases.
   */
  lemma WhenItStops(c: Config, run: seq<State>, steps: seq<Step>, t: nat)
    requires IsRun(c, run, steps) && t < |run|
    ensures run[t].phase.Looping? <==>
      && !run[t].timedOut
      && (CountedIllegal(c, run[t]) ==> c.computeInfo)
      && (|run[t].counted| < |c.legal| || |c.legal| == 0)
    ensures run[t].kill <==> run[t].timedOut || (CountedIllegal(c, run[t]) && !c.computeInfo)
  {
    hide IsRun; hide Places; hide Honest; hide Tallied;
    RunInv(c, run, steps, t);
    CountedFacts(c, run[t]);
    NotDrainedYet(c, run[t]);
  }

  lemma NotDrainedYet(c: Config, s: State)
    requires Inv(c, s)
    ensures s.phase.Looping? ==> s.drained == 0
  {
  }

  /** When prefixes are asked for and the verdict is out, every search has stored its prefixes. */
  lemma AllStoredAtEnd(c: Config, s: State)
    requires Inv(c, s) && s.phase.Finished? && c.computeInfo
    ensures |s.workers| == |c.legal| && AllStored(s)
  {
    assert Sents(s.workers) == |s.workers|;
  }

  lemma AllCounted(c: Config, s: State)
    requires Inv(c, s) && |s.counted| >= |c.legal|
    ensures forall i: nat | i < |c.legal| :: i in s.counted
  {
    var (p, n) := (s.counted, |c.legal|);
    assert forall i | 0 <= i < |p| :: (s.counted + s.results)[i] == p[i];
    assert Distinct(p);
    assert forall i | i in p :: i < n;
    hide *;
    FullRange(n, p);
  }

  lemma FullRange(n: nat, p: seq<nat>)
    requires Distinct(p) && |p| >= n && forall i | i in p :: i < n
    ensures forall i: nat | i < n :: i in p
  {
    DoneSize(p);
    assert Done(p) <= Range(n);
    if Done(p) != Range(n) { ProperSubset(Done(p), Range(n)); }
    forall i: nat | i < n ensures i in p { assert i in Range(n); }
  }

  /** Unless it timed out, the verdict is exact. */
  lemma VerdictExact(c: Config, run: seq<State>, steps: seq<Step>, t: nat)
    requires IsRun(c, run, steps) && t < |run| && run[t].phase.Finished? && !run[t].timedOut
    ensures run[t].phase.result == if forall i | 0 <= i < |c.legal| :: c.legal[i] then Ok else Illegal
  {
    VerdictMeaning(c, run, steps, t);
  }

  // ---- every run comes to a verdict ---------------------------------------------------------

  function Rank(w: Worker): (n: nat)
  {
    match w
    case Searching => 3
    case Returned(_, _, _) => 2
    case Sent(_, _, _) => 0
  }

  function Ranks(ws: seq<Worker>): (n: nat)
  {
    if ws == [] then 0 else Rank(ws[0]) + Ranks(ws[1..])
  }

  lemma {:induction false} RanksUpdate(ws: seq<Worker>, i: nat, w: Worker)
    requires i < |ws|
    ensures Ranks(ws[i := w]) == Ranks(ws) - Rank(ws[i]) + Rank(w)
  {
    if i > 0 {
      RanksUpdate(ws[1..], i - 1, w);
      assert ws[i := w][1..] == ws[1..][i - 1 := w];
    } else {
      assert ws[i := w][1..] == ws[1..];
    }
  }

  /** What is left to do: searches to end and send, results to take, phases to pass. */
  function Todo(s: State): (n: nat)
  {
    Ranks(s.workers) + |s.results| + (match s.phase case Looping => 2 case AfterLoop => 1 case Finished(_, _) => 0)
  }

  /** Every step brings the end nearer, so no run goes on for ever. */
  lemma StepsAreFinite(c: Config, s: State, step: Step)
    requires |s.workers| == |c.legal| && Enabled(c, s, step)
    ensures Todo(Apply(c, s, step)) < Todo(s)
  {
    match step
    case Return(i, longest) => RanksUpdate(s.workers, i, Returned(c.legal[i], false, longest));
    case Abandon(i, longest) => RanksUpdate(s.workers, i, Returned(false, true, longest));
    case Send(i) => RanksUpdate(s.workers, i, Sent(s.workers[i].ok, s.workers[i].killed, s.workers[i].longest));
    case Receive =>
    case Timeout =>
    case Drain =>
    case Finish =>
  }

  ghost predicate CanStep(c: Config, s: State)
  {
    exists step :: Enabled(c, s, step)
  }

  lemma {:induction false} AllSent(ws: seq<Worker>)
    requires forall i | 0 <= i < |ws| :: ws[i].Sent?
    ensures Sents(ws) == |ws|
  {
    if ws != [] {
      AllSent(ws[1..]);
    }
  }

  lemma NotStuck(c: Config, s: State)
    requires Inv(c, s) && !s.phase.Finished? && (|c.legal| > 0 || c.hasTimeout)
    ensures CanStep(c, s)
  {
    if i :| 0 <= i < |s.workers| && s.workers[i].Searching? {
      assert Enabled(c, s, Return(i, []));
    } else if i :| 0 <= i < |s.workers| && s.workers[i].Returned? {
      assert Enabled(c, s, Send(i));
    } else {
      AllSent(s.workers);
      if s.phase.Looping? {
        if c.hasTimeout {
          assert Enabled(c, s, Timeout);
        } else {
          assert s.results[0] in s.counted + s.results;
          assert Enabled(c, s, Receive);
        }
      } else if c.computeInfo && Count(s) < |c.legal| {
        assert Enabled(c, s, Drain);
      } else {
        assert Enabled(c, s, Finish);
      }
    }
  }

  /** With nothing to wait for, no run takes a step. */
  lemma NoFirstStep(c: Config, run: seq<State>, steps: seq<Step>)
    requires IsRun(c, run, steps) && |c.legal| == 0 && !c.hasTimeout
    ensures steps == []
  {
    if steps != [] {
      TakesStep(c, run, steps, 0);
    }
  }

  /**
   An unfinished run can go on exactly when there is a partition to wait for or a
   time-out to end the wait: without either, the loop waits for ever.
   */
  lemma StuckExactly(c: Config, run: seq<State>, steps: seq<Step>)
    requires IsRun(c, run, steps) && !run[|steps|].phase.Finished?
    ensures CanStep(c, run[|steps|]) <==> |c.legal| > 0 || c.hasTimeout
  {
    RunInv(c, run, steps, |steps|);
    if |c.legal| > 0 || c.hasTimeout {
      NotStuck(c, run[|steps|]);
    } else {
      NoFirstStep(c, run, steps);
    }
  }
}
