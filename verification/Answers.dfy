/**
 Which answer a call gets, and why. A positive answer goes back to exactly one kind of event,
 a negative one always has a reason, and calls that meet a live server can be answered.
 */
module Answers {
  import opened Network

  /** The end is enabled, and the server's name leads to the instance that was called. */
  predicate Alive(s: State, q: Request)
  {
    && q.end in s.enabled && s.enabled[q.end]
    && q.name in s.servers && s.servers[q.name] == q.inst
  }

  /** The end is enabled and connected to a server that is registered. */
  predicate Reachable(s: State, end: End)
  {
    && end in s.enabled && s.enabled[end]
    && end in s.connections && s.connections[end] in s.servers
  }

  // ---- positive answers ------------------------------------------------------------------

  /** Step u finds the handler's reply taken and the server alive, and does not drop the reply. */
  ghost predicate PositiveAt(run: seq<State>, steps: seq<Step>, u: int, r: Req)
    requires 0 <= u < |steps| < |run|
  {
    && steps[u] == FinalCheck(r, false)
    && r < |run[u].reqs| && run[u].reqs[r].phase == GotReply && Alive(run[u], run[u].reqs[r])
  }

  lemma AckStep(s: State, step: Step, r: Req)
    requires Enabled(s, step) && r < |Apply(s, step).reqs|
    ensures Acked(Apply(s, step).reqs[r]) <==>
      && r < |s.reqs|
      && (Acked(s.reqs[r]) || (step == FinalCheck(r, false) && s.reqs[r].phase == GotReply && Alive(s, s.reqs[r])))
  {
    ReqCount(s, step);
    hide Looked; hide TesterOf; hide SavedLog; hide Log;
    if r < |s.reqs| && r != About(step) {
      OthersStay(s, step, r);
    }
  }

  /** In every run, a request is acknowledged exactly from its positive check on. */
  lemma {:induction false} AckedExactly(run: seq<State>, steps: seq<Step>, t: nat, r: Req)
    requires IsRun(run, steps) && t < |run| && r < |run[t].reqs|
    ensures |run| == |steps| + 1
    ensures Acked(run[t].reqs[r]) <==> exists u :: 0 <= u < t && PositiveAt(run, steps, u, r)
  {
    Shape(run, steps);
    hide IsRun; hide Acked; hide Apply; hide Enabled; hide Alive;
    if t > 0 {
      TakesStep(run, steps, t - 1);
      AckStep(run[t - 1], steps[t - 1], r);
      if r < |run[t - 1].reqs| {
        AckedExactly(run, steps, t - 1, r);
        assert PositiveAt(run, steps, t - 1, r) || !PositiveAt(run, steps, t - 1, r);
      } else {
        NoneBefore(run, steps, t - 1, r);
      }
    }
  }

  lemma Shape(run: seq<State>, steps: seq<Step>)
    requires IsRun(run, steps)
    ensures |run| == |steps| + 1 && run[0] == START && run[0].reqs == []
  {
    hide Taken;
  }

  /** Requests are only added. */
  lemma {:induction false} ReqsGrow(run: seq<State>, steps: seq<Step>, u: nat, t: nat)
    requires IsRun(run, steps) && u <= t < |run|
    ensures |run[u].reqs| <= |run[t].reqs|
    decreases t - u
  {
    Shape(run, steps);
    hide IsRun; hide Apply; hide Enabled;
    if u < t {
      ReqsGrow(run, steps, u, t - 1);
      TakesStep(run, steps, t - 1);
      ReqCount(run[t - 1], steps[t - 1]);
    }
  }

  lemma NoneBefore(run: seq<State>, steps: seq<Step>, t: nat, r: Req)
    requires IsRun(run, steps) && t < |run| == |steps| + 1 && r >= |run[t].reqs|
    ensures !exists u :: 0 <= u <= t && u < |steps| && PositiveAt(run, steps, u, r)
  {
    hide IsRun; hide Alive;
    forall u | 0 <= u <= t && u < |steps| ensures !PositiveAt(run, steps, u, r) {
      ReqsGrow(run, steps, u, t);
    }
  }

  /**
   A finished request was answered positively exactly if its final check found the handler's
   reply, the end enabled and that same instance registered, and did not drop the reply.
   */
  lemma AnswerExactly(run: seq<State>, steps: seq<Step>, t: nat, r: Req)
    requires IsRun(run, steps) && t < |run| && r < |run[t].reqs| && run[t].reqs[r].phase.Answered?
    ensures |run| == |steps| + 1
    ensures run[t].reqs[r].phase == Answered(exists u :: 0 <= u < t && PositiveAt(run, steps, u, r))
    ensures run[t].reqs[r].replies == [exists u :: 0 <= u < t && PositiveAt(run, steps, u, r)]
  {
    hide IsRun; hide PositiveAt;
    AckedExactly(run, steps, t, r);
    OneCallOk(run, steps, t, r);
  }

  // ---- what a request remembers -----------------------------------------------------------------

  /** Past the look-up, a request keeps its end, its server, its instance and the network's reliability. */
  lemma Remembers(s: State, step: Step, r: Req)
    requires Enabled(s, step) && r < |s.reqs| && s.reqs[r].phase != Accepted
    ensures r < |Apply(s, step).reqs|
    ensures var (q, q') := (s.reqs[r], Apply(s, step).reqs[r]);
      q'.phase != Accepted && q'.end == q.end && q'.name == q.name && q'.inst == q.inst && q'.reliable == q.reliable
  {
    hide IsDead; hide TesterOf; hide SavedLog; hide Log; hide IsEnabled;
    if r != About(step) {
      OthersStay(s, step, r);
    }
  }

  lemma {:induction false} RemembersAlong(run: seq<State>, steps: seq<Step>, v: nat, t: nat, r: Req)
    requires IsRun(run, steps) && v <= t < |run| && r < |run[v].reqs| && run[v].reqs[r].phase != Accepted
    ensures r < |run[t].reqs|
    ensures var (q, q') := (run[v].reqs[r], run[t].reqs[r]);
      q'.phase != Accepted && q'.end == q.end && q'.name == q.name && q'.inst == q.inst && q'.reliable == q.reliable
    decreases t - v
  {
    Shape(run, steps);
    hide IsRun; hide Apply; hide Enabled;
    if v < t {
      RemembersAlong(run, steps, v, t - 1, r);
      TakesStep(run, steps, t - 1);
      Remembers(run[t - 1], steps[t - 1], r);
    }
  }

  /** Only a look-up that finds a registered server gets a request to its handler. */
  lemma FoundStep(s: State, step: Step, r: Req)
    requires Inv(s) && Enabled(s, step) && r < |Apply(s, step).reqs| && Found(Apply(s, step).reqs[r])
    ensures r < |s.reqs|
    ensures Found(s.reqs[r]) || (step == Look(r) && Reachable(s, s.reqs[r].end))
    ensures Found(s.reqs[r]) ==> s.reqs[r].phase != Accepted
  {
    ReqCount(s, step);
    hide TesterOf; hide SavedLog; hide Log; hide Inv;
    if r < |s.reqs| {
      TheCall(s, r);
      if r != About(step) { OthersStay(s, step, r); }
    }
  }

  /** Step v looked request r up and found what q says. */
  ghost predicate LookedUpAt(run: seq<State>, steps: seq<Step>, v: nat, r: Req, q: Request)
  {
    && v < |steps| < |run| && steps[v] == Look(r) && r < |run[v].reqs|
    && q.end == run[v].reqs[r].end && Reachable(run[v], q.end) && q.reliable == run[v].reliable
    && q.name == run[v].connections[q.end] && q.inst == run[v].servers[q.name]
  }

  lemma StillLookedUp(run: seq<State>, steps: seq<Step>, v: nat, r: Req, q: Request, q': Request)
    requires LookedUpAt(run, steps, v, r, q)
    requires q'.end == q.end && q'.name == q.name && q'.inst == q.inst && q'.reliable == q.reliable
    ensures LookedUpAt(run, steps, v, r, q')
  {
  }

  lemma NowLookedUp(run: seq<State>, steps: seq<Step>, v: nat, r: Req)
    requires v < |steps| < |run| && v + 1 < |run| && Enabled(run[v], steps[v]) && run[v + 1] == Apply(run[v], steps[v])
    requires steps[v] == Look(r) && r < |run[v].reqs| && Reachable(run[v], run[v].reqs[r].end)
    ensures r < |run[v + 1].reqs| && LookedUpAt(run, steps, v, r, run[v + 1].reqs[r])
  {
    hide Apply; hide Enabled;
    LookFinds(run[v], r);
  }

  predicate Found(q: Request)
  {
    q.phase.Chosen? || q.handler != NotStarted
  }

  /**
   A request whose handler was started was looked up before: its end was enabled and
   connected, its server is the one the end was connected to, its instance the one that was
   registered, and it counts as reliable if the network was.
   */
  lemma {:induction false} WasLookedUp(run: seq<State>, steps: seq<Step>, t: nat, r: Req) returns (v: nat)
    requires IsRun(run, steps) && t < |run| && r < |run[t].reqs| && Found(run[t].reqs[r])
    ensures v < t && LookedUpAt(run, steps, v, r, run[t].reqs[r])
  {
    hide *;
    Shape(run, steps);
    assert t > 0;
    RunInv(run, steps, t - 1);
    TakesStep(run, steps, t - 1);
    FoundStep(run[t - 1], steps[t - 1], r);
    if Found(run[t - 1].reqs[r]) {
      v := WasLookedUp(run, steps, t - 1, r);
      Remembers(run[t - 1], steps[t - 1], r);
      StillLookedUp(run, steps, v, r, run[t - 1].reqs[r], run[t].reqs[r]);
    } else {
      v := t - 1;
      NowLookedUp(run, steps, v, r);
    }
  }

  lemma LookFinds(s: State, r: Req)
    requires Enabled(s, Look(r)) && Reachable(s, s.reqs[r].end)
    ensures r < |Apply(s, Look(r)).reqs|
    ensures var (q, q') := (s.reqs[r], Apply(s, Look(r)).reqs[r]);
      && q'.phase == Chosen && q'.end == q.end && q'.reliable == s.reliable
      && q'.name == s.connections[q.end] && q'.inst == s.servers[s.connections[q.end]]
  {
  }

  /**
   A call on a reliable network whose handler has replied is answered positively if, at its
   final check, the end is enabled and the instance that was looked up still registered.
   */
  lemma ReliableCallIsAnswered(run: seq<State>, steps: seq<Step>, v: nat, u: nat, t: nat, r: Req)
    requires IsRun(run, steps) && v < u < t < |run| == |steps| + 1
    requires steps[v] == Look(r) && r < |run[v].reqs| && run[v].reliable && Reachable(run[v], run[v].reqs[r].end)
    requires steps[u].FinalCheck? && steps[u].r == r && r < |run[u].reqs| && run[u].reqs[r].phase == GotReply
    requires var (end, name) := (run[v].reqs[r].end, run[v].connections[run[v].reqs[r].end]);
      && end in run[u].enabled && run[u].enabled[end]
      && name in run[u].servers && run[u].servers[name] == run[v].servers[name]
    requires r < |run[t].reqs| && run[t].reqs[r].phase.Answered?
    ensures run[t].reqs[r].phase == Answered(true)
  {
    hide IsRun; hide Apply; hide Enabled;
    TakesStep(run, steps, v);
    LookFinds(run[v], r);
    RemembersAlong(run, steps, v + 1, u, r);
    TakesStep(run, steps, u);
    NoDropIfReliable(run[u], steps[u]);
    assert PositiveAt(run, steps, u, r);
    AnswerExactly(run, steps, t, r);
  }

  lemma NoDropIfReliable(s: State, step: Step)
    requires Enabled(s, step) && step.FinalCheck? && step.r < |s.reqs| && s.reqs[step.r].reliable
    ensures step == FinalCheck(step.r, false)
  {
  }

  // ---- settings -----------------------------------------------------------------------------

  predicate Sets(step: Step, end: End)
  {
    step.Enable? && step.end == end
  }

  predicate Links(step: Step, end: End)
  {
    step.Connect? && step.end == end
  }

  predicate Moves(step: Step, name: Name)
  {
    (step.Add? || step.Delete?) && step.name == name
  }

  lemma SettingsStay(s: State, step: Step, end: End, name: Name)
    requires Enabled(s, step)
    ensures !step.Reliable? ==> Apply(s, step).reliable == s.reliable
    ensures !Sets(step, end) ==> IsEnabled(Apply(s, step), end) == IsEnabled(s, end)
    ensures !Links(step, end) ==>
      (end in Apply(s, step).connections <==> end in s.connections)
      && (end in s.connections ==> Apply(s, step).connections[end] == s.connections[end])
    ensures !Moves(step, name) ==>
      (name in Apply(s, step).servers <==> name in s.servers)
      && (name in s.servers ==> Apply(s, step).servers[name] == s.servers[name])
  {
    hide TesterOf; hide SavedLog; hide Log; hide Looked; hide IsDead;
  }

  /** The network is as reliable as it was last told to be, and reliable before. */
  lemma {:induction false} LastReliable(run: seq<State>, steps: seq<Step>, u: nat, t: nat)
    requires IsRun(run, steps) && u <= t < |run| && forall x | u <= x < t && x < |steps| :: !steps[x].Reliable?
    ensures u <= |steps| == |run| - 1
    ensures u == 0 ==> run[t].reliable
    ensures u > 0 && steps[u - 1].Reliable? ==> run[t].reliable == steps[u - 1].on
    decreases t
  {
    Shape(run, steps);
    hide IsRun; hide Enabled;
    if t > u {
      hide Apply;
      LastReliable(run, steps, u, t - 1);
      TakesStep(run, steps, t - 1);
      SettingsStay(run[t - 1], steps[t - 1], 0, 0);
    } else if t > 0 {
      TakesStep(run, steps, t - 1);
    }
  }

  /** An end is enabled exactly if it was last enabled, and not before. */
  lemma {:induction false} LastEnable(run: seq<State>, steps: seq<Step>, u: nat, t: nat, end: End)
    requires IsRun(run, steps) && u <= t < |run| && forall x | u <= x < t && x < |steps| :: !Sets(steps[x], end)
    ensures u <= |steps| == |run| - 1
    ensures u == 0 ==> !IsEnabled(run[t], end)
    ensures u > 0 && Sets(steps[u - 1], end) ==> IsEnabled(run[t], end) == steps[u - 1].on
    decreases t
  {
    Shape(run, steps);
    hide IsRun; hide Enabled;
    if t > u {
      hide Apply; hide IsEnabled;
      LastEnable(run, steps, u, t - 1, end);
      TakesStep(run, steps, t - 1);
      SettingsStay(run[t - 1], steps[t - 1], end, 0);
    } else if t > 0 {
      TakesStep(run, steps, t - 1);
    }
  }

  /** An end leads to the server it was last connected to. */
  lemma {:induction false} LastConnect(run: seq<State>, steps: seq<Step>, u: nat, t: nat, end: End)
    requires IsRun(run, steps) && u <= t < |run| && forall x | u <= x < t && x < |steps| :: !Links(steps[x], end)
    ensures u <= |steps| == |run| - 1
    ensures u == 0 ==> end !in run[t].connections
    ensures u > 0 && Links(steps[u - 1], end) ==> end in run[t].connections && run[t].connections[end] == steps[u - 1].name
    decreases t
  {
    Shape(run, steps);
    hide IsRun; hide Enabled;
    if t > u {
      hide Apply;
      LastConnect(run, steps, u, t - 1, end);
      TakesStep(run, steps, t - 1);
      SettingsStay(run[t - 1], steps[t - 1], end, 0);
    } else if t > 0 {
      TakesStep(run, steps, t - 1);
    }
  }

  /** A server is registered from AddServer until DeleteServer, with the instance that was started for it. */
  lemma {:induction false} LastMove(run: seq<State>, steps: seq<Step>, u: nat, t: nat, name: Name)
    requires IsRun(run, steps) && u <= t < |run| && forall x | u <= x < t && x < |steps| :: !Moves(steps[x], name)
    ensures u <= |steps| == |run| - 1
    ensures u == 0 ==> name !in run[t].servers
    ensures u > 0 && Moves(steps[u - 1], name) && steps[u - 1].Delete? ==> name !in run[t].servers
    ensures u > 0 && Moves(steps[u - 1], name) && steps[u - 1].Add? ==>
      name in run[t].servers && TesterOf(run[u - 1], name) == Started(run[t].servers[name])
    decreases t
  {
    Shape(run, steps);
    hide IsRun;
    if t > u {
      hide Apply; hide Enabled; hide TesterOf;
      LastMove(run, steps, u, t - 1, name);
      TakesStep(run, steps, t - 1);
      SettingsStay(run[t - 1], steps[t - 1], 0, name);
    } else if t > 0 {
      TakesStep(run, steps, t - 1);
    }
  }

  // ---- negative answers --------------------------------------------------------------------

  predicate Negative(q: Request)
  {
    (q.phase.Decided? || q.phase.Answered?) && !q.phase.ok
  }

  /** Step u finds no server, or finds it gone, or an unreliable network drops the request or the reply. */
  ghost predicate ReasonAt(run: seq<State>, steps: seq<Step>, u: int, r: Req)
    requires 0 <= u < |steps| < |run|
  {
    && r < |run[u].reqs|
    && var q := run[u].reqs[r];
       || (steps[u] == Look(r) && !Reachable(run[u], q.end))
       || (steps[u] == DropRequest(r) && !q.reliable)
       || (steps[u] == FinalCheck(r, true) && !q.reliable)
       || (steps[u].FinalCheck? && steps[u].r == r && !Alive(run[u], q))
       || (steps[u] == PollDead(r) && !Alive(run[u], q))
  }

  /** What makes a request negative, or has it see that the server is gone. */
  lemma NegativeStep(s: State, step: Step, r: Req)
    requires Enabled(s, step) && r < |Apply(s, step).reqs|
    requires Negative(Apply(s, step).reqs[r]) || Apply(s, step).reqs[r].phase == SawDead
    ensures r < |s.reqs|
    ensures var q := s.reqs[r];
      || Negative(q) || q.phase == SawDead
      || (step == Look(r) && !Reachable(s, q.end))
      || (step == DropRequest(r) && !q.reliable)
      || (step == FinalCheck(r, true) && !q.reliable)
      || (step.FinalCheck? && step.r == r && !Alive(s, q))
      || (step == PollDead(r) && !Alive(s, q))
  {
    ReqCount(s, step);
    hide TesterOf; hide SavedLog; hide Log;
    if r < |s.reqs| && r != About(step) {
      OthersStay(s, step, r);
    }
  }

  /**
   A negative answer has a reason: the end was disabled, unconnected or led to no server when
   it was looked up; or an unreliable network dropped the request or the reply; or, while the
   call was under way, the end was disabled or that instance no longer registered.
   */
  lemma {:induction false} NegativeHasReason(run: seq<State>, steps: seq<Step>, t: nat, r: Req) returns (u: nat)
    requires IsRun(run, steps) && t < |run| && r < |run[t].reqs|
    requires Negative(run[t].reqs[r]) || run[t].reqs[r].phase == SawDead
    ensures u < t && u < |steps| < |run| && ReasonAt(run, steps, u, r)
  {
    Shape(run, steps);
    hide IsRun; hide Apply; hide Enabled; hide Alive; hide Reachable; hide Negative;
    assert t > 0;
    TakesStep(run, steps, t - 1);
    NegativeStep(run[t - 1], steps[t - 1], r);
    if Negative(run[t - 1].reqs[r]) || run[t - 1].reqs[r].phase == SawDead {
      u := NegativeHasReason(run, steps, t - 1, r);
    } else {
      u := t - 1;
    }
  }

  // ---- restarts -----------------------------------------------------------------------------

  /** An instance that is started after a positive reply starts with everything the handler saved. */
  lemma RestartHasWrites(run: seq<State>, steps: seq<Step>, t: nat, u: nat, r: Req, inst: Instance)
    requires IsRun(run, steps) && t <= u < |steps| && r < |run[t].reqs| && run[t].reqs[r].phase == Answered(true)
    requires steps[u] == Launch(run[t].reqs[r].name, inst)
    ensures u + 1 < |run| && inst in run[u + 1].diskOf
    ensures forall v | v in run[t].reqs[r].saves :: v in Log(run[u + 1], run[u + 1].diskOf[inst])
  {
    Shape(run, steps);
    hide IsRun; hide Apply; hide Enabled; hide SavedLog; hide Log;
    TakesStep(run, steps, u);
    NoAckedWriteLost(run, steps, t, u, r);
    LaunchStarts(run[u], run[t].reqs[r].name, inst);
  }

  lemma LaunchStarts(s: State, i: Name, inst: Instance)
    requires Enabled(s, Launch(i, inst))
    ensures inst in Apply(s, Launch(i, inst)).diskOf
    ensures Log(Apply(s, Launch(i, inst)), Apply(s, Launch(i, inst)).diskOf[inst]) == SavedLog(s, i)
  {
  }

  // ---- calls can be answered -----------------------------------------------------------------

  ghost predicate Leads(s: State, steps: seq<Step>, s': State)
    decreases |steps|
  {
    if steps == [] then s == s'
    else Enabled(s, steps[0]) && Leads(Apply(s, steps[0]), steps[1..], s')
  }

  lemma LeadsStep(s: State, step: Step, rest: seq<Step>, s': State)
    requires Enabled(s, step) && Leads(Apply(s, step), rest, s')
    ensures Leads(s, [step] + rest, s')
  {
    hide Enabled; hide Apply;
    assert ([step] + rest)[0] == step && ([step] + rest)[1..] == rest;
  }

  lemma {:induction false} LeadsAppend(s: State, a: seq<Step>, s1: State, b: seq<Step>, s2: State)
    requires Leads(s, a, s1) && Leads(s1, b, s2)
    ensures Leads(s, a + b, s2)
    decreases |a|
  {
    hide Enabled; hide Apply;
    if a == [] {
      assert a + b == b;
    } else {
      assert (a + b)[0] == a[0] && (a + b)[1..] == a[1..] + b;
      LeadsAppend(Apply(s, a[0]), a[1..], s1, b, s2);
    }
  }

  lemma Do(s: State, step: Step) returns (s': State)
    requires Enabled(s, step)
    ensures s' == Apply(s, step) && Leads(s, [step], s')
  {
    hide Enabled; hide Apply;
    s' := Apply(s, step);
    LeadsNothing(s');
    LeadsStep(s, step, [], s');
    assert [step] + [] == [step];
  }

  lemma DoSave(s: State, r: Req, v: Save) returns (s': State)
    requires r < |s.reqs| && s.reqs[r].handler == Working && s.reqs[r].inst in s.diskOf
    ensures Leads(s, [HandlerSave(r, v)], s')
    ensures var (q, d) := (s.reqs[r], s.diskOf[s.reqs[r].inst]);
      s' == s.(reqs := s.reqs[r := q.(saves := q.saves + [v])], disks := s.disks[d := Log(s, d) + [v]])
  {
    hide Leads; hide Log;
    s' := Do(s, HandlerSave(r, v));
  }

  lemma DoReturn(s: State, r: Req) returns (s': State)
    requires r < |s.reqs| && s.reqs[r].phase == Waiting && s.reqs[r].handler == Working
    ensures Leads(s, [HandlerReturn(r)] + [TakeReply(r)], s')
    ensures s' == s.(reqs := s.reqs[r := s.reqs[r].(handler := Returned, phase := GotReply)])
  {
    hide Leads;
    var s1 := Do(s, HandlerReturn(r));
    s' := Do(s1, TakeReply(r));
    LeadsAppend(s, [HandlerReturn(r)], s1, [TakeReply(r)], s');
  }

  lemma DoCheck(s: State, r: Req) returns (s': State)
    requires r < |s.reqs| && s.reqs[r].phase == GotReply && Alive(s, s.reqs[r])
    ensures Leads(s, [FinalCheck(r, false)] + [Reply(r)], s')
    ensures s' == s.(reqs := s.reqs[r := s.reqs[r].(phase := Answered(true), replies := s.reqs[r].replies + [true])])
  {
    hide Leads;
    var s1 := Do(s, FinalCheck(r, false));
    s' := Do(s1, Reply(r));
    LeadsAppend(s, [FinalCheck(r, false)], s1, [Reply(r)], s');
  }

  /** A request that is being handled is answered positively once its handler has saved v and returned. */
  lemma FinishCall(s: State, r: Req, v: Save) returns (steps: seq<Step>, s': State)
    requires r < |s.reqs| && s.reqs[r].phase == Waiting && s.reqs[r].handler == Working
    requires Alive(s, s.reqs[r]) && s.reqs[r].inst in s.diskOf && s.reqs[r].replies == []
    ensures Leads(s, steps, s') && |s'.reqs| == |s.reqs|
    ensures s'.reqs[r].phase == Answered(true) && s'.reqs[r].saves == s.reqs[r].saves + [v] && s'.reqs[r].replies == [true]
    ensures s'.reqs[r].name == s.reqs[r].name && s'.reqs[r].end == s.reqs[r].end
    ensures s'.saved == s.saved && s'.diskOf == s.diskOf && s'.tester == s.tester
    ensures s'.disks == s.disks[s.diskOf[s.reqs[r].inst] := Log(s, s.diskOf[s.reqs[r].inst]) + [v]]
  {
    hide Leads; hide Log; hide Apply; hide Enabled;
    var s1 := DoSave(s, r, v);
    var s2 := DoReturn(s1, r);
    s' := DoCheck(s2, r);
    var (a, b, c) := ([HandlerSave(r, v)], [HandlerReturn(r)] + [TakeReply(r)], [FinalCheck(r, false)] + [Reply(r)]);
    LeadsAppend(s, a, s1, b, s2);
    LeadsAppend(s, a + b, s2, c, s');
    steps := a + b + c;
  }

  lemma LeadsNothing(s: State)
    ensures Leads(s, [], s)
  {
  }

  /** From any state, a call on a reachable end can be made and dispatched. */
  lemma BeginCall(s: State, end: End) returns (steps: seq<Step>, s': State)
    requires Reachable(s, end)
    ensures Leads(s, steps, s') && |s'.reqs| == |s.reqs| + 1
    ensures var (q, name) := (s'.reqs[|s.reqs|], s.connections[end]);
      && q.phase == Waiting && q.handler == Working && q.saves == [] && q.replies == [] && q.end == end
      && q.name == name && q.inst == s.servers[name] && Alive(s', q)
    ensures s' == s.(reqs := s'.reqs)
  {
    hide Leads; hide TesterOf; hide SavedLog; hide Log;
    var r := |s.reqs|;
    var s1 := Do(s, Call(end));
    LookFinds(s1, r);
    var s2 := Do(s1, Look(r));
    s' := Do(s2, Dispatch(r));
    LeadsAppend(s, [Call(end)], s1, [Look(r)], s2);
    LeadsAppend(s, [Call(end)] + [Look(r)], s2, [Dispatch(r)], s');
    steps := [Call(end)] + [Look(r)] + [Dispatch(r)];
  }

  /**
   From every state of every run in which an end is enabled and connected to a registered
   server, a call on it can be answered positively, and what its handler saved is then on the
   Persister a restart would use.
   */
  lemma CanBeAnswered(run: seq<State>, steps: seq<Step>, t: nat, end: End, v: Save) returns (more: seq<Step>, final: State)
    requires IsRun(run, steps) && t < |run| && Reachable(run[t], end)
    ensures Leads(run[t], more, final) && |final.reqs| > |run[t].reqs|
    ensures var q := final.reqs[|run[t].reqs|];
      q.end == end && q.phase == Answered(true) && q.saves == [v] && v in SavedLog(final, q.name)
  {
    hide IsRun; hide Leads; hide Alive; hide Apply; hide Enabled;
    var s := run[t];
    RunInv(run, steps, t);
    hide Inv;
    TheDisk(s, s.connections[end]);
    var a, s1 := BeginCall(s, end);
    var r := |s.reqs|;
    var b;
    b, final := FinishCall(s1, r, v);
    LeadsAppend(s, a, s1, b, final);
    more := a + b;
  }

  lemma TheDisk(s: State, i: Name)
    requires Inv(s) && i in s.servers
    ensures s.servers[i] in s.diskOf && i in s.saved && s.diskOf[s.servers[i]] == s.saved[i]
  {
    hide CallsOk; hide WritesOk;
    assert ServerOk(s, i);
  }

  // ---- one life of a server, and the next ---------------------------------------------------------

  lemma DoConnect(s: State, end: End, i: Name) returns (s': State)
    ensures Leads(s, [Enable(end, true)] + [Connect(end, i)], s')
    ensures s' == s.(enabled := s.enabled[end := true], connections := s.connections[end := i])
  {
    hide Leads;
    var s1 := Do(s, Enable(end, true));
    s' := Do(s1, Connect(end, i));
    LeadsAppend(s, [Enable(end, true)], s1, [Connect(end, i)], s');
  }

  /** StartServer up to the point where the new instance runs. */
  lemma DoStart(s: State, i: Name, d: Disk, inst: Instance) returns (s': State)
    requires TesterOf(s, i) == Down && d !in s.disks && inst !in s.diskOf
    ensures Leads(s, [Renew(i, d)] + [Launch(i, inst)], s')
    ensures s' == s.(disks := s.disks[d := SavedLog(s, i)], saved := s.saved[i := d],
                     diskOf := s.diskOf[inst := d], tester := s.tester[i := Starting][i := Started(inst)])
  {
    hide Leads; hide SavedLog;
    var s1 := Do(s, Renew(i, d));
    s' := Do(s1, Launch(i, inst));
    LeadsAppend(s, [Renew(i, d)], s1, [Launch(i, inst)], s');
  }

  /** ShutdownServer. */
  lemma DoShutdown(s: State, i: Name, d: Disk) returns (s': State)
    requires TesterOf(s, i) == Up && d !in s.disks && i in s.saved
    ensures Leads(s, [Delete(i)] + [CopySaved(i, d)], s')
    ensures s' == s.(servers := s.servers - {i}, disks := s.disks[d := SavedLog(s, i)], saved := s.saved[i := d],
                     tester := s.tester[i := Deleting][i := Down])
  {
    hide Leads;
    var s1 := Do(s, Delete(i));
    s' := Do(s1, CopySaved(i, d));
    LeadsAppend(s, [Delete(i)], s1, [CopySaved(i, d)], s');
  }

  lemma DoAdd(s: State, i: Name) returns (s': State)
    requires TesterOf(s, i).Started?
    ensures Leads(s, [Add(i)], s')
    ensures s' == s.(servers := s.servers[i := TesterOf(s, i).inst], tester := s.tester[i := Up])
  {
    hide Leads;
    s' := Do(s, Add(i));
  }

  lemma SetUp(end: End, i: Name) returns (steps: seq<Step>, s: State)
    ensures Leads(START, steps, s) && s.reqs == []
    ensures Reachable(s, end) && s.connections[end] == i && s.servers[i] == 0
    ensures s.diskOf == map[0 := 0] && s.saved == map[i := 0] && s.disks == map[0 := []] && TesterOf(s, i) == Up
  {
    hide Leads; hide Apply; hide Enabled;
    var (a, b, c) := ([Enable(end, true)] + [Connect(end, i)], [Renew(i, 0)] + [Launch(i, 0)], [Add(i)]);
    var s1 := DoConnect(START, end, i);
    var s2 := DoStart(s1, i, 0, 0);
    s := DoAdd(s2, i);
    LeadsAppend(START, a, s1, b, s2);
    LeadsAppend(START, a + b, s2, c, s);
    steps := a + b + c;
  }

  lemma Restart(s: State, i: Name, log: seq<Save>) returns (steps: seq<Step>, s': State)
    requires s.disks == map[0 := log] && s.diskOf == map[0 := 0] && s.saved == map[i := 0] && TesterOf(s, i) == Up
    ensures Leads(s, steps, s') && s'.reqs == s.reqs
    ensures 1 in s'.diskOf && Log(s', s'.diskOf[1]) == log && TesterOf(s', i) == Started(1)
  {
    hide Leads; hide Apply; hide Enabled;
    var (a, b) := ([Delete(i)] + [CopySaved(i, 1)], [Renew(i, 2)] + [Launch(i, 1)]);
    var s1 := DoShutdown(s, i, 1);
    s' := DoStart(s1, i, 2, 1);
    LeadsAppend(s, a, s1, b, s');
    steps := a + b;
  }

  /**
   There is a run of the whole story: a server is started, a call on it saves v and is answered
   positively, the server is shut down and started again, and the new instance starts with v.
   */
  lemma WholeStory(end: End, i: Name, v: Save) returns (steps: seq<Step>, final: State)
    ensures Leads(START, steps, final) && |final.reqs| == 1
    ensures final.reqs[0].phase == Answered(true) && final.reqs[0].saves == [v] && final.reqs[0].name == i
    ensures 1 in final.diskOf && Log(final, final.diskOf[1]) == [v] && TesterOf(final, i) == Started(1)
  {
    hide Leads; hide Apply; hide Enabled; hide Alive; hide Reachable;
    var a, s1 := SetUp(end, i);
    var b, s2 := BeginCall(s1, end);
    var c, s3 := FinishCall(s2, 0, v);
    assert s2.diskOf[s2.reqs[0].inst] == 0 && Log(s2, 0) == [];
    assert Log(s2, 0) + [v] == [v];
    assert s3.disks == map[0 := [v]];
    var d;
    d, final := Restart(s3, i, [v]);
    LeadsAppend(START, a, s1, b, s2);
    LeadsAppend(START, a + b, s2, c, s3);
    LeadsAppend(START, a + b + c, s3, d, final);
    steps := a + b + c + d;
  }
}
