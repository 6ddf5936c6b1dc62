/**
 The simulated network together with the tester that shuts servers down and restarts
 them. A call runs through processReq step by step while, in any interleaving, handlers
 save to their server's Persister, ends are enabled and disabled, and servers come and go.
 */
module Network {

  type End = nat
  type Name = nat       // of a server
  type Instance = nat   // one start of a server
  type Disk = nat       // one Persister object
  type Save = nat       // what one Save call wrote
  type Req = nat

  /** Where processReq stands for a request. */
  datatype Phase =
    | Accepted           // handed over by Call
    | Chosen             // found an enabled end and a registered server
    | Waiting            // handler started
    | GotReply           // handler's reply received
    | SawDead            // a poll found the server gone
    | Decided(ok: bool)  // reply chosen, perhaps still delayed
    | Answered(ok: bool)

  datatype Handler = NotStarted | Working | Returned

  datatype Request = Request(
    end: End,
    phase: Phase,
    name: Name,
    inst: Instance,
    reliable: bool,
    handler: Handler,
    saves: seq<Save>,     // made by the handler so far
    dispatches: nat,
    replies: seq<bool>)

  /** What the tester is doing with a server. */
  datatype Tester =
    | Down               // not running; saved is a Persister nobody writes to
    | Starting           // saved renewed, no new instance yet
    | Started(inst: Instance)  // the new instance runs on it, not registered yet
    | Up
    | Deleting           // server deleted, saved not copied yet

  datatype State = State(
    enabled: map<End, bool>,
    connections: map<End, Name>,
    servers: map<Name, Instance>,   // registered servers only
    reliable: bool,
    reqs: seq<Request>,
    disks: map<Disk, seq<Save>>,    // what each Persister has been given, oldest first
    diskOf: map<Instance, Disk>,
    saved: map<Name, Disk>,
    tester: map<Name, Tester>)

  function TesterOf(s: State, i: Name): (t: Tester)
  {
    if i in s.tester then s.tester[i] else Down
  }

  predicate IsEnabled(s: State, e: End)
  {
    e in s.enabled && s.enabled[e]
  }

  /** isServerDead: the end is disabled or the name no longer leads to that instance. */
  predicate IsDead(s: State, r: Request)
  {
    !IsEnabled(s, r.end) || !(r.name in s.servers && s.servers[r.name] == r.inst)
  }

  const START: State := State(map[], map[], map[], true, [], map[], map[], map[], map[])

  datatype Step =
    | Call(end: End)
    | Look(r: Req)
    | DropRequest(r: Req)
    | Dispatch(r: Req)
    | HandlerSave(r: Req, v: Save)
    | HandlerReturn(r: Req)
    | TakeReply(r: Req)
    | PollDead(r: Req)
    | FinalCheck(r: Req, drop: bool)
    | Reply(r: Req)
    | Background(inst: Instance, v: Save)  // a server saves outside any handler, dead or alive
    | Enable(end: End, on: bool)
    | Connect(end: End, name: Name)
    | Reliable(on: bool)
    | Delete(name: Name)                   // ShutdownServer: DeleteServer
    | CopySaved(name: Name, disk: Disk)    // ShutdownServer: fresh copy of the Persister
    | Renew(name: Name, disk: Disk)        // StartServer: fresh copy or a new Persister
    | Launch(name: Name, inst: Instance)   // StartServer: start the server on it
    | Add(name: Name)                      // StartServer: AddServer

  predicate In(s: State, r: Req, p: Phase)
  {
    r < |s.reqs| && s.reqs[r].phase == p
  }

  predicate Enabled(s: State, step: Step)
  {
    match step
    case Call(_) => true
    case Look(r) => In(s, r, Accepted)
    case DropRequest(r) => In(s, r, Chosen) && !s.reqs[r].reliable
    case Dispatch(r) => In(s, r, Chosen)
    case HandlerSave(r, v) => r < |s.reqs| && s.reqs[r].handler == Working && s.reqs[r].inst in s.diskOf
    case HandlerReturn(r) => r < |s.reqs| && s.reqs[r].handler == Working
    case TakeReply(r) => In(s, r, Waiting) && s.reqs[r].handler == Returned
    case PollDead(r) => In(s, r, Waiting) && IsDead(s, s.reqs[r])
    case FinalCheck(r, drop) => (In(s, r, GotReply) || In(s, r, SawDead)) && (drop ==> !s.reqs[r].reliable)
    case Reply(r) => r < |s.reqs| && s.reqs[r].phase.Decided?
    case Background(inst, _) => inst in s.diskOf
    case Enable(_, _) => true
    case Connect(_, _) => true
    case Reliable(_) => true
    case Delete(i) => TesterOf(s, i).Up? || TesterOf(s, i).Down?
    case CopySaved(i, d) => TesterOf(s, i).Deleting? && d !in s.disks
    case Renew(i, d) => TesterOf(s, i).Down? && d !in s.disks
    case Launch(i, inst) => TesterOf(s, i).Starting? && inst !in s.diskOf && i in s.saved
    case Add(i) => TesterOf(s, i).Started?
  }

  /** What the Persister that saved[i] names has been given; nothing before the first start. */
  function SavedLog(s: State, i: Name): (log: seq<Save>)
  {
    if i in s.saved && s.saved[i] in s.disks then s.disks[s.saved[i]] else []
  }

  function Log(s: State, d: Disk): (log: seq<Save>)
  {
    if d in s.disks then s.disks[d] else []
  }

  function SetReq(s: State, r: Req, q: Request): (s': State)
    requires r < |s.reqs|
  {
    s.(reqs := s.reqs[r := q])
  }

  /** readEndnameInfo and the branch it decides. */
  function Looked(s: State, q: Request): (q': Request)
  {
    if IsEnabled(s, q.end) && q.end in s.connections && s.connections[q.end] in s.servers then
      var name := s.connections[q.end];
      q.(phase := Chosen, name := name, inst := s.servers[name], reliable := s.reliable)
    else
      q.(phase := Decided(false))
  }

  function Apply(s: State, step: Step): (s': State)
    requires Enabled(s, step)
  {
    match step
    case Call(e) => s.(reqs := s.reqs + [Request(e, Accepted, 0, 0, true, NotStarted, [], 0, [])])
    case Look(r) => SetReq(s, r, Looked(s, s.reqs[r]))
    case DropRequest(r) => SetReq(s, r, s.reqs[r].(phase := Decided(false)))
    case Dispatch(r) =>
      SetReq(s, r, s.reqs[r].(phase := Waiting, handler := Working, dispatches := s.reqs[r].dispatches + 1))
    case HandlerSave(r, v) =>
      var d := s.diskOf[s.reqs[r].inst];
      SetReq(s, r, s.reqs[r].(saves := s.reqs[r].saves + [v])).(disks := s.disks[d := Log(s, d) + [v]])
    case HandlerReturn(r) => SetReq(s, r, s.reqs[r].(handler := Returned))
    case TakeReply(r) => SetReq(s, r, s.reqs[r].(phase := GotReply))
    case PollDead(r) => SetReq(s, r, s.reqs[r].(phase := SawDead))
    case FinalCheck(r, drop) =>
      SetReq(s, r, s.reqs[r].(phase := Decided(s.reqs[r].phase == GotReply && !IsDead(s, s.reqs[r]) && !drop)))
    case Reply(r) =>
      var ok := s.reqs[r].phase.ok;
      SetReq(s, r, s.reqs[r].(phase := Answered(ok), replies := s.reqs[r].replies + [ok]))
    case Background(inst, v) =>
      var d := s.diskOf[inst];
      s.(disks := s.disks[d := Log(s, d) + [v]])
    case Enable(e, on) => s.(enabled := s.enabled[e := on])
    case Connect(e, i) => s.(connections := s.connections[e := i])
    case Reliable(on) => s.(reliable := on)
    case Delete(i) => s.(servers := s.servers - {i}, tester := s.tester[i := Deleting])
    case CopySaved(i, d) =>
      (if i in s.saved then s.(disks := s.disks[d := SavedLog(s, i)], saved := s.saved[i := d]) else s)
        .(tester := s.tester[i := Down])
    case Renew(i, d) =>
      s.(disks := s.disks[d := SavedLog(s, i)], saved := s.saved[i := d], tester := s.tester[i := Starting])
    case Launch(i, inst) => s.(diskOf := s.diskOf[inst := s.saved[i]], tester := s.tester[i := Started(inst)])
    case Add(i) => s.(servers := s.servers[i := TesterOf(s, i).inst], tester := s.tester[i := Up])
  }

  // ---- one call, one answer ------------------------------------------------------------

  /** Dispatched once it is past Chosen, answered once it is Answered, never more. */
  ghost predicate CallOk(q: Request)
  {
    && q.dispatches == (if q.handler == NotStarted then 0 else 1)
    && q.replies == (if q.phase.Answered? then [q.phase.ok] else [])
    && (q.handler == NotStarted ==> q.saves == [])
    && (q.phase.Accepted? || q.phase.Chosen? ==> q.handler == NotStarted)
    && (q.phase.Waiting? || q.phase.SawDead? ==> q.handler != NotStarted)
    && (q.phase.GotReply? ==> q.handler == Returned)
    && ((q.phase.Decided? || q.phase.Answered?) && q.phase.ok ==> q.handler == Returned)
  }

  ghost predicate CallsOk(s: State)
  {
    forall r | 0 <= r < |s.reqs| :: CallOk(s.reqs[r])
  }

  /** The request a step is about, if any. */
  function About(step: Step): (r: int)
  {
    match step
    case Look(r) => r
    case DropRequest(r) => r
    case Dispatch(r) => r
    case HandlerSave(r, _) => r
    case HandlerReturn(r) => r
    case TakeReply(r) => r
    case PollDead(r) => r
    case FinalCheck(r, _) => r
    case Reply(r) => r
    case _ => -1
  }

  /** A step changes only the request it is about; Call adds one. */
  lemma OthersStay(s: State, step: Step, r: nat)
    requires Enabled(s, step) && r < |s.reqs| && r != About(step)
    ensures r < |Apply(s, step).reqs| && Apply(s, step).reqs[r] == s.reqs[r]
  {
  }

  lemma ReqCount(s: State, step: Step)
    requires Enabled(s, step)
    ensures |Apply(s, step).reqs| == |s.reqs| + (if step.Call? then 1 else 0)
    ensures About(step) < |s.reqs|
    ensures step.Call? ==> CallOk(Apply(s, step).reqs[|s.reqs|]) && Apply(s, step).reqs[|s.reqs|].saves == []
    ensures step.Call? ==> Apply(s, step).reqs[|s.reqs|].phase == Accepted
  {
  }

  lemma CallStays(s: State, step: Step)
    requires Enabled(s, step) && About(step) >= 0 && About(step) < |s.reqs| && CallOk(s.reqs[About(step)])
    ensures About(step) < |Apply(s, step).reqs| && CallOk(Apply(s, step).reqs[About(step)])
  {
  }

  lemma CallsStay(s: State, step: Step)
    requires CallsOk(s) && Enabled(s, step)
    ensures CallsOk(Apply(s, step))
  {
    var s' := Apply(s, step);
    ReqCount(s, step);
    forall r | 0 <= r < |s'.reqs| ensures CallOk(s'.reqs[r]) {
      if r == |s.reqs| {
      } else if r == About(step) {
        CallStays(s, step);
      } else {
        OthersStay(s, step, r);
      }
    }
  }

  // ---- no acknowledged write is lost --------------------------------------------------------

  /** A registered server runs on the Persister that saved names, and is up. */
  ghost predicate ServerOk(s: State, i: Name)
    requires i in s.servers
  {
    TesterOf(s, i).Up? && s.servers[i] in s.diskOf && i in s.saved && s.diskOf[s.servers[i]] == s.saved[i]
  }

  /** A started server runs on the Persister that saved names. */
  ghost predicate StartedOk(s: State, i: Name)
  {
    TesterOf(s, i).Started? ==>
      TesterOf(s, i).inst in s.diskOf && i in s.saved && s.diskOf[TesterOf(s, i).inst] == s.saved[i]
  }

  /** Only the instance that is started or registered, or has just been deleted, writes to the Persister that saved names. */
  ghost predicate Exclusive(s: State, i: Name, inst: Instance)
    requires i in s.saved && inst in s.diskOf
  {
    s.diskOf[inst] == s.saved[i] ==>
      || TesterOf(s, i).Deleting?
      || TesterOf(s, i) == Started(inst)
      || (TesterOf(s, i).Up? && i in s.servers && s.servers[i] == inst)
  }

  ghost predicate DisksOk(s: State)
  {
    && (forall i | i in s.servers :: ServerOk(s, i))
    && (forall i :: StartedOk(s, i))
    && (forall i | i in s.saved :: s.saved[i] in s.disks)
    && (forall inst | inst in s.diskOf :: s.diskOf[inst] in s.disks)
    && (forall i, inst | i in s.saved && inst in s.diskOf :: Exclusive(s, i, inst))
    && (forall i, j | i in s.saved && j in s.saved && i != j :: s.saved[i] != s.saved[j])
  }

  predicate TouchesDisks(step: Step)
  {
    step.Delete? || step.CopySaved? || step.Renew? || step.Launch? || step.Add?
  }

  lemma Untouched(s: State, step: Step)
    requires Enabled(s, step) && !TouchesDisks(step)
    ensures var s' := Apply(s, step);
      s'.servers == s.servers && s'.diskOf == s.diskOf && s'.saved == s.saved && s'.tester == s.tester && s.disks.Keys <= s'.disks.Keys
  {
    hide TesterOf; hide IsDead; hide Looked; hide SavedLog; hide In;
  }

  lemma DeleteDisks(s: State, i: Name)
    requires DisksOk(s) && Enabled(s, Delete(i))
    ensures DisksOk(Apply(s, Delete(i)))
  {
    var s' := Apply(s, Delete(i));
    forall j | j in s'.servers ensures ServerOk(s', j) { assert ServerOk(s, j); }
    forall j ensures StartedOk(s', j) { assert StartedOk(s, j); }
    forall j, inst | j in s'.saved && inst in s'.diskOf ensures Exclusive(s', j, inst) { assert Exclusive(s, j, inst); }
  }

  /** A fresh Persister for a server that is not registered. */
  lemma FreshDisks(s: State, s': State, i: Name, d: Disk, x: Tester)
    requires DisksOk(s) && i !in s.servers && d !in s.disks && !x.Started?
    requires s'.servers == s.servers && s'.diskOf == s.diskOf && s'.saved == s.saved[i := d]
    requires s'.disks.Keys == s.disks.Keys + {d} && s'.tester == s.tester[i := x]
    ensures DisksOk(s')
  {
    forall j | j in s'.servers ensures ServerOk(s', j) { assert ServerOk(s, j); }
    forall j ensures StartedOk(s', j) { assert StartedOk(s, j); }
    forall j, inst | j in s'.saved && inst in s'.diskOf ensures Exclusive(s', j, inst) {
      if j != i { assert Exclusive(s, j, inst); } else { assert s'.diskOf[inst] in s.disks; }
    }
  }

  /** A server without a Persister that is not registered. */
  lemma NoDisks(s: State, s': State, i: Name, x: Tester)
    requires DisksOk(s) && i !in s.servers && i !in s.saved && !x.Started? && s' == s.(tester := s.tester[i := x])
    ensures DisksOk(s')
  {
    forall j | j in s'.servers ensures ServerOk(s', j) { assert ServerOk(s, j); }
    forall j ensures StartedOk(s', j) { assert StartedOk(s, j); }
    forall j, inst | j in s'.saved && inst in s'.diskOf ensures Exclusive(s', j, inst) { assert Exclusive(s, j, inst); }
  }

  lemma NotUp(s: State, i: Name)
    requires DisksOk(s) && !TesterOf(s, i).Up?
    ensures i !in s.servers
  {
    assert i in s.servers ==> ServerOk(s, i);
  }

  lemma CopyDisks(s: State, i: Name, d: Disk)
    requires DisksOk(s) && Enabled(s, CopySaved(i, d))
    ensures DisksOk(Apply(s, CopySaved(i, d)))
  {
    NotUp(s, i);
    hide DisksOk; hide TesterOf;
    if i in s.saved {
      FreshDisks(s, Apply(s, CopySaved(i, d)), i, d, Down);
    } else {
      NoDisks(s, Apply(s, CopySaved(i, d)), i, Down);
    }
  }

  lemma RenewDisks(s: State, i: Name, d: Disk)
    requires DisksOk(s) && Enabled(s, Renew(i, d))
    ensures DisksOk(Apply(s, Renew(i, d)))
  {
    NotUp(s, i);
    hide DisksOk; hide TesterOf;
    FreshDisks(s, Apply(s, Renew(i, d)), i, d, Starting);
  }

  lemma LaunchDisks(s: State, i: Name, inst: Instance)
    requires DisksOk(s) && Enabled(s, Launch(i, inst))
    ensures DisksOk(Apply(s, Launch(i, inst)))
  {
    var s' := Apply(s, Launch(i, inst));
    forall j | j in s'.servers ensures ServerOk(s', j) { assert ServerOk(s, j); }
    forall j ensures StartedOk(s', j) { assert StartedOk(s, j); }
    forall j, n | j in s'.saved && n in s'.diskOf ensures Exclusive(s', j, n) {
      if n != inst { assert Exclusive(s, j, n); }
    }
  }

  lemma AddDisks(s: State, i: Name)
    requires DisksOk(s) && Enabled(s, Add(i))
    ensures DisksOk(Apply(s, Add(i)))
  {
    var s' := Apply(s, Add(i));
    assert StartedOk(s, i);
    forall j | j in s'.servers ensures ServerOk(s', j) { if j != i { assert ServerOk(s, j); } }
    forall j ensures StartedOk(s', j) { assert StartedOk(s, j); }
    forall j, n | j in s'.saved && n in s'.diskOf ensures Exclusive(s', j, n) { assert Exclusive(s, j, n); }
  }

  lemma SameDisks(s: State, s': State)
    requires DisksOk(s)
    requires s'.servers == s.servers && s'.diskOf == s.diskOf && s'.saved == s.saved && s'.tester == s.tester && s.disks.Keys <= s'.disks.Keys
    ensures DisksOk(s')
  {
    forall j | j in s'.servers ensures ServerOk(s', j) { assert ServerOk(s, j); }
    forall j ensures StartedOk(s', j) { assert StartedOk(s, j); }
    forall j, n | j in s'.saved && n in s'.diskOf ensures Exclusive(s', j, n) { assert Exclusive(s, j, n); }
  }

  lemma DisksStay(s: State, step: Step)
    requires DisksOk(s) && Enabled(s, step)
    ensures DisksOk(Apply(s, step))
  {
    if TouchesDisks(step) {
      hide DisksOk;
      match step
      case Delete(i) => DeleteDisks(s, i);
      case CopySaved(i, d) => CopyDisks(s, i, d);
      case Renew(i, d) => RenewDisks(s, i, d);
      case Launch(i, inst) => LaunchDisks(s, i, inst);
      case Add(i) => AddDisks(s, i);
    } else {
      Untouched(s, step);
      hide *;
      SameDisks(s, Apply(s, step));
    }
  }

  predicate Acked(q: Request)
  {
    (q.phase.Decided? || q.phase.Answered?) && q.phase.ok
  }

  /** What a handler saved is on its instance's Persister. */
  ghost predicate SavesKept(s: State, q: Request)
  {
    && (q.phase.Chosen? || q.handler != NotStarted ==> q.inst in s.diskOf)
    && (q.inst in s.diskOf ==> forall v | v in q.saves :: v in Log(s, s.diskOf[q.inst]))
  }

  /** What an acknowledged request saved is on the Persister a restart would use. */
  ghost predicate AckKept(s: State, q: Request)
  {
    Acked(q) ==> forall v | v in q.saves :: v in SavedLog(s, q.name)
  }

  ghost predicate WritesOk(s: State)
  {
    forall r | 0 <= r < |s.reqs| :: SavesKept(s, s.reqs[r]) && AckKept(s, s.reqs[r])
  }

  /** Persisters only gain saves at their end, instances keep theirs, and so does what saved names. */
  ghost predicate Gains(s: State, s': State)
  {
    && (forall d :: Log(s, d) <= Log(s', d))
    && (forall inst | inst in s.diskOf :: inst in s'.diskOf && s'.diskOf[inst] == s.diskOf[inst])
    && (forall i :: SavedLog(s, i) <= SavedLog(s', i))
  }

  lemma AppendGains(s: State, s': State, d: Disk, v: Save)
    requires s'.disks == s.disks[d := Log(s, d) + [v]] && s'.diskOf == s.diskOf && s'.saved == s.saved
    ensures Gains(s, s')
  {
  }

  lemma FreshGains(s: State, s': State, i: Name, d: Disk)
    requires d !in s.disks && s'.disks == s.disks[d := SavedLog(s, i)] && s'.diskOf == s.diskOf && s'.saved == s.saved[i := d]
    ensures Gains(s, s')
  {
  }

  lemma SameGains(s: State, s': State)
    requires s'.disks == s.disks && s'.saved == s.saved
    requires forall inst | inst in s.diskOf :: inst in s'.diskOf && s'.diskOf[inst] == s.diskOf[inst]
    ensures Gains(s, s')
  {
  }

  lemma StepGains(s: State, step: Step)
    requires Enabled(s, step)
    ensures Gains(s, Apply(s, step))
  {
    hide Gains; hide SavedLog; hide Log; hide TesterOf; hide IsDead; hide Looked; hide In;
    var s' := Apply(s, step);
    if step.HandlerSave? {
      AppendGains(s, s', s.diskOf[s.reqs[step.r].inst], step.v);
    } else if step.Background? {
      AppendGains(s, s', s.diskOf[step.inst], step.v);
    } else if step.Renew? || (step.CopySaved? && step.name in s.saved) {
      FreshGains(s, s', step.name, step.disk);
    } else {
      SameGains(s, s');
    }
  }

  lemma KeptAlong(s: State, s': State, q: Request)
    requires Gains(s, s') && SavesKept(s, q) && AckKept(s, q) && CallOk(q)
    ensures SavesKept(s', q) && AckKept(s', q)
  {
    assert SavedLog(s, q.name) <= SavedLog(s', q.name);
    if q.inst in s.diskOf {
      assert Log(s, s.diskOf[q.inst]) <= Log(s', s.diskOf[q.inst]);
    }
  }

  /** A registered server's instance has a Persister, the one that saved names. */
  lemma TheServer(s: State, i: Name)
    requires DisksOk(s) && i in s.servers
    ensures s.servers[i] in s.diskOf && Log(s, s.diskOf[s.servers[i]]) == SavedLog(s, i)
  {
    assert ServerOk(s, i);
    hide Exclusive; hide StartedOk;
  }

  /** The request a step is about keeps its writes; the final check is the only place that acknowledges. */
  lemma TouchedKept(s: State, step: Step)
    requires CallsOk(s) && DisksOk(s) && WritesOk(s) && Enabled(s, step)
    requires 0 <= About(step) < |s.reqs|
    ensures About(step) < |Apply(s, step).reqs|
    ensures SavesKept(Apply(s, step), Apply(s, step).reqs[About(step)])
    ensures AckKept(Apply(s, step), Apply(s, step).reqs[About(step)])
  {
    var q := s.reqs[About(step)];
    assert CallOk(q) && SavesKept(s, q) && AckKept(s, q);
    hide DisksOk; hide CallsOk; hide WritesOk;
    StepGains(s, step);
    if step.FinalCheck? {
      CheckKept(s, step);
    } else if step.Look? {
      LookKept(s, step);
    } else {
      PlainKept(s, step);
    }
  }

  lemma CheckKept(s: State, step: Step)
    requires DisksOk(s) && Enabled(s, step) && step.FinalCheck?
    requires CallOk(s.reqs[step.r]) && SavesKept(s, s.reqs[step.r]) && AckKept(s, s.reqs[step.r])
    ensures SavesKept(Apply(s, step), Apply(s, step).reqs[step.r])
    ensures AckKept(Apply(s, step), Apply(s, step).reqs[step.r])
  {
    var q := s.reqs[step.r];
    if !IsDead(s, q) {
      TheServer(s, q.name);
    }
    hide DisksOk;
  }

  lemma LookKept(s: State, step: Step)
    requires DisksOk(s) && Enabled(s, step) && step.Look?
    requires CallOk(s.reqs[step.r]) && SavesKept(s, s.reqs[step.r]) && AckKept(s, s.reqs[step.r])
    ensures SavesKept(Apply(s, step), Apply(s, step).reqs[step.r])
    ensures AckKept(Apply(s, step), Apply(s, step).reqs[step.r])
  {
    var q := s.reqs[step.r];
    if IsEnabled(s, q.end) && q.end in s.connections && s.connections[q.end] in s.servers {
      TheServer(s, s.connections[q.end]);
    }
    hide DisksOk;
  }

  /** The other steps of a request neither choose a server nor acknowledge. */
  lemma PlainKept(s: State, step: Step)
    requires Enabled(s, step) && 0 <= About(step) < |s.reqs| && !step.Look? && !step.FinalCheck?
    requires CallOk(s.reqs[About(step)]) && SavesKept(s, s.reqs[About(step)]) && AckKept(s, s.reqs[About(step)])
    requires Gains(s, Apply(s, step))
    ensures About(step) < |Apply(s, step).reqs|
    ensures SavesKept(Apply(s, step), Apply(s, step).reqs[About(step)])
    ensures AckKept(Apply(s, step), Apply(s, step).reqs[About(step)])
  {
    var s' := Apply(s, step);
    KeptAlong(s, s', s.reqs[About(step)]);
    hide Gains; hide SavedLog; hide TesterOf; hide IsDead;
  }

  lemma WritesStay(s: State, step: Step)
    requires CallsOk(s) && DisksOk(s) && WritesOk(s) && Enabled(s, step)
    ensures WritesOk(Apply(s, step))
  {
    var s' := Apply(s, step);
    ReqCount(s, step);
    StepGains(s, step);
    hide Gains; hide DisksOk; hide CallOk; hide Apply; hide Enabled; hide About;
    forall r | 0 <= r < |s'.reqs| ensures SavesKept(s', s'.reqs[r]) && AckKept(s', s'.reqs[r]) {
      if r == |s.reqs| {
      } else if r == About(step) {
        TouchedKept(s, step);
      } else {
        OthersStay(s, step, r);
        assert SavesKept(s, s.reqs[r]) && AckKept(s, s.reqs[r]) && CallOk(s.reqs[r]);
        KeptAlong(s, s', s.reqs[r]);
      }
    }
  }

  // ---- every run ------------------------------------------------------------------------------

  predicate Taken(run: seq<State>, steps: seq<Step>, t: int)
    requires 0 <= t < |steps| < |run|
  {
    Enabled(run[t], steps[t]) && run[t + 1] == Apply(run[t], steps[t])
  }

  ghost predicate IsRun(run: seq<State>, steps: seq<Step>)
  {
    && |run| == |steps| + 1
    && run[0] == START
    && forall t | 0 <= t < |steps| :: Taken(run, steps, t)
  }

  ghost predicate Inv(s: State)
  {
    CallsOk(s) && DisksOk(s) && WritesOk(s)
  }

  lemma TakesStep(run: seq<State>, steps: seq<Step>, t: nat)
    requires IsRun(run, steps) && t < |steps|
    ensures t + 1 < |run| && Enabled(run[t], steps[t]) && run[t + 1] == Apply(run[t], steps[t])
  {
    hide Enabled; hide Apply;
    assert Taken(run, steps, t);
  }

  lemma {:induction false} RunInv(run: seq<State>, steps: seq<Step>, t: nat)
    requires IsRun(run, steps) && t < |run|
    ensures Inv(run[t])
  {
    assert |run| == |steps| + 1;
    assert t == 0 ==> Inv(run[t]);
    if t > 0 {
      hide *;
      RunInv(run, steps, t - 1);
      TakesStep(run, steps, t - 1);
      Kept(run[t - 1], steps[t - 1]);
    }
  }

  lemma Kept(s: State, step: Step)
    requires Inv(s) && Enabled(s, step)
    ensures Inv(Apply(s, step))
  {
    hide CallsOk; hide DisksOk; hide WritesOk; hide Apply; hide Enabled;
    CallsStay(s, step);
    DisksStay(s, step);
    WritesStay(s, step);
  }

  lemma TheCall(s: State, r: nat)
    requires Inv(s) && r < |s.reqs|
    ensures CallOk(s.reqs[r])
  {
    hide DisksOk; hide WritesOk; hide CallOk;
  }

  /** An acknowledged request makes no more saves and stays acknowledged. */
  lemma AckedStays(s: State, step: Step, r: nat)
    requires Inv(s) && Enabled(s, step) && r < |s.reqs| && Acked(s.reqs[r])
    ensures r < |Apply(s, step).reqs| && Acked(Apply(s, step).reqs[r])
    ensures Apply(s, step).reqs[r].saves == s.reqs[r].saves && Apply(s, step).reqs[r].name == s.reqs[r].name
  {
    hide Inv; hide TesterOf; hide IsDead; hide Looked; hide SavedLog; hide Log;
    TheCall(s, r);
    if r != About(step) {
      OthersStay(s, step, r);
    }
  }

  lemma {:induction false} AckedAlong(run: seq<State>, steps: seq<Step>, t: nat, u: nat, r: nat)
    requires IsRun(run, steps) && t <= u < |run| && r < |run[t].reqs| && Acked(run[t].reqs[r])
    ensures r < |run[u].reqs| && Acked(run[u].reqs[r])
    ensures run[u].reqs[r].saves == run[t].reqs[r].saves && run[u].reqs[r].name == run[t].reqs[r].name
    decreases u - t
  {
    if t < u {
      assert u - 1 < |steps|;
      hide *;
      AckedAlong(run, steps, t, u - 1, r);
      RunInv(run, steps, u - 1);
      TakesStep(run, steps, u - 1);
      AckedStays(run[u - 1], steps[u - 1], r);
    }
  }

  /**
   Once a client has a positive reply, everything the handler saved is, at every later
   moment, on the Persister that a restart of that server would start from.
   */
  lemma NoAckedWriteLost(run: seq<State>, steps: seq<Step>, t: nat, u: nat, r: nat)
    requires IsRun(run, steps) && t <= u < |run|
    requires r < |run[t].reqs| && run[t].reqs[r].phase == Answered(true)
    ensures forall v | v in run[t].reqs[r].saves :: v in SavedLog(run[u], run[t].reqs[r].name)
  {
    assert Acked(run[t].reqs[r]);
    hide IsRun; hide SavedLog; hide Acked;
    AckedAlong(run, steps, t, u, r);
    RunInv(run, steps, u);
    TheAck(run[u], r);
  }

  lemma TheAck(s: State, r: nat)
    requires Inv(s) && r < |s.reqs| && Acked(s.reqs[r])
    ensures forall v | v in s.reqs[r].saves :: v in SavedLog(s, s.reqs[r].name)
  {
    hide CallsOk; hide DisksOk; hide SavedLog;
    assert AckKept(s, s.reqs[r]);
  }

  /** Through which instance a step saves. */
  ghost predicate SavesThrough(s: State, step: Step, inst: Instance)
  {
    || (step.Background? && step.inst == inst)
    || (step.HandlerSave? && step.r < |s.reqs| && s.reqs[step.r].inst == inst)
  }

  /** What a restart would start from never goes back: saves are only added at its end. */
  lemma {:induction false} SavedOnlyGrows(run: seq<State>, steps: seq<Step>, t: nat, u: nat, i: Name)
    requires IsRun(run, steps) && t <= u < |run|
    ensures SavedLog(run[t], i) <= SavedLog(run[u], i)
  {
    if t < u {
      assert u - 1 < |steps|;
      hide *;
      SavedOnlyGrows(run, steps, t, u - 1, i);
      TakesStep(run, steps, u - 1);
      StepGains(run[u - 1], steps[u - 1]);
      GainsSaved(run[u - 1], run[u], i);
    }
  }

  lemma GainsSaved(s: State, s': State, i: Name)
    requires Gains(s, s')
    ensures SavedLog(s, i) <= SavedLog(s', i)
  {
    hide SavedLog;
  }

  /**
   Only the instance of a server that is registered or about to be (or, until the copy is
   taken, the one just deleted) can change what a restart would start from: an old instance
   never does.
   */
  lemma OldInstanceHarmless(run: seq<State>, steps: seq<Step>, t: nat, inst: Instance, i: Name)
    requires IsRun(run, steps) && t < |steps| && SavesThrough(run[t], steps[t], inst)
    requires !(i in run[t].servers && run[t].servers[i] == inst)
    requires !TesterOf(run[t], i).Deleting? && TesterOf(run[t], i) != Started(inst)
    ensures SavedLog(run[t + 1], i) == SavedLog(run[t], i)
  {
    hide IsRun; hide Apply; hide Enabled; hide SavedLog; hide SavesThrough; hide TesterOf; hide Inv;
    TakesStep(run, steps, t);
    RunInv(run, steps, t);
    SaveElsewhere(run[t], steps[t], inst, i);
  }

  lemma SaveElsewhere(s: State, step: Step, inst: Instance, i: Name)
    requires Inv(s) && Enabled(s, step) && SavesThrough(s, step, inst)
    requires !(i in s.servers && s.servers[i] == inst)
    requires !TesterOf(s, i).Deleting? && TesterOf(s, i) != Started(inst)
    ensures SavedLog(Apply(s, step), i) == SavedLog(s, i)
  {
    assert inst in s.diskOf;
    NotOurs(s, inst, i);
    hide Inv; hide TesterOf; hide In; hide Looked; hide IsDead;
  }

  lemma NotOurs(s: State, inst: Instance, i: Name)
    requires Inv(s) && inst in s.diskOf
    requires !(i in s.servers && s.servers[i] == inst)
    requires !TesterOf(s, i).Deleting? && TesterOf(s, i) != Started(inst)
    ensures i in s.saved ==> s.diskOf[inst] != s.saved[i]
  {
    assert i in s.saved ==> Exclusive(s, i, inst);
    hide CallsOk; hide WritesOk; hide DisksOk; hide TesterOf;
  }

  /**
   Each request is dispatched at most once and answered at most once, exactly once when
   it is finished; a positive answer means one dispatch whose handler returned.
   */
  lemma OneCallOneAnswer(run: seq<State>, steps: seq<Step>, t: nat, r: nat)
    requires IsRun(run, steps) && t < |run| && r < |run[t].reqs|
    ensures var q := run[t].reqs[r];
      && q.dispatches <= 1
      && |q.replies| == (if q.phase.Answered? then 1 else 0)
      && (true in q.replies ==> q.dispatches == 1 && q.handler == Returned)
  {
    OneCallOk(run, steps, t, r);
    hide IsRun;
  }

  /** Something decided positively was checked, with its handler done, while the server was there. */
  ghost predicate CheckedAlive(run: seq<State>, steps: seq<Step>, u: nat, r: nat)
    requires u < |steps| < |run|
  {
    && steps[u].FinalCheck? && steps[u].r == r
    && r < |run[u].reqs| && run[u].reqs[r].handler == Returned
    && !IsDead(run[u], run[u].reqs[r])
  }

  lemma AckOnlyAtCheck(s: State, step: Step, r: nat)
    requires Inv(s) && Enabled(s, step) && r < |Apply(s, step).reqs| && Acked(Apply(s, step).reqs[r])
    ensures r < |s.reqs|
    ensures Acked(s.reqs[r]) ||
      (step.FinalCheck? && step.r == r && s.reqs[r].handler == Returned && !IsDead(s, s.reqs[r]))
  {
    ReqCount(s, step);
    hide Inv; hide Looked; hide TesterOf;
    if r < |s.reqs| && r != About(step) {
      hide Apply;
      OthersStay(s, step, r);
    }
  }

  /** A positive answer goes back to a check that found the end enabled and that same instance registered. */
  lemma {:induction false} PositiveWasAlive(run: seq<State>, steps: seq<Step>, t: nat, r: nat) returns (u: nat)
    requires IsRun(run, steps) && t < |run| && r < |run[t].reqs| && Acked(run[t].reqs[r])
    ensures u < t && CheckedAlive(run, steps, u, r)
  {
    assert t > 0 && |run| == |steps| + 1;
    hide IsRun; hide Inv; hide Apply; hide Enabled; hide Acked; hide IsDead;
    RunInv(run, steps, t - 1);
    TakesStep(run, steps, t - 1);
    AckOnlyAtCheck(run[t - 1], steps[t - 1], r);
    if Acked(run[t - 1].reqs[r]) {
      u := PositiveWasAlive(run, steps, t - 1, r);
    } else {
      u := t - 1;
    }
  }

  // ---- a call returns ----------------------------------------------------------------------------

  function Distance(p: Phase): (n: nat)
  {
    match p
    case Accepted => 5
    case Chosen => 4
    case Waiting => 3
    case GotReply => 2
    case SawDead => 2
    case Decided(_) => 1
    case Answered(_) => 0
  }

  /** A request waits for a handler that has not returned, and its server is still there. */
  predicate Blocked(s: State, q: Request)
  {
    q.phase.Waiting? && q.handler == Working && !IsDead(s, q)
  }

  /** The step a request takes next of its own accord. */
  function NextStep(s: State, r: Req): (step: Step)
    requires r < |s.reqs|
  {
    match s.reqs[r].phase
    case Accepted => Look(r)
    case Chosen => Dispatch(r)
    case Waiting => if s.reqs[r].handler == Returned then TakeReply(r) else PollDead(r)
    case GotReply => FinalCheck(r, false)
    case SawDead => FinalCheck(r, false)
    case Decided(_) => Reply(r)
    case Answered(_) => Reply(r)
  }

  lemma NextEnabled(s: State, r: Req)
    requires r < |s.reqs| && CallOk(s.reqs[r]) && !s.reqs[r].phase.Answered? && !Blocked(s, s.reqs[r])
    ensures Enabled(s, NextStep(s, r)) && About(NextStep(s, r)) == r
    ensures !NextStep(s, r).HandlerReturn? && !NextStep(s, r).HandlerSave?
  {
    hide IsDead;
  }

  /** Every step of a request that is not its handler's brings it nearer to its answer. */
  lemma OwnStepNearer(s: State, step: Step)
    requires Enabled(s, step) && About(step) >= 0 && !step.HandlerSave? && !step.HandlerReturn?
    ensures About(step) < |s.reqs| && About(step) < |Apply(s, step).reqs|
    ensures Distance(Apply(s, step).reqs[About(step)].phase) < Distance(s.reqs[About(step)].phase)
  {
    hide IsDead; hide IsEnabled;
  }

  /** Unless it is blocked, an unanswered request has a step of its own that brings it nearer to its answer. */
  lemma CallProgresses(run: seq<State>, steps: seq<Step>, t: nat, r: nat) returns (step: Step)
    requires IsRun(run, steps) && t < |run| && r < |run[t].reqs|
    requires !run[t].reqs[r].phase.Answered? && !Blocked(run[t], run[t].reqs[r])
    ensures Enabled(run[t], step) && About(step) == r && !step.HandlerReturn?
    ensures r < |Apply(run[t], step).reqs|
    ensures Distance(Apply(run[t], step).reqs[r].phase) < Distance(run[t].reqs[r].phase)
  {
    OneCallOk(run, steps, t, r);
    hide *;
    step := NextStep(run[t], r);
    NextEnabled(run[t], r);
    OwnStepNearer(run[t], step);
  }

  lemma OneCallOk(run: seq<State>, steps: seq<Step>, t: nat, r: nat)
    requires IsRun(run, steps) && t < |run| && r < |run[t].reqs|
    ensures CallOk(run[t].reqs[r])
  {
    hide IsRun; hide DisksOk; hide WritesOk; hide CallOk;
    RunInv(run, steps, t);
  }
}
