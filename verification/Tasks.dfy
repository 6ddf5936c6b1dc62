/**
 The MapReduce coordinator: a table of map tasks and a table of reduce tasks, changed by
 requests for work, completion reports and reports of missing map outputs. `Apply` says
 what each event does to the tables; the class does it step by step.
 */
module Tasks {

  type TaskID = nat
  type Address = string

  datatype TaskState = Unassigned | Running | Finished

  datatype Task = Task(state: TaskState, assignedAt: int)

  datatype MapTask = MapTask(task: Task, file: string, buckets: nat)

  datatype ReduceTask = ReduceTask(task: Task, bucket: nat, outputs: map<TaskID, Address>)

  datatype Tables = Tables(maps: map<TaskID, MapTask>, reduces: map<TaskID, ReduceTask>)

  datatype Kind = Mapping | Reducing

  /** Ten seconds, in nanoseconds. */
  const TASK_TIMEOUT: int := 10_000_000_000

  const ZERO_TIME: int := 0

  predicate IsTimedOut(t: Task, now: int)
  {
    now - t.assignedAt >= TASK_TIMEOUT
  }

  function MarkRunning(t: Task, now: int): (r: Task)
  {
    t.(state := Running, assignedAt := now)
  }

  predicate ShouldAssign(t: Task, now: int)
  {
    t.state == Unassigned || (t.state == Running && IsTimedOut(t, now))
  }

  predicate MapsDone(s: Tables)
  {
    forall id | id in s.maps :: s.maps[id].task.state == Finished
  }

  predicate ReducesDone(s: Tables)
  {
    forall id | id in s.reduces :: s.reduces[id].task.state == Finished
  }

  predicate JobDone(s: Tables)
  {
    MapsDone(s) && ReducesDone(s)
  }

  predicate NoMapToAssign(s: Tables, now: int)
  {
    forall id | id in s.maps :: !ShouldAssign(s.maps[id].task, now)
  }

  predicate NoReduceToAssign(s: Tables, now: int)
  {
    forall id | id in s.reduces :: !ShouldAssign(s.reduces[id].task, now)
  }

  // ---- events ----------------------------------------------------------------------

  /**
   What happens to the coordinator. A request reads the clock at `now` to look for a task
   and at `mark` to stamp the one it hands out; it hands out any task that qualifies.
   */
  datatype Event =
    | GiveMap(id: TaskID, now: int, mark: int)
    | GiveReduce(id: TaskID, now: int, mark: int)
    | GiveWait(now: int, mark: int)
    | Complete(kind: Kind, id: TaskID, address: Address)
    | Missing(id: TaskID)

  predicate Enabled(s: Tables, e: Event)
  {
    match e
    case GiveMap(id, now, mark) => now <= mark && id in s.maps && ShouldAssign(s.maps[id].task, now)
    case GiveReduce(id, now, mark) =>
      && now <= mark && NoMapToAssign(s, now) && MapsDone(s)
      && id in s.reduces && ShouldAssign(s.reduces[id].task, now)
    case GiveWait(now, mark) =>
      now <= mark && NoMapToAssign(s, now) && (MapsDone(s) ==> NoReduceToAssign(s, now))
    case Complete(_, _, _) => true
    case Missing(_) => true
  }

  function AddOutput(reduces: map<TaskID, ReduceTask>, id: TaskID, address: Address): (r: map<TaskID, ReduceTask>)
  {
    map k | k in reduces :: reduces[k].(outputs := reduces[k].outputs[id := address])
  }

  function DropOutput(reduces: map<TaskID, ReduceTask>, id: TaskID): (r: map<TaskID, ReduceTask>)
  {
    map k | k in reduces :: reduces[k].(outputs := reduces[k].outputs - {id})
  }

  function SetMap(s: Tables, id: TaskID, t: Task): (r: Tables)
    requires id in s.maps
  {
    s.(maps := s.maps[id := s.maps[id].(task := t)])
  }

  function SetReduce(s: Tables, id: TaskID, t: Task): (r: Tables)
    requires id in s.reduces
  {
    s.(reduces := s.reduces[id := s.reduces[id].(task := t)])
  }

  function Apply(s: Tables, e: Event): (r: Tables)
    requires Enabled(s, e)
  {
    match e
    case GiveMap(id, _, mark) => SetMap(s, id, MarkRunning(s.maps[id].task, mark))
    case GiveReduce(id, _, mark) => SetReduce(s, id, MarkRunning(s.reduces[id].task, mark))
    case GiveWait(_, _) => s
    case Complete(Mapping, id, address) =>
      if id in s.maps && s.maps[id].task.state != Finished then
        SetMap(s, id, s.maps[id].task.(state := Finished)).(reduces := AddOutput(s.reduces, id, address))
      else s
    case Complete(Reducing, id, _) =>
      if id in s.reduces then SetReduce(s, id, s.reduces[id].task.(state := Finished)) else s
    case Missing(id) =>
      if id in s.maps && s.maps[id].task.state == Finished then
        SetMap(s, id, Task(Unassigned, ZERO_TIME)).(reduces := DropOutput(s.reduces, id))
      else s
  }

  /** The n ids after lo. */
  function IdsAfter(lo: nat, n: nat): (ids: set<TaskID>)
    ensures |ids| == n
    ensures forall id: TaskID :: id in ids <==> lo < id <= lo + n
  {
    if n == 0 then {} else IdsAfter(lo, n - 1) + {lo + n}
  }

  const IDLE: Task := Task(Unassigned, ZERO_TIME)

  /** One map task per file, numbered from 1, then one reduce task per bucket. */
  ghost function Initial(files: seq<string>, nReduce: nat): (s: Tables)
  {
    Tables(
      map id | id in IdsAfter(0, |files|) :: MapTask(IDLE, files[id - 1], nReduce),
      map id | id in IdsAfter(|files|, nReduce) :: ReduceTask(IDLE, id - |files| - 1, map[]))
  }

  // ---- bookkeeping of map outputs -----------------------------------------------------

  ghost function DoneMaps(s: Tables): (ids: set<TaskID>)
  {
    set id | id in s.maps && s.maps[id].task.state == Finished
  }

  /** All reduce tasks know the same outputs: one for each finished map task. */
  ghost predicate BooksKept(s: Tables)
  {
    && (forall r | r in s.reduces :: s.reduces[r].outputs.Keys == DoneMaps(s))
    && (forall r, q | r in s.reduces && q in s.reduces :: s.reduces[r].outputs == s.reduces[q].outputs)
  }

  lemma InitialBooks(files: seq<string>, nReduce: nat)
    ensures BooksKept(Initial(files, nReduce))
  {
    assert DoneMaps(Initial(files, nReduce)) == {};
  }

  lemma BooksStay(s: Tables, e: Event)
    requires BooksKept(s) && Enabled(s, e)
    ensures BooksKept(Apply(s, e))
  {
    var s' := Apply(s, e);
    match e
    case GiveMap(id, _, _) => assert DoneMaps(s') == DoneMaps(s);
    case GiveReduce(id, _, _) => assert DoneMaps(s') == DoneMaps(s);
    case GiveWait(_, _) =>
    case Complete(Mapping, id, _) =>
      if id in s.maps { assert DoneMaps(s') == DoneMaps(s) + {id}; }
    case Complete(Reducing, _, _) => assert DoneMaps(s') == DoneMaps(s);
    case Missing(id) => assert DoneMaps(s') == DoneMaps(s) - {id};
  }

  /** While all map tasks are finished, and only then, a reduce task knows an address for every map task. */
  lemma BooksComplete(s: Tables, id: TaskID)
    requires BooksKept(s) && id in s.reduces
    ensures s.reduces[id].outputs.Keys == s.maps.Keys <==> MapsDone(s)
  {
    assert MapsDone(s) <==> DoneMaps(s) == s.maps.Keys by {
      if DoneMaps(s) == s.maps.Keys {
        assert forall id | id in s.maps :: id in DoneMaps(s);
      }
    }
  }

  /** A reduce task is handed out with an address for every map task. */
  lemma HandOutComplete(s: Tables, e: Event)
    requires BooksKept(s) && Enabled(s, e) && e.GiveReduce?
    ensures s.reduces[e.id].outputs.Keys == s.maps.Keys
  {
    BooksComplete(s, e.id);
  }

  // ---- runs -------------------------------------------------------------------------------

  predicate Happens(states: seq<Tables>, events: seq<Event>, t: int)
    requires 0 <= t < |events| < |states|
  {
    Enabled(states[t], events[t]) && states[t + 1] == Apply(states[t], events[t])
  }

  /** The tables after each event of a run. */
  ghost predicate IsRun(states: seq<Tables>, events: seq<Event>)
  {
    && |states| == |events| + 1
    && forall t | 0 <= t < |events| :: Happens(states, events, t)
  }

  predicate ReadsClock(e: Event)
  {
    e.GiveMap? || e.GiveReduce? || e.GiveWait?
  }

  /** The clock does not go back from one request to a later one. */
  ghost predicate ClockAdvances(events: seq<Event>)
  {
    forall i, j | 0 <= i < j < |events| && ReadsClock(events[i]) && ReadsClock(events[j]) ::
      events[i].mark <= events[j].now
  }

  // ---- leases -------------------------------------------------------------------------------

  /** Still held since `mark`, or finished. */
  predicate HeldSince(t: Task, mark: int)
  {
    t.state == Finished || (t.state == Running && t.assignedAt >= mark)
  }

  lemma {:induction false} ReduceHeld(states: seq<Tables>, events: seq<Event>, i: nat, k: nat)
    requires IsRun(states, events) && ClockAdvances(events)
    requires i < k <= |events| && events[i].GiveReduce?
    ensures events[i].id in states[k].reduces && HeldSince(states[k].reduces[events[i].id].task, events[i].mark)
    decreases k - i
  {
    assert Happens(states, events, k - 1);
    if i < k - 1 {
      ReduceHeld(states, events, i, k - 1);
    }
  }

  /** A finished reduce task stays finished and is never handed out again. */
  lemma {:induction false} ReduceStaysFinished(states: seq<Tables>, events: seq<Event>, i: nat, k: nat, id: TaskID)
    requires IsRun(states, events) && i <= k <= |events|
    requires id in states[i].reduces && states[i].reduces[id].task.state == Finished
    ensures id in states[k].reduces && states[k].reduces[id].task.state == Finished
    ensures k < |events| ==> !(events[k].GiveReduce? && events[k].id == id)
    decreases k - i
  {
    if i < k {
      assert Happens(states, events, k - 1);
      ReduceStaysFinished(states, events, i, k - 1, id);
    }
    assert k < |events| ==> Happens(states, events, k);
  }

  /** A running task can be handed out again from ten seconds after it was stamped, and not before. */
  lemma LeaseIsTenSeconds(t: Task, mark: int, now: int)
    ensures ShouldAssign(MarkRunning(t, mark), now) <==> now >= mark + 10_000_000_000
  {
  }

  /** Two hand-outs of one reduce task lie at least the time-out apart. */
  lemma ReduceLease(states: seq<Tables>, events: seq<Event>, i: nat, j: nat)
    requires IsRun(states, events) && ClockAdvances(events)
    requires i < j < |events| && events[i].GiveReduce? && events[j].GiveReduce? && events[i].id == events[j].id
    ensures events[j].mark - events[i].mark >= TASK_TIMEOUT
  {
    ReduceHeld(states, events, i, j);
    assert Happens(states, events, j);
  }

  /** Event t reports the outputs of map task id missing, and the task is finished: it is reset. */
  predicate ResetsAt(states: seq<Tables>, events: seq<Event>, t: int, id: TaskID)
    requires 0 <= t < |events| < |states|
  {
    events[t] == Missing(id) && id in states[t].maps && states[t].maps[id].task.state == Finished
  }

  lemma {:induction false} MapHeld(states: seq<Tables>, events: seq<Event>, i: nat, k: nat)
    requires IsRun(states, events) && ClockAdvances(events)
    requires i < k <= |events| && events[i].GiveMap?
    requires forall t | i < t < k :: !ResetsAt(states, events, t, events[i].id)
    ensures events[i].id in states[k].maps && HeldSince(states[k].maps[events[i].id].task, events[i].mark)
    decreases k - i
  {
    assert Happens(states, events, k - 1);
    if i < k - 1 {
      MapHeld(states, events, i, k - 1);
      assert !ResetsAt(states, events, k - 1, events[i].id);
    }
  }

  /**
   The same for a map task, unless its outputs were reported missing in between after it had
   been finished; a report for a task that is running leaves its lease alone.
   */
  lemma MapLease(states: seq<Tables>, events: seq<Event>, i: nat, j: nat)
    requires IsRun(states, events) && ClockAdvances(events)
    requires i < j < |events| && events[i].GiveMap? && events[j].GiveMap? && events[i].id == events[j].id
    ensures events[j].mark - events[i].mark >= TASK_TIMEOUT || exists t :: i < t < j && ResetsAt(states, events, t, events[i].id)
  {
    if forall t | i < t < j :: !ResetsAt(states, events, t, events[i].id) {
      MapHeld(states, events, i, j);
      assert Happens(states, events, j);
    }
  }

  // ---- whose outputs are used ------------------------------------------------------------------

  /** Map task id is finished, and every reduce task has address a for it. */
  ghost predicate At(s: Tables, id: TaskID, a: Address)
  {
    && id in s.maps && s.maps[id].task.state == Finished
    && forall r | r in s.reduces :: id in s.reduces[r].outputs && s.reduces[r].outputs[id] == a
  }

  lemma FirstReportCounts(s: Tables, id: TaskID, a: Address)
    requires id in s.maps && s.maps[id].task.state != Finished
    ensures At(Apply(s, Complete(Mapping, id, a)), id, a)
  {
  }

  lemma AddressKept(s: Tables, e: Event, id: TaskID, a: Address)
    requires At(s, id, a) && Enabled(s, e) && e != Missing(id)
    ensures At(Apply(s, e), id, a)
  {
    hide NoMapToAssign; hide MapsDone; hide NoReduceToAssign;
  }

  /**
   The first report of a map task counts: from then on, until the outputs are reported
   missing, every reduce task has that worker's address for it, whoever reports later.
   */
  lemma {:induction false} AddressStays(states: seq<Tables>, events: seq<Event>, i: nat, k: nat, id: TaskID, a: Address)
    requires IsRun(states, events) && i < k <= |events|
    requires events[i] == Complete(Mapping, id, a) && id in states[i].maps && states[i].maps[id].task.state != Finished
    requires forall t | i < t < k :: events[t] != Missing(id)
    ensures At(states[k], id, a)
    decreases k - i
  {
    hide At; hide Apply; hide Enabled;
    assert Happens(states, events, k - 1);
    if i == k - 1 {
      FirstReportCounts(states[i], id, a);
    } else {
      AddressStays(states, events, i, k - 1, id, a);
      AddressKept(states[k - 1], events[k - 1], id, a);
    }
  }

  // ---- a job never gets stuck ------------------------------------------------------------------

  predicate Leased(t: Task, now: int)
  {
    t.state == Running && !IsTimedOut(t, now)
  }

  /**
   A worker is told to wait exactly when every unfinished task of the current phase is
   running under a lease that has not expired; unless the job is done there is such a task.
   */
  lemma WaitMeans(s: Tables, now: int, mark: int)
    requires now <= mark
    ensures Enabled(s, GiveWait(now, mark)) <==>
      && (forall id | id in s.maps && s.maps[id].task.state != Finished :: Leased(s.maps[id].task, now))
      && (MapsDone(s) ==> forall id | id in s.reduces && s.reduces[id].task.state != Finished :: Leased(s.reduces[id].task, now))
    ensures Enabled(s, GiveWait(now, mark)) && !JobDone(s) ==>
      || (exists id :: id in s.maps && Leased(s.maps[id].task, now))
      || (MapsDone(s) && exists id :: id in s.reduces && Leased(s.reduces[id].task, now))
  {
    if !MapsDone(s) {
      var id :| id in s.maps && s.maps[id].task.state != Finished;
      assert Enabled(s, GiveWait(now, mark)) ==> Leased(s.maps[id].task, now);
    } else if !ReducesDone(s) {
      var id :| id in s.reduces && s.reduces[id].task.state != Finished;
      assert Enabled(s, GiveWait(now, mark)) ==> Leased(s.reduces[id].task, now);
    }
  }

  ghost predicate Leads(s: Tables, events: seq<Event>, final: Tables)
    decreases |events|
  {
    if events == [] then s == final
    else Enabled(s, events[0]) && Leads(Apply(s, events[0]), events[1..], final)
  }

  predicate IsGive(e: Event)
  {
    e.GiveMap? || e.GiveReduce?
  }

  predicate Completes(e: Event, done: Event)
  {
    done.Complete? && IsGive(e) && done.id == e.id && done.kind == if e.GiveMap? then Mapping else Reducing
  }

  /** Hand-outs, each followed by its completion, at times that only go up from `now`. */
  ghost predicate Orderly(events: seq<Event>, now: int)
    decreases |events|
  {
    events == [] ||
    (|events| >= 2 && IsGive(events[0]) && now <= events[0].now && Completes(events[0], events[1])
     && Orderly(events[2..], events[0].mark))
  }

  /** The time of the last hand-out. */
  ghost function LastMark(events: seq<Event>, now: int): (t: int)
    requires Orderly(events, now)
    decreases |events|
  {
    if events == [] then now else LastMark(events[2..], events[0].mark)
  }

  ghost function UndoneMaps(s: Tables): (ids: set<TaskID>)
  {
    set id | id in s.maps && s.maps[id].task.state != Finished
  }

  ghost function UndoneReduces(s: Tables): (ids: set<TaskID>)
  {
    set id | id in s.reduces && s.reduces[id].task.state != Finished
  }

  ghost function Undone(s: Tables): (n: nat)
  {
    |UndoneMaps(s)| + |UndoneReduces(s)|
  }

  lemma NothingUndone(s: Tables)
    ensures Undone(s) == 0 <==> JobDone(s)
  {
    if Undone(s) == 0 {
      assert UndoneMaps(s) == {} && UndoneReduces(s) == {};
      assert forall id | id in s.maps :: id !in UndoneMaps(s);
      assert forall id | id in s.reduces :: id !in UndoneReduces(s);
    }
  }

  /** Whatever is handed out and completed, there is exactly one task less to do. */
  lemma OneLess(s: Tables, e: Event, done: Event)
    requires Enabled(s, e) && Completes(e, done)
    ensures Undone(Apply(Apply(s, e), done)) == Undone(s) - 1
  {
    var s' := Apply(Apply(s, e), done);
    if e.GiveMap? {
      assert UndoneMaps(s') == UndoneMaps(s) - {e.id} && e.id in UndoneMaps(s);
      assert UndoneReduces(s') == UndoneReduces(s);
    } else {
      assert UndoneReduces(s') == UndoneReduces(s) - {e.id} && e.id in UndoneReduces(s);
      assert UndoneMaps(s') == UndoneMaps(s);
    }
  }

  /** A moment by which the lease of t, if it has one, has expired. */
  function Expiry(t: Task, now: int): (later: int)
    ensures later >= now
    ensures t.state != Finished ==> ShouldAssign(t, later)
  {
    if t.assignedAt + TASK_TIMEOUT > now then t.assignedAt + TASK_TIMEOUT else now
  }

  /** At `now` or later, some task can be handed out. */
  ghost predicate CanGive(s: Tables, now: int)
  {
    exists e :: Enabled(s, e) && IsGive(e) && now <= e.now
  }

  /** Some task can be handed out, if only after its lease has expired, exactly while the job is not done. */
  lemma GiveUnlessDone(s: Tables, now: int)
    ensures CanGive(s, now) <==> !JobDone(s)
  {
    if !MapsDone(s) {
      var id :| id in s.maps && s.maps[id].task.state != Finished;
      var later := Expiry(s.maps[id].task, now);
      assert Enabled(s, GiveMap(id, later, later)) && IsGive(GiveMap(id, later, later));
    } else if !ReducesDone(s) {
      var id :| id in s.reduces && s.reduces[id].task.state != Finished;
      var later := Expiry(s.reduces[id].task, now);
      assert Enabled(s, GiveReduce(id, later, later)) && IsGive(GiveReduce(id, later, later));
    }
  }

  predicate LeasesExpired(s: Tables, now: int)
  {
    && (forall id | id in s.maps :: !Leased(s.maps[id].task, now))
    && (forall id | id in s.reduces :: !Leased(s.reduces[id].task, now))
  }

  /** Once the leases have expired a request is answered with a task, whichever it is, unless the job is done. */
  lemma NoWaitOnceExpired(s: Tables, now: int, mark: int)
    requires !JobDone(s) && LeasesExpired(s, now) && now <= mark
    ensures !Enabled(s, GiveWait(now, mark))
    ensures exists e :: Enabled(s, e) && IsGive(e) && e.now == now && e.mark == mark
  {
    if !MapsDone(s) {
      var id :| id in s.maps && s.maps[id].task.state != Finished;
      assert ShouldAssign(s.maps[id].task, now);
      assert Enabled(s, GiveMap(id, now, mark)) && IsGive(GiveMap(id, now, mark));
    } else {
      var id :| id in s.reduces && s.reduces[id].task.state != Finished;
      assert ShouldAssign(s.reduces[id].task, now);
      assert Enabled(s, GiveReduce(id, now, mark)) && IsGive(GiveReduce(id, now, mark));
    }
  }

  lemma {:induction false} OrderlyCounts(s: Tables, events: seq<Event>, now: int, final: Tables)
    requires Orderly(events, now) && Leads(s, events, final)
    ensures |events| == 2 * (Undone(s) - Undone(final))
    decreases |events|
  {
    if events != [] {
      var s1 := Apply(s, events[0]);
      assert events[1..][0] == events[1] && events[1..][1..] == events[2..];
      OneLess(s, events[0], events[1]);
      OrderlyCounts(Apply(s1, events[1]), events[2..], events[0].mark, final);
    }
  }

  /**
   No job gets stuck, whatever the coordinator picks. In every run that completes each
   task it is handed, every round finishes one task; the run can go on exactly until the
   job is done, and then it has taken exactly one round for each task that was undone.
   */
  lemma EveryOrderlyRunFinishes(s: Tables, events: seq<Event>, now: int, final: Tables)
    requires Orderly(events, now) && Leads(s, events, final)
    ensures |events| == 2 * (Undone(s) - Undone(final))
    ensures CanGive(final, LastMark(events, now)) <==> !JobDone(final)
    ensures JobDone(final) <==> |events| == 2 * Undone(s)
  {
    OrderlyCounts(s, events, now, final);
    GiveUnlessDone(final, LastMark(events, now));
    NothingUndone(final);
  }

  /** There is such a run from any tables. */
  lemma {:induction false} JobCanFinish(s: Tables, now: int, address: Address) returns (events: seq<Event>, final: Tables)
    ensures Leads(s, events, final) && JobDone(final) && Orderly(events, now)
    decreases Undone(s)
  {
    GiveUnlessDone(s, now);
    if JobDone(s) {
      events, final := [], s;
    } else {
      var e :| Enabled(s, e) && IsGive(e) && now <= e.now;
      var done := Complete(if e.GiveMap? then Mapping else Reducing, e.id, address);
      OneLess(s, e, done);
      var rest;
      rest, final := JobCanFinish(Apply(Apply(s, e), done), e.mark, address);
      events := [e, done] + rest;
      assert events[1..][0] == done && events[1..][1..] == rest && events[2..] == rest;
    }
  }

  /**
   A job that is done does not always stay done: a late report of missing outputs
   reschedules a map task, and only such a report for a known task can undo it.
   */
  lemma DoneStaysExactly(s: Tables, e: Event)
    requires JobDone(s) && Enabled(s, e)
    ensures JobDone(Apply(s, e)) <==> !(e.Missing? && e.id in s.maps)
  {
    if e.Missing? && e.id in s.maps {
      assert Apply(s, e).maps[e.id].task.state == Unassigned;
    }
  }
}
