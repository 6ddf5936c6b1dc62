/**
 Two things that can go wrong in a job: it can be done and then not done any more, and a
 reply that is encoded too late can lose pairs.
 */
module Mishaps {
  import opened Grouping
  import opened Cluster
  import opened Progress
  import T = Tasks

  // ---- done, and then not done ------------------------------------------------------------------

  lemma SomeMapLeft(t: T.Tables, now: int) returns (e: T.Event)
    requires !T.MapsDone(t)
    ensures T.Enabled(t, e) && e.GiveMap?
  {
    var id :| id in t.maps && t.maps[id].task.state != T.Finished;
    var later := T.Expiry(t.maps[id].task, now);
    e := T.GiveMap(id, later, later);
  }

  /** Worker w runs the map tasks, all of them. */
  lemma {:induction false} MapsFinish(p: Job, s: State, w: WorkerID, now: int) returns (steps: seq<Step>, s': State)
    requires ValidJob(p) && Inv(p, s) && ActivityOf(s, w).Idle?
    ensures Trip(p, s, steps, s', w) && Inv(p, s') && ActivityOf(s', w).Idle?
    ensures T.MapsDone(s'.tables) && T.UndoneReduces(s'.tables) == T.UndoneReduces(s.tables)
    decreases |T.UndoneMaps(s.tables)|
  {
    hide *;
    ValidJobHasBuckets(p);
    if T.MapsDone(s.tables) {
      steps, s' := [], s;
      NoTrip(p, s, w);
    } else {
      InvTables(p, s);
      var e := SomeMapLeft(s.tables, now);
      var first, s1 := MapRound(p, s, w, e);
      MapTables(p, s.tables, e, p.address(w));
      TripParts(p, s, first, s1, w);
      ReachesInv(p, s, first, s1);
      assert |T.UndoneMaps(s1.tables)| < |T.UndoneMaps(s.tables)|;
      var rest;
      rest, s' := MapsFinish(p, s1, w, now);
      TripAppend(p, s, first, s1, rest, s', w);
      steps := first + rest;
    }
  }

  /** The first reduce task can be handed out, with an address for map task 1. */
  lemma FirstReduce(p: Job, s: State) returns (e: T.Event)
    requires p.n > 0 && TablesOk(p, s.tables) && |p.names| > 0
    requires T.MapsDone(s.tables) && |p.names| + 1 in T.UndoneReduces(s.tables)
    ensures T.Enabled(s.tables, e) && e.GiveReduce? && e.id == |p.names| + 1
    ensures 1 in s.tables.reduces[e.id].outputs
  {
    var r := |p.names| + 1;
    var later := T.Expiry(s.tables.reduces[r].task, 0);
    e := T.GiveReduce(r, later, later);
    T.BooksComplete(s.tables, r);
    hide T.BooksKept;
    assert IsMapId(p, 1);
  }

  lemma StartFacts(p: Job, v: WorkerID, w: WorkerID)
    requires p.n > 0
    ensures |p.names| + 1 in T.UndoneReduces(Start(p).tables)
    ensures ActivityOf(Start(p), v).Idle? && ActivityOf(Start(p), w).Idle?
  {
  }

  lemma OthersKept(p: Job, s: State, steps: seq<Step>, s': State, w: WorkerID, v: WorkerID)
    requires p.n > 0 && Trip(p, s, steps, s', w) && v != w
    ensures ActivityOf(s', v) == ActivityOf(s, v)
  {
    hide Reaches;
  }

  /** A worker runs the maps, takes the first reduce task and stalls. */
  lemma RunMapsAndStall(p: Job, slow: WorkerID) returns (steps: seq<Step>, s': State)
    requires ValidJob(p) && |p.names| > 0
    ensures Trip(p, Start(p), steps, s', slow) && Inv(p, s')
    ensures ActivityOf(s', slow).ReduceRun? && 1 in ActivityOf(s', slow).left
  {
    hide *;
    ValidJobHasBuckets(p);
    StartInv(p);
    StartFacts(p, slow, slow);
    var a, s1 := MapsFinish(p, Start(p), slow, 0);
    InvTables(p, s1);
    var e := FirstReduce(p, s1);
    var b;
    b, s' := AskForReduce(p, s1, slow, e);
    TripParts(p, s1, b, s', slow);
    ReachesInv(p, s1, b, s');
    TripAppend(p, Start(p), a, s1, b, s', slow);
    steps := a + b;
  }

  /**
   Done is not stable, in runs of any job that has an input file: one worker runs the maps,
   takes a reduce task and stalls; another finishes the job; then the first fails to fetch
   an output, and its report undoes a map task.
   */
  lemma DoneCanBeLost(p: Job, slow: WorkerID, w: WorkerID) returns (steps: seq<Step>, done: State, undone: State)
    requires ValidJob(p) && |p.names| > 0 && slow != w
    ensures Reaches(p, Start(p), steps, done) && T.JobDone(done.tables)
    ensures Reaches(p, done, [FetchFails(slow, 1), Deliver(T.Missing(1))], undone) && !T.JobDone(undone.tables)
  {
    hide *;
    ValidJobHasBuckets(p);
    StartFacts(p, slow, w);
    var a, s1 := RunMapsAndStall(p, slow);
    OthersKept(p, Start(p), a, s1, slow, w);
    AnyChoiceChooses();
    var b;
    b, done := WorkerFinishesJob(p, s1, w, AnyChoice, 0);
    OthersKept(p, s1, b, done, w, slow);
    TripParts(p, Start(p), a, s1, slow);
    TripParts(p, s1, b, done, w);
    ReachesAppend(p, Start(p), a, s1, b, done);
    steps := a + b;
    undone := LateReport(p, done, slow);
  }

  lemma MapOneKnown(p: Job, s: State)
    requires p.n > 0 && Inv(p, s) && |p.names| > 0 && T.JobDone(s.tables)
    ensures !T.JobDone(T.Apply(s.tables, T.Missing(1)))
  {
    assert IsMapId(p, 1) && 1 in s.tables.maps;
    T.DoneStaysExactly(s.tables, T.Missing(1));
  }

  lemma LateReport(p: Job, done: State, slow: WorkerID) returns (undone: State)
    requires p.n > 0 && Inv(p, done) && |p.names| > 0 && T.JobDone(done.tables)
    requires ActivityOf(done, slow).ReduceRun? && 1 in ActivityOf(done, slow).left
    ensures Reaches(p, done, [FetchFails(slow, 1), Deliver(T.Missing(1))], undone) && !T.JobDone(undone.tables)
  {
    hide Inv; hide T.JobDone; hide T.Apply; hide Reaches;
    MapOneKnown(p, done);
    undone := ReportAndDeliver(p, done, FetchFails(slow, 1), T.Missing(1));
  }

  // ---- a reply that is encoded too late -----------------------------------------------------------

  /** steps lead from s to s'; replies may be encoded late. */
  ghost predicate Leads(p: Job, s: State, steps: seq<Step>, s': State)
    requires p.n > 0
    decreases |steps|
  {
    if steps == [] then s == s'
    else Enabled(p, s, steps[0]) && Leads(p, Apply(p, s, steps[0]), steps[1..], s')
  }

  lemma {:induction false} ReachesLeads(p: Job, s: State, steps: seq<Step>, s': State)
    requires p.n > 0 && Reaches(p, s, steps, s')
    ensures Leads(p, s, steps, s')
    decreases |steps|
  {
    hide Enabled; hide Apply; hide InTime;
    if steps != [] {
      ReachesLeads(p, Apply(p, s, steps[0]), steps[1..], s');
    }
  }

  lemma {:induction false} LeadsAppend(p: Job, s: State, a: seq<Step>, s1: State, b: seq<Step>, s2: State)
    requires p.n > 0 && Leads(p, s, a, s1) && Leads(p, s1, b, s2)
    ensures Leads(p, s, a + b, s2)
    decreases |a|
  {
    hide Enabled; hide Apply;
    if a == [] {
      assert a + b == b;
    } else {
      assert (a + b)[0] == a[0] && (a + b)[1..] == a[1..] + b;
      LeadsAppend(p, Apply(p, s, a[0]), a[1..], s1, b, s2);
    }
  }

  lemma LeadsStep(p: Job, s: State, step: Step)
    requires p.n > 0 && Enabled(p, s, step)
    ensures Leads(p, s, [step], Apply(p, s, step))
  {
    hide Enabled; hide Apply;
    assert Leads(p, Apply(p, s, step), [], Apply(p, s, step));
    assert [step][1..] == [];
  }

  lemma StillUndone(t: T.Tables, e: T.Event)
    requires T.Enabled(t, e) && e.GiveReduce? && e.id in T.UndoneReduces(t)
    ensures T.MapsDone(T.Apply(t, e)) && e.id in T.UndoneReduces(T.Apply(t, e))
  {
    hide T.NoMapToAssign;
  }

  lemma ResetMap(t: T.Tables, e: T.Event, m: TaskID)
    requires T.Enabled(t, e) && e.GiveReduce? && m in t.maps
    ensures var t' := T.Apply(T.Apply(t, e), T.Missing(m)); m in t'.maps && t'.maps[m].task.state != T.Finished
  {
    hide T.NoMapToAssign;
  }

  /** Another worker takes the same reduce task, fails to fetch, and the only map task is reset. */
  lemma ResetByOther(p: Job, s: State, slow: WorkerID, w: WorkerID) returns (steps: seq<Step>, s': State)
    requires ValidJob(p) && Inv(p, s) && |p.names| == 1 && slow != w && ActivityOf(s, w).Idle?
    requires T.MapsDone(s.tables) && 2 in T.UndoneReduces(s.tables)
    ensures Trip(p, s, steps, s', w) && Inv(p, s')
    ensures 1 in s'.tables.maps && s'.tables.maps[1].task.state != T.Finished
  {
    hide *;
    ValidJobHasBuckets(p);
    InvTables(p, s);
    var e := FirstReduce(p, s);
    MapOne(p, s.tables);
    ResetMap(s.tables, e, 1);
    var a, s1 := AskForReduce(p, s, w, e);
    var b;
    b, s' := ReportMissing(p, s1, w, 1);
    TripAppend(p, s, a, s1, b, s', w);
    TripParts(p, s, a + b, s', w);
    ReachesInv(p, s, a + b, s');
    steps := a + b;
  }

  lemma MapOne(p: Job, t: T.Tables)
    requires TablesOk(p, t) && |p.names| > 0
    ensures 1 in t.maps
  {
    assert IsMapId(p, 1);
  }

  /** With the only map task reset, a reply that is encoded now has no address. */
  lemma NothingToFetch(p: Job, s: State)
    requires p.n > 0 && TablesOk(p, s.tables) && |p.names| == 1
    requires 1 in s.tables.maps && s.tables.maps[1].task.state != T.Finished
    ensures 2 in s.tables.reduces && Encoded(s, 2) == ReduceRun(2, 0, {}, map[], [], [])
  {
    assert IsReduceId(p, 2) && 2 in s.tables.reduces;
    assert T.DoneMaps(s.tables) == {};
    assert s.tables.reduces[2].outputs == map[];
  }

  lemma EncodeNothing(p: Job, s: State, slow: WorkerID) returns (s': State)
    requires p.n > 0 && 2 in s.tables.reduces && ActivityOf(s, slow) == Awaiting(2)
    requires Encoded(s, 2) == ReduceRun(2, 0, {}, map[], [], [])
    ensures Leads(p, s, [Encode(slow)], s') && s'.tables == s.tables && ActivityOf(s', slow) == ReduceRun(2, 0, {}, map[], [], [])
  {
    hide Leads; hide Encoded;
    s' := Apply(p, s, Encode(slow));
    LeadsStep(p, s, Encode(slow));
  }

  lemma NothingReduced(p: Job)
    ensures IsTable([], Reduced(p.reducef, []))
  {
    assert Reduced(p.reducef, []) == map[];
  }

  /** With no addresses there is nothing to fetch and nothing to reduce, and the empty result is accepted. */
  lemma ReportNothing(p: Job, s: State, slow: WorkerID) returns (steps: seq<Step>, s': State)
    requires p.n > 0 && 2 in s.tables.reduces && ActivityOf(s, slow) == ReduceRun(2, 0, {}, map[], [], [])
    ensures Leads(p, s, steps, s') && 0 in s'.outputs && s'.outputs[0] == []
    ensures 2 in s'.tables.reduces && s'.tables.reduces[2].task.state == T.Finished
  {
    hide IsTable; hide Reduced; hide Leads; hide Reaches; hide ActivityOf;
    var e := T.Complete(T.Reducing, 2, p.address(slow));
    NothingReduced(p);
    s' := ReportAndDeliver(p, s, ReportReduce(slow, []), e);
    steps := [ReportReduce(slow, []), Deliver(e)];
    ReachesLeads(p, s, steps, s');
  }

  lemma FinishEmpty(p: Job, s: State, slow: WorkerID) returns (steps: seq<Step>, final: State)
    requires p.n > 0 && TablesOk(p, s.tables) && |p.names| == 1 && ActivityOf(s, slow) == Awaiting(2)
    requires 1 in s.tables.maps && s.tables.maps[1].task.state != T.Finished
    ensures Leads(p, s, steps, final) && 0 in final.outputs && final.outputs[0] == []
    ensures 2 in final.tables.reduces && final.tables.reduces[2].task.state == T.Finished
  {
    hide *;
    NothingToFetch(p, s);
    var s1 := EncodeNothing(p, s, slow);
    var c;
    c, final := ReportNothing(p, s1, slow);
    LeadsAppend(p, s, [Encode(slow)], s1, c, final);
    steps := [Encode(slow)] + c;
  }

  lemma EmptyIsWrong(p: Job)
    requires p.n > 0 && BucketResult(p, 0) != map[]
    ensures !IsTable([], BucketResult(p, 0))
  {
    hide BucketResult;
    assert KeysOf([]) == {};
  }

  /** The slow worker has run the map task and asked for a reduce task; its reply is not encoded yet. */
  lemma RunMapsAndAsk(p: Job, slow: WorkerID) returns (steps: seq<Step>, s': State)
    requires ValidJob(p) && |p.names| == 1
    ensures Trip(p, Start(p), steps, s', slow) && Inv(p, s') && ActivityOf(s', slow) == Awaiting(2)
    ensures T.MapsDone(s'.tables) && 2 in T.UndoneReduces(s'.tables)
  {
    hide *;
    ValidJobHasBuckets(p);
    StartInv(p);
    StartFacts(p, slow, slow);
    var a, s1 := MapsFinish(p, Start(p), slow, 0);
    InvTables(p, s1);
    var e := FirstReduce(p, s1);
    StillUndone(s1.tables, e);
    s' := AskAndWait(p, s1, slow, e);
    TripParts(p, s1, [Request(slow, e, true)], s', slow);
    ReachesInv(p, s1, [Request(slow, e, true)], s');
    TripAppend(p, Start(p), a, s1, [Request(slow, e, true)], s', slow);
    steps := a + [Request(slow, e, true)];
  }

  /**
   Why replies must be encoded in time: in every job with one input file, if a map task is
   reset between a hand-out and the encoding of its reply, the reduce task is accepted as
   finished with an empty output, which is wrong unless its bucket is empty.
   */
  lemma LateReplyLosesPairs(p: Job, slow: WorkerID, w: WorkerID) returns (steps: seq<Step>, final: State)
    requires ValidJob(p) && |p.names| == 1 && slow != w && BucketResult(p, 0) != map[]
    ensures Leads(p, Start(p), steps, final)
    ensures 2 in final.tables.reduces && final.tables.reduces[2].task.state == T.Finished
    ensures 0 in final.outputs && final.outputs[0] == [] && !IsTable(final.outputs[0], BucketResult(p, 0))
  {
    hide *;
    ValidJobHasBuckets(p);
    EmptyIsWrong(p);
    StartFacts(p, slow, w);
    var a, s1 := RunMapsAndAsk(p, slow);
    OthersKept(p, Start(p), a, s1, slow, w);
    var b, s2 := ResetByOther(p, s1, slow, w);
    OthersKept(p, s1, b, s2, w, slow);
    InvTables(p, s2);
    var c;
    c, final := FinishEmpty(p, s2, slow);
    TripParts(p, Start(p), a, s1, slow);
    TripParts(p, s1, b, s2, w);
    ReachesAppend(p, Start(p), a, s1, b, s2);
    ReachesLeads(p, Start(p), a + b, s2);
    LeadsAppend(p, Start(p), a + b, s2, c, final);
    steps := a + b + c;
  }
}
