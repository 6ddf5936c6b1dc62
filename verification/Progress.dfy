/**
 That a job gets done: one worker that keeps asking for tasks and really runs them
 brings any reachable job to its end, whatever it is handed, whoever ran tasks before it
 and whatever outputs have been lost.
 */
module Progress {
  import opened Sorting
  import opened Grouping
  import opened Cluster
  import T = Tasks

  /** steps lead from s to s', and every reply is encoded in time. */
  ghost predicate Reaches(p: Job, s: State, steps: seq<Step>, s': State)
    requires p.n > 0
    decreases |steps|
  {
    if steps == [] then s == s'
    else Enabled(p, s, steps[0]) && InTime(s, steps[0]) && Reaches(p, Apply(p, s, steps[0]), steps[1..], s')
  }

  /** Only worker w acts; reports are delivered. */
  ghost predicate OnlyBy(steps: seq<Step>, w: WorkerID)
  {
    forall i | 0 <= i < |steps| :: steps[i].Deliver? || (!steps[i].Crash? && steps[i].w == w)
  }

  lemma OneStep(p: Job, s: State, step: Step)
    requires p.n > 0 && Enabled(p, s, step) && InTime(s, step)
    ensures Reaches(p, s, [step], Apply(p, s, step))
  {
    hide Enabled; hide Apply; hide InTime;
    assert Reaches(p, Apply(p, s, step), [], Apply(p, s, step));
    assert [step][1..] == [];
  }

  lemma {:induction false} ReachesAppend(p: Job, s: State, a: seq<Step>, s1: State, b: seq<Step>, s2: State)
    requires p.n > 0 && Reaches(p, s, a, s1) && Reaches(p, s1, b, s2)
    ensures Reaches(p, s, a + b, s2)
    decreases |a|
  {
    hide Enabled; hide Apply; hide InTime;
    if a == [] {
      assert a + b == b;
    } else {
      assert (a + b)[0] == a[0] && (a + b)[1..] == a[1..] + b;
      ReachesAppend(p, Apply(p, s, a[0]), a[1..], s1, b, s2);
    }
  }

  lemma {:induction false} ReachesInv(p: Job, s: State, steps: seq<Step>, s': State)
    requires p.n > 0 && Inv(p, s) && Reaches(p, s, steps, s')
    ensures Inv(p, s')
    decreases |steps|
  {
    hide Inv; hide Enabled; hide Apply; hide InTime;
    if steps != [] {
      StepKeeps(p, s, steps[0]);
      ReachesInv(p, Apply(p, s, steps[0]), steps[1..], s');
    }
  }

  // ---- running a map task ------------------------------------------------------------------

  /** The first k bucket files of map task id are in directory d. */
  ghost predicate HasFiles(s: State, d: Directory, id: TaskID, k: nat)
  {
    forall b: nat | b < k :: (id, b) in StoreOf(s, d)
  }

  /** No file is gone, and nobody but w does anything else. */
  ghost predicate Grown(s: State, s': State, w: WorkerID)
  {
    && (forall d, f | f in StoreOf(s, d) :: f in StoreOf(s', d))
    && (forall v | v != w :: ActivityOf(s', v) == ActivityOf(s, v))
  }

  lemma GrownTwice(s: State, s1: State, s2: State, w: WorkerID)
    requires Grown(s, s1, w) && Grown(s1, s2, w)
    ensures Grown(s, s2, w)
  {
    hide StoreOf; hide ActivityOf;
  }

  /** Steps of w alone, after which no file is gone and nobody else is disturbed. */
  ghost predicate Trip(p: Job, s: State, steps: seq<Step>, s': State, w: WorkerID)
    requires p.n > 0
  {
    Reaches(p, s, steps, s') && OnlyBy(steps, w) && Grown(s, s', w)
  }

  lemma NoTrip(p: Job, s: State, w: WorkerID)
    requires p.n > 0
    ensures Trip(p, s, [], s, w)
  {
  }

  lemma TripAppend(p: Job, s: State, a: seq<Step>, s1: State, b: seq<Step>, s2: State, w: WorkerID)
    requires p.n > 0 && Trip(p, s, a, s1, w) && Trip(p, s1, b, s2, w)
    ensures Trip(p, s, a + b, s2, w)
  {
    hide Reaches; hide Grown;
    ReachesAppend(p, s, a, s1, b, s2);
    GrownTwice(s, s1, s2, w);
  }

  lemma TripStep(p: Job, s: State, step: Step, w: WorkerID)
    requires p.n > 0 && Enabled(p, s, step) && InTime(s, step)
    requires step.Deliver? || (!step.Crash? && step.w == w)
    requires Grown(s, Apply(p, s, step), w)
    ensures Trip(p, s, [step], Apply(p, s, step), w)
  {
    hide Reaches; hide Grown; hide Enabled; hide Apply; hide InTime;
    OneStep(p, s, step);
  }

  lemma WriteOne(p: Job, s: State, w: WorkerID) returns (s': State)
    requires p.n > 0 && ActivityOf(s, w).MapRun? && ActivityOf(s, w).next < ActivityOf(s, w).buckets
    requires HasFiles(s, p.home(w), ActivityOf(s, w).id, ActivityOf(s, w).next)
    ensures Enabled(p, s, WriteBucket(w)) && s' == Apply(p, s, WriteBucket(w))
    ensures ActivityOf(s', w) == ActivityOf(s, w).(next := ActivityOf(s, w).next + 1)
    ensures HasFiles(s', p.home(w), ActivityOf(s, w).id, ActivityOf(s, w).next + 1)
    ensures s'.tables == s.tables && Grown(s, s', w)
  {
    hide InBucket;
    s' := Apply(p, s, WriteBucket(w));
  }

  lemma {:induction false} WriteAll(p: Job, s: State, w: WorkerID) returns (steps: seq<Step>, s': State)
    requires p.n > 0 && ActivityOf(s, w).MapRun? && ActivityOf(s, w).next <= ActivityOf(s, w).buckets
    requires HasFiles(s, p.home(w), ActivityOf(s, w).id, ActivityOf(s, w).next)
    ensures Trip(p, s, steps, s', w) && s'.tables == s.tables
    ensures ActivityOf(s', w) == ActivityOf(s, w).(next := ActivityOf(s, w).buckets)
    ensures HasFiles(s', p.home(w), ActivityOf(s, w).id, ActivityOf(s, w).buckets)
    decreases ActivityOf(s, w).buckets - ActivityOf(s, w).next
  {
    hide *;
    if ActivityOf(s, w).next == ActivityOf(s, w).buckets {
      steps, s' := [], s;
      NoTrip(p, s, w);
    } else {
      var s1 := WriteOne(p, s, w);
      InTimeAnyway(s, WriteBucket(w));
      TripStep(p, s, WriteBucket(w), w);
      var rest;
      rest, s' := WriteAll(p, s1, w);
      TripAppend(p, s, [WriteBucket(w)], s1, rest, s', w);
      steps := [WriteBucket(w)] + rest;
    }
  }

  lemma InTimeAnyway(s: State, step: Step)
    requires !step.Encode?
    ensures InTime(s, step)
  {
  }

  /** A report is made and delivered. */
  lemma ReportAndDeliver(p: Job, s: State, report: Step, e: T.Event) returns (s': State)
    requires p.n > 0 && Enabled(p, s, report) && !report.Encode?
    requires e.Complete? || e.Missing?
    requires e in Apply(p, s, report).net
    ensures Reaches(p, s, [report, Deliver(e)], s')
    ensures s' == Apply(p, s, report).(tables := T.Apply(Apply(p, s, report).tables, e))
  {
    hide *;
    var s1 := Apply(p, s, report);
    s' := Delivered(p, s1, e);
    InTimeAnyway(s, report);
    InTimeAnyway(s1, Deliver(e));
    OneStep(p, s, report);
    OneStep(p, s1, Deliver(e));
    ReachesAppend(p, s, [report], s1, [Deliver(e)], s');
    assert [report] + [Deliver(e)] == [report, Deliver(e)];
  }

  lemma Delivered(p: Job, s: State, e: T.Event) returns (s': State)
    requires p.n > 0 && e in s.net && (e.Complete? || e.Missing?)
    ensures T.Enabled(s.tables, e) && Enabled(p, s, Deliver(e))
    ensures s' == Apply(p, s, Deliver(e)) && s' == s.(tables := T.Apply(s.tables, e))
  {
    hide T.Apply;
    s' := s.(tables := T.Apply(s.tables, e));
  }

  /** Worker w is idle after a report, and nothing else happened to files or workers. */
  lemma AfterReport(p: Job, s: State, w: WorkerID, report: Step, t: T.Tables, steps: seq<Step>, s': State)
    requires p.n > 0 && Enabled(p, s, report) && (report.ReportMap? || report.ReportReduce? || report.FetchFails?) && report.w == w
    requires s' == Apply(p, s, report).(tables := t) && Reaches(p, s, steps, s') && OnlyBy(steps, w)
    ensures ActivityOf(s', w).Idle? && s'.stores == s.stores && Trip(p, s, steps, s', w)
  {
    hide Reaches; hide OnlyBy; hide IsTable; hide Reduced;
  }

  lemma ReportMapRun(p: Job, s: State, w: WorkerID) returns (steps: seq<Step>, s': State)
    requires p.n > 0 && ActivityOf(s, w).MapRun? && ActivityOf(s, w).next == ActivityOf(s, w).buckets
    ensures Trip(p, s, steps, s', w) && ActivityOf(s', w).Idle? && s'.stores == s.stores
    ensures s'.tables == T.Apply(s.tables, T.Complete(T.Mapping, ActivityOf(s, w).id, p.address(w)))
  {
    hide T.Apply; hide ActivityOf; hide Reaches; hide Trip;
    var e := T.Complete(T.Mapping, ActivityOf(s, w).id, p.address(w));
    s' := ReportAndDeliver(p, s, ReportMap(w), e);
    steps := [ReportMap(w), Deliver(e)];
    AfterReport(p, s, w, ReportMap(w), s'.tables, steps, s');
  }

  lemma AskForMap(p: Job, s: State, w: WorkerID, e: T.Event) returns (s': State)
    requires p.n > 0 && Inv(p, s) && ActivityOf(s, w).Idle? && T.Enabled(s.tables, e) && e.GiveMap?
    ensures Trip(p, s, [Request(w, e, true)], s', w)
    ensures ActivityOf(s', w).MapRun? && ActivityOf(s', w).id == e.id
    ensures ActivityOf(s', w).next == 0 && ActivityOf(s', w).buckets == p.n
    ensures s'.tables == T.Apply(s.tables, e)
  {
    hide T.Apply; hide Reaches; hide ActivitiesOk; hide StoresOk; hide ReportsOk; hide FinishedOk; hide T.BooksKept;
    s' := Apply(p, s, Request(w, e, true));
    assert IsMapId(p, e.id) && s.tables.maps[e.id].buckets == p.n;
    TripStep(p, s, Request(w, e, true), w);
  }

  lemma NoFiles(s: State, d: Directory, id: TaskID)
    ensures HasFiles(s, d, id, 0)
  {
  }

  lemma SameFiles(s: State, s': State, d: Directory, id: TaskID, k: nat)
    requires HasFiles(s, d, id, k) && s'.stores == s.stores
    ensures HasFiles(s', d, id, k)
  {
  }

  /** A map task, from the request to the delivered report. */
  lemma MapRound(p: Job, s: State, w: WorkerID, e: T.Event) returns (steps: seq<Step>, s': State)
    requires p.n > 0 && Inv(p, s) && ActivityOf(s, w).Idle? && T.Enabled(s.tables, e) && e.GiveMap?
    ensures Trip(p, s, steps, s', w) && ActivityOf(s', w).Idle?
    ensures s'.tables == T.Apply(T.Apply(s.tables, e), T.Complete(T.Mapping, e.id, p.address(w)))
    ensures HasFiles(s', p.home(w), e.id, p.n)
  {
    hide *;
    var ask := Request(w, e, true);
    var s1 := AskForMap(p, s, w, e);
    NoFiles(s1, p.home(w), e.id);
    var writes, s2 := WriteAll(p, s1, w);
    var report, s3 := ReportMapRun(p, s2, w);
    SameFiles(s2, s3, p.home(w), e.id, p.n);
    TripAppend(p, s, [ask], s1, writes, s2, w);
    TripAppend(p, s, [ask] + writes, s2, report, s3, w);
    steps, s' := [ask] + writes + report, s3;
  }

  // ---- running a reduce task ---------------------------------------------------------------

  /** Worker w, told that the outputs of map task id are at a, can get the file of bucket b. */
  ghost predicate Fetchable(p: Job, s: State, w: WorkerID, a: Address, id: TaskID, b: nat)
  {
    exists server :: Serves(p, server, a, w) && (id, b) in StoreOf(s, p.home(server))
  }

  lemma FetchOne(p: Job, s: State, w: WorkerID, m: TaskID) returns (step: Step, s': State)
    requires p.n > 0 && ActivityOf(s, w).ReduceRun? && m in ActivityOf(s, w).left
    requires Fetchable(p, s, w, ActivityOf(s, w).left[m], m, ActivityOf(s, w).bucket)
    ensures Trip(p, s, [step], s', w) && s'.tables == s.tables && s'.stores == s.stores
    ensures ActivityOf(s', w).ReduceRun? && ActivityOf(s', w).left == ActivityOf(s, w).left - {m}
    ensures ActivityOf(s', w).id == ActivityOf(s, w).id && ActivityOf(s', w).bucket == ActivityOf(s, w).bucket
  {
    hide Reaches;
    var x := ActivityOf(s, w);
    var server :| Serves(p, server, x.left[m], w) && (m, x.bucket) in StoreOf(s, p.home(server));
    step := Fetch(w, m, server);
    s' := Apply(p, s, step);
    TripStep(p, s, step, w);
  }

  lemma OneFewer(left: map<TaskID, Address>, m: TaskID)
    requires m in left
    ensures |left - {m}| < |left|
    ensures forall k | k in left - {m} :: k in left && (left - {m})[k] == left[k]
  {
    assert (left - {m}).Keys == left.Keys - {m};
    assert |left - {m}| == |(left - {m}).Keys| && |left| == |left.Keys|;
  }

  lemma SameFetchable(p: Job, s: State, s': State, w: WorkerID, a: Address, id: TaskID, b: nat)
    requires s'.stores == s.stores
    ensures Fetchable(p, s', w, a, id, b) <==> Fetchable(p, s, w, a, id, b)
  {
    hide Serves;
    assert forall d :: StoreOf(s', d) == StoreOf(s, d);
  }

  /** What is left is left of `from`, and cannot be had. */
  ghost predicate Stuck(p: Job, s: State, w: WorkerID, from: map<TaskID, Address>, b: nat, left: map<TaskID, Address>)
  {
    forall m | m in left :: m in from && left[m] == from[m] && !Fetchable(p, s, w, from[m], m, b)
  }

  lemma StuckLonger(p: Job, s: State, s': State, w: WorkerID, from: map<TaskID, Address>, m: TaskID, b: nat, left: map<TaskID, Address>)
    requires Stuck(p, s', w, from - {m}, b, left) && m in from && s'.stores == s.stores
    ensures Stuck(p, s, w, from, b, left)
  {
    hide Fetchable;
    OneFewer(from, m);
    forall k | k in left ensures k in from && left[k] == from[k] && !Fetchable(p, s, w, from[k], k, b) {
      SameFetchable(p, s, s', w, from[k], k, b);
    }
  }

  /** Fetches until nothing is left that can be had. */
  lemma {:induction false} FetchAll(p: Job, s: State, w: WorkerID) returns (steps: seq<Step>, s': State)
    requires p.n > 0 && ActivityOf(s, w).ReduceRun?
    ensures Trip(p, s, steps, s', w) && s'.tables == s.tables && s'.stores == s.stores && ActivityOf(s', w).ReduceRun?
    ensures ActivityOf(s', w).id == ActivityOf(s, w).id && ActivityOf(s', w).bucket == ActivityOf(s, w).bucket
    ensures Stuck(p, s, w, ActivityOf(s, w).left, ActivityOf(s, w).bucket, ActivityOf(s', w).left)
    decreases |ActivityOf(s, w).left|
  {
    hide Trip; hide Fetchable; hide ActivityOf;
    var x := ActivityOf(s, w);
    if m :| m in x.left && Fetchable(p, s, w, x.left[m], m, x.bucket) {
      hide Stuck;
      var step, s1 := FetchOne(p, s, w, m);
      OneFewer(x.left, m);
      var rest;
      rest, s' := FetchAll(p, s1, w);
      TripAppend(p, s, [step], s1, rest, s', w);
      StuckLonger(p, s, s1, w, x.left, m, x.bucket, ActivityOf(s', w).left);
      steps := [step] + rest;
    } else {
      steps, s' := [], s;
      NoTrip(p, s, w);
    }
  }

  lemma {:induction false} LeastKey(keys: set<string>) returns (k: string)
    requires keys != {}
    ensures k in keys && forall x | x in keys && x != k :: StringLess(k, x)
    decreases keys
  {
    k :| k in keys;
    if keys != {k} {
      var least := LeastKey(keys - {k});
      StringLessTotal(k, least);
      if StringLess(least, k) {
        k := least;
      } else {
        forall x | x in keys && x != k ensures StringLess(k, x) {
          if x != least { StringLessTransitive(k, least, x); }
        }
      }
    }
  }

  lemma TableCons(k: string, v: string, tail: seq<KeyValue>, rest: map<string, string>, m: map<string, string>)
    requires IsTable(tail, rest) && k in m && m[k] == v && rest == m - {k} && forall x | x in m && x != k :: StringLess(k, x)
    ensures IsTable([KeyValue(k, v)] + tail, m)
  {
    hide StringLess; hide ValuesOf;
    var out := [KeyValue(k, v)] + tail;
    KeysAppend([KeyValue(k, v)], tail);
    assert KeysOf([KeyValue(k, v)]) == {k};
    hide KeysOf;
    assert rest.Keys == m.Keys - {k};
    forall i, j | 0 <= i < j < |out| ensures StringLess(out[i].key, out[j].key) {
      if i == 0 { assert tail[j - 1].key in rest; } else { assert StringLess(tail[i - 1].key, tail[j - 1].key); }
    }
    forall i | 0 <= i < |out| ensures out[i].key in m && m[out[i].key] == out[i].value {
      if i > 0 { assert tail[i - 1].key in rest; }
    }
  }

  /** Every result can be written as a table. */
  lemma {:induction false} TableExists(m: map<string, string>) returns (out: seq<KeyValue>)
    ensures IsTable(out, m)
    decreases m.Keys
  {
    if m == map[] {
      out := [];
      assert KeysOf([]) == {};
    } else {
      hide *;
      var k := LeastKey(m.Keys);
      var rest := m - {k};
      assert rest.Keys == m.Keys - {k};
      var tail := TableExists(rest);
      TableCons(k, m[k], tail, rest, m);
      out := [KeyValue(k, m[k])] + tail;
    }
  }

  lemma ReportReduceRun(p: Job, s: State, w: WorkerID) returns (steps: seq<Step>, s': State)
    requires p.n > 0 && ActivityOf(s, w).ReduceRun? && ActivityOf(s, w).left == map[]
    ensures Trip(p, s, steps, s', w) && ActivityOf(s', w).Idle? && s'.stores == s.stores
    ensures s'.tables == T.Apply(s.tables, T.Complete(T.Reducing, ActivityOf(s, w).id, p.address(w)))
  {
    hide T.Apply; hide IsTable; hide Reduced; hide ActivityOf; hide Reaches; hide Trip;
    var e := T.Complete(T.Reducing, ActivityOf(s, w).id, p.address(w));
    var out := TableExists(Reduced(p.reducef, ActivityOf(s, w).pairs));
    s' := ReportAndDeliver(p, s, ReportReduce(w, out), e);
    steps := [ReportReduce(w, out), Deliver(e)];
    AfterReport(p, s, w, ReportReduce(w, out), s'.tables, steps, s');
  }

  lemma ReportMissing(p: Job, s: State, w: WorkerID, m: TaskID) returns (steps: seq<Step>, s': State)
    requires p.n > 0 && ActivityOf(s, w).ReduceRun? && m in ActivityOf(s, w).left
    ensures Trip(p, s, steps, s', w) && ActivityOf(s', w).Idle? && s'.stores == s.stores
    ensures s'.tables == T.Apply(s.tables, T.Missing(m))
  {
    hide T.Apply; hide ActivityOf; hide Reaches; hide Trip;
    s' := ReportAndDeliver(p, s, FetchFails(w, m), T.Missing(m));
    steps := [FetchFails(w, m), Deliver(T.Missing(m))];
    AfterReport(p, s, w, FetchFails(w, m), s'.tables, steps, s');
  }

  /** Worker w asks for a reduce task; the reply is not encoded yet. */
  lemma AskAndWait(p: Job, s: State, w: WorkerID, e: T.Event) returns (s': State)
    requires p.n > 0 && ActivityOf(s, w).Idle? && T.Enabled(s.tables, e) && e.GiveReduce?
    ensures Trip(p, s, [Request(w, e, true)], s', w) && ActivityOf(s', w) == Awaiting(e.id)
    ensures s'.tables == T.Apply(s.tables, e) && s'.stores == s.stores
  {
    hide T.Apply; hide Reaches;
    s' := Apply(p, s, Request(w, e, true));
    TripStep(p, s, Request(w, e, true), w);
  }

  lemma ReplyAtOnce(p: Job, s: State, w: WorkerID) returns (s': State)
    requires p.n > 0 && ActivityOf(s, w).Awaiting? && ActivityOf(s, w).id in s.tables.reduces && T.MapsDone(s.tables)
    ensures Trip(p, s, [Encode(w)], s', w) && ActivityOf(s', w) == Encoded(s, ActivityOf(s, w).id)
    ensures s'.tables == s.tables && s'.stores == s.stores
  {
    hide T.MapsDone; hide Reaches;
    s' := Apply(p, s, Encode(w));
    TripStep(p, s, Encode(w), w);
  }

  lemma Handed(t: T.Tables, e: T.Event)
    requires T.Enabled(t, e) && e.GiveReduce?
    ensures T.MapsDone(t) && T.MapsDone(T.Apply(t, e)) && e.id in t.reduces && e.id in T.Apply(t, e).reduces
    ensures T.Apply(t, e).reduces[e.id].bucket == t.reduces[e.id].bucket
    ensures T.Apply(t, e).reduces[e.id].outputs == t.reduces[e.id].outputs
  {
    hide T.NoMapToAssign;
  }

  /** Asks for a reduce task and gets the reply at once. */
  lemma AskForReduce(p: Job, s: State, w: WorkerID, e: T.Event) returns (steps: seq<Step>, s': State)
    requires p.n > 0 && ActivityOf(s, w).Idle? && T.Enabled(s.tables, e) && e.GiveReduce?
    ensures Trip(p, s, steps, s', w) && s'.tables == T.Apply(s.tables, e) && s'.stores == s.stores
    ensures e.id in s.tables.reduces
    ensures ActivityOf(s', w) == ReduceRun(e.id, s.tables.reduces[e.id].bucket, s.tables.reduces[e.id].outputs.Keys,
                                             s.tables.reduces[e.id].outputs, [], [])
  {
    hide Trip; hide ActivityOf; hide T.Enabled; hide T.Apply; hide T.MapsDone;
    Handed(s.tables, e);
    var s1 := AskAndWait(p, s, w, e);
    s' := ReplyAtOnce(p, s1, w);
    TripAppend(p, s, [Request(w, e, true)], s1, [Encode(w)], s', w);
    steps := [Request(w, e, true)] + [Encode(w)];
  }

  /** A file of map task m cannot be had by w for the reduce task that e hands out. */
  ghost predicate Lost(p: Job, s: State, w: WorkerID, e: T.Event, m: TaskID)
    requires T.Enabled(s.tables, e) && e.GiveReduce?
  {
    var t := s.tables.reduces[e.id];
    m in t.outputs && !Fetchable(p, s, w, t.outputs[m], m, t.bucket)
  }

  lemma StuckIsLost(p: Job, s: State, s1: State, w: WorkerID, e: T.Event, left: map<TaskID, Address>, m: TaskID)
    requires T.Enabled(s.tables, e) && e.GiveReduce? && s1.stores == s.stores && m in left
    requires Stuck(p, s1, w, s.tables.reduces[e.id].outputs, s.tables.reduces[e.id].bucket, left)
    ensures Lost(p, s, w, e, m)
  {
    hide T.NoMapToAssign; hide T.MapsDone; hide Fetchable;
    SameFetchable(p, s, s1, w, left[m], m, s.tables.reduces[e.id].bucket);
  }

  /** A reduce task, from the request to a delivered report: of completion, or of outputs that are lost. */
  lemma ReduceRound(p: Job, s: State, w: WorkerID, e: T.Event) returns (steps: seq<Step>, s': State, report: T.Event)
    requires p.n > 0 && ActivityOf(s, w).Idle? && T.Enabled(s.tables, e) && e.GiveReduce?
    ensures Trip(p, s, steps, s', w) && ActivityOf(s', w).Idle? && s'.stores == s.stores
    ensures report == T.Complete(T.Reducing, e.id, p.address(w)) || (report.Missing? && Lost(p, s, w, e, report.id))
    ensures s'.tables == T.Apply(T.Apply(s.tables, e), report)
  {
    hide *;
    var ask, s1 := AskForReduce(p, s, w, e);
    var fetches, s2 := FetchAll(p, s1, w);
    var left := ActivityOf(s2, w).left;
    var told, s3;
    if m :| m in left {
      StuckIsLost(p, s, s1, w, e, left, m);
      told, s3 := ReportMissing(p, s2, w, m);
      report := T.Missing(m);
    } else {
      assert left == map[];
      told, s3 := ReportReduceRun(p, s2, w);
      report := T.Complete(T.Reducing, e.id, p.address(w));
    }
    TripAppend(p, s, ask, s1, fetches, s2, w);
    TripAppend(p, s, ask + fetches, s2, told, s3, w);
    steps, s' := ask + fetches + told, s3;
  }

  // ---- what is left to do --------------------------------------------------------------------

  /** The first reduce task; all know the same addresses. */
  ghost function Addresses(p: Job, t: T.Tables): (r: map<TaskID, Address>)
  {
    if |p.names| + 1 in t.reduces then t.reduces[|p.names| + 1].outputs else map[]
  }

  /** Worker w can get all outputs of map task id. */
  ghost predicate Safe(p: Job, s: State, w: WorkerID, id: TaskID)
  {
    id in Addresses(p, s.tables) && forall b: nat | b < p.n :: Fetchable(p, s, w, Addresses(p, s.tables)[id], id, b)
  }

  /** Finished map tasks with an output that w cannot get. */
  ghost function Unsafe(p: Job, s: State, w: WorkerID): (ids: set<TaskID>)
  {
    set id | id in T.DoneMaps(s.tables) && !Safe(p, s, w, id)
  }

  /** A bound on the rounds left: a lost output costs one to notice and one to redo. */
  ghost function Todo(p: Job, s: State, w: WorkerID): (n: nat)
  {
    2 * |T.UndoneMaps(s.tables)| + 3 * |Unsafe(p, s, w)| + |T.UndoneReduces(s.tables)|
  }

  lemma SafeStays(p: Job, s: State, s': State, w: WorkerID, id: TaskID)
    requires Safe(p, s, w, id) && Grown(s, s', w)
    requires id in Addresses(p, s'.tables) && Addresses(p, s'.tables)[id] == Addresses(p, s.tables)[id]
    ensures Safe(p, s', w, id)
  {
    hide Addresses; hide StoreOf; hide Serves;
    forall b: nat | b < p.n ensures Fetchable(p, s', w, Addresses(p, s'.tables)[id], id, b) {
      assert Fetchable(p, s, w, Addresses(p, s.tables)[id], id, b);
    }
  }

  lemma {:induction false} Smaller<X>(a: set<X>, b: set<X>)
    requires a <= b
    ensures |a| <= |b|
  {
    if a != {} {
      var x :| x in a;
      Smaller(a - {x}, b - {x});
    }
  }

  /** Where finished map tasks keep their addresses and their files, none becomes unsafe. */
  lemma UnsafeShrinks(p: Job, s: State, s': State, w: WorkerID, gone: set<TaskID>)
    requires Grown(s, s', w)
    requires forall id | id in T.DoneMaps(s'.tables) && !Safe(p, s', w, id) :: id in T.DoneMaps(s.tables) && id !in gone
    requires forall id | id in T.DoneMaps(s'.tables) && id in Addresses(p, s.tables) && !Safe(p, s', w, id) ::
      id in Addresses(p, s'.tables) && Addresses(p, s'.tables)[id] == Addresses(p, s.tables)[id]
    ensures Unsafe(p, s', w) <= Unsafe(p, s, w) - gone
    ensures |Unsafe(p, s', w)| <= |Unsafe(p, s, w) - gone|
  {
    hide Grown; hide Safe; hide Addresses; hide T.DoneMaps;
    forall id | id in Unsafe(p, s', w) ensures id in Unsafe(p, s, w) - gone {
      if Safe(p, s, w, id) {
        SafeHasAddress(p, s, w, id);
        SafeStays(p, s, s', w, id);
      }
    }
    Smaller(Unsafe(p, s', w), Unsafe(p, s, w) - gone);
  }

  lemma SafeHasAddress(p: Job, s: State, w: WorkerID, id: TaskID)
    requires Safe(p, s, w, id)
    ensures id in Addresses(p, s.tables)
  {
  }

  lemma OwnFilesSafe(p: Job, s: State, w: WorkerID, id: TaskID)
    requires HasFiles(s, p.home(w), id, p.n)
    requires id in Addresses(p, s.tables) && Addresses(p, s.tables)[id] == p.address(w)
    ensures Safe(p, s, w, id)
  {
    forall b: nat | b < p.n ensures Fetchable(p, s, w, Addresses(p, s.tables)[id], id, b) {
      assert Serves(p, w, p.address(w), w) && (id, b) in StoreOf(s, p.home(w));
    }
  }

  lemma MapTables(p: Job, t: T.Tables, e: T.Event, a: Address)
    requires p.n > 0 && TablesOk(p, t) && T.Enabled(t, e) && e.GiveMap?
    ensures var t' := T.Apply(T.Apply(t, e), T.Complete(T.Mapping, e.id, a));
      && Addresses(p, t') == Addresses(p, t)[e.id := a]
      && T.DoneMaps(t') == T.DoneMaps(t) + {e.id}
      && T.UndoneMaps(t') == T.UndoneMaps(t) - {e.id} && e.id in T.UndoneMaps(t)
      && T.UndoneReduces(t') == T.UndoneReduces(t)
  {
    assert IsReduceId(p, |p.names| + 1);
    hide T.BooksKept; hide T.NoMapToAssign; hide T.MapsDone;
  }

  lemma MapLess(p: Job, s: State, w: WorkerID, e: T.Event, s': State)
    requires p.n > 0 && TablesOk(p, s.tables) && T.Enabled(s.tables, e) && e.GiveMap? && Grown(s, s', w)
    requires s'.tables == T.Apply(T.Apply(s.tables, e), T.Complete(T.Mapping, e.id, p.address(w)))
    requires HasFiles(s', p.home(w), e.id, p.n)
    ensures Todo(p, s', w) < Todo(p, s, w)
  {
    hide *;
    MapTables(p, s.tables, e, p.address(w));
    OwnFilesSafe(p, s', w, e.id);
    UnsafeShrinks(p, s, s', w, {});
    assert Unsafe(p, s, w) - {} == Unsafe(p, s, w);
    TodoLess(p, s, w, s', e.id);
  }

  lemma TodoLess(p: Job, s: State, w: WorkerID, s': State, id: TaskID)
    requires T.UndoneMaps(s'.tables) == T.UndoneMaps(s.tables) - {id} && id in T.UndoneMaps(s.tables)
    requires T.UndoneReduces(s'.tables) == T.UndoneReduces(s.tables)
    requires |Unsafe(p, s', w)| <= |Unsafe(p, s, w)|
    ensures Todo(p, s', w) < Todo(p, s, w)
  {
    hide T.UndoneMaps; hide T.UndoneReduces; hide Unsafe;
  }

  lemma ReduceTables(p: Job, t: T.Tables, e: T.Event, a: Address)
    requires TablesOk(p, t) && T.Enabled(t, e) && e.GiveReduce?
    ensures var t' := T.Apply(T.Apply(t, e), T.Complete(T.Reducing, e.id, a));
      && Addresses(p, t') == Addresses(p, t) && T.DoneMaps(t') == T.DoneMaps(t)
      && T.UndoneMaps(t') == T.UndoneMaps(t)
      && T.UndoneReduces(t') == T.UndoneReduces(t) - {e.id} && e.id in T.UndoneReduces(t)
  {
    hide T.BooksKept; hide T.NoMapToAssign; hide T.MapsDone;
  }

  lemma ReduceLess(p: Job, s: State, w: WorkerID, e: T.Event, s': State)
    requires p.n > 0 && TablesOk(p, s.tables) && T.Enabled(s.tables, e) && e.GiveReduce? && Grown(s, s', w)
    requires s'.tables == T.Apply(T.Apply(s.tables, e), T.Complete(T.Reducing, e.id, p.address(w)))
    ensures Todo(p, s', w) < Todo(p, s, w)
  {
    hide T.UndoneMaps; hide T.UndoneReduces; hide Unsafe; hide TablesOk; hide T.Enabled; hide T.Apply; hide Grown; hide T.DoneMaps; hide Addresses;
    ReduceTables(p, s.tables, e, p.address(w));
    DoneHaveAddresses(p, s.tables);
    UnsafeSame(p, s, s', w);
  }

  lemma DoneHaveAddresses(p: Job, t: T.Tables)
    requires p.n > 0 && TablesOk(p, t)
    ensures T.DoneMaps(t) == Addresses(p, t).Keys
  {
    hide T.DoneMaps;
    assert IsReduceId(p, |p.names| + 1);
  }

  lemma UnsafeSame(p: Job, s: State, s': State, w: WorkerID)
    requires Grown(s, s', w) && Addresses(p, s'.tables) == Addresses(p, s.tables)
    requires T.DoneMaps(s'.tables) == T.DoneMaps(s.tables) && T.DoneMaps(s.tables) <= Addresses(p, s.tables).Keys
    ensures |Unsafe(p, s', w)| <= |Unsafe(p, s, w)|
  {
    hide *;
    UnsafeShrinks(p, s, s', w, {});
    assert Unsafe(p, s, w) - {} == Unsafe(p, s, w);
  }

  lemma KnownOutput(p: Job, t: T.Tables, id: TaskID, m: TaskID)
    requires p.n > 0 && TablesOk(p, t) && id in t.reduces && m in t.reduces[id].outputs
    ensures Addresses(p, t) == t.reduces[id].outputs && t.reduces[id].bucket < p.n
    ensures m in T.DoneMaps(t) && m !in T.UndoneMaps(t)
  {
    assert IsReduceId(p, |p.names| + 1);
  }

  lemma ResetTables(p: Job, t: T.Tables, e: T.Event, m: TaskID)
    requires T.Enabled(t, e) && e.GiveReduce? && m in T.DoneMaps(t)
    ensures var t' := T.Apply(T.Apply(t, e), T.Missing(m));
      && Addresses(p, t') == Addresses(p, t) - {m} && T.DoneMaps(t') == T.DoneMaps(t) - {m}
      && T.UndoneMaps(t') == T.UndoneMaps(t) + {m}
      && T.UndoneReduces(t') == T.UndoneReduces(t)
  {
    hide T.NoMapToAssign; hide T.MapsDone;
  }

  lemma MissingTables(p: Job, t: T.Tables, e: T.Event, m: TaskID)
    requires p.n > 0 && TablesOk(p, t) && T.Enabled(t, e) && e.GiveReduce? && m in t.reduces[e.id].outputs
    ensures m in Addresses(p, t) && Addresses(p, t) == t.reduces[e.id].outputs && t.reduces[e.id].bucket < p.n
    ensures m in T.DoneMaps(t) && m !in T.UndoneMaps(t)
    ensures var t' := T.Apply(T.Apply(t, e), T.Missing(m));
      && Addresses(p, t') == Addresses(p, t) - {m} && T.DoneMaps(t') == T.DoneMaps(t) - {m}
      && T.UndoneMaps(t') == T.UndoneMaps(t) + {m}
      && T.UndoneReduces(t') == T.UndoneReduces(t)
  {
    hide *;
    Handed(t, e);
    KnownOutput(p, t, e.id, m);
    ResetTables(p, t, e, m);
  }

  lemma LostIsUnsafe(p: Job, s: State, w: WorkerID, e: T.Event, m: TaskID)
    requires p.n > 0 && TablesOk(p, s.tables) && T.Enabled(s.tables, e) && e.GiveReduce? && Lost(p, s, w, e, m)
    ensures m in s.tables.reduces[e.id].outputs && m in Unsafe(p, s, w)
  {
    hide TablesOk; hide T.NoMapToAssign; hide T.MapsDone; hide Fetchable; hide T.DoneMaps; hide Addresses;
    MissingTables(p, s.tables, e, m);
    var b := s.tables.reduces[e.id].bucket;
    assert b < p.n && !Fetchable(p, s, w, Addresses(p, s.tables)[m], m, b);
  }

  lemma MissingTodo(p: Job, s: State, w: WorkerID, s': State, m: TaskID)
    requires T.UndoneMaps(s'.tables) == T.UndoneMaps(s.tables) + {m} && T.UndoneReduces(s'.tables) == T.UndoneReduces(s.tables)
    requires m in Unsafe(p, s, w) && |Unsafe(p, s', w)| <= |Unsafe(p, s, w) - {m}|
    ensures Todo(p, s', w) < Todo(p, s, w)
  {
    hide T.UndoneMaps; hide T.UndoneReduces; hide Unsafe;
  }

  lemma MissingLess(p: Job, s: State, w: WorkerID, e: T.Event, s': State, m: TaskID)
    requires p.n > 0 && TablesOk(p, s.tables) && T.Enabled(s.tables, e) && e.GiveReduce? && Grown(s, s', w)
    requires Lost(p, s, w, e, m) && s'.tables == T.Apply(T.Apply(s.tables, e), T.Missing(m))
    ensures Todo(p, s', w) < Todo(p, s, w)
  {
    hide *;
    LostIsUnsafe(p, s, w, e, m);
    MissingTables(p, s.tables, e, m);
    UnsafeShrinks(p, s, s', w, {m});
    MissingTodo(p, s, w, s', m);
  }

  // ---- the job gets done -----------------------------------------------------------------------

  /** One round of worker w on whatever e hands it. */
  lemma Round(p: Job, s: State, w: WorkerID, e: T.Event) returns (steps: seq<Step>, s': State)
    requires ValidJob(p) && Inv(p, s) && ActivityOf(s, w).Idle? && T.Enabled(s.tables, e) && T.IsGive(e)
    ensures Trip(p, s, steps, s', w) && ActivityOf(s', w).Idle? && Inv(p, s')
    ensures Todo(p, s', w) < Todo(p, s, w)
  {
    hide *;
    ValidJobHasBuckets(p);
    InvTables(p, s);
    MapOrReduce(e);
    if e.GiveMap? {
      steps, s' := MapRound(p, s, w, e);
      TripParts(p, s, steps, s', w);
      MapLess(p, s, w, e, s');
    } else {
      var report;
      steps, s', report := ReduceRound(p, s, w, e);
      TripParts(p, s, steps, s', w);
      if report.Missing? {
        MissingLess(p, s, w, e, s', report.id);
      } else {
        ReduceLess(p, s, w, e, s');
      }
    }
    ReachesInv(p, s, steps, s');
  }

  lemma MapOrReduce(e: T.Event)
    requires T.IsGive(e)
    ensures e.GiveMap? || e.GiveReduce?
  {
  }

  lemma TripParts(p: Job, s: State, steps: seq<Step>, s': State, w: WorkerID)
    requires p.n > 0 && Trip(p, s, steps, s', w)
    ensures Reaches(p, s, steps, s') && Grown(s, s', w)
  {
    hide Reaches; hide Grown;
  }

  /** A way for the coordinator to choose: while there is work, some task at some time from `now` on. */
  type Choice = (T.Tables, int) -> T.Event

  ghost predicate Chooses(pick: Choice)
  {
    forall t, now | !T.JobDone(t) :: T.Enabled(t, pick(t, now)) && T.IsGive(pick(t, now)) && now <= pick(t, now).now
  }

  /**
   Whatever the coordinator chooses to hand out, a worker that runs what it gets brings the
   job to its end from any state that satisfies the invariant: each round leaves less to do.
   Nobody else need do anything, and nobody else is disturbed.
   */
  lemma {:induction false} WorkerFinishesJob(p: Job, s: State, w: WorkerID, pick: Choice, now: int) returns (steps: seq<Step>, s': State)
    requires ValidJob(p) && Inv(p, s) && ActivityOf(s, w).Idle? && Chooses(pick)
    ensures Trip(p, s, steps, s', w) && Inv(p, s') && T.JobDone(s'.tables)
    decreases Todo(p, s, w)
  {
    hide *;
    ValidJobHasBuckets(p);
    if T.JobDone(s.tables) {
      steps, s' := [], s;
      NoTrip(p, s, w);
    } else {
      var e := pick(s.tables, now);
      Chosen(pick, s.tables, now);
      var first, s1 := Round(p, s, w, e);
      var rest;
      rest, s' := WorkerFinishesJob(p, s1, w, pick, e.mark);
      TripAppend(p, s, first, s1, rest, s', w);
      steps := first + rest;
    }
  }

  lemma Chosen(pick: Choice, t: T.Tables, now: int)
    requires Chooses(pick) && !T.JobDone(t)
    ensures T.Enabled(t, pick(t, now)) && T.IsGive(pick(t, now))
    ensures pick(t, now).GiveMap? || pick(t, now).GiveReduce?
  {
    hide T.JobDone; hide T.Enabled;
  }

  /** There are such choices. */
  ghost function AnyChoice(t: T.Tables, now: int): (e: T.Event)
    ensures !T.JobDone(t) ==> T.Enabled(t, e) && T.IsGive(e) && now <= e.now
  {
    T.GiveUnlessDone(t, now);
    if e :| T.Enabled(t, e) && T.IsGive(e) && now <= e.now then e else T.Missing(0)
  }

  lemma AnyChoiceChooses()
    ensures Chooses(AnyChoice)
  {
    hide T.JobDone; hide T.Enabled;
  }

  /** Every run of every job can be brought to its end by any one worker that is idle or new. */
  lemma EveryRunCanFinish(p: Job, run: seq<State>, steps: seq<Step>, w: WorkerID, now: int) returns (more: seq<Step>, final: State)
    requires ValidJob(p) && IsRun(p, run, steps) && ActivityOf(run[|steps|], w).Idle?
    ensures Trip(p, run[|steps|], more, final, w) && T.JobDone(final.tables)
  {
    hide *;
    ValidJobHasBuckets(p);
    RunShape(p, run, steps);
    RunInv(p, run, steps, |steps|);
    AnyChoiceChooses();
    more, final := WorkerFinishesJob(p, run[|steps|], w, AnyChoice, now);
  }
}
